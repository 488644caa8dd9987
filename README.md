# minion-manager, modelled in Dafny

minion-manager keeps a Minecraft client connected to the Hypixel server
and lets its owner drive the client from a Telegram bot. This project
models the core of it and proves properties of that model:

- **Disconnect recovery** (`reconnector.dfy`). Each game log line is
  classified as a disconnection, a join or unrelated. The disconnection
  patterns are tried first. A retry counter bounded by
  `MAX_RECONNECT_TRIES = 5` chooses between `connect()` and `relaunch()`,
  and a join resets it. A new crash report always relaunches and never
  touches the counter. The policy is stated as functions over a finite
  sequence of lines. The `MinecraftServerReconnector` class runs it against
  the game controller and is proved to follow those functions.
- **Game action scripts** (`minecraft_game.dfy`). Every `Minecraft`
  operation appends a fixed, ordered sequence of focus, key, click and
  process actions to a trace. The trace keeps an invariant: every key
  press comes right after a focus of the game window and right before the
  release of the same key.
- **Chest slot geometry** (`chests.dfy`): validating a slot and mapping it
  to screen coordinates.
- **Bot commands** (`commands.dfy`). This covers extracting the most recent
  stats report, the `auth` gate, the `send_image` wrapper, the
  `SolveCaptcha` argument check and the `StartMonitor` guard.
- **Decorators** (`decorators.dfy`): the `Singleton` instance table and the
  bounded retry `retry_no_raise`, which swallows its final error.
- **Window handles** (`windows.dfy`). The last enumerated window whose
  title matches wins. `focus` re-resolves the handle on each of up to
  three attempts.
- **Repository installer** (`repo_installer.dfy`). The root files of a
  GitHub repository are base64-decoded and written under an install
  directory. Ignored names are skipped, and the first failure stops the
  install. `base64.dfy` holds the encoding of section 4 of RFC 4648, with
  CPython's `b64decode` rules and a proved round trip. The round trip also
  holds for an encoding broken into lines, which is how GitHub returns file
  contents.
- Support modules: `wrappers.dfy` (`Option`, `Result`), `screen.dfy`
  (`Point`), `config.dfy` (the button positions, key bindings and process
  names of `config.py`), and `text.dfy` (the Python string operations the
  code relies on: `rfind` with an end bound, `strip` with a character set,
  and matching a pattern whose only metacharacter is `.`).

On the reconnect bound (`minecraft/minecraft_reconnector.py:87-94`), a
disconnection relaunches exactly when the counter has reached
`MAX_RECONNECT_TRIES` (`Reconnector.DisconnectAtBound`). Starting from 0,
five consecutive disconnections therefore give five `connect()` calls, and
the sixth gives `relaunch()` (`Reconnector.SixthDisconnectRelaunches`).

Inputs the environment provides are parameters of the model:

- the log lines, and whether the monitor is still up when each line arrives
- the windows each enumeration reports, and whether each activation is accepted
- the outcome of each retried attempt
- the user's repositories and their contents
- the paths that cannot be written
- the stats file, or its absence
- whether the game window's last focus attempt found the window when the live image is taken
- the sender's username

## Model

| member | source | states |
|---|---|---|
| Chests.GetSlotCoordinates | minecraft/chest.py:23-31 | the result is a position exactly when 0 <= slot < rows * slots_per_row; a negative slot is the not-numeric error and a too-large slot the out-of-range error; an accepted slot gets its grid position |
| Chests.Chest.TotalSlots | minecraft/chest.py:20 | the chest holds rows * slots_per_row slots; `Chests.ValidateSlot` accepts exactly the slots below it, and `Chests.SmallChestSlots` gives 27 for the small chest |
| Chests.ValidateSlot | minecraft/chest.py:27-31 | no error exactly when 0 <= slot < rows * slots_per_row; otherwise the error the check raises |
| Chests.SlotCoordinates | minecraft/chest.py:33-38 | for a validated slot, the top-left slot offset by the column and the row, each scaled by the slot distance; what it guarantees is stated by `Chests.SlotCoordinatesInGrid`, `Chests.SlotAtInverts` and `Chests.SlotCoordinatesInjective` |
| Chests.RowColumnDecomposition | minecraft/chest.py:33-35 | a valid slot splits into a row below `rows` and a column below `slots_per_row` with slot = row * slots_per_row + column |
| Chests.FirstSlotIsTopLeft | minecraft/chest.py:36-38 | slot 0 is drawn at the top-left slot itself |
| Chests.SlotCoordinatesInGrid | minecraft/chest.py:33-38 | every valid slot lies within top_left + [0, 38 (slots_per_row - 1)] x [0, 38 (rows - 1)] |
| Chests.SlotAtInverts | minecraft/chest.py:33-38 | the position of a valid slot determines the slot: the inverse mapping recovers it |
| Chests.SlotCoordinatesInjective | minecraft/chest.py:33-38 | distinct valid slots are drawn at distinct positions |
| Chests.SmallChestSlots | minecraft/chest.py:41-48 | the small chest accepts exactly the slots 0 to 26 |
| MinecraftGame.KeyHit | minecraft/minecraft.py:61-65 | a focus of the game window, then the press and the release of the key; `MinecraftGame.KeyHitWellFormed` proves it keeps the key-hit invariant |
| MinecraftGame.DisconnectScript | minecraft/minecraft.py:75-78 | an Esc hit, then the click on the disconnect button; proved well formed by `MinecraftGame.DisconnectScriptWellFormed` |
| MinecraftGame.ReturnToServerListScript | minecraft/minecraft.py:84-86 | a focus of the game window, then the click on the back-to-server-list button |
| MinecraftGame.ConnectToHypixelScript | minecraft/minecraft.py:88-93 | the clicks on the multiplayer, Hypixel and join buttons, in that order, with no focus |
| MinecraftGame.ConnectScript | minecraft/minecraft.py:80-82 | the return to the server list followed by the three joining clicks |
| MinecraftGame.CloseScript | minecraft/minecraft.py:100-103 | the launcher process is killed before the game process |
| MinecraftGame.OpenLauncherScript | minecraft/minecraft.py:111-114 | the launcher executable is started, then the launcher window focused |
| MinecraftGame.StartFromLauncherScript | minecraft/minecraft.py:116-119 | the play click, then a focus of the game window |
| MinecraftGame.LaunchScript | minecraft/minecraft.py:105-109 | open the launcher, start the game from it, then join Hypixel |
| MinecraftGame.RelaunchScript | minecraft/minecraft.py:95-99 | close, then launch; its order is stated by `MinecraftGame.RelaunchOrder` |
| MinecraftGame.ChatScript | minecraft/minecraft.py:54-59 | a focus, a hit of the chat key, the typed message and an Enter hit; proved well formed by `MinecraftGame.ChatScriptWellFormed` |
| MinecraftGame.LiveImageScript | minecraft/minecraft.py:34-36 | a focus of the game window, then the capture only when the window was found |
| MinecraftGame.PressEscapeAsWrittenScript | minecraft/minecraft.py:50-52 | the hit of 't' that `press_escape` makes as written |
| MinecraftGame.PressEscapeScript | minecraft/minecraft.py:50-52 | the Esc hit that `press_escape` is meant to make |
| MinecraftGame.KeyHitWellFormed | minecraft/minecraft.py:61-65 | a key hit is focus, press, release of the same key, so it satisfies the key-hit invariant |
| MinecraftGame.WellFormedAppend | minecraft/minecraft.py:61-65 | the key-hit invariant survives concatenation of traces |
| MinecraftGame.DisconnectScriptWellFormed | minecraft/minecraft.py:75-78 | the Esc hit and the disconnect click satisfy the key-hit invariant |
| MinecraftGame.ChatScriptWellFormed | minecraft/minecraft.py:54-59 | focus, chat key, typed text and Enter satisfy the key-hit invariant for any message |
| MinecraftGame.ScriptsWellFormed | minecraft/minecraft.py:54-119 | the disconnect, connect, relaunch, chat and live-image scripts all satisfy the key-hit invariant |
| MinecraftGame.RelaunchOrder | minecraft/minecraft.py:95-119 | relaunch kills the launcher, then the game, starts and focuses the launcher, clicks play, focuses the game, and ends with the three clicks that end `connect` |
| MinecraftGame.PressEscapeAsWrittenOpensChat | minecraft/minecraft.py:50-59 | `press_escape` as written is exactly the chat-opening key hit of `send_chat_message` and presses no Esc |
| MinecraftGame.PressEscapeBeginsDisconnect | minecraft/minecraft.py:75-78 | the corrected `press_escape` presses Esc and is exactly the key hit that begins `disconnect` |
| MinecraftGame.Minecraft.SaveLiveImage | minecraft/minecraft.py:34-36 | appends a focus of the game window, then the capture to the given path only when the window was found; it reports failure (the raised exception) exactly when it was not |
| MinecraftGame.Minecraft.UpdateMacroConfig | minecraft/minecraft.py:38-40 | appends a hit of the config key binding |
| MinecraftGame.Minecraft.ResetCobbleminerStats | minecraft/minecraft.py:42-44 | appends a hit of the reset-stats key binding |
| MinecraftGame.Minecraft.Refresh | minecraft/minecraft.py:46-48 | appends a hit of the refresh key binding |
| MinecraftGame.Minecraft.PressEscapeAsWritten | minecraft/minecraft.py:50-52 | appends a hit of 't', as the code does |
| MinecraftGame.Minecraft.PressEscape | minecraft/minecraft.py:50-52 | appends a hit of Esc, as the method's name and log line intend |
| MinecraftGame.Minecraft.SendChatMessage | minecraft/minecraft.py:54-59 | appends focus, a 't' hit that opens the chat, the typed message, then an Enter hit |
| MinecraftGame.Minecraft.HitKeyboardButton | minecraft/minecraft.py:61-65 | appends focus, press and release of the key, keeping the key-hit invariant |
| MinecraftGame.Minecraft.ClickChestSlot | minecraft/minecraft.py:67-69 | focuses the game, then clicks the slot's position; an invalid slot returns its error after the focus, with no click |
| MinecraftGame.Minecraft.Reconnect | minecraft/minecraft.py:71-73 | appends exactly the disconnect script followed by the connect script |
| MinecraftGame.Minecraft.Disconnect | minecraft/minecraft.py:75-78 | appends an Esc hit and a click on the disconnect button |
| MinecraftGame.Minecraft.Connect | minecraft/minecraft.py:80-82 | appends focus, back-to-server-list, multiplayer, hypixel and join-server clicks, in that order |
| MinecraftGame.Minecraft.ReturnToServerListMenu | minecraft/minecraft.py:84-86 | appends focus and the back-to-server-list click |
| MinecraftGame.Minecraft.ConnectToHypixel | minecraft/minecraft.py:88-93 | appends the multiplayer, hypixel and join-server clicks |
| MinecraftGame.Minecraft.Relaunch | minecraft/minecraft.py:95-98 | appends the close script followed by the launch script |
| MinecraftGame.Minecraft.CloseMinecraft | minecraft/minecraft.py:100-103 | appends killing the launcher process, then the game process |
| MinecraftGame.Minecraft.LaunchMinecraft | minecraft/minecraft.py:105-109 | appends opening the launcher, starting the game, and the connect clicks |
| MinecraftGame.Minecraft.OpenMinecraftLauncher | minecraft/minecraft.py:111-114 | appends starting the launcher executable and focusing its window |
| MinecraftGame.Minecraft.StartMinecraftFromLauncher | minecraft/minecraft.py:116-119 | appends the play click and a focus of the game window |
| Reconnector.IsDisconnectLine | minecraft/minecraft_reconnector.py:16-19 | a line matches one of the three disconnection patterns: a terminated macro, a failed connection, or a connection closed by the host |
| Reconnector.IsMacroTerminatedLine | minecraft/minecraft_reconnector.py:17 | `.*Terminating .+ active macro`: "Terminating " and " active macro" occur in that order with at least one character between them |
| Reconnector.IsJoinLine | minecraft/minecraft_reconnector.py:20 | a line contains " Joined server" followed by any character (the pattern's final '.') |
| Reconnector.Classify | minecraft/minecraft_reconnector.py:79-85 | a line is a disconnection exactly when it matches a disconnection pattern, and a join exactly when it matches the join pattern but no disconnection pattern |
| Reconnector.ProcessLine | minecraft/minecraft_reconnector.py:79-94 | processing a line keeps the counter within 0..5 |
| Reconnector.DisconnectionStep | minecraft/minecraft_reconnector.py:87-94 | one disconnection issues exactly one command, which is `relaunch()` exactly when the counter is reset to 0; the counter stays within 0..5 |
| Reconnector.Run | minecraft/minecraft_reconnector.py:74-77 | processing lines in order keeps the counter within 0..5 and issues at most one command per line |
| Reconnector.CommandScript | minecraft/minecraft_reconnector.py:87-94 | the game-controller trace of each command: `connect()` (line 89) or `relaunch()` (line 93); used by `Reconnector.MinecraftServerReconnector.HandleDisconnection` |
| Reconnector.JoinResets | minecraft/minecraft_reconnector.py:83-85 | a join line sets the counter to 0 and issues nothing |
| Reconnector.UnrelatedIsIgnored | minecraft/minecraft_reconnector.py:79-85 | a line matching neither pattern changes nothing and issues nothing |
| Reconnector.DisconnectBelowBound | minecraft/minecraft_reconnector.py:88-90 | below the bound a disconnection issues exactly one connect and increments the counter |
| Reconnector.DisconnectAtBound | minecraft/minecraft_reconnector.py:91-94 | at the bound a disconnection issues exactly one relaunch and resets the counter |
| Reconnector.RunAppend | minecraft/minecraft_reconnector.py:74-77 | processing a + b is processing a, then b from the counter a left |
| Reconnector.JoinIsIdempotent | minecraft/minecraft_reconnector.py:83-85 | after any prefix, two join lines in a row have the same effect as one |
| Reconnector.ConsecutiveDisconnects | minecraft/minecraft_reconnector.py:87-94 | n disconnections from counter t leave (t + n) mod 6 and issue a relaunch exactly at the positions k where (t + k) mod 6 = 5, a connect elsewhere |
| Reconnector.DisconnectsWithinBound | minecraft/minecraft_reconnector.py:87-90 | from counter t, n disconnections with t + n <= 5 give n connects and counter t + n |
| Reconnector.FreshDisconnectsOnlyConnect | minecraft/minecraft_reconnector.py:87-90 | from 0, up to five disconnections give that many connects, no relaunch, and that counter |
| Reconnector.SixthDisconnectRelaunches | minecraft/minecraft_reconnector.py:87-94 | from 0, six disconnections give five connects, then one relaunch, and counter 0 |
| Reconnector.FourFailuresThenJoin | minecraft/minecraft_reconnector.py:79-94 | four "Couldn't connect to server" lines and a join line give four connects and counter 0 |
| Reconnector.DisconnectWinsOverJoin | minecraft/minecraft_reconnector.py:79-85 | a line matching both patterns is handled as a disconnection |
| Reconnector.LinesBeforeStop | minecraft/minecraft_reconnector.py:74-76 | the number of lines processed is the index of the first line that arrives when the monitor is down, or all of them |
| Reconnector.CrashDirEventHandler.OnCreated | minecraft/minecraft_reconnector.py:31-34 | a crash report appends exactly the relaunch script |
| Reconnector.MinecraftServerReconnector.constructor | minecraft/minecraft_reconnector.py:42-46 | the counter starts at 0 with a new, unstarted observer |
| Reconnector.MinecraftServerReconnector.InitObserverIfStopped | minecraft/minecraft_reconnector.py:61-64 | the observer is replaced by a fresh one exactly when it is not running; the counter is untouched |
| Reconnector.MinecraftServerReconnector.IsUp | minecraft/minecraft_reconnector.py:58-59 | the monitor is up exactly when its observer is alive; stated by `KeepConnected` (up afterwards) and `Stop` (down afterwards) |
| Reconnector.MinecraftServerReconnector.KeepConnected | minecraft/minecraft_reconnector.py:48-52 | starting succeeds exactly when the monitor was down, and the monitor is up afterwards |
| Reconnector.MinecraftServerReconnector.Stop | minecraft/minecraft_reconnector.py:54-56 | the monitor is down afterwards |
| Reconnector.MinecraftServerReconnector.HandleDisconnection | minecraft/minecraft_reconnector.py:87-94 | the counter and the game trace change as the disconnection step says, and the counter stays within 0..5 |
| Reconnector.MinecraftServerReconnector.ProcessLogLine | minecraft/minecraft_reconnector.py:79-85 | the counter and the game trace change as the line's classification says |
| Reconnector.MinecraftServerReconnector.DetectAndHandleDisconnections | minecraft/minecraft_reconnector.py:71-77 | the lines before the first one seen while down are processed in order, and the counter and game trace are those of processing them |
| Reconnector.MinecraftServerReconnector.DeliverCrashReport | minecraft/minecraft_reconnector.py:31-34 | a crash report, delivered only while the observer runs, relaunches the game and leaves the counter and the observer as they were |
| Reconnector.Observer.Start | minecraft/minecraft_reconnector.py:51 | an observer that was never started starts running; starting it a second time fails and changes nothing (the comment at line 63) |
| Reconnector.Observer.Stop | minecraft/minecraft_reconnector.py:54-56 | the observer is stopped afterwards |
| Reconnector.Observer.IsAlive | minecraft/minecraft_reconnector.py:58-59 | alive exactly while running; used by `Reconnector.MinecraftServerReconnector.IsUp` |
| Decorators.Singleton.Call | utils/decorators.py:47-51 | the first call for a class stores a new instance built from its arguments; every later call returns the stored instance; existing entries are never replaced |
| Decorators.SameInstanceForEveryCall | utils/decorators.py:47-51 | two calls for the same class return the same object, whatever their arguments |
| Decorators.AttemptsMade | utils/decorators.py:13-23 | at least one and at most max(1, stop_max_attempt_number) attempts, none failing before the last, the last being a success or the final allowed one |
| Decorators.AttemptsFrom | utils/decorators.py:16-23 | counting from `done` earlier failed attempts, more attempts are made but never past the limit, none failing before the last, and the last is a success or the final allowed one |
| Decorators.RetryNoRaise | utils/decorators.py:13-25 | the wrapper makes exactly those attempts, returns the last attempt's outcome, and returns nothing instead of raising exactly when every allowed attempt fails |
| Windows.TitleMatches | utils/window.py:62-64 | `re.match` of the window pattern: the title starts with the pattern text, followed by a digit for the game pattern |
| Windows.LastMatch | utils/window.py:57-64 | the handle of the last enumerated window whose title matches; stated by `Windows.LastMatchNoneIffNoMatch` and `Windows.LastMatchIsLast` |
| Windows.AttemptSucceeds | utils/window.py:42-48 | a focus attempt succeeds when a handle was resolved and the activation accepted |
| Windows.FocusCalls | utils/window.py:41-48 | the window-manager calls of the first n attempts; their alternation is stated by `Windows.FocusCallsAlternate` |
| Windows.GameAndLauncherPatternsDisjoint | minecraft/minecraft.py:30-31 | no title matches both the game-window and the launcher-window pattern |
| Windows.LastMatchNoneIffNoMatch | utils/window.py:57-64 | the resolved handle stays `None` exactly when no window title matches the pattern |
| Windows.LastMatchIsLast | utils/window.py:59-64 | a resolved handle belongs to a matching window after which no window matches: later matches overwrite earlier ones |
| Windows.FocusCallsAlternate | utils/window.py:42-45 | attempt i is a window scan followed by an activation of the handle that scan resolved |
| Windows.Window.constructor | utils/window.py:30-34 | construction resolves the handle once |
| Windows.Window.SetWindowHandleByWildcard | utils/window.py:57-60 | the handle is reset, then every window is scanned, leaving the last match |
| Windows.Window.SetHandleIfWildcardMatch | utils/window.py:62-64 | a matching window overwrites the handle; any other window leaves it |
| Windows.Window.BringToForeground | utils/window.py:50-55 | the activation succeeds exactly when a handle is set and the window manager accepts it |
| Windows.Window.FocusAttempt | utils/window.py:42-48 | one attempt re-resolves the handle, then activates it, and fails when either step fails |
| Windows.Window.Focus | utils/window.py:41-48 | the attempts are the ones `retry_no_raise` with 3 attempts makes; each re-resolves before activating; the result says whether the last one succeeded, and nothing is raised |
| Windows.Window.SaveScreenshot | utils/window.py:36-39 | the focus attempts `retry_no_raise` makes come first, then the client-area measurement with the handle the last attempt resolved; the capture is taken exactly when that handle exists, that is exactly when some title matched on the last attempt, and otherwise the measurement raises |
| Base64.Encode | github_utils/repo_installer.py:67 | the padded encoding that `b64decode` inverts (4 characters for every started group of 3 bytes); the content GitHub returns is this encoding broken into lines, which `Base64.DecodeBrokenEncoding` covers |
| Base64.DecodeChars | github_utils/repo_installer.py:67 | the decoding loop only ever appends to the output, and its only failure is a padding error |
| Base64.Decode | github_utils/repo_installer.py:67 | a non-ASCII argument is refused with the `ValueError`, and every other failure is a `binascii.Error` |
| Base64.DecodeEncode | github_utils/repo_installer.py:67 | decoding the base64 encoding of any bytes gives back those bytes |
| Base64.LineBreaksSkipped | github_utils/repo_installer.py:67 | a line break at the head of the remaining input does not change the decoding, in any decoder state |
| Base64.DropBreaks | github_utils/repo_installer.py:67 | the content with its line breaks removed: no longer than the content, with no line break left, and unchanged when it has none |
| Base64.DropBreaksAscii | github_utils/repo_installer.py:67 | a content is ASCII exactly when it is once its line breaks are removed |
| Base64.BreaksSkipped | github_utils/repo_installer.py:67 | line breaks at any point of the remaining input do not change the decoding, in any decoder state |
| Base64.DecodeBrokenEncoding | github_utils/repo_installer.py:67 | a content that is the encoding of some bytes once its line breaks are removed decodes to exactly those bytes |
| RepoInstaller.InstallPathInjective | github_utils/repo_installer.py:63-64 | distinct repository paths are installed at distinct local paths |
| RepoInstaller.Escalate | github_utils/repo_installer.py:50-56 | a GitHub or I/O error becomes `RepoInstallError`; a decoding error passes through unchanged |
| RepoInstaller.InstallPath | github_utils/repo_installer.py:63-64 | the install directory, a backslash, then the entry's path |
| RepoInstaller.FileFailure | github_utils/repo_installer.py:58-69 | what processing an entry raises: nothing for an ignored name, else the fetch error, the decode error, or the write error, in that order |
| RepoInstaller.InstallFrom | github_utils/repo_installer.py:50-56 | the entries processed in order, stopping at the first failure, which becomes `RepoInstallError`; stated by `RepoInstaller.InstallFailsIffSomeEntryFails` and `RepoInstaller.FirstFailureStops` |
| RepoInstaller.ProcessFile | github_utils/repo_installer.py:58-69 | an entry fails exactly as its fetch, decode and write fail; an ignored entry changes nothing; any other entry is written at its install path with its decoded content |
| RepoInstaller.InstallKeepsOtherPaths | github_utils/repo_installer.py:50-61 | when no non-ignored entry of the whole listing installs to a path, that path keeps its contents or stays absent, whether the install completes or stops early; in particular ignored files are never written |
| RepoInstaller.InstallFailsIffSomeEntryFails | github_utils/repo_installer.py:50-56 | the install fails exactly when some entry fails |
| RepoInstaller.FirstFailureStops | github_utils/repo_installer.py:50-56 | a failed install reports the first failing entry's error, with exactly the entries before it installed |
| RepoInstaller.InstallWritesDecodedContents | github_utils/repo_installer.py:63-69 | after a successful install every non-ignored entry is at dir + "\" + path with its decoded content |
| RepoInstaller.InstallRestoresEncodedBytes | github_utils/repo_installer.py:66-69 | an entry whose content is the encoding of some bytes, broken into lines or not, is installed as exactly those bytes |
| RepoInstaller.GetRepo | github_utils/repo_installer.py:44-48 | the first repository with exactly that name, or the `ValueError` when there is none |
| RepoInstaller.CreateInstaller | github_utils/repo_installer.py:29-33 | construction fails exactly when the user has no repository with that name |
| RepoInstaller.Disk.Write | github_utils/repo_installer.py:68-69 | the whole file is replaced, or the `IOError` of a path that cannot be opened leaves the disk unchanged |
| RepoInstaller.GithubRepoInstaller.InstallContentFile | github_utils/repo_installer.py:66-69 | fetch, decode, write; it raises exactly the entry's failure, and writes only when none occurs |
| RepoInstaller.GithubRepoInstaller.ProcessContentFile | github_utils/repo_installer.py:58-61 | ignored entries are skipped, the rest installed |
| RepoInstaller.GithubRepoInstaller.InstallRepo | github_utils/repo_installer.py:50-56 | the disk and the error are those of processing the entries in order and stopping at the first failure |
| RepoInstaller.GithubRepoInstaller.InstallLatestFiles | github_utils/repo_installer.py:35-42 | the install's error is raised again unchanged |
| Text.RFind | bot/commands.py:160-161 | the last occurrence lying wholly before the end bound, or -1 when there is none |
| Text.StripLeading | bot/commands.py:162 | the suffix left after dropping leading characters of the set: everything dropped is in the set, and the rest does not begin with one |
| Text.StripTrailing | bot/commands.py:162 | the prefix left after dropping trailing characters of the set: everything dropped is in the set, and the rest does not end with one |
| Text.Strip | bot/commands.py:162 | the result is no longer than the input and neither begins nor ends with a character of the set |
| Text.StripIsSlice | bot/commands.py:162 | the result is a slice of the input, and everything cut off before and after it is in the set |
| Commands.LastChunkStart | bot/commands.py:160-161 | `rfind` of the border with end bound `len(raw) - 1`, clamped to 0 for an empty text; at least -1 and below the text's length; `Commands.LastChunkStartIsLastBorder` states which border it finds |
| Commands.LastChunkStartIsLastBorder | bot/commands.py:160-161 | the last chunk starts at a border lying wholly before the final character with no such border after it, or is -1 when there is none |
| Commands.SliceStart | bot/commands.py:162 | `raw[start:]` as an index from the front: -1 selects the last character (`raw[-1:]`), or nothing of an empty text; never past the end |
| Commands.ExtractMostRecentStats | bot/commands.py:158-162 | the result neither begins nor ends with '-' or a newline |
| Commands.ExtractIsSliceOfLastChunk | bot/commands.py:160-162 | the result is a slice of the last chunk, with only '-' and newlines around it in that chunk |
| Commands.ExtractFromLastBorder | bot/commands.py:158-162 | with a border wholly before the final character, the result is the text from the last such border on, stripped |
| Commands.ExtractWithoutBorder | bot/commands.py:160-162 | without such a border, the result is the last character alone, stripped, or empty for an empty text |
| Commands.SendImageComesLast | bot/commands.py:69-78 | for an authorised user, a `send_image` command's own actions come first, then the focus of the game window and, when it is found, the capture; the last reply is the photo when the window is found, and otherwise the error reply with no photo sent at all |
| Commands.SolveCaptchaGuard | bot/commands.py:221-230 | the captcha text is typed into the game exactly when one argument is given, and the usage reply is sent exactly otherwise |
| Commands.MinionStats | bot/commands.py:147-157 | the missing-file reply when there is no stats file, otherwise the most recent report extracted from it |
| Commands.Gated | bot/commands.py:55-66 | the `auth` gate: the effect for an authorised user, nothing otherwise |
| Commands.BodyReplies | bot/commands.py:132-260 | the replies of each command's own `run`; the live image is the photo, or the error reply when the window is not found |
| Commands.BodyScript | bot/commands.py:132-231 | the game actions of each command's own `run`; proved well formed by `Commands.BodyScriptWellFormed` |
| Commands.Replies | bot/commands.py:55-78 | the gated body's replies, then the gated live image's for a `send_image` command; its properties are stated by `Commands.SendImageComesLast`, `Commands.SolveCaptchaGuard` and `Commands.Bot.Handle` (nothing for an unauthorised user) |
| Commands.Script | bot/commands.py:55-78 | the gated body's actions, then the gated live image's for a `send_image` command; its properties are stated by `Commands.SendImageComesLast`, `Commands.SolveCaptchaGuard`, `Commands.ScriptWellFormed` and `Commands.Bot.Handle` (nothing for an unauthorised user) |
| Commands.BodyScriptWellFormed | bot/commands.py:132-231 | each command's own body keeps the key-hit invariant |
| Commands.ScriptWellFormed | bot/commands.py:132-260 | every command's actions, live image included, keep the key-hit invariant |
| Commands.Bot.Handle | bot/commands.py:55-78 | the chat and the game trace grow by the gated command followed, for `send_image` commands, by the gated live image; an unauthorised user changes nothing |
| Commands.Command.SendsImage | bot/commands.py:173-231 | exactly the seven commands whose `run` carries `@send_image`: connect, disconnect, reconnect, refresh, relaunch, escape and solve-captcha; used by `Commands.SendImageComesLast` |
| Commands.Bot.Authorised | bot/commands.py:58-60 | a user is authorised exactly when their username is in the configured list; used by `Commands.Bot.Handle` and `Commands.Bot.Run` |
| Commands.Bot.Run | bot/commands.py:55-66 | the body runs only for an authorised user |
| Commands.Bot.RunBody | bot/commands.py:132-260 | each command's replies and actions; `StartMonitor` starts the monitor only when it is down and always replies; `StopMonitor` leaves it down |
| Commands.Bot.SendLiveImage | bot/commands.py:132-137 | the focus and, when the game window is found, the capture are appended to the trace; the chat gets the photo, or the dispatcher's error reply (bot/bot.py:64-76) when the capture raised |
| Commands.Bot.RunControlCommand | bot/commands.py:173-231 | the replies and game actions of the `send_image` commands; the captcha text is typed only with exactly one argument |
| Commands.Bot.Reply | bot/commands.py:88-91 | appends one message to the chat |

## Left out

- Log tailing, the 2-second poll, every `time.sleep`, and the `wait_fixed` backoff between retries are timing. The log is a finite sequence of lines.
- The `@threaded` log watcher and the watchdog observer thread run concurrently. The model runs them one after the other. It does not capture the race between the crash handler and the log watcher on the shared game controller.
- Reconnector.Observer: the watchdog observer is reduced to not started, running and stopped. Starting it twice fails, as the comment at minecraft/minecraft_reconnector.py:63 says.
- Reconnector.IsMacroTerminatedLine: the patterns are matched with '.' as any character. Python's '.' does not match a newline, and log lines carry no inner newline.
- Windows.TitleMatches: `\d` is an ASCII digit here, while Python's `\d` also accepts other Unicode digits.
- Windows.Window.SaveScreenshot: a handle that was resolved but whose window vanished before the measurement is not modelled; only the absent handle makes the measurement raise. The capture region computed by `_get_dimensions` (utils/window.py:70-74) is one `GetClientRect` event; its arithmetic over win32 coordinates is not modelled.
- Windows.Window.Focus: the OS calls are recorded as events. Whether the activation is accepted is an input. An attempt without a handle fails, because setting no window as the foreground raises.
- Decorators.RetryNoRaise: only the configured form `retry_no_raise(stop_max_attempt_number=n)` is modelled. The bare form (utils/decorators.py:27-29) passes the callable on to `retrying.retry` as a positional argument. What that does is the `retrying` library's behaviour, which is not part of this model, and the repository never uses that form.
- Decorators.RetryNoRaise: the retry only covers exceptions; `retrying`'s `retry_on_result` is never configured here.
- Base64.Decode follows CPython's non-strict decoder: non-alphabet characters are skipped, and a pad run that completes a quantum ends the input. Error messages are not distinguished.
- RepoInstaller.Disk.Write: `open(path, "wb")` empties the file before `write`, so a write that fails after a successful open leaves an empty or partial file. The model only has the open failing, which leaves the disk unchanged.
- RepoInstaller: the GitHub API is an input. Directory entries of the root listing, whose content is `None`, are not modelled, and neither is logging.
- Chests.Chest: rows and slots per row are natural numbers. `int(slot / slots_per_row)` on the validated, non-negative slots is the integer division used.
- Commands.Bot: the chat and the game trace are separate logs, so the interleaving of a reply with the game actions of the same command is not recorded.
- Commands.Bot.RunControlCommand: `/esc` runs the corrected `MinecraftGame.Minecraft.PressEscape` (an Esc hit), not `press_escape` as written, which hits 't'; the discrepancy is the row under "## Findings", and its as-written half is `MinecraftGame.Minecraft.PressEscapeAsWritten`.
- Commands.Bot.RunBody: the same corrected Esc hit for `/esc`, through `Commands.Bot.RunControlCommand`.
- Commands.Bot.Handle: the same corrected Esc hit for `/esc`; `Commands.BodyScript` and `Commands.Script` record it too.
- Commands.BodyScript: `Escape` records `MinecraftGame.PressEscapeScript` (an Esc hit), not the as-written 't' hit of `press_escape`, `MinecraftGame.PressEscapeAsWrittenScript`; the discrepancy is the row under "## Findings".
- Commands.Script: inherits the corrected Esc hit of `Commands.BodyScript` for `/esc`, not the as-written 't' hit.
- Commands.Bot.Handle: every `run` returns None, so the value that `send_image` and `auth` pass through carries nothing and is not modelled.
- The update commands (`UpdateAndRebootBot`, `UpdateCobbleMiner`), `SetCaptchaChat`, the captcha detector, the Telegram dispatcher (apart from the error reply it sends when the live image raises), `main.py`, and the platform helpers in `utils/utils.py` are not part of this model.

## Findings

| source | as written | input that shows it | evidently intended | confidence | as-written member | corrected member |
|---|---|---|---|---|---|---|
| minecraft/minecraft.py:50-52 | `press_escape` hits the key 't', which opens the in-game chat | any call, e.g. the bot's `/esc` command, which replies "ESC pressed." | an Esc key hit, the same key hit that begins `disconnect` | high; not executed | MinecraftGame.Minecraft.PressEscapeAsWritten (with MinecraftGame.PressEscapeAsWrittenOpensChat) | MinecraftGame.Minecraft.PressEscape (with MinecraftGame.PressEscapeBeginsDisconnect) |
