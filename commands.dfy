/**
 * The Telegram bot's commands. Every command runs behind the `auth` gate;
 * the game commands are also wrapped by `send_image`, which runs the gated
 * command and then the (itself gated) live-image command. A command's effects
 * are replies appended to the chat and actions appended to the game trace.
 *
 * Telegram is not modelled: the sender's username, the command with its
 * arguments, the contents of the stats file (or its absence) and whether the
 * game window is found when the live image is taken are inputs.
 */
module Commands {
  import opened Wrappers
  import opened Text
  import MinecraftGame
  import Reconnector
  import Config

  /** The line written between two stats reports: 27 dashes and a newline. */
  const StatsBorder: string := "---------------------------\n"

  /** `strip(STATS_BORDER)` takes its argument as a set of characters. */
  const BorderChars: set<char> := {'-', '\n'}

  const LiveImagePath := "live_image.png"

  /** `SolveCaptcha.EXPECTED_ARGS_AMOUNT`. */
  const ExpectedCaptchaArgs: nat := 1

  // The replies of `ReplyMsg` the modelled commands send.
  const StartMsg := "Hello master, how can i be of service?"
  const ConnectMsg := "Getting those minions back to work sir!"
  const DisconnectMsg := "Disconnecting from server."
  const ReconnectMsg := "Reconnecting to server."
  const RefreshMsg := "You're right, they do need a break... Refreshing!"
  const ResetStatsMsg := "Resetting cobbleminer stats."
  const EscMsg := "ESC pressed."
  const BadCaptchaUsageMsg := "Bad arguments. Usage:\n/solvecaptcha@<bot_name> <text>"
  const MonitorStartMsg := "Waking up the babysitter! Monitor up."
  const MonitorStopMsg := "Stopping monitor."
  const RelaunchMsg := "As you wish master, relaunching!\nMay take about 2 minutes...\nI'll send you an update when I'm done."
  const ErrorMsg := "Woops! Something went wrong."
  const StatsFileMissingMsg := "Woops! Stats file missing."

  /**
   * Where the last chunk starts: `rfind(STATS_BORDER, 0, len(raw) - 1)`.
   * For an empty text the end bound -1 is clamped to 0.
   */
  function LastChunkStart(raw: string): int
  {
    RFind(raw, StatsBorder, if |raw| == 0 then 0 else |raw| - 1)
  }

  /** The last chunk starts at the last border lying wholly before the final character, or at -1. */
  lemma LastChunkStartIsLastBorder(raw: string)
    ensures var r := LastChunkStart(raw);
      (r >= 0 ==> r + |StatsBorder| < |raw| && OccursAt(raw, StatsBorder, r))
      && forall j: nat :: r < j && j + |StatsBorder| < |raw| ==> !OccursAt(raw, StatsBorder, j)
  {
  }

  /** `raw[start:]` for `start >= -1` as an index from the front: -1 selects the last character. */
  function SliceStart(raw: string, start: int): (i: nat)
    requires -1 <= start <= |raw|
    ensures i <= |raw|
  {
    if start >= 0 then start
    else if raw == [] then 0
    else |raw| - 1
  }

  /** `raw[last_chunk_start_index:]`. */
  function LastChunk(raw: string): string
  {
    raw[SliceStart(raw, LastChunkStart(raw))..]
  }

  /** `Stats._extract_most_recent_stats`: neither end of the result is a border character. */
  function ExtractMostRecentStats(raw: string): (r: string)
    ensures r == [] || (r[0] !in BorderChars && r[|r| - 1] !in BorderChars)
  {
    Strip(LastChunk(raw), BorderChars)
  }

  /**
   * The result is the piece of the last chunk at `i`: everything of the
   * chunk before and after it is a border character.
   */
  lemma {:induction false} ExtractIsSliceOfLastChunk(raw: string) returns (i: nat)
    ensures TrimmedSliceAt(LastChunk(raw), ExtractMostRecentStats(raw), i, BorderChars)
  {
    i := StripIsSlice(LastChunk(raw), BorderChars);
  }

  /**
   * With a border lying wholly before the final character, the result is the
   * text from the last such border on, stripped of border characters.
   */
  lemma ExtractFromLastBorder(raw: string, i: nat)
    requires i + |StatsBorder| <= |raw| - 1 && OccursAt(raw, StatsBorder, i)
    requires forall j: nat :: i < j && j + |StatsBorder| <= |raw| - 1 ==> !OccursAt(raw, StatsBorder, j)
    ensures ExtractMostRecentStats(raw) == Strip(raw[i..], BorderChars)
  {
    assert LastChunkStart(raw) == i;
  }

  /**
   * Without such a border `rfind` gives -1, and the result is the text's last
   * character alone, stripped.
   */
  lemma ExtractWithoutBorder(raw: string)
    requires forall j: nat :: j + |StatsBorder| <= |raw| - 1 ==> !OccursAt(raw, StatsBorder, j)
    ensures raw == [] ==> ExtractMostRecentStats(raw) == []
    ensures raw != [] ==> ExtractMostRecentStats(raw) == Strip([raw[|raw| - 1]], BorderChars)
  {
    assert LastChunkStart(raw) == -1;
    if raw != [] {
      assert raw[|raw| - 1..] == [raw[|raw| - 1]];
    }
  }

  /** `Stats._get_minion_stats`; `None` is a stats file that does not exist. */
  function MinionStats(statsFile: Option<string>): string
  {
    match statsFile
    case None => StatsFileMissingMsg
    case Some(raw) => ExtractMostRecentStats(raw)
  }

  /**
   * What the commands read from outside the bot: the stats file (`None` when
   * it does not exist), and whether the game window's last focus attempt
   * found the window when the live image is taken.
   */
  datatype World = World(statsFile: Option<string>, gameWindowFound: bool)

  /** What the bot sends to the chat. */
  datatype Reply = Message(text: string) | Photo(path: string)

  datatype Command =
    | GreetUser | Stats | ResetStats | LiveImage
    | Connect | Disconnect | Reconnect | Refresh | Relaunch | Escape
    | SolveCaptcha(args: seq<string>)
    | StartMonitor | StopMonitor
  {
    /** The commands decorated with `send_image`. */
    predicate SendsImage()
    {
      Connect? || Disconnect? || Reconnect? || Refresh? || Relaunch? || Escape? || SolveCaptcha?
    }
  }

  /** The replies of a command's own `run` body, for an authorised user. */
  function BodyReplies(cmd: Command, world: World): seq<Reply>
  {
    match cmd
    case GreetUser => [Message(StartMsg)]
    case Stats => [Message(MinionStats(world.statsFile))]
    case ResetStats => [Message(ResetStatsMsg), Message(MinionStats(world.statsFile))]
    case LiveImage => if world.gameWindowFound then [Photo(LiveImagePath)] else [Message(ErrorMsg)]
    case Connect => [Message(ConnectMsg)]
    case Disconnect => [Message(DisconnectMsg)]
    case Reconnect => [Message(ReconnectMsg)]
    case Refresh => [Message(RefreshMsg)]
    case Relaunch => [Message(RelaunchMsg)]
    case Escape => [Message(EscMsg)]
    case SolveCaptcha(args) => if |args| == ExpectedCaptchaArgs then [] else [Message(BadCaptchaUsageMsg)]
    case StartMonitor => [Message(MonitorStartMsg)]
    case StopMonitor => [Message(MonitorStopMsg)]
  }

  /** The game actions of a command's own `run` body, for an authorised user. */
  function BodyScript(cmd: Command, world: World): seq<MinecraftGame.Action>
  {
    match cmd
    case ResetStats => MinecraftGame.KeyHit(MinecraftGame.Char(Config.ResetStatsKeybind))
    case LiveImage => MinecraftGame.LiveImageScript(LiveImagePath, world.gameWindowFound)
    case Connect => MinecraftGame.ConnectScript()
    case Disconnect => MinecraftGame.DisconnectScript()
    case Reconnect => MinecraftGame.DisconnectScript() + MinecraftGame.ConnectScript()
    case Refresh => MinecraftGame.KeyHit(MinecraftGame.Char(Config.RefreshKeybind))
    case Relaunch => MinecraftGame.RelaunchScript()
    case Escape => MinecraftGame.PressEscapeScript()
    case SolveCaptcha(args) => if |args| == ExpectedCaptchaArgs then MinecraftGame.ChatScript(args[0]) else []
    case _ => []
  }

  /** The `auth` gate: the effect happens only for an authorised user. */
  function Gated<T>(authorised: bool, effect: seq<T>): seq<T>
  {
    if authorised then effect else []
  }

  /** All replies of a command: the gated body, then, under `send_image`, the gated live image. */
  function Replies(authorised: bool, cmd: Command, world: World): seq<Reply>
  {
    Gated(authorised, BodyReplies(cmd, world))
    + if cmd.SendsImage() then Gated(authorised, BodyReplies(LiveImage, world)) else []
  }

  /** All game actions of a command, in the same two stages. */
  function Script(authorised: bool, cmd: Command, world: World): seq<MinecraftGame.Action>
  {
    Gated(authorised, BodyScript(cmd, world))
    + if cmd.SendsImage() then Gated(authorised, BodyScript(LiveImage, world)) else []
  }

  /** Both stages of a command, with the live-image stage present only for an authorised user. */
  lemma Stages(authorised: bool, cmd: Command, world: World)
    ensures Replies(authorised, cmd, world) ==
      Gated(authorised, BodyReplies(cmd, world)) + Gated(authorised && cmd.SendsImage(), BodyReplies(LiveImage, world))
    ensures Script(authorised, cmd, world) ==
      Gated(authorised, BodyScript(cmd, world)) + Gated(authorised && cmd.SendsImage(), BodyScript(LiveImage, world))
  {
  }

  /**
   * `send_image`: for an authorised user the command's own effects come
   * first and the live image last: a focus, then the capture and the photo
   * when the game window is found, or the error reply when it is not.
   */
  lemma SendImageComesLast(cmd: Command, world: World)
    requires cmd.SendsImage()
    ensures Script(true, cmd, world) == BodyScript(cmd, world) + [MinecraftGame.Focus(MinecraftGame.GameWindow)]
      + if world.gameWindowFound then [MinecraftGame.Capture(LiveImagePath)] else []
    ensures |Replies(true, cmd, world)| > 0
    ensures world.gameWindowFound ==>
      Replies(true, cmd, world)[|Replies(true, cmd, world)| - 1] == Photo(LiveImagePath)
    ensures !world.gameWindowFound ==>
      Replies(true, cmd, world)[|Replies(true, cmd, world)| - 1] == Message(ErrorMsg)
      && Photo(LiveImagePath) !in Replies(true, cmd, world)
  {
  }

  /**
   * `SolveCaptcha`: the captcha text is typed into the game exactly when one
   * argument is given; otherwise the usage reply is sent and only the live
   * image touches the game.
   */
  lemma SolveCaptchaGuard(args: seq<string>, world: World)
    ensures (exists i :: 0 <= i < |Script(true, SolveCaptcha(args), world)| && Script(true, SolveCaptcha(args), world)[i].TypeText?)
      <==> |args| == 1
    ensures |args| == 1 ==>
      Script(true, SolveCaptcha(args), world) == MinecraftGame.ChatScript(args[0]) + MinecraftGame.LiveImageScript(LiveImagePath, world.gameWindowFound)
    ensures |args| != 1 ==>
      Script(true, SolveCaptcha(args), world) == MinecraftGame.LiveImageScript(LiveImagePath, world.gameWindowFound)
    ensures Message(BadCaptchaUsageMsg) in Replies(true, SolveCaptcha(args), world) <==> |args| != 1
  {
    var s := Script(true, SolveCaptcha(args), world);
    if |args| == 1 {
      assert s[4].TypeText?;
    } else {
      assert s == MinecraftGame.LiveImageScript(LiveImagePath, world.gameWindowFound);
    }
  }

  /** Every command's own `run` body keeps the game's key hits well formed. */
  lemma BodyScriptWellFormed(cmd: Command, world: World)
    ensures MinecraftGame.KeyHitsWellFormed(BodyScript(cmd, world))
  {
    match cmd
    case ResetStats => MinecraftGame.KeyHitWellFormed(MinecraftGame.Char(Config.ResetStatsKeybind));
    case LiveImage => MinecraftGame.KeyFreeWellFormed(BodyScript(cmd, world));
    case Connect => MinecraftGame.KeyFreeWellFormed(BodyScript(cmd, world));
    case Disconnect => MinecraftGame.DisconnectScriptWellFormed();
    case Reconnect =>
      MinecraftGame.DisconnectScriptWellFormed();
      MinecraftGame.KeyFreeWellFormed(MinecraftGame.ConnectScript());
      MinecraftGame.WellFormedAppend(MinecraftGame.DisconnectScript(), MinecraftGame.ConnectScript());
    case Refresh => MinecraftGame.KeyHitWellFormed(MinecraftGame.Char(Config.RefreshKeybind));
    case Relaunch => MinecraftGame.KeyFreeWellFormed(BodyScript(cmd, world));
    case Escape => MinecraftGame.KeyHitWellFormed(MinecraftGame.Esc);
    case SolveCaptcha(args) =>
      if |args| == ExpectedCaptchaArgs {
        MinecraftGame.ChatScriptWellFormed(args[0]);
      } else {
        MinecraftGame.KeyFreeWellFormed([]);
      }
    case _ => MinecraftGame.KeyFreeWellFormed([]);
  }

  /** Every command's actions, live image included, keep the game's key hits well formed. */
  lemma ScriptWellFormed(authorised: bool, cmd: Command, world: World)
    ensures MinecraftGame.KeyHitsWellFormed(Script(authorised, cmd, world))
  {
    var body := Gated(authorised, BodyScript(cmd, world));
    var image := if cmd.SendsImage() then Gated(authorised, BodyScript(LiveImage, world)) else [];
    BodyScriptWellFormed(cmd, world);
    BodyScriptWellFormed(LiveImage, world);
    MinecraftGame.KeyFreeWellFormed([]);
    MinecraftGame.WellFormedAppend(body, image);
  }

  /** Orders `ResetStats` above the `Stats` it runs. */
  function Rank(cmd: Command): nat
  {
    if cmd.ResetStats? then 1 else 0
  }

  /**
   * The commands, sharing the bot's chat and the process-wide game and
   * monitor singletons.
   */
  class Bot {
    const authorisedUsers: set<string>
    const game: MinecraftGame.Minecraft
    const monitor: Reconnector.MinecraftServerReconnector
    var chat: seq<Reply>

    ghost predicate Valid()
      reads this, game, monitor, monitor.crashHandler
    {
      monitor.game == game && monitor.Valid()
    }

    constructor (authorisedUsers: set<string>, monitor: Reconnector.MinecraftServerReconnector)
      requires monitor.Valid()
      ensures Valid() && this.authorisedUsers == authorisedUsers
      ensures this.game == monitor.game && this.monitor == monitor && chat == []
    {
      this.authorisedUsers := authorisedUsers;
      this.game := monitor.game;
      this.monitor := monitor;
      chat := [];
    }

    predicate Authorised(user: string)
    {
      user in authorisedUsers
    }

    method Reply(r: Reply)
      modifies this
      ensures chat == old(chat) + [r]
    {
      chat := chat + [r];
    }

    /**
     * A command as the dispatcher runs it: its `auth`-gated `run`, followed,
     * for a `send_image` command, by the `auth`-gated live-image command.
     * An unauthorised user changes nothing.
     */
    method Handle(user: string, cmd: Command, world: World)
      requires Valid()
      modifies this, game, monitor, monitor.observer
      ensures Valid()
      ensures chat == old(chat) + Replies(Authorised(user), cmd, world)
      ensures game.trace == old(game.trace) + Script(Authorised(user), cmd, world)
      ensures !Authorised(user) ==> chat == old(chat) && game.trace == old(game.trace)
      ensures monitor.tries == old(monitor.tries)
      ensures Authorised(user) && cmd.StartMonitor? ==>
        monitor.IsUp()
        && (old(monitor.IsUp()) ==> monitor.observer == old(monitor.observer))
        && (!old(monitor.IsUp()) ==> fresh(monitor.observer))
      ensures Authorised(user) && cmd.StopMonitor? ==> monitor.observer == old(monitor.observer) && !monitor.IsUp()
      ensures !(Authorised(user) && (cmd.StartMonitor? || cmd.StopMonitor?)) ==>
        monitor.observer == old(monitor.observer) && monitor.observer.state == old(monitor.observer.state)
    {
      var authorised := Authorised(user);
      var withImage := authorised && cmd.SendsImage();
      Stages(authorised, cmd, world);
      Run(user, cmd, world);
      if withImage {
        // the live-image command behind its own `auth` gate; it only touches the game and the chat
        SendLiveImage(world);
      }
    }

    /** `auth`: run the command's body only for an authorised user. */
    method Run(user: string, cmd: Command, world: World)
      requires Valid()
      modifies this, game, monitor, monitor.observer
      ensures Valid()
      ensures chat == old(chat) + Gated(Authorised(user), BodyReplies(cmd, world))
      ensures game.trace == old(game.trace) + Gated(Authorised(user), BodyScript(cmd, world))
      ensures monitor.tries == old(monitor.tries)
      ensures Authorised(user) && cmd.StartMonitor? ==>
        monitor.IsUp()
        && (old(monitor.IsUp()) ==> monitor.observer == old(monitor.observer))
        && (!old(monitor.IsUp()) ==> fresh(monitor.observer))
      ensures Authorised(user) && cmd.StopMonitor? ==> monitor.observer == old(monitor.observer) && !monitor.IsUp()
      ensures !(Authorised(user) && (cmd.StartMonitor? || cmd.StopMonitor?)) ==>
        monitor.observer == old(monitor.observer) && monitor.observer.state == old(monitor.observer.state)
      decreases Rank(cmd), 1
    {
      if Authorised(user) {
        RunBody(user, cmd, world);
      }
    }

    /** The `run` bodies. */
    method RunBody(user: string, cmd: Command, world: World)
      requires Valid() && Authorised(user)
      modifies this, game, monitor, monitor.observer
      ensures Valid()
      ensures chat == old(chat) + BodyReplies(cmd, world)
      ensures game.trace == old(game.trace) + BodyScript(cmd, world)
      ensures monitor.tries == old(monitor.tries)
      ensures cmd.StartMonitor? ==>
        monitor.IsUp()
        && (old(monitor.IsUp()) ==> monitor.observer == old(monitor.observer))
        && (!old(monitor.IsUp()) ==> fresh(monitor.observer))
      ensures cmd.StopMonitor? ==> monitor.observer == old(monitor.observer) && !monitor.IsUp()
      ensures !(cmd.StartMonitor? || cmd.StopMonitor?) ==>
        monitor.observer == old(monitor.observer) && monitor.observer.state == old(monitor.observer.state)
      decreases Rank(cmd), 0
    {
      match cmd
      case ResetStats =>
        game.ResetCobbleminerStats();
        Reply(Message(ResetStatsMsg));
        Run(user, Stats, world);
      case StartMonitor =>
        if !monitor.IsUp() {
          var _ := monitor.KeepConnected();
        }
        Reply(Message(MonitorStartMsg));
      case StopMonitor =>
        monitor.Stop();
        Reply(Message(MonitorStopMsg));
      case GreetUser =>
        Reply(Message(StartMsg));
      case Stats =>
        Reply(Message(MinionStats(world.statsFile)));
      case LiveImage =>
        SendLiveImage(world);
      case _ =>
        RunControlCommand(cmd, world);
    }

    /**
     * The live-image command's body: a capture of the game window, sent as a
     * photo. When no game window is found the capture raises, and the
     * dispatcher's error handler (`Bot._telegram_error_callback`) sends the
     * error reply instead.
     */
    method SendLiveImage(world: World)
      requires Valid()
      modifies this, game
      ensures Valid()
      ensures chat == old(chat) + BodyReplies(LiveImage, world)
      ensures game.trace == old(game.trace) + BodyScript(LiveImage, world)
    {
      var saved := game.SaveLiveImage(LiveImagePath, world.gameWindowFound);
      if saved {
        Reply(Photo(LiveImagePath));
      } else {
        Reply(Message(ErrorMsg));
      }
    }

    /** The `run` bodies of the `send_image` commands, which drive the game. */
    method RunControlCommand(cmd: Command, world: World)
      requires Valid() && cmd.SendsImage()
      modifies this, game
      ensures Valid()
      ensures chat == old(chat) + BodyReplies(cmd, world)
      ensures game.trace == old(game.trace) + BodyScript(cmd, world)
    {
      match cmd
      case Connect =>
        Reply(Message(ConnectMsg));
        game.Connect();
      case Disconnect =>
        Reply(Message(DisconnectMsg));
        game.Disconnect();
      case Reconnect =>
        Reply(Message(ReconnectMsg));
        game.Reconnect();
      case Refresh =>
        Reply(Message(RefreshMsg));
        game.Refresh();
      case Relaunch =>
        Reply(Message(RelaunchMsg));
        game.Relaunch();
      case Escape =>
        Reply(Message(EscMsg));
        game.PressEscape();
      case SolveCaptcha(args) =>
        if |args| == ExpectedCaptchaArgs {
          game.SendChatMessage(args[0]);
        } else {
          Reply(Message(BadCaptchaUsageMsg));
        }
    }
  }
}
