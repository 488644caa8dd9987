/**
 * The game client's action scripts. Every operation of `Minecraft` is a fixed,
 * ordered sequence of window focus, key, click and process effects; the model
 * records them as an append-only trace of `Action`s. Focusing a window is one
 * opaque `Focus` event here (its retry behaviour is modelled in `Windows`),
 * and the fixed sleeps between effects are not recorded.
 */
module MinecraftGame {
  import opened Wrappers
  import opened Screen
  import Config
  import Chests

  datatype Key = Char(c: char) | Esc | Enter

  datatype WindowId = GameWindow | LauncherWindow

  /** One effect of the game controller on the desktop. */
  datatype Action =
    | Focus(window: WindowId)
    | Press(key: Key)
    | Release(key: Key)
    | TypeText(text: string)
    | Click(at: Point)
    | KillTask(process: string)
    | StartProcess(path: string)
    | Capture(savePath: string)

  /** The key that opens the in-game chat. */
  const ChatKey := Char('t')

  /** `_hit_keyboard_button`: focus the game, then press and release the key. */
  function KeyHit(k: Key): seq<Action>
  {
    [Focus(GameWindow), Press(k), Release(k)]
  }

  function DisconnectScript(): seq<Action>
  {
    KeyHit(Esc) + [Click(Config.DisconnectButton)]
  }

  function ReturnToServerListScript(): seq<Action>
  {
    [Focus(GameWindow), Click(Config.BackToServerListButton)]
  }

  function ConnectToHypixelScript(): seq<Action>
  {
    [Click(Config.MultiplayerButton), Click(Config.HypixelButton), Click(Config.JoinServerButton)]
  }

  function ConnectScript(): seq<Action>
  {
    ReturnToServerListScript() + ConnectToHypixelScript()
  }

  function CloseScript(): seq<Action>
  {
    [KillTask(Config.LauncherProcessName), KillTask(Config.MinecraftProcessName)]
  }

  function OpenLauncherScript(): seq<Action>
  {
    [StartProcess(Config.MinecraftExe), Focus(LauncherWindow)]
  }

  function StartFromLauncherScript(): seq<Action>
  {
    [Click(Config.PlayButton), Focus(GameWindow)]
  }

  function LaunchScript(): seq<Action>
  {
    OpenLauncherScript() + StartFromLauncherScript() + ConnectToHypixelScript()
  }

  function RelaunchScript(): seq<Action>
  {
    CloseScript() + LaunchScript()
  }

  function ChatScript(message: string): seq<Action>
  {
    [Focus(GameWindow)] + KeyHit(ChatKey) + [TypeText(message)] + KeyHit(Enter)
  }

  /**
   * `save_live_image`: focus the game window, then capture it. When the last
   * focus attempt found no game window, measuring the window raises and
   * nothing is captured.
   */
  function LiveImageScript(savePath: string, windowFound: bool): seq<Action>
  {
    [Focus(GameWindow)] + if windowFound then [Capture(savePath)] else []
  }

  /** `press_escape` as written: it hits the chat key 't'. */
  function PressEscapeAsWrittenScript(): seq<Action>
  {
    KeyHit(Char('t'))
  }

  /** `press_escape` as its name, its log line and its reply intend: an Esc hit. */
  function PressEscapeScript(): seq<Action>
  {
    KeyHit(Esc)
  }

  /**
   * Every key press is immediately preceded by focusing the game window and
   * immediately followed by the release of the same key, and every release
   * immediately follows the press of its key.
   */
  ghost predicate KeyHitsWellFormed(t: seq<Action>)
  {
    && (forall i :: 0 <= i < |t| && t[i].Press? ==>
          0 < i < |t| - 1 && t[i - 1] == Focus(GameWindow) && t[i + 1] == Release(t[i].key))
    && (forall i :: 0 <= i < |t| && t[i].Release? ==> 0 < i && t[i - 1] == Press(t[i].key))
  }

  /** Well-formed traces concatenate to a well-formed trace. */
  lemma {:induction false} WellFormedAppend(a: seq<Action>, b: seq<Action>)
    requires KeyHitsWellFormed(a) && KeyHitsWellFormed(b)
    ensures KeyHitsWellFormed(a + b)
  {
    var t := a + b;
    forall i | 0 <= i < |t| && t[i].Press?
      ensures 0 < i < |t| - 1 && t[i - 1] == Focus(GameWindow) && t[i + 1] == Release(t[i].key)
    {
      if i < |a| {
        assert a[i].Press?;
      } else {
        assert b[i - |a|].Press?;
      }
    }
    forall i | 0 <= i < |t| && t[i].Release?
      ensures 0 < i && t[i - 1] == Press(t[i].key)
    {
      if i < |a| {
        assert a[i].Release?;
      } else {
        assert b[i - |a|].Release?;
      }
    }
  }

  /** A trace without key events is trivially well formed. */
  lemma KeyFreeWellFormed(t: seq<Action>)
    requires forall i :: 0 <= i < |t| ==> !t[i].Press? && !t[i].Release?
    ensures KeyHitsWellFormed(t)
  {
  }

  lemma KeyHitWellFormed(k: Key)
    ensures KeyHitsWellFormed(KeyHit(k))
  {
  }

  /** `disconnect`: an Esc hit, then the click on the disconnect button. */
  lemma DisconnectScriptWellFormed()
    ensures KeyHitsWellFormed(DisconnectScript())
  {
    KeyHitWellFormed(Esc);
    KeyFreeWellFormed([Click(Config.DisconnectButton)]);
    WellFormedAppend(KeyHit(Esc), [Click(Config.DisconnectButton)]);
  }

  /** `send_chat_message`: a focus, the chat key, the text, then Enter. */
  lemma ChatScriptWellFormed(message: string)
    ensures KeyHitsWellFormed(ChatScript(message))
  {
    var opening := [Focus(GameWindow)] + KeyHit(ChatKey);
    KeyFreeWellFormed([Focus(GameWindow)]);
    KeyHitWellFormed(ChatKey);
    WellFormedAppend([Focus(GameWindow)], KeyHit(ChatKey));
    KeyFreeWellFormed([TypeText(message)]);
    WellFormedAppend(opening, [TypeText(message)]);
    KeyHitWellFormed(Enter);
    WellFormedAppend(opening + [TypeText(message)], KeyHit(Enter));
  }

  /** Every script the controller can append keeps key hits well formed. */
  lemma ScriptsWellFormed(message: string, savePath: string, windowFound: bool)
    ensures KeyHitsWellFormed(DisconnectScript())
    ensures KeyHitsWellFormed(ConnectScript())
    ensures KeyHitsWellFormed(RelaunchScript())
    ensures KeyHitsWellFormed(ChatScript(message))
    ensures KeyHitsWellFormed(LiveImageScript(savePath, windowFound))
  {
    DisconnectScriptWellFormed();
    KeyFreeWellFormed(ConnectScript());
    KeyFreeWellFormed(RelaunchScript());
    ChatScriptWellFormed(message);
    KeyFreeWellFormed(LiveImageScript(savePath, windowFound));
  }

  /**
   * `relaunch` kills the launcher before the game, starts the launcher, focuses
   * it, clicks play, focuses the game, and rejoins with the same three clicks
   * that end `connect`.
   */
  lemma RelaunchOrder()
    ensures var r := RelaunchScript();
      && r[..6] == [KillTask(Config.LauncherProcessName), KillTask(Config.MinecraftProcessName),
                    StartProcess(Config.MinecraftExe), Focus(LauncherWindow),
                    Click(Config.PlayButton), Focus(GameWindow)]
      && r[6..] == ConnectScript()[2..]
  {
  }

  /**
   * The trace of `press_escape` as written is the chat-opening key hit of
   * `send_chat_message`, and contains no Esc at all.
   */
  lemma PressEscapeAsWrittenOpensChat(message: string)
    ensures PressEscapeAsWrittenScript() == ChatScript(message)[1..4]
    ensures Press(Esc) !in PressEscapeAsWrittenScript()
  {
    assert PressEscapeAsWrittenScript()[1] == Press(Char('t'));
  }

  /** The corrected `press_escape` is exactly the key hit that opens `disconnect`. */
  lemma PressEscapeBeginsDisconnect()
    ensures DisconnectScript() == PressEscapeScript() + [Click(Config.DisconnectButton)]
    ensures Press(Esc) in PressEscapeScript()
  {
    assert PressEscapeScript()[1] == Press(Esc);
  }

  /**
   * The game controller, a process-wide singleton. `trace` is every effect it
   * has had on the desktop so far, oldest first.
   */
  class Minecraft {
    var trace: seq<Action>

    ghost predicate Valid()
      reads this
    {
      KeyHitsWellFormed(trace)
    }

    constructor ()
      ensures Valid() && trace == []
    {
      trace := [];
    }

    /** Appends a well-formed script to the trace. */
    method Perform(script: seq<Action>)
      requires Valid() && KeyHitsWellFormed(script)
      modifies this
      ensures Valid() && trace == old(trace) + script
    {
      WellFormedAppend(trace, script);
      trace := trace + script;
    }

    /**
     * `save_live_image`. `windowFound` is whether the game window's last focus
     * attempt resolved a handle (`Windows.Window.SaveScreenshot` returns it);
     * `saved` false is the exception raised when it did not.
     */
    method SaveLiveImage(savePath: string, windowFound: bool) returns (saved: bool)
      requires Valid()
      modifies this
      ensures saved == windowFound
      ensures Valid() && trace == old(trace) + LiveImageScript(savePath, windowFound)
    {
      ScriptsWellFormed("", savePath, windowFound);
      Perform(LiveImageScript(savePath, windowFound));
      saved := windowFound;
    }

    method UpdateMacroConfig()
      requires Valid()
      modifies this
      ensures Valid() && trace == old(trace) + KeyHit(Char(Config.ConfigKeybind))
    {
      HitKeyboardButton(Char(Config.ConfigKeybind));
    }

    method ResetCobbleminerStats()
      requires Valid()
      modifies this
      ensures Valid() && trace == old(trace) + KeyHit(Char(Config.ResetStatsKeybind))
    {
      HitKeyboardButton(Char(Config.ResetStatsKeybind));
    }

    method Refresh()
      requires Valid()
      modifies this
      ensures Valid() && trace == old(trace) + KeyHit(Char(Config.RefreshKeybind))
    {
      HitKeyboardButton(Char(Config.RefreshKeybind));
    }

    /** `press_escape` as written: hits 't', the chat key, instead of Esc. */
    method PressEscapeAsWritten()
      requires Valid()
      modifies this
      ensures Valid() && trace == old(trace) + PressEscapeAsWrittenScript()
    {
      HitKeyboardButton(Char('t'));
    }

    /** `press_escape` corrected to hit Esc; the bot's escape command uses this one. */
    method PressEscape()
      requires Valid()
      modifies this
      ensures Valid() && trace == old(trace) + PressEscapeScript()
    {
      HitKeyboardButton(Esc);
    }

    method SendChatMessage(message: string)
      requires Valid()
      modifies this
      ensures Valid() && trace == old(trace) + ChatScript(message)
    {
      Perform([Focus(GameWindow)]);
      HitKeyboardButton(ChatKey);
      Perform([TypeText(message)]);
      HitKeyboardButton(Enter);
    }

    method HitKeyboardButton(k: Key)
      requires Valid()
      modifies this
      ensures Valid() && trace == old(trace) + KeyHit(k)
    {
      KeyHitWellFormed(k);
      Perform(KeyHit(k));
    }

    /**
     * `click_chest_slot`: focus the game, then click the slot's position. An
     * invalid slot raises after the focus, so no click happens.
     */
    method ClickChestSlot(chest: Chests.Chest, slot: int) returns (error: Option<Chests.ChestError>)
      requires Valid()
      modifies this
      ensures Valid()
      ensures match Chests.GetSlotCoordinates(chest, slot)
        case Ok(p) => error == None && trace == old(trace) + [Focus(GameWindow), Click(p)]
        case Err(e) => error == Some(e) && trace == old(trace) + [Focus(GameWindow)]
    {
      Perform([Focus(GameWindow)]);
      var coordinates := Chests.GetSlotCoordinates(chest, slot);
      match coordinates
      case Ok(p) =>
        Perform([Click(p)]);
        error := None;
      case Err(e) =>
        error := Some(e);
    }

    method Reconnect()
      requires Valid()
      modifies this
      ensures Valid() && trace == old(trace) + DisconnectScript() + ConnectScript()
    {
      Disconnect();
      Connect();
    }

    method Disconnect()
      requires Valid()
      modifies this
      ensures Valid() && trace == old(trace) + DisconnectScript()
    {
      HitKeyboardButton(Esc);
      Perform([Click(Config.DisconnectButton)]);
    }

    method Connect()
      requires Valid()
      modifies this
      ensures Valid() && trace == old(trace) + ConnectScript()
    {
      ReturnToServerListMenu();
      ConnectToHypixel();
    }

    method ReturnToServerListMenu()
      requires Valid()
      modifies this
      ensures Valid() && trace == old(trace) + ReturnToServerListScript()
    {
      Perform([Focus(GameWindow), Click(Config.BackToServerListButton)]);
    }

    method ConnectToHypixel()
      requires Valid()
      modifies this
      ensures Valid() && trace == old(trace) + ConnectToHypixelScript()
    {
      Perform([Click(Config.MultiplayerButton)]);
      Perform([Click(Config.HypixelButton)]);
      Perform([Click(Config.JoinServerButton)]);
    }

    method Relaunch()
      requires Valid()
      modifies this
      ensures Valid() && trace == old(trace) + RelaunchScript()
    {
      CloseMinecraft();
      LaunchMinecraft();
    }

    method CloseMinecraft()
      requires Valid()
      modifies this
      ensures Valid() && trace == old(trace) + CloseScript()
    {
      Perform([KillTask(Config.LauncherProcessName)]);
      Perform([KillTask(Config.MinecraftProcessName)]);
    }

    method LaunchMinecraft()
      requires Valid()
      modifies this
      ensures Valid() && trace == old(trace) + LaunchScript()
    {
      OpenMinecraftLauncher();
      StartMinecraftFromLauncher();
      ConnectToHypixel();
    }

    method OpenMinecraftLauncher()
      requires Valid()
      modifies this
      ensures Valid() && trace == old(trace) + OpenLauncherScript()
    {
      Perform([StartProcess(Config.MinecraftExe)]);
      Perform([Focus(LauncherWindow)]);
    }

    method StartMinecraftFromLauncher()
      requires Valid()
      modifies this
      ensures Valid() && trace == old(trace) + StartFromLauncherScript()
    {
      Perform([Click(Config.PlayButton)]);
      Perform([Focus(GameWindow)]);
    }
  }
}
