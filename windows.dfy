/**
 * Window-handle resolution and focusing. A `Window` finds its handle by
 * scanning every top-level window and keeping the last whose title matches
 * its pattern; `focus` re-resolves the handle and tries to bring the window
 * forward, up to three times, and never raises.
 *
 * The operating system is not modelled: the windows an enumeration reports
 * and whether the foreground activation succeeds are inputs, and the calls
 * made into the window manager are recorded, in order, in `calls`.
 */
module Windows {
  import opened Wrappers
  import Decorators

  /** Attempts `focus` is configured with (`stop_max_attempt_number`). */
  const FocusMaxAttempts: nat := 3

  /**
   * A window-title pattern as `re.match` uses it, which anchors at the start
   * of the title and needs only a prefix to match.
   * `PrefixThenDigit(t)` is `t\d+(\.\d+)*`: the optional tail never changes
   * whether a prefix match exists, so it is `t` followed by one digit.
   */
  datatype TitlePattern = Prefix(text: string) | PrefixThenDigit(text: string)

  predicate IsDigit(c: char)
  {
    '0' <= c <= '9'
  }

  predicate TitleMatches(p: TitlePattern, title: string)
  {
    match p
    case Prefix(t) => t <= title
    case PrefixThenDigit(t) => t <= title && |title| > |t| && IsDigit(title[|t|])
  }

  /** `Minecraft \d+(\.\d+)*`, the game window. */
  const GameWindowPattern := PrefixThenDigit("Minecraft ")

  /** `Minecraft Launcher`, the launcher window. */
  const LauncherWindowPattern := Prefix("Minecraft Launcher")

  /** No title is taken for both the game and the launcher. */
  lemma GameAndLauncherPatternsDisjoint(title: string)
    ensures !(TitleMatches(GameWindowPattern, title) && TitleMatches(LauncherWindowPattern, title))
  {
    if TitleMatches(LauncherWindowPattern, title) {
      assert title[10] == "Minecraft Launcher"[10];
    }
  }

  /** A top-level window as the enumeration reports it. */
  datatype WindowInfo = WindowInfo(handle: nat, title: string)

  /** The handle of the last window in enumeration order whose title matches `p`. */
  function LastMatch(windows: seq<WindowInfo>, p: TitlePattern): Option<nat>
    decreases |windows|
  {
    if windows == [] then None
    else if TitleMatches(p, windows[|windows| - 1].title) then Some(windows[|windows| - 1].handle)
    else LastMatch(windows[..|windows| - 1], p)
  }

  /** `LastMatch` is `None` exactly when no title matches. */
  lemma {:induction false} LastMatchNoneIffNoMatch(windows: seq<WindowInfo>, p: TitlePattern)
    ensures LastMatch(windows, p).None? <==>
      forall i :: 0 <= i < |windows| ==> !TitleMatches(p, windows[i].title)
    decreases |windows|
  {
    if windows != [] {
      var n := |windows| - 1;
      LastMatchNoneIffNoMatch(windows[..n], p);
      assert forall i :: 0 <= i < n ==> windows[..n][i] == windows[i];
    }
  }

  /**
   * Otherwise it is the handle of the matching window at index `i`, after
   * which no window matches: later matches overwrite earlier ones.
   */
  lemma {:induction false} LastMatchIsLast(windows: seq<WindowInfo>, p: TitlePattern) returns (i: nat)
    requires LastMatch(windows, p).Some?
    ensures i < |windows| && TitleMatches(p, windows[i].title)
    ensures windows[i].handle == LastMatch(windows, p).value
    ensures forall j :: i < j < |windows| ==> !TitleMatches(p, windows[j].title)
    decreases |windows|
  {
    var n := |windows| - 1;
    if TitleMatches(p, windows[n].title) {
      i := n;
    } else {
      i := LastMatchIsLast(windows[..n], p);
      assert windows[..n][i] == windows[i];
      assert forall j :: i < j < n ==> windows[..n][j] == windows[j];
    }
  }

  /** A call into the window manager. */
  datatype OsCall =
    | EnumWindows                          // scan the top-level windows
    | Activate(target: Option<nat>)        // Alt key, maximise, set as foreground window
    | GetClientRect(target: Option<nat>)   // the capture region, in screen coordinates
    | Screenshot(savePath: string)

  /** One `focus` attempt succeeds when a handle was found and the activation was accepted. */
  predicate AttemptSucceeds(p: TitlePattern, windows: seq<WindowInfo>, accepted: bool)
  {
    LastMatch(windows, p).Some? && accepted
  }

  /** The calls of the first `n` focus attempts: each re-resolves the handle, then activates it. */
  function FocusCalls(enumerate: nat -> seq<WindowInfo>, p: TitlePattern, n: nat): seq<OsCall>
  {
    if n == 0 then []
    else FocusCalls(enumerate, p, n - 1) + [EnumWindows, Activate(LastMatch(enumerate(n - 1), p))]
  }

  /** Attempt `i` is the scan at position `2 i` followed by the activation of its result. */
  lemma {:induction false} FocusCallsAlternate(enumerate: nat -> seq<WindowInfo>, p: TitlePattern, n: nat)
    ensures |FocusCalls(enumerate, p, n)| == 2 * n
    ensures forall i :: 0 <= i < n ==>
      FocusCalls(enumerate, p, n)[2 * i] == EnumWindows
      && FocusCalls(enumerate, p, n)[2 * i + 1] == Activate(LastMatch(enumerate(i), p))
  {
    if n > 0 {
      FocusCallsAlternate(enumerate, p, n - 1);
    }
  }

  class Window {
    var handle: Option<nat>
    const pattern: TitlePattern
    var calls: seq<OsCall>

    /** The constructor resolves the handle once. */
    constructor (pattern: TitlePattern, windows: seq<WindowInfo>)
      ensures this.pattern == pattern
      ensures handle == LastMatch(windows, pattern) && calls == [EnumWindows]
    {
      this.pattern := pattern;
      handle := None;
      calls := [];
      new;
      SetWindowHandleByWildcard(windows);
    }

    /** `_set_window_handle_by_wildcard`: reset the handle, then scan every window. */
    method SetWindowHandleByWildcard(windows: seq<WindowInfo>)
      modifies this
      ensures handle == LastMatch(windows, pattern)
      ensures calls == old(calls) + [EnumWindows]
    {
      handle := None;
      calls := calls + [EnumWindows];
      var i := 0;
      while i < |windows|
        invariant 0 <= i <= |windows|
        invariant handle == LastMatch(windows[..i], pattern)
        invariant calls == old(calls) + [EnumWindows]
      {
        SetHandleIfWildcardMatch(windows[i]);
        assert windows[..i + 1][..i] == windows[..i];
        i := i + 1;
      }
      assert windows[..i] == windows;
    }

    /** `_set_handle_if_wildcard_match`: the enumeration callback; a later match overwrites. */
    method SetHandleIfWildcardMatch(window: WindowInfo)
      modifies this
      ensures handle == if TitleMatches(pattern, window.title) then Some(window.handle) else old(handle)
      ensures calls == old(calls)
    {
      if TitleMatches(pattern, window.title) {
        handle := Some(window.handle);
      }
    }

    /**
     * `_bring_to_foreground`: the activation calls are made with whatever
     * handle is set; setting no window as foreground raises.
     */
    method BringToForeground(accepted: bool) returns (ok: bool)
      modifies this
      ensures ok == (handle.Some? && accepted)
      ensures handle == old(handle) && calls == old(calls) + [Activate(handle)]
    {
      calls := calls + [Activate(handle)];
      ok := handle.Some? && accepted;
    }

    /** The body of `focus`: re-resolve, then activate. A failure becomes `FocusWindowError`. */
    method FocusAttempt(windows: seq<WindowInfo>, accepted: bool) returns (ok: bool)
      modifies this
      ensures ok == AttemptSucceeds(pattern, windows, accepted)
      ensures handle == LastMatch(windows, pattern)
      ensures calls == old(calls) + [EnumWindows, Activate(handle)]
    {
      SetWindowHandleByWildcard(windows);
      ok := BringToForeground(accepted);
    }

    /**
     * `focus`, wrapped by `retry_no_raise(stop_max_attempt_number=3)`.
     * `enumerate(i)` is what the window scan reports on attempt `i` and
     * `accepts(i)` whether the activation is accepted then. It makes the
     * attempts `retry_no_raise` makes, re-resolving the handle on each, and
     * returns normally (with `focused` false) when all three fail.
     */
    method Focus(enumerate: nat -> seq<WindowInfo>, accepts: nat -> bool)
      returns (focused: bool, attempts: nat)
      modifies this
      ensures attempts == Decorators.AttemptsMade(
        (i: nat) => AttemptSucceeds(pattern, enumerate(i), accepts(i)), FocusMaxAttempts)
      ensures focused == AttemptSucceeds(pattern, enumerate(attempts - 1), accepts(attempts - 1))
      ensures handle == LastMatch(enumerate(attempts - 1), pattern)
      ensures calls == old(calls) + FocusCalls(enumerate, pattern, attempts)
    {
      attempts := 0;
      focused := false;
      while !focused && attempts < FocusMaxAttempts
        invariant attempts <= FocusMaxAttempts
        invariant forall i :: 0 <= i < attempts - 1 ==> !AttemptSucceeds(pattern, enumerate(i), accepts(i))
        invariant !focused ==> forall i :: 0 <= i < attempts ==> !AttemptSucceeds(pattern, enumerate(i), accepts(i))
        invariant focused ==> attempts > 0 && AttemptSucceeds(pattern, enumerate(attempts - 1), accepts(attempts - 1))
        invariant attempts > 0 ==> handle == LastMatch(enumerate(attempts - 1), pattern)
        invariant calls == old(calls) + FocusCalls(enumerate, pattern, attempts)
      {
        focused := FocusAttempt(enumerate(attempts), accepts(attempts));
        attempts := attempts + 1;
      }
      Decorators.AttemptsMadeIsUnique(
        (i: nat) => AttemptSucceeds(pattern, enumerate(i), accepts(i)), FocusMaxAttempts, attempts);
    }

    /**
     * `save_screenshot`: focus first, then measure the client area and
     * capture it. `focus` never raises, so when its last attempt resolved no
     * handle, `GetClientRect(None)` is called and raises: nothing is captured
     * and `saved` is false.
     */
    method SaveScreenshot(savePath: string, enumerate: nat -> seq<WindowInfo>, accepts: nat -> bool)
      returns (saved: bool)
      modifies this
      ensures var attempts := Decorators.AttemptsMade(
          (i: nat) => AttemptSucceeds(pattern, enumerate(i), accepts(i)), FocusMaxAttempts);
        && handle == LastMatch(enumerate(attempts - 1), pattern)
        && calls == old(calls) + FocusCalls(enumerate, pattern, attempts) + [GetClientRect(handle)]
                    + (if saved then [Screenshot(savePath)] else [])
      ensures saved <==> handle.Some?
      ensures var last := enumerate(Decorators.AttemptsMade(
          (i: nat) => AttemptSucceeds(pattern, enumerate(i), accepts(i)), FocusMaxAttempts) - 1);
        !saved <==> forall i :: 0 <= i < |last| ==> !TitleMatches(pattern, last[i].title)
    {
      var focused, attempts := Focus(enumerate, accepts);
      LastMatchNoneIffNoMatch(enumerate(attempts - 1), pattern);
      calls := calls + [GetClientRect(handle)];
      if handle.None? {
        saved := false;
      } else {
        calls := calls + [Screenshot(savePath)];
        saved := true;
      }
    }
  }
}
