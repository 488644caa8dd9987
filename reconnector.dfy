/**
 * The disconnect-recovery policy. Each game log line is classified as a
 * disconnection, a join or unrelated (disconnection checked first). A retry
 * counter bounded by `MaxReconnectTries` decides between a cheap `connect()`
 * and a full `relaunch()`; a join resets it. A crash report always relaunches
 * and never touches the counter.
 *
 * The policy is stated as functions over the counter and a finite sequence
 * of lines (`ProcessLine`, `Run`); the classes below run it imperatively
 * against the game controller and are proved to follow those functions.
 */
module Reconnector {
  import opened Text
  import MinecraftGame

  const MaxReconnectTries: nat := 5

  // The disconnection regex is an alternation of three patterns, each with a
  // leading ".*"; the join regex has one. Within the fragments below the only
  // metacharacter is '.', which stands for any character.
  const TerminatingFragment := "Terminating "
  const ActiveMacroFragment := " active macro"
  const ConnectFailedFragment := "Couldn't connect to server"
  const ConnectionClosedFragment := "java.io.IOException: An existing connection was forcibly closed"
  const JoinedServerFragment := " Joined server."

  /** `.*Terminating .+ active macro`: the two fragments with at least one character between them. */
  predicate IsMacroTerminatedLine(line: string)
  {
    exists i: nat, j: nat ::
      i + |TerminatingFragment| < j <= |line|
      && MatchesAt(line, TerminatingFragment, i) && MatchesAt(line, ActiveMacroFragment, j)
  }

  predicate IsDisconnectLine(line: string)
  {
    || IsMacroTerminatedLine(line)
    || Occurs(line, ConnectFailedFragment)
    || Occurs(line, ConnectionClosedFragment)
  }

  predicate IsJoinLine(line: string)
  {
    Occurs(line, JoinedServerFragment)
  }

  datatype LogEvent = Disconnected | Joined | Unrelated

  /** The disconnection patterns are tried first, so they win over the join pattern. */
  function Classify(line: string): (e: LogEvent)
    ensures e == Disconnected <==> IsDisconnectLine(line)
    ensures e == Joined <==> !IsDisconnectLine(line) && IsJoinLine(line)
  {
    if IsDisconnectLine(line) then Disconnected
    else if IsJoinLine(line) then Joined
    else Unrelated
  }

  /** What the policy asks of the game controller. */
  datatype GameCommand = Connect | Relaunch

  /** The counter after some lines, and the commands issued for them, in order. */
  datatype Outcome = Outcome(tries: nat, issued: seq<GameCommand>)

  /** `_handle_disconnection`. */
  function DisconnectionStep(tries: nat): (r: Outcome)
    ensures tries <= MaxReconnectTries ==> r.tries <= MaxReconnectTries
    ensures |r.issued| == 1 && (r.issued[0] == Relaunch <==> r.tries == 0)
  {
    if tries < MaxReconnectTries then Outcome(tries + 1, [Connect])
    else Outcome(0, [Relaunch])
  }

  /** `_process_log_line`. */
  function ProcessLine(tries: nat, line: string): (r: Outcome)
    ensures tries <= MaxReconnectTries ==> r.tries <= MaxReconnectTries
  {
    match Classify(line)
    case Disconnected => DisconnectionStep(tries)
    case Joined => Outcome(0, [])
    case Unrelated => Outcome(tries, [])
  }

  /** The lines processed in order, starting from counter `tries`. */
  function Run(tries: nat, lines: seq<string>): (r: Outcome)
    ensures tries <= MaxReconnectTries ==> r.tries <= MaxReconnectTries
    ensures |r.issued| <= |lines|
    decreases |lines|
  {
    if lines == [] then Outcome(tries, [])
    else
      var before := Run(tries, lines[..|lines| - 1]);
      var last := ProcessLine(before.tries, lines[|lines| - 1]);
      Outcome(last.tries, before.issued + last.issued)
  }

  /** The game-controller trace of one command. */
  function CommandScript(c: GameCommand): seq<MinecraftGame.Action>
  {
    match c
    case Connect => MinecraftGame.ConnectScript()
    case Relaunch => MinecraftGame.RelaunchScript()
  }

  /** The game-controller trace of a sequence of commands. */
  function Expand(cs: seq<GameCommand>): seq<MinecraftGame.Action>
    decreases |cs|
  {
    if cs == [] then [] else Expand(cs[..|cs| - 1]) + CommandScript(cs[|cs| - 1])
  }

  /** A join line resets the counter and issues nothing. */
  lemma JoinResets(tries: nat, line: string)
    requires !IsDisconnectLine(line) && IsJoinLine(line)
    ensures ProcessLine(tries, line) == Outcome(0, [])
  {
  }

  /** A line matching neither pattern changes nothing and issues nothing. */
  lemma UnrelatedIsIgnored(tries: nat, line: string)
    requires !IsDisconnectLine(line) && !IsJoinLine(line)
    ensures ProcessLine(tries, line) == Outcome(tries, [])
  {
  }

  /** Below the bound, a disconnection issues exactly one connect and counts it. */
  lemma DisconnectBelowBound(tries: nat, line: string)
    requires IsDisconnectLine(line) && tries < MaxReconnectTries
    ensures ProcessLine(tries, line) == Outcome(tries + 1, [Connect])
  {
  }

  /** At the bound, a disconnection issues exactly one relaunch and resets the counter. */
  lemma DisconnectAtBound(line: string)
    requires IsDisconnectLine(line)
    ensures ProcessLine(MaxReconnectTries, line) == Outcome(0, [Relaunch])
  {
  }

  /** Processing `a` then `b` is processing `a + b`. */
  lemma {:induction false} RunAppend(tries: nat, a: seq<string>, b: seq<string>)
    ensures var ra := Run(tries, a); var rb := Run(ra.tries, b);
      Run(tries, a + b) == Outcome(rb.tries, ra.issued + rb.issued)
    decreases |b|
  {
    if b == [] {
      assert a + b == a;
    } else {
      var b' := b[..|b| - 1];
      assert (a + b)[..|a + b| - 1] == a + b';
      assert (a + b)[|a + b| - 1] == b[|b| - 1];
      RunAppend(tries, a, b');
    }
  }

  /** Two join lines in a row have the same effect as one. */
  lemma {:induction false} JoinIsIdempotent(tries: nat, prefix: seq<string>, line: string)
    requires !IsDisconnectLine(line) && IsJoinLine(line)
    ensures Run(tries, prefix + [line, line]) == Run(tries, prefix + [line])
  {
    RunAppend(tries, prefix, [line, line]);
    RunAppend(tries, prefix, [line]);
    assert [line, line][..1] == [line];
    assert [line][..0] == [];
  }

  lemma ModStep(n: nat)
    ensures n % (MaxReconnectTries + 1) < MaxReconnectTries ==>
      (n + 1) % (MaxReconnectTries + 1) == n % (MaxReconnectTries + 1) + 1
    ensures n % (MaxReconnectTries + 1) == MaxReconnectTries ==> (n + 1) % (MaxReconnectTries + 1) == 0
  {
    var q := n / (MaxReconnectTries + 1);
    assert n == q * (MaxReconnectTries + 1) + n % (MaxReconnectTries + 1);
  }

  /**
   * A run of `n` disconnection lines from counter `tries`: the command at
   * position `k` is a relaunch exactly when `tries + k` is one short of a
   * multiple of `MaxReconnectTries + 1`, every other command is a connect, and
   * the counter ends at `(tries + n) % (MaxReconnectTries + 1)`.
   */
  lemma {:induction false} ConsecutiveDisconnects(tries: nat, lines: seq<string>)
    requires tries <= MaxReconnectTries
    requires forall k :: 0 <= k < |lines| ==> IsDisconnectLine(lines[k])
    ensures var r := Run(tries, lines);
      && r.tries == (tries + |lines|) % (MaxReconnectTries + 1)
      && |r.issued| == |lines|
      && forall k :: 0 <= k < |lines| ==>
           r.issued[k] == (if (tries + k) % (MaxReconnectTries + 1) == MaxReconnectTries
                           then Relaunch else Connect)
    decreases |lines|
  {
    var m := MaxReconnectTries + 1;
    if lines == [] {
      assert tries % m == tries;
    } else {
      var n := |lines| - 1;
      var before := Run(tries, lines[..n]);
      ConsecutiveDisconnects(tries, lines[..n]);
      assert IsDisconnectLine(lines[n]);
      ModStep(tries + n);
    }
  }

  /** From counter `tries`, disconnections that stay within the bound only connect. */
  lemma {:induction false} DisconnectsWithinBound(tries: nat, lines: seq<string>)
    requires tries + |lines| <= MaxReconnectTries
    requires forall k :: 0 <= k < |lines| ==> IsDisconnectLine(lines[k])
    ensures Run(tries, lines) == Outcome(tries + |lines|, seq(|lines|, _ => Connect))
    decreases |lines|
  {
    if lines != [] {
      var n := |lines| - 1;
      DisconnectsWithinBound(tries, lines[..n]);
      assert IsDisconnectLine(lines[n]);
      assert seq(n, _ => Connect) + [Connect] == seq(n + 1, _ => Connect);
    }
  }

  /** From a fresh counter, up to five disconnections give that many connects and no relaunch. */
  lemma FreshDisconnectsOnlyConnect(lines: seq<string>)
    requires |lines| <= MaxReconnectTries
    requires forall k :: 0 <= k < |lines| ==> IsDisconnectLine(lines[k])
    ensures Run(0, lines) == Outcome(|lines|, seq(|lines|, _ => Connect))
  {
    DisconnectsWithinBound(0, lines);
  }

  /** The sixth consecutive disconnection from a fresh counter is the first relaunch. */
  lemma SixthDisconnectRelaunches(lines: seq<string>)
    requires |lines| == MaxReconnectTries + 1
    requires forall k :: 0 <= k < |lines| ==> IsDisconnectLine(lines[k])
    ensures Run(0, lines) == Outcome(0, seq(MaxReconnectTries, _ => Connect) + [Relaunch])
  {
    var n := MaxReconnectTries;
    DisconnectsWithinBound(0, lines[..n]);
    assert IsDisconnectLine(lines[n]);
  }

  /** Four failed connections, then a join: four connects, no relaunch, counter back at 0. */
  lemma FourFailuresThenJoin()
    ensures var failed := "Couldn't connect to server";
      Run(0, [failed, failed, failed, failed, "Player Joined server."])
        == Outcome(0, [Connect, Connect, Connect, Connect])
  {
    var failed := "Couldn't connect to server";
    var joined := "Player Joined server.";
    assert MatchesAt(failed, ConnectFailedFragment, 0);
    assert MatchesAt(joined, JoinedServerFragment, 6);
    var lines := [failed, failed, failed, failed];
    DisconnectsWithinBound(0, lines);
    RunAppend(0, lines, [joined]);
    assert lines + [joined] == [failed, failed, failed, failed, joined];
  }

  /** A line can match both patterns; it is then handled as a disconnection. */
  lemma DisconnectWinsOverJoin()
    ensures var line := "Couldn't connect to server; Player Joined server.";
      IsJoinLine(line) && Classify(line) == Disconnected
  {
    var line := "Couldn't connect to server; Player Joined server.";
    assert MatchesAt(line, ConnectFailedFragment, 0);
    assert MatchesAt(line, JoinedServerFragment, 34);
  }

  /** `Expand` distributes over concatenation. */
  lemma {:induction false} ExpandAppend(a: seq<GameCommand>, b: seq<GameCommand>)
    ensures Expand(a + b) == Expand(a) + Expand(b)
    decreases |b|
  {
    if b == [] {
      assert a + b == a;
    } else {
      var b' := b[..|b| - 1];
      assert (a + b)[..|a + b| - 1] == a + b';
      ExpandAppend(a, b');
    }
  }

  /**
   * The index of the first line at which the liveness check fails, or `n`
   * when it holds for all `n` lines.
   */
  function LinesBeforeStop(upAt: nat -> bool, n: nat): (k: nat)
    ensures k <= n
    ensures forall i :: 0 <= i < k ==> upAt(i)
    ensures k < n ==> !upAt(k)
    decreases n
  {
    if n == 0 then 0
    else
      var k := LinesBeforeStop(upAt, n - 1);
      if k < n - 1 then k else if upAt(n - 1) then n else n - 1
  }

  /** `CrashDirEventHandler`: a new file in the crash-report directory relaunches the game. */
  class CrashDirEventHandler {
    const game: MinecraftGame.Minecraft

    constructor (game: MinecraftGame.Minecraft)
      ensures this.game == game
    {
      this.game := game;
    }

    /** `on_created`: unconditional relaunch; the handler has no counter to consult. */
    method OnCreated()
      requires game.Valid()
      modifies game
      ensures game.Valid() && game.trace == old(game.trace) + MinecraftGame.RelaunchScript()
    {
      game.Relaunch();
    }
  }

  /** A watchdog observer thread: it can be started once, and is alive only while running. */
  datatype ObserverState = NotStarted | Running | Stopped

  class Observer {
    var state: ObserverState

    constructor ()
      ensures state == NotStarted
    {
      state := NotStarted;
    }

    predicate IsAlive()
      reads this
    {
      state == Running
    }

    /** Starting an observer a second time raises; `started` is false then. */
    method Start() returns (started: bool)
      modifies this
      ensures started <==> old(state) == NotStarted
      ensures state == if started then Running else old(state)
    {
      started := state == NotStarted;
      if started {
        state := Running;
      }
    }

    method Stop()
      modifies this
      ensures state == Stopped
    {
      state := Stopped;
    }
  }

  /** `MinecraftServerReconnector`. */
  class MinecraftServerReconnector {
    const game: MinecraftGame.Minecraft
    const crashHandler: CrashDirEventHandler
    var observer: Observer
    var tries: nat

    ghost predicate Valid()
      reads this, game, crashHandler
    {
      tries <= MaxReconnectTries && crashHandler.game == game && game.Valid()
    }

    constructor (game: MinecraftGame.Minecraft)
      requires game.Valid()
      ensures Valid() && this.game == game
      ensures tries == 0 && fresh(observer) && observer.state == NotStarted
    {
      this.game := game;
      crashHandler := new CrashDirEventHandler(game);
      observer := new Observer();
      tries := 0;
    }

    predicate IsUp()
      reads this, observer
    {
      observer.IsAlive()
    }

    /** A fresh observer replaces the current one only when it is not running. */
    method InitObserverIfStopped()
      modifies this
      ensures old(IsUp()) ==> observer == old(observer)
      ensures !old(IsUp()) ==> fresh(observer) && observer.state == NotStarted
      ensures tries == old(tries)
    {
      if !IsUp() {
        observer := new Observer();
      }
    }

    /**
     * `keep_connected` up to the start of the log-watching thread, which is
     * `DetectAndHandleDisconnections`. Starting while already up reaches
     * `start()` on a running observer, which raises: `started` is false then.
     */
    method KeepConnected() returns (started: bool)
      modifies this, observer
      ensures started <==> !old(IsUp())
      ensures IsUp()
      ensures old(IsUp()) ==> observer == old(observer)
      ensures !old(IsUp()) ==> fresh(observer)
      ensures tries == old(tries)
    {
      InitObserverIfStopped();
      started := observer.Start();
    }

    method Stop()
      modifies observer
      ensures !IsUp()
    {
      observer.Stop();
    }

    /** `_handle_disconnection`. */
    method HandleDisconnection()
      requires Valid()
      modifies this, game
      ensures Valid() && observer == old(observer)
      ensures var r := DisconnectionStep(old(tries));
        tries == r.tries && game.trace == old(game.trace) + Expand(r.issued)
    {
      if tries < MaxReconnectTries {
        game.Connect();
        tries := tries + 1;
      } else {
        game.Relaunch();
        tries := 0;
      }
    }

    /** `_process_log_line`. */
    method ProcessLogLine(line: string)
      requires Valid()
      modifies this, game
      ensures Valid() && observer == old(observer)
      ensures var r := ProcessLine(old(tries), line);
        tries == r.tries && game.trace == old(game.trace) + Expand(r.issued)
    {
      if IsDisconnectLine(line) {
        HandleDisconnection();
      } else if IsJoinLine(line) {
        tries := 0;
        assert Expand([]) == [];
      } else {
        assert Expand([]) == [];
      }
    }

    /**
     * `_detect_and_handle_disconnections` over the lines the log yields.
     * `upAt(i)` is what `is_up()` answers when line `i` arrives (the observer
     * can be stopped from another thread); the loop stops at the first line
     * for which it is false, without processing that line.
     */
    method DetectAndHandleDisconnections(lines: seq<string>, upAt: nat -> bool)
      returns (processed: nat)
      requires Valid()
      modifies this, game
      ensures Valid() && observer == old(observer)
      ensures processed == LinesBeforeStop(upAt, |lines|)
      ensures var r := Run(old(tries), lines[..processed]);
        tries == r.tries && game.trace == old(game.trace) + Expand(r.issued)
    {
      ghost var tries0, trace0 := tries, game.trace;
      var i := 0;
      while i < |lines|
        invariant 0 <= i <= |lines|
        invariant forall k :: 0 <= k < i ==> upAt(k)
        invariant Valid() && observer == old(observer)
        invariant tries == Run(tries0, lines[..i]).tries
        invariant game.trace == trace0 + Expand(Run(tries0, lines[..i]).issued)
      {
        if !upAt(i) {
          break;
        }
        ghost var before := Run(tries0, lines[..i]);
        ghost var step := ProcessLine(tries, lines[i]);
        ProcessLogLine(lines[i]);
        assert game.trace == trace0 + Expand(before.issued) + Expand(step.issued);
        RunStep(tries0, lines, i);
        ExpandAppend(before.issued, step.issued);
        AppendAssociates(trace0, Expand(before.issued), Expand(step.issued));
        i := i + 1;
      }
      processed := i;
      LinesBeforeStopIsFirstDown(upAt, |lines|, i);
    }

    /** The running observer thread delivering one crash-report event: the counter is untouched. */
    method DeliverCrashReport()
      requires Valid() && IsUp()
      modifies game
      ensures Valid() && IsUp() && tries == old(tries) && observer == old(observer)
      ensures game.trace == old(game.trace) + MinecraftGame.RelaunchScript()
    {
      crashHandler.OnCreated();
    }
  }

  lemma AppendAssociates<T>(x: seq<T>, y: seq<T>, z: seq<T>)
    ensures x + y + z == x + (y + z)
  {
  }

  /** Processing one more line of `lines`. */
  lemma RunStep(tries: nat, lines: seq<string>, i: nat)
    requires i < |lines|
    ensures var before := Run(tries, lines[..i]);
      var step := ProcessLine(before.tries, lines[i]);
      Run(tries, lines[..i + 1]) == Outcome(step.tries, before.issued + step.issued)
  {
    assert lines[..i + 1][..i] == lines[..i];
  }

  /** `LinesBeforeStop` is the unique index with every earlier check passing and its own failing. */
  lemma LinesBeforeStopIsFirstDown(upAt: nat -> bool, n: nat, k: nat)
    requires k <= n
    requires forall i :: 0 <= i < k ==> upAt(i)
    requires k < n ==> !upAt(k)
    ensures LinesBeforeStop(upAt, n) == k
  {
  }
}
