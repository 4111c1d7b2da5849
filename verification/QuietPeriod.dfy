/** Permission and idle signals come only after their quiet period, over whole sessions. */
module QuietPeriod {
  import opened Basics
  import opened TranscriptParser
  import opened AgentMachine
  import AgentInvariants

  datatype Kind = ForPermission | ForIdle

  function TimerOf(kind: Kind, a: Agent): Option<nat> {
    if kind.ForPermission? then a.permissionTimer else a.idleTimer
  }

  function Delay(kind: Kind): nat {
    if kind.ForPermission? then PERMISSION_DELAY else IDLE_DELAY
  }

  function SignalOf(kind: Kind): Signal {
    if kind.ForPermission? then Permission else WentIdle
  }

  /** Events that start the timer. */
  predicate Starts(kind: Kind, e: AgentEvent) {
    if kind.ForPermission? then e.ToolStart? && !Exempt(e.name) else e.TextIdle?
  }

  function Timer(kind: Kind, v: View): Option<nat> {
    if v.agent.Some? then TimerOf(kind, v.agent.value) else None
  }

  /** Some line of the batch, processed at `t`, holds an event that starts the timer. */
  ghost predicate Sets(kind: Kind, lines: seq<Line>, t: nat) {
    exists i, had, e :: 0 <= i < |lines| && lines[i].at == t && e in LineEvents(lines[i], had) && Starts(kind, e)
  }

  lemma FeedTimer(kind: Kind, v: View, e: AgentEvent, now: nat)
    ensures var t := Timer(kind, Feed(v, e, now)); t == Timer(kind, v) || t.None? || (t == Some(now) && Starts(kind, e))
  {
  }

  lemma {:induction false} FeedAllTimer(kind: Kind, v: View, es: seq<AgentEvent>, now: nat)
    ensures var t := Timer(kind, FeedAll(v, es, now));
            t == Timer(kind, v) || t.None? || (t == Some(now) && exists e :: e in es && Starts(kind, e))
  {
    if es != [] {
      var front, last := es[..|es| - 1], es[|es| - 1];
      FeedAllTimer(kind, v, front, now);
      FeedTimer(kind, FeedAll(v, front, now), last, now);
      assert last in es;
      assert forall e | e in front :: e in es;
    }
  }

  lemma {:induction false} FeedLinesTimer(kind: Kind, v: View, lines: seq<Line>, had: bool)
    ensures var t := Timer(kind, FeedLines(v, lines, had));
            t == Timer(kind, v) || t.None? || Sets(kind, lines, t.value)
  {
    if lines != [] {
      var front, last := lines[..|lines| - 1], lines[|lines| - 1];
      FeedLinesTimer(kind, v, front, had);
      var u := FeedLines(v, front, had);
      var es := LineEvents(last, had);
      FeedAllTimer(kind, Ensure(u, last.at), es, last.at);
      var t := Timer(kind, FeedLines(v, lines, had));
      if t.Some? && t == Timer(kind, u) && t != Timer(kind, v) {
        var i, h, e :| 0 <= i < |front| && front[i].at == t.value && e in LineEvents(front[i], h) && Starts(kind, e);
        assert lines[i] == front[i];
        assert Sets(kind, lines, t.value);
      } else if t.Some? && t != Timer(kind, u) {
        var e :| e in es && Starts(kind, e);
        assert lines[|lines| - 1].at == t.value && e in LineEvents(lines[|lines| - 1], had);
      }
    }
  }

  /** A batch leaves the timer off or started by one of its own lines. */
  lemma BatchTimer(kind: Kind, v: View, lines: seq<Line>)
    requires lines != []
    ensures var t := Timer(kind, BatchStep(v, lines)); t.None? || Sets(kind, lines, t.value)
  {
    var u := Receive(v, lines[0].at);
    assert Timer(kind, u).None?;
    FeedLinesTimer(kind, u, lines, HadTools(v));
  }

  /** A tick leaves a timer alone or switches it off, and switches it off when it signals. */
  lemma TickTimer(kind: Kind, v: View, now: nat)
    ensures var t := Timer(kind, TickStep(v, now)); t == Timer(kind, v) || t.None?
    ensures v.agent.Some? && SignalOf(kind) in TickSignals(v.agent.value, now) ==>
              Timer(kind, TickStep(v, now)).None? && Elapsed(Timer(kind, v), Delay(kind), now)
  {
  }

  /** The timer was started at `t` by the last batch of the scan. */
  ghost predicate SetInScan(kind: Kind, scan: seq<seq<Line>>, t: nat) {
    exists b :: 0 <= b < |scan| && Sets(kind, scan[b], t) && forall c | b < c < |scan| :: scan[c] == []
  }

  lemma {:induction false} ScanTimer(kind: Kind, scan: seq<seq<Line>>)
    ensures var t := Timer(kind, Scan(scan)); t.None? || SetInScan(kind, scan, t.value)
  {
    if scan != [] {
      var front, last := scan[..|scan| - 1], scan[|scan| - 1];
      ScanTimer(kind, front);
      var t := Timer(kind, Scan(scan));
      if t.Some? {
        if last == [] {
          var b :| 0 <= b < |front| && Sets(kind, front[b], t.value) && forall c | b < c < |front| :: front[c] == [];
          assert Sets(kind, scan[b], t.value);
          forall c | b < c < |scan| ensures scan[c] == [] {
            if c < |front| {
              assert scan[c] == front[c];
            }
          }
        } else {
          BatchTimer(kind, Scan(front), last);
          assert Sets(kind, scan[|scan| - 1], t.value);
        }
      }
    }
  }

  /** Step `k` of the session signals. */
  predicate SignalsAt(kind: Kind, scan: seq<seq<Line>>, steps: seq<Step>, k: nat)
    requires k < |steps|
  {
    var v := Session(scan, steps[..k]);
    steps[k].TimerTick? && v.agent.Some? && SignalOf(kind) in TickSignals(v.agent.value, steps[k].now)
  }

  /** The timer runs since `t`: it was started by step `j` (-1: by the scan), and since then there was no data and
      no signal of its kind. */
  ghost predicate RunsSince(kind: Kind, scan: seq<seq<Line>>, steps: seq<Step>, n: nat, j: int, t: nat)
    requires n <= |steps|
  {
    && -1 <= j < n
    && (if j == -1 then SetInScan(kind, scan, t) else steps[j].Batch? && Sets(kind, steps[j].lines, t))
    && (forall m | j < m < n :: (steps[m].Batch? ==> steps[m].lines == []) && !SignalsAt(kind, scan, steps, m))
  }

  lemma SessionSnoc(scan: seq<seq<Line>>, steps: seq<Step>, n: nat)
    requires 0 < n <= |steps|
    ensures Session(scan, steps[..n]) == LiveStep(Session(scan, steps[..n - 1]), steps[n - 1])
  {
    assert steps[..n][..n - 1] == steps[..n - 1];
  }

  /** A step that delivers no data keeps a running timer only by not signalling. */
  lemma StillRuns(kind: Kind, v: View, s: Step)
    requires s.Batch? ==> s.lines == []
    requires Timer(kind, LiveStep(v, s)).Some?
    ensures Timer(kind, v) == Timer(kind, LiveStep(v, s))
    ensures s.TimerTick? && v.agent.Some? ==> SignalOf(kind) !in TickSignals(v.agent.value, s.now)
  {
    if s.TimerTick? {
      TickTimer(kind, v, s.now);
    }
  }

  lemma RunsOn(kind: Kind, scan: seq<seq<Line>>, steps: seq<Step>, n: nat, j: int, t: nat)
    requires 0 < n <= |steps| && RunsSince(kind, scan, steps, n - 1, j, t)
    requires (steps[n - 1].Batch? ==> steps[n - 1].lines == []) && !SignalsAt(kind, scan, steps, n - 1)
    ensures RunsSince(kind, scan, steps, n, j, t)
  {
  }

  /** Where a running timer comes from: the last step started it, or it ran before and the step left it alone. */
  lemma TimerStep(kind: Kind, scan: seq<seq<Line>>, steps: seq<Step>, n: nat, t: nat)
    requires 0 < n <= |steps| && Timer(kind, Session(scan, steps[..n])) == Some(t)
    ensures if steps[n - 1].Batch? && steps[n - 1].lines != [] then Sets(kind, steps[n - 1].lines, t)
            else Timer(kind, Session(scan, steps[..n - 1])) == Some(t) && !SignalsAt(kind, scan, steps, n - 1)
  {
    var v, s := Session(scan, steps[..n - 1]), steps[n - 1];
    SessionSnoc(scan, steps, n);
    if s.Batch? && s.lines != [] {
      BatchTimer(kind, v, s.lines);
    } else {
      StillRuns(kind, v, s);
    }
  }

  lemma {:induction false} TimerOrigin(kind: Kind, scan: seq<seq<Line>>, steps: seq<Step>, n: nat, t: nat)
    returns (j: int)
    requires n <= |steps| && Timer(kind, Session(scan, steps[..n])) == Some(t)
    ensures RunsSince(kind, scan, steps, n, j, t)
    decreases n
  {
    if n == 0 {
      assert steps[..0] == [];
      ScanTimer(kind, scan);
      j := -1;
    } else {
      TimerStep(kind, scan, steps, n, t);
      if steps[n - 1].Batch? && steps[n - 1].lines != [] {
        j := n - 1;
      } else {
        j := TimerOrigin(kind, scan, steps, n - 1, t);
        RunsOn(kind, scan, steps, n, j, t);
      }
    }
  }

  /** Every permission signal comes at least 7000 ms, and every idle signal at least 5000 ms, after the event that
      started its timer, with no data for the agent and no such signal in between; a permission signal is sent
      only while a tool that needs permission is tracked as active. */
  lemma SignalAfterQuietPeriod(kind: Kind, scan: seq<seq<Line>>, steps: seq<Step>, k: nat) returns (j: int, t: nat)
    requires k < |steps| && SignalsAt(kind, scan, steps, k)
    ensures RunsSince(kind, scan, steps, k, j, t)
    ensures t + Delay(kind) <= steps[k].now
    ensures kind.ForPermission? ==> NonExemptActive(Session(scan, steps[..k]).agent.value)
  {
    var v := Session(scan, steps[..k]);
    TickTimer(kind, v, steps[k].now);
    t := Timer(kind, v).value;
    j := TimerOrigin(kind, scan, steps, k, t);
  }

  /** One timer start yields at most one signal: two signals have different origins. */
  lemma SignalsHaveOwnStart(kind: Kind, scan: seq<seq<Line>>, steps: seq<Step>, k1: nat, k2: nat, j1: int, j2: int,
                            t1: nat, t2: nat)
    requires k1 < k2 < |steps| && SignalsAt(kind, scan, steps, k1) && SignalsAt(kind, scan, steps, k2)
    requires RunsSince(kind, scan, steps, k1, j1, t1) && RunsSince(kind, scan, steps, k2, j2, t2)
    ensures j1 < k1 < j2
  {
    assert steps[k1].TimerTick?;
  }

  // ----- the emitted log -----

  /** What was added to the log holds no signal of this kind. */
  ghost predicate AddsNone(kind: Kind, v: View, v': View) {
    v.emitted <= v'.emitted && SignalOf(kind) !in v'.emitted[|v.emitted|..]
  }

  lemma AddsNoneTrans(kind: Kind, a: View, b: View, c: View)
    requires AddsNone(kind, a, b) && AddsNone(kind, b, c)
    ensures AddsNone(kind, a, c)
  {
    assert c.emitted[|a.emitted|..] == b.emitted[|a.emitted|..] + c.emitted[|b.emitted|..];
  }

  lemma FeedAddsNone(kind: Kind, v: View, e: AgentEvent, now: nat)
    ensures AddsNone(kind, v, Feed(v, e, now))
  {
    var v' := Feed(v, e, now);
    var a := if v.agent.Some? then v.agent.value else NewAgent(now);
    var added := if v.suppress then [] else Signals(a, e);
    assert v'.emitted == v.emitted + added && v'.emitted[|v.emitted|..] == added;
  }

  lemma {:induction false} FeedAllAddsNone(kind: Kind, v: View, es: seq<AgentEvent>, now: nat)
    ensures AddsNone(kind, v, FeedAll(v, es, now))
  {
    if es != [] {
      var u := FeedAll(v, es[..|es| - 1], now);
      FeedAllAddsNone(kind, v, es[..|es| - 1], now);
      FeedAddsNone(kind, u, es[|es| - 1], now);
      AddsNoneTrans(kind, v, u, Feed(u, es[|es| - 1], now));
    }
  }

  lemma {:induction false} FeedLinesAddsNone(kind: Kind, v: View, lines: seq<Line>, had: bool)
    ensures AddsNone(kind, v, FeedLines(v, lines, had))
  {
    if lines != [] {
      var last := lines[|lines| - 1];
      var u := FeedLines(v, lines[..|lines| - 1], had);
      FeedLinesAddsNone(kind, v, lines[..|lines| - 1], had);
      FeedAllAddsNone(kind, Ensure(u, last.at), LineEvents(last, had), last.at);
      AddsNoneTrans(kind, v, u, FeedLine(u, last, had));
    }
  }

  lemma BatchAddsNone(kind: Kind, v: View, lines: seq<Line>)
    ensures AddsNone(kind, v, BatchStep(v, lines))
  {
    if lines != [] {
      var u := Receive(v, lines[0].at);
      assert u.emitted[|v.emitted|..] == [] || u.emitted[|v.emitted|..] == [PermissionClear];
      FeedLinesAddsNone(kind, u, lines, HadTools(v));
      AddsNoneTrans(kind, v, u, BatchStep(v, lines));
    }
  }

  /** How many of the first `n` steps signal. */
  function SignalSteps(kind: Kind, scan: seq<seq<Line>>, steps: seq<Step>, n: nat): nat
    requires n <= |steps|
  {
    if n == 0 then 0
    else SignalSteps(kind, scan, steps, n - 1) + if SignalsAt(kind, scan, steps, n - 1) then 1 else 0
  }

  /** What a step adds to the log: one signal of the kind if it signals, else none. */
  lemma StepAdds(kind: Kind, scan: seq<seq<Line>>, steps: seq<Step>, n: nat)
    requires n < |steps|
    ensures var v, v' := Session(scan, steps[..n]), Session(scan, steps[..n + 1]);
            && v.emitted <= v'.emitted
            && multiset(v'.emitted[|v.emitted|..])[SignalOf(kind)] == if SignalsAt(kind, scan, steps, n) then 1 else 0
  {
    var v := Session(scan, steps[..n]);
    SessionSnoc(scan, steps, n + 1);
    AgentInvariants.SessionInvariant(scan, steps[..n]);
    if steps[n].Batch? {
      BatchAddsNone(kind, v, steps[n].lines);
    } else {
      TickAdds(kind, v, steps[n].now);
    }
  }

  lemma TickAdds(kind: Kind, v: View, now: nat)
    requires !v.suppress
    ensures v.emitted <= TickStep(v, now).emitted
    ensures multiset(TickStep(v, now).emitted[|v.emitted|..])[SignalOf(kind)] ==
            if v.agent.Some? && SignalOf(kind) in TickSignals(v.agent.value, now) then 1 else 0
  {
    var v' := TickStep(v, now);
    if v.agent.Some? {
      var added := TickSignals(v.agent.value, now);
      assert v'.emitted[|v.emitted|..] == added;
    } else {
      assert v'.emitted[|v.emitted|..] == [];
    }
  }

  lemma CountAppend(log: seq<Signal>, log': seq<Signal>, s: Signal)
    requires log <= log'
    ensures multiset(log')[s] == multiset(log)[s] + multiset(log'[|log|..])[s]
  {
    assert log' == log + log'[|log|..];
  }

  lemma TailCounts(log: seq<Signal>, log': seq<Signal>, p: nat, s: Signal)
    requires log <= log' && |log| <= p < |log'| && log'[p] == s
    ensures multiset(log'[|log|..])[s] > 0
  {
    assert log'[|log|..][p - |log|] == s;
  }

  /** Signals in the log and signalling steps are equally many, after every prefix of the session. */
  lemma {:induction false} LogCountsSteps(kind: Kind, scan: seq<seq<Line>>, steps: seq<Step>, n: nat)
    requires n <= |steps|
    ensures multiset(Session(scan, steps[..n]).emitted)[SignalOf(kind)] == SignalSteps(kind, scan, steps, n)
  {
    if n == 0 {
      assert steps[..0] == [];
      AgentInvariants.ScanIsSilent(scan);
    } else {
      LogCountsSteps(kind, scan, steps, n - 1);
      StepAdds(kind, scan, steps, n - 1);
      CountAppend(Session(scan, steps[..n - 1]).emitted, Session(scan, steps[..n]).emitted, SignalOf(kind));
    }
  }

  function LogAfter(scan: seq<seq<Line>>, steps: seq<Step>, n: nat): seq<Signal>
    requires n <= |steps|
  {
    Session(scan, steps[..n]).emitted
  }

  lemma LoggedLast(kind: Kind, scan: seq<seq<Line>>, steps: seq<Step>, n: nat, p: nat)
    requires n < |steps| && |LogAfter(scan, steps, n)| <= p < |LogAfter(scan, steps, n + 1)|
    requires LogAfter(scan, steps, n + 1)[p] == SignalOf(kind)
    ensures SignalsAt(kind, scan, steps, n)
  {
    StepAdds(kind, scan, steps, n);
    TailCounts(LogAfter(scan, steps, n), LogAfter(scan, steps, n + 1), p, SignalOf(kind));
  }

  lemma LogGrows(kind: Kind, scan: seq<seq<Line>>, steps: seq<Step>, n: nat)
    requires n < |steps|
    ensures LogAfter(scan, steps, n) <= LogAfter(scan, steps, n + 1)
  {
    StepAdds(kind, scan, steps, n);
  }

  lemma NothingLogged(kind: Kind, scan: seq<seq<Line>>, steps: seq<Step>)
    ensures SignalOf(kind) !in LogAfter(scan, steps, 0)
  {
    assert steps[..0] == [];
    AgentInvariants.ScanIsSilent(scan);
  }

  /** In a growing log, the entry that brought position `p`. */
  lemma {:induction false} GrewAt(logs: seq<seq<Signal>>, n: nat, p: nat) returns (k: nat)
    requires n < |logs| && p < |logs[n]| && logs[n][p] !in logs[0]
    requires forall i | 0 <= i < n :: logs[i] <= logs[i + 1]
    ensures k < n && |logs[k]| <= p < |logs[k + 1]| && logs[k + 1][p] == logs[n][p]
  {
    assert n > 0;
    if p < |logs[n - 1]| {
      assert logs[n - 1][p] == logs[n][p];
      k := GrewAt(logs, n - 1, p);
    } else {
      k := n - 1;
    }
  }

  /** Every such signal in the log was put there by one step that signals. */
  lemma LoggedByStep(kind: Kind, scan: seq<seq<Line>>, steps: seq<Step>, n: nat, p: nat) returns (k: nat)
    requires n <= |steps| && p < |LogAfter(scan, steps, n)| && LogAfter(scan, steps, n)[p] == SignalOf(kind)
    ensures k < n && SignalsAt(kind, scan, steps, k)
    ensures |LogAfter(scan, steps, k)| <= p < |LogAfter(scan, steps, k + 1)|
  {
    var logs := Logs(kind, scan, steps, n);
    k := GrewAt(logs, n, p);
    LoggedLast(kind, scan, steps, k, p);
  }

  /** The log after each of the first `n` steps. */
  lemma Logs(kind: Kind, scan: seq<seq<Line>>, steps: seq<Step>, n: nat) returns (logs: seq<seq<Signal>>)
    requires n <= |steps|
    ensures |logs| == n + 1 && forall i | 0 <= i <= n :: logs[i] == LogAfter(scan, steps, i)
    ensures SignalOf(kind) !in logs[0] && forall i | 0 <= i < n :: logs[i] <= logs[i + 1]
  {
    NothingLogged(kind, scan, steps);
    logs := seq(n + 1, i requires 0 <= i <= n => LogAfter(scan, steps, i));
    forall i | 0 <= i < n ensures logs[i] <= logs[i + 1] {
      LogGrows(kind, scan, steps, i);
    }
  }

  /** So every permission or idle signal in the log has its quiet period behind it. */
  lemma LoggedAfterQuietPeriod(kind: Kind, scan: seq<seq<Line>>, steps: seq<Step>, p: nat)
    returns (k: nat, j: int, t: nat)
    requires p < |Session(scan, steps).emitted| && Session(scan, steps).emitted[p] == SignalOf(kind)
    ensures k < |steps| && SignalsAt(kind, scan, steps, k) && RunsSince(kind, scan, steps, k, j, t)
    ensures |LogAfter(scan, steps, k)| <= p < |LogAfter(scan, steps, k + 1)|
    ensures t + Delay(kind) <= steps[k].now
    ensures kind.ForPermission? ==> NonExemptActive(Session(scan, steps[..k]).agent.value)
  {
    assert steps[..|steps|] == steps;
    k := LoggedByStep(kind, scan, steps, |steps|, p);
    j, t := SignalAfterQuietPeriod(kind, scan, steps, k);
  }
}
