/** What holds of an agent after every step of every session. */
module AgentInvariants {
  import opened Basics
  import opened TranscriptParser
  import opened AgentMachine

  /** The redundant tables agree, and the turn flag says whether a top-level tool is active. */
  ghost predicate Consistent(a: Agent) {
    && a.active == a.names.Keys
    && a.subIds.Keys == a.subNames.Keys
    && (forall p | p in a.subIds :: a.subIds[p] == a.subNames[p].Keys)
    && (a.hadTools <==> a.active != {})
  }

  /** A permission request and a running permission timer never coexist. */
  predicate Quiet(a: Agent) {
    !(a.permissionSent && a.permissionTimer.Some?)
  }

  lemma StartConsistent(a: Agent, id: string, name: string, sub: bool, parent: Option<string>)
    requires Consistent(a)
    ensures Consistent(StartTool(a, id, name, sub, parent))
  {
    if !sub {
      assert id in a.active + {id};
    } else if parent.Some? {
      var p := parent.value;
      assert GetSet(a.subIds, p) == GetMap(a.subNames, p).Keys;
    }
  }

  lemma FinishConsistent(a: Agent, id: string, sub: bool, parent: Option<string>)
    requires Consistent(a)
    ensures Consistent(FinishTool(a, id, sub, parent))
  {
    if sub && parent.Some? && parent.value in a.subIds {
      var p := parent.value;
      assert a.subIds[p] - {id} == (a.subNames[p] - {id}).Keys;
    }
  }

  lemma ApplyConsistent(a: Agent, e: AgentEvent, now: nat)
    requires Consistent(a)
    ensures Consistent(Apply(a, e, now))
  {
    match e
    case ToolStart(id, name, sub, parent) =>
      StartConsistent(a.(lastActivity := now, waiting := false, idleTimer := None), id, name, sub, parent);
    case ToolDone(id, sub, parent) =>
      FinishConsistent(a.(lastActivity := now), id, sub, parent);
    case _ =>
  }

  ghost predicate Good(v: View) {
    v.agent.Some? ==> Consistent(v.agent.value) && Quiet(v.agent.value)
  }

  /** Inside a batch no permission request is pending. */
  ghost predicate Calm(v: View) {
    v.agent.Some? ==> Consistent(v.agent.value) && !v.agent.value.permissionSent
  }

  /** Signals of a batch: no permission traffic. */
  predicate NoToggle(s: seq<Signal>) {
    Permission !in s && PermissionClear !in s
  }

  lemma FeedCalm(v: View, e: AgentEvent, now: nat)
    requires Calm(v)
    ensures Calm(Feed(v, e, now))
    ensures exists s :: Feed(v, e, now).emitted == v.emitted + s && NoToggle(s) && (v.suppress ==> s == [])
    ensures Feed(v, e, now).suppress == v.suppress
  {
    var a := if v.agent.Some? then v.agent.value else NewAgent(now);
    assert Consistent(a);
    ApplyConsistent(a, e, now);
    var s := if v.suppress then [] else Signals(a, e);
    assert Feed(v, e, now).emitted == v.emitted + s && NoToggle(s);
  }

  /** `after` extends `before` by signals that carry no permission traffic, none at all when suppressed. */
  ghost predicate Extends(before: View, after: View) {
    && after.suppress == before.suppress
    && exists s :: after.emitted == before.emitted + s && NoToggle(s) && (before.suppress ==> s == [])
  }

  lemma ExtendsRefl(v: View)
    ensures Extends(v, v)
  {
    assert v.emitted == v.emitted + [] && NoToggle([]);
  }

  lemma ExtendsTrans(a: View, b: View, c: View)
    requires Extends(a, b) && Extends(b, c)
    ensures Extends(a, c)
  {
    var s :| b.emitted == a.emitted + s && NoToggle(s) && (a.suppress ==> s == []);
    var t :| c.emitted == b.emitted + t && NoToggle(t) && (b.suppress ==> t == []);
    assert c.emitted == a.emitted + (s + t) && NoToggle(s + t);
  }

  lemma {:induction false} FeedAllCalm(v: View, es: seq<AgentEvent>, now: nat)
    requires Calm(v)
    ensures Calm(FeedAll(v, es, now)) && Extends(v, FeedAll(v, es, now))
  {
    if es == [] {
      ExtendsRefl(v);
    } else {
      var front := es[..|es| - 1];
      FeedAllCalm(v, front, now);
      FeedCalm(FeedAll(v, front, now), es[|es| - 1], now);
      ExtendsTrans(v, FeedAll(v, front, now), FeedAll(v, es, now));
    }
  }

  lemma {:induction false} FeedLinesCalm(v: View, lines: seq<Line>, had: bool)
    requires Calm(v)
    ensures Calm(FeedLines(v, lines, had)) && Extends(v, FeedLines(v, lines, had))
  {
    if lines == [] {
      ExtendsRefl(v);
    } else {
      var front, last := lines[..|lines| - 1], lines[|lines| - 1];
      FeedLinesCalm(v, front, had);
      var u := Ensure(FeedLines(v, front, had), last.at);
      assert Consistent(NewAgent(last.at));
      FeedAllCalm(u, LineEvents(last, had), last.at);
      assert u.emitted == FeedLines(v, front, had).emitted && u.suppress == FeedLines(v, front, had).suppress;
      ExtendsTrans(v, FeedLines(v, front, had), FeedLines(v, lines, had));
    }
  }

  // ----- permission traffic -----

  /** What the permission traffic of a log leaves: no request open, one open, or out of turn. */
  datatype Turnstile = Closed | Open | Broken

  function Toggle(t: Turnstile, s: Signal): Turnstile {
    match s
    case Permission => if t.Closed? then Open else Broken
    case PermissionClear => if t.Open? then Closed else Broken
    case _ => t
  }

  function Traffic(log: seq<Signal>): Turnstile {
    if log == [] then Closed else Toggle(Traffic(log[..|log| - 1]), log[|log| - 1])
  }

  /** The traffic so far alternates, and an open request is exactly the agent's `permissionSent`. */
  predicate InTurn(v: View) {
    Traffic(v.emitted) == if v.agent.Some? && v.agent.value.permissionSent then Open else Closed
  }

  lemma {:induction false} TrafficAppend(log: seq<Signal>, s: seq<Signal>)
    requires NoToggle(s)
    ensures Traffic(log + s) == Traffic(log)
  {
    if s == [] {
      assert log + s == log;
    } else {
      var front := s[..|s| - 1];
      TrafficAppend(log, front);
      assert (log + s)[..|log + s| - 1] == log + front;
      assert s[|s| - 1] in s;
    }
  }

  lemma TrafficSnoc(log: seq<Signal>, s: Signal)
    ensures Traffic(log + [s]) == Toggle(Traffic(log), s)
  {
    assert (log + [s])[..|log|] == log;
  }

  lemma ReceiveCalm(v: View, now: nat)
    requires Good(v) && InTurn(v)
    ensures Calm(Receive(v, now)) && InTurn(Receive(v, now))
    ensures Receive(v, now).suppress == v.suppress
    ensures v.agent.None? || !v.agent.value.permissionSent ==> Receive(v, now).emitted == v.emitted
  {
    if v.agent.Some? && v.agent.value.permissionSent {
      TrafficSnoc(v.emitted, PermissionClear);
    } else {
      assert v.emitted + [] == v.emitted;
    }
  }

  lemma BatchKeeps(v: View, lines: seq<Line>)
    requires Good(v) && InTurn(v)
    ensures Good(BatchStep(v, lines)) && InTurn(BatchStep(v, lines))
    ensures BatchStep(v, lines).suppress == v.suppress
    ensures v.suppress && v.emitted == [] && Calm(v) ==>
              BatchStep(v, lines).emitted == [] && Calm(BatchStep(v, lines))
  {
    if lines != [] {
      var u := Receive(v, lines[0].at);
      ReceiveCalm(v, lines[0].at);
      FeedLinesCalm(u, lines, HadTools(v));
      var s :| BatchStep(v, lines).emitted == u.emitted + s && NoToggle(s) && (u.suppress ==> s == []);
      TrafficAppend(u.emitted, s);
    }
  }

  /** A tick changes timers and flags only. */
  lemma TickConsistent(a: Agent, now: nat)
    requires Consistent(a) && Quiet(a)
    ensures Consistent(Tick(a, now)) && Quiet(Tick(a, now))
    ensures Elapsed(a.permissionTimer, PERMISSION_DELAY, now) ==> !a.permissionSent
    ensures Tick(a, now).permissionSent <==>
            a.permissionSent || (Elapsed(a.permissionTimer, PERMISSION_DELAY, now) && NonExemptActive(a))
  {
  }

  lemma TickTraffic(log: seq<Signal>, requested: bool, idle: bool)
    ensures Traffic(log + ((if requested then [Permission] else []) + (if idle then [WentIdle] else []))) ==
            if requested then Toggle(Traffic(log), Permission) else Traffic(log)
  {
    var p, i := if requested then [Permission] else [], if idle then [WentIdle] else [];
    assert log + (p + i) == log + p + i;
    TrafficAppend(log + p, i);
    if requested {
      TrafficSnoc(log, Permission);
    } else {
      assert log + p == log;
    }
  }

  lemma TickKeeps(v: View, now: nat)
    requires Good(v) && InTurn(v) && !v.suppress
    ensures Good(TickStep(v, now)) && InTurn(TickStep(v, now)) && !TickStep(v, now).suppress
  {
    if v.agent.Some? {
      var a := v.agent.value;
      TickConsistent(a, now);
      TickTraffic(v.emitted, Elapsed(a.permissionTimer, PERMISSION_DELAY, now) && NonExemptActive(a),
                  Elapsed(a.idleTimer, IDLE_DELAY, now));
    }
  }

  /** The initial scan emits nothing at all, although new data ignores the suppression flag. */
  lemma {:induction false} ScanIsSilent(scan: seq<seq<Line>>)
    ensures Scan(scan).emitted == [] && Scan(scan).suppress
    ensures Calm(Scan(scan)) && Good(Scan(scan)) && InTurn(Scan(scan))
  {
    if scan != [] {
      ScanIsSilent(scan[..|scan| - 1]);
      BatchKeeps(Scan(scan[..|scan| - 1]), scan[|scan| - 1]);
    }
  }

  /** After every session: tables consistent, no request beside a running timer, and permission traffic that
      alternates strictly, starting with a request and in step with the agent's own flag. */
  lemma {:induction false} SessionInvariant(scan: seq<seq<Line>>, steps: seq<Step>)
    ensures var v := Session(scan, steps); Good(v) && InTurn(v) && !v.suppress
  {
    if steps == [] {
      ScanIsSilent(scan);
      var v := Scan(scan);
      if v.agent.Some? {
        TrafficSnoc(v.emitted, Discovered);
      } else {
        assert v.emitted + [] == v.emitted;
      }
    } else {
      var front := steps[..|steps| - 1];
      SessionInvariant(scan, front);
      match steps[|steps| - 1]
      case Batch(lines) => BatchKeeps(Session(scan, front), lines);
      case TimerTick(now) => TickKeeps(Session(scan, front), now);
    }
  }

  // ----- alternation, read off the log -----

  /** Requests and withdrawals alternate strictly, a request first. */
  ghost predicate Alternates(log: seq<Signal>) {
    && (forall i | 0 <= i < |log| && log[i] == PermissionClear ::
          exists j :: 0 <= j < i && log[j] == Permission && NoToggle(log[j + 1..i]))
    && (forall i, j | 0 <= i < j < |log| && log[i] == log[j] == Permission ::
          PermissionClear in log[i + 1..j])
  }

  /** A turnstile left open by a log was opened by its last permission signal; left closed, the last is a withdrawal. */
  lemma {:induction false} LastToggle(log: seq<Signal>) returns (j: int)
    requires !Traffic(log).Broken?
    ensures -1 <= j < |log| && NoToggle(log[j + 1..])
    ensures Traffic(log).Open? ==> j >= 0 && log[j] == Permission
    ensures Traffic(log).Closed? ==> j == -1 || log[j] == PermissionClear
  {
    if log == [] {
      j := -1;
    } else {
      var front, last := log[..|log| - 1], log[|log| - 1];
      if last == Permission || last == PermissionClear {
        j := |log| - 1;
      } else {
        j := LastToggle(front);
        assert log[j + 1..] == front[j + 1..] + [last];
      }
    }
  }

  lemma {:induction false} PrefixUnbroken(log: seq<Signal>, n: nat)
    requires n <= |log| && !Traffic(log).Broken?
    ensures !Traffic(log[..n]).Broken?
    decreases |log|
  {
    if n < |log| {
      PrefixUnbroken(log[..|log| - 1], n);
      assert log[..|log| - 1][..n] == log[..n];
    } else {
      assert log[..n] == log;
    }
  }

  /** The turnstile just before position `i`, and how it moves there. */
  lemma StepAt(log: seq<Signal>, i: nat)
    requires i < |log| && !Traffic(log).Broken?
    ensures !Traffic(log[..i]).Broken? && !Toggle(Traffic(log[..i]), log[i]).Broken?
  {
    PrefixUnbroken(log, i);
    PrefixUnbroken(log, i + 1);
    assert log[..i + 1] == log[..i] + [log[i]];
    TrafficSnoc(log[..i], log[i]);
  }

  lemma WithdrawalAnswersRequest(log: seq<Signal>, i: nat) returns (j: nat)
    requires !Traffic(log).Broken? && i < |log| && log[i] == PermissionClear
    ensures j < i && log[j] == Permission && NoToggle(log[j + 1..i])
  {
    StepAt(log, i);
    var before := log[..i];
    assert Traffic(before).Open?;
    j := LastToggle(before);
    assert before[j + 1..] == log[j + 1..i] && log[j] == before[j];
  }

  lemma WithdrawnBetween(log: seq<Signal>, i: nat, j: nat)
    requires !Traffic(log).Broken? && i < j < |log| && log[i] == log[j] == Permission
    ensures PermissionClear in log[i + 1..j]
  {
    StepAt(log, j);
    var k := LastToggle(log[..j]);
    assert forall m | k < m < j :: log[m] == log[..j][k + 1..][m - k - 1];
    assert log[i + 1..j][k - i - 1] == log[k];
  }

  lemma UnbrokenAlternates(log: seq<Signal>)
    requires !Traffic(log).Broken?
    ensures Alternates(log)
  {
    forall i | 0 <= i < |log| && log[i] == PermissionClear
      ensures exists j :: 0 <= j < i && log[j] == Permission && NoToggle(log[j + 1..i])
    {
      var j := WithdrawalAnswersRequest(log, i);
    }
    forall i, j | 0 <= i < j < |log| && log[i] == log[j] == Permission ensures PermissionClear in log[i + 1..j] {
      WithdrawnBetween(log, i, j);
    }
  }

  /** Permission traffic of every session alternates strictly, starting with a request. */
  lemma PermissionsAlternate(scan: seq<seq<Line>>, steps: seq<Step>)
    ensures Alternates(Session(scan, steps).emitted)
  {
    SessionInvariant(scan, steps);
    UnbrokenAlternates(Session(scan, steps).emitted);
  }
}
