/** The frontend's set of active tools against the backend's tracking. */
module Simulation {
  import opened Basics
  import opened TranscriptParser
  import opened AgentMachine
  import opened AgentInvariants
  import opened Tracking

  // ----- the frontend, for one agent -----

  /** The active-tool set the frontend keeps for an agent, from the signals it received. */
  function Shown(log: seq<Signal>): set<string> {
    if log == [] then {} else Show(Shown(log[..|log| - 1]), log[|log| - 1])
  }

  function Show(tools: set<string>, s: Signal): set<string> {
    match s
    case ToolStarted(id, _, _, _) => tools + {id}
    case ToolFinished(id, _, _) => tools - {id}
    case TurnEnded => {}
    case _ => tools
  }

  /** The same set computed from the events that caused the signals. */
  function FrontFold(es: seq<AgentEvent>): set<string> {
    if es == [] then {} else FrontStep(FrontFold(es[..|es| - 1]), es[|es| - 1])
  }

  function FrontStep(tools: set<string>, e: AgentEvent): set<string> {
    match e
    case ToolStart(id, _, _, _) => tools + {id}
    case ToolDone(id, _, _) => tools - {id}
    case TurnEnd => {}
    case _ => tools
  }

  lemma ShownSnoc(log: seq<Signal>, s: Signal)
    ensures Shown(log + [s]) == Show(Shown(log), s)
  {
    assert (log + [s])[..|log|] == log;
  }

  lemma FrontFoldSnoc(es: seq<AgentEvent>, e: AgentEvent)
    ensures FrontFold(es + [e]) == FrontStep(FrontFold(es), e)
  {
    assert (es + [e])[..|es|] == es;
  }

  predicate Shows(v: View, es: seq<AgentEvent>) {
    !v.suppress && Shown(v.emitted) == FrontFold(es)
  }

  /** Signals that do not touch the tool set. */
  predicate Inert(s: seq<Signal>) {
    forall x | x in s :: !x.ToolStarted? && !x.ToolFinished? && !x.TurnEnded?
  }

  lemma {:induction false} ShownInert(log: seq<Signal>, s: seq<Signal>)
    requires Inert(s)
    ensures Shown(log + s) == Shown(log)
  {
    if s == [] {
      assert log + s == log;
    } else {
      var front, last := s[..|s| - 1], s[|s| - 1];
      ShownInert(log, front);
      ShownSnoc(log + front, last);
      assert log + s == log + front + [last];
      assert last in s;
    }
  }

  lemma SignalsShow(log: seq<Signal>, a: Agent, e: AgentEvent)
    ensures Shown(log + Signals(a, e)) == FrontStep(Shown(log), e)
  {
    match e
    case ToolStart(id, name, sub, parent) => ShownSnoc(log, ToolStarted(id, name, sub, parent));
    case ToolDone(id, sub, parent) => ShownSnoc(log, ToolFinished(id, sub, parent));
    case TurnEnd => ShownSnoc(log, TurnEnded);
    case Active => ShownInert(log, Signals(a, e));
    case TextIdle => ShownInert(log, []);
  }

  lemma FeedShows(v: View, es: seq<AgentEvent>, e: AgentEvent, now: nat)
    requires Shows(v, es)
    ensures Shows(Feed(v, e, now), es + [e])
  {
    FrontFoldSnoc(es, e);
    SignalsShow(v.emitted, if v.agent.Some? then v.agent.value else NewAgent(now), e);
  }

  lemma {:induction false} FeedAllShows(v: View, es: seq<AgentEvent>, more: seq<AgentEvent>, now: nat)
    requires Shows(v, es)
    ensures Shows(FeedAll(v, more, now), es + more)
  {
    if more == [] {
      assert es + more == es;
    } else {
      var front, last := more[..|more| - 1], more[|more| - 1];
      FeedAllShows(v, es, front, now);
      FeedShows(FeedAll(v, front, now), es + front, last, now);
      assert es + front + [last] == es + more;
    }
  }

  lemma LineShows(v: View, es: seq<AgentEvent>, line: Line, had: bool)
    requires Shows(v, es)
    ensures Shows(FeedLine(v, line, had), es + LineEvents(line, true))
  {
    var u := Ensure(v, line.at);
    if line.Events? || had {
      FeedAllShows(u, es, LineEvents(line, true), line.at);
    } else {
      assert FeedAll(u, [TextIdle], line.at) == Feed(FeedAll(u, [], line.at), TextIdle, line.at);
      FeedShows(u, es, TextIdle, line.at);
      FrontFoldSnoc(es, TextIdle);
      assert es + [] == es;
    }
  }

  lemma {:induction false} LinesShow(v: View, es: seq<AgentEvent>, lines: seq<Line>, had: bool)
    requires Shows(v, es)
    ensures Shows(FeedLines(v, lines, had), es + EventList(lines))
  {
    if lines == [] {
      assert es + EventList(lines) == es;
    } else {
      var front, last := lines[..|lines| - 1], lines[|lines| - 1];
      LinesShow(v, es, front, had);
      LineShows(FeedLines(v, front, had), es + EventList(front), last, had);
      EventListSnoc(es, lines);
    }
  }

  lemma BatchShows(v: View, es: seq<AgentEvent>, lines: seq<Line>)
    requires Shows(v, es)
    ensures Shows(BatchStep(v, lines), es + EventList(lines))
  {
    if lines == [] {
      assert es + EventList(lines) == es;
    } else {
      ShownInert(v.emitted, [PermissionClear]);
      ShownInert(v.emitted, []);
      LinesShow(Receive(v, lines[0].at), es, lines, HadTools(v));
    }
  }

  lemma TickShows(v: View, es: seq<AgentEvent>, now: nat)
    requires Shows(v, es)
    ensures Shows(TickStep(v, now), es)
  {
    if v.agent.Some? {
      ShownInert(v.emitted, TickSignals(v.agent.value, now));
    }
  }

  /** What the frontend shows is the fold of the events delivered after the scan. */
  lemma {:induction false} ShownIsFold(scan: seq<seq<Line>>, steps: seq<Step>)
    ensures Shows(Session(scan, steps), EventList(Delivered(steps)))
  {
    if steps == [] {
      ScanIsSilent(scan);
      ShownInert([], [Discovered]);
      assert [] + [Discovered] == [Discovered];
    } else {
      var front, last := steps[..|steps| - 1], steps[|steps| - 1];
      ShownIsFold(scan, front);
      DeliveredSnoc(steps);
      match last
      case Batch(lines) => BatchShows(Session(scan, front), EventList(Delivered(front)), lines);
      case TimerTick(now) =>
        TickShows(Session(scan, front), EventList(Delivered(front)), now);
        assert EventList(Delivered(front)) + [] == EventList(Delivered(front));
    }
  }

  // ----- open tools, read off the history -----

  predicate IsTopStart(e: AgentEvent, id: string) {
    e.ToolStart? && !e.sub && e.id == id
  }

  predicate IsTopDone(e: AgentEvent, id: string) {
    e.ToolDone? && !e.sub && e.id == id
  }

  predicate IsSubStart(e: AgentEvent, p: string, id: string) {
    e.ToolStart? && e.sub && e.parent == Some(p) && e.id == id
  }

  predicate IsSubDone(e: AgentEvent, p: string, id: string) {
    e.ToolDone? && e.sub && e.parent == Some(p) && e.id == id
  }

  /** At `k` the tracked Task `p` finishes, which drops its sub-agent tools. */
  predicate TaskDone(es: seq<AgentEvent>, k: nat, p: string)
    requires k < |es|
  {
    IsTopDone(es[k], p) && p in Fold(es[..k]).names && Fold(es[..k]).names[p] == "Task"
  }

  /** A top-level tool started at `i` and neither it nor the turn has ended since. */
  ghost predicate TopOpenAt(es: seq<AgentEvent>, id: string, i: nat) {
    && i < |es| && IsTopStart(es[i], id)
    && forall k | i < k < |es| :: !IsTopDone(es[k], id) && !es[k].TurnEnd?
  }

  ghost predicate SubOpenAt(es: seq<AgentEvent>, p: string, id: string, i: nat) {
    && i < |es| && IsSubStart(es[i], p, id)
    && forall k | i < k < |es| :: !IsSubDone(es[k], p, id) && !es[k].TurnEnd? && !TaskDone(es, k, p)
  }

  /** Started at `i`, at any level, and no finish of that id at any level since. */
  ghost predicate ShownAt(es: seq<AgentEvent>, id: string, i: nat) {
    && i < |es| && es[i].ToolStart? && es[i].id == id
    && forall k | i < k < |es| :: !(es[k].ToolDone? && es[k].id == id) && !es[k].TurnEnd?
  }

  lemma ActiveStep(a: Agent, e: AgentEvent, id: string)
    ensures id in Apply(a, e, 0).active <==>
            IsTopStart(e, id) || (id in a.active && !IsTopDone(e, id) && !e.TurnEnd?)
  {
  }

  ghost predicate TopOpen(es: seq<AgentEvent>, id: string) {
    exists i: nat :: TopOpenAt(es, id, i)
  }

  lemma TopOpenSnoc(es: seq<AgentEvent>, e: AgentEvent, id: string)
    ensures TopOpen(es + [e], id) <==> IsTopStart(e, id) || (TopOpen(es, id) && !IsTopDone(e, id) && !e.TurnEnd?)
  {
    var es' := es + [e];
    if i: nat :| TopOpenAt(es', id, i) && i < |es| {
      assert TopOpenAt(es, id, i) by {
        assert es[i] == es'[i];
        forall k | i < k < |es| ensures !IsTopDone(es[k], id) && !es[k].TurnEnd? { assert es[k] == es'[k]; }
      }
      assert es'[|es|] == e;
    }
    if i: nat :| TopOpenAt(es, id, i) && !IsTopDone(e, id) && !e.TurnEnd? {
      assert TopOpenAt(es', id, i);
    }
    if IsTopStart(e, id) {
      assert TopOpenAt(es', id, |es|);
    }
  }

  /** The backend's active ids are exactly the tools open in the history. */
  lemma {:induction false} ActiveIffOpen(es: seq<AgentEvent>, id: string)
    ensures id in Fold(es).active <==> TopOpen(es, id)
  {
    if es != [] {
      var front, last := es[..|es| - 1], es[|es| - 1];
      ActiveIffOpen(front, id);
      ActiveStep(Fold(front), last, id);
      TopOpenSnoc(front, last, id);
      assert es == front + [last];
    }
  }

  ghost predicate IsShown(es: seq<AgentEvent>, id: string) {
    exists i: nat :: ShownAt(es, id, i)
  }

  lemma ShownAtSnoc(es: seq<AgentEvent>, e: AgentEvent, id: string)
    ensures IsShown(es + [e], id) <==>
            (e.ToolStart? && e.id == id) || (IsShown(es, id) && !(e.ToolDone? && e.id == id) && !e.TurnEnd?)
  {
    var es' := es + [e];
    if i: nat :| ShownAt(es', id, i) && i < |es| {
      assert ShownAt(es, id, i) by {
        assert es[i] == es'[i];
        forall k | i < k < |es| ensures !(es[k].ToolDone? && es[k].id == id) && !es[k].TurnEnd? {
          assert es[k] == es'[k];
        }
      }
      assert es'[|es|] == e;
    }
    if i: nat :| ShownAt(es, id, i) && !(e.ToolDone? && e.id == id) && !e.TurnEnd? {
      assert ShownAt(es', id, i);
    }
    if e.ToolStart? && e.id == id {
      assert ShownAt(es', id, |es|);
    }
  }

  /** The frontend's tools are exactly the ids started and not finished in the history. */
  lemma {:induction false} FrontIffShown(es: seq<AgentEvent>, id: string)
    ensures id in FrontFold(es) <==> IsShown(es, id)
  {
    if es != [] {
      var front, last := es[..|es| - 1], es[|es| - 1];
      FrontIffShown(front, id);
      ShownAtSnoc(front, last, id);
      assert es == front + [last];
    }
  }

  ghost predicate SubOpen(es: seq<AgentEvent>, p: string, id: string) {
    exists i: nat :: SubOpenAt(es, p, id, i)
  }

  lemma StartSubStep(a: Agent, x: string, name: string, sub: bool, parent: Option<string>, p: string, id: string)
    ensures id in GetSet(StartTool(a, x, name, sub, parent).subIds, p) <==>
            (sub && parent == Some(p) && x == id) || id in GetSet(a.subIds, p)
  {
  }

  lemma FinishSubStep(a: Agent, x: string, sub: bool, parent: Option<string>, p: string, id: string)
    ensures id in GetSet(FinishTool(a, x, sub, parent).subIds, p) <==>
            && id in GetSet(a.subIds, p)
            && !(sub && parent == Some(p) && x == id)
            && !(!sub && x == p && p in a.names && a.names[p] == "Task")
  {
  }

  lemma SubStep(a: Agent, e: AgentEvent, p: string, id: string)
    ensures id in GetSet(Apply(a, e, 0).subIds, p) <==>
            || IsSubStart(e, p, id)
            || (&& id in GetSet(a.subIds, p) && !IsSubDone(e, p, id) && !e.TurnEnd?
                && !(IsTopDone(e, p) && p in a.names && a.names[p] == "Task"))
  {
    match e
    case ToolStart(x, name, sub, parent) =>
      StartSubStep(a.(lastActivity := 0, waiting := false, idleTimer := None), x, name, sub, parent, p, id);
    case ToolDone(x, sub, parent) => FinishSubStep(a.(lastActivity := 0), x, sub, parent, p, id);
    case _ =>
  }

  lemma SubOpenSnoc(es: seq<AgentEvent>, e: AgentEvent, p: string, id: string)
    ensures SubOpen(es + [e], p, id) <==>
            || IsSubStart(e, p, id)
            || (SubOpen(es, p, id) && !IsSubDone(e, p, id) && !e.TurnEnd? && !TaskDone(es + [e], |es|, p))
  {
    var es' := es + [e];
    assert forall k | 0 <= k < |es| :: es'[..k] == es[..k];
    if i: nat :| SubOpenAt(es', p, id, i) && i < |es| {
      assert SubOpenAt(es, p, id, i) by {
        assert es[i] == es'[i];
        forall k | i < k < |es| ensures !IsSubDone(es[k], p, id) && !es[k].TurnEnd? && !TaskDone(es, k, p) {
          assert es[k] == es'[k] && !TaskDone(es', k, p);
        }
      }
      assert es'[|es|] == e;
    }
    if i: nat :|
      SubOpenAt(es, p, id, i) && !IsSubDone(e, p, id) && !e.TurnEnd? && !TaskDone(es', |es|, p) {
      assert SubOpenAt(es', p, id, i) by {
        forall k | i < k < |es'| ensures !IsSubDone(es'[k], p, id) && !es'[k].TurnEnd? && !TaskDone(es', k, p) {
          if k < |es| {
            assert es'[k] == es[k] && !TaskDone(es, k, p);
          }
        }
      }
    }
    if IsSubStart(e, p, id) {
      assert SubOpenAt(es', p, id, |es|);
    }
  }

  /** The backend's sub-agent tools of `p` are exactly those open in the history. */
  lemma {:induction false} SubIffOpen(es: seq<AgentEvent>, p: string, id: string)
    ensures id in GetSet(Fold(es).subIds, p) <==> SubOpen(es, p, id)
  {
    if es != [] {
      var front, last := es[..|es| - 1], es[|es| - 1];
      SubIffOpen(front, p, id);
      SubStep(Fold(front), last, p, id);
      SubOpenSnoc(front, last, p, id);
      assert es == front + [last];
    }
  }

  // ----- the theorem -----

  /** Every id starts at most once, and finishes only at the level and under the parent it started with. */
  ghost predicate Tidy(es: seq<AgentEvent>) {
    && (forall i, j | 0 <= i < |es| && 0 <= j < |es| && es[i].ToolStart? && es[j].ToolStart? && es[i].id == es[j].id ::
          i == j)
    && (forall i, j | 0 <= i < |es| && 0 <= j < |es| && es[i].ToolStart? && es[j].ToolDone? && es[i].id == es[j].id ::
          es[i].sub == es[j].sub && es[i].parent == es[j].parent)
  }

  /** `id` is a sub-agent tool, started at `i` and never finished, whose Task `p` finished first, at `k`. */
  ghost predicate Orphan(es: seq<AgentEvent>, p: string, id: string, i: nat, k: nat) {
    && i < k < |es| && IsSubStart(es[i], p, id) && TaskDone(es, k, p)
    && forall m | i < m < |es| :: !(es[m].ToolDone? && es[m].id == id) && !es[m].TurnEnd?
  }

  ghost predicate StartedAfter(es: seq<AgentEvent>, n: nat, id: string) {
    exists i :: n <= i < |es| && es[i].ToolStart? && es[i].id == id
  }

  lemma OpenIsShown(es: seq<AgentEvent>, n: nat, id: string)
    requires Tidy(es) && n <= |es| && StartedAfter(es, n, id)
    requires TopOpen(es, id) || exists p :: SubOpen(es, p, id)
    ensures IsShown(es[n..], id)
  {
    var s :| n <= s < |es| && es[s].ToolStart? && es[s].id == id;
    if TopOpen(es, id) {
      var i: nat :| TopOpenAt(es, id, i);
      assert i == s;
    } else {
      var p :| SubOpen(es, p, id);
      var i: nat :| SubOpenAt(es, p, id, i);
      assert i == s;
    }
    assert ShownAt(es[n..], id, s - n) by {
      forall k | s - n < k < |es[n..]| ensures !(es[n..][k].ToolDone? && es[n..][k].id == id) && !es[n..][k].TurnEnd? {
        assert es[n..][k] == es[n + k];
      }
    }
  }

  lemma ShownIsOpen(es: seq<AgentEvent>, n: nat, id: string)
    requires Tidy(es) && n <= |es| && IsShown(es[n..], id)
    requires forall e | e in es :: WellScoped(e)
    ensures StartedAfter(es, n, id)
    ensures || TopOpen(es, id)
            || (exists p :: SubOpen(es, p, id))
            || Orphaned(es, id)
  {
    var i: nat :| ShownAt(es[n..], id, i);
    var s := n + i;
    assert es[s] == es[n..][i] && es[s] in es;
    assert WellScoped(es[s]);
    assert forall k | s < k < |es| :: es[k] == es[n..][k - n];
    if !es[s].sub {
      assert TopOpenAt(es, id, s);
    } else {
      var p := es[s].parent.value;
      if k :| s < k < |es| && TaskDone(es, k, p) {
        assert Orphan(es, p, id, s, k);
      } else {
        assert SubOpenAt(es, p, id, s);
        assert SubOpen(es, p, id);
      }
    }
  }

  ghost predicate Orphaned(es: seq<AgentEvent>, id: string) {
    exists p, i, k :: Orphan(es, p, id, i, k)
  }

  lemma OrphanIsShown(es: seq<AgentEvent>, n: nat, id: string)
    requires Tidy(es) && n <= |es| && StartedAfter(es, n, id) && Orphaned(es, id)
    ensures IsShown(es[n..], id)
  {
    var s :| n <= s < |es| && es[s].ToolStart? && es[s].id == id;
    var p, i, k :| Orphan(es, p, id, i, k);
    assert i == s;
    assert ShownAt(es[n..], id, s - n) by {
      forall m | s - n < m < |es[n..]| ensures !(es[n..][m].ToolDone? && es[n..][m].id == id) && !es[n..][m].TurnEnd? {
        assert es[n..][m] == es[n + m];
      }
    }
  }

  /** Which tools a history leaves on the screen, if nothing was sent for its first `n` events. */
  lemma ShownIff(es: seq<AgentEvent>, n: nat, id: string)
    requires Tidy(es) && n <= |es| && forall e | e in es :: WellScoped(e)
    ensures IsShown(es[n..], id) <==>
            StartedAfter(es, n, id) && (TopOpen(es, id) || (exists p :: SubOpen(es, p, id)) || Orphaned(es, id))
  {
    if IsShown(es[n..], id) {
      ShownIsOpen(es, n, id);
    }
    if StartedAfter(es, n, id) {
      if TopOpen(es, id) || exists p :: SubOpen(es, p, id) {
        OpenIsShown(es, n, id);
      } else if Orphaned(es, id) {
        OrphanIsShown(es, n, id);
      }
    }
  }

  /** `id` is tracked by the backend, at either level. */
  ghost predicate Tracked(a: Agent, id: string) {
    id in a.active || exists p :: id in GetSet(a.subIds, p)
  }

  lemma TrackedIff(es: seq<AgentEvent>, id: string)
    ensures Tracked(Fold(es), id) <==> TopOpen(es, id) || exists p :: SubOpen(es, p, id)
  {
    ActiveIffOpen(es, id);
    forall p ensures id in GetSet(Fold(es).subIds, p) <==> SubOpen(es, p, id) {
      SubIffOpen(es, p, id);
    }
  }

  /** Frontend and backend after any tidy session: the frontend shows exactly the tools started after the scan that the
      backend tracks, and the sub-agent tools whose Task finished first. `n` events were scanned before anything was
      emitted. */
  lemma FrontendSimulatesBackend(scan: seq<seq<Line>>, steps: seq<Step>, id: string)
    requires Session(scan, steps).agent.Some?
    requires Tidy(SessionEvents(scan, steps))
    requires forall e | e in SessionEvents(scan, steps) :: WellScoped(e)
    ensures var es, n := SessionEvents(scan, steps), |EventList(Concat(scan))|;
            id in Shown(Session(scan, steps).emitted) <==>
            StartedAfter(es, n, id) && (Tracked(Session(scan, steps).agent.value, id) || Orphaned(es, id))
  {
    var es, live := SessionEvents(scan, steps), EventList(Delivered(steps));
    var n := |EventList(Concat(scan))|;
    assert es[n..] == live;
    ShownIsFold(scan, steps);
    FrontIffShown(live, id);
    ShownIff(es, n, id);
    TrackedIff(es, id);
    SessionTracks(scan, steps, id);
  }

  lemma SessionTracks(scan: seq<seq<Line>>, steps: seq<Step>, id: string)
    requires Session(scan, steps).agent.Some?
    ensures Tracked(Session(scan, steps).agent.value, id) <==> Tracked(Fold(SessionEvents(scan, steps)), id)
  {
    TrackingIsTranscriptFold(scan, steps);
    var a, b := Session(scan, steps).agent.value, Fold(SessionEvents(scan, steps));
    assert a.active == b.active && a.subIds == b.subIds;
  }

  /** Right after the end of a turn both sides are empty. */
  lemma EmptyAfterTurnEnd(scan: seq<seq<Line>>, steps: seq<Step>)
    requires var es := EventList(Delivered(steps)); es != [] && es[|es| - 1].TurnEnd?
    ensures Session(scan, steps).agent.Some? ==>
              var a := Session(scan, steps).agent.value; a.active == {} && a.subIds == map[]
    ensures Shown(Session(scan, steps).emitted) == {}
  {
    TrackingIsTranscriptFold(scan, steps);
    ShownIsFold(scan, steps);
    var es := SessionEvents(scan, steps);
    assert es[|es| - 1].TurnEnd?;
  }
}
