/** When a text-idle timer can run while a tool is active. The flag that should prevent it is sampled once per
    batch, so it does not see a tool started earlier in the same batch. */
module IdleHints {
  import opened Basics
  import opened TranscriptParser
  import opened AgentMachine
  import opened AgentInvariants
  import opened Tracking
  import opened Simulation

  /** A line as the parser produces them: idle hints come only from text-only lines. */
  predicate Parsed(line: Line) {
    line.Events? ==> TextIdle !in line.events
  }

  predicate AllParsed(lines: seq<Line>) {
    forall i | 0 <= i < |lines| :: Parsed(lines[i])
  }

  /** Events that switch the idle timer off. */
  predicate Resets(e: AgentEvent) {
    e.Active? || e.ToolStart? || e.TurnEnd?
  }

  predicate NoReset(es: seq<AgentEvent>) {
    forall i | 0 <= i < |es| :: !Resets(es[i])
  }

  predicate Neutral(line: Line) {
    line.Events? ==> NoReset(line.events)
  }

  /** A text-only line after which nothing switches the timer off again. */
  ghost predicate Pending(lines: seq<Line>) {
    exists i :: 0 <= i < |lines| && lines[i].TextOnly? && forall k | i < k < |lines| :: Neutral(lines[k])
  }

  /** The time of the last such line: when the timer that a batch leaves running was started. */
  function Hint(lines: seq<Line>): Option<nat> {
    if lines == [] then None
    else
      var last := lines[|lines| - 1];
      if last.TextOnly? then Some(last.at) else if Neutral(last) then Hint(lines[..|lines| - 1]) else None
  }

  lemma {:induction false} HintIff(lines: seq<Line>)
    ensures Hint(lines).Some? <==> Pending(lines)
  {
    if lines != [] {
      var front, last := lines[..|lines| - 1], lines[|lines| - 1];
      HintIff(front);
      PendingSnoc(front, last);
      assert lines == front + [last];
    }
  }

  function IdleOf(v: View): Option<nat> {
    if v.agent.Some? then v.agent.value.idleTimer else None
  }

  predicate IdleRuns(v: View) {
    IdleOf(v).Some?
  }

  lemma ToolsKeepTimer(a: Agent, id: string, name: string, sub: bool, parent: Option<string>)
    ensures StartTool(a, id, name, sub, parent).idleTimer == a.idleTimer
    ensures FinishTool(a, id, sub, parent).idleTimer == a.idleTimer
  {
  }

  lemma ApplyIdle(a: Agent, e: AgentEvent, now: nat)
    requires !e.TextIdle?
    ensures Apply(a, e, now).idleTimer == if Resets(e) then None else a.idleTimer
  {
    match e
    case ToolStart(id, name, sub, parent) =>
      ToolsKeepTimer(a.(lastActivity := now, waiting := false, idleTimer := None), id, name, sub, parent);
    case ToolDone(id, sub, parent) => ToolsKeepTimer(a.(lastActivity := now), id, "", sub, parent);
    case _ =>
  }

  lemma EventIdle(v: View, e: AgentEvent, now: nat)
    requires !e.TextIdle?
    ensures IdleOf(Feed(v, e, now)) == if Resets(e) then None else IdleOf(v)
  {
    ApplyIdle(if v.agent.Some? then v.agent.value else NewAgent(now), e, now);
  }

  lemma {:induction false} EventsIdle(v: View, es: seq<AgentEvent>, now: nat)
    requires TextIdle !in es
    ensures IdleOf(FeedAll(v, es, now)) == if NoReset(es) then IdleOf(v) else None
  {
    if es != [] {
      var front, last := es[..|es| - 1], es[|es| - 1];
      EventsIdle(v, front, now);
      assert last in es;
      EventIdle(FeedAll(v, front, now), last, now);
      NoResetSnoc(es);
    }
  }

  lemma NoResetSnoc(es: seq<AgentEvent>)
    requires es != []
    ensures NoReset(es) <==> NoReset(es[..|es| - 1]) && !Resets(es[|es| - 1])
  {
    assert forall i | 0 <= i < |es| - 1 :: es[..|es| - 1][i] == es[i];
  }

  lemma LineIdle(v: View, line: Line, had: bool)
    requires Parsed(line)
    ensures IdleOf(FeedLine(v, line, had)) ==
            if line.TextOnly? && !had then Some(line.at) else if Neutral(line) then IdleOf(v) else None
  {
    var u := Ensure(v, line.at);
    match line
    case Events(es, _) => EventsIdle(u, es, line.at);
    case TextOnly(_) =>
      if !had {
        assert FeedAll(u, [TextIdle], line.at) == Feed(FeedAll(u, [], line.at), TextIdle, line.at);
      }
  }

  lemma {:induction false} LinesIdle(v: View, lines: seq<Line>, had: bool)
    requires AllParsed(lines) && !IdleRuns(v)
    ensures IdleOf(FeedLines(v, lines, had)) == if had then None else Hint(lines)
  {
    if lines != [] {
      var front, n := lines[..|lines| - 1], |lines| - 1;
      LinesIdle(v, front, had);
      LineIdle(FeedLines(v, front, had), lines[n], had);
    }
  }

  lemma PendingSnoc(front: seq<Line>, last: Line)
    ensures Pending(front + [last]) <==> last.TextOnly? || (Pending(front) && Neutral(last))
  {
    var lines := front + [last];
    if last.TextOnly? {
      assert lines[|front|].TextOnly?;
    }
    if Pending(front) && Neutral(last) {
      var i :| 0 <= i < |front| && front[i].TextOnly? && forall k | i < k < |front| :: Neutral(front[k]);
      assert lines[i].TextOnly? && forall k | i < k < |lines| :: Neutral(lines[k]);
    }
    if Pending(lines) && !last.TextOnly? {
      var i :| 0 <= i < |lines| && lines[i].TextOnly? && forall k | i < k < |lines| :: Neutral(lines[k]);
      assert front[i].TextOnly? && forall k | i < k < |front| :: Neutral(front[k]) by {
        assert forall k | i < k < |front| :: front[k] == lines[k];
      }
      assert Neutral(lines[|front|]);
    }
  }

  /** A tool not open before is open after exactly if the new events open it. */
  lemma OpenedByBatch(es: seq<AgentEvent>, more: seq<AgentEvent>, id: string)
    requires !TopOpen(es, id)
    ensures TopOpen(es + more, id) <==> TopOpen(more, id)
  {
    var all := es + more;
    if i: nat :| TopOpenAt(more, id, i) {
      assert TopOpenAt(all, id, |es| + i) by {
        forall k | |es| + i < k < |all| ensures !IsTopDone(all[k], id) && !all[k].TurnEnd? {
          assert all[k] == more[k - |es|];
        }
      }
    }
    if i: nat :| TopOpenAt(all, id, i) {
      if i < |es| {
        assert TopOpenAt(es, id, i) by {
          forall k | i < k < |es| ensures !IsTopDone(es[k], id) && !es[k].TurnEnd? {
            assert all[k] == es[k];
          }
        }
      } else {
        assert TopOpenAt(more, id, i - |es|) by {
          forall k | i - |es| < k < |more| ensures !IsTopDone(more[k], id) && !more[k].TurnEnd? {
            assert more[k] == all[k + |es|];
          }
        }
      }
    }
  }

  ghost predicate OpensTool(es: seq<AgentEvent>) {
    exists id :: TopOpen(es, id)
  }

  ghost predicate IdleWhileBusy(v: View) {
    IdleRuns(v) && v.agent.value.active != {}
  }

  /** After a non-empty batch the idle timer runs beside an active tool exactly if no tool was active before, the
      batch has a text-only line that nothing follows up, and the batch itself leaves a tool open. */
  lemma BusyIdleIff(v: View, es: seq<AgentEvent>, lines: seq<Line>)
    requires Good(v) && Follows(v, es) && lines != [] && AllParsed(lines)
    ensures IdleWhileBusy(BatchStep(v, lines)) <==>
            !HadTools(v) && Pending(lines) && OpensTool(EventList(lines))
  {
    LinesIdle(Receive(v, lines[0].at), lines, HadTools(v));
    HintIff(lines);
    BatchFollows(v, es, lines);
    if IdleRuns(BatchStep(v, lines)) {
      var more := EventList(lines);
      assert Fold(es).active == {};
      forall id ensures id in Fold(es + more).active <==> TopOpen(more, id) {
        ActiveIffOpen(es, id);
        ActiveIffOpen(es + more, id);
        OpenedByBatch(es, more, id);
      }
      assert BatchStep(v, lines).agent.value.active == Fold(es + more).active;
    }
  }

  // ----- the same over whole sessions -----

  predicate BringsData(s: Step) {
    s.Batch? && s.lines != []
  }

  /** Ticks, and reads that deliver nothing. */
  predicate Silent(steps: seq<Step>) {
    forall i | 0 <= i < |steps| :: !BringsData(steps[i])
  }

  /** A tick comes so late that a timer started at `t` goes off. */
  predicate Reached(t: nat, steps: seq<Step>) {
    exists i :: 0 <= i < |steps| && steps[i].TimerTick? && steps[i].now >= t + 5000
  }

  predicate Busy(v: View) {
    v.agent.Some? && v.agent.value.active != {}
  }

  /** What the timer is after silent steps. */
  function Faded(t: Option<nat>, steps: seq<Step>): Option<nat> {
    if t.Some? && Reached(t.value, steps) then None else t
  }

  lemma SilentStep(v: View, s: Step)
    requires !BringsData(s)
    ensures Busy(LiveStep(v, s)) == Busy(v)
    ensures IdleOf(LiveStep(v, s)) == Faded(IdleOf(v), [s])
  {
    assert [s][0] == s;
  }

  lemma ReachedSnoc(t: nat, front: seq<Step>, s: Step)
    ensures Reached(t, front + [s]) <==> Reached(t, front) || Reached(t, [s])
  {
    var all := front + [s];
    if i :| 0 <= i < |front| && front[i].TimerTick? && front[i].now >= t + 5000 {
      assert all[i] == front[i];
    }
    if Reached(t, [s]) {
      assert all[|front|] == s;
    }
    if i :| 0 <= i < |all| && all[i].TimerTick? && all[i].now >= t + 5000 {
      assert i < |front| ==> front[i] == all[i];
      assert [s][0] == s;
    }
  }

  lemma FadedSnoc(t: Option<nat>, steps: seq<Step>, n: nat)
    requires |steps| == n + 1
    ensures Faded(t, steps) == Faded(Faded(t, steps[..n]), [steps[n]])
  {
    assert steps == steps[..n] + [steps[n]];
    if t.Some? {
      ReachedSnoc(t.value, steps[..n], steps[n]);
    }
  }

  lemma SilentSnoc(scan: seq<seq<Line>>, front: seq<Step>, s: Step)
    requires !BringsData(s)
    ensures Busy(Session(scan, front + [s])) == Busy(Session(scan, front))
    ensures IdleOf(Session(scan, front + [s])) == Faded(IdleOf(Session(scan, front)), [s])
  {
    assert (front + [s])[..|front|] == front;
    SilentStep(Session(scan, front), s);
  }

  lemma FadedOn(first: Option<nat>, steps: seq<Step>, n: nat, mid: Option<nat>, last: Option<nat>)
    requires |steps| == n + 1 && mid == Faded(first, steps[..n]) && last == Faded(mid, [steps[n]])
    ensures last == Faded(first, steps)
  {
    FadedSnoc(first, steps, n);
  }

  /** Without data the timer runs on until a tick sets it off, and the tools stay as they are. */
  lemma {:induction false} SilenceKeeps(scan: seq<seq<Line>>, front: seq<Step>, later: seq<Step>)
    requires Silent(later)
    ensures Busy(Session(scan, front + later)) == Busy(Session(scan, front))
    ensures IdleOf(Session(scan, front + later)) == Faded(IdleOf(Session(scan, front)), later)
  {
    if later == [] {
      assert front + later == front;
    } else {
      var n := |later| - 1;
      var mid := front + later[..n];
      SilenceKeeps(scan, front, later[..n]);
      SilentSnoc(scan, mid, later[n]);
      FadedOn(IdleOf(Session(scan, front)), later, n, IdleOf(Session(scan, mid)),
              IdleOf(Session(scan, mid + [later[n]])));
      SnocAssoc(front, later);
    }
  }

  /** The batch leaves the timer running beside a tool, when `es` are the events before it. */
  ghost predicate Misleads(es: seq<AgentEvent>, lines: seq<Line>) {
    !OpensTool(es) && Hint(lines).Some? && OpensTool(EventList(lines))
  }

  lemma BatchMisleads(v: View, es: seq<AgentEvent>, lines: seq<Line>)
    requires Good(v) && Follows(v, es) && lines != [] && AllParsed(lines)
    ensures IdleWhileBusy(BatchStep(v, lines)) <==> Misleads(es, lines)
    ensures IdleRuns(BatchStep(v, lines)) ==> IdleOf(BatchStep(v, lines)) == Hint(lines)
  {
    BusyIdleIff(v, es, lines);
    HintIff(lines);
    LinesIdle(Receive(v, lines[0].at), lines, HadTools(v));
    ActiveIffOpens(es);
  }

  lemma ActiveIffOpens(es: seq<AgentEvent>)
    ensures Fold(es).active != {} <==> OpensTool(es)
  {
    forall id ensures id in Fold(es).active <==> TopOpen(es, id) {
      ActiveIffOpen(es, id);
    }
    if Fold(es).active != {} {
      var id :| id in Fold(es).active;
      assert TopOpen(es, id);
    }
  }

  /** In every session whose last data came after the scan: the idle timer runs beside an active tool exactly if that
      last batch misleads and no tick since has come 5000 ms after its hint. */
  lemma BusyIdleLiveIff(scan: seq<seq<Line>>, front: seq<Step>, lines: seq<Line>, later: seq<Step>)
    requires lines != [] && AllParsed(lines) && Silent(later)
    ensures IdleWhileBusy(Session(scan, front + [Batch(lines)] + later)) <==>
            Misleads(SessionEvents(scan, front), lines) && !Reached(Hint(lines).value, later)
  {
    var steps := front + [Batch(lines)];
    assert steps[..|front|] == front;
    SessionInvariant(scan, front);
    TrackingIsTranscriptFold(scan, front);
    BatchMisleads(Session(scan, front), SessionEvents(scan, front), lines);
    SilenceKeeps(scan, steps, later);
  }

  predicate AllEmpty(batches: seq<seq<Line>>) {
    forall i | 0 <= i < |batches| :: batches[i] == []
  }

  lemma {:induction false} EmptyScans(scan: seq<seq<Line>>, rest: seq<seq<Line>>)
    requires AllEmpty(rest)
    ensures Scan(scan + rest) == Scan(scan)
  {
    if rest == [] {
      assert scan + rest == scan;
    } else {
      var n := |rest| - 1;
      EmptyScans(scan, rest[..n]);
      var all := scan + rest;
      assert all[..|all| - 1] == scan + rest[..n] && all[|all| - 1] == rest[n];
    }
  }

  /** The same when the last data came during the scan. */
  lemma BusyIdleScanIff(scan: seq<seq<Line>>, lines: seq<Line>, rest: seq<seq<Line>>, later: seq<Step>)
    requires lines != [] && AllParsed(lines) && AllEmpty(rest) && Silent(later)
    ensures IdleWhileBusy(Session(scan + [lines] + rest, later)) <==>
            Misleads(EventList(Concat(scan)), lines) && !Reached(Hint(lines).value, later)
  {
    var all := scan + [lines];
    assert all[..|scan|] == scan;
    ScanIsSilent(scan);
    ScanFollows(scan);
    BatchMisleads(Scan(scan), EventList(Concat(scan)), lines);
    EmptyScans(all, rest);
    SilenceKeeps(all + rest, [], later);
    assert [] + later == later;
  }

  /** And without any data it never does. */
  lemma NoDataNeverIdle(scan: seq<seq<Line>>, steps: seq<Step>)
    requires AllEmpty(scan) && Silent(steps)
    ensures !IdleWhileBusy(Session(scan, steps))
  {
    EmptyScans([], scan);
    assert [] + scan == scan && [] + steps == steps;
    SilenceKeeps(scan, [], steps);
  }

  /** Every list of steps ends with silence after its last data, if it has any. */
  lemma LastData(steps: seq<Step>) returns (j: int)
    ensures -1 <= j < |steps| && Silent(steps[j + 1..]) && (j >= 0 ==> BringsData(steps[j]))
  {
    j := |steps| - 1;
    while j >= 0 && !BringsData(steps[j])
      invariant -1 <= j < |steps| && forall i | j < i < |steps| :: !BringsData(steps[i])
    {
      j := j - 1;
    }
  }

  lemma NothingOpen(id: string)
    ensures !TopOpen([], id)
  {
  }

  /** A batch of one line never leaves the timer running beside an active tool. */
  lemma OneLineBatch(v: View, es: seq<AgentEvent>, line: Line)
    requires Good(v) && Follows(v, es) && Parsed(line)
    ensures !IdleWhileBusy(BatchStep(v, [line]))
  {
    BusyIdleIff(v, es, [line]);
    if line.TextOnly? {
      assert EventList([line]) == EventList([line][..0]) + [] == [];
      forall id ensures !TopOpen(EventList([line]), id) {
        NothingOpen(id);
      }
    }
  }

  predicate SmallBatch(lines: seq<Line>) {
    |lines| <= 1 && AllParsed(lines)
  }

  lemma {:induction false} SmallScan(scan: seq<seq<Line>>)
    requires forall i | 0 <= i < |scan| :: SmallBatch(scan[i])
    ensures !IdleWhileBusy(Scan(scan))
  {
    if scan != [] {
      var front, last := scan[..|scan| - 1], scan[|scan| - 1];
      SmallScan(front);
      if last != [] {
        ScanIsSilent(front);
        ScanFollows(front);
        assert last == [last[0]];
        OneLineBatch(Scan(front), EventList(Concat(front)), last[0]);
      }
    }
  }

  /** If every read delivers at most one line, a running idle timer means that no top-level tool is active. */
  lemma {:induction false} OneLineReadsNeverIdleBusy(scan: seq<seq<Line>>, steps: seq<Step>)
    requires forall i | 0 <= i < |scan| :: SmallBatch(scan[i])
    requires forall i | 0 <= i < |steps| && steps[i].Batch? :: SmallBatch(steps[i].lines)
    ensures !IdleWhileBusy(Session(scan, steps))
  {
    if steps == [] {
      SmallScan(scan);
    } else {
      var front, last := steps[..|steps| - 1], steps[|steps| - 1];
      OneLineReadsNeverIdleBusy(scan, front);
      if last.Batch? && last.lines != [] {
        SessionInvariant(scan, front);
        TrackingIsTranscriptFold(scan, front);
        assert last.lines == [last.lines[0]];
        OneLineBatch(Session(scan, front), SessionEvents(scan, front), last.lines[0]);
      }
    }
  }

  /** With two lines in one read it does happen: a tool starts, a text line follows, and five seconds later the
      agent is reported idle while the tool is still active. */
  lemma TwoLineReadIdlesBusyAgent()
    ensures var lines := [Events([Active, ToolStart("t", "Read", false, None)], 0), TextOnly(0)];
            var v := Session([], [Batch(lines)]);
            && IdleWhileBusy(v)
            && WentIdle in TickSignals(v.agent.value, 5000)
            && "t" in v.agent.value.active
  {
    var lines := [Events([Active, ToolStart("t", "Read", false, None)], 0), TextOnly(0)];
    var v0 := Session([], []);
    assert v0 == View(None, false, []);
    var steps := [Batch(lines)];
    assert steps[..0] == [];
    assert Session([], steps) == BatchStep(v0, lines);
    assert lines[..1] == [lines[0]] && [lines[0]][..0] == [];
    var es := lines[0].events;
    assert es[..1] == [Active] && [Active][..0] == [];
    var u := Ensure(v0, 0);
    assert FeedAll(u, es, 0) == Feed(Feed(u, Active, 0), es[1], 0);
    assert FeedLines(v0, lines[..1], false) == FeedAll(u, es, 0);
    var w := FeedAll(u, es, 0);
    assert [TextIdle][..0] == [];
    assert FeedLines(v0, lines, false) == Feed(w, TextIdle, 0);
  }
}
