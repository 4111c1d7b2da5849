/** Tool tracking is a function of the transcript alone: neither batching, nor timer ticks, nor the clock, nor the
    flag sampled once per batch can change it. The reference is a plain fold over the transcript's events. */
module Tracking {
  import opened Basics
  import opened TranscriptParser
  import opened AgentMachine
  import opened AgentInvariants

  predicate SameTracking(a: Agent, b: Agent) {
    && a.active == b.active && a.names == b.names
    && a.subIds == b.subIds && a.subNames == b.subNames
    && a.hadTools == b.hadTools
  }

  /** The reference: all events in order, on a still clock. */
  function Fold(es: seq<AgentEvent>): Agent {
    if es == [] then NewAgent(0) else Apply(Fold(es[..|es| - 1]), es[|es| - 1], 0)
  }

  /** The events of a transcript, idle hints left out. */
  function EventList(lines: seq<Line>): seq<AgentEvent> {
    if lines == [] then [] else EventList(lines[..|lines| - 1]) + LineEvents(lines[|lines| - 1], true)
  }

  function Concat(batches: seq<seq<Line>>): seq<Line> {
    if batches == [] then [] else Concat(batches[..|batches| - 1]) + batches[|batches| - 1]
  }

  /** Lines delivered by the live part of a session. */
  function Delivered(steps: seq<Step>): seq<Line> {
    if steps == [] then []
    else Delivered(steps[..|steps| - 1]) + (if steps[|steps| - 1].Batch? then steps[|steps| - 1].lines else [])
  }

  lemma {:induction false} EventListAppend(a: seq<Line>, b: seq<Line>)
    ensures EventList(a + b) == EventList(a) + EventList(b)
  {
    if b == [] {
      assert a + b == a;
    } else {
      EventListAppend(a, b[..|b| - 1]);
      assert (a + b)[..|a + b| - 1] == a + b[..|b| - 1];
      Assoc(EventList(a), EventList(b[..|b| - 1]), LineEvents(b[|b| - 1], true));
    }
  }

  lemma StartSame(a: Agent, b: Agent, id: string, name: string, sub: bool, parent: Option<string>)
    requires SameTracking(a, b)
    ensures SameTracking(StartTool(a, id, name, sub, parent), StartTool(b, id, name, sub, parent))
  {
  }

  lemma FinishSame(a: Agent, b: Agent, id: string, sub: bool, parent: Option<string>)
    requires SameTracking(a, b)
    ensures SameTracking(FinishTool(a, id, sub, parent), FinishTool(b, id, sub, parent))
  {
  }

  lemma ApplySame(a: Agent, b: Agent, e: AgentEvent, t: nat, u: nat)
    requires SameTracking(a, b)
    ensures SameTracking(Apply(a, e, t), Apply(b, e, u))
  {
    match e
    case ToolStart(id, name, sub, parent) =>
      StartSame(a.(lastActivity := t, waiting := false, idleTimer := None),
                b.(lastActivity := u, waiting := false, idleTimer := None), id, name, sub, parent);
    case ToolDone(id, sub, parent) => FinishSame(a.(lastActivity := t), b.(lastActivity := u), id, sub, parent);
    case _ =>
  }

  /** The view's tracking is the fold of `es`. */
  predicate Follows(v: View, es: seq<AgentEvent>) {
    SameTracking(if v.agent.Some? then v.agent.value else NewAgent(0), Fold(es))
  }

  lemma FeedFollows(v: View, es: seq<AgentEvent>, e: AgentEvent, now: nat)
    requires Follows(v, es)
    ensures Follows(Feed(v, e, now), es + [e])
  {
    assert (es + [e])[..|es|] == es;
    ApplySame(if v.agent.Some? then v.agent.value else NewAgent(now), Fold(es), e, now, 0);
  }

  lemma SnocAssoc<T>(a: seq<T>, b: seq<T>)
    requires b != []
    ensures a + b[..|b| - 1] + [b[|b| - 1]] == a + b
  {
  }

  lemma {:induction false} FeedAllFollows(v: View, es: seq<AgentEvent>, more: seq<AgentEvent>, now: nat)
    requires Follows(v, es)
    ensures Follows(FeedAll(v, more, now), es + more)
  {
    if more == [] {
      assert es + more == es;
    } else {
      var front, last := more[..|more| - 1], more[|more| - 1];
      FeedAllFollows(v, es, front, now);
      var u := FeedAll(v, front, now);
      assert FeedAll(v, more, now) == Feed(u, last, now);
      FeedFollows(u, es + front, last, now);
      SnocAssoc(es, more);
    }
  }

  /** Whatever the sampled flag, a line changes the tracking by its own events. */
  lemma LineFollows(v: View, es: seq<AgentEvent>, line: Line, had: bool)
    requires Follows(v, es)
    ensures Follows(FeedLine(v, line, had), es + LineEvents(line, true))
  {
    var u := Ensure(v, line.at);
    if line.Events? || had {
      FeedAllFollows(u, es, LineEvents(line, true), line.at);
    } else {
      assert FeedAll(u, [TextIdle], line.at) == Feed(FeedAll(u, [], line.at), TextIdle, line.at);
      assert es + [] == es;
    }
  }

  lemma {:induction false} LinesFollow(v: View, es: seq<AgentEvent>, lines: seq<Line>, had: bool)
    requires Follows(v, es)
    ensures Follows(FeedLines(v, lines, had), es + EventList(lines))
  {
    if lines == [] {
      assert es + EventList(lines) == es;
    } else {
      var front, last := lines[..|lines| - 1], lines[|lines| - 1];
      LinesFollow(v, es, front, had);
      LineFollows(FeedLines(v, front, had), es + EventList(front), last, had);
      EventListSnoc(es, lines);
    }
  }

  lemma EventListSnoc(es: seq<AgentEvent>, lines: seq<Line>)
    requires lines != []
    ensures es + EventList(lines) == es + EventList(lines[..|lines| - 1]) + LineEvents(lines[|lines| - 1], true)
  {
    Assoc(es, EventList(lines[..|lines| - 1]), LineEvents(lines[|lines| - 1], true));
  }

  lemma Assoc<T>(a: seq<T>, b: seq<T>, c: seq<T>)
    ensures a + b + c == a + (b + c)
  {
  }

  lemma BatchFollows(v: View, es: seq<AgentEvent>, lines: seq<Line>)
    requires Follows(v, es)
    ensures Follows(BatchStep(v, lines), es + EventList(lines))
  {
    if lines == [] {
      assert es + EventList(lines) == es;
    } else {
      LinesFollow(Receive(v, lines[0].at), es, lines, HadTools(v));
    }
  }

  lemma {:induction false} ScanFollows(scan: seq<seq<Line>>)
    ensures Follows(Scan(scan), EventList(Concat(scan)))
  {
    if scan != [] {
      ScanFollows(scan[..|scan| - 1]);
      BatchFollows(Scan(scan[..|scan| - 1]), EventList(Concat(scan[..|scan| - 1])), scan[|scan| - 1]);
      EventListAppend(Concat(scan[..|scan| - 1]), scan[|scan| - 1]);
    }
  }

  /** All events of a session, scan included. */
  function SessionEvents(scan: seq<seq<Line>>, steps: seq<Step>): seq<AgentEvent> {
    EventList(Concat(scan)) + EventList(Delivered(steps))
  }

  lemma DeliveredSnoc(steps: seq<Step>)
    requires steps != []
    ensures var front, last := steps[..|steps| - 1], steps[|steps| - 1];
            EventList(Delivered(steps)) ==
            EventList(Delivered(front)) + (if last.Batch? then EventList(last.lines) else [])
  {
    var front, last := steps[..|steps| - 1], steps[|steps| - 1];
    if last.Batch? {
      EventListAppend(Delivered(front), last.lines);
    } else {
      assert Delivered(steps) == Delivered(front);
    }
  }

  lemma SessionEventsSnoc(scan: seq<seq<Line>>, steps: seq<Step>)
    requires steps != []
    ensures var front, last := steps[..|steps| - 1], steps[|steps| - 1];
            SessionEvents(scan, steps) ==
            SessionEvents(scan, front) + (if last.Batch? then EventList(last.lines) else [])
  {
    var front, last := steps[..|steps| - 1], steps[|steps| - 1];
    DeliveredSnoc(steps);
    Assoc(EventList(Concat(scan)), EventList(Delivered(front)), if last.Batch? then EventList(last.lines) else []);
  }

  lemma TickFollows(v: View, es: seq<AgentEvent>, now: nat)
    requires Follows(v, es)
    ensures Follows(TickStep(v, now), es)
  {
  }

  /** After any session the tracking is the fold of the delivered transcript: two sessions that deliver the same
      lines agree, however they were batched and whenever the timers ticked. */
  lemma {:induction false} TrackingIsTranscriptFold(scan: seq<seq<Line>>, steps: seq<Step>)
    ensures Follows(Session(scan, steps), SessionEvents(scan, steps))
  {
    if steps == [] {
      ScanFollows(scan);
      assert SessionEvents(scan, steps) == EventList(Concat(scan));
    } else {
      var front, last := steps[..|steps| - 1], steps[|steps| - 1];
      TrackingIsTranscriptFold(scan, front);
      SessionEventsSnoc(scan, steps);
      match last
      case Batch(lines) => BatchFollows(Session(scan, front), SessionEvents(scan, front), lines);
      case TimerTick(now) =>
        TickFollows(Session(scan, front), SessionEvents(scan, front), now);
        assert SessionEvents(scan, front) + [] == SessionEvents(scan, front);
    }
  }

  lemma BatchingIsInvisible(scan1: seq<seq<Line>>, steps1: seq<Step>, scan2: seq<seq<Line>>, steps2: seq<Step>)
    requires SessionEvents(scan1, steps1) == SessionEvents(scan2, steps2)
    requires Session(scan1, steps1).agent.Some? && Session(scan2, steps2).agent.Some?
    ensures SameTracking(Session(scan1, steps1).agent.value, Session(scan2, steps2).agent.value)
  {
    TrackingIsTranscriptFold(scan1, steps1);
    TrackingIsTranscriptFold(scan2, steps2);
  }
}
