/** What the frontend is told is the transcript again: apart from the timers' own signals, the emitted stream is one
    announcement of the agent and then one signal per event, in order. */
module LogMirror {
  import opened Basics
  import opened TranscriptParser
  import opened AgentMachine
  import opened AgentInvariants
  import opened Tracking
  import opened IdleHints

  /** The one signal each event has, if any. */
  function Told(e: AgentEvent): seq<Signal> {
    match e
    case ToolStart(id, name, sub, parent) => [ToolStarted(id, name, sub, parent)]
    case ToolDone(id, sub, parent) => [ToolFinished(id, sub, parent)]
    case TurnEnd => [TurnEnded]
    case Active => [BecameActive]
    case TextIdle => []
  }

  function ToldAll(es: seq<AgentEvent>): seq<Signal> {
    if es == [] then [] else ToldAll(es[..|es| - 1]) + Told(es[|es| - 1])
  }

  predicate FromTimers(s: Signal) {
    s.Permission? || s.PermissionClear? || s.WentIdle?
  }

  /** The log without the signals the timers cause. */
  function Heard(log: seq<Signal>): seq<Signal> {
    if log == [] then []
    else Heard(log[..|log| - 1]) + if FromTimers(log[|log| - 1]) then [] else [log[|log| - 1]]
  }

  lemma {:induction false} HeardAppend(a: seq<Signal>, b: seq<Signal>)
    ensures Heard(a + b) == Heard(a) + Heard(b)
  {
    if b == [] {
      assert a + b == a;
    } else {
      HeardAppend(a, b[..|b| - 1]);
      assert (a + b)[..|a + b| - 1] == a + b[..|b| - 1];
    }
  }

  lemma HeardOne(s: Signal)
    ensures Heard([s]) == if FromTimers(s) then [] else [s]
  {
    assert [s][..0] == [];
  }

  lemma HeardTick(a: Agent, now: nat)
    ensures Heard(TickSignals(a, now)) == []
  {
    HeardOne(Permission);
    HeardOne(WentIdle);
    HeardAppend([Permission], [WentIdle]);
    assert [Permission] + [] == [Permission] && [] + [WentIdle] == [WentIdle];
  }

  lemma HeardEvent(e: AgentEvent)
    ensures Heard(Told(e)) == Told(e)
  {
    match e
    case ToolStart(id, name, sub, parent) => HeardOne(ToolStarted(id, name, sub, parent));
    case ToolDone(id, sub, parent) => HeardOne(ToolFinished(id, sub, parent));
    case TurnEnd => HeardOne(TurnEnded);
    case Active => HeardOne(BecameActive);
    case TextIdle =>
  }

  lemma {:induction false} HeardTold(es: seq<AgentEvent>)
    ensures Heard(ToldAll(es)) == ToldAll(es)
  {
    if es != [] {
      HeardTold(es[..|es| - 1]);
      HeardAppend(ToldAll(es[..|es| - 1]), Told(es[|es| - 1]));
      HeardEvent(es[|es| - 1]);
    }
  }

  lemma {:induction false} ToldAppend(a: seq<AgentEvent>, b: seq<AgentEvent>)
    ensures ToldAll(a + b) == ToldAll(a) + ToldAll(b)
  {
    if b == [] {
      assert a + b == a;
    } else {
      ToldAppend(a, b[..|b| - 1]);
      assert (a + b)[..|a + b| - 1] == a + b[..|b| - 1];
      Assoc(ToldAll(a), ToldAll(b[..|b| - 1]), Told(b[|b| - 1]));
    }
  }

  // ----- inside a batch -----

  /** No request is pending and the log, which was `log`, has gained the signals of `es`. */
  predicate Says(v: View, log: seq<Signal>, es: seq<AgentEvent>) {
    && !v.suppress && (v.agent.Some? ==> !v.agent.value.permissionSent)
    && v.emitted == log + ToldAll(es)
  }

  lemma FeedSays(v: View, log: seq<Signal>, es: seq<AgentEvent>, e: AgentEvent, now: nat)
    requires Says(v, log, es)
    ensures Says(Feed(v, e, now), log, es + [e])
  {
    assert (es + [e])[..|es|] == es;
    Assoc(log, ToldAll(es), Told(e));
    assert e.Active? ==> [] + [BecameActive] == [BecameActive];
  }

  lemma {:induction false} FeedAllSays(v: View, log: seq<Signal>, es: seq<AgentEvent>, more: seq<AgentEvent>, now: nat)
    requires Says(v, log, es)
    ensures Says(FeedAll(v, more, now), log, es + more)
  {
    if more == [] {
      assert es + more == es;
    } else {
      var front, last := more[..|more| - 1], more[|more| - 1];
      FeedAllSays(v, log, es, front, now);
      FeedSays(FeedAll(v, front, now), log, es + front, last, now);
      SnocAssoc(es, more);
    }
  }

  /** An idle hint says nothing. */
  lemma HintSays(v: View, log: seq<Signal>, es: seq<AgentEvent>, now: nat)
    requires Says(v, log, es)
    ensures Says(FeedAll(v, [TextIdle], now), log, es)
  {
    assert [TextIdle][..0] == [];
    assert FeedAll(v, [TextIdle], now) == Feed(v, TextIdle, now);
    assert v.emitted + [] == v.emitted;
  }

  lemma LineSays(v: View, log: seq<Signal>, es: seq<AgentEvent>, line: Line, had: bool)
    requires Says(v, log, es)
    ensures Says(FeedLine(v, line, had), log, es + LineEvents(line, true))
  {
    var u := Ensure(v, line.at);
    if line.Events? || had {
      FeedAllSays(u, log, es, LineEvents(line, true), line.at);
    } else {
      HintSays(u, log, es, line.at);
      assert es + [] == es;
    }
  }

  lemma {:induction false} LinesSay(v: View, log: seq<Signal>, lines: seq<Line>, had: bool)
    requires Says(v, log, [])
    ensures Says(FeedLines(v, lines, had), log, EventList(lines))
  {
    if lines != [] {
      var front, last := lines[..|lines| - 1], lines[|lines| - 1];
      LinesSay(v, log, front, had);
      LineSays(FeedLines(v, front, had), log, EventList(front), last, had);
    }
  }

  // ----- one step of a session -----

  /** A permission request that has not been withdrawn. */
  ghost predicate Asked(log: seq<Signal>) {
    exists i :: 0 <= i < |log| && log[i] == Permission && forall m | i < m < |log| :: log[m] != PermissionClear
  }

  lemma {:induction false} AskedIffOpen(log: seq<Signal>)
    requires !Traffic(log).Broken?
    ensures Asked(log) <==> Traffic(log) == Open
  {
    if log != [] {
      var front, last := log[..|log| - 1], log[|log| - 1];
      AskedIffOpen(front);
      AskedSnoc(log);
    }
  }

  lemma AskedSnoc(log: seq<Signal>)
    requires log != []
    ensures Asked(log) <==>
            log[|log| - 1] == Permission || (Asked(log[..|log| - 1]) && log[|log| - 1] != PermissionClear)
  {
    var front, last := log[..|log| - 1], log[|log| - 1];
    if last == Permission {
      assert log[|front|] == Permission;
    }
    if i :| 0 <= i < |log| && log[i] == Permission && forall m | i < m < |log| :: log[m] != PermissionClear {
      if i < |front| {
        assert front[i] == Permission && forall m | i < m < |front| :: front[m] == log[m];
      }
    }
    if Asked(front) && last != PermissionClear {
      var i :| 0 <= i < |front| && front[i] == Permission && forall m | i < m < |front| :: front[m] != PermissionClear;
      assert log[i] == Permission && forall m | i < m < |front| :: log[m] == front[m];
    }
  }

  lemma BatchSays(v: View, lines: seq<Line>)
    requires lines != [] && !v.suppress
    ensures BatchStep(v, lines).emitted ==
            v.emitted + (if v.agent.Some? && v.agent.value.permissionSent then [PermissionClear] else []) +
            ToldAll(EventList(lines))
  {
    var u := Receive(v, lines[0].at);
    assert u.emitted + ToldAll([]) == u.emitted;
    assert v.emitted + [] == v.emitted;
    LinesSay(u, u.emitted, lines, HadTools(v));
  }

  /** The signals a read causes, in full: a pending permission request is withdrawn, then every event of its lines is
      announced, in order. Nothing else withdraws a request. */
  lemma ReadSignals(scan: seq<seq<Line>>, steps: seq<Step>, k: nat)
    requires k < |steps| && steps[k].Batch? && steps[k].lines != []
    ensures var log := Session(scan, steps[..k]).emitted;
            Session(scan, steps[..k + 1]).emitted ==
            log + (if Asked(log) then [PermissionClear] else []) + ToldAll(EventList(steps[k].lines))
  {
    var v := Session(scan, steps[..k]);
    SessionInvariant(scan, steps[..k]);
    AskedIffOpen(v.emitted);
    assert steps[..k + 1][..k] == steps[..k];
    BatchSays(v, steps[k].lines);
  }

  lemma FeedAllKnows(v: View, es: seq<AgentEvent>, now: nat)
    requires v.agent.Some?
    ensures FeedAll(v, es, now).agent.Some?
  {
  }

  lemma {:induction false} FeedLinesKnow(v: View, lines: seq<Line>, had: bool)
    ensures FeedLines(v, lines, had).agent.Some? <==> v.agent.Some? || lines != []
  {
    if lines != [] {
      var front, last := lines[..|lines| - 1], lines[|lines| - 1];
      FeedLinesKnow(v, front, had);
      var u := FeedLines(v, front, had);
      FeedAllKnows(Ensure(u, last.at), LineEvents(last, had), last.at);
    }
  }

  lemma {:induction false} ScanKnows(scan: seq<seq<Line>>)
    ensures Scan(scan).agent.Some? <==> !AllEmpty(scan)
  {
    if scan != [] {
      var front, last := scan[..|scan| - 1], scan[|scan| - 1];
      ScanKnows(front);
      var v := Scan(front);
      if last != [] {
        FeedLinesKnow(Receive(v, last[0].at), last, HadTools(v));
      }
    }
  }

  lemma BatchHeard(v: View, first: seq<Signal>, es: seq<AgentEvent>, lines: seq<Line>)
    requires !v.suppress && Heard(v.emitted) == first + ToldAll(es)
    ensures Heard(BatchStep(v, lines).emitted) == first + ToldAll(es + EventList(lines))
  {
    if lines == [] {
      assert es + EventList(lines) == es;
    } else {
      BatchSays(v, lines);
      var clear := if v.agent.Some? && v.agent.value.permissionSent then [PermissionClear] else [];
      HeardOne(PermissionClear);
      HeardAppend(v.emitted, clear);
      HeardAppend(v.emitted + clear, ToldAll(EventList(lines)));
      HeardTold(EventList(lines));
      ToldAppend(es, EventList(lines));
      Assoc(first, ToldAll(es), ToldAll(EventList(lines)));
      assert Heard(v.emitted) + [] == Heard(v.emitted);
    }
  }

  lemma TickHeard(v: View, now: nat)
    requires !v.suppress
    ensures Heard(TickStep(v, now).emitted) == Heard(v.emitted)
  {
    if v.agent.Some? {
      HeardTick(v.agent.value, now);
      HeardAppend(v.emitted, TickSignals(v.agent.value, now));
    }
  }

  /** Apart from the timers' signals, the log of every session is the agent's announcement, if the scan found anything,
      and then every event delivered since, once and in order: nothing lost, nothing added. */
  lemma {:induction false} LogMirrorsTranscript(scan: seq<seq<Line>>, steps: seq<Step>)
    ensures Heard(Session(scan, steps).emitted) ==
            (if AllEmpty(scan) then [] else [Discovered]) + ToldAll(EventList(Delivered(steps)))
  {
    if steps == [] {
      ScanIsSilent(scan);
      ScanKnows(scan);
      HeardOne(Discovered);
    } else {
      var front, last := steps[..|steps| - 1], steps[|steps| - 1];
      LogMirrorsTranscript(scan, front);
      SessionInvariant(scan, front);
      DeliveredSnoc(steps);
      var v := Session(scan, front);
      match last
      case Batch(lines) =>
        BatchHeard(v, if AllEmpty(scan) then [] else [Discovered], EventList(Delivered(front)), lines);
      case TimerTick(now) =>
        TickHeard(v, now);
        assert EventList(Delivered(front)) + [] == EventList(Delivered(front));
    }
  }
}
