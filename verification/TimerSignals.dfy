/** Exactly which ticks ask for permission and which report idleness, read off the history of a session. */
module TimerSignals {
  import opened Basics
  import opened TranscriptParser
  import opened AgentMachine
  import opened AgentInvariants
  import opened Tracking
  import opened Simulation
  import opened IdleHints
  import opened QuietPeriod

  // ----- names of open tools -----

  /** The newest start of top-level tool `id` is at `i`, by this name, and neither the tool nor the turn ended since. */
  ghost predicate TopNamedAt(es: seq<AgentEvent>, id: string, name: string, i: nat) {
    && i < |es| && IsTopStart(es[i], id) && es[i].name == name
    && forall k | i < k < |es| :: !IsTopStart(es[k], id) && !IsTopDone(es[k], id) && !es[k].TurnEnd?
  }

  ghost predicate TopNamed(es: seq<AgentEvent>, id: string, name: string) {
    exists i: nat :: TopNamedAt(es, id, name, i)
  }

  lemma TopNamedSnoc(es: seq<AgentEvent>, e: AgentEvent, id: string, name: string)
    ensures TopNamed(es + [e], id, name) <==>
            if IsTopStart(e, id) then e.name == name else TopNamed(es, id, name) && !IsTopDone(e, id) && !e.TurnEnd?
  {
    var es' := es + [e];
    assert es'[|es|] == e;
    if i: nat :| TopNamedAt(es', id, name, i) && i < |es| {
      assert TopNamedAt(es, id, name, i) by {
        assert es[i] == es'[i];
        forall k | i < k < |es| ensures !IsTopStart(es[k], id) && !IsTopDone(es[k], id) && !es[k].TurnEnd? {
          assert es[k] == es'[k];
        }
      }
    }
    if i: nat :| TopNamedAt(es, id, name, i) && !IsTopStart(e, id) && !IsTopDone(e, id) && !e.TurnEnd? {
      assert TopNamedAt(es', id, name, i);
    }
    if IsTopStart(e, id) && e.name == name {
      assert TopNamedAt(es', id, name, |es|);
    }
  }

  predicate HasName(m: map<string, string>, id: string, name: string) {
    id in m && m[id] == name
  }

  lemma NameStep(a: Agent, e: AgentEvent, id: string, name: string)
    ensures HasName(Apply(a, e, 0).names, id, name) <==>
            if IsTopStart(e, id) then e.name == name
            else HasName(a.names, id, name) && !IsTopDone(e, id) && !e.TurnEnd?
  {
    match e
    case ToolStart(x, n, sub, parent) =>
      StartName(a.(lastActivity := 0, waiting := false, idleTimer := None), x, n, sub, parent, id, name);
    case ToolDone(x, sub, parent) => FinishName(a.(lastActivity := 0), x, sub, parent, id, name);
    case _ =>
  }

  lemma StartName(a: Agent, x: string, n: string, sub: bool, parent: Option<string>, id: string, name: string)
    ensures HasName(StartTool(a, x, n, sub, parent).names, id, name) <==>
            if !sub && x == id then n == name else HasName(a.names, id, name)
  {
  }

  lemma FinishName(a: Agent, x: string, sub: bool, parent: Option<string>, id: string, name: string)
    ensures HasName(FinishTool(a, x, sub, parent).names, id, name) <==>
            HasName(a.names, id, name) && !(!sub && x == id)
  {
  }

  /** The backend's table of names is the history's. */
  lemma {:induction false} NamesFromHistory(es: seq<AgentEvent>, id: string, name: string)
    ensures HasName(Fold(es).names, id, name) <==> TopNamed(es, id, name)
  {
    if es != [] {
      var front, last := es[..|es| - 1], es[|es| - 1];
      NamesFromHistory(front, id, name);
      NameStep(Fold(front), last, id, name);
      TopNamedSnoc(front, last, id, name);
      assert es == front + [last];
    }
  }

  /** The same for sub-agent tool `id` of Task `p`, which the end of the Task ends too. */
  ghost predicate SubNamedAt(es: seq<AgentEvent>, p: string, id: string, name: string, i: nat) {
    && i < |es| && IsSubStart(es[i], p, id) && es[i].name == name
    && forall k | i < k < |es| :: !EndsSub(es, p, id, k)
  }

  predicate EndsSub(es: seq<AgentEvent>, p: string, id: string, k: nat)
    requires k < |es|
  {
    IsSubStart(es[k], p, id) || IsSubDone(es[k], p, id) || es[k].TurnEnd? || TaskDone(es, k, p)
  }

  ghost predicate SubNamed(es: seq<AgentEvent>, p: string, id: string, name: string) {
    exists i: nat :: SubNamedAt(es, p, id, name, i)
  }

  lemma EndsSubInPrefix(es: seq<AgentEvent>, e: AgentEvent, p: string, id: string, k: nat)
    requires k < |es|
    ensures EndsSub(es + [e], p, id, k) <==> EndsSub(es, p, id, k)
  {
    assert (es + [e])[..k] == es[..k] && (es + [e])[k] == es[k];
  }

  lemma SubNamedSnoc(es: seq<AgentEvent>, e: AgentEvent, p: string, id: string, name: string)
    ensures SubNamed(es + [e], p, id, name) <==>
            if IsSubStart(e, p, id) then e.name == name
            else SubNamed(es, p, id, name) && !EndsSub(es + [e], p, id, |es|)
  {
    var es' := es + [e];
    assert es'[|es|] == e;
    if i: nat :| SubNamedAt(es', p, id, name, i) && i < |es| {
      assert SubNamedAt(es, p, id, name, i) by {
        assert es[i] == es'[i];
        forall k | i < k < |es| ensures !EndsSub(es, p, id, k) {
          EndsSubInPrefix(es, e, p, id, k);
        }
      }
      assert !EndsSub(es', p, id, |es|);
    }
    if i: nat :| SubNamedAt(es, p, id, name, i) && !EndsSub(es', p, id, |es|) {
      assert SubNamedAt(es', p, id, name, i) by {
        forall k | i < k < |es'| ensures !EndsSub(es', p, id, k) {
          if k < |es| {
            EndsSubInPrefix(es, e, p, id, k);
          }
        }
      }
    }
    if IsSubStart(e, p, id) && e.name == name {
      assert SubNamedAt(es', p, id, name, |es|);
    }
  }

  lemma StartSubName(a: Agent, x: string, n: string, sub: bool, parent: Option<string>, p: string, id: string,
                     name: string)
    ensures HasName(GetMap(StartTool(a, x, n, sub, parent).subNames, p), id, name) <==>
            if sub && parent == Some(p) && x == id then n == name else HasName(GetMap(a.subNames, p), id, name)
  {
  }

  lemma FinishSubName(a: Agent, x: string, sub: bool, parent: Option<string>, p: string, id: string, name: string)
    ensures HasName(GetMap(FinishTool(a, x, sub, parent).subNames, p), id, name) <==>
            && HasName(GetMap(a.subNames, p), id, name)
            && !(sub && parent == Some(p) && x == id)
            && !(!sub && x == p && HasName(a.names, p, "Task"))
  {
  }

  lemma SubNameStep(a: Agent, e: AgentEvent, p: string, id: string, name: string)
    ensures HasName(GetMap(Apply(a, e, 0).subNames, p), id, name) <==>
            if IsSubStart(e, p, id) then e.name == name
            else
              && HasName(GetMap(a.subNames, p), id, name) && !IsSubDone(e, p, id) && !e.TurnEnd?
              && !(IsTopDone(e, p) && HasName(a.names, p, "Task"))
  {
    match e
    case ToolStart(x, n, sub, parent) =>
      StartSubName(a.(lastActivity := 0, waiting := false, idleTimer := None), x, n, sub, parent, p, id, name);
    case ToolDone(x, sub, parent) => FinishSubName(a.(lastActivity := 0), x, sub, parent, p, id, name);
    case _ =>
  }

  lemma {:induction false} SubNamesFromHistory(es: seq<AgentEvent>, p: string, id: string, name: string)
    ensures HasName(GetMap(Fold(es).subNames, p), id, name) <==> SubNamed(es, p, id, name)
  {
    if es != [] {
      var front, last := es[..|es| - 1], es[|es| - 1];
      SubNamesFromHistory(front, p, id, name);
      SubNameStep(Fold(front), last, p, id, name);
      SubNamedSnoc(front, last, p, id, name);
      assert es == front + [last];
    }
  }

  /** Every tool but two may need the user's permission. */
  predicate NeedsPermission(name: string) {
    name != "Task" && name != "AskUserQuestion"
  }

  /** The history leaves such a tool open, at top level or under a Task. */
  ghost predicate AwaitsPermission(es: seq<AgentEvent>) {
    || (exists id, name :: TopNamed(es, id, name) && NeedsPermission(name))
    || (exists p, id, name :: SubNamed(es, p, id, name) && NeedsPermission(name))
  }

  lemma AwaitsIff(es: seq<AgentEvent>)
    ensures NonExemptActive(Fold(es)) <==> AwaitsPermission(es)
  {
    var a := Fold(es);
    forall id, name ensures HasName(a.names, id, name) <==> TopNamed(es, id, name) {
      NamesFromHistory(es, id, name);
    }
    forall p, id, name ensures HasName(GetMap(a.subNames, p), id, name) <==> SubNamed(es, p, id, name) {
      SubNamesFromHistory(es, p, id, name);
    }
    if id :| id in a.names && !Exempt(a.names[id]) {
      assert HasName(a.names, id, a.names[id]);
    }
    if p, id :| p in a.subNames && id in a.subNames[p] && !Exempt(a.subNames[p][id]) {
      assert HasName(GetMap(a.subNames, p), id, a.subNames[p][id]);
    }
    if id, name :| TopNamed(es, id, name) && NeedsPermission(name) {
      assert HasName(a.names, id, name);
    }
    if p, id, name :| SubNamed(es, p, id, name) && NeedsPermission(name) {
      assert HasName(GetMap(a.subNames, p), id, name);
    }
  }

  // ----- when the permission timer was started -----

  /** What events do to the permission timer: the last one that starts a tool needing permission, or ends the turn,
      decides. */
  datatype Effect = Untouched | Started | Cleared

  function EffectOf(es: seq<AgentEvent>): Effect {
    if es == [] then Untouched
    else
      var last := es[|es| - 1];
      if last.ToolStart? && NeedsPermission(last.name) then Started
      else if last.TurnEnd? then Cleared
      else EffectOf(es[..|es| - 1])
  }

  /** The time of the last line whose events leave the timer started, if no later one clears it. */
  function AskedAt(lines: seq<Line>): Option<nat> {
    if lines == [] then None
    else
      var last := lines[|lines| - 1];
      match EffectOf(LineEvents(last, true))
      case Started => Some(last.at)
      case Cleared => None
      case Untouched => AskedAt(lines[..|lines| - 1])
  }

  function Affected(t: Option<nat>, effect: Effect, now: nat): Option<nat> {
    match effect
    case Started => Some(now)
    case Cleared => None
    case Untouched => t
  }

  lemma ToolsKeepPermission(a: Agent, id: string, name: string, sub: bool, parent: Option<string>)
    ensures StartTool(a, id, name, sub, parent).permissionTimer == a.permissionTimer
    ensures FinishTool(a, id, sub, parent).permissionTimer == a.permissionTimer
  {
  }

  lemma ApplyPermission(a: Agent, e: AgentEvent, now: nat)
    ensures Apply(a, e, now).permissionTimer == Affected(a.permissionTimer, EffectOf([e]), now)
  {
    assert [e][..0] == [];
    match e
    case ToolStart(id, name, sub, parent) =>
      ToolsKeepPermission(a.(lastActivity := now, waiting := false, idleTimer := None), id, name, sub, parent);
    case ToolDone(id, sub, parent) => ToolsKeepPermission(a.(lastActivity := now), id, "", sub, parent);
    case _ =>
  }

  function PermissionOf(v: View): Option<nat> {
    Timer(ForPermission, v)
  }

  lemma FeedPermission(v: View, e: AgentEvent, now: nat)
    ensures PermissionOf(Feed(v, e, now)) == Affected(PermissionOf(v), EffectOf([e]), now)
  {
    ApplyPermission(if v.agent.Some? then v.agent.value else NewAgent(now), e, now);
  }

  lemma EffectSnoc(es: seq<AgentEvent>, t: Option<nat>, now: nat)
    requires es != []
    ensures Affected(t, EffectOf(es), now) ==
            Affected(Affected(t, EffectOf(es[..|es| - 1]), now), EffectOf([es[|es| - 1]]), now)
  {
    assert [es[|es| - 1]][..0] == [];
  }

  lemma {:induction false} FeedAllPermission(v: View, es: seq<AgentEvent>, now: nat)
    ensures PermissionOf(FeedAll(v, es, now)) == Affected(PermissionOf(v), EffectOf(es), now)
  {
    if es != [] {
      FeedAllPermission(v, es[..|es| - 1], now);
      FeedPermission(FeedAll(v, es[..|es| - 1], now), es[|es| - 1], now);
      EffectSnoc(es, PermissionOf(v), now);
    }
  }

  lemma LinePermission(v: View, line: Line, had: bool)
    ensures PermissionOf(FeedLine(v, line, had)) == Affected(PermissionOf(v), EffectOf(LineEvents(line, true)), line.at)
  {
    var es := LineEvents(line, had);
    FeedAllPermission(Ensure(v, line.at), es, line.at);
    if line.TextOnly? && !had {
      assert [TextIdle][..0] == [];
      assert EffectOf([TextIdle]) == Untouched;
    }
  }

  lemma {:induction false} LinesPermission(v: View, lines: seq<Line>, had: bool)
    requires PermissionOf(v).None?
    ensures PermissionOf(FeedLines(v, lines, had)) == AskedAt(lines)
  {
    if lines != [] {
      LinesPermission(v, lines[..|lines| - 1], had);
      LinePermission(FeedLines(v, lines[..|lines| - 1], had), lines[|lines| - 1], had);
    }
  }

  lemma BatchPermission(v: View, lines: seq<Line>)
    requires lines != []
    ensures PermissionOf(BatchStep(v, lines)) == AskedAt(lines)
  {
    LinesPermission(Receive(v, lines[0].at), lines, HadTools(v));
  }

  // ----- silence -----

  function Limit(kind: Kind): nat {
    if kind.ForPermission? then 7000 else 5000
  }

  /** A tick comes so late that a timer of this kind, started at `t`, goes off. */
  predicate Rings(kind: Kind, t: nat, steps: seq<Step>) {
    exists i :: 0 <= i < |steps| && steps[i].TimerTick? && steps[i].now >= t + Limit(kind)
  }

  function Rung(kind: Kind, t: Option<nat>, steps: seq<Step>): Option<nat> {
    if t.Some? && Rings(kind, t.value, steps) then None else t
  }

  lemma RingsSnoc(kind: Kind, t: nat, front: seq<Step>, s: Step)
    ensures Rings(kind, t, front + [s]) <==> Rings(kind, t, front) || Rings(kind, t, [s])
  {
    var all := front + [s];
    assert [s][0] == s && all[|front|] == s;
    if i :| 0 <= i < |front| && front[i].TimerTick? && front[i].now >= t + Limit(kind) {
      assert all[i] == front[i];
    }
    if i :| 0 <= i < |all| && all[i].TimerTick? && all[i].now >= t + Limit(kind) {
      assert i < |front| ==> front[i] == all[i];
    }
  }

  lemma RungSnoc(kind: Kind, t: Option<nat>, steps: seq<Step>, n: nat)
    requires |steps| == n + 1
    ensures Rung(kind, t, steps) == Rung(kind, Rung(kind, t, steps[..n]), [steps[n]])
  {
    assert steps == steps[..n] + [steps[n]];
    if t.Some? {
      RingsSnoc(kind, t.value, steps[..n], steps[n]);
    }
  }

  lemma QuietStep(kind: Kind, v: View, s: Step)
    requires !BringsData(s)
    ensures Timer(kind, LiveStep(v, s)) == Rung(kind, Timer(kind, v), [s])
  {
    assert [s][0] == s;
  }

  lemma QuietSnoc(kind: Kind, scan: seq<seq<Line>>, front: seq<Step>, s: Step)
    requires !BringsData(s)
    ensures Timer(kind, Session(scan, front + [s])) == Rung(kind, Timer(kind, Session(scan, front)), [s])
  {
    assert (front + [s])[..|front|] == front;
    QuietStep(kind, Session(scan, front), s);
  }

  lemma RungOn(kind: Kind, first: Option<nat>, steps: seq<Step>, n: nat, mid: Option<nat>, last: Option<nat>)
    requires |steps| == n + 1 && mid == Rung(kind, first, steps[..n]) && last == Rung(kind, mid, [steps[n]])
    ensures last == Rung(kind, first, steps)
  {
    RungSnoc(kind, first, steps, n);
  }

  /** Without data a timer runs on until a tick sets it off. */
  lemma {:induction false} QuietKeeps(kind: Kind, scan: seq<seq<Line>>, front: seq<Step>, later: seq<Step>)
    requires Silent(later)
    ensures Timer(kind, Session(scan, front + later)) == Rung(kind, Timer(kind, Session(scan, front)), later)
  {
    if later == [] {
      assert front + later == front;
    } else {
      var n := |later| - 1;
      var mid := front + later[..n];
      QuietKeeps(kind, scan, front, later[..n]);
      QuietSnoc(kind, scan, mid, later[n]);
      RungOn(kind, Timer(kind, Session(scan, front)), later, n, Timer(kind, Session(scan, mid)),
             Timer(kind, Session(scan, mid + [later[n]])));
      SnocAssoc(front, later);
    }
  }

  // ----- which ticks signal -----

  /** A timer started at `t` goes off at a tick at `now`, and no earlier tick of `later` set it off. */
  predicate GoesOff(kind: Kind, t: Option<nat>, later: seq<Step>, now: nat) {
    t.Some? && !Rings(kind, t.value, later) && now >= t.value + Limit(kind)
  }

  lemma TickSignalsIff(v: View, now: nat)
    ensures v.agent.Some? && Permission in TickSignals(v.agent.value, now) <==>
            GoesOff(ForPermission, PermissionOf(v), [], now) && NonExemptActive(v.agent.value)
    ensures v.agent.Some? && WentIdle in TickSignals(v.agent.value, now) <==>
            GoesOff(ForIdle, Timer(ForIdle, v), [], now)
  {
  }

  lemma RungGoesOff(kind: Kind, t: Option<nat>, later: seq<Step>, now: nat)
    ensures GoesOff(kind, Rung(kind, t, later), [], now) <==> GoesOff(kind, t, later, now)
  {
  }

  /** Whether the tick after `later` signals, given the timers and the tools when `later` began. */
  lemma SignalAfterSilence(scan: seq<seq<Line>>, front: seq<Step>, later: seq<Step>, now: nat)
    requires Silent(later)
    ensures var steps, v := front + later + [TimerTick(now)], Session(scan, front);
            && (SignalsAt(ForPermission, scan, steps, |front + later|) <==>
                  && GoesOff(ForPermission, PermissionOf(v), later, now)
                  && AwaitsPermission(SessionEvents(scan, front)))
            && (SignalsAt(ForIdle, scan, steps, |front + later|) <==> GoesOff(ForIdle, Timer(ForIdle, v), later, now))
  {
    var steps, w := front + later + [TimerTick(now)], Session(scan, front + later);
    assert steps[..|front + later|] == front + later;
    QuietKeeps(ForPermission, scan, front, later);
    QuietKeeps(ForIdle, scan, front, later);
    RungGoesOff(ForPermission, PermissionOf(Session(scan, front)), later, now);
    RungGoesOff(ForIdle, Timer(ForIdle, Session(scan, front)), later, now);
    TickSignalsIff(w, now);
    SilentEvents(scan, front, later);
    TrackingIsTranscriptFold(scan, front + later);
    AwaitsIff(SessionEvents(scan, front));
    if w.agent.Some? {
      SameAwaits(w.agent.value, Fold(SessionEvents(scan, front)));
    }
  }

  lemma SameAwaits(a: Agent, b: Agent)
    requires SameTracking(a, b)
    ensures NonExemptActive(a) <==> NonExemptActive(b)
  {
  }

  lemma {:induction false} SilentEvents(scan: seq<seq<Line>>, front: seq<Step>, later: seq<Step>)
    requires Silent(later)
    ensures SessionEvents(scan, front + later) == SessionEvents(scan, front)
  {
    if later == [] {
      assert front + later == front;
    } else {
      var n := |later| - 1;
      SilentEvents(scan, front, later[..n]);
      var all := front + later;
      assert all[..|all| - 1] == front + later[..n] && all[|all| - 1] == later[n];
      SessionEventsSnoc(scan, all);
      assert !BringsData(later[n]);
      assert SessionEvents(scan, front) + [] == SessionEvents(scan, front);
    }
  }

  /** In every session whose last data came after the scan, as `lines`: the tick at `now` asks for permission exactly if
      those lines last started a tool needing permission at some `t`, it comes at least 7000 ms later, no tick before it
      did, and a tool needing permission is open, at top level or under a Task. It reports idleness exactly if no tool
      was open before those lines, they end in a text-only line at some `t` that nothing follows up, it comes at least
      5000 ms later, and no tick before it did. */
  lemma LiveSignalsIff(scan: seq<seq<Line>>, front: seq<Step>, lines: seq<Line>, later: seq<Step>, now: nat)
    requires lines != [] && AllParsed(lines) && Silent(later)
    ensures var steps := front + [Batch(lines)] + later + [TimerTick(now)];
            && (SignalsAt(ForPermission, scan, steps, |steps| - 1) <==>
                  && GoesOff(ForPermission, AskedAt(lines), later, now)
                  && AwaitsPermission(SessionEvents(scan, front) + EventList(lines)))
            && (SignalsAt(ForIdle, scan, steps, |steps| - 1) <==>
                  !OpensTool(SessionEvents(scan, front)) && GoesOff(ForIdle, Hint(lines), later, now))
  {
    var begin := front + [Batch(lines)];
    assert begin[..|front|] == front && begin[|front|] == Batch(lines);
    SignalAfterSilence(scan, begin, later, now);
    SessionEventsSnoc(scan, begin);
    SessionInvariant(scan, front);
    TrackingIsTranscriptFold(scan, front);
    BatchTimers(Session(scan, front), SessionEvents(scan, front), lines);
  }

  lemma BatchTimers(v: View, es: seq<AgentEvent>, lines: seq<Line>)
    requires Good(v) && Follows(v, es) && lines != [] && AllParsed(lines)
    ensures PermissionOf(BatchStep(v, lines)) == AskedAt(lines)
    ensures Timer(ForIdle, BatchStep(v, lines)) == if OpensTool(es) then None else Hint(lines)
  {
    BatchPermission(v, lines);
    LinesIdle(Receive(v, lines[0].at), lines, HadTools(v));
    ActiveIffOpens(es);
  }

  /** The same when the last data came during the scan. */
  lemma ScanSignalsIff(scan: seq<seq<Line>>, lines: seq<Line>, rest: seq<seq<Line>>, later: seq<Step>, now: nat)
    requires lines != [] && AllParsed(lines) && AllEmpty(rest) && Silent(later)
    ensures var all, steps := scan + [lines] + rest, later + [TimerTick(now)];
            && (SignalsAt(ForPermission, all, steps, |later|) <==>
                  && GoesOff(ForPermission, AskedAt(lines), later, now)
                  && AwaitsPermission(EventList(Concat(scan)) + EventList(lines)))
            && (SignalsAt(ForIdle, all, steps, |later|) <==>
                  !OpensTool(EventList(Concat(scan))) && GoesOff(ForIdle, Hint(lines), later, now))
  {
    var some, all := scan + [lines], scan + [lines] + rest;
    assert some[..|scan|] == scan;
    SignalAfterSilence(all, [], later, now);
    assert [] + later == later;
    EmptyScans(some, rest);
    ScanEventsOf(scan, lines, rest);
    ScanIsSilent(scan);
    ScanFollows(scan);
    BatchTimers(Scan(scan), EventList(Concat(scan)), lines);
  }

  lemma ScanEventsOf(scan: seq<seq<Line>>, lines: seq<Line>, rest: seq<seq<Line>>)
    requires AllEmpty(rest)
    ensures SessionEvents(scan + [lines] + rest, []) == EventList(Concat(scan)) + EventList(lines)
  {
    var some := scan + [lines];
    assert some[..|scan|] == scan;
    EventListAppend(Concat(scan), lines);
    EmptyConcat(some, rest);
    assert EventList(Concat(some)) + [] == EventList(Concat(some));
  }

  lemma {:induction false} EmptyConcat(scan: seq<seq<Line>>, rest: seq<seq<Line>>)
    requires AllEmpty(rest)
    ensures Concat(scan + rest) == Concat(scan)
  {
    if rest == [] {
      assert scan + rest == scan;
    } else {
      var n := |rest| - 1;
      EmptyConcat(scan, rest[..n]);
      var all := scan + rest;
      assert all[..|all| - 1] == scan + rest[..n] && all[|all| - 1] == rest[n];
    }
  }

  /** Without data no tick signals. */
  lemma NoDataNoSignal(kind: Kind, scan: seq<seq<Line>>, later: seq<Step>, now: nat)
    requires AllEmpty(scan) && Silent(later)
    ensures !SignalsAt(kind, scan, later + [TimerTick(now)], |later|)
  {
    SignalAfterSilence(scan, [], later, now);
    assert [] + later == later;
    EmptyScans([], scan);
    assert [] + scan == scan;
  }
}
