/** One agent as the backend tracks it: tool sets, permission and idle timers, and the signals it sends to the
    frontend. A watcher session, seen from one agent, is a sequence of batches and timer ticks. */
module AgentMachine {
  import opened Basics
  import opened TranscriptParser

  const PERMISSION_DELAY: nat := 7000
  const IDLE_DELAY: nat := 5000

  predicate Exempt(name: string) {
    name == "Task" || name == "AskUserQuestion"
  }

  datatype Agent = Agent(
    active: set<string>,                              // active_tool_ids
    names: map<string, string>,                       // active_tool_names
    subIds: map<string, set<string>>,                 // subagent_tool_ids
    subNames: map<string, map<string, string>>,       // subagent_tool_names
    waiting: bool,
    permissionSent: bool,
    hadTools: bool,                                   // had_tools_in_turn
    lastActivity: nat,
    permissionTimer: Option<nat>,
    idleTimer: Option<nat>)

  function NewAgent(now: nat): Agent {
    Agent({}, map[], map[], map[], false, false, false, now, None, None)
  }

  /** Events emitted to the frontend. */
  datatype Signal =
    | ToolStarted(id: string, name: string, sub: bool, parent: Option<string>)
    | ToolFinished(id: string, sub: bool, parent: Option<string>)
    | TurnEnded
    | BecameActive
    | Permission
    | PermissionClear
    | WentIdle
    | Discovered

  function GetSet(m: map<string, set<string>>, k: string): set<string> {
    if k in m then m[k] else {}
  }

  function GetMap(m: map<string, map<string, string>>, k: string): map<string, string> {
    if k in m then m[k] else map[]
  }

  /** `process_event`: the state change. */
  function Apply(a: Agent, e: AgentEvent, now: nat): Agent {
    match e
    case ToolStart(id, name, sub, parent) =>
      var a1 := StartTool(a.(lastActivity := now, waiting := false, idleTimer := None), id, name, sub, parent);
      if Exempt(name) then a1 else a1.(permissionTimer := Some(now))
    case ToolDone(id, sub, parent) => FinishTool(a.(lastActivity := now), id, sub, parent)
    case TurnEnd => Agent({}, map[], map[], map[], true, false, false, now, None, None)
    case Active => a.(lastActivity := now, waiting := false, idleTimer := None, permissionSent := false)
    case TextIdle => a.(idleTimer := Some(now))
  }

  function StartTool(a: Agent, id: string, name: string, sub: bool, parent: Option<string>): Agent {
    if sub then
      if parent.None? then a
      else
        var p := parent.value;
        a.(subIds := a.subIds[p := GetSet(a.subIds, p) + {id}],
           subNames := a.subNames[p := GetMap(a.subNames, p)[id := name]])
    else a.(hadTools := true, active := a.active + {id}, names := a.names[id := name])
  }

  function FinishTool(a: Agent, id: string, sub: bool, parent: Option<string>): Agent {
    if sub then
      if parent.None? then a
      else
        var p := parent.value;
        a.(subIds := if p in a.subIds then a.subIds[p := a.subIds[p] - {id}] else a.subIds,
           subNames := if p in a.subNames then a.subNames[p := a.subNames[p] - {id}] else a.subNames)
    else
      var task := id in a.names && a.names[id] == "Task";
      var active := a.active - {id};
      a.(subIds := if task then a.subIds - {id} else a.subIds,
         subNames := if task then a.subNames - {id} else a.subNames,
         active := active,
         names := a.names - {id},
         hadTools := a.hadTools && active != {})
  }

  /** `process_event`: what it emits when not suppressed. */
  function Signals(a: Agent, e: AgentEvent): seq<Signal> {
    match e
    case ToolStart(id, name, sub, parent) => [ToolStarted(id, name, sub, parent)]
    case ToolDone(id, sub, parent) => [ToolFinished(id, sub, parent)]
    case TurnEnd => [TurnEnded]
    case Active => (if a.permissionSent then [PermissionClear] else []) + [BecameActive]
    case TextIdle => []
  }

  /** `on_data_received`. */
  function OnData(a: Agent, now: nat): Agent {
    a.(lastActivity := now, permissionTimer := None, idleTimer := None, permissionSent := false)
  }

  predicate NonExemptActive(a: Agent) {
    || (exists id :: id in a.names && !Exempt(a.names[id]))
    || (exists p, id :: p in a.subNames && id in a.subNames[p] && !Exempt(a.subNames[p][id]))
  }

  predicate Elapsed(timer: Option<nat>, delay: nat, now: nat) {
    timer.Some? && now >= timer.value + delay
  }

  /** `tick_timers`, for one agent. */
  function Tick(a: Agent, now: nat): Agent {
    var a1 :=
      if Elapsed(a.permissionTimer, PERMISSION_DELAY, now)
      then a.(permissionTimer := None, permissionSent := a.permissionSent || NonExemptActive(a))
      else a;
    if Elapsed(a.idleTimer, IDLE_DELAY, now) then a1.(idleTimer := None, waiting := true) else a1
  }

  function TickSignals(a: Agent, now: nat): seq<Signal> {
    (if Elapsed(a.permissionTimer, PERMISSION_DELAY, now) && NonExemptActive(a) then [Permission] else []) +
    (if Elapsed(a.idleTimer, IDLE_DELAY, now) then [WentIdle] else [])
  }

  // ----- a session, seen from one agent -----

  /** A transcript line as the parser reads it, with the clock when it is processed: a text-only reply, which
      hints at idleness unless the turn had tools, or a line whose events are settled by the line alone. */
  datatype Line = Events(events: seq<AgentEvent>, at: nat) | TextOnly(at: nat)

  function LineEvents(line: Line, hadTools: bool): seq<AgentEvent> {
    match line
    case Events(es, _) => es
    case TextOnly(_) => if hadTools then [] else [TextIdle]
  }

  datatype View = View(agent: Option<Agent>, suppress: bool, emitted: seq<Signal>)

  function Feed(v: View, e: AgentEvent, now: nat): View {
    var a := if v.agent.Some? then v.agent.value else NewAgent(now);
    View(Some(Apply(a, e, now)), v.suppress, v.emitted + if v.suppress then [] else Signals(a, e))
  }

  function FeedAll(v: View, es: seq<AgentEvent>, now: nat): View {
    if es == [] then v else Feed(FeedAll(v, es[..|es| - 1], now), es[|es| - 1], now)
  }

  /** `ensure_agent`. */
  function Ensure(v: View, now: nat): View {
    if v.agent.Some? then v else v.(agent := Some(NewAgent(now)))
  }

  function FeedLine(v: View, line: Line, hadTools: bool): View {
    FeedAll(Ensure(v, line.at), LineEvents(line, hadTools), line.at)
  }

  function FeedLines(v: View, lines: seq<Line>, hadTools: bool): View {
    if lines == [] then v
    else FeedLine(FeedLines(v, lines[..|lines| - 1], hadTools), lines[|lines| - 1], hadTools)
  }

  function HadTools(v: View): bool {
    v.agent.Some? && v.agent.value.hadTools
  }

  /** New data cancels both timers and withdraws a permission request, even while emission is suppressed. */
  function Receive(v: View, now: nat): View {
    if v.agent.None? then v
    else View(Some(OnData(v.agent.value, now)), v.suppress,
              v.emitted + if v.agent.value.permissionSent then [PermissionClear] else [])
  }

  /** One read that delivered `lines`; the flag passed to the parser is sampled once, before the batch. */
  function BatchStep(v: View, lines: seq<Line>): View {
    if lines == [] then v else FeedLines(Receive(v, lines[0].at), lines, HadTools(v))
  }

  function TickStep(v: View, now: nat): View {
    if v.agent.None? then v
    else View(Some(Tick(v.agent.value, now)), v.suppress,
              v.emitted + if v.suppress then [] else TickSignals(v.agent.value, now))
  }

  /** End of the initial scan. */
  function Discover(v: View): View {
    View(v.agent, false, v.emitted + if v.agent.Some? then [Discovered] else [])
  }

  datatype Step = Batch(lines: seq<Line>) | TimerTick(now: nat)

  function LiveStep(v: View, s: Step): View {
    match s
    case Batch(lines) => BatchStep(v, lines)
    case TimerTick(now) => TickStep(v, now)
  }

  /** The initial scan: suppressed batches. */
  function Scan(batches: seq<seq<Line>>): View {
    if batches == [] then View(None, true, [])
    else BatchStep(Scan(batches[..|batches| - 1]), batches[|batches| - 1])
  }

  /** A whole session: the scan, then `steps`. */
  function Session(scan: seq<seq<Line>>, steps: seq<Step>): View {
    if steps == [] then Discover(Scan(scan))
    else LiveStep(Session(scan, steps[..|steps| - 1]), steps[|steps| - 1])
  }
}
