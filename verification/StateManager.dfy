/** `AgentStateManager`: the agents table, the suppression flag and the emitted signals, changed in place. Every
    method is specified by what it does to each agent's view. */
module StateManager {
  import opened Basics
  import opened TranscriptParser
  import opened AgentMachine
  import opened EventLog

  /** The part of a manager's state that concerns one agent. */
  function ViewIn(agents: map<string, Agent>, suppress: bool, log: Log, id: string): View {
    View(if id in agents then Some(agents[id]) else None, suppress, SignalsOf(log, id))
  }

  class AgentStateManager {
    var agents: map<string, Agent>
    var suppress: bool
    var log: Log

    constructor ()
      ensures agents == map[] && !suppress && log == []
    {
      agents, suppress, log := map[], false, [];
    }

    /** The session as one agent sees it. */
    function ViewOf(id: string): View
      reads this
    {
      View(if id in agents then Some(agents[id]) else None, suppress, SignalsOf(log, id))
    }

    /** The session as each agent sees it. */
    ghost function Views(): imap<string, View>
      reads this
    {
      imap x :: ViewOf(x)
    }

    /** `emit`, once per entry: nothing reaches the frontend while suppressed. */
    method Emit(entries: Log)
      modifies `log
      ensures log == if suppress then old(log) else old(log) + entries
    {
      for i := 0 to |entries|
        invariant log == if suppress then old(log) else old(log) + entries[..i]
      {
        if !suppress {
          log := log + [entries[i]];
        }
      }
      assert entries[..|entries|] == entries;
    }

    method EnsureAgent(id: string, now: nat) returns (a: Agent)
      modifies `agents
      ensures ViewOf(id) == Ensure(old(ViewOf(id)), now) && id in agents && agents[id] == a
      ensures forall x | x != id :: ViewOf(x) == old(ViewOf(x))
    {
      if id !in agents {
        agents := agents[id := NewAgent(now)];
      }
      a := agents[id];
    }

    method ProcessEvent(id: string, e: AgentEvent, now: nat)
      modifies `agents, `log
      ensures ViewOf(id) == Feed(old(ViewOf(id)), e, now)
      ensures forall x | x != id :: ViewOf(x) == old(ViewOf(x))
    {
      var a0 := EnsureAgent(id, now);
      var a, signals := React(a0, e, now);
      Store(id, a, signals);
    }

    /** Replaces one agent and sends its signals. */
    method Store(id: string, a: Agent, signals: seq<Signal>)
      modifies `agents, `log
      ensures ViewOf(id) == View(Some(a), suppress, old(ViewOf(id)).emitted + if suppress then [] else signals)
      ensures forall x | x != id :: ViewOf(x) == old(ViewOf(x))
    {
      agents := agents[id := a];
      TagAppend(log, id, signals);
      assert SignalsOf(log, id) + [] == SignalsOf(log, id);
      Emit(Tag(id, signals));
    }

    /** The effect of one event on its agent, and the signals it sends. */
    static method React(a0: Agent, e: AgentEvent, now: nat) returns (a: Agent, signals: seq<Signal>)
      ensures a == Apply(a0, e, now) && signals == Signals(a0, e)
    {
      match e {
        case ToolStart(tool, name, sub, parent) =>
          a := AddTool(a0.(lastActivity := now, waiting := false, idleTimer := None), tool, name, sub, parent);
          if !Exempt(name) {
            a := a.(permissionTimer := Some(now));
          }
          signals := [ToolStarted(tool, name, sub, parent)];
        case ToolDone(tool, sub, parent) =>
          a := RemoveTool(a0.(lastActivity := now), tool, sub, parent);
          signals := [ToolFinished(tool, sub, parent)];
        case TurnEnd =>
          a := a0.(lastActivity := now, active := {}, names := map[], subIds := map[], subNames := map[]);
          a := a.(waiting := true, permissionSent := false, hadTools := false);
          a := a.(permissionTimer := None, idleTimer := None);
          signals := [TurnEnded];
        case Active =>
          a := a0.(lastActivity := now, waiting := false, idleTimer := None);
          signals := [];
          if a.permissionSent {
            a := a.(permissionSent := false);
            signals := [PermissionClear];
          }
          signals := signals + [BecameActive];
        case TextIdle =>
          a := a0.(idleTimer := Some(now));
          signals := [];
      }
    }

    static method AddTool(a0: Agent, tool: string, name: string, sub: bool, parent: Option<string>) returns (a: Agent)
      ensures a == StartTool(a0, tool, name, sub, parent)
    {
      a := a0;
      if sub {
        if parent.Some? {
          var p := parent.value;
          a := a.(subIds := a.subIds[p := GetSet(a.subIds, p) + {tool}]);
          a := a.(subNames := a.subNames[p := GetMap(a.subNames, p)[tool := name]]);
        }
      } else {
        a := a.(hadTools := true);
        a := a.(active := a.active + {tool}, names := a.names[tool := name]);
      }
    }

    static method RemoveTool(a0: Agent, tool: string, sub: bool, parent: Option<string>) returns (a: Agent)
      ensures a == FinishTool(a0, tool, sub, parent)
    {
      a := a0;
      if sub {
        if parent.Some? {
          var p := parent.value;
          if p in a.subIds {
            a := a.(subIds := a.subIds[p := a.subIds[p] - {tool}]);
          }
          if p in a.subNames {
            a := a.(subNames := a.subNames[p := a.subNames[p] - {tool}]);
          }
        }
      } else {
        if tool in a.names && a.names[tool] == "Task" {
          a := a.(subIds := a.subIds - {tool}, subNames := a.subNames - {tool});
        }
        a := a.(active := a.active - {tool}, names := a.names - {tool});
        if a.active == {} {
          a := a.(hadTools := false);
        }
      }
    }

    method ProcessEvents(id: string, es: seq<AgentEvent>, now: nat)
      modifies `agents, `log
      ensures ViewOf(id) == FeedAll(Ensure(old(ViewOf(id)), now), es, now)
      ensures forall x | x != id :: ViewOf(x) == old(ViewOf(x))
    {
      var _ := EnsureAgent(id, now);
      ghost var v := ViewOf(id);
      for i := 0 to |es|
        invariant ViewOf(id) == FeedAll(v, es[..i], now)
        invariant forall x | x != id :: ViewOf(x) == old(ViewOf(x))
      {
        assert es[..i + 1][..i] == es[..i];
        ProcessEvent(id, es[i], now);
      }
      assert es[..|es|] == es;
    }

    method OnDataReceived(id: string, now: nat)
      modifies `agents, `log
      ensures ViewOf(id) == Receive(old(ViewOf(id)), now)
      ensures forall x | x != id :: ViewOf(x) == old(ViewOf(x))
    {
      if id in agents {
        var a := agents[id].(lastActivity := now, permissionTimer := None, idleTimer := None);
        agents := agents[id := a.(permissionSent := false)];
        if a.permissionSent {
          // emitted directly: the suppression flag is not consulted
          TagAppend(log, id, [PermissionClear]);
          log := log + Tag(id, [PermissionClear]);
        } else {
          assert SignalsOf(log, id) + [] == SignalsOf(log, id);
        }
      }
    }

    /** The timer checks of one agent. */
    static method TickAgent(a0: Agent, now: nat) returns (a: Agent, signals: seq<Signal>)
      ensures a == Tick(a0, now) && signals == TickSignals(a0, now)
    {
      a, signals := a0, [];
      if Elapsed(a.permissionTimer, PERMISSION_DELAY, now) {
        a := a.(permissionTimer := None);
        if NonExemptActive(a) {
          a := a.(permissionSent := true);
          signals := signals + [Permission];
        }
      }
      if Elapsed(a.idleTimer, IDLE_DELAY, now) {
        a := a.(idleTimer := None, waiting := true);
        signals := signals + [WentIdle];
      }
    }

    /** Visits the agents, collects the emissions, and emits them at the end. */
    method TickTimers(now: nat)
      modifies `agents, `log
      ensures forall x :: ViewOf(x) == TickStep(old(ViewOf(x)), now)
    {
      ghost var was, sent := agents, log;
      assert forall x :: ViewOf(x) == ViewIn(was, suppress, sent, x);
      var emissions;
      agents, emissions := TickAll(agents, now);
      forall x ensures ViewIn(agents, suppress, if suppress then log else log + emissions, x) ==
                       TickStep(ViewIn(was, suppress, log, x), now) {
        TickedView(was, agents, suppress, log, emissions, now, x);
      }
      Emit(emissions);
      assert forall x :: ViewOf(x) == ViewIn(agents, suppress, log, x);
    }

    /** End of the initial scan: emission is switched on and every known agent is announced. */
    method EndScan()
      modifies `suppress, `log
      ensures forall x :: ViewOf(x) == Discover(old(ViewOf(x)))
    {
      suppress := false;
      var entries := Announce(agents.Keys);
      forall x { SignalsAppend(log, entries, x); }
      Emit(entries);
    }
  }

  /** The agents are visited in any order. */
  method TickAll(was: map<string, Agent>, now: nat) returns (agents: map<string, Agent>, emissions: Log)
    ensures agents.Keys == was.Keys
    ensures forall x | x in agents :: agents[x] == Tick(was[x], now)
    ensures forall x :: SignalsOf(emissions, x) == if x in was then TickSignals(was[x], now) else []
  {
    agents, emissions := was, [];
    var todo := was.Keys;
    while todo != {}
      invariant TickedSoFar(was, now, todo, agents, emissions)
      decreases todo
    {
      var id :| id in todo;
      var a, signals := AgentStateManager.TickAgent(was[id], now);
      TickOne(was, now, todo, agents, emissions, id);
      agents, emissions, todo := agents[id := a], emissions + Tag(id, signals), todo - {id};
    }
  }

  /** What a tick makes each agent send. */
  function Ticking(was: map<string, Agent>, now: nat): string -> seq<Signal> {
    (x: string) => if x in was then TickSignals(was[x], now) else []
  }

  /** Every agent but those in `todo` has been ticked and has had its signals collected. */
  ghost predicate TickedSoFar(was: map<string, Agent>, now: nat, todo: set<string>, agents: map<string, Agent>,
                              emissions: Log) {
    && todo <= agents.Keys == was.Keys
    && (forall x | x in agents :: agents[x] == if x in todo then was[x] else Tick(was[x], now))
    && Collects(emissions, was.Keys - todo, Ticking(was, now))
  }

  lemma TickOne(was: map<string, Agent>, now: nat, todo: set<string>, agents: map<string, Agent>, emissions: Log,
                id: string)
    requires TickedSoFar(was, now, todo, agents, emissions) && id in todo
    ensures TickedSoFar(was, now, todo - {id}, agents[id := Tick(was[id], now)],
                        emissions + Tag(id, TickSignals(was[id], now)))
  {
    var of := Ticking(was, now);
    assert of(id) == TickSignals(was[id], now);
    CollectOne(emissions, was.Keys - todo, of, id);
    assert was.Keys - todo + {id} == was.Keys - (todo - {id});
  }

  lemma TickedView(was: map<string, Agent>, agents: map<string, Agent>, suppress: bool, log: Log, emissions: Log,
                   now: nat, x: string)
    requires agents.Keys == was.Keys && (x in agents ==> agents[x] == Tick(was[x], now))
    requires SignalsOf(emissions, x) == if x in was then TickSignals(was[x], now) else []
    ensures ViewIn(agents, suppress, if suppress then log else log + emissions, x) ==
            TickStep(ViewIn(was, suppress, log, x), now)
  {
    SignalsAppend(log, emissions, x);
    assert SignalsOf(log, x) + [] == SignalsOf(log, x);
  }

  /** One "discovered" per known agent, in any order. */
  method Announce(ids: set<string>) returns (entries: Log)
    ensures forall x :: SignalsOf(entries, x) == if x in ids then [Discovered] else []
  {
    entries := [];
    var todo := ids;
    ghost var each := (x: string) => [Discovered];
    while todo != {}
      invariant todo <= ids && Collects(entries, ids - todo, each)
      decreases todo
    {
      var id :| id in todo;
      CollectOne(entries, ids - todo, each, id);
      assert ids - todo + {id} == ids - (todo - {id});
      entries, todo := entries + Tag(id, [Discovered]), todo - {id};
    }
    assert ids - {} == ids;
  }
}
