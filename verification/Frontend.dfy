/** The frontend's event handler: numeric ids for agents, a set of active tools per numeric id, and the list of tool
    activities it displays. */
module Frontend {
  import opened Basics
  import opened AgentMachine
  import opened EventLog
  import opened Simulation

  function ToolsIn(idMap: map<string, nat>, tools: map<nat, set<string>>, agent: string): set<string> {
    if agent in idMap then SetIn(tools, idMap[agent]) else {}
  }

  function SetIn(tools: map<nat, set<string>>, n: nat): set<string> {
    if n in tools then tools[n] else {}
  }

  lemma OthersKeepTools(idMap: map<string, nat>, tools: map<nat, set<string>>, tools': map<nat, set<string>>,
                        agent: string)
    requires agent in idMap
    requires forall a, b | a in idMap && b in idMap && idMap[a] == idMap[b] :: a == b
    requires tools - {idMap[agent]} == tools' - {idMap[agent]}
    ensures forall a | a != agent :: ToolsIn(idMap, tools', a) == ToolsIn(idMap, tools, a)
  {
    var n := idMap[agent];
    forall a | a != agent ensures ToolsIn(idMap, tools', a) == ToolsIn(idMap, tools, a) {
      if a in idMap {
        var m := idMap[a];
        assert m != n;
        assert m in tools <==> m in tools - {n};
        assert m in tools' <==> m in tools' - {n};
        assert m in tools ==> tools[m] == (tools - {n})[m] == (tools' - {n})[m];
      }
    }
  }

  class AgentEvents {
    var idMap: map<string, nat>           // agentIdMap
    var nextId: nat                       // nextAgentNumericId
    var tools: map<nat, set<string>>      // activeToolCountRef

    /** Numeric ids are never shared, and tool sets exist only for ids given out. */
    ghost predicate Valid()
      reads this
    {
      && (forall a | a in idMap :: idMap[a] < nextId)
      && (forall a, b | a in idMap && b in idMap && idMap[a] == idMap[b] :: a == b)
      && (forall n | n in tools :: n < nextId)
    }

    function ToolsOf(agent: string): set<string>
      reads this
    {
      ToolsIn(idMap, tools, agent)
    }

    constructor ()
      ensures Valid() && forall a :: ToolsOf(a) == {}
      ensures idMap == map[] && nextId == 1 && tools == map[]
    {
      idMap, nextId, tools := map[], 1, map[];
    }

    method NumericId(agent: string) returns (n: nat)
      requires Valid()
      modifies `idMap, `nextId
      ensures Valid() && agent in idMap && idMap[agent] == n
      ensures forall a | a in old(idMap) :: a in idMap && idMap[a] == old(idMap[a])
      ensures idMap.Keys == old(idMap.Keys) + {agent}
      ensures agent in old(idMap) ==> nextId == old(nextId)
      ensures agent !in old(idMap) ==> n == old(nextId) && nextId == n + 1
      ensures forall a :: ToolsOf(a) == old(ToolsOf(a))
    {
      if agent !in idMap {
        idMap := idMap[agent := nextId];
        nextId := nextId + 1;
      }
      n := idMap[agent];
    }

    /** What a signal does to the tool set of a numeric id. */
    method UpdateTools(n: nat, s: Signal)
      modifies `tools
      ensures tools - {n} == old(tools) - {n} && tools.Keys <= old(tools).Keys + {n}
      ensures SetIn(tools, n) == Show(SetIn(old(tools), n), s)
    {
      match s {
        case ToolStarted(id, _, _, _) =>
          tools := tools[n := (if n in tools then tools[n] else {}) + {id}];
        case ToolFinished(id, _, _) =>
          if n in tools {
            tools := tools[n := tools[n] - {id}];
          }
        case TurnEnded => tools := tools - {n};
        case _ =>
      }
    }

    /** One event: the tool set of its agent follows the signal, every other agent's stays as it is. */
    method Handle(agent: string, s: Signal)
      requires Valid()
      modifies this
      ensures Valid()
      ensures ToolsOf(agent) == Show(old(ToolsOf(agent)), s)
      ensures forall a | a != agent :: ToolsOf(a) == old(ToolsOf(a))
    {
      var n := NumericId(agent);
      ghost var before := tools;
      UpdateTools(n, s);
      OthersKeepTools(idMap, before, tools, agent);
    }

    /** Any stream of events: each agent's set depends on its own signals only. */
    method HandleAll(log: Log)
      requires Valid() && forall a :: ToolsOf(a) == {}
      modifies this
      ensures Valid() && forall a :: ToolsOf(a) == Shown(SignalsOf(log, a))
    {
      for i := 0 to |log|
        invariant Valid() && forall a :: ToolsOf(a) == Shown(SignalsOf(log[..i], a))
      {
        ghost var before, agent, s := log[..i], log[i].0, log[i].1;
        assert log[..i + 1] == before + [(agent, s)];
        forall a ensures SignalsOf(log[..i + 1], a) ==
                         if a == agent then SignalsOf(before, a) + [s] else SignalsOf(before, a) {
          SignalsSnoc(before, agent, s, a);
        }
        ShownSnoc(SignalsOf(before, agent), s);
        Handle(log[i].0, log[i].1);
      }
      assert log[..|log|] == log;
    }

    /** Switching projects: everything is forgotten and numbering restarts. */
    method ClearAll()
      modifies this
      ensures Valid() && forall a :: ToolsOf(a) == {}
      ensures idMap == map[] && nextId == 1 && tools == map[]
    {
      idMap, nextId, tools := map[], 1, map[];
    }
  }

  // ----- the displayed list -----

  datatype Activity = Activity(id: string, done: bool, wait: bool)

  predicate Lists(list: seq<Activity>, id: string) {
    exists i :: 0 <= i < |list| && list[i].id == id
  }

  function Each(list: seq<Activity>, f: Activity -> Activity): seq<Activity> {
    seq(|list|, i requires 0 <= i < |list| => f(list[i]))
  }

  /** How a signal changes the list displayed for its agent. */
  function Display(list: seq<Activity>, s: Signal): seq<Activity> {
    match s
    case ToolStarted(id, _, _, _) => if Lists(list, id) then list else list + [Activity(id, false, false)]
    case ToolFinished(id, _, _) => Each(list, (t: Activity) => if t.id == id then t.(done := true) else t)
    case TurnEnded => []
    case Permission => Each(list, (t: Activity) => if t.done then t else t.(wait := true))
    case PermissionClear => Each(list, (t: Activity) => t.(wait := false))
    case _ => list
  }

  function Displayed(log: seq<Signal>): seq<Activity> {
    if log == [] then [] else Display(Displayed(log[..|log| - 1]), log[|log| - 1])
  }

  function Pending(list: seq<Activity>): set<string> {
    set i | 0 <= i < |list| && !list[i].done :: list[i].id
  }

  /** The displayed pending tools are the active set. */
  predicate InSync(log: seq<Signal>) {
    Pending(Displayed(log)) == Shown(log)
  }

  /** The tool `id` was started at `i`, and the turn has not ended since. */
  ghost predicate StartedAt(log: seq<Signal>, id: string, i: nat) {
    && i < |log| && log[i].ToolStarted? && log[i].id == id
    && forall m | i < m < |log| :: !log[m].TurnEnded?
  }

  ghost predicate Started(log: seq<Signal>, id: string) {
    exists i: nat :: StartedAt(log, id, i)
  }

  /** Started at `i` and not finished since. */
  ghost predicate RunningAt(log: seq<Signal>, id: string, i: nat) {
    StartedAt(log, id, i) && forall m | i < m < |log| :: !(log[m].ToolFinished? && log[m].id == id)
  }

  ghost predicate Running(log: seq<Signal>, id: string) {
    exists i: nat :: RunningAt(log, id, i)
  }

  /** Step `k` starts a tool that already ran, and finished, in the same turn. */
  ghost predicate Restarts(log: seq<Signal>, k: nat)
    requires k < |log|
  {
    log[k].ToolStarted? && Started(log[..k], log[k].id) && !Running(log[..k], log[k].id)
  }

  lemma StartedSnoc(log: seq<Signal>, s: Signal, id: string)
    ensures Started(log + [s], id) <==> (s.ToolStarted? && s.id == id) || (Started(log, id) && !s.TurnEnded?)
  {
    var log' := log + [s];
    if i: nat :| StartedAt(log', id, i) && i < |log| {
      assert StartedAt(log, id, i) by {
        assert forall m | i <= m < |log| :: log[m] == log'[m];
      }
      assert log'[|log|] == s;
    }
    if i: nat :| StartedAt(log, id, i) && !s.TurnEnded? {
      assert StartedAt(log', id, i);
    }
    if s.ToolStarted? && s.id == id {
      assert StartedAt(log', id, |log|);
    }
  }

  lemma RunningSnoc(log: seq<Signal>, s: Signal, id: string)
    ensures Running(log + [s], id) <==>
            (s.ToolStarted? && s.id == id) || (Running(log, id) && !s.TurnEnded? && !(s.ToolFinished? && s.id == id))
  {
    var log' := log + [s];
    if i: nat :| RunningAt(log', id, i) && i < |log| {
      assert RunningAt(log, id, i) by {
        assert forall m | i <= m < |log| :: log[m] == log'[m];
      }
      assert log'[|log|] == s;
    }
    if i: nat :| RunningAt(log, id, i) && !s.TurnEnded? && !(s.ToolFinished? && s.id == id) {
      assert RunningAt(log', id, i);
    }
    if s.ToolStarted? && s.id == id {
      assert RunningAt(log', id, |log|);
    }
  }

  lemma ListsStep(list: seq<Activity>, s: Signal, id: string)
    ensures Lists(Display(list, s), id) <==> (s.ToolStarted? && s.id == id) || (Lists(list, id) && !s.TurnEnded?)
  {
    var list' := Display(list, s);
    if i :| 0 <= i < |list| && list[i].id == id && !s.TurnEnded? {
      assert list'[i].id == id;
    }
    if s.ToolStarted? && s.id == id && !Lists(list, id) {
      assert list'[|list|].id == id;
    }
  }

  /** The list holds exactly the tools started in the turn; the set, those still running. */
  lemma {:induction false} ListAndSetFromHistory(log: seq<Signal>, id: string)
    ensures Lists(Displayed(log), id) <==> Started(log, id)
    ensures id in Shown(log) <==> Running(log, id)
  {
    if log != [] {
      var front, last := log[..|log| - 1], log[|log| - 1];
      ListAndSetFromHistory(front, id);
      assert log == front + [last];
      StartedSnoc(front, last, id);
      RunningSnoc(front, last, id);
      ListsStep(Displayed(front), last, id);
    }
  }

  lemma StartPending(list: seq<Activity>, id: string)
    ensures !Lists(list, id) ==> Pending(list + [Activity(id, false, false)]) == Pending(list) + {id}
  {
    var list' := list + [Activity(id, false, false)];
    if !Lists(list, id) {
      forall x | x in Pending(list) + {id} ensures x in Pending(list') {
        if x == id {
          assert list'[|list|].id == x;
        } else {
          var i :| 0 <= i < |list| && !list[i].done && list[i].id == x;
          assert list'[i] == list[i];
        }
      }
    }
  }

  lemma FinishPending(list: seq<Activity>, id: string)
    ensures Pending(Each(list, (t: Activity) => if t.id == id then t.(done := true) else t)) == Pending(list) - {id}
  {
    var list' := Each(list, (t: Activity) => if t.id == id then t.(done := true) else t);
    forall x | x in Pending(list) - {id} ensures x in Pending(list') {
      var i :| 0 <= i < |list| && !list[i].done && list[i].id == x;
      assert list'[i].id == x && !list'[i].done;
    }
  }

  lemma FlagPending(list: seq<Activity>, f: Activity -> Activity)
    requires forall t :: f(t).id == t.id && f(t).done == t.done
    ensures Pending(Each(list, f)) == Pending(list)
  {
    var list' := Each(list, f);
    forall x | x in Pending(list) ensures x in Pending(list') {
      var i :| 0 <= i < |list| && !list[i].done && list[i].id == x;
      assert list'[i].id == x && !list'[i].done;
    }
  }

  /** One more signal keeps list and set in step exactly if it is no restart. */
  lemma SyncStep(list: seq<Activity>, tools: set<string>, s: Signal)
    requires Pending(list) == tools
    ensures Pending(Display(list, s)) == Show(tools, s) <==>
            !(s.ToolStarted? && Lists(list, s.id) && s.id !in tools)
  {
    match s
    case ToolStarted(id, _, _, _) => StartPending(list, id);
    case ToolFinished(id, _, _) => FinishPending(list, id);
    case Permission => FlagPending(list, (t: Activity) => if t.done then t else t.(wait := true));
    case PermissionClear => FlagPending(list, (t: Activity) => t.(wait := false));
    case _ =>
  }

  lemma RestartsPrefix(log: seq<Signal>, m: nat, k: nat)
    requires k < m <= |log|
    ensures Restarts(log[..m], k) <==> Restarts(log, k)
  {
    assert log[..m][..k] == log[..k] && log[..m][k] == log[k];
  }

  /** The last signal of a stream that was in step before it. */
  lemma LastInSync(log: seq<Signal>)
    requires log != [] && InSync(log[..|log| - 1])
    ensures InSync(log) <==> !Restarts(log, |log| - 1)
  {
    var front, last := log[..|log| - 1], log[|log| - 1];
    SyncStep(Displayed(front), Shown(front), last);
    if last.ToolStarted? {
      ListAndSetFromHistory(front, last.id);
    }
  }

  ghost predicate AlwaysInSync(log: seq<Signal>) {
    forall n | 0 <= n <= |log| :: InSync(log[..n])
  }

  lemma AlwaysGrows(log: seq<Signal>)
    requires log != []
    ensures AlwaysInSync(log) <==> AlwaysInSync(log[..|log| - 1]) && InSync(log)
    ensures AlwaysInSync(log[..|log| - 1]) ==> InSync(log[..|log| - 1])
  {
    var m := |log| - 1;
    var front := log[..m];
    assert forall n | 0 <= n <= m :: front[..n] == log[..n];
    assert log[..|log|] == log && front[..m] == front;
  }

  /** List and set agree throughout a stream exactly if no tool id is started again after finishing in its turn. */
  lemma {:induction false} DisplayFollowsSetIff(log: seq<Signal>)
    ensures AlwaysInSync(log) <==> (forall k | 0 <= k < |log| :: !Restarts(log, k))
  {
    if log == [] {
      assert log[..0] == [];
    } else {
      var m := |log| - 1;
      DisplayFollowsSetIff(log[..m]);
      forall k | 0 <= k < m ensures Restarts(log[..m], k) <==> Restarts(log, k) {
        RestartsPrefix(log, m, k);
      }
      AlwaysGrows(log);
      if InSync(log[..m]) {
        LastInSync(log);
      }
    }
  }

  /** An id that starts again after finishing is active but still displayed as done. */
  lemma RestartLeavesListBehind(id: string, name: string)
    ensures !InSync([ToolStarted(id, name, false, None), ToolFinished(id, false, None),
                     ToolStarted(id, name, false, None)])
  {
    var start, finish := ToolStarted(id, name, false, None), ToolFinished(id, false, None);
    var log := [start, finish, start];
    assert log[..2] == [start, finish] && [start, finish][..1] == [start] && [start][..0] == [];
    var one := [Activity(id, false, false)];
    assert Displayed([]) == [];
    assert Displayed([start]) == [] + one == one;
    assert Displayed([start, finish]) == Display(one, finish) == [Activity(id, true, false)];
    assert Lists([Activity(id, true, false)], id) by {
      assert [Activity(id, true, false)][0].id == id;
    }
    assert Displayed(log) == [Activity(id, true, false)];
    assert id !in Pending(Displayed(log));
    assert Shown(log) == Show(Shown([start, finish]), start);
  }

  // ----- waiting for permission -----

  predicate Waits(list: seq<Activity>, id: string) {
    exists i :: 0 <= i < |list| && list[i].id == id && list[i].wait
  }

  /** Signal `i` asks for permission while the tool is displayed as pending, and nothing since has cleared it. */
  ghost predicate AskedAt(log: seq<Signal>, id: string, i: nat) {
    && i < |log| && log[i] == Permission && id in Pending(Displayed(log[..i]))
    && forall m | i < m < |log| :: log[m] != PermissionClear && log[m] != TurnEnded
  }

  ghost predicate Asked(log: seq<Signal>, id: string) {
    exists i: nat :: AskedAt(log, id, i)
  }

  lemma WaitsKept(list: seq<Activity>, list': seq<Activity>, id: string)
    requires |list| <= |list'|
    requires forall i | 0 <= i < |list| :: list'[i].id == list[i].id && list'[i].wait == list[i].wait
    requires forall i | |list| <= i < |list'| :: !list'[i].wait
    ensures Waits(list', id) <==> Waits(list, id)
  {
    if i :| 0 <= i < |list| && list[i].id == id && list[i].wait {
      assert list'[i].id == id && list'[i].wait;
    }
  }

  lemma WaitsMarked(list: seq<Activity>, id: string)
    ensures Waits(Display(list, Permission), id) <==> Waits(list, id) || id in Pending(list)
  {
    var list' := Display(list, Permission);
    if i :| 0 <= i < |list| && list[i].id == id && list[i].wait {
      assert list'[i].id == id && list'[i].wait;
    }
    if i :| 0 <= i < |list| && !list[i].done && list[i].id == id {
      assert list'[i].id == id && list'[i].wait;
    }
  }

  lemma WaitsStep(list: seq<Activity>, s: Signal, id: string)
    ensures Waits(Display(list, s), id) <==>
            (s == Permission && id in Pending(list)) ||
            (Waits(list, id) && s != PermissionClear && s != TurnEnded)
  {
    match s
    case Permission => WaitsMarked(list, id);
    case PermissionClear =>
    case TurnEnded =>
    case _ => WaitsKept(list, Display(list, s), id);
  }

  lemma AskedSnoc(log: seq<Signal>, s: Signal, id: string)
    ensures Asked(log + [s], id) <==>
            (s == Permission && id in Pending(Displayed(log))) ||
            (Asked(log, id) && s != PermissionClear && s != TurnEnded)
  {
    var log' := log + [s];
    assert log'[..|log|] == log && log'[|log|] == s;
    forall i: nat | i < |log|
      ensures AskedAt(log', id, i) <==> AskedAt(log, id, i) && s != PermissionClear && s != TurnEnded
    {
      AskedEarlier(log, s, id, i);
    }
    assert AskedAt(log', id, |log|) <==> s == Permission && id in Pending(Displayed(log));
    if i: nat :| AskedAt(log, id, i) && s != PermissionClear && s != TurnEnded {
      assert AskedAt(log', id, i);
    }
  }

  lemma AskedEarlier(log: seq<Signal>, s: Signal, id: string, i: nat)
    requires i < |log|
    ensures AskedAt(log + [s], id, i) <==> AskedAt(log, id, i) && s != PermissionClear && s != TurnEnded
  {
    var log' := log + [s];
    assert log'[..i] == log[..i];
    assert forall m | 0 <= m < |log| :: log'[m] == log[m];
    assert log'[|log|] == s;
  }

  /** A tool is displayed as waiting for permission exactly if permission was asked for while it was pending, and since
      then neither was the request withdrawn nor the turn ended. */
  lemma {:induction false} WaitsIff(log: seq<Signal>, id: string)
    ensures Waits(Displayed(log), id) <==> Asked(log, id)
  {
    if log != [] {
      var front, last := log[..|log| - 1], log[|log| - 1];
      WaitsIff(front, id);
      WaitsStep(Displayed(front), last, id);
      AskedSnoc(front, last, id);
      assert log == front + [last];
    }
  }
}
