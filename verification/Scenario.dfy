/** The leak-hunting scenario: a list of elements drawn from a random stream, its interpreter, and the direct run of the
    same scenario. */
module Scenario {
  import opened Basics

  // ----- runtime operations -----

  datatype Op =
    | CreateRoot
    | CreateChild(parent: nat)
    | CreateTask(region: nat)
    | Schedule(task: nat, lane: nat)
    | CreateObligation(kind: nat, task: nat, region: nat)
    | Commit(id: nat)
    | Abort(id: nat)
    | CancelRequest(region: nat)
    | AdvanceTime(nanos: nat)
    | RunUntilQuiescent

  /** The runtime answers a creation by an id or a refusal that depends on everything done to it so far. */
  type Answers = seq<Op> -> Option<nat>

  /** The operations issued so far, and whether every creation among them succeeded. */
  datatype Runtime = Runtime(log: seq<Op>, ok: bool)

  const FRESH := Runtime([], true)

  function Do(rt: Runtime, op: Op): Runtime {
    rt.(log := rt.log + [op])
  }

  function Answer(ids: Answers, rt: Runtime, op: Op): Option<nat> {
    ids(rt.log + [op])
  }

  function Create(ids: Answers, rt: Runtime, op: Op): Runtime {
    Runtime(rt.log + [op], rt.ok && Answer(ids, rt, op).Some?)
  }

  datatype Tracked = Tracked(id: nat, commit: bool, late: bool)

  function ResolveOp(o: Tracked): Op {
    if o.commit then Commit(o.id) else Abort(o.id)
  }

  /** What resolving a list of obligations issues: nothing for late ones. */
  function ResolveOps(os: seq<Tracked>): seq<Op> {
    if os == [] then []
    else ResolveOps(os[..|os| - 1]) + if os[|os| - 1].late then [] else [ResolveOp(os[|os| - 1])]
  }

  function Resolve(rt: Runtime, os: seq<Tracked>): Runtime {
    rt.(log := rt.log + ResolveOps(os))
  }

  function Closing(rt: Runtime): Runtime {
    Do(Do(rt, AdvanceTime(1_000_000)), RunUntilQuiescent)
  }

  // ----- the random stream -----

  /** Raw 64-bit draws by position. */
  type Draws = nat -> nat

  function Draw(draws: Draws, pos: nat, n: nat): nat
    requires n > 0
  {
    draws(pos) % n
  }

  function Chance(draws: Draws, pos: nat, percent: nat): bool {
    Draw(draws, pos, 100) < percent
  }

  function Rare(draws: Draws, pos: nat): bool {
    Draw(draws, pos, 10_000) == 0
  }

  function RegionOf(task: nat): nat {
    if task % 3 != 0 then 1 else 2
  }

  // ----- compiling: the element list -----

  datatype Element =
    | ERegion(region: nat, parent: nat)
    | ESpawn(task: nat, region: nat, lane: nat)
    | EObligation(task: nat, region: nat, kind: nat, commit: bool, late: bool)
    | ECancel(region: nat)
    | EAdvance(nanos: nat)

  datatype Compiler = Compiler(elems: seq<Element>, pos: nat)

  function CompileObligation(draws: Draws, i: nat, j: nat, c: Compiler): Compiler {
    var first := RegionOf(i) == 1;
    Compiler(c.elems + [EObligation(i, RegionOf(i), (i + j) % 4, Chance(draws, c.pos, 60),
                                    first && Rare(draws, c.pos + 1))],
             c.pos + if first then 2 else 1)
  }

  function CompileObligations(draws: Draws, i: nat, j: nat, n: nat, c: Compiler): Compiler
    decreases n - j
  {
    if j >= n then c else CompileObligations(draws, i, j + 1, n, CompileObligation(draws, i, j, c))
  }

  function SpawnedAs(i: nat, lane: nat, c: Compiler): Compiler {
    Compiler(c.elems + [ESpawn(i, RegionOf(i), lane)], c.pos + 2)
  }

  function CompileTask(draws: Draws, i: nat, c: Compiler): Compiler {
    CompileObligations(draws, i, 0, 1 + Draw(draws, c.pos + 1, 3), SpawnedAs(i, Draw(draws, c.pos, 4), c))
  }

  function CompileTasks(draws: Draws, i: nat, n: nat, c: Compiler): Compiler
    decreases n - i
  {
    if i >= n then c else CompileTasks(draws, i + 1, n, CompileTask(draws, i, c))
  }

  /** With the given chance, move the clock by a random amount. */
  function CompileAdvance(draws: Draws, percent: nat, bound: nat, c: Compiler): Compiler
    requires bound > 0
  {
    if Chance(draws, c.pos, percent)
    then Compiler(c.elems + [EAdvance(Draw(draws, c.pos + 1, bound) + 1)], c.pos + 2)
    else c.(pos := c.pos + 1)
  }

  function CompileEnd(draws: Draws, c: Compiler): Compiler {
    var a := CompileAdvance(draws, 50, 100_000, c);
    CompileAdvance(draws, 30, 50_000, a.(elems := a.elems + [ECancel(1)]))
  }

  const REGIONS := Compiler([ERegion(1, 0), ERegion(2, 0)], 0)

  function Compile(draws: Draws, tasks: nat): seq<Element> {
    CompileEnd(draws, CompileTasks(draws, 0, tasks, REGIONS)).elems
  }

  // ----- interpreting -----

  datatype Interp = Interp(rt: Runtime, regions: map<nat, nat>, tasks: map<nat, nat>, obligations: seq<Tracked>,
                           resolved: bool)

  /** The root region is always created; a refusal of it has no representation in the source either. */
  function InterpInit(root: nat): Interp {
    Interp(Do(FRESH, CreateRoot), map[0 := root], map[], [], false)
  }

  function InterpStep(ids: Answers, s: Interp, e: Element): Interp {
    match e
    case ERegion(region, parent) =>
      if parent !in s.regions then s
      else
        var op := CreateChild(s.regions[parent]);
        var id := Answer(ids, s.rt, op);
        s.(rt := Create(ids, s.rt, op), regions := if id.Some? then s.regions[region := id.value] else s.regions)
    case ESpawn(task, region, lane) =>
      if region !in s.regions then s
      else
        var op := CreateTask(s.regions[region]);
        var id := Answer(ids, s.rt, op);
        var rt := Create(ids, s.rt, op);
        if id.None? then s.(rt := rt)
        else s.(rt := Do(rt, Schedule(id.value, lane)), tasks := s.tasks[task := id.value])
    case EObligation(task, region, kind, commit, late) =>
      if task !in s.tasks || region !in s.regions then s
      else
        var op := CreateObligation(kind, s.tasks[task], s.regions[region]);
        var id := Answer(ids, s.rt, op);
        s.(rt := Create(ids, s.rt, op),
           obligations := if id.Some? then s.obligations + [Tracked(id.value, commit, late)] else s.obligations)
    case ECancel(region) =>
      var rt := if s.resolved then s.rt else Resolve(s.rt, s.obligations);
      s.(rt := if region in s.regions then Do(rt, CancelRequest(s.regions[region])) else rt, resolved := true)
    case EAdvance(nanos) => s.(rt := Do(s.rt, AdvanceTime(nanos)))
  }

  function InterpAll(ids: Answers, root: nat, es: seq<Element>): Interp {
    if es == [] then InterpInit(root)
    else InterpStep(ids, InterpAll(ids, root, es[..|es| - 1]), es[|es| - 1])
  }

  function Finished(s: Interp): Runtime {
    Closing(if s.resolved then s.rt else Resolve(s.rt, s.obligations))
  }

  lemma InterpSnoc(ids: Answers, root: nat, es: seq<Element>, e: Element)
    ensures InterpAll(ids, root, es + [e]) == InterpStep(ids, InterpAll(ids, root, es), e)
  {
    assert (es + [e])[..|es + [e]| - 1] == es;
  }

  // ----- running directly -----

  datatype Direct = Direct(rt: Runtime, pos: nat, obligations: seq<Tracked>)

  function DirectObligation(ids: Answers, draws: Draws, i: nat, j: nat, task: nat, region: nat, target: nat, d: Direct)
    : Direct
  {
    var commit := Chance(draws, d.pos, 60);
    var op := CreateObligation((i + j) % 4, task, region);
    var id := Answer(ids, d.rt, op);
    var rt := Create(ids, d.rt, op);
    if id.None? then Direct(rt, d.pos + 1, d.obligations)
    else
      var first := region == target;
      Direct(rt, d.pos + (if first then 2 else 1),
             d.obligations + [Tracked(id.value, commit, first && Rare(draws, d.pos + 1))])
  }

  function DirectObligations(ids: Answers, draws: Draws, i: nat, j: nat, n: nat, task: nat, region: nat, target: nat,
                             d: Direct): Direct
    decreases n - j
  {
    if j >= n then d
    else DirectObligations(ids, draws, i, j + 1, n, task, region, target,
                           DirectObligation(ids, draws, i, j, task, region, target, d))
  }

  function Scheduled(ids: Answers, region: nat, task: nat, lane: nat, d: Direct): Direct {
    d.(rt := Do(Create(ids, d.rt, CreateTask(region)), Schedule(task, lane)), pos := d.pos + 2)
  }

  function DirectTask(ids: Answers, draws: Draws, i: nat, target: nat, survivor: nat, d: Direct): Direct {
    var region := if i % 3 != 0 then target else survivor;
    var op := CreateTask(region);
    var task := Answer(ids, d.rt, op);
    if task.None? then d.(rt := Create(ids, d.rt, op))
    else
      DirectObligations(ids, draws, i, 0, 1 + Draw(draws, d.pos + 1, 3), task.value, region, target,
                        Scheduled(ids, region, task.value, Draw(draws, d.pos, 4), d))
  }

  function DirectTasks(ids: Answers, draws: Draws, i: nat, n: nat, target: nat, survivor: nat, d: Direct): Direct
    decreases n - i
  {
    if i >= n then d
    else DirectTasks(ids, draws, i + 1, n, target, survivor, DirectTask(ids, draws, i, target, survivor, d))
  }

  function DirectAdvance(draws: Draws, percent: nat, bound: nat, d: Direct): Direct
    requires bound > 0
  {
    if Chance(draws, d.pos, percent)
    then d.(rt := Do(d.rt, AdvanceTime(Draw(draws, d.pos + 1, bound) + 1)), pos := d.pos + 2)
    else d.(pos := d.pos + 1)
  }

  function DirectEnd(draws: Draws, target: nat, d: Direct): Direct {
    var a := DirectAdvance(draws, 50, 100_000, d);
    DirectAdvance(draws, 30, 50_000, a.(rt := Do(Resolve(a.rt, a.obligations), CancelRequest(target))))
  }

  /** The two regions, in creation order; `None` where the source gives up. */
  function DirectRegions(ids: Answers, root: nat): Option<(Runtime, nat, nat)> {
    var rt := Do(FRESH, CreateRoot);
    var op := CreateChild(root);
    var target := Answer(ids, rt, op);
    if target.None? then None
    else
      var rt' := Create(ids, rt, op);
      var survivor := Answer(ids, rt', op);
      if survivor.None? then None else Some((Create(ids, rt', op), target.value, survivor.value))
  }

  function Replay(ids: Answers, draws: Draws, root: nat, tasks: nat): Option<Runtime> {
    var regions := DirectRegions(ids, root);
    if regions.None? then None
    else
      var (rt, target, survivor) := regions.value;
      Some(Closing(DirectEnd(draws, target,
                             DirectTasks(ids, draws, 0, tasks, target, survivor, Direct(rt, 0, []))).rt))
  }

  // ----- compile-then-interpret equals the direct run -----

  /** The direct run and an interpreter at the same place of the random stream. */
  ghost predicate Matched(s: Interp, target: nat, survivor: nat, pos: nat, d: Direct) {
    && s.rt == d.rt && pos == d.pos && s.obligations == d.obligations && !s.resolved
    && 1 in s.regions && s.regions[1] == target
    && 2 in s.regions && s.regions[2] == survivor
  }

  ghost predicate Runs(s: Interp, i: nat, task: nat) {
    i in s.tasks && s.tasks[i] == task
  }

  /** The direct run and the interpreter over the elements compiled so far, unless a creation has been refused. */
  ghost predicate Lockstep(ids: Answers, root: nat, target: nat, survivor: nat, c: Compiler, d: Direct) {
    d.rt.ok ==> Matched(InterpAll(ids, root, c.elems), target, survivor, c.pos, d)
  }

  lemma MatchedObligation(ids: Answers, draws: Draws, target: nat, survivor: nat, i: nat, j: nat, task: nat, s: Interp,
                          c: Compiler, d: Direct)
    requires target != survivor && Matched(s, target, survivor, c.pos, d) && Runs(s, i, task)
    ensures var c' := CompileObligation(draws, i, j, c);
            var d' := DirectObligation(ids, draws, i, j, task, if i % 3 != 0 then target else survivor, target, d);
            var s' := InterpStep(ids, s, c'.elems[|c.elems|]);
            d'.rt.ok ==> Matched(s', target, survivor, c'.pos, d') && Runs(s', i, task)
  {
  }

  lemma LockObligation(ids: Answers, draws: Draws, root: nat, target: nat, survivor: nat, i: nat, j: nat, task: nat,
                       c: Compiler, d: Direct)
    requires target != survivor && Lockstep(ids, root, target, survivor, c, d)
    requires d.rt.ok ==> Runs(InterpAll(ids, root, c.elems), i, task)
    ensures var c' := CompileObligation(draws, i, j, c);
            var d' := DirectObligation(ids, draws, i, j, task, if i % 3 != 0 then target else survivor, target, d);
            && Lockstep(ids, root, target, survivor, c', d')
            && (d'.rt.ok ==> Runs(InterpAll(ids, root, c'.elems), i, task))
  {
    if d.rt.ok {
      InterpSnoc(ids, root, c.elems, CompileObligation(draws, i, j, c).elems[|c.elems|]);
      MatchedObligation(ids, draws, target, survivor, i, j, task, InterpAll(ids, root, c.elems), c, d);
    }
  }

  lemma {:induction false} LockObligations(ids: Answers, draws: Draws, root: nat, target: nat, survivor: nat, i: nat,
                                           j: nat, n: nat, task: nat, c: Compiler, d: Direct)
    requires target != survivor && Lockstep(ids, root, target, survivor, c, d)
    requires d.rt.ok ==> Runs(InterpAll(ids, root, c.elems), i, task)
    ensures Lockstep(ids, root, target, survivor, CompileObligations(draws, i, j, n, c),
                     DirectObligations(ids, draws, i, j, n, task, if i % 3 != 0 then target else survivor, target, d))
    decreases n - j
  {
    if j < n {
      LockObligation(ids, draws, root, target, survivor, i, j, task, c, d);
      LockObligations(ids, draws, root, target, survivor, i, j + 1, n, task, CompileObligation(draws, i, j, c),
                      DirectObligation(ids, draws, i, j, task, if i % 3 != 0 then target else survivor, target, d));
    }
  }

  /** A refused creation is never forgotten. */
  lemma {:induction false} RefusedStays(ids: Answers, draws: Draws, i: nat, j: nat, n: nat, task: nat, region: nat,
                                        target: nat, d: Direct)
    requires !d.rt.ok
    ensures !DirectObligations(ids, draws, i, j, n, task, region, target, d).rt.ok
    decreases n - j
  {
    if j < n {
      RefusedStays(ids, draws, i, j + 1, n, task, region, target,
                   DirectObligation(ids, draws, i, j, task, region, target, d));
    }
  }

  lemma MatchedSpawn(ids: Answers, target: nat, survivor: nat, i: nat, lane: nat, task: nat, s: Interp, pos: nat,
                     d: Direct)
    requires Matched(s, target, survivor, pos, d)
    requires Answer(ids, d.rt, CreateTask(if i % 3 != 0 then target else survivor)) == Some(task)
    ensures var s' := InterpStep(ids, s, ESpawn(i, RegionOf(i), lane));
            && Runs(s', i, task)
            && Matched(s', target, survivor, pos + 2,
                       Scheduled(ids, if i % 3 != 0 then target else survivor, task, lane, d))
  {
  }

  /** A task that is granted, and its obligations. */
  lemma LockGranted(ids: Answers, draws: Draws, root: nat, target: nat, survivor: nat, i: nat, lane: nat, n: nat,
                    task: nat, c: Compiler, d: Direct)
    requires target != survivor && d.rt.ok && Matched(InterpAll(ids, root, c.elems), target, survivor, c.pos, d)
    requires Answer(ids, d.rt, CreateTask(if i % 3 != 0 then target else survivor)) == Some(task)
    ensures var region := if i % 3 != 0 then target else survivor;
            Lockstep(ids, root, target, survivor, CompileObligations(draws, i, 0, n, SpawnedAs(i, lane, c)),
                     DirectObligations(ids, draws, i, 0, n, task, region, target,
                                       Scheduled(ids, region, task, lane, d)))
  {
    var region := if i % 3 != 0 then target else survivor;
    InterpSnoc(ids, root, c.elems, ESpawn(i, RegionOf(i), lane));
    MatchedSpawn(ids, target, survivor, i, lane, task, InterpAll(ids, root, c.elems), c.pos, d);
    LockObligations(ids, draws, root, target, survivor, i, 0, n, task, SpawnedAs(i, lane, c),
                    Scheduled(ids, region, task, lane, d));
  }

  /** A run that has met a refusal goes on having met one. */
  lemma RefusedTask(ids: Answers, draws: Draws, i: nat, target: nat, survivor: nat, d: Direct)
    requires !d.rt.ok
    ensures !DirectTask(ids, draws, i, target, survivor, d).rt.ok
  {
    var region := if i % 3 != 0 then target else survivor;
    var task := Answer(ids, d.rt, CreateTask(region));
    if task.Some? {
      RefusedStays(ids, draws, i, 0, 1 + Draw(draws, d.pos + 1, 3), task.value, region, target,
                   Scheduled(ids, region, task.value, Draw(draws, d.pos, 4), d));
    }
  }

  lemma GrantedTask(ids: Answers, draws: Draws, i: nat, target: nat, survivor: nat, d: Direct, task: nat)
    requires Answer(ids, d.rt, CreateTask(if i % 3 != 0 then target else survivor)) == Some(task)
    ensures var region := if i % 3 != 0 then target else survivor;
            DirectTask(ids, draws, i, target, survivor, d) ==
            DirectObligations(ids, draws, i, 0, 1 + Draw(draws, d.pos + 1, 3), task, region, target,
                              Scheduled(ids, region, task, Draw(draws, d.pos, 4), d))
  {
  }

  /** A run that is refused a task, now or earlier, has met a refusal. */
  lemma TaskNotGranted(ids: Answers, draws: Draws, i: nat, target: nat, survivor: nat, d: Direct)
    requires !d.rt.ok || Answer(ids, d.rt, CreateTask(if i % 3 != 0 then target else survivor)).None?
    ensures !DirectTask(ids, draws, i, target, survivor, d).rt.ok
  {
    if !d.rt.ok {
      RefusedTask(ids, draws, i, target, survivor, d);
    }
  }

  lemma LockTask(ids: Answers, draws: Draws, root: nat, target: nat, survivor: nat, i: nat, c: Compiler, d: Direct)
    requires target != survivor && Lockstep(ids, root, target, survivor, c, d)
    ensures Lockstep(ids, root, target, survivor, CompileTask(draws, i, c),
                     DirectTask(ids, draws, i, target, survivor, d))
  {
    var task := Answer(ids, d.rt, CreateTask(if i % 3 != 0 then target else survivor));
    if !d.rt.ok || task.None? {
      TaskNotGranted(ids, draws, i, target, survivor, d);
    } else {
      LockGrantedTask(ids, draws, root, target, survivor, i, task.value, c, d);
    }
  }

  lemma LockGrantedTask(ids: Answers, draws: Draws, root: nat, target: nat, survivor: nat, i: nat, task: nat,
                        c: Compiler, d: Direct)
    requires target != survivor && d.rt.ok && Matched(InterpAll(ids, root, c.elems), target, survivor, c.pos, d)
    requires Answer(ids, d.rt, CreateTask(if i % 3 != 0 then target else survivor)) == Some(task)
    ensures Lockstep(ids, root, target, survivor, CompileTask(draws, i, c),
                     DirectTask(ids, draws, i, target, survivor, d))
  {
    var lane, n := Draw(draws, d.pos, 4), 1 + Draw(draws, d.pos + 1, 3);
    GrantedTask(ids, draws, i, target, survivor, d, task);
    LockGranted(ids, draws, root, target, survivor, i, lane, n, task, c, d);
    assert c.pos == d.pos;
    assert CompileTask(draws, i, c) == CompileObligations(draws, i, 0, n, SpawnedAs(i, lane, c));
  }

  lemma {:induction false} LockTasks(ids: Answers, draws: Draws, root: nat, target: nat, survivor: nat, i: nat, n: nat,
                                     c: Compiler, d: Direct)
    requires target != survivor && Lockstep(ids, root, target, survivor, c, d)
    ensures Lockstep(ids, root, target, survivor, CompileTasks(draws, i, n, c),
                     DirectTasks(ids, draws, i, n, target, survivor, d))
    decreases n - i
  {
    if i < n {
      LockTask(ids, draws, root, target, survivor, i, c, d);
      LockTasks(ids, draws, root, target, survivor, i + 1, n, CompileTask(draws, i, c),
                DirectTask(ids, draws, i, target, survivor, d));
    }
  }

  lemma LockAdvance(ids: Answers, draws: Draws, root: nat, percent: nat, bound: nat, c: Compiler, d: Direct)
    requires bound > 0 && c.pos == d.pos && InterpAll(ids, root, c.elems).rt == d.rt
    ensures var c', d' := CompileAdvance(draws, percent, bound, c), DirectAdvance(draws, percent, bound, d);
            && c'.pos == d'.pos
            && InterpAll(ids, root, c'.elems) == InterpAll(ids, root, c.elems).(rt := d'.rt)
            && d'.obligations == d.obligations
  {
    InterpSnoc(ids, root, c.elems, EAdvance(Draw(draws, c.pos + 1, bound) + 1));
  }

  lemma LockEnd(ids: Answers, draws: Draws, root: nat, target: nat, survivor: nat, c: Compiler, d: Direct)
    requires Lockstep(ids, root, target, survivor, c, d) && d.rt.ok
    ensures var s := InterpAll(ids, root, CompileEnd(draws, c).elems);
            s.rt == DirectEnd(draws, target, d).rt && s.resolved
  {
    LockAdvance(ids, draws, root, 50, 100_000, c, d);
    var a, b := CompileAdvance(draws, 50, 100_000, c), DirectAdvance(draws, 50, 100_000, d);
    InterpSnoc(ids, root, a.elems, ECancel(1));
    LockAdvance(ids, draws, root, 30, 50_000, a.(elems := a.elems + [ECancel(1)]),
                b.(rt := Do(Resolve(b.rt, b.obligations), CancelRequest(target))));
  }

  lemma LockRegions(ids: Answers, root: nat, rt: Runtime, target: nat, survivor: nat)
    requires DirectRegions(ids, root) == Some((rt, target, survivor))
    ensures Lockstep(ids, root, target, survivor, REGIONS, Direct(rt, 0, []))
  {
    var s0 := InterpInit(root);
    assert InterpAll(ids, root, []) == s0;
    InterpSnoc(ids, root, [], ERegion(1, 0));
    InterpSnoc(ids, root, [ERegion(1, 0)], ERegion(2, 0));
    assert [] + [ERegion(1, 0)] == [ERegion(1, 0)] && [ERegion(1, 0)] + [ERegion(2, 0)] == REGIONS.elems;
  }

  /** Whatever the random draws, the number of tasks and the ids the runtime hands out: if the direct run meets no
      refusal and its two regions get different ids, interpreting the compiled elements issues exactly its
      operations. */
  lemma CompiledEqualsDirect(ids: Answers, draws: Draws, root: nat, tasks: nat)
    requires var regions := DirectRegions(ids, root); regions.Some? ==> regions.value.1 != regions.value.2
    requires Replay(ids, draws, root, tasks).Some? && Replay(ids, draws, root, tasks).value.ok
    ensures Finished(InterpAll(ids, root, Compile(draws, tasks))) == Replay(ids, draws, root, tasks).value
  {
    var (rt, target, survivor) := DirectRegions(ids, root).value;
    LockRegions(ids, root, rt, target, survivor);
    LockTasks(ids, draws, root, target, survivor, 0, tasks, REGIONS, Direct(rt, 0, []));
    var d := DirectTasks(ids, draws, 0, tasks, target, survivor, Direct(rt, 0, []));
    LockEnd(ids, draws, root, target, survivor, CompileTasks(draws, 0, tasks, REGIONS), d);
  }
}
