/** The scenario code as it is executed: a random generator that advances, a runtime that is driven, loops that push. */
module ScenarioRunner {
  import opened Basics
  import opened Scenario

  class Rng {
    const draws: Draws
    var pos: nat

    constructor (draws: Draws)
      ensures this.draws == draws && pos == 0
    {
      this.draws, pos := draws, 0;
    }

    method NextU32(n: nat) returns (r: nat)
      requires n > 0
      modifies this
      ensures r == Draw(draws, old(pos), n) && pos == old(pos) + 1
    {
      r := draws(pos) % n;
      pos := pos + 1;
    }

    method Chance(percent: nat) returns (r: bool)
      modifies this
      ensures r == Scenario.Chance(draws, old(pos), percent) && pos == old(pos) + 1
    {
      var x := NextU32(100);
      r := x < percent;
    }

    method Rare(oneIn: nat) returns (r: bool)
      requires oneIn > 0
      modifies this
      ensures r == (Draw(draws, old(pos), oneIn) == 0) && pos == old(pos) + 1
    {
      var x := NextU32(oneIn);
      r := x == 0;
    }
  }

  /** The laboratory runtime, seen through the operations issued to it. */
  class LabRuntime {
    const ids: Answers
    var rt: Runtime

    constructor (ids: Answers)
      ensures this.ids == ids && rt == FRESH
    {
      this.ids, rt := ids, FRESH;
    }

    method Issue(op: Op)
      modifies this
      ensures rt == Do(old(rt), op)
    {
      rt := rt.(log := rt.log + [op]);
    }

    method TryCreate(op: Op) returns (id: Option<nat>)
      modifies this
      ensures rt == Create(ids, old(rt), op) && id == Answer(ids, old(rt), op)
    {
      var log := rt.log + [op];
      id := ids(log);
      rt := Runtime(log, rt.ok && id.Some?);
    }
  }

  method ResolveObligations(lab: LabRuntime, os: seq<Tracked>)
    modifies lab
    ensures lab.rt == Resolve(old(lab.rt), os)
  {
    assert lab.rt.log + [] == lab.rt.log;
    for k := 0 to |os|
      invariant lab.rt == Resolve(old(lab.rt), os[..k])
    {
      assert os[..k + 1][..k] == os[..k];
      if os[k].late {
        continue;
      }
      if os[k].commit {
        lab.Issue(Commit(os[k].id));
      } else {
        lab.Issue(Abort(os[k].id));
      }
    }
    assert os[..|os|] == os;
  }

  method ExtractObligations(rng: Rng, elems: seq<Element>, i: nat, n: nat) returns (more: seq<Element>)
    modifies rng
    ensures Compiler(more, rng.pos) == CompileObligations(rng.draws, i, 0, n, Compiler(elems, old(rng.pos)))
  {
    more := elems;
    ghost var begin := Compiler(elems, rng.pos);
    for j := 0 to n
      invariant CompileObligations(rng.draws, i, j, n, Compiler(more, rng.pos)) ==
                CompileObligations(rng.draws, i, 0, n, begin)
    {
      ghost var before := Compiler(more, rng.pos);
      var commit := rng.Chance(60);
      var late := false;
      if RegionOf(i) == 1 {
        late := rng.Rare(10_000);
      }
      more := more + [EObligation(i, RegionOf(i), (i + j) % 4, commit, late)];
      assert Compiler(more, rng.pos) == CompileObligation(rng.draws, i, j, before);
    }
  }

  method ExtractAdvance(rng: Rng, elems: seq<Element>, percent: nat, bound: nat) returns (more: seq<Element>)
    requires bound > 0
    modifies rng
    ensures Compiler(more, rng.pos) == CompileAdvance(rng.draws, percent, bound, Compiler(elems, old(rng.pos)))
  {
    more := elems;
    var hit := rng.Chance(percent);
    if hit {
      var nanos := rng.NextU32(bound);
      more := more + [EAdvance(nanos + 1)];
    }
  }

  method ExtractTask(rng: Rng, elems: seq<Element>, i: nat) returns (more: seq<Element>)
    modifies rng
    ensures Compiler(more, rng.pos) == CompileTask(rng.draws, i, Compiler(elems, old(rng.pos)))
  {
    ghost var before := Compiler(elems, rng.pos);
    var lane := rng.NextU32(4);
    more := elems + [ESpawn(i, RegionOf(i), lane)];
    var extra := rng.NextU32(3);
    assert Compiler(more, rng.pos) == SpawnedAs(i, lane, before);
    more := ExtractObligations(rng, more, i, 1 + extra);
  }

  /** The compiler as a loop over the tasks. */
  method ExtractElements(draws: Draws, tasks: nat) returns (elems: seq<Element>)
    ensures elems == Compile(draws, tasks)
  {
    var rng := new Rng(draws);
    elems := [ERegion(1, 0), ERegion(2, 0)];
    for i := 0 to tasks
      invariant CompileTasks(draws, i, tasks, Compiler(elems, rng.pos)) == CompileTasks(draws, 0, tasks, REGIONS)
    {
      elems := ExtractTask(rng, elems, i);
    }
    elems := ExtractAdvance(rng, elems, 50, 100_000);
    elems := elems + [ECancel(1)];
    elems := ExtractAdvance(rng, elems, 30, 50_000);
  }

  /** The interpreter as a loop over the elements, with its maps and its flag. */
  method CheckForLeak(lab: LabRuntime, root: nat, es: seq<Element>)
    requires lab.rt == FRESH
    modifies lab
    ensures lab.rt == Finished(InterpAll(lab.ids, root, es))
  {
    lab.Issue(CreateRoot);
    var regions: map<nat, nat>, tasks: map<nat, nat> := map[0 := root], map[];
    var obligations: seq<Tracked>, resolved := [], false;
    for k := 0 to |es|
      invariant Interp(lab.rt, regions, tasks, obligations, resolved) == InterpAll(lab.ids, root, es[..k])
    {
      InterpSnoc(lab.ids, root, es[..k], es[k]);
      assert es[..k] + [es[k]] == es[..k + 1];
      match es[k]
      case ERegion(region, parent) =>
        if parent in regions {
          var id := lab.TryCreate(CreateChild(regions[parent]));
          if id.Some? {
            regions := regions[region := id.value];
          }
        }
      case ESpawn(task, region, lane) =>
        if region in regions {
          var id := lab.TryCreate(CreateTask(regions[region]));
          if id.Some? {
            lab.Issue(Schedule(id.value, lane));
            tasks := tasks[task := id.value];
          }
        }
      case EObligation(task, region, kind, commit, late) =>
        if task in tasks && region in regions {
          var id := lab.TryCreate(CreateObligation(kind, tasks[task], regions[region]));
          if id.Some? {
            obligations := obligations + [Tracked(id.value, commit, late)];
          }
        }
      case ECancel(region) =>
        if !resolved {
          ResolveObligations(lab, obligations);
          resolved := true;
        }
        if region in regions {
          lab.Issue(CancelRequest(regions[region]));
        }
      case EAdvance(nanos) =>
        lab.Issue(AdvanceTime(nanos));
    }
    assert es[..|es|] == es;
    if !resolved {
      ResolveObligations(lab, obligations);
    }
    lab.Issue(AdvanceTime(1_000_000));
    lab.Issue(RunUntilQuiescent);
  }

  method RunObligation(lab: LabRuntime, rng: Rng, i: nat, j: nat, task: nat, region: nat, target: nat,
                       tracked: seq<Tracked>) returns (more: seq<Tracked>)
    modifies lab, rng
    ensures Direct(lab.rt, rng.pos, more) ==
            DirectObligation(lab.ids, rng.draws, i, j, task, region, target,
                             Direct(old(lab.rt), old(rng.pos), tracked))
  {
    more := tracked;
    var commit := rng.Chance(60);
    var id := lab.TryCreate(CreateObligation((i + j) % 4, task, region));
    if id.Some? {
      var late := false;
      if region == target {
        late := rng.Rare(10_000);
      }
      more := more + [Tracked(id.value, commit, late)];
    }
  }

  method RunObligations(lab: LabRuntime, rng: Rng, i: nat, n: nat, task: nat, region: nat, target: nat,
                        tracked: seq<Tracked>) returns (more: seq<Tracked>)
    modifies lab, rng
    ensures Direct(lab.rt, rng.pos, more) ==
            DirectObligations(lab.ids, rng.draws, i, 0, n, task, region, target,
                              Direct(old(lab.rt), old(rng.pos), tracked))
  {
    more := tracked;
    ghost var begin := Direct(lab.rt, rng.pos, tracked);
    for j := 0 to n
      invariant DirectObligations(lab.ids, rng.draws, i, j, n, task, region, target, Direct(lab.rt, rng.pos, more)) ==
                DirectObligations(lab.ids, rng.draws, i, 0, n, task, region, target, begin)
    {
      more := RunObligation(lab, rng, i, j, task, region, target, more);
    }
  }

  method RunAdvance(lab: LabRuntime, rng: Rng, percent: nat, bound: nat, ghost tracked: seq<Tracked>)
    requires bound > 0
    modifies lab, rng
    ensures Direct(lab.rt, rng.pos, tracked) ==
            DirectAdvance(rng.draws, percent, bound, Direct(old(lab.rt), old(rng.pos), tracked))
  {
    var hit := rng.Chance(percent);
    if hit {
      var nanos := rng.NextU32(bound);
      lab.Issue(AdvanceTime(nanos + 1));
    }
  }

  method RunTask(lab: LabRuntime, rng: Rng, i: nat, target: nat, survivor: nat, tracked: seq<Tracked>)
    returns (more: seq<Tracked>)
    modifies lab, rng
    ensures Direct(lab.rt, rng.pos, more) ==
            DirectTask(lab.ids, rng.draws, i, target, survivor, Direct(old(lab.rt), old(rng.pos), tracked))
  {
    more := tracked;
    ghost var before := Direct(lab.rt, rng.pos, tracked);
    var region := if i % 3 != 0 then target else survivor;
    var task := lab.TryCreate(CreateTask(region));
    if task.None? {
      return;
    }
    var lane := rng.NextU32(4);
    lab.Issue(Schedule(task.value, lane));
    var extra := rng.NextU32(3);
    assert Direct(lab.rt, rng.pos, tracked) == Scheduled(lab.ids, region, task.value, lane, before);
    more := RunObligations(lab, rng, i, 1 + extra, task.value, region, target, more);
  }

  /** The direct run; `false` where the source gives up because a region could not be created. */
  method ReplayScenario(lab: LabRuntime, draws: Draws, root: nat, tasks: nat) returns (done: bool)
    requires lab.rt == FRESH
    modifies lab
    ensures done == Replay(lab.ids, draws, root, tasks).Some?
    ensures done ==> lab.rt == Replay(lab.ids, draws, root, tasks).value
  {
    var rng := new Rng(draws);
    lab.Issue(CreateRoot);
    var target := lab.TryCreate(CreateChild(root));
    if target.None? {
      return false;
    }
    var survivor := lab.TryCreate(CreateChild(root));
    if survivor.None? {
      return false;
    }
    assert DirectRegions(lab.ids, root) == Some((lab.rt, target.value, survivor.value));
    var obligations := [];
    ghost var begin := Direct(lab.rt, 0, []);
    for i := 0 to tasks
      invariant DirectTasks(lab.ids, draws, i, tasks, target.value, survivor.value,
                            Direct(lab.rt, rng.pos, obligations)) ==
                DirectTasks(lab.ids, draws, 0, tasks, target.value, survivor.value, begin)
    {
      obligations := RunTask(lab, rng, i, target.value, survivor.value, obligations);
    }
    RunAdvance(lab, rng, 50, 100_000, obligations);
    ResolveObligations(lab, obligations);
    lab.Issue(CancelRequest(target.value));
    RunAdvance(lab, rng, 30, 50_000, obligations);
    lab.Issue(AdvanceTime(1_000_000));
    lab.Issue(RunUntilQuiescent);
    return true;
  }
}
