/** What becomes of each obligation an element asks for, and what a compiled element list looks like, both told without
    the functions that resolve and compile. */
module ScenarioOutcome {
  import opened Basics
  import opened Scenario
  import opened ScenarioResolution

  // ----- who asked -----

  /** The positions of the elements whose obligation was granted. */
  ghost function AskedAt(ids: Answers, root: nat, es: seq<Element>): seq<nat> {
    if es == [] then []
    else
      var front, e := es[..|es| - 1], es[|es| - 1];
      AskedAt(ids, root, front) + if Granted(ids, InterpAll(ids, root, front), e) then [|front|] else []
  }

  /** The obligation tracked for an element is the one the runtime named in its answer to that element. */
  ghost predicate AskedBy(ids: Answers, root: nat, es: seq<Element>, j: nat, o: Tracked) {
    && j < |es|
    && var s, e := InterpAll(ids, root, es[..j]), es[j];
    && Granted(ids, s, e)
    && ids(s.rt.log + [CreateObligation(e.kind, s.tasks[e.task], s.regions[e.region])]) == Some(o.id)
    && o.commit == e.commit && o.late == e.late
  }

  lemma AnswersInPrefix(ids: Answers, root: nat, es: seq<Element>, j: nat, o: Tracked)
    requires es != [] && AskedBy(ids, root, es[..|es| - 1], j, o)
    ensures AskedBy(ids, root, es, j, o)
  {
    assert es[..|es| - 1][..j] == es[..j];
  }

  lemma AnswersLast(ids: Answers, root: nat, es: seq<Element>)
    requires es != [] && Granted(ids, InterpAll(ids, root, es[..|es| - 1]), es[|es| - 1])
    ensures var s := InterpAll(ids, root, es[..|es| - 1]);
            && |InterpAll(ids, root, es).obligations| == |s.obligations| + 1
            && InterpAll(ids, root, es).obligations[..|s.obligations|] == s.obligations
            && AskedBy(ids, root, es, |es| - 1, InterpAll(ids, root, es).obligations[|s.obligations|])
  {
  }

  ghost predicate Asked(ids: Answers, root: nat, es: seq<Element>, asked: seq<nat>, os: seq<Tracked>) {
    && |os| == |asked|
    && (forall k | 0 <= k < |os| :: AskedBy(ids, root, es, asked[k], os[k]))
  }

  lemma AskedInPrefix(ids: Answers, root: nat, es: seq<Element>, asked: seq<nat>, os: seq<Tracked>)
    requires es != [] && Asked(ids, root, es[..|es| - 1], asked, os)
    ensures Asked(ids, root, es, asked, os)
  {
    forall k | 0 <= k < |os| ensures AskedBy(ids, root, es, asked[k], os[k]) {
      AnswersInPrefix(ids, root, es, asked[k], os[k]);
    }
  }

  lemma AskedSnoc(ids: Answers, root: nat, es: seq<Element>, asked: seq<nat>, os: seq<Tracked>, os': seq<Tracked>,
                  j: nat)
    requires Asked(ids, root, es, asked, os)
    requires |os'| == |os| + 1 && os'[..|os|] == os && AskedBy(ids, root, es, j, os'[|os|])
    ensures Asked(ids, root, es, asked + [j], os')
  {
    assert forall k | 0 <= k < |os| :: os'[k] == os[k];
  }

  lemma {:induction false} TrackedForAsked(ids: Answers, root: nat, es: seq<Element>)
    ensures Asked(ids, root, es, AskedAt(ids, root, es), InterpAll(ids, root, es).obligations)
  {
    if es != [] {
      var front, e := es[..|es| - 1], es[|es| - 1];
      var s, asked := InterpAll(ids, root, front), AskedAt(ids, root, front);
      TrackedForAsked(ids, root, front);
      AskedInPrefix(ids, root, es, asked, s.obligations);
      Growth(ids, s, e);
      if Granted(ids, s, e) {
        AnswersLast(ids, root, es);
        AskedSnoc(ids, root, es, asked, s.obligations, InterpAll(ids, root, es).obligations, |front|);
      }
    }
  }

  lemma {:induction false} AskedIncreases(ids: Answers, root: nat, es: seq<Element>)
    ensures forall k | 0 <= k < |AskedAt(ids, root, es)| :: AskedAt(ids, root, es)[k] < |es|
    ensures forall k, l | 0 <= k < l < |AskedAt(ids, root, es)| ::
              AskedAt(ids, root, es)[k] < AskedAt(ids, root, es)[l]
  {
    if es != [] {
      AskedIncreases(ids, root, es[..|es| - 1]);
    }
  }

  lemma {:induction false} AskedIffGranted(ids: Answers, root: nat, es: seq<Element>, j: nat)
    requires j < |es|
    ensures j in AskedAt(ids, root, es) <==> Granted(ids, InterpAll(ids, root, es[..j]), es[j])
  {
    var front := es[..|es| - 1];
    AskedIncreases(ids, root, front);
    if j < |front| {
      AskedIffGranted(ids, root, front, j);
      assert front[..j] == es[..j];
    } else {
      assert es[..j] == front;
    }
  }

  // ----- committed or aborted -----

  lemma {:induction false} InResolutions(log: seq<Op>, op: Op)
    requires op.Commit? || op.Abort?
    ensures op in log <==> op in Resolutions(log)
  {
    if log != [] {
      InResolutions(log[..|log| - 1], op);
      assert log == log[..|log| - 1] + [log[|log| - 1]];
    }
  }

  lemma {:induction false} InResolveOps(os: seq<Tracked>, id: nat, commit: bool)
    ensures (if commit then Commit(id) else Abort(id)) in ResolveOps(os) <==> Tracked(id, commit, false) in os
  {
    if os != [] {
      InResolveOps(os[..|os| - 1], id, commit);
      assert os == os[..|os| - 1] + [os[|os| - 1]];
    }
  }

  lemma ResolvedAs(os: seq<Tracked>, k: nat)
    requires DistinctIds(os) && k < |os|
    ensures Commit(os[k].id) in ResolveOps(os) <==> os[k].commit && !os[k].late
    ensures Abort(os[k].id) in ResolveOps(os) <==> !os[k].commit && !os[k].late
  {
    InResolveOps(os, os[k].id, true);
    InResolveOps(os, os[k].id, false);
    assert forall l | 0 <= l < |os| && os[l].id == os[k].id :: l == k;
  }

  /** With distinct ids, in every part of a compiled scenario: the `k`-th obligation was asked for by the element at
      `AskedAt[k]`, carries the id the runtime answered to it, and is committed exactly if that element said so and was
      not late, aborted exactly if it said so and was not late. */
  lemma ResolvedAsAsked(ids: Answers, root: nat, draws: Draws, tasks: nat, part: seq<Element>, at: seq<nat>, k: nat)
    requires Picks(part, Compile(draws, tasks), at)
    requires DistinctIds(InterpAll(ids, root, part).obligations) && k < |InterpAll(ids, root, part).obligations|
    ensures |AskedAt(ids, root, part)| == |InterpAll(ids, root, part).obligations|
    ensures var o, log := InterpAll(ids, root, part).obligations[k], Finished(InterpAll(ids, root, part)).log;
            var j := AskedAt(ids, root, part)[k];
            && AskedBy(ids, root, part, j, o)
            && (Commit(o.id) in log <==> o.commit && !o.late)
            && (Abort(o.id) in log <==> !o.commit && !o.late)
            && (Commit(o.id) in log <==> part[j].commit && !part[j].late)
            && (Abort(o.id) in log <==> !part[j].commit && !part[j].late)
  {
    var s := InterpAll(ids, root, part);
    TrackedForAsked(ids, root, part);
    PartsResolveAll(ids, root, draws, tasks, part, at);
    InResolutions(Finished(s).log, Commit(s.obligations[k].id));
    InResolutions(Finished(s).log, Abort(s.obligations[k].id));
    ResolvedAs(s.obligations, k);
  }

  // ----- what is compiled -----

  /** Where the draws of the `j`-th obligation of task `i` begin: each takes two in the first region, one in the second,
      to which every third task belongs. */
  function Place(i: nat, p: nat, j: nat): nat {
    if i % 3 == 0 then p + j else p + 2 * j
  }

  /** The `j`-th obligation of task `i`, whose obligations are read off the draws from position `p`. */
  ghost predicate ObligationRead(draws: Draws, i: nat, j: nat, p: nat, e: Element) {
    && e.EObligation? && e.task == i && e.kind == (i + j) % 4
    && e.region == (if i % 3 == 0 then 2 else 1)
    && var q := Place(i, p, j);
    && (e.commit <==> draws(q) % 100 < 60)
    && (e.late <==> i % 3 != 0 && draws(q + 1) % 10_000 == 0)
  }

  /** The elements of task `i`, read off the draws from position `p`: its spawn, then one to three obligations. */
  ghost predicate TaskRead(draws: Draws, i: nat, p: nat, es: seq<Element>) {
    && |es| == 2 + draws(p + 1) % 3
    && es[0] == ESpawn(i, if i % 3 == 0 then 2 else 1, draws(p) % 4)
    && (forall j: nat | 0 < j < |es| :: ObligationRead(draws, i, j - 1, p + 2, es[j]))
  }

  ghost predicate BlockRead(draws: Draws, i: nat, p: nat, q: nat, es: seq<Element>) {
    TaskRead(draws, i, p, es) && q == Place(i, p + 2, |es| - 1)
  }

  function Flat(blocks: seq<seq<Element>>): seq<Element> {
    if blocks == [] then [] else Flat(blocks[..|blocks| - 1]) + blocks[|blocks| - 1]
  }

  /** One block per task, each read where the one before it stopped. */
  ghost predicate TasksRead(draws: Draws, at: seq<nat>, blocks: seq<seq<Element>>) {
    && |at| == |blocks| + 1 && at[0] == 0
    && (forall i: nat | i < |blocks| :: BlockRead(draws, i, at[i], at[i + 1], blocks[i]))
  }

  lemma ObligationForm(draws: Draws, i: nat, j: nat, n: nat, p: nat, c: Compiler) returns (e: Element, c': Compiler)
    requires j < n && c.pos == Place(i, p, j)
    ensures c' == Compiler(c.elems + [e], Place(i, p, j + 1)) && ObligationRead(draws, i, j, p, e)
    ensures CompileObligations(draws, i, j, n, c) == CompileObligations(draws, i, j + 1, n, c')
  {
    c' := CompileObligation(draws, i, j, c);
    e := c'.elems[|c.elems|];
  }

  /** From the `j`-th obligation on. */
  ghost predicate ObligationsRead(draws: Draws, i: nat, j: nat, p: nat, es: seq<Element>) {
    forall k: nat | k < |es| :: ObligationRead(draws, i, j + k, p, es[k])
  }

  lemma ObligationsCons(draws: Draws, i: nat, j: nat, p: nat, e: Element, es: seq<Element>)
    requires ObligationRead(draws, i, j, p, e) && ObligationsRead(draws, i, j + 1, p, es)
    ensures ObligationsRead(draws, i, j, p, [e] + es)
  {
    var more := [e] + es;
    forall k: nat | k < |more| ensures ObligationRead(draws, i, j + k, p, more[k]) {
      if k > 0 {
        assert ObligationRead(draws, i, j + 1 + (k - 1), p, es[k - 1]);
      }
    }
  }

  lemma ObligationsDone(draws: Draws, i: nat, n: nat, p: nat, c: Compiler)
    requires c.pos == Place(i, p, n)
    ensures CompileObligations(draws, i, n, n, c) == Compiler(c.elems + [], Place(i, p, n))
  {
    assert c.elems + [] == c.elems;
  }

  lemma OneThenMore(elems: seq<Element>, e: Element, rest: seq<Element>)
    ensures elems + [e] + rest == elems + ([e] + rest)
  {
  }

  lemma {:induction false} ObligationsForm(draws: Draws, i: nat, j: nat, n: nat, p: nat, c: Compiler)
    returns (more: seq<Element>)
    requires j <= n && c.pos == Place(i, p, j)
    ensures |more| == n - j && ObligationsRead(draws, i, j, p, more)
    ensures CompileObligations(draws, i, j, n, c) == Compiler(c.elems + more, Place(i, p, n))
    decreases n - j
  {
    if j == n {
      more := [];
      ObligationsDone(draws, i, n, p, c);
    } else {
      var e, c' := ObligationForm(draws, i, j, n, p, c);
      var rest := ObligationsForm(draws, i, j + 1, n, p, c');
      ObligationsCons(draws, i, j, p, e, rest);
      more := [e] + rest;
      OneThenMore(c.elems, e, rest);
    }
  }

  lemma TaskCons(draws: Draws, i: nat, p: nat, spawn: Element, more: seq<Element>)
    requires spawn == ESpawn(i, if i % 3 == 0 then 2 else 1, draws(p) % 4)
    requires |more| == 1 + draws(p + 1) % 3 && ObligationsRead(draws, i, 0, p + 2, more)
    ensures TaskRead(draws, i, p, [spawn] + more)
  {
    var block := [spawn] + more;
    forall j: nat | 0 < j < |block| ensures ObligationRead(draws, i, j - 1, p + 2, block[j]) {
      assert ObligationRead(draws, i, 0 + (j - 1), p + 2, more[j - 1]);
    }
  }

  lemma SpawnedForm(draws: Draws, i: nat, lane: nat, n: nat, c: Compiler) returns (more: seq<Element>)
    ensures |more| == n && ObligationsRead(draws, i, 0, c.pos + 2, more)
    ensures CompileObligations(draws, i, 0, n, SpawnedAs(i, lane, c)) ==
            Compiler(c.elems + ([ESpawn(i, if i % 3 == 0 then 2 else 1, lane)] + more), Place(i, c.pos + 2, n))
  {
    var spawned := SpawnedAs(i, lane, c);
    more := ObligationsForm(draws, i, 0, n, c.pos + 2, spawned);
    assert c.elems + ([ESpawn(i, RegionOf(i), lane)] + more) == spawned.elems + more;
  }

  lemma TaskForm(draws: Draws, i: nat, c: Compiler) returns (block: seq<Element>)
    ensures BlockRead(draws, i, c.pos, CompileTask(draws, i, c).pos, block)
    ensures CompileTask(draws, i, c).elems == c.elems + block
  {
    var lane, n := Draw(draws, c.pos, 4), 1 + Draw(draws, c.pos + 1, 3);
    var spawn := ESpawn(i, if i % 3 == 0 then 2 else 1, lane);
    var more := SpawnedForm(draws, i, lane, n, c);
    block := [spawn] + more;
    TaskCons(draws, i, c.pos, spawn, more);
  }

  /** What has been compiled once the tasks of `blocks` have been. */
  ghost predicate CompiledSoFar(draws: Draws, c: Compiler, at: seq<nat>, blocks: seq<seq<Element>>) {
    && TasksRead(draws, at, blocks) && c.pos == at[|blocks|]
    && c.elems == [ERegion(1, 0), ERegion(2, 0)] + Flat(blocks)
  }

  lemma TasksSnoc(draws: Draws, at: seq<nat>, blocks: seq<seq<Element>>, block: seq<Element>, p: nat)
    requires TasksRead(draws, at, blocks) && BlockRead(draws, |blocks|, at[|blocks|], p, block)
    ensures TasksRead(draws, at + [p], blocks + [block])
    ensures Flat(blocks + [block]) == Flat(blocks) + block
  {
    var at', blocks' := at + [p], blocks + [block];
    assert blocks'[..|blocks|] == blocks;
    forall i: nat | i < |blocks'| ensures BlockRead(draws, i, at'[i], at'[i + 1], blocks'[i]) {
      if i < |blocks| {
        assert BlockRead(draws, i, at[i], at[i + 1], blocks[i]);
      }
    }
  }

  lemma SoFarSnoc(draws: Draws, c: Compiler, c': Compiler, at: seq<nat>, blocks: seq<seq<Element>>,
                  block: seq<Element>)
    requires CompiledSoFar(draws, c, at, blocks)
    requires BlockRead(draws, |blocks|, c.pos, c'.pos, block) && c'.elems == c.elems + block
    ensures CompiledSoFar(draws, c', at + [c'.pos], blocks + [block])
  {
    TasksSnoc(draws, at, blocks, block, c'.pos);
    assert c'.elems == [ERegion(1, 0), ERegion(2, 0)] + (Flat(blocks) + block);
  }

  lemma {:induction false} TasksForm(draws: Draws, i: nat, n: nat, c: Compiler, at: seq<nat>,
                                     done: seq<seq<Element>>)
    returns (at': seq<nat>, blocks: seq<seq<Element>>)
    requires i == |done| <= n && CompiledSoFar(draws, c, at, done)
    ensures |blocks| == n && CompiledSoFar(draws, CompileTasks(draws, i, n, c), at', blocks)
    decreases n - i
  {
    if i == n {
      at', blocks := at, done;
    } else {
      var c' := CompileTask(draws, i, c);
      var block := TaskForm(draws, i, c);
      SoFarSnoc(draws, c, c', at, done, block);
      at', blocks := TasksForm(draws, i + 1, n, c', at + [c'.pos], done + [block]);
    }
  }

  ghost function Move(draws: Draws, percent: nat, bound: nat, p: nat): seq<Element>
    requires bound > 0
  {
    if draws(p) % 100 < percent then [EAdvance(1 + draws(p + 1) % bound)] else []
  }

  lemma AdvanceForm(draws: Draws, percent: nat, bound: nat, c: Compiler)
    requires bound > 0
    ensures var move := Move(draws, percent, bound, c.pos);
            CompileAdvance(draws, percent, bound, c) == Compiler(c.elems + move, c.pos + 1 + |move|)
  {
  }

  /** Two regions under the root, the tasks' elements, a move of the clock by up to 100,000 on fifty chances in a
      hundred, the cancellation of the first region, another move by up to 50,000 on thirty. */
  ghost function Listed(draws: Draws, body: seq<Element>, p: nat): seq<Element> {
    var before := Move(draws, 50, 100_000, p);
    [ERegion(1, 0), ERegion(2, 0)] + body + before + [ECancel(1)] + Move(draws, 30, 50_000, p + 1 + |before|)
  }

  lemma EndForm(draws: Draws, body: seq<Element>, c: Compiler)
    requires c.elems == [ERegion(1, 0), ERegion(2, 0)] + body
    ensures CompileEnd(draws, c).elems == Listed(draws, body, c.pos)
  {
    AdvanceForm(draws, 50, 100_000, c);
    var a := CompileAdvance(draws, 50, 100_000, c);
    AdvanceForm(draws, 30, 50_000, a.(elems := a.elems + [ECancel(1)]));
  }

  lemma StartForm(draws: Draws)
    ensures CompiledSoFar(draws, REGIONS, [0], [])
  {
    assert REGIONS.elems == [ERegion(1, 0), ERegion(2, 0)] + Flat([]);
  }

  /** Every compiled list, read off the draws: one block per task in order, between the fixed elements. */
  lemma CompiledForm(draws: Draws, tasks: nat) returns (at: seq<nat>, blocks: seq<seq<Element>>)
    ensures |blocks| == tasks && TasksRead(draws, at, blocks)
    ensures Compile(draws, tasks) == Listed(draws, Flat(blocks), at[tasks])
  {
    StartForm(draws);
    at, blocks := TasksForm(draws, 0, tasks, REGIONS, [0], []);
    EndForm(draws, Flat(blocks), CompileTasks(draws, 0, tasks, REGIONS));
  }

  // ----- one run written out -----

  /** A runtime that refuses nothing and names what it creates by the number of operations so far. */
  function Counting(): Answers {
    (log: seq<Op>) => Some(|log|)
  }

  /** A region, a task, three obligations, the clock moved, the region cancelled twice: the operations in full. */
  lemma RunInFull(root: nat)
    ensures var es := [ERegion(1, 0), ESpawn(4, 1, 3), EObligation(4, 1, 2, true, false),
                       EObligation(4, 1, 1, false, false), EObligation(4, 1, 0, true, true), EAdvance(9), ECancel(1),
                       ECancel(1)];
            Finished(InterpAll(Counting(), root, es)).log ==
            [CreateRoot, CreateChild(root), CreateTask(2), Schedule(3, 3), CreateObligation(2, 3, 2),
             CreateObligation(1, 3, 2), CreateObligation(0, 3, 2), AdvanceTime(9), Commit(5), Abort(6),
             CancelRequest(2), CancelRequest(2), AdvanceTime(1_000_000), RunUntilQuiescent]
  {
    Starting(root);
    var begun := [ERegion(1, 0), ESpawn(4, 1, 3)];
    Asking(root, begun, [CreateRoot, CreateChild(root), CreateTask(2), Schedule(3, 3)]);
    Two(ERegion(1, 0), ESpawn(4, 1, 3), EObligation(4, 1, 2, true, false), EObligation(4, 1, 1, false, false),
        EObligation(4, 1, 0, true, true), EAdvance(9), ECancel(1), ECancel(1));
  }

  lemma Two<T>(a: T, b: T, c: T, d: T, e: T, f: T, g: T, h: T)
    ensures [a, b] + [c, d, e, f, g, h] == [a, b, c, d, e, f, g, h]
  {
  }

  lemma Starting(root: nat)
    ensures InterpAll(Counting(), root, [ERegion(1, 0), ESpawn(4, 1, 3)]) ==
            Interp(Runtime([CreateRoot, CreateChild(root), CreateTask(2), Schedule(3, 3)], true),
                   map[0 := root, 1 := 2], map[4 := 3], [], false)
  {
    var ids := Counting();
    InterpSnoc(ids, root, [], ERegion(1, 0));
    assert [] + [ERegion(1, 0)] == [ERegion(1, 0)];
    assert InterpAll(ids, root, [ERegion(1, 0)]) ==
           Interp(Runtime([CreateRoot, CreateChild(root)], true), map[0 := root, 1 := 2], map[], [], false);
    InterpSnoc(ids, root, [ERegion(1, 0)], ESpawn(4, 1, 3));
  }

  lemma Asking(root: nat, es: seq<Element>, log: seq<Op>)
    requires |log| == 4
    requires InterpAll(Counting(), root, es) ==
             Interp(Runtime(log, true), map[0 := root, 1 := 2], map[4 := 3], [], false)
    ensures Finished(InterpAll(Counting(), root,
                               es + [EObligation(4, 1, 2, true, false), EObligation(4, 1, 1, false, false),
                                     EObligation(4, 1, 0, true, true), EAdvance(9), ECancel(1), ECancel(1)])).log ==
            log + [CreateObligation(2, 3, 2), CreateObligation(1, 3, 2), CreateObligation(0, 3, 2), AdvanceTime(9),
                   Commit(5), Abort(6), CancelRequest(2), CancelRequest(2), AdvanceTime(1_000_000), RunUntilQuiescent]
  {
    var ids := Counting();
    var a, b, c := EObligation(4, 1, 2, true, false), EObligation(4, 1, 1, false, false),
                   EObligation(4, 1, 0, true, true);
    InterpSnoc(ids, root, es, a);
    InterpSnoc(ids, root, es + [a], b);
    InterpSnoc(ids, root, es + [a] + [b], c);
    var asked := es + [a] + [b] + [c];
    var log' := log + [CreateObligation(2, 3, 2)] + [CreateObligation(1, 3, 2)] + [CreateObligation(0, 3, 2)];
    Ending(root, asked, log');
    assert es + [a, b, c, EAdvance(9), ECancel(1), ECancel(1)] == asked + [EAdvance(9)] + [ECancel(1)] + [ECancel(1)];
  }

  lemma ResolveMore(os: seq<Tracked>, o: Tracked)
    ensures ResolveOps(os + [o]) == ResolveOps(os) + if o.late then [] else [ResolveOp(o)]
  {
    assert (os + [o])[..|os|] == os;
  }

  lemma ResolvedInFull()
    ensures ResolveOps([Tracked(5, true, false), Tracked(6, false, false), Tracked(7, true, true)]) ==
            [Commit(5), Abort(6)]
  {
    var o1, o2, o3 := Tracked(5, true, false), Tracked(6, false, false), Tracked(7, true, true);
    ResolveMore([], o1);
    ResolveMore([] + [o1], o2);
    ResolveMore([] + [o1] + [o2], o3);
    assert [] + [o1] + [o2] + [o3] == [o1, o2, o3];
  }

  lemma Ending(root: nat, es: seq<Element>, log: seq<Op>)
    requires InterpAll(Counting(), root, es) ==
             Interp(Runtime(log, true), map[0 := root, 1 := 2], map[4 := 3],
                    [Tracked(5, true, false), Tracked(6, false, false), Tracked(7, true, true)], false)
    ensures Finished(InterpAll(Counting(), root, es + [EAdvance(9)] + [ECancel(1)] + [ECancel(1)])).log ==
            log + [AdvanceTime(9), Commit(5), Abort(6), CancelRequest(2), CancelRequest(2), AdvanceTime(1_000_000),
                   RunUntilQuiescent]
  {
    var ids := Counting();
    InterpSnoc(ids, root, es, EAdvance(9));
    InterpSnoc(ids, root, es + [EAdvance(9)], ECancel(1));
    InterpSnoc(ids, root, es + [EAdvance(9)] + [ECancel(1)], ECancel(1));
    ResolvedInFull();
  }
}
