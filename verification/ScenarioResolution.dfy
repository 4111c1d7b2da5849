/** Which obligations the interpreter resolves, over every element list and in particular every order-preserving part of
    a compiled one. */
module ScenarioResolution {
  import opened Basics
  import opened Scenario

  predicate IsResolution(op: Op) {
    op.Commit? || op.Abort?
  }

  function Resolutions(log: seq<Op>): seq<Op> {
    if log == [] then []
    else Resolutions(log[..|log| - 1]) + if IsResolution(log[|log| - 1]) then [log[|log| - 1]] else []
  }

  lemma {:induction false} ResolutionsAppend(a: seq<Op>, b: seq<Op>)
    ensures Resolutions(a + b) == Resolutions(a) + Resolutions(b)
  {
    if b == [] {
      assert a + b == a;
    } else {
      ResolutionsAppend(a, b[..|b| - 1]);
      assert (a + b)[..|a + b| - 1] == a + b[..|b| - 1];
    }
  }

  ghost predicate OnlyResolutions(ops: seq<Op>) {
    forall i | 0 <= i < |ops| :: IsResolution(ops[i])
  }

  lemma {:induction false} ResolutionsKept(ops: seq<Op>)
    requires OnlyResolutions(ops)
    ensures Resolutions(ops) == ops
  {
    if ops != [] {
      ResolutionsKept(ops[..|ops| - 1]);
    }
  }

  lemma {:induction false} ResolvingOnly(os: seq<Tracked>)
    ensures OnlyResolutions(ResolveOps(os))
  {
    if os != [] {
      ResolvingOnly(os[..|os| - 1]);
    }
  }

  /** Neither a resolution nor a cancel request. */
  ghost predicate Neither(ops: seq<Op>) {
    forall i | 0 <= i < |ops| :: !IsResolution(ops[i]) && !ops[i].CancelRequest?
  }

  lemma {:induction false} NeitherResolves(ops: seq<Op>)
    requires Neither(ops)
    ensures Resolutions(ops) == []
  {
    if ops != [] {
      NeitherResolves(ops[..|ops| - 1]);
    }
  }

  /** Every resolution comes before every cancel request. */
  ghost predicate ResolvedFirst(log: seq<Op>) {
    forall i, j | 0 <= i < j < |log| && log[i].CancelRequest? :: !IsResolution(log[j])
  }

  ghost predicate NoCancelYet(log: seq<Op>) {
    forall i | 0 <= i < |log| :: !log[i].CancelRequest?
  }

  /** The obligations tracked when the first cancellation resolved them, or those tracked now if none did. */
  ghost function AtCancel(ids: Answers, root: nat, es: seq<Element>): seq<Tracked> {
    if es == [] then []
    else if InterpAll(ids, root, es[..|es| - 1]).resolved then AtCancel(ids, root, es[..|es| - 1])
    else InterpAll(ids, root, es).obligations
  }

  ghost predicate Accounted(s: Interp, frozen: seq<Tracked>) {
    && ResolvedFirst(s.rt.log)
    && (!s.resolved ==> NoCancelYet(s.rt.log) && Resolutions(s.rt.log) == [] && frozen == s.obligations)
    && (s.resolved ==> Resolutions(s.rt.log) == ResolveOps(frozen))
  }

  lemma NeitherAppend(log: seq<Op>, ops: seq<Op>)
    requires Neither(ops)
    ensures Resolutions(log + ops) == Resolutions(log)
    ensures ResolvedFirst(log) ==> ResolvedFirst(log + ops)
    ensures NoCancelYet(log) ==> NoCancelYet(log + ops)
  {
    ResolutionsAppend(log, ops);
    NeitherResolves(ops);
    assert Resolutions(log) + [] == Resolutions(log);
  }

  lemma ResolvingAppend(log: seq<Op>, ops: seq<Op>)
    requires NoCancelYet(log) && Resolutions(log) == [] && OnlyResolutions(ops)
    ensures Resolutions(log + ops) == ops
    ensures NoCancelYet(log + ops)
  {
    ResolutionsAppend(log, ops);
    ResolutionsKept(ops);
    assert [] + ops == ops;
    var log' := log + ops;
    forall i | 0 <= i < |log'| ensures !log'[i].CancelRequest? {
      assert i < |log| ==> log'[i] == log[i];
      assert i >= |log| ==> IsResolution(ops[i - |log|]);
    }
  }

  lemma CancelAppend(log: seq<Op>, region: nat)
    requires ResolvedFirst(log)
    ensures Resolutions(log + [CancelRequest(region)]) == Resolutions(log)
    ensures ResolvedFirst(log + [CancelRequest(region)])
  {
    var op := CancelRequest(region);
    assert (log + [op])[..|log|] == log;
    assert Resolutions(log) + [] == Resolutions(log);
    ResolvedFirstSnoc(log, op);
  }

  lemma ResolvedFirstSnoc(log: seq<Op>, op: Op)
    requires ResolvedFirst(log) && !IsResolution(op)
    ensures ResolvedFirst(log + [op])
  {
    var log' := log + [op];
    forall i, j | 0 <= i < j < |log'| && log'[i].CancelRequest? ensures !IsResolution(log'[j]) {
      if j < |log| {
        assert log[i] == log'[i] && log[j] == log'[j];
      }
    }
  }

  /** The operations a step other than a cancellation issues. */
  lemma StepIssues(ids: Answers, s: Interp, e: Element) returns (ops: seq<Op>)
    requires !e.ECancel?
    ensures InterpStep(ids, s, e).rt.log == s.rt.log + ops && Neither(ops)
    ensures InterpStep(ids, s, e).resolved == s.resolved
  {
    ops := [];
    assert s.rt.log + [] == s.rt.log;
    match e
    case ERegion(_, parent) =>
      if parent in s.regions {
        ops := [CreateChild(s.regions[parent])];
      }
    case ESpawn(_, region, lane) =>
      if region in s.regions {
        var op := CreateTask(s.regions[region]);
        var id := Answer(ids, s.rt, op);
        ops := if id.Some? then [op, Schedule(id.value, lane)] else [op];
      }
    case EObligation(task, region, kind, _, _) =>
      if task in s.tasks && region in s.regions {
        ops := [CreateObligation(kind, s.tasks[task], s.regions[region])];
      }
    case EAdvance(nanos) => ops := [AdvanceTime(nanos)];
  }

  lemma AccountStep(ids: Answers, s: Interp, e: Element, frozen: seq<Tracked>)
    requires Accounted(s, frozen)
    ensures Accounted(InterpStep(ids, s, e), if s.resolved then frozen else InterpStep(ids, s, e).obligations)
  {
    if e.ECancel? {
      var log := if s.resolved then s.rt.log else s.rt.log + ResolveOps(s.obligations);
      if !s.resolved {
        ResolvingOnly(s.obligations);
        ResolvingAppend(s.rt.log, ResolveOps(s.obligations));
      }
      if e.region in s.regions {
        CancelAppend(log, s.regions[e.region]);
      }
    } else {
      var ops := StepIssues(ids, s, e);
      NeitherAppend(s.rt.log, ops);
    }
  }

  lemma AccountInit(root: nat)
    ensures Accounted(InterpInit(root), [])
  {
    var log := InterpInit(root).rt.log;
    assert log == [CreateRoot] && Neither(log);
    NeitherResolves(log);
  }

  lemma {:induction false} Accounting(ids: Answers, root: nat, es: seq<Element>)
    ensures Accounted(InterpAll(ids, root, es), AtCancel(ids, root, es))
  {
    if es == [] {
      AccountInit(root);
    } else {
      Accounting(ids, root, es[..|es| - 1]);
      AccountStep(ids, InterpAll(ids, root, es[..|es| - 1]), es[|es| - 1], AtCancel(ids, root, es[..|es| - 1]));
    }
  }

  lemma ClosingAdds(rt: Runtime)
    requires ResolvedFirst(rt.log)
    ensures Resolutions(Closing(rt).log) == Resolutions(rt.log) && ResolvedFirst(Closing(rt).log)
  {
    NeitherAppend(rt.log, [AdvanceTime(1_000_000), RunUntilQuiescent]);
    assert Closing(rt).log == rt.log + [AdvanceTime(1_000_000), RunUntilQuiescent];
  }

  /** On every element list: what is resolved is exactly the list of obligations tracked at the first cancellation
      (or at the end), in order, each once, late ones never; and always before any cancel request. */
  lemma ResolvedBeforeCancel(ids: Answers, root: nat, es: seq<Element>)
    ensures var log := Finished(InterpAll(ids, root, es)).log;
            Resolutions(log) == ResolveOps(AtCancel(ids, root, es)) && ResolvedFirst(log)
  {
    var s := InterpAll(ids, root, es);
    Accounting(ids, root, es);
    if s.resolved {
      ClosingAdds(s.rt);
    } else {
      ResolvingOnly(s.obligations);
      ResolvingAppend(s.rt.log, ResolveOps(s.obligations));
      ClosingAdds(Resolve(s.rt, s.obligations));
    }
  }

  // ----- when is everything resolved? -----

  /** Task and region of the obligation are there, and the runtime does not refuse it. */
  ghost predicate Granted(ids: Answers, s: Interp, e: Element) {
    && e.EObligation? && e.task in s.tasks && e.region in s.regions
    && Answer(ids, s.rt, CreateObligation(e.kind, s.tasks[e.task], s.regions[e.region])).Some?
  }

  ghost predicate AfterCancel(es: seq<Element>, j: nat) {
    exists i :: 0 <= i < j && i < |es| && es[i].ECancel?
  }

  /** Element `j` asks for a non-late obligation after a cancellation, and the runtime grants it. */
  ghost predicate Forgotten(ids: Answers, root: nat, es: seq<Element>, j: nat) {
    && j < |es| && es[j].EObligation? && !es[j].late && AfterCancel(es, j)
    && Granted(ids, InterpAll(ids, root, es[..j]), es[j])
  }

  lemma ForgottenGrows(ids: Answers, root: nat, es: seq<Element>, j: nat)
    requires es != [] && j < |es| - 1
    ensures Forgotten(ids, root, es, j) <==> Forgotten(ids, root, es[..|es| - 1], j)
  {
    var front := es[..|es| - 1];
    assert es[..j] == front[..j];
    assert forall i | 0 <= i < j :: es[i] == front[i];
    if AfterCancel(es, j) {
      var i :| 0 <= i < j && es[i].ECancel?;
      assert front[i].ECancel?;
    }
  }

  lemma {:induction false} ResolvedIffCancelled(ids: Answers, root: nat, es: seq<Element>)
    ensures InterpAll(ids, root, es).resolved <==> exists i :: 0 <= i < |es| && es[i].ECancel?
  {
    if es != [] {
      var front := es[..|es| - 1];
      ResolvedIffCancelled(ids, root, front);
      if InterpAll(ids, root, front).resolved {
        var i :| 0 <= i < |front| && front[i].ECancel?;
        assert es[i].ECancel?;
      }
      if i :| 0 <= i < |es| && es[i].ECancel? {
        assert i < |front| ==> front[i].ECancel?;
      }
    }
  }

  /** One element adds at most one obligation, exactly if it asks for one and is granted it. */
  lemma Growth(ids: Answers, s: Interp, e: Element)
    ensures var os := InterpStep(ids, s, e).obligations;
            if Granted(ids, s, e)
            then
              && |os| == |s.obligations| + 1 && os[..|s.obligations|] == s.obligations
              && os[|s.obligations|].late == e.late
            else os == s.obligations
  {
  }

  lemma ResolveSnoc(os: seq<Tracked>, os': seq<Tracked>)
    requires |os'| == |os| + 1 && os'[..|os|] == os
    ensures ResolveOps(os') == ResolveOps(os) + if os'[|os|].late then [] else [ResolveOp(os'[|os|])]
  {
  }

  lemma ForgottenStep(ids: Answers, root: nat, es: seq<Element>)
    requires es != []
    ensures var front, e := es[..|es| - 1], es[|es| - 1];
            var s := InterpAll(ids, root, front);
            (forall j: nat :: !Forgotten(ids, root, es, j)) <==>
            && (forall j: nat :: !Forgotten(ids, root, front, j))
            && !(s.resolved && e.EObligation? && !e.late && Granted(ids, s, e))
  {
    var front := es[..|es| - 1];
    forall j: nat | j < |front| ensures Forgotten(ids, root, es, j) <==> Forgotten(ids, root, front, j) {
      ForgottenGrows(ids, root, es, j);
    }
    assert es[..|front|] == front;
    ResolvedIffCancelled(ids, root, front);
    assert forall i | 0 <= i < |front| :: es[i] == front[i];
    assert AfterCancel(es, |front|) <==> InterpAll(ids, root, front).resolved;
    assert Forgotten(ids, root, es, |front|) <==>
           && InterpAll(ids, root, front).resolved && es[|front|].EObligation? && !es[|front|].late
           && Granted(ids, InterpAll(ids, root, front), es[|front|]);
    if j: nat :| Forgotten(ids, root, front, j) {
      assert Forgotten(ids, root, es, j);
    }
  }

  lemma NoneForgottenUnresolved(ids: Answers, root: nat, es: seq<Element>)
    requires !InterpAll(ids, root, es).resolved
    ensures forall j: nat :: !Forgotten(ids, root, es, j)
  {
    ResolvedIffCancelled(ids, root, es);
  }

  lemma {:induction false} FrozenVersusAll(ids: Answers, root: nat, es: seq<Element>)
    ensures var all, frozen := InterpAll(ids, root, es).obligations, AtCancel(ids, root, es);
            && |ResolveOps(frozen)| <= |ResolveOps(all)|
            && (ResolveOps(frozen) == ResolveOps(all) <==> forall j: nat :: !Forgotten(ids, root, es, j))
  {
    if es != [] {
      var front, e := es[..|es| - 1], es[|es| - 1];
      var s := InterpAll(ids, root, front);
      FrozenVersusAll(ids, root, front);
      ForgottenStep(ids, root, es);
      if !s.resolved {
        NoneForgottenUnresolved(ids, root, front);
      } else {
        Growth(ids, s, e);
        if Granted(ids, s, e) {
          ResolveSnoc(s.obligations, InterpStep(ids, s, e).obligations);
        }
      }
    }
  }

  /** The resolutions are those of all non-late obligations the runtime granted. */
  ghost predicate ResolvesAll(ids: Answers, root: nat, es: seq<Element>) {
    Resolutions(Finished(InterpAll(ids, root, es)).log) == ResolveOps(InterpAll(ids, root, es).obligations)
  }

  /** With a given runtime, every non-late obligation is resolved exactly if none is granted after a cancellation. */
  lemma AllResolvedIff(ids: Answers, root: nat, es: seq<Element>)
    ensures ResolvesAll(ids, root, es) <==> forall j: nat :: !Forgotten(ids, root, es, j)
  {
    ResolvedBeforeCancel(ids, root, es);
    FrozenVersusAll(ids, root, es);
  }

  // ----- the same for every runtime, read off the elements -----

  /** Some earlier elements can create the region: the root is there, any other needs a known parent. */
  ghost predicate KnownRegion(es: seq<Element>, region: nat)
    decreases |es|
  {
    || region == 0
    || (es != [] &&
        var front, last := es[..|es| - 1], es[|es| - 1];
        KnownRegion(front, region) || (last.ERegion? && last.region == region && KnownRegion(front, last.parent)))
  }

  ghost predicate KnownTask(es: seq<Element>, task: nat)
    decreases |es|
  {
    es != [] &&
    var front, last := es[..|es| - 1], es[|es| - 1];
    KnownTask(front, task) || (last.ESpawn? && last.task == task && KnownRegion(front, last.region))
  }

  /** A non-late obligation of a known task and region follows a cancellation. */
  ghost predicate Misplaced(es: seq<Element>, j: nat) {
    && j < |es| && es[j].EObligation? && !es[j].late && AfterCancel(es, j)
    && KnownTask(es[..j], es[j].task) && KnownRegion(es[..j], es[j].region)
  }

  /** A runtime that refuses nothing. */
  function Accepting(): Answers {
    (log: seq<Op>) => Some(0)
  }

  lemma {:induction false} PresentIsKnown(ids: Answers, root: nat, es: seq<Element>)
    ensures forall r | r in InterpAll(ids, root, es).regions :: KnownRegion(es, r)
    ensures forall t | t in InterpAll(ids, root, es).tasks :: KnownTask(es, t)
  {
    if es != [] {
      PresentIsKnown(ids, root, es[..|es| - 1]);
    }
  }

  lemma {:induction false} RegionsAccepted(root: nat, es: seq<Element>, region: nat)
    requires KnownRegion(es, region)
    ensures region in InterpAll(Accepting(), root, es).regions
    decreases |es|
  {
    if es != [] {
      var front, last := es[..|es| - 1], es[|es| - 1];
      if region == 0 || KnownRegion(front, region) {
        RegionsAccepted(root, front, region);
      } else {
        RegionsAccepted(root, front, last.parent);
      }
    }
  }

  lemma {:induction false} TasksAccepted(root: nat, es: seq<Element>, task: nat)
    requires KnownTask(es, task)
    ensures task in InterpAll(Accepting(), root, es).tasks
    decreases |es|
  {
    var front, last := es[..|es| - 1], es[|es| - 1];
    if KnownTask(front, task) {
      TasksAccepted(root, front, task);
    } else {
      RegionsAccepted(root, front, last.region);
    }
  }

  lemma MisplacedIsForgotten(root: nat, es: seq<Element>, j: nat)
    requires Misplaced(es, j)
    ensures Forgotten(Accepting(), root, es, j)
  {
    TasksAccepted(root, es[..j], es[j].task);
    RegionsAccepted(root, es[..j], es[j].region);
  }

  lemma ForgottenIsMisplaced(ids: Answers, root: nat, es: seq<Element>, j: nat)
    requires Forgotten(ids, root, es, j)
    ensures Misplaced(es, j)
  {
    PresentIsKnown(ids, root, es[..j]);
  }

  /** Every runtime, whatever it refuses, sees all non-late obligations resolved exactly if none that earlier elements
      can make possible follows a cancellation. */
  lemma EveryRuntimeResolvesIff(es: seq<Element>)
    ensures (forall ids: Answers, root: nat :: ResolvesAll(ids, root, es)) <==> forall j: nat :: !Misplaced(es, j)
  {
    if j: nat :| Misplaced(es, j) {
      MisplacedIsForgotten(0, es, j);
      AllResolvedIff(Accepting(), 0, es);
      assert !ResolvesAll(Accepting(), 0, es);
    } else {
      forall ids: Answers, root: nat ensures ResolvesAll(ids, root, es) {
        forall j: nat ensures !Forgotten(ids, root, es, j) {
          if Forgotten(ids, root, es, j) {
            ForgottenIsMisplaced(ids, root, es, j);
          }
        }
        AllResolvedIff(ids, root, es);
      }
    }
  }

  /** A region, a task in it, the region cancelled, then an obligation: it is never resolved. */
  lemma LateRequestIsForgotten(root: nat)
    ensures !ResolvesAll(Accepting(), root,
                         [ERegion(1, 0), ESpawn(0, 1, 0), ECancel(1), EObligation(0, 1, 0, true, false)])
  {
    var es := [ERegion(1, 0), ESpawn(0, 1, 0), ECancel(1), EObligation(0, 1, 0, true, false)];
    assert es[..1] == [ERegion(1, 0)] && es[..1][..0] == [];
    assert KnownRegion(es[..1], 1);
    assert es[..2][..1] == es[..1] && es[..3][..2] == es[..2];
    assert KnownRegion(es[..2], 1) && KnownRegion(es[..3], 1);
    assert KnownTask(es[..2], 0) && KnownTask(es[..3], 0);
    assert es[2].ECancel? && AfterCancel(es, 3);
    MisplacedIsForgotten(root, es, 3);
    AllResolvedIff(Accepting(), root, es);
  }

  // ----- compiled scenarios and their parts -----

  /** No creation follows a cancellation. */
  ghost predicate CancelsAtEnd(es: seq<Element>) {
    forall i, j | 0 <= i < j < |es| && es[i].ECancel? :: !es[j].EObligation?
  }

  ghost predicate NoCancel(es: seq<Element>) {
    forall i | 0 <= i < |es| :: !es[i].ECancel?
  }

  lemma {:induction false} ObligationsNoCancel(draws: Draws, i: nat, j: nat, n: nat, c: Compiler)
    requires NoCancel(c.elems)
    ensures NoCancel(CompileObligations(draws, i, j, n, c).elems)
    decreases n - j
  {
    if j < n {
      ObligationsNoCancel(draws, i, j + 1, n, CompileObligation(draws, i, j, c));
    }
  }

  lemma {:induction false} TasksNoCancel(draws: Draws, i: nat, n: nat, c: Compiler)
    requires NoCancel(c.elems)
    ensures NoCancel(CompileTasks(draws, i, n, c).elems)
    decreases n - i
  {
    if i < n {
      ObligationsNoCancel(draws, i, 0, 1 + Draw(draws, c.pos + 1, 3), SpawnedAs(i, Draw(draws, c.pos, 4), c));
      TasksNoCancel(draws, i + 1, n, CompileTask(draws, i, c));
    }
  }

  lemma CompiledShape(draws: Draws, tasks: nat)
    ensures CancelsAtEnd(Compile(draws, tasks))
  {
    TasksNoCancel(draws, 0, tasks, REGIONS);
    var c := CompileTasks(draws, 0, tasks, REGIONS);
    var a := CompileAdvance(draws, 50, 100_000, c);
    assert NoCancel(a.elems);
    var b := a.(elems := a.elems + [ECancel(1)]);
    assert CancelsAtEnd(b.elems);
  }

  /** `part` keeps some elements of `whole`, in their order. */
  ghost predicate Picks(part: seq<Element>, whole: seq<Element>, at: seq<nat>) {
    && |at| == |part|
    && (forall k | 0 <= k < |at| :: at[k] < |whole| && part[k] == whole[at[k]])
    && (forall k, l | 0 <= k < l < |at| :: at[k] < at[l])
  }

  lemma PartCancelsAtEnd(part: seq<Element>, whole: seq<Element>, at: seq<nat>)
    requires Picks(part, whole, at) && CancelsAtEnd(whole)
    ensures CancelsAtEnd(part)
  {
    forall i, j | 0 <= i < j < |part| && part[i].ECancel? ensures !part[j].EObligation? {
      assert whole[at[i]].ECancel? && at[i] < at[j];
    }
  }

  /** Every order-preserving part of every compiled scenario: its resolutions are exactly the non-late obligations it
      managed to create, in order, and all come before any cancel request. */
  lemma PartsResolveAll(ids: Answers, root: nat, draws: Draws, tasks: nat, part: seq<Element>, at: seq<nat>)
    requires Picks(part, Compile(draws, tasks), at)
    ensures var s := InterpAll(ids, root, part);
            Resolutions(Finished(s).log) == ResolveOps(s.obligations) && ResolvedFirst(Finished(s).log)
  {
    CompiledShape(draws, tasks);
    PartCancelsAtEnd(part, Compile(draws, tasks), at);
    assert forall j: nat :: !Forgotten(ids, root, part, j);
    AllResolvedIff(ids, root, part);
    ResolvedBeforeCancel(ids, root, part);
  }

  // ----- exactly once per obligation -----

  function Times(log: seq<Op>, id: nat): nat {
    if log == [] then 0
    else
      var op := log[|log| - 1];
      Times(log[..|log| - 1], id) + if IsResolution(op) && op.id == id then 1 else 0
  }

  lemma {:induction false} TimesOfResolutions(log: seq<Op>, id: nat)
    ensures Times(log, id) == Times(Resolutions(log), id)
  {
    if log != [] {
      TimesOfResolutions(log[..|log| - 1], id);
      var front := Resolutions(log[..|log| - 1]);
      if IsResolution(log[|log| - 1]) {
        assert (front + [log[|log| - 1]])[..|front|] == front;
      } else {
        assert front + [] == front;
      }
    }
  }

  ghost predicate DistinctIds(os: seq<Tracked>) {
    forall i, j | 0 <= i < j < |os| :: os[i].id != os[j].id
  }

  lemma {:induction false} TimesResolved(os: seq<Tracked>, id: nat)
    requires DistinctIds(os)
    ensures (forall k | 0 <= k < |os| :: os[k].id != id) ==> Times(ResolveOps(os), id) == 0
    ensures forall k | 0 <= k < |os| && os[k].id == id :: Times(ResolveOps(os), id) == if os[k].late then 0 else 1
  {
    if os != [] {
      var front, last := os[..|os| - 1], os[|os| - 1];
      TimesResolved(front, id);
      var ops := ResolveOps(front);
      if last.late {
        assert ops + [] == ops;
      } else {
        assert (ops + [ResolveOp(last)])[..|ops|] == ops;
      }
      assert forall k | 0 <= k < |front| :: front[k] == os[k];
    }
  }

  /** With distinct obligation ids, each created obligation of a part of a compiled scenario is committed or aborted
      exactly once if it is not late, and never if it is. */
  lemma EachResolvedOnce(ids: Answers, root: nat, draws: Draws, tasks: nat, part: seq<Element>, at: seq<nat>, k: nat)
    requires Picks(part, Compile(draws, tasks), at)
    requires DistinctIds(InterpAll(ids, root, part).obligations) && k < |InterpAll(ids, root, part).obligations|
    ensures var o := InterpAll(ids, root, part).obligations[k];
            Times(Finished(InterpAll(ids, root, part)).log, o.id) == if o.late then 0 else 1
  {
    var s := InterpAll(ids, root, part);
    PartsResolveAll(ids, root, draws, tasks, part, at);
    TimesOfResolutions(Finished(s).log, s.obligations[k].id);
    TimesResolved(s.obligations, s.obligations[k].id);
  }
}
