/** Safety of the actor runtime over every run of `ActorMachine`. */
module ActorTheorems {
  import opened ActorMachine

  // ----- the log is a chain of incarnations -----

  /** `b` may directly follow `a` in a log. */
  predicate Follows<M>(a: Entry<M>, b: Entry<M>) {
    match b
    case OnStart(k) => (a.PanicIdle? || a.PanicOn?) && k == a.k + 1
    case Handled(k, _) => (a.OnStart? || a.Handled?) && a.k == k
    case OnStop(k) => (a.OnStart? || a.Handled?) && a.k == k
    case PanicOn(k, _) => (a.OnStart? || a.Handled?) && a.k == k
    case PanicIdle(k) =>
      || ((a.OnStart? || a.Handled?) && a.k == k)
      || ((a.PanicIdle? || a.PanicOn?) && k == a.k + 1)
  }

  /** A log made of incarnations 0, 1, 2, ...: each starts before it handles, every incarnation but
      the last crashed, and nothing follows an on_stop. */
  ghost predicate Chain<M>(log: seq<Entry<M>>) {
    && (log != [] ==> (log[0].OnStart? || log[0].PanicIdle?) && log[0].k == 0)
    && (forall i | 1 <= i < |log| :: Follows(log[i - 1], log[i]))
  }

  /** How the last log entry, the incarnation counter and the program counter fit together. */
  predicate Aligned<M>(w: World<M>) {
    match w.pc
    case Launch => Fresh(w)
    case Starting => Fresh(w)
    case Deliver(o) => EndedAs(w, o)
    case Mark(o) => EndedAs(w, o)
    case Release(o) => EndedAs(w, o)
    case Done(o) => EndedAs(w, o)
    case _ =>
      w.log != [] && var last := w.log[|w.log| - 1]; (last.OnStart? || last.Handled?) && last.k == w.inc
  }

  /** The current incarnation has done nothing yet; the previous one, if any, crashed. */
  predicate Fresh<M>(w: World<M>) {
    if w.log == [] then w.inc == 0
    else var last := w.log[|w.log| - 1]; (last.PanicIdle? || last.PanicOn?) && w.inc == last.k + 1
  }

  predicate EndedAs<M>(w: World<M>, o: Outcome) {
    w.log != [] && Ends(w.log[|w.log| - 1], o) && o.k == w.inc
  }

  predicate Ends<M>(last: Entry<M>, o: Outcome) {
    last.k == o.k && match o
    case Returned(_) => last.OnStop?
    case Failed(_) => last.PanicIdle? || last.PanicOn?
  }

  // ----- the mailbox -----

  /** Two-phase accounting: queued plus reserved slots never exceed the capacity, and permits need a sender. */
  predicate Bounded<M>(w: World<M>) {
    && 0 < w.capacity
    && |w.queue| + w.reserved <= w.capacity
    && (w.reserved > 0 ==> w.senders > 0)
  }

  /** Conservation: every committed message is consumed, in hand, or queued, in order and once. */
  ghost predicate Conserved<M>(w: World<M>) {
    if w.closed then Consumed(w.log) <= w.committed
    else Balanced(w.committed, Consumed(w.log), InHand(w.pc), w.queue)
  }

  ghost predicate Balanced<M>(committed: seq<M>, taken: seq<M>, hand: seq<M>, queue: seq<M>) {
    committed == taken + hand + queue
  }

  /** Number of messages the current incarnation's drain has taken. */
  function DrainTaken<M>(pc: Pc<M>): nat {
    match pc
    case Drain(d) => d
    case DrainHandling(d, _) => d + 1
    case _ => 0
  }

  /** Messages taken from the mailbox so far, the one in hand included. */
  function TakenCount<M>(w: World<M>): nat {
    |Consumed(w.log)| + |InHand(w.pc)|
  }

  /** The capped drain still reaches the mark set when it began. */
  predicate DrainSafe<M>(w: World<M>) {
    && w.mark <= |w.committed|
    && ((w.pc.Drain? || w.pc.DrainHandling?) ==>
          && DrainTaken(w.pc) <= w.capacity
          && (w.pc.Drain? ==> w.pc.drained < w.capacity)
          && w.mark + DrainTaken(w.pc) <= TakenCount(w) + w.capacity)
    && ((w.pc.RunStop? || (Over(w.pc) && w.pc.outcome.Returned?)) ==>
          w.mark <= |Consumed(w.log)|)
  }

  /** The cell says Stopped only once the actor is over. */
  predicate CellHonest<M>(w: World<M>) {
    && (w.cell.Stopped? ==> w.pc.Release? || w.pc.Done?)
    && (w.closed <==> w.pc.Done?)
  }

  ghost predicate Inv<M>(w: World<M>) {
    Bounded(w) && Conserved(w) && DrainSafe(w) && CellHonest(w) && Aligned(w) && Chain(w.log)
  }

  // ----- preservation -----

  lemma ConsumedSnoc<M>(log: seq<Entry<M>>, e: Entry<M>)
    ensures Consumed(log + [e]) == Consumed(log) + (if e.Handled? || e.PanicOn? then [e.msg] else [])
    ensures HandledOf(log + [e]) == HandledOf(log) + (if e.Handled? then [e.msg] else [])
  {
    assert (log + [e])[..|log|] == log;
  }

  lemma ChainSnoc<M>(log: seq<Entry<M>>, e: Entry<M>)
    requires Chain(log)
    requires if log == [] then (e.OnStart? || e.PanicIdle?) && e.k == 0 else Follows(log[|log| - 1], e)
    ensures Chain(log + [e])
  {
  }

  /** The entry an actor step writes, if any. */
  function Written<M>(w: World<M>, panics: bool): seq<Entry<M>> {
    match w.pc
    case Starting => [if panics then PanicIdle(w.inc) else OnStart(w.inc)]
    case Handling(m) => [if panics then PanicOn(w.inc, m) else Handled(w.inc, m)]
    case DrainHandling(_, m) => [if panics then PanicOn(w.inc, m) else Handled(w.inc, m)]
    case RunStop => [if panics then PanicIdle(w.inc) else OnStop(w.inc)]
    case _ => []
  }

  lemma ActWrites<M>(w: World<M>, panics: bool, decision: Decision)
    ensures ActStep(w, panics, decision).log == w.log + Written(w, panics)
  {
    match w.pc
    case Launch =>
    case Starting =>
    case CheckCancel =>
    case Receive =>
    case Handling(_) =>
    case EnterDrain =>
    case Drain(_) =>
    case DrainHandling(_, _) =>
    case RunStop =>
    case Deliver(_) =>
    case Mark(_) =>
    case Release(_) =>
    case Done(_) =>
  }

  lemma WrittenConsumes<M>(w: World<M>, panics: bool)
    ensures Consumed(w.log + Written(w, panics)) ==
            if Written(w, panics) == [] then Consumed(w.log) else Consumed(w.log) + InHand(w.pc)
  {
    var e := Written(w, panics);
    if e != [] {
      ConsumedSnoc(w.log, e[0]);
      assert e == [e[0]];
    } else {
      assert w.log + e == w.log;
    }
  }

  lemma ActConsumes<M>(w: World<M>, panics: bool, decision: Decision)
    ensures Consumed(ActStep(w, panics, decision).log) ==
            if Written(w, panics) == [] then Consumed(w.log) else Consumed(w.log) + InHand(w.pc)
  {
    ActWrites(w, panics, decision);
    WrittenConsumes(w, panics);
  }

  lemma WrittenChains<M>(w: World<M>, panics: bool)
    requires Chain(w.log) && Aligned(w)
    ensures Chain(w.log + Written(w, panics))
  {
    var e := Written(w, panics);
    if e != [] {
      ChainSnoc(w.log, e[0]);
      assert e == [e[0]];
    } else {
      assert w.log + e == w.log;
    }
  }

  lemma ActAligns<M>(w: World<M>, panics: bool, decision: Decision)
    requires Aligned(w)
    ensures Aligned(ActStep(w, panics, decision))
  {
    if Over(w.pc) {
      OverAligned(w, panics, decision);
    } else {
      RunningAligned(w, panics, decision);
    }
  }

  lemma OverAligned<M>(w: World<M>, panics: bool, decision: Decision)
    requires Aligned(w) && Over(w.pc)
    ensures Aligned(ActStep(w, panics, decision))
  {
    var w' := ActStep(w, panics, decision);
    assert w'.log == w.log && w'.inc == w.inc && Over(w'.pc) && w'.pc.outcome == w.pc.outcome;
    assert EndedAs(w, w.pc.outcome);
  }

  lemma RunningAligned<M>(w: World<M>, panics: bool, decision: Decision)
    requires Aligned(w) && !Over(w.pc)
    ensures Aligned(ActStep(w, panics, decision))
  {
    if Written(w, panics) == [] {
      SilentAligned(w, panics, decision);
    } else if panics {
      CrashAligned(w, Written(w, panics)[0], decision);
    } else if w.pc.RunStop? {
      StopAligned(w);
    } else {
      GoesOnAligned(w, Written(w, panics)[0], ActStep(w, panics, decision).pc);
    }
  }

  lemma SilentAligned<M>(w: World<M>, panics: bool, decision: Decision)
    requires Aligned(w) && !Over(w.pc) && Written(w, panics) == []
    ensures Aligned(ActStep(w, panics, decision))
  {
    var w' := ActStep(w, panics, decision);
    assert w'.log == w.log && w'.inc == w.inc && !Over(w'.pc) && !w'.pc.Launch?;
    assert w'.pc.Starting? <==> w.pc.Launch?;
  }

  lemma CrashAligned<M>(w: World<M>, entry: Entry<M>, decision: Decision)
    requires (entry.PanicIdle? || entry.PanicOn?) && entry.k == w.inc
    ensures Aligned(Crash(w, entry, decision))
  {
  }

  lemma StopAligned<M>(w: World<M>)
    ensures Aligned(w.(pc := Deliver(Returned(w.inc)), log := w.log + [OnStop(w.inc)]))
  {
  }

  lemma GoesOnAligned<M>(w: World<M>, entry: Entry<M>, pc: Pc<M>)
    requires (entry.OnStart? || entry.Handled?) && entry.k == w.inc
    requires pc.CheckCancel? || pc.Drain? || pc.RunStop?
    ensures Aligned(w.(pc := pc, log := w.log + [entry]))
  {
  }

  lemma EnvFrame<M>(w: World<M>, op: EnvOp<M>)
    ensures var w' := EnvStep(w, op);
            w'.pc == w.pc && w'.log == w.log && w'.inc == w.inc && w'.mark == w.mark && w'.capacity == w.capacity
    ensures w.committed <= EnvStep(w, op).committed
  {
  }

  lemma EnvConserves<M>(w: World<M>, op: EnvOp<M>)
    requires Conserved(w)
    ensures Conserved(EnvStep(w, op))
  {
    if op.Commit? && !w.closed {
      var taken := Consumed(w.log) + InHand(w.pc);
      assert taken + w.queue + [op.msg] == taken + (w.queue + [op.msg]);
    }
  }

  lemma EnvPreserves<M>(w: World<M>, op: EnvOp<M>)
    requires Inv(w)
    ensures Inv(EnvStep(w, op))
  {
    EnvFrame(w, op);
    EnvConserves(w, op);
    assert Bounded(EnvStep(w, op)) && CellHonest(EnvStep(w, op));
  }

  /** User code finishing, well or badly, turns the message in hand into a consumed one. */
  lemma UserStepConserves<M>(w: World<M>, panics: bool, decision: Decision)
    requires Conserved(w) && !w.closed && Written(w, panics) != []
    ensures Conserved(ActStep(w, panics, decision))
  {
    ActConsumes(w, panics, decision);
    UserStepShape(w, panics, decision);
    PutDown(w.committed, Consumed(w.log), InHand(w.pc), w.queue);
  }

  lemma UserStepShape<M>(w: World<M>, panics: bool, decision: Decision)
    requires Written(w, panics) != []
    ensures var w' := ActStep(w, panics, decision);
            && w'.queue == w.queue && w'.committed == w.committed && w'.closed == w.closed
            && !w'.pc.Handling? && !w'.pc.DrainHandling?
  {
  }

  lemma PutDown<M>(committed: seq<M>, taken: seq<M>, hand: seq<M>, queue: seq<M>)
    requires Balanced(committed, taken, hand, queue)
    ensures Balanced(committed, taken + hand, [], queue)
  {
  }

  /** A receive moves the head of the queue into the hand. */
  lemma TakeConserves<M>(w: World<M>, panics: bool, decision: Decision)
    requires Conserved(w) && !w.closed && (w.pc.Receive? || w.pc.Drain?)
    ensures Conserved(ActStep(w, panics, decision))
  {
    var w' := ActStep(w, panics, decision);
    TakeShape(w, panics, decision);
    if w'.queue != w.queue {
      PickUp(w.committed, Consumed(w.log), w.queue);
    }
  }

  lemma TakeShape<M>(w: World<M>, panics: bool, decision: Decision)
    requires w.pc.Receive? || w.pc.Drain?
    ensures var w' := ActStep(w, panics, decision);
            && w'.log == w.log && w'.committed == w.committed && w'.closed == w.closed
            && (if w'.queue == w.queue then InHand(w'.pc) == []
                else w.queue != [] && w'.queue == w.queue[1..] && InHand(w'.pc) == [w.queue[0]])
  {
  }

  lemma PickUp<M>(committed: seq<M>, taken: seq<M>, queue: seq<M>)
    requires Balanced(committed, taken, [], queue) && queue != []
    ensures Balanced(committed, taken, [queue[0]], queue[1..])
  {
    assert queue == [queue[0]] + queue[1..];
  }

  lemma ActConserves<M>(w: World<M>, panics: bool, decision: Decision)
    requires Conserved(w) && CellHonest(w)
    ensures Conserved(ActStep(w, panics, decision))
  {
    if w.closed {
      assert ActStep(w, panics, decision) == w;
    } else if Written(w, panics) != [] {
      UserStepConserves(w, panics, decision);
    } else if w.pc.Receive? || w.pc.Drain? {
      TakeConserves(w, panics, decision);
    }
  }

  /** Taking a message or finding the queue empty. */
  lemma DrainPollSafe<M>(w: World<M>, panics: bool, decision: Decision)
    requires Conserved(w) && !w.closed && DrainSafe(w) && w.pc.Drain?
    ensures DrainSafe(ActStep(w, panics, decision))
  {
    assert w.committed == Consumed(w.log) + w.queue;
  }

  lemma DrainStartSafe<M>(w: World<M>, panics: bool, decision: Decision)
    requires Bounded(w) && Conserved(w) && !w.closed && DrainSafe(w) && w.pc.EnterDrain?
    ensures DrainSafe(ActStep(w, panics, decision))
  {
    assert w.committed == Consumed(w.log) + w.queue;
  }

  lemma ActKeepsDrain<M>(w: World<M>, panics: bool, decision: Decision)
    requires Bounded(w) && Conserved(w) && DrainSafe(w) && CellHonest(w)
    ensures DrainSafe(ActStep(w, panics, decision))
  {
    if w.pc.Drain? {
      DrainPollSafe(w, panics, decision);
    } else if w.pc.EnterDrain? {
      DrainStartSafe(w, panics, decision);
    } else if w.pc.DrainHandling? || w.pc.RunStop? {
      DrainUserSafe(w, panics, decision);
    } else if Over(w.pc) {
      OverSafe(w, panics, decision);
    } else {
      BeforeDrainSafe(w, panics, decision);
    }
  }

  /** User code of the drain: the message in hand is consumed, and a crash starts or ends something else. */
  lemma DrainUserSafe<M>(w: World<M>, panics: bool, decision: Decision)
    requires DrainSafe(w) && 0 < w.capacity && (w.pc.DrainHandling? || w.pc.RunStop?)
    ensures DrainSafe(ActStep(w, panics, decision))
  {
    if panics {
      DrainCrashSafe(w, decision);
    } else if w.pc.RunStop? {
      ActConsumes(w, false, decision);
    } else {
      DrainHandledSafe(w, decision);
    }
  }

  lemma DrainCrashSafe<M>(w: World<M>, decision: Decision)
    requires DrainSafe(w) && (w.pc.DrainHandling? || w.pc.RunStop?)
    ensures DrainSafe(ActStep(w, true, decision))
  {
    var w' := ActStep(w, true, decision);
    assert w'.mark == w.mark && w'.committed == w.committed;
    assert w'.pc.Launch? || w'.pc == Deliver(Failed(w.inc));
  }

  lemma DrainHandledSafe<M>(w: World<M>, decision: Decision)
    requires DrainSafe(w) && 0 < w.capacity && w.pc.DrainHandling?
    ensures DrainSafe(ActStep(w, false, decision))
  {
    var entry := Handled(w.inc, w.pc.msg);
    var w' := w.(pc := AfterDrained(w.capacity, w.pc.drained), log := w.log + [entry]);
    assert ActStep(w, false, decision) == w';
    ConsumedSnoc(w.log, entry);
    assert |Consumed(w'.log)| == |Consumed(w.log)| + 1;
    assert InHand(w.pc) == [w.pc.msg] && InHand(w'.pc) == [];
  }

  lemma OverSafe<M>(w: World<M>, panics: bool, decision: Decision)
    requires DrainSafe(w) && Over(w.pc)
    ensures DrainSafe(ActStep(w, panics, decision))
  {
    assert ActStep(w, panics, decision).log == w.log;
  }

  lemma BeforeDrainSafe<M>(w: World<M>, panics: bool, decision: Decision)
    requires DrainSafe(w) && !Over(w.pc)
    requires !w.pc.EnterDrain? && !w.pc.Drain? && !w.pc.DrainHandling? && !w.pc.RunStop?
    ensures DrainSafe(ActStep(w, panics, decision))
  {
    var w' := ActStep(w, panics, decision);
    assert w'.mark == w.mark && w'.committed == w.committed;
    assert Over(w'.pc) ==> w'.pc.outcome.Failed?;
  }

  lemma ActKeepsMailbox<M>(w: World<M>, panics: bool, decision: Decision)
    requires Bounded(w) && CellHonest(w)
    ensures Bounded(ActStep(w, panics, decision)) && CellHonest(ActStep(w, panics, decision))
    ensures ActStep(w, panics, decision).committed == w.committed
    ensures ActStep(w, panics, decision).capacity == w.capacity
  {
    ActFrame(w, panics, decision);
    ActShrinksQueue(w, panics, decision);
    ActKeepsCell(w, panics, decision);
  }

  lemma ActFrame<M>(w: World<M>, panics: bool, decision: Decision)
    ensures ActStep(w, panics, decision).committed == w.committed
    ensures ActStep(w, panics, decision).capacity == w.capacity
    ensures ActStep(w, panics, decision).reserved == w.reserved
    ensures ActStep(w, panics, decision).senders == w.senders
  {
    match w.pc
    case Drain(_) =>
    case Receive =>
    case _ =>
  }

  lemma ActShrinksQueue<M>(w: World<M>, panics: bool, decision: Decision)
    ensures |ActStep(w, panics, decision).queue| <= |w.queue|
  {
  }

  lemma ActKeepsCell<M>(w: World<M>, panics: bool, decision: Decision)
    requires CellHonest(w)
    ensures CellHonest(ActStep(w, panics, decision))
  {
  }

  lemma ActPreserves<M>(w: World<M>, panics: bool, decision: Decision)
    requires Inv(w)
    ensures Inv(ActStep(w, panics, decision))
    ensures ActStep(w, panics, decision).committed == w.committed
    ensures ActStep(w, panics, decision).capacity == w.capacity
  {
    ActKeepsMailbox(w, panics, decision);
    ActConserves(w, panics, decision);
    ActKeepsDrain(w, panics, decision);
    ActAligns(w, panics, decision);
    ActWrites(w, panics, decision);
    WrittenChains(w, panics);
  }

  lemma StepPreserves<M>(w: World<M>, c: Choice<M>)
    requires Inv(w)
    ensures Inv(Step(w, c)) && Step(w, c).capacity == w.capacity
  {
    match c
    case Env(op) =>
      EnvPreserves(w, op);
      EnvFrame(w, op);
    case Act(p, d) => ActPreserves(w, p, d);
  }

  /** Every reachable world satisfies the invariant. */
  lemma {:induction false} Reachable<M>(capacity: nat, steps: seq<Choice<M>>)
    requires capacity > 0
    ensures Inv(Run(Spawned<M>(capacity), steps))
    ensures Run(Spawned<M>(capacity), steps).capacity == capacity
  {
    if steps != [] {
      var before := steps[..|steps| - 1];
      Reachable(capacity, before);
      StepPreserves(Run(Spawned<M>(capacity), before), steps[|steps| - 1]);
    }
  }

  // ----- the theorems -----

  /** Each message is consumed by exactly one incarnation: in every interleaving, whatever panics and
      restarts occur, what all incarnations consumed is, in order, a prefix of what was committed; while the
      receiver lives the rest is exactly the message in hand and the queue. */
  lemma ConsumptionIsPrefix<M>(capacity: nat, steps: seq<Choice<M>>)
    requires capacity > 0
    ensures var w := Run(Spawned<M>(capacity), steps);
            && Consumed(w.log) <= w.committed
            && (!w.pc.Done? ==> w.committed == Consumed(w.log) + InHand(w.pc) + w.queue)
            && |w.queue| + w.reserved <= capacity
  {
    Reachable(capacity, steps);
  }

  /** Splitting a run. */
  lemma {:induction false} RunSplit<M>(w: World<M>, a: seq<Choice<M>>, b: seq<Choice<M>>)
    ensures Run(w, a + b) == Run(Run(w, a), b)
  {
    if b == [] {
      assert a + b == a;
    } else {
      RunSplit(w, a, b[..|b| - 1]);
      assert (a + b)[..|a + b| - 1] == a + b[..|b| - 1];
    }
  }

  /** From the moment incarnation `w0.inc` leaves its message loop, until it ends. */
  ghost predicate DrainOf<M>(w0: World<M>, w: World<M>) {
    && w0.committed <= w.committed
    && w.capacity == w0.capacity
    && w.inc >= w0.inc
    && (w.inc == w0.inc ==> DrainProgress(|w0.committed|, |Consumed(w0.log)|, w))
  }

  /** Progress of a drain that began with `committed` messages committed and `taken` of them consumed. */
  ghost predicate DrainProgress<M>(committed: nat, taken: nat, w: World<M>) {
    match w.pc
    case EnterDrain => |Consumed(w.log)| == taken && |w.committed| >= committed
    case Drain(d) => w.mark >= committed && |Consumed(w.log)| == taken + d
    case DrainHandling(d, _) => w.mark >= committed && |Consumed(w.log)| == taken + d
    case RunStop => w.mark >= committed && |Consumed(w.log)| <= taken + w.capacity
    case Deliver(_) => w.mark >= committed && |Consumed(w.log)| <= taken + w.capacity
    case Mark(_) => w.mark >= committed && |Consumed(w.log)| <= taken + w.capacity
    case Release(_) => w.mark >= committed && |Consumed(w.log)| <= taken + w.capacity
    case Done(_) => w.mark >= committed && |Consumed(w.log)| <= taken + w.capacity
    case _ => false
  }

  lemma DrainProgressStep<M>(committed: nat, taken: nat, w: World<M>, panics: bool, decision: Decision)
    requires DrainSafe(w) && 0 < w.capacity && DrainProgress(committed, taken, w)
    ensures var w' := ActStep(w, panics, decision);
            w'.inc == w.inc ==> DrainProgress(committed, taken, w')
  {
    ActConsumes(w, panics, decision);
    match w.pc
    case EnterDrain =>
    case Drain(_) =>
    case DrainHandling(d, _) => assert DrainTaken(w.pc) == d + 1 <= w.capacity;
    case RunStop =>
    case Deliver(_) =>
    case Mark(_) =>
    case Release(_) =>
    case Done(_) =>
  }

  lemma IncGrows<M>(w: World<M>, panics: bool, decision: Decision)
    ensures ActStep(w, panics, decision).inc >= w.inc
  {
  }

  lemma DrainOfStep<M>(w0: World<M>, w: World<M>, c: Choice<M>)
    requires Inv(w) && DrainOf(w0, w)
    ensures DrainOf(w0, Step(w, c))
  {
    match c
    case Env(op) => EnvFrame(w, op);
    case Act(p, d) =>
      ActKeepsMailbox(w, p, d);
      IncGrows(w, p, d);
      if w.inc == w0.inc {
        DrainProgressStep(|w0.committed|, |Consumed(w0.log)|, w, p, d);
      }
  }

  lemma {:induction false} DrainOfRun<M>(w0: World<M>, steps: seq<Choice<M>>)
    requires Inv(w0) && w0.pc.EnterDrain?
    ensures Inv(Run(w0, steps)) && DrainOf(w0, Run(w0, steps))
  {
    if steps != [] {
      var before := steps[..|steps| - 1];
      DrainOfRun(w0, before);
      DrainOfStep(w0, Run(w0, before), steps[|steps| - 1]);
      StepPreserves(Run(w0, before), steps[|steps| - 1]);
    }
  }

  /** The capped drain loses nothing: if an incarnation leaves its message loop after `before` and the run
      then ends with that same incarnation being returned, then every message committed by the end of
      `before` was consumed, on_stop came after all of it, and the drain took at most `capacity` messages,
      whatever the senders did meanwhile. */
  lemma DrainDeliversAll<M>(capacity: nat, before: seq<Choice<M>>, after: seq<Choice<M>>)
    requires capacity > 0
    requires Run(Spawned<M>(capacity), before).pc.EnterDrain?
    requires var w := Run(Spawned<M>(capacity), before + after);
             Over(w.pc) && w.pc.outcome == Returned(Run(Spawned<M>(capacity), before).inc)
    ensures var w0, w := Run(Spawned<M>(capacity), before), Run(Spawned<M>(capacity), before + after);
            && w0.committed <= Consumed(w.log)
            && w.log != [] && w.log[|w.log| - 1] == OnStop(w0.inc)
            && |Consumed(w.log)| <= |Consumed(w0.log)| + capacity
  {
    var w0 := Run(Spawned<M>(capacity), before);
    Reachable(capacity, before);
    RunSplit(Spawned<M>(capacity), before, after);
    DrainOfRun(w0, after);
    DrainConcluded(w0, Run(w0, after));
  }

  lemma DrainConcluded<M>(w0: World<M>, w: World<M>)
    requires Inv(w) && DrainOf(w0, w) && Over(w.pc) && w.pc.outcome == Returned(w0.inc)
    ensures w0.committed <= Consumed(w.log)
    ensures w.log != [] && w.log[|w.log| - 1] == OnStop(w0.inc)
    ensures |Consumed(w.log)| <= |Consumed(w0.log)| + w0.capacity
  {
    assert EndedAs(w, w.pc.outcome);
    assert Consumed(w.log) <= w.committed;
  }

  predicate NoPanicEntry<M>(log: seq<Entry<M>>) {
    forall i | 0 <= i < |log| :: !log[i].PanicIdle? && !log[i].PanicOn?
  }

  /** In a log without panics every consumed message was handled to completion. */
  lemma {:induction false} ConsumedIsHandled<M>(log: seq<Entry<M>>)
    requires NoPanicEntry(log)
    ensures HandledOf(log) == Consumed(log)
  {
    if log != [] {
      ConsumedIsHandled(log[..|log| - 1]);
      assert !log[|log| - 1].PanicOn?;
    }
  }

  lemma PanicFreeStep<M>(w: World<M>, decision: Decision)
    requires NoPanicEntry(w.log)
    ensures NoPanicEntry(ActStep(w, false, decision).log) && ActStep(w, false, decision).inc == w.inc
  {
    ActWrites(w, false, decision);
  }

  lemma {:induction false} NoPanicRun<M>(capacity: nat, steps: seq<Choice<M>>)
    requires capacity > 0 && PanicFree(steps)
    ensures Run(Spawned<M>(capacity), steps).inc == 0 && NoPanicEntry(Run(Spawned<M>(capacity), steps).log)
  {
    if steps != [] {
      var before, last := steps[..|steps| - 1], steps[|steps| - 1];
      NoPanicRun(capacity, before);
      var w := Run(Spawned<M>(capacity), before);
      match last
      case Env(op) => EnvFrame(w, op);
      case Act(p, d) =>
        assert !p;
        PanicFreeStep(w, d);
    }
  }

  /** No panics: one incarnation, and consumed means handled. */
  lemma PanicFreeHandles<M>(capacity: nat, steps: seq<Choice<M>>)
    requires capacity > 0 && PanicFree(steps)
    ensures var w := Run(Spawned<M>(capacity), steps);
            && w.inc == 0
            && HandledOf(w.log) == Consumed(w.log)
            && NoPanicEntry(w.log)
  {
    NoPanicRun(capacity, steps);
    ConsumedIsHandled(Run(Spawned<M>(capacity), steps).log);
  }

  /** Graceful shutdown without panics: everything committed before the actor left its message loop is
      handled, in commit order, before the final on_stop, and what is handled is a prefix of what was
      committed. */
  lemma GracefulShutdown<M>(capacity: nat, before: seq<Choice<M>>, after: seq<Choice<M>>)
    requires capacity > 0 && PanicFree(before + after)
    requires Run(Spawned<M>(capacity), before).pc.EnterDrain?
    requires Run(Spawned<M>(capacity), before + after).pc.Done?
    ensures var w0, w := Run(Spawned<M>(capacity), before), Run(Spawned<M>(capacity), before + after);
            && w.pc == Done(Returned(0))
            && w0.committed <= HandledOf(w.log) <= w.committed
            && |HandledOf(w.log)| <= |HandledOf(w0.log)| + capacity
            && w.log != [] && w.log[|w.log| - 1] == OnStop(0)
  {
    var w0, w := Run(Spawned<M>(capacity), before), Run(Spawned<M>(capacity), before + after);
    assert PanicFree(before) by {
      forall i | 0 <= i < |before| ensures before[i].Act? ==> !before[i].panics {
        assert (before + after)[i] == before[i];
      }
    }
    PanicFreeHandles(capacity, before);
    PanicFreeHandles(capacity, before + after);
    Reachable(capacity, before + after);
    assert Ends(w.log[|w.log| - 1], w.pc.outcome);
    DrainDeliversAll(capacity, before, after);
  }

  /** From `s` on, the log is the complete life of incarnation `k`; before it, earlier incarnations crashed. */
  ghost predicate LifeFrom<M>(log: seq<Entry<M>>, s: nat, k: nat) {
    && s + 1 < |log|
    && log[s] == OnStart(k)
    && log[|log| - 1] == OnStop(k)
    && (forall i | s < i < |log| - 1 :: log[i].Handled? && log[i].k == k)
    && (forall i | 0 <= i < s :: log[i].k < k && !log[i].OnStop?)
    && (s == 0 <==> k == 0)
    && (s > 0 ==> (log[s - 1].PanicIdle? || log[s - 1].PanicOn?) && log[s - 1].k == k - 1)
  }

  lemma LastStart<M>(log: seq<Entry<M>>) returns (s: nat)
    requires Chain(log) && log != [] && log[|log| - 1].OnStop?
    ensures s < |log| - 1 && log[s] == OnStart(log[|log| - 1].k)
    ensures forall i | s < i < |log| - 1 :: log[i].Handled? && log[i].k == log[|log| - 1].k
  {
    s := |log| - 1;
    while !log[s].OnStart?
      invariant s < |log|
      invariant log[s].k == log[|log| - 1].k && (s == |log| - 1 || log[s].OnStart? || log[s].Handled?)
      invariant forall i | s < i < |log| - 1 :: log[i].Handled? && log[i].k == log[|log| - 1].k
      decreases s
    {
      assert s > 0;
      assert Follows(log[s - 1], log[s]);
      s := s - 1;
    }
  }

  lemma LogOfReturned<M>(log: seq<Entry<M>>) returns (s: nat)
    requires Chain(log) && log != [] && log[|log| - 1].OnStop?
    ensures LifeFrom(log, s, log[|log| - 1].k)
  {
    s := LastStart(log);
    if s > 0 {
      assert Follows(log[s - 1], log[s]);
    }
    forall i | 0 <= i < s ensures log[i].k < log[s].k && !log[i].OnStop? {
      Earlier(log, i, s);
    }
  }

  lemma LifeOfReturned<M>(w: World<M>) returns (s: nat)
    requires Inv(w) && Over(w.pc) && w.pc.outcome.Returned?
    ensures LifeFrom(w.log, s, w.pc.outcome.k)
  {
    assert Ends(w.log[|w.log| - 1], w.pc.outcome);
    s := LogOfReturned(w.log);
  }

  /** What a returned actor went through: it is the last incarnation, it ran on_start first, handled only
      messages in between and ran on_stop exactly once, last; every earlier incarnation crashed. */
  lemma ReturnedLifecycle<M>(capacity: nat, steps: seq<Choice<M>>) returns (s: nat)
    requires capacity > 0
    requires var w := Run(Spawned<M>(capacity), steps);
             Over(w.pc) && w.pc.outcome.Returned?
    ensures var w := Run(Spawned<M>(capacity), steps); LifeFrom(w.log, s, w.pc.outcome.k)
  {
    Reachable(capacity, steps);
    s := LifeOfReturned(Run(Spawned<M>(capacity), steps));
  }

  lemma {:induction false} Earlier<M>(log: seq<Entry<M>>, i: nat, s: nat)
    requires Chain(log) && i < s < |log| && log[s].OnStart?
    ensures log[i].k < log[s].k && !log[i].OnStop?
  {
    var j := s - 1;
    assert Follows(log[j], log[s]);
    while j > i
      invariant i <= j < s && log[j].k < log[s].k && !log[j].OnStop?
    {
      assert Follows(log[j - 1], log[j]);
      j := j - 1;
    }
  }

  // ----- bounded shutdown -----

  function ActCount<M>(steps: seq<Choice<M>>): nat {
    if steps == [] then 0
    else ActCount(steps[..|steps| - 1]) + (if steps[|steps| - 1].Act? then 1 else 0)
  }

  /** Actor steps still needed once the message loop is over. */
  function StepsLeft<M>(w: World<M>): int {
    match w.pc
    case EnterDrain => 2 * w.capacity + 6
    case Drain(d) => 2 * (w.capacity - d) + 5
    case DrainHandling(d, _) => 2 * (w.capacity - d) + 4
    case RunStop => 4
    case Deliver(_) => 3
    case Mark(_) => 2
    case Release(_) => 1
    case _ => 0
  }

  predicate ShuttingDown<M>(w: World<M>) {
    0 < w.capacity && match w.pc
    case EnterDrain => true
    case Drain(d) => d < w.capacity
    case DrainHandling(d, _) => d < w.capacity
    case RunStop => true
    case Deliver(_) => true
    case Mark(_) => true
    case Release(_) => true
    case Done(_) => true
    case _ => false
  }

  lemma ShutdownStep<M>(w: World<M>, c: Choice<M>)
    requires ShuttingDown(w) && (c.Act? ==> !c.panics)
    ensures ShuttingDown(Step(w, c))
    ensures w.pc.Done? ==> Step(w, c).pc.Done?
    ensures StepsLeft(Step(w, c)) <= StepsLeft(w) - (if c.Act? && !w.pc.Done? then 1 else 0)
    ensures StepsLeft(Step(w, c)) <= 0 ==> Step(w, c).pc.Done?
  {
  }

  /** Shutdown is bounded: once the message loop is over, every run without panics in which the actor task
      takes 2 * capacity + 6 steps is done, even if senders keep filling the mailbox throughout. */
  lemma {:induction false} ShutdownIsBounded<M>(w0: World<M>, steps: seq<Choice<M>>)
    requires ShuttingDown(w0) && PanicFree(steps)
    ensures var w := Run(w0, steps);
            && ShuttingDown(w)
            && (w.pc.Done? || StepsLeft(w) + ActCount(steps) <= StepsLeft(w0))
            && (ActCount(steps) >= 2 * w0.capacity + 6 ==> w.pc.Done?)
  {
    if steps != [] {
      var before := steps[..|steps| - 1];
      ShutdownIsBounded(w0, before);
      ShutdownStep(Run(w0, before), steps[|steps| - 1]);
    }
    assert StepsLeft(w0) <= 2 * w0.capacity + 6;
  }
}
