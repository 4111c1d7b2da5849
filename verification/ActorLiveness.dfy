/** What an actor owes its owner: it stops when asked to, it restarts exactly when the supervisor says so, and it can be
    sent to exactly while there is room. */
module ActorLiveness {
  import opened ActorMachine
  import opened ActorTheorems

  // ----- being asked to stop -----

  /** Nobody can make the actor go on: it is cancelled, or no sender is left. */
  predicate Asked<M>(w: World<M>) {
    w.cancelled || w.senders == 0
  }

  /** Before the drain of the current incarnation. */
  predicate BeforeDrain<M>(pc: Pc<M>) {
    pc.Launch? || pc.Starting? || pc.CheckCancel? || pc.Receive? || pc.Handling?
  }

  /** Actor steps that remain at most: three per message still queued, unless cancelled, then the shutdown. */
  function Remaining<M>(w: World<M>): int {
    var queued := if w.cancelled then 0 else 3 * |w.queue| + 1;
    var shutdown := 2 * w.capacity + 6;
    match w.pc
    case Launch => queued + 3 + shutdown
    case Starting => queued + 2 + shutdown
    case CheckCancel => queued + 1 + shutdown
    case Receive => queued + (if w.cancelled then 1 else 0) + shutdown
    case Handling(_) => queued + 2 + shutdown
    case _ => StepsLeft(w)
  }

  /** Asked to stop, with room left to count and an incarnation that has not been given up. */
  predicate Winding<M>(w: World<M>) {
    && Asked(w) && 0 < w.capacity && (w.reserved > 0 ==> w.senders > 0)
    && (BeforeDrain(w.pc) || ShuttingDown(w))
    && (Over(w.pc) ==> w.pc.outcome == Returned(w.inc))
  }

  lemma EnvWinds<M>(w: World<M>, op: EnvOp<M>)
    requires Winding(w)
    ensures Winding(EnvStep(w, op)) && Remaining(EnvStep(w, op)) <= Remaining(w)
    ensures EnvStep(w, op).inc == w.inc && EnvStep(w, op).pc == w.pc
  {
    EnvFrame(w, op);
  }

  lemma LoopWinds<M>(w: World<M>, d: Decision)
    requires Winding(w) && BeforeDrain(w.pc)
    ensures var w' := ActStep(w, false, d);
            Winding(w') && Remaining(w') < Remaining(w) && w'.inc == w.inc && !Over(w'.pc)
  {
    ActFrame(w, false, d);
  }

  lemma EndWinds<M>(w: World<M>, d: Decision)
    requires Winding(w) && !BeforeDrain(w.pc)
    ensures var w' := ActStep(w, false, d);
            && Winding(w') && w'.inc == w.inc && Remaining(w') <= Remaining(w) - if w.pc.Done? then 0 else 1
  {
    ActFrame(w, false, d);
    ShutdownStep(w, Act(false, d));
  }

  lemma StepWinds<M>(w: World<M>, c: Choice<M>)
    requires Winding(w) && (c.Act? ==> !c.panics)
    ensures Winding(Step(w, c)) && Step(w, c).inc == w.inc
    ensures Remaining(Step(w, c)) <= Remaining(w) - if c.Act? && !w.pc.Done? then 1 else 0
  {
    match c
    case Env(op) => EnvWinds(w, op);
    case Act(_, d) =>
      if BeforeDrain(w.pc) {
        LoopWinds(w, d);
      } else {
        EndWinds(w, d);
      }
  }

  lemma NothingRemains<M>(w: World<M>)
    requires Winding(w) && Remaining(w) <= 0
    ensures w.pc.Done?
  {
  }

  lemma {:induction false} WindsDown<M>(w: World<M>, steps: seq<Choice<M>>)
    requires Winding(w) && PanicFree(steps)
    ensures Winding(Run(w, steps)) && Run(w, steps).inc == w.inc
    ensures Run(w, steps).pc.Done? || Remaining(Run(w, steps)) + ActCount(steps) <= Remaining(w)
  {
    if steps != [] {
      var n := |steps| - 1;
      WindsDown(w, steps[..n]);
      assert steps[n].Act? ==> !steps[n].panics;
      StepWinds(Run(w, steps[..n]), steps[n]);
      if Run(w, steps[..n]).pc.Done? {
        StaysDone(Run(w, steps[..n]), steps[n]);
      }
    }
  }

  lemma StaysDone<M>(w: World<M>, c: Choice<M>)
    requires w.pc.Done?
    ensures Step(w, c).pc == w.pc
  {
    if c.Env? {
      EnvFrame(w, c.op);
    }
  }

  /** From every reachable world in which the actor is cancelled, or has no sender left, and has not been given up:
      every run without panics that gives the actor 5 * capacity + 10 steps ends with that incarnation returned,
      whatever senders do; when it is cancelled, 2 * capacity + 9 are enough. */
  lemma StopsWhenAsked<M>(capacity: nat, before: seq<Choice<M>>, after: seq<Choice<M>>)
    requires capacity > 0 && PanicFree(after)
    requires var w := Run(Spawned<M>(capacity), before); Asked(w) && (Over(w.pc) ==> w.pc.outcome.Returned?)
    ensures var w0, w := Run(Spawned<M>(capacity), before), Run(Spawned<M>(capacity), before + after);
            ActCount(after) >= (if w0.cancelled then 2 * capacity + 9 else 5 * capacity + 10) ==>
              w.pc == Done(Returned(w0.inc))
  {
    var w0 := Run(Spawned<M>(capacity), before);
    Reachable(capacity, before);
    RunSplit(Spawned<M>(capacity), before, after);
    AskedWinds(w0);
    RemainingBound(w0);
    WindsDown(w0, after);
    if ActCount(after) >= Remaining(w0) && !Run(w0, after).pc.Done? {
      NothingRemains(Run(w0, after));
    }
  }

  lemma AskedWinds<M>(w: World<M>)
    requires Inv(w) && Asked(w) && (Over(w.pc) ==> w.pc.outcome.Returned?)
    ensures Winding(w)
  {
    if Over(w.pc) {
      assert EndedAs(w, w.pc.outcome);
    }
  }

  lemma RemainingBound<M>(w: World<M>)
    requires Bounded(w) && Winding(w)
    ensures Remaining(w) <= 5 * w.capacity + 10
    ensures w.cancelled ==> Remaining(w) <= 2 * w.capacity + 9
  {
  }

  /** Everything taken from the mailbox so far, the message in hand included. */
  function Taken<M>(w: World<M>): seq<M> {
    Consumed(w.log) + InHand(w.pc)
  }

  lemma NoTakeStep<M>(w: World<M>, c: Choice<M>)
    requires w.cancelled && BeforeDrain(w.pc)
    ensures Taken(Step(w, c)) == Taken(w) && Step(w, c).cancelled
    ensures BeforeDrain(Step(w, c).pc) || Step(w, c).pc.EnterDrain? || Over(Step(w, c).pc)
  {
    match c
    case Env(op) => EnvFrame(w, op);
    case Act(panics, d) =>
      ActConsumes(w, panics, d);
      NoTakeShape(w, panics, d);
      TakenAfter(w, ActStep(w, panics, d), panics);
  }

  lemma NoTakeShape<M>(w: World<M>, panics: bool, d: Decision)
    requires w.cancelled && BeforeDrain(w.pc)
    ensures var w' := ActStep(w, panics, d);
            InHand(w'.pc) == [] && w'.cancelled && (BeforeDrain(w'.pc) || w'.pc.EnterDrain? || Over(w'.pc))
    ensures Written(w, panics) == [] ==> InHand(w.pc) == []
  {
    match w.pc
    case Launch =>
    case Starting =>
    case CheckCancel =>
    case Receive =>
    case Handling(_) =>
  }

  lemma TakenAfter<M>(w: World<M>, w': World<M>, panics: bool)
    requires Consumed(w'.log) == if Written(w, panics) == [] then Consumed(w.log) else Consumed(w.log) + InHand(w.pc)
    requires InHand(w'.pc) == [] && (Written(w, panics) == [] ==> InHand(w.pc) == [])
    ensures Taken(w') == Taken(w)
  {
  }

  /** Once cancelled, the message loop takes nothing more from the mailbox: until the drain begins, at most the message
      already in hand is handled, whatever arrives and whatever panics. */
  lemma {:induction false} CancelledLoopTakesNothing<M>(w: World<M>, steps: seq<Choice<M>>)
    requires w.cancelled && BeforeDrain(w.pc)
    requires forall n | 0 <= n < |steps| :: BeforeDrain(Run(w, steps[..n]).pc)
    ensures Taken(Run(w, steps)) == Taken(w) && Run(w, steps).cancelled
  {
    if steps != [] {
      var n := |steps| - 1;
      forall k | 0 <= k < n ensures BeforeDrain(Run(w, steps[..n][..k]).pc) {
        assert steps[..n][..k] == steps[..k];
      }
      CancelledLoopTakesNothing(w, steps[..n]);
      assert BeforeDrain(Run(w, steps[..n]).pc);
      NoTakeStep(Run(w, steps[..n]), steps[n]);
    }
  }

  /** The drain of an incarnation has begun, or the incarnation has returned. */
  predicate PastLoop<M>(pc: Pc<M>) {
    pc.EnterDrain? || pc.Drain? || pc.DrainHandling? || pc.RunStop? || (Over(pc) && pc.outcome.Returned?)
  }

  /** Cancelled, or no sender left and nothing queued. */
  predicate NothingToDo<M>(w: World<M>) {
    w.cancelled || (w.senders == 0 && w.queue == [])
  }

  lemma LoopStep<M>(w: World<M>, c: Choice<M>)
    requires Bounded(w) && (PastLoop(w.pc) ==> NothingToDo(w))
    ensures PastLoop(Step(w, c).pc) ==> NothingToDo(Step(w, c))
  {
    match c
    case Env(op) => EnvFrame(w, op);
    case Act(panics, d) =>
      ActFrame(w, panics, d);
      ActShrinksQueue(w, panics, d);
      ActKeepsAsked(w, panics, d);
  }

  lemma ActKeepsAsked<M>(w: World<M>, panics: bool, d: Decision)
    requires PastLoop(w.pc) ==> NothingToDo(w)
    ensures ActStep(w, panics, d).cancelled == w.cancelled
    ensures PastLoop(ActStep(w, panics, d).pc) ==> NothingToDo(w)
  {
    match w.pc
    case Receive =>
    case CheckCancel =>
    case Handling(_) =>
    case _ =>
  }

  /** And it stops only when asked: no drain begins, and no incarnation returns, before the actor is cancelled, or the
      last sender is gone and every message has been received. */
  lemma {:induction false} StopsOnlyWhenAsked<M>(capacity: nat, steps: seq<Choice<M>>)
    requires capacity > 0
    ensures PastLoop(Run(Spawned<M>(capacity), steps).pc) ==> NothingToDo(Run(Spawned<M>(capacity), steps))
  {
    if steps != [] {
      var n := |steps| - 1;
      StopsOnlyWhenAsked(capacity, steps[..n]);
      Reachable(capacity, steps[..n]);
      LoopStep(Run(Spawned<M>(capacity), steps[..n]), steps[n]);
    }
  }

  // ----- supervision -----

  /** The actor panics in user code, and the supervisor decides `restart` or not. */
  predicate Panics<M>(w: World<M>, c: Choice<M>, restart: bool) {
    && c.Act? && c.panics && (w.pc.Starting? || w.pc.Handling? || w.pc.DrainHandling? || w.pc.RunStop?)
    && (restart <==> c.decision == Restart)
  }

  /** How many panics of a run were answered so. */
  function Answered<M>(w: World<M>, steps: seq<Choice<M>>, restart: bool): nat {
    if steps == [] then 0
    else
      var n := |steps| - 1;
      Answered(w, steps[..n], restart) + if Panics(Run(w, steps[..n]), steps[n], restart) then 1 else 0
  }

  lemma CrashStep<M>(w: World<M>, entry: Entry<M>, d: Decision)
    ensures Crash(w, entry, d).inc == w.inc + if d == Restart then 1 else 0
    ensures GivenUp(Crash(w, entry, d)) <==> d != Restart
  {
  }

  lemma CalmStep<M>(w: World<M>, panics: bool, d: Decision)
    requires panics ==> Written(w, panics) == []
    ensures ActStep(w, panics, d).inc == w.inc
    ensures GivenUp(ActStep(w, panics, d)) <==> GivenUp(w)
  {
    if Over(w.pc) {
      assert ActStep(w, panics, d).inc == w.inc;
    }
  }

  lemma SupervisedStep<M>(w: World<M>, c: Choice<M>)
    ensures Step(w, c).inc == w.inc + if Panics(w, c, true) then 1 else 0
    ensures GivenUp(Step(w, c)) <==> GivenUp(w) || Panics(w, c, false)
  {
    match c
    case Env(op) => EnvFrame(w, op);
    case Act(panics, d) =>
      if panics && Written(w, panics) != [] {
        var entry := Written(w, panics)[0];
        assert ActStep(w, panics, d) == Crash(w, entry, d);
        CrashStep(w, entry, d);
      } else {
        CalmStep(w, panics, d);
      }
  }

  predicate GivenUp<M>(w: World<M>) {
    Over(w.pc) && w.pc.outcome.Failed?
  }

  /** Over every run: the incarnation number is the number of panics answered by a restart, and the actor ends as failed
      exactly if some panic was answered by stop or escalation, which then was the last panic. */
  lemma {:induction false} RestartsExactly<M>(capacity: nat, steps: seq<Choice<M>>)
    requires capacity > 0
    ensures var w := Run(Spawned<M>(capacity), steps);
            && w.inc == Answered(Spawned<M>(capacity), steps, true)
            && (GivenUp(w) <==> Answered(Spawned<M>(capacity), steps, false) > 0)
            && Answered(Spawned<M>(capacity), steps, false) <= 1
  {
    if steps != [] {
      var n := |steps| - 1;
      RestartsExactly(capacity, steps[..n]);
      SupervisedStep(Run(Spawned<M>(capacity), steps[..n]), steps[n]);
    }
  }

  // ----- sending -----

  /** Reserving and committing puts a message at the end of the queue exactly if the receiver is there, a sender is, and
      a slot is free; otherwise it changes nothing that a receiver could see. */
  lemma SendIff<M>(w: World<M>, m: M)
    requires w.reserved == 0
    ensures var w' := EnvStep(EnvStep(w, Reserve), Commit(m));
            if !w.closed && w.senders > 0 && |w.queue| < w.capacity
            then w' == w.(queue := w.queue + [m], committed := w.committed + [m])
            else w' == w
  {
  }

  /** A permit given back is as if it had never been taken. */
  lemma AbortUndoesReserve<M>(w: World<M>)
    requires EnvStep(w, Reserve) != w
    ensures EnvStep(EnvStep(w, Reserve), Abort) == w
  {
  }

  /** A permit outlasts the receiver, but its message goes nowhere. */
  lemma CommitAfterClose<M>(w: World<M>, m: M)
    requires w.closed
    ensures EnvStep(w, Commit(m)).queue == w.queue && EnvStep(w, Commit(m)).committed == w.committed
    ensures w.reserved > 0 ==> EnvStep(w, Commit(m)).reserved == w.reserved - 1
  {
  }

  /** One sender to begin with, one more for each that was cloned, one less for each that was dropped. */
  function Balance<M>(steps: seq<Choice<M>>): int {
    if steps == [] then 1
    else
      var last := steps[|steps| - 1];
      Balance(steps[..|steps| - 1]) + if last == Env(CloneSender) then 1 else if last == Env(DropSender) then -1 else 0
  }

  /** Only a sender that exists is cloned or dropped, and none while a permit needs it. */
  ghost predicate Owned<M>(capacity: nat, steps: seq<Choice<M>>, k: nat)
    requires capacity > 0 && k < |steps|
  {
    && (steps[k] == Env(CloneSender) ==> Balance(steps[..k]) > 0)
    && (steps[k] == Env(DropSender) ==>
          Balance(steps[..k]) > 1 ||
          (Balance(steps[..k]) == 1 && Run(Spawned<M>(capacity), steps[..k]).reserved == 0))
  }

  lemma ActorLeavesSenders<M>(w: World<M>, panics: bool, decision: Decision)
    ensures ActStep(w, panics, decision).senders == w.senders
  {
  }

  lemma SendersStep<M>(w: World<M>, c: Choice<M>, balance: int)
    requires w.senders == balance
    requires c == Env(CloneSender) ==> balance > 0
    requires c == Env(DropSender) ==> balance > 1 || (balance == 1 && w.reserved == 0)
    ensures Step(w, c).senders ==
            balance + if c == Env(CloneSender) then 1 else if c == Env(DropSender) then -1 else 0
  {
    match c
    case Env(op) => assert Step(w, c) == EnvStep(w, op);
    case Act(panics, decision) => ActorLeavesSenders(w, panics, decision);
  }

  lemma OwnedBefore<M>(capacity: nat, steps: seq<Choice<M>>, n: nat, k: nat)
    requires capacity > 0 && k < n <= |steps| && Owned(capacity, steps, k)
    ensures Owned(capacity, steps[..n], k)
  {
    assert steps[..n][..k] == steps[..k];
  }

  /** Over every run in which senders are cloned and dropped by those who own one, the channel counts them exactly, so
      the receiver sees the end of the stream exactly when all have been dropped. */
  lemma {:induction false} SendersCounted<M>(capacity: nat, steps: seq<Choice<M>>)
    requires capacity > 0 && forall k | 0 <= k < |steps| :: Owned(capacity, steps, k)
    ensures Run(Spawned<M>(capacity), steps).senders == Balance(steps)
  {
    if steps != [] {
      var n := |steps| - 1;
      var front := steps[..n];
      forall k | 0 <= k < n ensures Owned(capacity, front, k) {
        OwnedBefore(capacity, steps, n, k);
      }
      SendersCounted(capacity, front);
      assert Owned(capacity, steps, n);
      SendersStep(Run(Spawned<M>(capacity), front), steps[n], Balance(front));
    }
  }
}
