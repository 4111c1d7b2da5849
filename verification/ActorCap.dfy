/** What the capped drain can leave behind, at a concrete run. */
module ActorCap {
  import opened ActorMachine
  import opened ActorTheorems

  lemma Front<M>(w: World<M>, c: Choice<M>, rest: seq<Choice<M>>)
    ensures Run(w, [c] + rest) == Run(Step(w, c), rest)
  {
    RunSplit(w, [c], rest);
    assert [c][..0] == [] && Run(w, []) == w;
  }

  /** One message is committed, the actor is cancelled before it receives, and its drain takes the message. */
  function UntilDrain<M>(m: M): seq<Choice<M>> {
    [Env(Reserve)] + ([Env(Commit(m))] + ([Env(RequestCancel)] + UntilDrained()))
  }

  function UntilDrained<M>(): seq<Choice<M>> {
    var act := Act(false, Stop);
    [act] + ([act] + ([act] + ([act] + ([act] + []))))
  }

  /** While it is handled another one is committed; the drain has reached its cap, so the actor stops. */
  function UntilDone<M>(m: M): seq<Choice<M>> {
    [Env(Reserve)] + ([Env(Commit(m))] + ([Act(false, Stop)] + UntilEnd()))
  }

  function UntilEnd<M>(): seq<Choice<M>> {
    var act := Act(false, Stop);
    [act] + ([act] + ([act] + ([act] + [])))
  }

  /** Five steps of the actor: start up, see the cancellation, enter the drain, take the message. */
  lemma DrainReached<M>(w: World<M>, m: M)
    requires w.pc == Launch && w.cancelled && w.queue == [m] && w.inc == 0 && w.log == []
    ensures Run(w, UntilDrained()) ==
            w.(cell := Stopping, pc := DrainHandling(0, m), queue := [], log := [OnStart(0)], mark := |w.committed|)
  {
    var act: Choice<M> := Act(false, Stop);
    var w1 := w.(cell := Running, pc := Starting);
    var w2 := w1.(pc := CheckCancel, log := [OnStart(0)]);
    var w3 := w2.(pc := EnterDrain);
    var w4 := w3.(cell := Stopping, pc := Drain(0), mark := |w.committed|);
    var w5 := w4.(pc := DrainHandling(0, m), queue := []);
    assert w.log + [OnStart(0)] == [OnStart(0)];
    assert Step(w, act) == w1 && Step(w1, act) == w2 && Step(w2, act) == w3;
    assert Step(w3, act) == w4 && Step(w4, act) == w5;
    Front(w, act, [act] + ([act] + ([act] + ([act] + []))));
    Front(w1, act, [act] + ([act] + ([act] + [])));
    Front(w2, act, [act] + ([act] + []));
    Front(w3, act, [act] + []);
    Front(w4, act, []);
  }

  lemma OpeningRun<M>(m: M)
    ensures Run(Spawned<M>(1), UntilDrain(m)) ==
            World(1, [], 0, 1, false, true, Stopping, DrainHandling(0, m), 0, [OnStart(0)], [m], 1)
  {
    var w := Spawned<M>(1);
    var w1 := w.(reserved := 1);
    var w2 := w.(queue := [m], committed := [m]);
    var w3 := w2.(cancelled := true);
    assert [] + [m] == [m];
    Front(w, Env(Reserve), [Env(Commit(m))] + ([Env(RequestCancel)] + UntilDrained()));
    Front(w1, Env(Commit(m)), [Env(RequestCancel)] + UntilDrained());
    Front(w2, Env(RequestCancel), UntilDrained());
    DrainReached(w3, m);
  }

  lemma FrontTo<M>(w: World<M>, c: Choice<M>, w': World<M>, rest: seq<Choice<M>>, end: World<M>)
    requires Step(w, c) == w' && Run(w', rest) == end
    ensures Run(w, [c] + rest) == end
  {
    Front(w, c, rest);
  }

  lemma StopStep<M>(w: World<M>)
    requires w.pc == RunStop && w.inc == 0
    ensures Step(w, Act(false, Stop)) == w.(pc := Deliver(Returned(0)), log := w.log + [OnStop(0)])
  {
  }

  lemma EndSteps<M>(w: World<M>, o: Outcome)
    requires w.pc == Deliver(o)
    ensures Step(w, Act(false, Stop)) == w.(pc := Mark(o))
    ensures Step(w.(pc := Mark(o)), Act(false, Stop)) == w.(cell := Stopped, pc := Release(o))
    ensures Step(w.(cell := Stopped, pc := Release(o)), Act(false, Stop)) ==
            w.(cell := Stopped, pc := Done(o), closed := true, queue := [])
  {
  }

  /** Four steps of the actor: stop, deliver, mark, release. */
  lemma EndReached<M>(w: World<M>)
    requires w.pc == RunStop && w.inc == 0
    ensures Run(w, UntilEnd()) ==
            w.(cell := Stopped, pc := Done(Returned(0)), closed := true, queue := [], log := w.log + [OnStop(0)])
  {
    var act: Choice<M>, o := Act(false, Stop), Returned(0);
    var w1 := w.(pc := Deliver(o), log := w.log + [OnStop(0)]);
    var end := w1.(cell := Stopped, pc := Done(o), closed := true, queue := []);
    StopStep(w);
    EndSteps(w1, o);
    FrontTo(w1.(cell := Stopped, pc := Release(o)), act, end, [], end);
    FrontTo(w1.(pc := Mark(o)), act, w1.(cell := Stopped, pc := Release(o)), [act] + [], end);
    FrontTo(w1, act, w1.(pc := Mark(o)), [act] + ([act] + []), end);
    FrontTo(w, act, w1, [act] + ([act] + ([act] + [])), end);
  }

  lemma ClosingRun<M>(w: World<M>, m: M, n: M)
    requires w == World(1, [], 0, 1, false, true, Stopping, DrainHandling(0, m), 0, [OnStart(0)], [m], 1)
    ensures Run(w, UntilDone(n)) ==
            World(1, [], 0, 1, true, true, Stopped, Done(Returned(0)), 0, [OnStart(0), Handled(0, m), OnStop(0)],
                  [m, n], 1)
  {
    var act: Choice<M> := Act(false, Stop);
    var w1 := w.(reserved := 1);
    var w2 := w.(queue := [n], committed := [m, n]);
    var w3 := w2.(pc := RunStop, log := [OnStart(0), Handled(0, m)]);
    assert [] + [n] == [n] && [m] + [n] == [m, n];
    assert Step(w2, act) == w3;
    Front(w, Env(Reserve), [Env(Commit(n))] + ([act] + UntilEnd()));
    Front(w1, Env(Commit(n)), [act] + UntilEnd());
    Front(w2, act, UntilEnd());
    EndReached(w3);
    assert w3.log + [OnStop(0)] == [OnStart(0), Handled(0, m), OnStop(0)];
  }

  /** A message committed during a drain that reaches its cap is never handled, although nothing panicked and the actor
      was returned; and after that end a stop call makes the cell read Stopping again. */
  lemma CapLeavesBehind<M>(m: M, n: M)
    ensures var w := Run(Spawned<M>(1), UntilDrain(m) + UntilDone(n));
            && w.pc == Done(Returned(0)) && w.committed == [m, n] && HandledOf(w.log) == [m]
            && w.cell.Stopped? && Step(w, Env(StoreStopping)).cell.Stopping?
  {
    RunSplit(Spawned<M>(1), UntilDrain(m), UntilDone(n));
    OpeningRun(m);
    ClosingRun(Run(Spawned<M>(1), UntilDrain(m)), m, n);
    var a: Entry<M>, b: Entry<M>, c: Entry<M> := OnStart(0), Handled(0, m), OnStop(0);
    assert [a, b, c][..2] == [a, b] && [a, b][..1] == [a] && [a][..0] == [];
    assert HandledOf([a]) == [] && HandledOf([a, b]) == [] + [m] && HandledOf([a, b, c]) == [m] + [];
  }

  // ----- nothing has to be committed during the cap -----

  /** The actor is cancelled with an empty mailbox, and its drain's only look finds nothing. */
  function UntilStop<M>(): seq<Choice<M>> {
    var act := Act(false, Stop);
    [Env(RequestCancel)] + ([act] + ([act] + ([act] + ([act] + ([act] + [])))))
  }

  lemma StopReached<M>(capacity: nat)
    requires capacity > 0
    ensures Run(Spawned<M>(capacity), UntilStop()) ==
            World(capacity, [], 0, 1, false, true, Stopping, RunStop, 0, [OnStart(0)], [], 0)
  {
    var act: Choice<M> := Act(false, Stop);
    var w := Spawned<M>(capacity).(cancelled := true);
    var w1 := w.(cell := Running, pc := Starting);
    var w2 := w1.(pc := CheckCancel, log := [OnStart(0)]);
    var w3 := w2.(pc := EnterDrain);
    var w4 := w3.(cell := Stopping, pc := Drain(0), mark := 0);
    var end := w4.(pc := RunStop);
    assert w1.log + [OnStart(0)] == [OnStart(0)];
    assert Step(w, act) == w1 && Step(w1, act) == w2 && Step(w2, act) == w3;
    assert Step(w3, act) == w4 && Step(w4, act) == end;
    assert Run(end, []) == end;
    FrontTo(w4, act, end, [], end);
    FrontTo(w3, act, w4, [act] + [], end);
    FrontTo(w2, act, w3, [act] + ([act] + []), end);
    FrontTo(w1, act, w2, [act] + ([act] + ([act] + [])), end);
    FrontTo(w, act, w1, [act] + ([act] + ([act] + ([act] + []))), end);
    FrontTo(Spawned<M>(capacity), Env(RequestCancel), w, [act] + ([act] + ([act] + ([act] + ([act] + [])))), end);
  }

  lemma ReserveAndCommit<M>(w: World<M>, n: M)
    requires w.queue == [] && w.reserved == 0 && w.senders == 1 && w.capacity > 0 && !w.closed
    ensures Step(w, Env(Reserve)) == w.(reserved := 1)
    ensures Step(w.(reserved := 1), Env(Commit(n))) == w.(queue := [n], committed := w.committed + [n])
  {
    assert w.queue + [n] == [n];
  }

  lemma CommitDuringStop<M>(w: World<M>, n: M)
    requires w.pc == RunStop && w.inc == 0 && w.queue == [] && w.reserved == 0 && w.senders == 1 && w.capacity > 0
    requires !w.closed
    ensures var w2 := w.(queue := [n], committed := w.committed + [n]);
            Run(w, [Env(Reserve)] + ([Env(Commit(n))] + UntilEnd())) ==
            w2.(cell := Stopped, pc := Done(Returned(0)), closed := true, queue := [], log := w.log + [OnStop(0)])
  {
    var w2 := w.(queue := [n], committed := w.committed + [n]);
    ReserveAndCommit(w, n);
    EndReached(w2);
    FrontTo(w.(reserved := 1), Env(Commit(n)), w2, UntilEnd(), Run(w2, UntilEnd()));
    FrontTo(w, Env(Reserve), w.(reserved := 1), [Env(Commit(n))] + UntilEnd(), Run(w2, UntilEnd()));
  }

  /** Whatever the capacity, a message committed while `on_stop` runs is never handled, although the drain took
      nothing at all. */
  lemma StopLeavesBehind<M>(capacity: nat, n: M)
    requires capacity > 0
    ensures var w := Run(Spawned<M>(capacity), UntilStop() + ([Env(Reserve)] + ([Env(Commit(n))] + UntilEnd())));
            w.pc == Done(Returned(0)) && w.committed == [n] && w.log == [OnStart(0), OnStop(0)]
  {
    StopReached<M>(capacity);
    RunSplit(Spawned<M>(capacity), UntilStop(), [Env(Reserve)] + ([Env(Commit(n))] + UntilEnd()));
    var w: World<M> := World(capacity, [], 0, 1, false, true, Stopping, RunStop, 0, [OnStart(0)], [], 0);
    CommitDuringStop(w, n);
    assert w.committed + [n] == [n] && w.log + [OnStop(0)] == [OnStart(0), OnStop(0)];
  }

  // ----- exactly when everything is handled -----

  /** The drain looks into the mailbox. */
  predicate Polls<M>(w: World<M>, c: Choice<M>) {
    c.Act? && w.pc.Drain?
  }

  /** Step `k` of `steps`, taken from `w`, is such a look. */
  ghost predicate PollAt<M>(w: World<M>, steps: seq<Choice<M>>, k: nat)
    requires k < |steps|
  {
    Polls(Run(w, steps[..k]), steps[k])
  }

  /** It is the drain's last look. */
  ghost predicate LastPoll<M>(w: World<M>, steps: seq<Choice<M>>, k: nat) {
    k < |steps| && PollAt(w, steps, k) && forall i | k < i < |steps| :: !PollAt(w, steps, i)
  }

  ghost predicate NoPoll<M>(w: World<M>, steps: seq<Choice<M>>) {
    forall i | 0 <= i < |steps| :: !PollAt(w, steps, i)
  }

  lemma PollInPrefix<M>(w: World<M>, steps: seq<Choice<M>>, n: nat, k: nat)
    requires k < n <= |steps|
    ensures PollAt(w, steps[..n], k) <==> PollAt(w, steps, k)
  {
    assert steps[..n][..k] == steps[..k] && steps[..n][k] == steps[k];
  }

  /** Past the drain's look, or never again looking. */
  predicate PastPoll<M>(pc: Pc<M>) {
    pc.DrainHandling? || pc.RunStop? || Over(pc)
  }

  /** Only a look leads there. */
  lemma OnlyPollsPass<M>(w: World<M>, c: Choice<M>)
    requires PastPoll(Step(w, c).pc) && !Polls(w, c) && (c.Act? ==> !c.panics)
    ensures PastPoll(w.pc)
  {
    if c.Env? {
      EnvFrame(w, c.op);
    }
  }

  lemma LastPollStays<M>(w: World<M>, steps: seq<Choice<M>>, n: nat, k: nat)
    requires |steps| == n + 1 && LastPoll(w, steps[..n], k) && !PollAt(w, steps, n)
    ensures LastPoll(w, steps, k)
  {
    PollInPrefix(w, steps, n, k);
    forall i | k < i < |steps| ensures !PollAt(w, steps, i) {
      if i < n {
        PollInPrefix(w, steps, n, i);
        assert !PollAt(w, steps[..n], i);
      }
    }
  }

  /** Every drain that is over has had a last look. */
  lemma {:induction false} LastPollExists<M>(w: World<M>, steps: seq<Choice<M>>) returns (k: nat)
    requires w.pc.EnterDrain? && PanicFree(steps) && PastPoll(Run(w, steps).pc)
    ensures LastPoll(w, steps, k)
  {
    assert steps != [];
    k := |steps| - 1;
    if !PollAt(w, steps, k) {
      assert steps[k].Act? ==> !steps[k].panics;
      OnlyPollsPass(Run(w, steps[..k]), steps[k]);
      var j := LastPollExists(w, steps[..k]);
      LastPollStays(w, steps, k, j);
      k := j;
    }
  }

  /** After the last look `all` is what will have been consumed, if the drain ends at all: `last` says that it does not
      look again. */
  ghost predicate Finishing<M>(all: seq<M>, last: bool, w: World<M>) {
    match w.pc
    case Drain(_) => !last
    case DrainHandling(d, m) => Consumed(w.log) + [m] == all && last == (d + 1 >= w.capacity)
    case _ => (w.pc.RunStop? || Over(w.pc)) && Consumed(w.log) == all && last
  }

  lemma FinishingEnv<M>(all: seq<M>, last: bool, w: World<M>, op: EnvOp<M>)
    requires Finishing(all, last, w)
    ensures Finishing(all, last, EnvStep(w, op))
  {
    EnvFrame(w, op);
  }

  lemma FinishingAct<M>(all: seq<M>, last: bool, w: World<M>, d: Decision)
    requires Finishing(all, last, w) && !w.pc.Drain?
    ensures Finishing(all, last, ActStep(w, false, d))
  {
    ActConsumes(w, false, d);
    if Over(w.pc) {
      assert Over(ActStep(w, false, d).pc);
    }
  }

  lemma {:induction false} FinishingRun<M>(all: seq<M>, last: bool, w: World<M>, steps: seq<Choice<M>>)
    requires Finishing(all, last, w) && PanicFree(steps) && NoPoll(w, steps)
    ensures Finishing(all, last, Run(w, steps))
  {
    if steps != [] {
      var n := |steps| - 1;
      var front := steps[..n];
      forall i | 0 <= i < n ensures !PollAt(w, front, i) {
        PollInPrefix(w, steps, n, i);
        assert !PollAt(w, steps, i);
      }
      FinishingRun(all, last, w, front);
      assert !PollAt(w, steps, n);
      match steps[n]
      case Env(op) => FinishingEnv(all, last, Run(w, front), op);
      case Act(panics, d) =>
        assert !panics;
        FinishingAct(all, last, Run(w, front), d);
    }
  }

  /** What the last look finds decides what is consumed in the end. */
  lemma LookDecides<M>(p: World<M>, d: Decision)
    requires Inv(p) && p.pc.Drain? && !p.closed
    ensures var p' := ActStep(p, false, d);
            if p.queue == [] then Finishing(p.committed, true, p')
            else Finishing(Consumed(p.log) + [p.queue[0]], p.pc.drained + 1 >= p.capacity, p')
  {
    assert Consumed(p.log) + [] + [] == Consumed(p.log);
  }

  /** Counting at the end: `taken` were consumed before the drain, `drained` of at most `capacity` by it before its last
      look, which found `queue`. */
  lemma CountAtEnd<M>(seen: seq<M>, final: seq<M>, before: seq<M>, queue: seq<M>, all: seq<M>, taken: nat, drained: nat,
                      capacity: nat)
    requires seen == before + queue && seen <= final && all <= final
    requires |before| == taken + drained && drained < capacity
    requires if queue == [] then all == seen else all == before + [queue[0]] && drained + 1 == capacity
    ensures all == final <==> final == seen && |final| <= taken + capacity
  {
    if queue == [] {
      assert |seen| == taken + drained;
    } else {
      assert |all| == taken + capacity && |seen| >= |all|;
      if |final| <= taken + capacity {
        assert |final| == |all|;
        assert final[..|all|] == final;
      }
    }
  }

  /** The same run cut at the drain's last look. */
  lemma SplitAtPoll<M>(w: World<M>, steps: seq<Choice<M>>, k: nat)
    requires LastPoll(w, steps, k) && PanicFree(steps)
    ensures PanicFree(steps[..k]) && PanicFree(steps[k + 1..])
    ensures var p' := Step(Run(w, steps[..k]), steps[k]);
            Run(w, steps) == Run(p', steps[k + 1..]) && NoPoll(p', steps[k + 1..])
  {
    var head, tail := steps[..k + 1], steps[k + 1..];
    assert head[..k] == steps[..k] && head[k] == steps[k];
    assert steps == head + tail;
    RunSplit(w, head, tail);
    NoPollAfter(w, steps, k, Run(w, head));
  }

  lemma NoPollAfter<M>(w: World<M>, steps: seq<Choice<M>>, k: nat, p: World<M>)
    requires LastPoll(w, steps, k) && p == Run(w, steps[..k + 1])
    ensures NoPoll(p, steps[k + 1..])
  {
    var tail := steps[k + 1..];
    forall i | 0 <= i < |tail| ensures !PollAt(p, tail, i) {
      assert steps[..k + 1 + i] == steps[..k + 1] + tail[..i];
      RunSplit(w, steps[..k + 1], tail[..i]);
      assert tail[i] == steps[k + 1 + i];
      assert !PollAt(w, steps, k + 1 + i);
    }
  }

  /** Nothing is consumed after the last look but what it found. */
  lemma ConsumedAtEnd<M>(w: World<M>, steps: seq<Choice<M>>, k: nat)
    requires LastPoll(w, steps, k) && PanicFree(steps) && Run(w, steps).pc.Release?
    requires Inv(Run(w, steps[..k]))
    ensures var p, all := Run(w, steps[..k]), Consumed(Run(w, steps).log);
            if p.queue == [] then all == p.committed
            else all == Consumed(p.log) + [p.queue[0]] && p.pc.drained + 1 == p.capacity
  {
    var p := Run(w, steps[..k]);
    SplitAtPoll(w, steps, k);
    assert !steps[k].panics;
    LookDecides(p, steps[k].decision);
    var p' := Step(p, steps[k]);
    if p.queue == [] {
      FinishingRun(p.committed, true, p', steps[k + 1..]);
    } else {
      FinishingRun(Consumed(p.log) + [p.queue[0]], p.pc.drained + 1 >= p.capacity, p', steps[k + 1..]);
    }
  }

  lemma {:induction false} CommittedGrows<M>(w: World<M>, steps: seq<Choice<M>>)
    ensures w.committed <= Run(w, steps).committed
  {
    if steps != [] {
      CommittedGrows(w, steps[..|steps| - 1]);
      CommittedStep(Run(w, steps[..|steps| - 1]), steps[|steps| - 1]);
    }
  }

  lemma CommittedStep<M>(w: World<M>, c: Choice<M>)
    ensures w.committed <= Step(w, c).committed
  {
    match c
    case Env(op) => EnvFrame(w, op);
    case Act(panics, d) => ActFrame(w, panics, d);
  }

  /** How many messages had been consumed at the last look. */
  lemma TakenAtPoll<M>(capacity: nat, before: seq<Choice<M>>, middle: seq<Choice<M>>)
    requires capacity > 0 && PanicFree(before) && PanicFree(middle)
    requires Run(Spawned<M>(capacity), before).pc.EnterDrain?
    requires Run(Run(Spawned<M>(capacity), before), middle).pc.Drain?
    ensures var w0 := Run(Spawned<M>(capacity), before);
            var p := Run(w0, middle);
            && Inv(p) && p.capacity == capacity && p.pc.drained < capacity
            && |Consumed(p.log)| == |Consumed(w0.log)| + p.pc.drained
            && p.committed == Consumed(p.log) + p.queue
  {
    var w0 := Run(Spawned<M>(capacity), before);
    Reachable(capacity, before);
    DrainOfRun(w0, middle);
    PanicFreeAppend(before, middle);
    NoPanicRun(capacity, before);
    NoPanicRun(capacity, before + middle);
    RunSplit(Spawned<M>(capacity), before, middle);
    var p := Run(w0, middle);
    assert Consumed(p.log) + [] == Consumed(p.log);
  }

  lemma PanicFreeAppend<M>(a: seq<Choice<M>>, b: seq<Choice<M>>)
    requires PanicFree(a) && PanicFree(b)
    ensures PanicFree(a + b)
  {
  }

  /** The drain begins after `before`, looks for the last time at step `k` of `after`, and the run reaches the point
      where the receiver is dropped. Without panics, every message committed by then has been handled exactly if none
      was committed after that look and no more than `capacity` were left when the drain began or came since. */
  lemma AllHandledIff<M>(capacity: nat, before: seq<Choice<M>>, after: seq<Choice<M>>, k: nat)
    requires capacity > 0 && PanicFree(before) && PanicFree(after)
    requires Run(Spawned<M>(capacity), before).pc.EnterDrain?
    requires LastPoll(Run(Spawned<M>(capacity), before), after, k)
    requires Run(Run(Spawned<M>(capacity), before), after).pc.Release?
    ensures var w0 := Run(Spawned<M>(capacity), before);
            var p, w := Run(w0, after[..k]), Run(w0, after);
            HandledOf(w.log) == w.committed <==>
            w.committed == p.committed && |w.committed| <= |Consumed(w0.log)| + capacity
  {
    var w0 := Run(Spawned<M>(capacity), before);
    var p, w := Run(w0, after[..k]), Run(w0, after);
    SplitAtPoll(w0, after, k);
    TakenAtPoll(capacity, before, after[..k]);
    ConsumedAtEnd(w0, after, k);
    assert after == after[..k] + after[k..];
    RunSplit(w0, after[..k], after[k..]);
    CommittedGrows(p, after[k..]);
    PanicFreeAppend(before, after);
    RunSplit(Spawned<M>(capacity), before, after);
    ConsumptionIsPrefix(capacity, before + after);
    PanicFreeHandles(capacity, before + after);
    CountAtEnd(p.committed, w.committed, Consumed(p.log), p.queue, Consumed(w.log), |Consumed(w0.log)|, p.pc.drained,
               capacity);
  }
}
