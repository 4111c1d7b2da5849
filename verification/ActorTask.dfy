/** The actor loop and the supervised loop in their own control flow: nested loops over a mutable mailbox and
    state cell. The interleaving is a `schedule` of steps fixed in advance; whenever the task awaits, the other
    parties act until the schedule gives the task its next turn. `RunSupervisedLoop` is proved to compute
    exactly the flat machine's `Run`, so every theorem of `ActorTheorems` holds of it. */
module ActorTasks {
  import opened ActorMachine

  datatype Turn = Exhausted | Go(panics: bool, decision: Decision)

  datatype Received<M> = Message(msg: M) | Disconnected | Cancelled | Pending

  /** How `run_actor_loop` came back: normally, by a panic, or not yet. */
  datatype Exit<M> = Completed | Crashed(entry: Entry<M>, decision: Decision) | Suspended

  class ActorTask<M(==)> {
    const capacity: nat
    const schedule: seq<Choice<M>>
    var w: World<M>               // mailbox, context, state cell and log, with the program counter
    var pos: nat                  // steps of the schedule already taken

    /** The task is where the flat machine is after the first `pos` steps. */
    ghost predicate OnTrack()
      reads this
    {
      0 < capacity == w.capacity && pos <= |schedule| && w == Run(Spawned<M>(capacity), schedule[..pos])
    }

    constructor (capacity: nat, schedule: seq<Choice<M>>)
      requires capacity > 0
      ensures OnTrack() && pos == 0 && w.pc == Launch
      ensures this.capacity == capacity && this.schedule == schedule
    {
      this.capacity, this.schedule := capacity, schedule;
      w, pos := Spawned<M>(capacity), 0;
    }

    /** The task's next turn is here. */
    ghost predicate Scheduled(turn: Turn)
      reads this
    {
      OnTrack() && turn.Go? && pos < |schedule| && schedule[pos] == Act(turn.panics, turn.decision)
    }

    /** Takes the step at `pos`; `next` is the state it leads to. */
    method Take(next: World<M>)
      requires OnTrack() && pos < |schedule| && next == Step(w, schedule[pos]) && next.capacity == capacity
      modifies this
      ensures OnTrack() && w == next && pos == old(pos) + 1
    {
      assert schedule[..pos + 1][..pos] == schedule[..pos];
      w, pos := next, pos + 1;
    }

    /** Awaiting: the others act until the task's next turn. */
    method Await() returns (turn: Turn)
      requires OnTrack()
      modifies this
      ensures OnTrack() && old(pos) <= pos && w.pc == old(w).pc && w.inc == old(w).inc
      ensures if turn.Go? then Scheduled(turn) else pos == |schedule|
    {
      while pos < |schedule| && schedule[pos].Env?
        invariant OnTrack() && old(pos) <= pos && w.pc == old(w).pc && w.inc == old(w).inc
      {
        Take(EnvStep(w, schedule[pos].op));
      }
      if pos == |schedule| {
        return Exhausted;
      }
      return Go(schedule[pos].panics, schedule[pos].decision);
    }

    /** The task's next step is the panic that `exit` describes. */
    ghost predicate AboutToCrash(exit: Exit<M>)
      requires exit.Crashed?
      reads this
    {
      && OnTrack() && pos < |schedule| && schedule[pos] == Act(true, exit.decision)
      && ActStep(w, true, exit.decision) == Crash(w, exit.entry, exit.decision)
    }

    /** What a phase of the loop leaves behind: at `goal` when completed, else waiting or crashing. */
    ghost predicate Reaches(exit: Exit<M>, goal: Pc<M>)
      reads this
    {
      match exit
      case Completed => OnTrack() && w.pc == goal
      case Suspended => OnTrack() && pos == |schedule|
      case Crashed(_, _) => AboutToCrash(exit)
    }

    /** One poll of `recv` or `try_recv`: what comes back and the queue that remains. */
    method Pop() returns (r: Received<M>, rest: seq<M>)
      ensures if w.queue == [] then r == Pending && rest == [] else r == Message(w.queue[0]) && rest == w.queue[1..]
    {
      if w.queue == [] {
        return Pending, [];
      }
      return Message(w.queue[0]), w.queue[1..];
    }

    /** `recv`: polls until a message, a disconnect or a cancellation. */
    method Recv() returns (r: Received<M>)
      requires OnTrack() && w.pc == Receive
      modifies this
      ensures OnTrack() && old(pos) <= pos
      ensures match r
              case Pending => pos == |schedule|
              case Message(m) => w.pc == Handling(m) && old(pos) < pos
              case _ => w.pc == EnterDrain
    {
      while true
        invariant OnTrack() && w.pc == Receive && old(pos) <= pos
        decreases |schedule| - pos
      {
        var turn := Await();
        if turn.Exhausted? {
          return Pending;
        }
        if w.cancelled {
          Take(w.(pc := EnterDrain));
          return Cancelled;
        }
        var rest;
        r, rest := Pop();
        if r.Message? {
          Take(w.(pc := Handling(r.msg), queue := rest));
          return;
        }
        if w.senders == 0 {
          Take(w.(pc := EnterDrain));
          return Disconnected;
        }
        Take(w);
      }
    }

    /** The task runs user code that logs `entry` and goes to `next`, or panics with `failure`. */
    ghost predicate InUserCode(entry: Entry<M>, failure: Entry<M>, next: Pc<M>)
      reads this
    {
      match w.pc
      case Starting => entry == OnStart(w.inc) && failure == PanicIdle(w.inc) && next == CheckCancel
      case Handling(m) => entry == Handled(w.inc, m) && failure == PanicOn(w.inc, m) && next == CheckCancel
      case DrainHandling(d, m) =>
        entry == Handled(w.inc, m) && failure == PanicOn(w.inc, m) && next == AfterDrained(capacity, d)
      case RunStop =>
        entry == OnStop(w.inc) && failure == PanicIdle(w.inc) && next == Deliver(Returned(w.inc))
      case _ => false
    }

    /** Awaits user code: `entry` is logged if it returns, `failure` if it panics. */
    method CallUser(entry: Entry<M>, failure: Entry<M>, next: Pc<M>) returns (exit: Exit<M>)
      requires OnTrack() && InUserCode(entry, failure, next)
      modifies this
      ensures Reaches(exit, next) && old(pos) <= pos && w.inc == old(w).inc
      ensures exit.Completed? ==> old(pos) < pos
    {
      var turn := Await();
      if turn.Exhausted? {
        return Suspended;
      }
      if turn.panics {
        return Crashed(failure, turn.decision);
      }
      Take(w.(log := w.log + [entry], pc := next));
      return Completed;
    }

    /** Phase 1: store Running, call on_start. */
    method Start() returns (exit: Exit<M>)
      requires OnTrack() && w.pc == Launch
      modifies this
      ensures Reaches(exit, CheckCancel) && old(pos) <= pos
    {
      var turn := Await();
      if turn.Exhausted? {
        return Suspended;
      }
      Take(w.(cell := Running, pc := Starting));
      exit := CallUser(OnStart(w.inc), PanicIdle(w.inc), CheckCancel);
    }

    /** Phase 2: receive and handle until cancelled or disconnected. */
    method MessageLoop() returns (exit: Exit<M>)
      requires OnTrack() && w.pc == CheckCancel
      modifies this
      ensures Reaches(exit, EnterDrain) && old(pos) <= pos
    {
      while true
        invariant OnTrack() && w.pc == CheckCancel && old(pos) <= pos
        decreases |schedule| - pos
      {
        var turn := Await();
        if turn.Exhausted? {
          return Suspended;
        }
        if w.cancelled {
          Take(w.(pc := EnterDrain));
          return Completed;
        }
        Take(w.(pc := Receive));
        var r := Recv();
        match r
        case Pending => return Suspended;
        case Disconnected => return Completed;
        case Cancelled => return Completed;
        case Message(msg) =>
          exit := CallUser(Handled(w.inc, msg), PanicOn(w.inc, msg), CheckCancel);
          if !exit.Completed? {
            return;
          }
      }
    }

    /** Stores Stopping; `false` when the schedule ends first. */
    method BeginDrain() returns (on: bool)
      requires OnTrack() && w.pc == EnterDrain
      modifies this
      ensures OnTrack() && old(pos) <= pos && if on then w.pc == Drain(0) else pos == |schedule|
    {
      var turn := Await();
      on := turn.Go?;
      if on {
        Take(w.(cell := Stopping, mark := |w.committed|, pc := Drain(0)));
      }
    }

    /** `try_recv` in the drain loop. */
    method PollDrain(drained: nat) returns (on: bool, r: Received<M>)
      requires OnTrack() && w.pc == Drain(drained)
      modifies this
      ensures OnTrack() && old(pos) <= pos
      ensures if !on then pos == |schedule|
              else old(pos) < pos && w.pc == if r.Message? then DrainHandling(drained, r.msg) else RunStop
    {
      var turn := Await();
      on := turn.Go?;
      var rest;
      r, rest := Pop();
      if on && r.Message? {
        Take(w.(pc := DrainHandling(drained, r.msg), queue := rest));
      } else if on {
        Take(w.(pc := RunStop));
      }
    }

    /** Phase 3: store Stopping, then handle at most `capacity` buffered messages. */
    method DrainLoop() returns (exit: Exit<M>)
      requires OnTrack() && w.pc == EnterDrain
      modifies this
      ensures Reaches(exit, RunStop) && old(pos) <= pos
    {
      var on := BeginDrain();
      if !on {
        return Suspended;
      }
      var drained := 0;
      while true
        invariant OnTrack() && w.pc == Drain(drained) && old(pos) <= pos
        decreases |schedule| - pos
      {
        var r;
        on, r := PollDrain(drained);
        if !on {
          return Suspended;
        }
        if !r.Message? {
          return Completed;
        }
        exit := CallUser(Handled(w.inc, r.msg), PanicOn(w.inc, r.msg), AfterDrained(capacity, drained));
        if !exit.Completed? {
          return;
        }
        drained := drained + 1;
        if drained >= capacity {
          return Completed;
        }
      }
    }

    /** One incarnation: start, message loop, drain, on_stop. */
    method RunActorLoop() returns (exit: Exit<M>)
      requires OnTrack() && w.pc == Launch
      modifies this
      ensures Reaches(exit, Deliver(Returned(w.inc))) && old(pos) <= pos
    {
      exit := Start();
      if !exit.Completed? { return; }
      exit := MessageLoop();
      if !exit.Completed? { return; }
      exit := DrainLoop();
      if !exit.Completed? { return; }
      exit := CallUser(OnStop(w.inc), PanicIdle(w.inc), Deliver(Returned(w.inc)));
    }

    /** Restarts over the same mailbox until an incarnation returns, the supervisor gives up, or the schedule
        ends; then the result is delivered. The final state is the flat machine's, for every schedule. */
    method RunSupervisedLoop()
      requires OnTrack() && w.pc == Launch
      modifies this
      ensures w == Run(Spawned<M>(capacity), schedule)
    {
      while true
        invariant OnTrack() && w.pc == Launch
        decreases |schedule| - pos
      {
        var exit := RunActorLoop();
        match exit
        case Suspended =>
          assert schedule[..pos] == schedule;
          return;
        case Completed => break;
        case Crashed(entry, decision) =>
          Take(Crash(w, entry, decision));
          if !decision.Restart? {
            break;
          }
      }
      DeliverResult();
    }

    /** `false` when the schedule ends first. */
    method SendResult() returns (on: bool)
      requires OnTrack() && w.pc.Deliver?
      modifies this
      ensures OnTrack() && if on then w.pc == Mark(old(w).pc.outcome) else pos == |schedule|
    {
      var turn := Await();
      on := turn.Go?;
      if on {
        Take(w.(pc := Mark(w.pc.outcome)));
      }
    }

    method StoreStopped() returns (on: bool)
      requires OnTrack() && w.pc.Mark?
      modifies this
      ensures OnTrack() && if on then w.pc == Release(old(w).pc.outcome) else pos == |schedule|
    {
      var turn := Await();
      on := turn.Go?;
      if on {
        Take(w.(cell := Stopped, pc := Release(w.pc.outcome)));
      }
    }

    method DropReceiver() returns (on: bool)
      requires OnTrack() && w.pc.Release?
      modifies this
      ensures OnTrack() && if on then w.pc == Done(old(w).pc.outcome) else pos == |schedule|
    {
      var turn := Await();
      on := turn.Go?;
      if on {
        Take(w.(closed := true, queue := [], pc := Done(w.pc.outcome)));
      }
    }

    /** Sends the result, stores Stopped, drops the receiver, one after the other; the others act in between and
        afterwards. */
    method DeliverResult()
      requires OnTrack() && w.pc.Deliver?
      modifies this
      ensures w == Run(Spawned<M>(capacity), schedule)
    {
      var on := SendResult();
      if on {
        on := StoreStopped();
      }
      if on {
        on := DropReceiver();
      }
      if on {
        LetOthersAct();
      }
      assert schedule[..pos] == schedule;
    }

    /** The task is over; whatever else is scheduled happens without it. */
    method LetOthersAct()
      requires OnTrack() && w.pc.Done?
      modifies this
      ensures OnTrack() && pos == |schedule|
    {
      while pos < |schedule|
        invariant OnTrack() && w.pc.Done?
        decreases |schedule| - pos
      {
        var turn := Await();
        if turn.Go? {
          Take(w);
        }
      }
    }
  }
}
