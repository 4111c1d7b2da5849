/** The actor runtime as a step machine: one actor task, its two-phase mailbox, any number of
    concurrent senders, cancellation, panics and supervised restarts.

    Every atomic action is one step. A run is an arbitrary sequence of steps, so the lemmas of
    `ActorTheorems` speak about every interleaving. */
module ActorMachine {

  /** Lifecycle state held in the shared state cell. */
  datatype ActorState = Created | Running | Stopping | Stopped

  /** What user code observably did, in order; `k` numbers the incarnations from 0. */
  datatype Entry<M> =
    | OnStart(k: nat)
    | Handled(k: nat, msg: M)
    | OnStop(k: nat)
    | PanicIdle(k: nat)            // panic in on_start or on_stop: no message in hand
    | PanicOn(k: nat, msg: M)      // panic while handling msg

  /** The result sent to `ActorHandle::join`. */
  datatype Outcome = Returned(k: nat) | Failed(k: nat)

  /** Program counter of the actor task. */
  datatype Pc<M> =
    | Launch                                     // about to store Running
    | Starting                                   // in on_start
    | CheckCancel                                // top of the message loop
    | Receive                                    // polling recv
    | Handling(msg: M)                           // handler of the message loop
    | EnterDrain                                 // about to store Stopping
    | Drain(drained: nat)                        // about to try_recv
    | DrainHandling(drained: nat, msg: M)        // handler of the drain loop
    | RunStop                                    // in on_stop
    | Deliver(outcome: Outcome)                  // about to send the result
    | Mark(outcome: Outcome)                     // about to store Stopped
    | Release(outcome: Outcome)                  // about to drop the receiver
    | Done(outcome: Outcome)

  datatype Decision = Restart | Stop | Escalate

  /** What senders and owners can do between two actions of the actor task. */
  datatype EnvOp<M> =
    | Reserve              // Reserve::poll / try_reserve
    | Commit(msg: M)       // SendPermit::send
    | Abort                // SendPermit::abort or drop
    | CloneSender
    | DropSender
    | StoreStopping        // first half of ActorHandle::stop / abort
    | RequestCancel        // its second half, or a cancellation by the region

  /** One step of a run. `panics` and `decision` matter only where user code runs. */
  datatype Choice<M> = Env(op: EnvOp<M>) | Act(panics: bool, decision: Decision)

  datatype World<M> = World(
    capacity: nat,
    queue: seq<M>,          // committed, not yet received
    reserved: nat,          // outstanding permits
    senders: nat,
    closed: bool,           // receiver dropped
    cancelled: bool,
    cell: ActorState,
    pc: Pc<M>,
    inc: nat,               // current incarnation
    log: seq<Entry<M>>,
    committed: seq<M>,      // every message ever enqueued
    mark: nat)              // |committed| when the current drain began

  /** A freshly spawned task. `mpsc::channel` panics on capacity 0, so no such task exists. */
  function Spawned<M>(capacity: nat): World<M>
    requires capacity > 0
  {
    World(capacity, [], 0, 1, false, false, Created, Launch, 0, [], [], 0)
  }

  function EnvStep<M>(w: World<M>, op: EnvOp<M>): World<M> {
    match op
    case Reserve =>
      if !w.closed && w.senders > 0 && |w.queue| + w.reserved < w.capacity
      then w.(reserved := w.reserved + 1) else w
    case Commit(m) =>
      if w.reserved == 0 then w
      else if w.closed then w.(reserved := w.reserved - 1)
      else w.(reserved := w.reserved - 1, queue := w.queue + [m], committed := w.committed + [m])
    case Abort => if w.reserved == 0 then w else w.(reserved := w.reserved - 1)
    case CloneSender => if w.senders == 0 then w else w.(senders := w.senders + 1)
    case DropSender =>
      // a permit borrows its sender, so the last sender outlives every permit
      if w.senders > 1 || (w.senders == 1 && w.reserved == 0) then w.(senders := w.senders - 1) else w
    case StoreStopping => w.(cell := Stopping)
    case RequestCancel => w.(cancelled := true)
  }

  /** A panic reaches the supervisor, which restarts over the same mailbox or gives up. */
  function Crash<M>(w: World<M>, entry: Entry<M>, decision: Decision): World<M> {
    if decision.Restart?
    then w.(pc := Launch, inc := w.inc + 1, log := w.log + [entry])
    else w.(pc := Deliver(Failed(w.inc)), log := w.log + [entry])
  }

  /** Where the drain loop goes after handling one more message. */
  function AfterDrained<M>(capacity: nat, drained: nat): Pc<M> {
    if drained + 1 >= capacity then RunStop else Drain(drained + 1)
  }

  function ActStep<M>(w: World<M>, panics: bool, decision: Decision): World<M> {
    match w.pc
    case Launch => w.(cell := Running, pc := Starting)
    case Starting =>
      if panics then Crash(w, PanicIdle(w.inc), decision)
      else w.(pc := CheckCancel, log := w.log + [OnStart(w.inc)])
    case CheckCancel => w.(pc := if w.cancelled then EnterDrain else Receive)
    case Receive =>
      if w.cancelled then w.(pc := EnterDrain)
      else if w.queue != [] then w.(pc := Handling(w.queue[0]), queue := w.queue[1..])
      else if w.senders == 0 then w.(pc := EnterDrain)
      else w
    case Handling(m) =>
      if panics then Crash(w, PanicOn(w.inc, m), decision)
      else w.(pc := CheckCancel, log := w.log + [Handled(w.inc, m)])
    case EnterDrain => w.(cell := Stopping, pc := Drain(0), mark := |w.committed|)
    case Drain(d) =>
      if w.queue != [] then w.(pc := DrainHandling(d, w.queue[0]), queue := w.queue[1..])
      else w.(pc := RunStop)
    case DrainHandling(d, m) =>
      if panics then Crash(w, PanicOn(w.inc, m), decision)
      else w.(pc := AfterDrained(w.capacity, d), log := w.log + [Handled(w.inc, m)])
    case RunStop =>
      if panics then Crash(w, PanicIdle(w.inc), decision)
      else w.(pc := Deliver(Returned(w.inc)), log := w.log + [OnStop(w.inc)])
    case Deliver(o) => w.(pc := Mark(o))
    case Mark(o) => w.(cell := Stopped, pc := Release(o))
    case Release(o) => w.(pc := Done(o), closed := true, queue := [])
    case Done(_) => w
  }

  function Step<M>(w: World<M>, c: Choice<M>): World<M> {
    match c
    case Env(op) => EnvStep(w, op)
    case Act(panics, decision) => ActStep(w, panics, decision)
  }

  function Run<M>(w: World<M>, steps: seq<Choice<M>>): World<M> {
    if steps == [] then w else Step(Run(w, steps[..|steps| - 1]), steps[|steps| - 1])
  }

  // ----- what a log says -----

  /** Messages taken from the mailbox, by any incarnation, in order. */
  function Consumed<M>(log: seq<Entry<M>>): seq<M> {
    if log == [] then []
    else
      var last := log[|log| - 1];
      Consumed(log[..|log| - 1]) + (if last.Handled? || last.PanicOn? then [last.msg] else [])
  }

  /** Messages whose handler ran to completion, in order. */
  function HandledOf<M>(log: seq<Entry<M>>): seq<M> {
    if log == [] then []
    else
      var last := log[|log| - 1];
      HandledOf(log[..|log| - 1]) + (if last.Handled? then [last.msg] else [])
  }

  /** The message in the handler's hands. */
  function InHand<M>(pc: Pc<M>): seq<M> {
    if pc.Handling? || pc.DrainHandling? then [pc.msg] else []
  }

  /** The last incarnation has ended, and `pc.outcome` says how. */
  predicate Over<M>(pc: Pc<M>) {
    pc.Deliver? || pc.Mark? || pc.Release? || pc.Done?
  }

  predicate PanicFree<M>(steps: seq<Choice<M>>) {
    forall i | 0 <= i < |steps| :: steps[i].Act? ==> !steps[i].panics
  }
}
