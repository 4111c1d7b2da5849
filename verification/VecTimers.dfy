/** Timer store over a plain vector: cancelling blanks an entry, collecting keeps what is not yet due. */
module VecStore {
  import opened Basics
  import opened TimerModel

  datatype Slot<W> = Slot(deadline: Nanos, id: nat, waker: Option<W>)

  predicate InIdOrder<W>(slots: seq<Slot<W>>) {
    forall i, j | 0 <= i < j < |slots| :: slots[i].id < slots[j].id
  }

  /** Slots are in id order; the filled ones are exactly the live timers. */
  ghost predicate Represents<W>(slots: seq<Slot<W>>, nextId: nat, live: map<nat, Timer<W>>) {
    && InIdOrder(slots)
    && (forall i | 0 <= i < |slots| :: Holds(slots[i], nextId, live))
    && (forall id | id in live :: exists i :: 0 <= i < |slots| && slots[i].id == id && slots[i].waker.Some?)
  }

  ghost predicate Holds<W>(slot: Slot<W>, nextId: nat, live: map<nat, Timer<W>>) {
    && slot.id < nextId
    && (slot.waker.Some? ==> slot.id in live && live[slot.id] == Timer(slot.deadline, slot.waker.value))
  }

  /** Ids of the filled slots. */
  function Filled<W>(slots: seq<Slot<W>>): (ids: seq<nat>)
    ensures forall id :: id in ids <==> exists i :: 0 <= i < |slots| && slots[i].id == id && slots[i].waker.Some?
  {
    if slots == [] then []
    else
      var last := slots[|slots| - 1];
      assert slots == slots[..|slots| - 1] + [last];
      Filled(slots[..|slots| - 1]) + (if last.waker.Some? then [last.id] else [])
  }

  lemma {:induction false} FilledDistinct<W>(slots: seq<Slot<W>>)
    requires InIdOrder(slots)
    ensures forall i, j | 0 <= i < j < |Filled(slots)| :: Filled(slots)[i] != Filled(slots)[j]
  {
    if slots != [] {
      var front := slots[..|slots| - 1];
      FilledDistinct(front);
      forall i | 0 <= i < |Filled(front)| ensures Filled(front)[i] != slots[|slots| - 1].id {
        assert Filled(front)[i] in Filled(front);
      }
    }
  }

  /** Wakers of the filled slots, in the same order as `Filled`. */
  function Wakers<W>(slots: seq<Slot<W>>): (ws: seq<W>)
    ensures |ws| == |Filled(slots)|
  {
    if slots == [] then []
    else
      var last := slots[|slots| - 1];
      Wakers(slots[..|slots| - 1]) + (if last.waker.Some? then [last.waker.value] else [])
  }

  lemma {:induction false} WakersOfFilled<W>(slots: seq<Slot<W>>, nextId: nat, live: map<nat, Timer<W>>, k: nat)
    requires forall i | 0 <= i < |slots| :: Holds(slots[i], nextId, live)
    requires k < |Filled(slots)|
    ensures Filled(slots)[k] in live && Wakers(slots)[k] == live[Filled(slots)[k]].waker
  {
    var front := slots[..|slots| - 1];
    if k < |Filled(front)| {
      WakersOfFilled(front, nextId, live, k);
    } else {
      assert Holds(slots[|slots| - 1], nextId, live);
    }
  }

  /** The slots that are due at `now`, or those that are not. */
  function Part<W>(slots: seq<Slot<W>>, now: Nanos, due: bool): seq<Slot<W>> {
    if slots == [] then []
    else
      var last := slots[|slots| - 1];
      Part(slots[..|slots| - 1], now, due) + (if (last.deadline <= now) == due then [last] else [])
  }

  lemma {:induction false} PartMembers<W>(slots: seq<Slot<W>>, now: Nanos, due: bool)
    ensures forall s | s in Part(slots, now, due) :: s in slots && (s.deadline <= now) == due
    ensures forall s | s in slots && (s.deadline <= now) == due :: s in Part(slots, now, due)
  {
    if slots != [] {
      var front := slots[..|slots| - 1];
      PartMembers(front, now, due);
      assert slots == front + [slots[|slots| - 1]];
    }
  }

  lemma {:induction false} PartOrdered<W>(slots: seq<Slot<W>>, now: Nanos, due: bool)
    requires InIdOrder(slots)
    ensures InIdOrder(Part(slots, now, due))
  {
    if slots != [] {
      var front := slots[..|slots| - 1];
      PartOrdered(front, now, due);
      PartMembers(front, now, due);
      forall i | 0 <= i < |Part(front, now, due)| ensures Part(front, now, due)[i].id < slots[|slots| - 1].id {
        assert Part(front, now, due)[i] in front;
      }
    }
  }

  /** The kept slots represent the timers not due. */
  lemma KeptRepresents<W>(slots: seq<Slot<W>>, nextId: nat, live: map<nat, Timer<W>>, now: Nanos)
    requires Represents(slots, nextId, live)
    ensures Represents(Part(slots, now, false), nextId, live - Due(live, now))
  {
    var kept := Part(slots, now, false);
    PartOrdered(slots, now, false);
    PartMembers(slots, now, false);
    forall i | 0 <= i < |kept| ensures Holds(kept[i], nextId, live - Due(live, now)) {
      assert kept[i] in slots;
    }
    forall id | id in live - Due(live, now)
      ensures exists i :: 0 <= i < |kept| && kept[i].id == id && kept[i].waker.Some?
    {
      var j :| 0 <= j < |slots| && slots[j].id == id && slots[j].waker.Some?;
      assert Holds(slots[j], nextId, live);
      assert slots[j] in kept;
    }
  }

  /** The due slots list exactly the timers due. */
  lemma DueListed<W>(slots: seq<Slot<W>>, nextId: nat, live: map<nat, Timer<W>>, now: Nanos)
    requires Represents(slots, nextId, live)
    ensures var due := Part(slots, now, true); Lists(Filled(due), Due(live, now), live, Wakers(due))
  {
    var due := Part(slots, now, true);
    PartOrdered(slots, now, true);
    PartMembers(slots, now, true);
    FilledDistinct(due);
    forall i | 0 <= i < |due| ensures Holds(due[i], nextId, live) {
      assert due[i] in slots;
    }
    forall k | 0 <= k < |Filled(due)|
      ensures Filled(due)[k] in Due(live, now) && Wakers(due)[k] == live[Filled(due)[k]].waker
    {
      WakersOfFilled(due, nextId, live, k);
      assert Filled(due)[k] in Filled(due);
      var i :| 0 <= i < |due| && due[i].id == Filled(due)[k] && due[i].waker.Some?;
      assert due[i] in due && Holds(due[i], nextId, live);
    }
    forall id | id in Due(live, now) ensures id in Filled(due) {
      var j :| 0 <= j < |slots| && slots[j].id == id && slots[j].waker.Some?;
      assert Holds(slots[j], nextId, live);
      assert slots[j] in due;
    }
  }

  // ----- the store as a function of its state -----

  datatype State<W> = State(slots: seq<Slot<W>>, nextId: nat)

  /** The first filled slot with this id, or the number of slots. */
  function Find<W>(slots: seq<Slot<W>>, id: nat): (i: nat)
    ensures i <= |slots|
    ensures i < |slots| ==> slots[i].id == id && slots[i].waker.Some?
    ensures forall j | 0 <= j < i :: slots[j].id != id || slots[j].waker.None?
  {
    if slots == [] || (slots[0].id == id && slots[0].waker.Some?) then 0
    else
      assert forall j | 0 < j < |slots| :: slots[j] == slots[1..][j - 1];
      1 + Find(slots[1..], id)
  }

  function Step<W>(s: State<W>, op: Op<W>): (State<W>, Output<W>) {
    match op
    case Insert(d, w) => (State(s.slots + [Slot(d, s.nextId, Some(w))], s.nextId + 1), Issued(s.nextId))
    case Cancel(id) =>
      var i := Find(s.slots, id);
      if i == |s.slots| then (s, Flag(false))
      else (s.(slots := s.slots[i := s.slots[i].(waker := None)]), Flag(true))
    case Collect(now) => (s.(slots := Part(s.slots, now, false)), Woken(Wakers(Part(s.slots, now, true))))
  }

  function Run<W>(ops: seq<Op<W>>): State<W> {
    if ops == [] then State([], 0) else Step(Run(ops[..|ops| - 1]), ops[|ops| - 1]).0
  }

  function Len<W>(s: State<W>): nat {
    |Filled(s.slots)|
  }

  lemma LenIsLive<W>(s: State<W>, live: map<nat, Timer<W>>)
    requires Represents(s.slots, s.nextId, live)
    ensures Len(s) == |live|
  {
    FilledDistinct(s.slots);
    forall i | 0 <= i < |Filled(s.slots)| ensures Filled(s.slots)[i] in live {
      assert Filled(s.slots)[i] in Filled(s.slots);
    }
    ListLength(Filled(s.slots), live.Keys);
  }

  lemma CancelKeeps<W>(s: State<W>, live: map<nat, Timer<W>>, id: nat)
    requires Represents(s.slots, s.nextId, live)
    ensures var (s', a) := Step(s, Cancel(id));
            a == Flag(id in live) && Represents(s'.slots, s'.nextId, live - {id})
  {
    var i := Find(s.slots, id);
    if i < |s.slots| {
      assert Holds(s.slots[i], s.nextId, live);
      Blanks(s.slots, s.nextId, live, i);
    } else {
      assert id !in live;
      assert live - {id} == live;
    }
  }

  /** The store, updated in place. */
  class VecTimers<W> {
    var slots: seq<Slot<W>>
    var nextId: nat

    function Contents(): State<W>
      reads this
    {
      State(slots, nextId)
    }

    constructor ()
      ensures Contents() == Run<W>([])
    {
      slots, nextId := [], 0;
    }

    method Insert(deadline: Nanos, waker: W) returns (id: nat)
      modifies this
      ensures (Contents(), Issued(id)) == Step(old(Contents()), Op.Insert(deadline, waker))
      ensures forall live | Represents(old(slots), old(nextId), live) ::
                Represents(slots, nextId, live[id := Timer(deadline, waker)])
    {
      forall live | Represents(slots, nextId, live)
        ensures Represents(slots + [Slot(deadline, nextId, Some(waker))], nextId + 1,
                           live[nextId := Timer(deadline, waker)])
      {
        Appends(slots, nextId, live, deadline, waker);
      }
      id := nextId;
      nextId := nextId + 1;
      slots := slots + [Slot(deadline, id, Some(waker))];
    }

    method Cancel(id: nat) returns (ok: bool)
      modifies this
      ensures (Contents(), Flag(ok)) == Step(old(Contents()), Op.Cancel(id))
      ensures forall live | Represents(old(slots), old(nextId), live) ::
                ok == (id in live) && Represents(slots, nextId, live - {id})
    {
      ghost var was := Contents();
      forall live | Represents(slots, nextId, live)
        ensures var (s', a) := Step(was, Op.Cancel(id));
                a == Flag(id in live) && Represents(s'.slots, s'.nextId, live - {id})
      {
        CancelKeeps(was, live, id);
      }
      var i := 0;
      while i < |slots|
        invariant 0 <= i <= |slots| && Contents() == was
        invariant forall j | 0 <= j < i :: slots[j].id != id || slots[j].waker.None?
      {
        if slots[i].id == id && slots[i].waker.Some? {
          assert i == Find(slots, id);
          slots := slots[i := slots[i].(waker := None)];
          return true;
        }
        i := i + 1;
      }
      return false;
    }

    method Size() returns (n: nat)
      ensures n == Len(Contents())
      ensures forall live | Represents(slots, nextId, live) :: n == |live|
    {
      n := 0;
      for i := 0 to |slots|
        invariant n == |Filled(slots[..i])|
      {
        assert slots[..i + 1][..i] == slots[..i];
        if slots[i].waker.Some? {
          n := n + 1;
        }
      }
      assert slots[..|slots|] == slots;
      forall live | Represents(slots, nextId, live) ensures n == |live| {
        LenIsLive(Contents(), live);
      }
    }

    /** `retain`: due slots go, their wakers (if any) fire. */
    method CollectExpired(now: Nanos) returns (expired: seq<W>)
      modifies this
      ensures (Contents(), Woken(expired)) == Step(old(Contents()), Collect(now))
      ensures forall live | Represents(old(slots), old(nextId), live) ::
                && Represents(slots, nextId, live - Due(live, now))
                && exists ids :: Lists(ids, Due(live, now), live, expired)
    {
      ghost var due := Part(slots, now, true);
      forall live | Represents(slots, nextId, live)
        ensures Represents(Part(slots, now, false), nextId, live - Due(live, now))
        ensures Lists(Filled(due), Due(live, now), live, Wakers(due))
      {
        KeptRepresents(slots, nextId, live, now);
        DueListed(slots, nextId, live, now);
      }
      slots, expired := Retain(slots, now);
    }
  }

  method Retain<W>(slots: seq<Slot<W>>, now: Nanos) returns (kept: seq<Slot<W>>, expired: seq<W>)
    ensures kept == Part(slots, now, false)
    ensures expired == Wakers(Part(slots, now, true))
  {
    kept, expired := [], [];
    for i := 0 to |slots|
      invariant kept == Part(slots[..i], now, false)
      invariant expired == Wakers(Part(slots[..i], now, true))
    {
      assert slots[..i + 1][..i] == slots[..i];
      if slots[i].deadline <= now {
        assert Part(slots[..i + 1], now, true) == Part(slots[..i], now, true) + [slots[i]];
        WakersSnoc(Part(slots[..i], now, true), slots[i]);
        if slots[i].waker.Some? {
          expired := expired + [slots[i].waker.value];
        } else {
          assert expired + [] == expired;
        }
      } else {
        assert Part(slots[..i + 1], now, true) == Part(slots[..i], now, true);
        kept := kept + [slots[i]];
      }
    }
    assert slots[..|slots|] == slots;
  }

  lemma WakersSnoc<W>(slots: seq<Slot<W>>, s: Slot<W>)
    ensures Wakers(slots + [s]) == Wakers(slots) + (if s.waker.Some? then [s.waker.value] else [])
  {
    assert (slots + [s])[..|slots|] == slots;
  }

  lemma Appends<W>(slots: seq<Slot<W>>, nextId: nat, live: map<nat, Timer<W>>, deadline: Nanos, waker: W)
    requires Represents(slots, nextId, live)
    ensures Represents(slots + [Slot(deadline, nextId, Some(waker))], nextId + 1,
                       live[nextId := Timer(deadline, waker)])
  {
    var slots' := slots + [Slot(deadline, nextId, Some(waker))];
    var live' := live[nextId := Timer(deadline, waker)];
    forall id | id in live'
      ensures exists i :: 0 <= i < |slots'| && slots'[i].id == id && slots'[i].waker.Some?
    {
      if id == nextId {
        assert slots'[|slots|].id == id;
      } else {
        var i :| 0 <= i < |slots| && slots[i].id == id && slots[i].waker.Some?;
        assert slots'[i].id == id;
      }
    }
  }

  lemma BlankHolds<W>(slots: seq<Slot<W>>, nextId: nat, live: map<nat, Timer<W>>, i: nat, j: nat)
    requires Represents(slots, nextId, live) && i < |slots| && j < |slots|
    ensures Holds(slots[i := slots[i].(waker := None)][j], nextId, live - {slots[i].id})
  {
    assert Holds(slots[j], nextId, live);
    assert j < i ==> slots[j].id < slots[i].id;
    assert i < j ==> slots[i].id < slots[j].id;
  }

  /** Blanking a slot forgets its timer and no other. */
  lemma Blanks<W>(slots: seq<Slot<W>>, nextId: nat, live: map<nat, Timer<W>>, i: nat)
    requires Represents(slots, nextId, live) && i < |slots|
    ensures Represents(slots[i := slots[i].(waker := None)], nextId, live - {slots[i].id})
  {
    var slots' := slots[i := slots[i].(waker := None)];
    forall j | 0 <= j < |slots'| ensures Holds(slots'[j], nextId, live - {slots[i].id}) {
      BlankHolds(slots, nextId, live, i, j);
    }
    forall id | id in live - {slots[i].id}
      ensures exists j :: 0 <= j < |slots'| && slots'[j].id == id && slots'[j].waker.Some?
    {
      var j :| 0 <= j < |slots| && slots[j].id == id && slots[j].waker.Some?;
      assert slots'[j] == slots[j];
    }
  }
}
