/** Reference semantics of a timer store, against which the three stores are compared. */
module TimerModel {
  /** Nanosecond clock values are unsigned 64-bit in the stores; timer ids are taken as unbounded. */
  const U64_LIMIT: nat := 0x1_0000_0000_0000_0000
  type Nanos = n: nat | n < U64_LIMIT witness 0

  datatype Timer<W> = Timer(deadline: Nanos, waker: W)

  datatype Op<W> = Insert(deadline: Nanos, waker: W) | Cancel(id: nat) | Collect(now: Nanos)

  /** What a call returns. */
  datatype Output<W> = Issued(id: nat) | Flag(ok: bool) | Woken(wakers: seq<W>)

  /** Live timers by id, timers that expired without being cancelled, and the next id. */
  datatype Ref<W> = Ref(live: map<nat, Timer<W>>, expired: set<nat>, next: nat)

  /** Ids of the live timers due at `now`. */
  function Due<W>(live: map<nat, Timer<W>>, now: Nanos): set<nat> {
    set id | id in live && live[id].deadline <= now
  }

  function RefStep<W>(s: Ref<W>, op: Op<W>): Ref<W> {
    match op
    case Insert(d, w) => Ref(s.live[s.next := Timer(d, w)], s.expired, s.next + 1)
    case Cancel(id) => s.(live := s.live - {id})
    case Collect(now) => s.(live := s.live - Due(s.live, now), expired := s.expired + Due(s.live, now))
  }

  function RefRun<W>(ops: seq<Op<W>>): Ref<W> {
    if ops == [] then Ref(map[], {}, 0) else RefStep(RefRun(ops[..|ops| - 1]), ops[|ops| - 1])
  }

  // ----- orders of expiry -----

  /** (deadline, id) pairs, compared as the heap compares them. */
  type Key = (Nanos, nat)

  predicate Before(a: Key, b: Key) {
    a.0 < b.0 || (a.0 == b.0 && a.1 < b.1)
  }

  predicate StrictlySorted(keys: seq<Key>) {
    forall i, j | 0 <= i < j < |keys| :: Before(keys[i], keys[j])
  }

  /** `ids` lists `due` without repetition, and `wakers` are their wakers. */
  ghost predicate Lists<W>(ids: seq<nat>, due: set<nat>, live: map<nat, Timer<W>>, wakers: seq<W>) {
    && (forall i, j | 0 <= i < j < |ids| :: ids[i] != ids[j])
    && (forall i | 0 <= i < |ids| :: ids[i] in due)
    && (forall id | id in due :: id in ids)
    && due <= live.Keys
    && |wakers| == |ids|
    && (forall i | 0 <= i < |ids| :: wakers[i] == live[ids[i]].waker)
  }

  /** The wakers come in the order of `keys`, each the waker of the timer with that deadline and id. */
  ghost predicate FiredInOrder<W>(live: map<nat, Timer<W>>, keys: seq<Key>, wakers: seq<W>) {
    && StrictlySorted(keys) && |keys| == |wakers|
    && forall i | 0 <= i < |keys| :: keys[i].1 in live && live[keys[i].1] == Timer(keys[i].0, wakers[i])
  }

  lemma {:induction false} ListLength(ids: seq<nat>, due: set<nat>)
    requires forall i, j | 0 <= i < j < |ids| :: ids[i] != ids[j]
    requires forall i | 0 <= i < |ids| :: ids[i] in due
    requires forall id | id in due :: id in ids
    ensures |ids| == |due|
  {
    if ids == [] {
      assert due == {};
    } else {
      var last := ids[|ids| - 1];
      var rest := ids[..|ids| - 1];
      forall id | id in due - {last} ensures id in rest {
        assert id in ids;
      }
      ListLength(rest, due - {last});
    }
  }

  function Without<T>(s: seq<T>, j: nat): seq<T>
    requires j < |s|
  {
    s[..j] + s[j + 1..]
  }

  lemma WithoutOne<T>(s: seq<T>, j: nat)
    requires j < |s|
    ensures multiset(s) == multiset(Without(s, j)) + multiset{s[j]}
  {
    assert s == s[..j] + [s[j]] + s[j + 1..];
  }

  /** Two listings of one set wake the same multiset of wakers. */
  lemma {:induction false} SameWoken<W>(a: seq<nat>, b: seq<nat>, due: set<nat>, live: map<nat, Timer<W>>,
                                        wa: seq<W>, wb: seq<W>)
    requires Lists(a, due, live, wa) && Lists(b, due, live, wb)
    ensures multiset(wa) == multiset(wb)
    decreases |a|
  {
    ListLength(a, due);
    ListLength(b, due);
    if a == [] {
      assert wa == [] && wb == [];
    } else {
      assert b[0] in due;
      assert a[0] in due;
      var j :| 0 <= j < |b| && b[j] == a[0];
      Drop(a, due, live, wa, 0);
      Drop(b, due, live, wb, j);
      SameWoken(Without(a, 0), Without(b, j), due - {a[0]}, live, Without(wa, 0), Without(wb, j));
      WithoutOne(wa, 0);
      WithoutOne(wb, j);
    }
  }

  lemma Drop<W>(ids: seq<nat>, due: set<nat>, live: map<nat, Timer<W>>, wakers: seq<W>, j: nat)
    requires Lists(ids, due, live, wakers) && j < |ids|
    ensures Lists(Without(ids, j), due - {ids[j]}, live, Without(wakers, j))
  {
    var ids' := Without(ids, j);
    forall id | id in due - {ids[j]} ensures id in ids' {
      var i :| 0 <= i < |ids| && ids[i] == id;
      assert id == ids'[if i < j then i else i - 1];
    }
  }
}
