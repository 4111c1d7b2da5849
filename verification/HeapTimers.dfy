/** Timer store over a priority queue with lazy deletion: cancelling forgets the waker but leaves the queue entry
    behind, and collecting skips such entries. */
module HeapStore {
  import opened TimerModel

  predicate Least(k: Key, heap: set<Key>) {
    k in heap && forall q | q in heap && q != k :: Before(k, q)
  }

  lemma LeastWith(heap: set<Key>, k: Key, m: Key)
    requires k in heap && Least(m, heap - {k})
    ensures Least(if Before(m, k) then m else k, heap)
  {
    var least := if Before(m, k) then m else k;
    forall q | q in heap && q != least ensures Before(least, q) {
      if q != k && q != m {
        assert q in heap - {k};
        assert Before(m, q);
      }
    }
  }

  lemma {:induction false} HasMin(heap: set<Key>)
    requires heap != {}
    ensures exists k :: Least(k, heap)
  {
    var k :| k in heap;
    if heap == {k} {
      assert Least(k, heap);
    } else {
      HasMin(heap - {k});
      var m :| Least(m, heap - {k});
      LeastWith(heap, k, m);
    }
  }

  lemma LeastUnique(a: Key, b: Key, heap: set<Key>)
    requires Least(a, heap) && Least(b, heap)
    ensures a == b
  {
  }

  // ----- the store as a function of its state -----

  datatype State<W> = State(heap: set<Key>, wakers: map<nat, W>, nextId: nat)

  /** What popping left behind, what fired, and the entries it fired for. */
  datatype Popped<W> = Popped(heap: set<Key>, wakers: map<nat, W>, woken: seq<W>, keys: seq<Key>)

  ghost function LeastOf(heap: set<Key>): (least: Key)
    requires heap != {}
    ensures Least(least, heap)
  {
    HasMin(heap);
    var k :| Least(k, heap);
    k
  }

  /** Pops while the least deadline is not after `now`; entries without a waker are dropped silently. */
  ghost function PopDue<W>(heap: set<Key>, wakers: map<nat, W>, now: Nanos): Popped<W>
    decreases heap
  {
    if heap == {} || LeastOf(heap).0 > now then Popped(heap, wakers, [], [])
    else
      var least := LeastOf(heap);
      var rest := PopDue(heap - {least}, wakers - {least.1}, now);
      if least.1 in wakers then Popped(rest.heap, rest.wakers, [wakers[least.1]] + rest.woken, [least] + rest.keys)
      else rest
  }

  ghost function Step<W>(s: State<W>, op: Op<W>): (State<W>, Output<W>) {
    match op
    case Insert(d, w) =>
      (State(s.heap + {(d, s.nextId)}, s.wakers[s.nextId := w], s.nextId + 1), Issued(s.nextId))
    case Cancel(id) => (s.(wakers := s.wakers - {id}), Flag(id in s.wakers))
    case Collect(now) =>
      var p := PopDue(s.heap, s.wakers, now);
      (State(p.heap, p.wakers, s.nextId), Woken(p.woken))
  }

  ghost function Run<W>(ops: seq<Op<W>>): State<W> {
    if ops == [] then State({}, map[], 0) else Step(Run(ops[..|ops| - 1]), ops[|ops| - 1]).0
  }

  function Len<W>(s: State<W>): nat {
    |s.wakers|
  }

  /** The store, updated in place. */
  class HeapTimers<W> {
    var heap: set<Key>            // the standard priority queue: only its least element is ever read
    var wakers: map<nat, W>
    var nextId: nat

    function Contents(): State<W>
      reads this
    {
      State(heap, wakers, nextId)
    }

    constructor ()
      ensures Contents() == Run<W>([])
    {
      heap, wakers, nextId := {}, map[], 0;
    }

    method Insert(deadline: Nanos, waker: W) returns (id: nat)
      modifies this
      ensures (Contents(), Issued(id)) == Step(old(Contents()), Op.Insert(deadline, waker))
      ensures forall live | Represents(old(Contents()), live) ::
                id !in live && Represents(Contents(), live[id := Timer(deadline, waker)])
    {
      id := nextId;
      nextId := nextId + 1;
      heap := heap + {(deadline, id)};
      wakers := wakers[id := waker];
    }

    method Cancel(id: nat) returns (ok: bool)
      modifies this
      ensures (Contents(), Flag(ok)) == Step(old(Contents()), Op.Cancel(id))
      ensures forall live | Represents(old(Contents()), live) ::
                ok == (id in live) && Represents(Contents(), live - {id})
    {
      ok := id in wakers;
      wakers := wakers - {id};
    }

    method Size() returns (n: nat)
      ensures n == Len(Contents())
      ensures forall live | Represents(Contents(), live) :: n == |live|
    {
      n := |wakers|;
      forall live | Represents(Contents(), live) ensures n == |live| {
        LenIsLive(Contents(), live);
      }
    }

    /** The least entry of the queue. */
    method Peek() returns (least: Key)
      requires heap != {}
      ensures Least(least, heap)
    {
      HasMin(heap);
      least :| least in heap && Least(least, heap);
    }

    /** The pop loop. */
    method CollectExpired(now: Nanos) returns (expired: seq<W>)
      modifies this
      ensures (Contents(), Woken(expired)) == Step(old(Contents()), Collect(now))
      ensures forall live | Represents(old(Contents()), live) ::
                && Represents(Contents(), live - Due(live, now))
                && Collected(live, now, PopDue(old(heap), old(wakers), now).keys, expired)
    {
      expired := [];
      ghost var all := PopDue(heap, wakers, now);
      forall live | Represents(Contents(), live)
        ensures Represents(State(all.heap, all.wakers, nextId), live - Due(live, now))
        ensures Collected(live, now, all.keys, all.woken)
      {
        CollectKeeps(Contents(), live, now);
      }
      while heap != {}
        invariant nextId == old(nextId)
        invariant var p := PopDue(heap, wakers, now);
                  p.heap == all.heap && p.wakers == all.wakers && expired + p.woken == all.woken
        decreases heap
      {
        var least := Peek();
        LeastUnique(least, LeastOf(heap), heap);
        if least.0 > now {
          break;
        }
        ghost var rest := PopDue(heap - {least}, wakers - {least.1}, now).woken;
        heap := heap - {least};
        if least.1 in wakers {
          assert expired + ([wakers[least.1]] + rest) == expired + [wakers[least.1]] + rest;
          expired := expired + [wakers[least.1]];
        }
        wakers := wakers - {least.1};
      }
      assert PopDue(heap, wakers, now) == Popped(heap, wakers, [], []);
      assert expired + [] == expired;
    }
  }

  // ----- what the store represents -----

  function Ids(keys: seq<Key>): seq<nat> {
    seq(|keys|, i requires 0 <= i < |keys| => keys[i].1)
  }

  /** Every live timer has its waker and a queue entry; queue entries of cancelled timers may linger. */
  ghost predicate Represents<W>(s: State<W>, live: map<nat, Timer<W>>) {
    && s.wakers.Keys == live.Keys
    && (forall id | id in live :: id < s.nextId && s.wakers[id] == live[id].waker && (live[id].deadline, id) in s.heap)
    && (forall k | k in s.heap :: k.1 < s.nextId && (k.1 in live ==> k.0 == live[k.1].deadline))
  }

  lemma RemoveKeeps<W>(s: State<W>, live: map<nat, Timer<W>>, k: Key)
    requires Represents(s, live) && k in s.heap
    ensures Represents(State(s.heap - {k}, s.wakers - {k.1}, s.nextId), live - {k.1})
  {
  }

  /** What fired so far came in order, before everything still queued. */
  ghost predicate Progress<W>(was: map<nat, Timer<W>>, live: map<nat, Timer<W>>, heap: set<Key>, now: Nanos,
                              keys: seq<Key>, expired: seq<W>) {
    && StrictlySorted(keys)
    && |expired| == |keys|
    && (forall i | 0 <= i < |keys| :: Fired(was, live, now, keys[i]) && expired[i] == was[keys[i].1].waker)
    && (forall i, q | 0 <= i < |keys| && q in heap :: Before(keys[i], q))
    && live.Keys <= was.Keys
    && (forall id | id in live :: live[id] == was[id] && (live[id].deadline, id) in heap)
    && (forall id | id in was && id !in live :: (was[id].deadline, id) in keys)
  }

  ghost predicate Fired<W>(was: map<nat, Timer<W>>, live: map<nat, Timer<W>>, now: Nanos, k: Key) {
    k.1 in was && k.1 !in live && k.0 == was[k.1].deadline <= now
  }

  /** Popping the least entry keeps the progress, whether its timer is live or was cancelled. */
  lemma Pops<W>(was: map<nat, Timer<W>>, live: map<nat, Timer<W>>, heap: set<Key>, now: Nanos,
                keys: seq<Key>, expired: seq<W>, least: Key)
    requires Progress(was, live, heap, now, keys, expired)
    requires Least(least, heap) && least.0 <= now
    requires least.1 in live ==> live[least.1].deadline == least.0
    ensures least.1 in live ==>
              Progress(was, live - {least.1}, heap - {least}, now, keys + [least], expired + [live[least.1].waker])
    ensures least.1 !in live ==> Progress(was, live - {least.1}, heap - {least}, now, keys, expired)
  {
    assert least.1 !in live ==> live - {least.1} == live;
    if least.1 in live {
      var keys' := keys + [least];
      forall id | id in was && id !in live - {least.1} ensures (was[id].deadline, id) in keys' {
        if id == least.1 {
          assert keys'[|keys|] == least;
        } else {
          assert (was[id].deadline, id) in keys;
        }
      }
    }
  }

  lemma Settled<W>(was: map<nat, Timer<W>>, live: map<nat, Timer<W>>, heap: set<Key>, now: Nanos,
                   keys: seq<Key>, expired: seq<W>)
    requires Progress(was, live, heap, now, keys, expired)
    requires forall k | k in heap :: k.0 > now
    ensures live == was - Due(was, now)
    ensures Collected(was, now, keys, expired)
  {
    var ids := Ids(keys);
    forall id | id in Due(was, now) ensures id in ids {
      assert id !in live;
      var i :| 0 <= i < |keys| && keys[i] == (was[id].deadline, id);
      assert ids[i] == id;
    }
    forall i, j | 0 <= i < j < |ids| ensures ids[i] != ids[j] {
      assert Before(keys[i], keys[j]);
    }
  }

  /** `keys` lists the due timers, and their wakers fired in strict (deadline, id) order. */
  ghost predicate Collected<W>(was: map<nat, Timer<W>>, now: Nanos, keys: seq<Key>, woken: seq<W>) {
    Lists(Ids(keys), Due(was, now), was, woken) && FiredInOrder(was, keys, woken)
  }

  /** What the pop loop promises after `keys` have fired already. */
  ghost predicate PopsRight<W>(was: map<nat, Timer<W>>, nextId: nat, now: Nanos, keys: seq<Key>, expired: seq<W>,
                               p: Popped<W>) {
    && Represents(State(p.heap, p.wakers, nextId), was - Due(was, now))
    && Collected(was, now, keys + p.keys, expired + p.woken)
  }

  lemma FiresFirst<W>(was: map<nat, Timer<W>>, nextId: nat, now: Nanos, keys: seq<Key>, expired: seq<W>,
                      k: Key, w: W, rest: Popped<W>)
    requires PopsRight(was, nextId, now, keys + [k], expired + [w], rest)
    ensures PopsRight(was, nextId, now, keys, expired,
                      Popped(rest.heap, rest.wakers, [w] + rest.woken, [k] + rest.keys))
  {
    assert keys + [k] + rest.keys == keys + ([k] + rest.keys);
    assert expired + [w] + rest.woken == expired + ([w] + rest.woken);
  }

  lemma NothingDue<W>(was: map<nat, Timer<W>>, live: map<nat, Timer<W>>, s: State<W>, now: Nanos, keys: seq<Key>,
                      expired: seq<W>)
    requires Represents(s, live) && Progress(was, live, s.heap, now, keys, expired)
    requires s.heap == {} || LeastOf(s.heap).0 > now
    ensures PopsRight(was, s.nextId, now, keys, expired, Popped(s.heap, s.wakers, [], []))
  {
    assert keys + [] == keys && expired + [] == expired;
    Settled(was, live, s.heap, now, keys, expired);
  }

  /** The pop loop from any point on: what has fired and what will fire together list the due timers, in order. */
  lemma {:induction false} PopsAll<W>(was: map<nat, Timer<W>>, live: map<nat, Timer<W>>, s: State<W>, now: Nanos,
                                      keys: seq<Key>, expired: seq<W>)
    requires Represents(s, live) && Progress(was, live, s.heap, now, keys, expired)
    ensures PopsRight(was, s.nextId, now, keys, expired, PopDue(s.heap, s.wakers, now))
    decreases s.heap
  {
    if s.heap == {} || LeastOf(s.heap).0 > now {
      NothingDue(was, live, s, now, keys, expired);
    } else {
      var least := LeastOf(s.heap);
      var s' := State(s.heap - {least}, s.wakers - {least.1}, s.nextId);
      Pops(was, live, s.heap, now, keys, expired, least);
      RemoveKeeps(s, live, least);
      if least.1 in live {
        PopsAll(was, live - {least.1}, s', now, keys + [least], expired + [live[least.1].waker]);
        FiresFirst(was, s.nextId, now, keys, expired, least, live[least.1].waker, PopDue(s'.heap, s'.wakers, now));
      } else {
        PopsAll(was, live - {least.1}, s', now, keys, expired);
      }
    }
  }

  lemma CollectKeeps<W>(s: State<W>, live: map<nat, Timer<W>>, now: Nanos)
    requires Represents(s, live)
    ensures var p := PopDue(s.heap, s.wakers, now);
            && Represents(State(p.heap, p.wakers, s.nextId), live - Due(live, now))
            && Collected(live, now, p.keys, p.woken)
  {
    var p := PopDue(s.heap, s.wakers, now);
    PopsAll(live, live, s, now, [], []);
    assert [] + p.keys == p.keys && [] + p.woken == p.woken;
  }

  lemma LenIsLive<W>(s: State<W>, live: map<nat, Timer<W>>)
    requires Represents(s, live)
    ensures Len(s) == |live|
  {
    assert |s.wakers| == |s.wakers.Keys| && |live| == |live.Keys|;
  }
}
