/** Timer store over an ordered map from deadlines to wakers. It is only approximately right: cancelling removes
    the last waker at the deadline, whichever timer it belongs to; ids of expired timers stay in the index; and the
    exclusive upper bound `now + 1` wraps around at the end of the clock. */
module BTreeStore {
  import opened TimerModel

  /** Live timers with deadline `d`, and those whose deadline lies in `ds`. */
  function At<W>(live: map<nat, Timer<W>>, d: Nanos): set<nat> {
    set id | id in live && live[id].deadline == d
  }

  function AtAny<W>(live: map<nat, Timer<W>>, ds: set<Nanos>): set<nat> {
    set id | id in live && live[id].deadline in ds
  }

  function Bucket<W>(tree: map<Nanos, seq<W>>, d: Nanos): seq<W> {
    if d in tree then tree[d] else []
  }

  /** Every bucket has as many wakers as there are live timers at its deadline. */
  ghost predicate Counted<W>(tree: map<Nanos, seq<W>>, live: map<nat, Timer<W>>) {
    forall d: Nanos :: |Bucket(tree, d)| == |At(live, d)|
  }

  /** The index knows the live timers, and the expired ones it was never told to forget. */
  ghost predicate Indexed<W>(deadlineOf: map<nat, Nanos>, nextId: nat, live: map<nat, Timer<W>>, expired: set<nat>) {
    && expired !! live.Keys
    && deadlineOf.Keys == live.Keys + expired
    && (forall id | id in live :: deadlineOf[id] == live[id].deadline)
    && (forall id | id in deadlineOf :: id < nextId)
  }

  lemma InsertCounted<W>(tree: map<Nanos, seq<W>>, live: map<nat, Timer<W>>, id: nat, t: Timer<W>)
    requires Counted(tree, live) && id !in live
    ensures Counted(tree[t.deadline := Bucket(tree, t.deadline) + [t.waker]], live[id := t])
  {
    var tree' := tree[t.deadline := Bucket(tree, t.deadline) + [t.waker]];
    forall d: Nanos ensures |Bucket(tree', d)| == |At(live[id := t], d)| {
      assert |Bucket(tree, d)| == |At(live, d)|;
      if d == t.deadline {
        assert At(live[id := t], d) == At(live, d) + {id};
      } else {
        assert At(live[id := t], d) == At(live, d);
      }
    }
  }

  /** Removing one waker from the bucket of a live timer. */
  function Popped<W>(tree: map<Nanos, seq<W>>, d: Nanos): map<Nanos, seq<W>> {
    if d !in tree then tree
    else if |tree[d]| <= 1 then tree - {d}
    else tree[d := tree[d][..|tree[d]| - 1]]
  }

  lemma CancelCounted<W>(tree: map<Nanos, seq<W>>, live: map<nat, Timer<W>>, id: nat)
    requires Counted(tree, live) && id in live
    ensures Counted(Popped(tree, live[id].deadline), live - {id})
  {
    forall d: Nanos ensures |Bucket(Popped(tree, live[id].deadline), d)| == |At(live - {id}, d)| {
      assert At(live - {id}, d) == At(live, d) - {id};
      assert |Bucket(tree, d)| == |At(live, d)|;
      assert id in At(live, live[id].deadline);
    }
  }

  /** `split_off(bound)`: what moves to the new tree, and the keys that stay behind. */
  function From<W>(tree: map<Nanos, seq<W>>, bound: Nanos): map<Nanos, seq<W>> {
    map d | d in tree && d >= bound :: tree[d]
  }

  function Below<W>(tree: map<Nanos, seq<W>>, bound: Nanos): set<Nanos> {
    set d | d in tree && d < bound
  }

  /** Splitting the tree at `bound` splits the timers at `bound`. */
  lemma CollectCounted<W>(tree: map<Nanos, seq<W>>, live: map<nat, Timer<W>>, bound: Nanos)
    requires Counted(tree, live)
    ensures Counted(From(tree, bound), live - Under(live, bound))
    ensures AtAny(live, Below(tree, bound)) == Under(live, bound)
  {
    var tree' := From(tree, bound);
    forall d: Nanos ensures |Bucket(tree', d)| == |At(live - Under(live, bound), d)| {
      assert At(live - Under(live, bound), d) == if d >= bound then At(live, d) else {};
      assert |Bucket(tree, d)| == |At(live, d)|;
    }
    forall id | id in Under(live, bound) ensures live[id].deadline in tree {
      assert id in At(live, live[id].deadline);
      assert |Bucket(tree, live[id].deadline)| == |At(live, live[id].deadline)|;
    }
  }

  function Under<W>(live: map<nat, Timer<W>>, bound: Nanos): set<nat> {
    set id | id in live && live[id].deadline < bound
  }

  predicate IsLeast(d: Nanos, s: set<Nanos>) {
    d in s && forall e | e in s :: d <= e
  }

  lemma {:induction false} HasLeast(s: set<Nanos>) returns (least: Nanos)
    requires s != {}
    ensures IsLeast(least, s)
  {
    var d :| d in s;
    least := d;
    var rest := s - {d};
    assert s == rest + {d};
    if rest != {} {
      var m := HasLeast(rest);
      least := if m <= d then m else d;
    }
  }

  lemma BucketJoins<W>(tree: map<Nanos, seq<W>>, live: map<nat, Timer<W>>, done: set<Nanos>, d: Nanos)
    requires Counted(tree, live) && d !in done
    ensures |AtAny(live, done + {d})| == |AtAny(live, done)| + |Bucket(tree, d)|
  {
    assert AtAny(live, done + {d}) == AtAny(live, done) + At(live, d);
    assert AtAny(live, done) !! At(live, d);
    assert |Bucket(tree, d)| == |At(live, d)|;
  }

  lemma OneLeast(a: Nanos, b: Nanos, s: set<Nanos>)
    requires IsLeast(a, s) && IsLeast(b, s)
    ensures a == b
  {
    assert a in s && b in s;
    assert a <= b && b <= a;
  }

  ghost function LeastOf(s: set<Nanos>): (least: Nanos)
    requires s != {}
    ensures IsLeast(least, s)
  {
    assert exists d :: IsLeast(d, s) by {
      var d := HasLeast(s);
    }
    var d :| IsLeast(d, s);
    d
  }

  /** The buckets of `due`, concatenated from the least deadline on. */
  ghost function InOrder<W>(tree: map<Nanos, seq<W>>, due: set<Nanos>): seq<W>
    decreases due
  {
    if due == {} then [] else Bucket(tree, LeastOf(due)) + InOrder(tree, due - {LeastOf(due)})
  }

  lemma {:induction false} InOrderCounts<W>(tree: map<Nanos, seq<W>>, live: map<nat, Timer<W>>, due: set<Nanos>)
    requires Counted(tree, live)
    ensures |InOrder(tree, due)| == |AtAny(live, due)|
    decreases due
  {
    if due == {} {
      assert AtAny(live, due) == {};
    } else {
      var d := LeastOf(due);
      InOrderCounts(tree, live, due - {d});
      BucketJoins(tree, live, due - {d}, d);
      assert due - {d} + {d} == due;
    }
  }

  /** Concatenates the due buckets in key order. */
  method Drain<W>(tree: map<Nanos, seq<W>>, due: set<Nanos>) returns (woken: seq<W>)
    requires due <= tree.Keys
    ensures woken == InOrder(tree, due)
  {
    woken := [];
    var todo: set<Nanos> := due;
    while todo != {}
      invariant todo <= due && woken + InOrder(tree, todo) == InOrder(tree, due)
      decreases todo
    {
      ghost var least := HasLeast(todo);
      var d: Nanos :| d in todo && IsLeast(d, todo);
      OneLeast(d, LeastOf(todo), todo);
      assert woken + (tree[d] + InOrder(tree, todo - {d})) == woken + tree[d] + InOrder(tree, todo - {d});
      woken := woken + tree[d];
      todo := todo - {d};
    }
    assert woken + [] == woken;
  }

  // ----- the store as a function of its state -----

  datatype State<W> = State(tree: map<Nanos, seq<W>>, deadlineOf: map<nat, Nanos>, nextId: nat)

  /** `now + 1` in 64 bits. */
  function Bound(now: Nanos): Nanos {
    if now + 1 == U64_LIMIT then 0 else now + 1
  }

  ghost function Step<W>(s: State<W>, op: Op<W>): (State<W>, Output<W>) {
    match op
    case Insert(d, w) =>
      (State(s.tree[d := Bucket(s.tree, d) + [w]], s.deadlineOf[s.nextId := d], s.nextId + 1), Issued(s.nextId))
    case Cancel(id) =>
      if id !in s.deadlineOf then (s, Flag(false))
      else (s.(tree := Popped(s.tree, s.deadlineOf[id]), deadlineOf := s.deadlineOf - {id}), Flag(true))
    case Collect(now) =>
      (s.(tree := From(s.tree, Bound(now))), Woken(InOrder(s.tree, Below(s.tree, Bound(now)))))
  }

  ghost function Run<W>(ops: seq<Op<W>>): State<W> {
    if ops == [] then State(map[], map[], 0) else Step(Run(ops[..|ops| - 1]), ops[|ops| - 1]).0
  }

  function Len<W>(s: State<W>): nat {
    |s.deadlineOf|
  }

  /** The store, updated in place. `live` and `expired` stand for any timers it may be in step with. */
  class BTreeTimers<W> {
    var tree: map<Nanos, seq<W>>
    var deadlineOf: map<nat, Nanos>
    var nextId: nat

    function Contents(): State<W>
      reads this
    {
      State(tree, deadlineOf, nextId)
    }

    constructor ()
      ensures Contents() == Run<W>([])
    {
      tree, deadlineOf, nextId := map[], map[], 0;
    }

    method Insert(deadline: Nanos, waker: W, ghost live: map<nat, Timer<W>>, ghost expired: set<nat>)
      returns (id: nat)
      modifies this
      ensures (Contents(), Issued(id)) == Step(old(Contents()), Op.Insert(deadline, waker))
      ensures InStep(old(Contents()), live, expired) ==>
                InStep(Contents(), live[id := Timer(deadline, waker)], expired)
    {
      ghost var was := Contents();
      id := nextId;
      nextId := nextId + 1;
      tree := tree[deadline := Bucket(tree, deadline) + [waker]];
      deadlineOf := deadlineOf[id := deadline];
      if InStep(was, live, expired) {
        InsertInStep(was, live, expired, deadline, waker);
      }
    }

    method Cancel(id: nat, ghost live: map<nat, Timer<W>>, ghost expired: set<nat>) returns (ok: bool)
      modifies this
      ensures (Contents(), Flag(ok)) == Step(old(Contents()), Op.Cancel(id))
      ensures InStep(old(Contents()), live, expired) ==>
                && ok == (id in live || id in expired)
                && (id !in expired ==> InStep(Contents(), live - {id}, expired))
    {
      ghost var was := Contents();
      ok := id in deadlineOf;
      if ok {
        var deadline := deadlineOf[id];
        deadlineOf := deadlineOf - {id};
        if deadline in tree {
          var wakers := tree[deadline];
          if |wakers| <= 1 {
            tree := tree - {deadline};
          } else {
            tree := tree[deadline := wakers[..|wakers| - 1]];
          }
        }
      }
      if InStep(was, live, expired) {
        CancelInStep(was, live, expired, id);
      }
    }

    method CollectExpired(now: Nanos, ghost live: map<nat, Timer<W>>, ghost expired: set<nat>)
      returns (woken: seq<W>)
      modifies this
      ensures (Contents(), Woken(woken)) == Step(old(Contents()), Collect(now))
      ensures now + 1 == U64_LIMIT ==> woken == []
      ensures InStep(old(Contents()), live, expired) && now + 1 < U64_LIMIT ==>
                && |woken| == |Due(live, now)|
                && InStep(Contents(), live - Due(live, now), expired + Due(live, now))
    {
      ghost var was := Contents();
      var bound := Bound(now);
      var rest := From(tree, bound);
      woken := Drain(tree, Below(tree, bound));
      tree := rest;
      CollectMeans(was, Contents(), woken, live, expired, now);
    }

    method Size() returns (n: nat)
      ensures n == Len(Contents())
    {
      n := |deadlineOf|;
    }
  }

  // ----- what the store represents -----

  /** The store counts as a faithful one with these live and these expired timers does. */
  ghost predicate InStep<W>(s: State<W>, live: map<nat, Timer<W>>, expired: set<nat>) {
    Counted(s.tree, live) && Indexed(s.deadlineOf, s.nextId, live, expired)
  }

  /** The length counts expired timers too: the index never forgets them unasked. */
  lemma LenCountsExpired<W>(s: State<W>, live: map<nat, Timer<W>>, expired: set<nat>)
    requires InStep(s, live, expired)
    ensures Len(s) == |live| + |expired|
  {
    assert |s.deadlineOf| == |s.deadlineOf.Keys| && |live| == |live.Keys|;
    assert s.deadlineOf.Keys == live.Keys + expired && live.Keys !! expired;
  }

  lemma InsertInStep<W>(s: State<W>, live: map<nat, Timer<W>>, expired: set<nat>, d: Nanos, w: W)
    requires InStep(s, live, expired)
    ensures InStep(Step(s, Insert(d, w)).0, live[s.nextId := Timer(d, w)], expired)
  {
    InsertCounted(s.tree, live, s.nextId, Timer(d, w));
  }

  /** Cancelling answers by the index, which still knows expired timers; on any other id the counts stay right. */
  lemma CancelInStep<W>(s: State<W>, live: map<nat, Timer<W>>, expired: set<nat>, id: nat)
    requires InStep(s, live, expired)
    ensures Step(s, Cancel(id)).1 == Flag(id in live || id in expired)
    ensures id !in expired ==> InStep(Step(s, Cancel(id)).0, live - {id}, expired)
  {
    if id in live {
      CancelCounted(s.tree, live, id);
    } else {
      assert live - {id} == live;
    }
  }

  lemma IndexAfterCollect<W>(deadlineOf: map<nat, Nanos>, nextId: nat, live: map<nat, Timer<W>>, expired: set<nat>,
                             due: set<nat>)
    requires Indexed(deadlineOf, nextId, live, expired) && due <= live.Keys
    ensures Indexed(deadlineOf, nextId, live - due, expired + due)
  {
  }

  lemma CountsAfterCollect<W>(tree: map<Nanos, seq<W>>, live: map<nat, Timer<W>>, now: Nanos)
    requires Counted(tree, live) && now + 1 < U64_LIMIT
    ensures |InOrder(tree, Below(tree, now + 1))| == |Due(live, now)|
    ensures Counted(From(tree, now + 1), live - Due(live, now))
  {
    CollectCounted(tree, live, now + 1);
    InOrderCounts(tree, live, Below(tree, now + 1));
    assert Under(live, now + 1) == Due(live, now);
  }

  /** At the last clock value the bound wraps to 0, below which nothing lies. */
  lemma NothingBelowZero<W>(tree: map<Nanos, seq<W>>)
    ensures From(tree, 0) == tree && InOrder(tree, Below(tree, 0)) == []
  {
    assert Below(tree, 0) == {};
  }

  /** Collecting wakes as many as are due and keeps the counts right, except at the last clock value, where it wakes
      nobody. */
  lemma CollectInStep<W>(s: State<W>, live: map<nat, Timer<W>>, expired: set<nat>, now: Nanos)
    requires InStep(s, live, expired)
    ensures var (s', a) := Step(s, Collect(now));
            && (now + 1 < U64_LIMIT ==> |a.wakers| == |Due(live, now)|)
            && (now + 1 == U64_LIMIT ==> a.wakers == [])
            && (now + 1 < U64_LIMIT || live == map[] ==>
                  InStep(s', live - Due(live, now), expired + Due(live, now)))
  {
    IndexAfterCollect(s.deadlineOf, s.nextId, live, expired, Due(live, now));
    if now + 1 < U64_LIMIT {
      CountsAfterCollect(s.tree, live, now);
    } else {
      NothingBelowZero(s.tree);
      assert live == map[] ==> live - Due(live, now) == live;
    }
  }

  lemma CollectMeans<W>(s: State<W>, s': State<W>, woken: seq<W>, live: map<nat, Timer<W>>, expired: set<nat>,
                        now: Nanos)
    requires (s', Woken(woken)) == Step(s, Collect(now))
    ensures now + 1 == U64_LIMIT ==> woken == []
    ensures InStep(s, live, expired) && now + 1 < U64_LIMIT ==>
              |woken| == |Due(live, now)| && InStep(s', live - Due(live, now), expired + Due(live, now))
  {
    NothingBelowZero(s.tree);
    if InStep(s, live, expired) {
      CollectInStep(s, live, expired, now);
    }
  }
}
