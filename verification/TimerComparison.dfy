/** The three timer stores driven by one sequence of calls. */
module TimerComparison {
  import opened TimerModel
  import HeapStore
  import VecStore
  import BTreeStore

  /** Same answer, wakers compared as multisets. */
  ghost predicate SameAnswer<W>(a: Output<W>, b: Output<W>) {
    match (a, b)
    case (Issued(i), Issued(j)) => i == j
    case (Flag(x), Flag(y)) => x == y
    case (Woken(v), Woken(w)) => multiset(v) == multiset(w)
    case _ => false
  }

  /** Same answer, wakers only counted. */
  predicate SameCount<W>(a: Output<W>, b: Output<W>) {
    match (a, b)
    case (Issued(i), Issued(j)) => i == j
    case (Flag(x), Flag(y)) => x == y
    case (Woken(v), Woken(w)) => |v| == |w|
    case _ => false
  }

  /** `a` is the answer a faithful store gives to `op` in state `s`. */
  ghost predicate Faithful<W>(s: Ref<W>, op: Op<W>, a: Output<W>) {
    match op
    case Insert(_, _) => a == Issued(s.next)
    case Cancel(id) => a == Flag(id in s.live)
    case Collect(now) => a.Woken? && exists ids :: Lists(ids, Due(s.live, now), s.live, a.wakers)
  }

  lemma FaithfulAgree<W>(s: Ref<W>, op: Op<W>, a: Output<W>, b: Output<W>)
    requires Faithful(s, op, a) && Faithful(s, op, b)
    ensures SameAnswer(a, b) && SameCount(a, b)
  {
    if op.Collect? {
      var due := Due(s.live, op.now);
      var ia :| Lists(ia, due, s.live, a.wakers);
      var ib :| Lists(ib, due, s.live, b.wakers);
      SameWoken(ia, ib, due, s.live, a.wakers, b.wakers);
      ListLength(ia, due);
      ListLength(ib, due);
    }
  }

  // ----- heap and vector -----

  /** What each store answers to call number `k`. */
  ghost function HeapAnswer<W>(ops: seq<Op<W>>, k: nat): Output<W>
    requires k < |ops|
  {
    HeapStore.Step(HeapStore.Run(ops[..k]), ops[k]).1
  }

  function VecAnswer<W>(ops: seq<Op<W>>, k: nat): Output<W>
    requires k < |ops|
  {
    VecStore.Step(VecStore.Run(ops[..k]), ops[k]).1
  }

  ghost function BTreeAnswer<W>(ops: seq<Op<W>>, k: nat): Output<W>
    requires k < |ops|
  {
    BTreeStore.Step(BTreeStore.Run(ops[..k]), ops[k]).1
  }

  /** The queue entries the heap fires for at call number `k`, in firing order. */
  ghost function FiringOrder<W>(ops: seq<Op<W>>, k: nat): seq<Key>
    requires k < |ops| && ops[k].Collect?
  {
    var s := HeapStore.Run(ops[..k]);
    HeapStore.PopDue(s.heap, s.wakers, ops[k].now).keys
  }

  ghost predicate HeapTracks<W>(h: HeapStore.State<W>, s: Ref<W>) {
    HeapStore.Represents(h, s.live) && h.nextId == s.next
  }

  ghost predicate VecTracks<W>(v: VecStore.State<W>, s: Ref<W>) {
    VecStore.Represents(v.slots, v.nextId, s.live) && v.nextId == s.next
  }

  lemma HeapStep<W>(h: HeapStore.State<W>, s: Ref<W>, op: Op<W>)
    requires HeapTracks(h, s)
    ensures HeapTracks(HeapStore.Step(h, op).0, RefStep(s, op)) && Faithful(s, op, HeapStore.Step(h, op).1)
    ensures op.Collect? ==> FiredInOrder(s.live, HeapStore.PopDue(h.heap, h.wakers, op.now).keys,
                                         HeapStore.PopDue(h.heap, h.wakers, op.now).woken)
  {
    if op.Collect? {
      HeapStore.CollectKeeps(h, s.live, op.now);
      var p := HeapStore.PopDue(h.heap, h.wakers, op.now);
      assert Lists(HeapStore.Ids(p.keys), Due(s.live, op.now), s.live, p.woken);
    }
  }

  lemma VecStep<W>(v: VecStore.State<W>, s: Ref<W>, op: Op<W>)
    requires VecTracks(v, s)
    ensures VecTracks(VecStore.Step(v, op).0, RefStep(s, op)) && Faithful(s, op, VecStore.Step(v, op).1)
  {
    match op
    case Insert(d, w) => VecStore.Appends(v.slots, v.nextId, s.live, d, w);
    case Cancel(id) => VecStore.CancelKeeps(v, s.live, id);
    case Collect(now) =>
      VecStore.KeptRepresents(v.slots, v.nextId, s.live, now);
      VecStore.DueListed(v.slots, v.nextId, s.live, now);
      var due := VecStore.Part(v.slots, now, true);
      assert Lists(VecStore.Filled(due), Due(s.live, now), s.live, VecStore.Wakers(due));
  }

  lemma {:induction false} RunsTrack<W>(ops: seq<Op<W>>)
    ensures HeapTracks(HeapStore.Run(ops), RefRun(ops)) && VecTracks(VecStore.Run(ops), RefRun(ops))
  {
    if ops != [] {
      var front, op := ops[..|ops| - 1], ops[|ops| - 1];
      RunsTrack(front);
      HeapStep(HeapStore.Run(front), RefRun(front), op);
      VecStep(VecStore.Run(front), RefRun(front), op);
    }
  }

  /** Heap and vector are indistinguishable on every sequence of calls, with times in any order: at every call the
      same id, cancel result or multiset of wakers, and afterwards the same length; and the heap fires by
      (deadline, id), each timer's own waker, despite the entries it has not deleted. */
  lemma HeapMatchesVec<W>(ops: seq<Op<W>>, k: nat)
    requires k < |ops|
    ensures SameAnswer(HeapAnswer(ops, k), VecAnswer(ops, k))
    ensures Faithful(RefRun(ops[..k]), ops[k], HeapAnswer(ops, k))
    ensures HeapStore.Len(HeapStore.Run(ops[..k + 1])) == VecStore.Len(VecStore.Run(ops[..k + 1]))
                                                       == |RefRun(ops[..k + 1]).live|
    ensures ops[k].Collect? ==> FiredInOrder(RefRun(ops[..k]).live, FiringOrder(ops, k), HeapAnswer(ops, k).wakers)
  {
    var s := RefRun(ops[..k]);
    RunsTrack(ops[..k]);
    HeapStep(HeapStore.Run(ops[..k]), s, ops[k]);
    VecStep(VecStore.Run(ops[..k]), s, ops[k]);
    FaithfulAgree(s, ops[k], HeapAnswer(ops, k), VecAnswer(ops, k));
    SameLength(ops[..k + 1]);
  }

  lemma SameLength<W>(ops: seq<Op<W>>)
    ensures HeapStore.Len(HeapStore.Run(ops)) == VecStore.Len(VecStore.Run(ops)) == |RefRun(ops).live|
  {
    RunsTrack(ops);
    HeapStore.LenIsLive(HeapStore.Run(ops), RefRun(ops).live);
    VecStore.LenIsLive(VecStore.Run(ops), RefRun(ops).live);
  }

  // ----- the ordered map -----

  /** The call does not touch the ordered map's weak spots: no cancelling of an expired timer, no collecting at
      the very last clock value while timers are live. */
  predicate Fair<W>(s: Ref<W>, op: Op<W>) {
    match op
    case Insert(_, _) => true
    case Cancel(id) => id !in s.expired
    case Collect(now) => now + 1 < U64_LIMIT || s.live.Keys == {}
  }

  predicate FairRun<W>(ops: seq<Op<W>>) {
    forall k | 0 <= k < |ops| :: Fair(RefRun(ops[..k]), ops[k])
  }

  ghost predicate BTreeTracks<W>(b: BTreeStore.State<W>, s: Ref<W>) {
    BTreeStore.InStep(b, s.live, s.expired) && b.nextId == s.next
  }

  lemma AllDue<W>(live: map<nat, Timer<W>>, now: Nanos)
    requires now + 1 == U64_LIMIT
    ensures Due(live, now) == live.Keys
  {
  }

  lemma FaithfulCount<W>(s: Ref<W>, now: Nanos, b: Output<W>)
    requires Faithful(s, Collect(now), b)
    ensures b.Woken? && |b.wakers| == |Due(s.live, now)|
  {
    var ids :| Lists(ids, Due(s.live, now), s.live, b.wakers);
    ListLength(ids, Due(s.live, now));
  }

  /** While the map has kept count, its next answer is right exactly if the call is fair, and then it keeps count. */
  lemma BTreeStep<W>(b: BTreeStore.State<W>, s: Ref<W>, op: Op<W>, faithful: Output<W>)
    requires BTreeTracks(b, s) && Faithful(s, op, faithful)
    ensures SameCount(BTreeStore.Step(b, op).1, faithful) <==> Fair(s, op)
    ensures Fair(s, op) ==> BTreeTracks(BTreeStore.Step(b, op).0, RefStep(s, op))
  {
    match op
    case Insert(d, w) => BTreeStore.InsertInStep(b, s.live, s.expired, d, w);
    case Cancel(id) => BTreeStore.CancelInStep(b, s.live, s.expired, id);
    case Collect(now) => BTreeCollect(b, s, now, faithful);
  }

  lemma BTreeCollect<W>(b: BTreeStore.State<W>, s: Ref<W>, now: Nanos, faithful: Output<W>)
    requires BTreeTracks(b, s) && Faithful(s, Collect(now), faithful)
    ensures SameCount(BTreeStore.Step(b, Collect(now)).1, faithful) <==> Fair(s, Collect(now))
    ensures Fair(s, Collect(now)) ==> BTreeTracks(BTreeStore.Step(b, Collect(now)).0, RefStep(s, Collect(now)))
  {
    BTreeStore.CollectInStep(b, s.live, s.expired, now);
    CollectVerdict(s, now, BTreeStore.Step(b, Collect(now)).1, faithful);
    NoKeys(s.live);
  }

  lemma NoKeys<K, V>(m: map<K, V>)
    ensures m.Keys == {} <==> m == map[]
  {
  }

  /** A collect that wakes as many as are due, or nobody at the last clock value, counts right exactly when fair. */
  lemma CollectVerdict<W>(s: Ref<W>, now: Nanos, a: Output<W>, faithful: Output<W>)
    requires a.Woken? && Faithful(s, Collect(now), faithful)
    requires now + 1 < U64_LIMIT ==> |a.wakers| == |Due(s.live, now)|
    requires now + 1 == U64_LIMIT ==> a.wakers == []
    ensures SameCount(a, faithful) <==> Fair(s, Collect(now))
  {
    FaithfulCount(s, now, faithful);
    if now + 1 == U64_LIMIT {
      AllDue(s.live, now);
    }
  }

  /** Every answer of the ordered map counts like the vector's. */
  ghost predicate CountsAgree<W>(ops: seq<Op<W>>) {
    forall k | 0 <= k < |ops| :: AgreesAt(ops, k)
  }

  lemma AnswersOfPrefix<W>(ops: seq<Op<W>>, n: nat, k: nat)
    requires k < n <= |ops|
    ensures BTreeAnswer(ops[..n], k) == BTreeAnswer(ops, k) && VecAnswer(ops[..n], k) == VecAnswer(ops, k)
  {
    assert ops[..n][..k] == ops[..k];
  }

  ghost predicate AgreesAt<W>(ops: seq<Op<W>>, k: nat)
    requires k < |ops|
  {
    SameCount(BTreeAnswer(ops, k), VecAnswer(ops, k))
  }

  lemma AgreesInPrefix<W>(ops: seq<Op<W>>, n: nat, k: nat)
    requires k < n <= |ops|
    ensures AgreesAt(ops[..n], k) <==> AgreesAt(ops, k)
  {
    AnswersOfPrefix(ops, n, k);
  }

  lemma CountsShrink<W>(ops: seq<Op<W>>, n: nat)
    requires |ops| == n + 1 && CountsAgree(ops)
    ensures CountsAgree(ops[..n])
  {
    forall k | 0 <= k < n ensures AgreesAt(ops[..n], k) {
      assert AgreesAt(ops, k);
      AgreesInPrefix(ops, n, k);
    }
  }

  lemma CountsGrow<W>(ops: seq<Op<W>>, n: nat)
    requires |ops| == n + 1 && CountsAgree(ops[..n]) && AgreesAt(ops, n)
    ensures CountsAgree(ops)
  {
    forall k | 0 <= k < |ops| ensures AgreesAt(ops, k) {
      if k < n {
        assert AgreesAt(ops[..n], k);
        AgreesInPrefix(ops, n, k);
      } else {
        assert k == n;
      }
    }
  }

  lemma FairGrows<W>(ops: seq<Op<W>>, n: nat)
    requires |ops| == n + 1
    ensures FairRun(ops) <==> FairRun(ops[..n]) && Fair(RefRun(ops[..n]), ops[n])
  {
    assert forall k | 0 <= k < n :: ops[..n][..k] == ops[..k] && ops[..n][k] == ops[k];
  }

  lemma LastAgrees<W>(ops: seq<Op<W>>, n: nat)
    requires |ops| == n + 1 && BTreeTracks(BTreeStore.Run(ops[..n]), RefRun(ops[..n]))
    ensures AgreesAt(ops, n) <==> Fair(RefRun(ops[..n]), ops[n])
    ensures Fair(RefRun(ops[..n]), ops[n]) ==> BTreeTracks(BTreeStore.Run(ops), RefRun(ops))
  {
    RunsTrack(ops[..n]);
    VecStep(VecStore.Run(ops[..n]), RefRun(ops[..n]), ops[n]);
    BTreeStep(BTreeStore.Run(ops[..n]), RefRun(ops[..n]), ops[n], VecAnswer(ops, n));
  }

  lemma {:induction false} BTreeRuns<W>(ops: seq<Op<W>>)
    ensures FairRun(ops) ==> BTreeTracks(BTreeStore.Run(ops), RefRun(ops))
    ensures CountsAgree(ops) <==> FairRun(ops)
  {
    if ops == [] {
      EmptyTracks<W>();
    } else {
      var n := |ops| - 1;
      var front := ops[..n];
      BTreeRuns(front);
      FairGrows(ops, n);
      if CountsAgree(ops) {
        CountsShrink(ops, n);
      }
      if FairRun(front) {
        LastAgrees(ops, n);
        if AgreesAt(ops, n) {
          CountsGrow(ops, n);
        }
      }
    }
  }

  lemma EmptyTracks<W>()
    ensures BTreeTracks(BTreeStore.Run<W>([]), RefRun<W>([]))
  {
    assert forall d: Nanos :: BTreeStore.At<W>(map[], d) == {};
  }

  /** The ordered map answers like the vector at every call, wakers counted, on exactly the fair call sequences. */
  lemma BTreeMatchesVecIffFair<W>(ops: seq<Op<W>>)
    ensures CountsAgree(ops) <==> FairRun(ops)
  {
    BTreeRuns(ops);
  }

  /** The first unfair call is the first wrong answer. */
  lemma FirstUnfairCallIsWrong<W>(ops: seq<Op<W>>, k: nat)
    requires k < |ops| && FairRun(ops[..k]) && !Fair(RefRun(ops[..k]), ops[k])
    ensures !SameCount(BTreeAnswer(ops, k), VecAnswer(ops, k))
  {
    BTreeRuns(ops[..k]);
    RunsTrack(ops[..k]);
    VecStep(VecStore.Run(ops[..k]), RefRun(ops[..k]), ops[k]);
    BTreeStep(BTreeStore.Run(ops[..k]), RefRun(ops[..k]), ops[k], VecAnswer(ops, k));
  }

  /** A timer fires and is cancelled afterwards: the map says it was there, the vector that it was not. */
  lemma CancelAfterExpiryDiffers<W>(w: W)
    ensures var ops: seq<Op<W>> := [Insert(1, w), Collect(1), Cancel(0)];
            BTreeAnswer(ops, 2) == Flag(true) && VecAnswer(ops, 2) == Flag(false)
  {
    var ops: seq<Op<W>> := [Insert(1, w), Collect(1), Cancel(0)];
    FiredOnce(ops, w);
    RunsTrack(ops[..2]);
    VecStep(VecStore.Run(ops[..2]), RefRun(ops[..2]), ops[2]);
    BTreeRuns(ops[..2]);
    BTreeStore.CancelInStep(BTreeStore.Run(ops[..2]), RefRun(ops[..2]).live, RefRun(ops[..2]).expired, 0);
  }

  lemma FiredOnce<W>(ops: seq<Op<W>>, w: W)
    requires |ops| >= 2 && ops[0] == Insert(1, w) && ops[1] == Collect(1)
    ensures FairRun(ops[..2]) && RefRun(ops[..2]) == Ref(map[], {0}, 1)
  {
    assert ops[..2][..1] == ops[..1] && ops[..1][..0] == [] && ops[..2][..0] == [];
    assert RefRun(ops[..1]).live == map[0 := Timer(1, w)];
    assert Due(RefRun(ops[..1]).live, 1) == {0};
  }

  lemma OneLive<W>(ops: seq<Op<W>>, w: W)
    requires |ops| >= 1 && ops[0] == Insert(1, w)
    ensures RefRun(ops[..1]) == Ref(map[0 := Timer(1, w)], {}, 1)
  {
    assert ops[..1][..0] == [];
  }

  /** At the last clock value the bound wraps to 0 and the map wakes nobody, whatever it holds. */
  lemma LastClockWakesNobody<W>(ops: seq<Op<W>>, k: nat)
    requires k < |ops| && ops[k] == Collect(U64_LIMIT - 1)
    ensures BTreeAnswer(ops, k) == Woken([])
  {
    BTreeStore.NothingBelowZero(BTreeStore.Run(ops[..k]).tree);
  }

  lemma VecCount<W>(ops: seq<Op<W>>, k: nat)
    requires k < |ops| && ops[k].Collect?
    ensures VecAnswer(ops, k).Woken? && |VecAnswer(ops, k).wakers| == |Due(RefRun(ops[..k]).live, ops[k].now)|
  {
    RunsTrack(ops[..k]);
    VecStep(VecStore.Run(ops[..k]), RefRun(ops[..k]), ops[k]);
    FaithfulCount(RefRun(ops[..k]), ops[k].now, VecAnswer(ops, k));
  }

  /** With one timer live, collecting at the last clock value wakes it in the vector and nobody in the map. */
  lemma LastClockValueDiffers<W>(w: W)
    ensures var ops: seq<Op<W>> := [Insert(1, w), Collect(U64_LIMIT - 1)];
            BTreeAnswer(ops, 1) == Woken([]) && VecAnswer(ops, 1).Woken? && |VecAnswer(ops, 1).wakers| == 1
  {
    var ops: seq<Op<W>> := [Insert(1, w), Collect(U64_LIMIT - 1)];
    LastClockWakesNobody(ops, 1);
    VecCount(ops, 1);
    OneLive(ops, w);
    assert Due(RefRun(ops[..1]).live, U64_LIMIT - 1) == {0};
  }
}
