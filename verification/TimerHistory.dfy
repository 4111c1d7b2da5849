/** The timers' answers read off the sequence of calls alone. */
module TimerHistory {
  import opened TimerModel
  import opened TimerComparison
  import HeapStore
  import VecStore
  import BTreeStore

  /** How many timers have been inserted: the number of the next one. */
  function Inserts<W>(ops: seq<Op<W>>): nat {
    if ops == [] then 0 else Inserts(ops[..|ops| - 1]) + if ops[|ops| - 1].Insert? then 1 else 0
  }

  /** Call `i` inserts timer `t` as number `id`. */
  ghost predicate InsertedAt<W>(ops: seq<Op<W>>, i: nat, id: nat, t: Timer<W>) {
    i < |ops| && ops[i] == Insert(t.deadline, t.waker) && Inserts(ops[..i]) == id
  }

  /** The call puts an end to the timer: it cancels it, or collects at its deadline or later. */
  predicate Ends<W>(op: Op<W>, id: nat, t: Timer<W>) {
    match op
    case Insert(_, _) => false
    case Cancel(x) => x == id
    case Collect(now) => t.deadline <= now
  }

  /** Call `i` inserts the timer and no later call ends it. */
  ghost predicate AliveSince<W>(ops: seq<Op<W>>, i: nat, id: nat, t: Timer<W>) {
    InsertedAt(ops, i, id, t) && forall m | i < m < |ops| :: !Ends(ops[m], id, t)
  }

  ghost predicate Alive<W>(ops: seq<Op<W>>, id: nat, t: Timer<W>) {
    exists i: nat :: AliveSince(ops, i, id, t)
  }

  lemma AliveSnoc<W>(ops: seq<Op<W>>, id: nat, t: Timer<W>)
    requires ops != []
    ensures var front, op := ops[..|ops| - 1], ops[|ops| - 1];
            Alive(ops, id, t) <==>
            (Alive(front, id, t) && !Ends(op, id, t)) || (op == Insert(t.deadline, t.waker) && Inserts(front) == id)
  {
    var front := ops[..|ops| - 1];
    forall i: nat | i < |front|
      ensures AliveSince(ops, i, id, t) <==> AliveSince(front, i, id, t) && !Ends(ops[|front|], id, t)
    {
      AliveEarlier(ops, i, id, t);
    }
    assert AliveSince(ops, |front|, id, t) <==>
           ops[|front|] == Insert(t.deadline, t.waker) && Inserts(front) == id;
    if i: nat :| AliveSince(front, i, id, t) && !Ends(ops[|front|], id, t) {
      assert AliveSince(ops, i, id, t);
    }
  }

  lemma AliveEarlier<W>(ops: seq<Op<W>>, i: nat, id: nat, t: Timer<W>)
    requires i < |ops| - 1
    ensures AliveSince(ops, i, id, t) <==>
            AliveSince(ops[..|ops| - 1], i, id, t) && !Ends(ops[|ops| - 1], id, t)
  {
    var front := ops[..|ops| - 1];
    assert front[..i] == ops[..i];
    assert forall m | 0 <= m < |front| :: front[m] == ops[m];
  }

  /** The reference timers after every sequence of calls: exactly those inserted and not ended since, by number. */
  lemma {:induction false} LiveIffAlive<W>(ops: seq<Op<W>>, id: nat, t: Timer<W>)
    ensures RefRun(ops).next == Inserts(ops)
    ensures id in RefRun(ops).live ==> id < Inserts(ops)
    ensures id in RefRun(ops).live && RefRun(ops).live[id] == t <==> Alive(ops, id, t)
  {
    if ops != [] {
      LiveIffAlive(ops[..|ops| - 1], id, t);
      AliveSnoc(ops, id, t);
    }
  }

  /** Heap and vector alike number a new timer by the inserts before it, and cancel successfully exactly if the timer
      is alive in the history. */
  lemma CallsFromHistory<W>(ops: seq<Op<W>>, k: nat)
    requires k < |ops|
    ensures ops[k].Insert? ==>
              HeapAnswer(ops, k) == VecAnswer(ops, k) == Issued(Inserts(ops[..k]))
    ensures ops[k].Cancel? ==>
              && HeapAnswer(ops, k).Flag? && VecAnswer(ops, k) == HeapAnswer(ops, k)
              && (HeapAnswer(ops, k).ok <==> exists t: Timer<W> :: Alive(ops[..k], ops[k].id, t))
  {
    HeapMatchesVec(ops, k);
    var s := RefRun(ops[..k]);
    if ops[k].Insert? {
      LiveIffAlive(ops[..k], 0, Timer(ops[k].deadline, ops[k].waker));
    } else if ops[k].Cancel? {
      var id := ops[k].id;
      if id in s.live {
        LiveIffAlive(ops[..k], id, s.live[id]);
      }
      forall t: Timer<W> | Alive(ops[..k], id, t) ensures id in s.live {
        LiveIffAlive(ops[..k], id, t);
      }
    }
  }

  /** The heap fires for exactly the timers that are alive in the history and due. */
  ghost predicate FiresAlive<W>(before: seq<Op<W>>, now: Nanos, keys: seq<Key>, woken: seq<W>) {
    && StrictlySorted(keys) && |keys| == |woken|
    && (forall i | 0 <= i < |keys| :: keys[i].0 <= now && Alive(before, keys[i].1, Timer(keys[i].0, woken[i])))
    && (forall i: nat | Outlasts(before, i) && before[i].deadline <= now ::
          (before[i].deadline, Inserts(before[..i])) in keys)
  }

  /** Call `i` inserts a timer that no later call ends. */
  ghost predicate Outlasts<W>(ops: seq<Op<W>>, i: nat) {
    i < |ops| && ops[i].Insert? && AliveSince(ops, i, Inserts(ops[..i]), Timer(ops[i].deadline, ops[i].waker))
  }

  lemma CollectedIsAlive<W>(before: seq<Op<W>>, now: Nanos, keys: seq<Key>, woken: seq<W>)
    requires HeapStore.Collected(RefRun(before).live, now, keys, woken)
    ensures FiresAlive(before, now, keys, woken)
  {
    var live, ids := RefRun(before).live, HeapStore.Ids(keys);
    forall i | 0 <= i < |keys| ensures keys[i].0 <= now && Alive(before, keys[i].1, Timer(keys[i].0, woken[i])) {
      assert ids[i] == keys[i].1 && ids[i] in Due(live, now);
      LiveIffAlive(before, keys[i].1, Timer(keys[i].0, woken[i]));
    }
    forall i: nat | Outlasts(before, i) && before[i].deadline <= now
      ensures (before[i].deadline, Inserts(before[..i])) in keys
    {
      var id := Inserts(before[..i]);
      LiveIffAlive(before, id, Timer(before[i].deadline, before[i].waker));
      assert id in Due(live, now);
      var j :| 0 <= j < |ids| && ids[j] == id;
      assert keys[j] == (before[i].deadline, id);
    }
  }

  /** A collect wakes exactly the timers that are alive in the history and due, each once by its own waker, and the heap
      does so by deadline and number. */
  lemma CollectFromHistory<W>(ops: seq<Op<W>>, k: nat)
    requires k < |ops| && ops[k].Collect?
    ensures HeapAnswer(ops, k).Woken? && SameAnswer(HeapAnswer(ops, k), VecAnswer(ops, k))
    ensures FiresAlive(ops[..k], ops[k].now, FiringOrder(ops, k), HeapAnswer(ops, k).wakers)
  {
    HeapMatchesVec(ops, k);
    RunsTrack(ops[..k]);
    HeapStore.CollectKeeps(HeapStore.Run(ops[..k]), RefRun(ops[..k]).live, ops[k].now);
    CollectedIsAlive(ops[..k], ops[k].now, FiringOrder(ops, k), HeapAnswer(ops, k).wakers);
  }

  lemma BTreeSnoc<W>(ops: seq<Op<W>>, op: Op<W>)
    ensures BTreeStore.Run(ops + [op]) == BTreeStore.Step(BTreeStore.Run(ops), op).0
  {
    assert (ops + [op])[..|ops|] == ops;
  }

  lemma TwoDue<W>(a: W, c: W)
    ensures var tree: map<Nanos, seq<W>> := map[7 := [c], 5 := [a]];
            BTreeStore.InOrder(tree, BTreeStore.Below(tree, 8)) == [a, c]
  {
    var tree: map<Nanos, seq<W>> := map[7 := [c], 5 := [a]];
    assert BTreeStore.Below(tree, 8) == {5, 7};
    var five: set<Nanos>, seven: set<Nanos> := {5, 7}, {7};
    BTreeStore.OneLeast(5, BTreeStore.LeastOf(five), five);
    BTreeStore.OneLeast(7, BTreeStore.LeastOf(seven), seven);
    assert five - {5} == seven && seven - {7} == {};
    assert BTreeStore.InOrder(tree, seven) == [c] + [];
    assert BTreeStore.InOrder(tree, five) == [a] + [c];
  }

  lemma ThreeInserted<W>(a: W, b: W, c: W)
    ensures BTreeStore.Run<W>([Insert(7, c), Insert(5, a), Insert(5, b)]) ==
            BTreeStore.State(map[7 := [c], 5 := [a, b]], map[0 := 7, 1 := 5, 2 := 5], 3)
  {
    var one: seq<Op<W>> := [Insert(7, c)];
    var two := one + [Insert(5, a)];
    BTreeSnoc([], Insert(7, c));
    assert [] + one == one;
    assert [] + [c] == [c] && [] + [a] == [a] && [a] + [b] == [a, b];
    assert BTreeStore.Run(one) == BTreeStore.State(map[7 := [c]], map[0 := 7], 1);
    BTreeSnoc(one, Insert(5, a));
    assert BTreeStore.Run(two).tree == map[7 := [c], 5 := [a]];
    assert BTreeStore.Run(two).deadlineOf == map[0 := 7, 1 := 5];
    BTreeSnoc(two, Insert(5, b));
    assert BTreeStore.Run(two + [Insert(5, b)]).tree == map[7 := [c], 5 := [a, b]];
    assert BTreeStore.Run(two + [Insert(5, b)]).deadlineOf == map[0 := 7, 1 := 5, 2 := 5];
    assert two + [Insert(5, b)] == [Insert(7, c), Insert(5, a), Insert(5, b)];
  }

  /** The ordered map fires by deadline, and takes the last waker at a deadline whichever timer was cancelled: of two
      timers due at 5 the first is cancelled, and the second stays silent. */
  lemma CancelTakesTheLast<W>(a: W, b: W, c: W)
    ensures var ops: seq<Op<W>> := [Insert(7, c), Insert(5, a), Insert(5, b), Cancel(1), Collect(7)];
            BTreeAnswer(ops, 4) == Woken([a, c])
  {
    var ops: seq<Op<W>> := [Insert(7, c), Insert(5, a), Insert(5, b), Cancel(1), Collect(7)];
    ThreeInserted(a, b, c);
    assert ops[..3] == [Insert(7, c), Insert(5, a), Insert(5, b)];
    BTreeSnoc(ops[..3], ops[3]);
    assert ops[..3] + [ops[3]] == ops[..4];
    assert [a, b][..1] == [a];
    assert BTreeStore.Run(ops[..4]).tree == map[7 := [c], 5 := [a]];
    TwoDue(a, c);
  }
}
