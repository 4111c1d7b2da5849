/** Starting and stopping the watcher: one shared cell holds the cancel flag of the current session, and the poll loop,
    the timer loop and the notify callback of every session check their own flag before they act. Calls and loops
    interleave step by step. */
module Sessions {
  import opened Basics

  /** Every flag ever created, by session number, and the one in the shared cell. */
  datatype Store = Store(flags: seq<bool>, stored: Option<nat>)

  /** Stopping: take the stored flag and set it. Starting begins with this too. */
  function Cancel(s: Store): Store {
    if s.stored.Some? && s.stored.value < |s.flags| then Store(s.flags[s.stored.value := true], None)
    else s.(stored := None)
  }

  /** The rest of a start that found its directory: a fresh flag goes into the cell, whatever was there. */
  function Publish(s: Store): Store {
    Store(s.flags + [false], Some(|s.flags|))
  }

  datatype Lane = Poll | Timer | Notify

  /** Before a loop's first check, asleep between its checks, past the second one, or gone. The callback has one check
      only and starts over instead of exiting. */
  datatype Pc = Absent | Top | Asleep | Body | Exited

  /** `bodies` counts how often the loop has run its body. */
  datatype Task = Task(pc: Pc, bodies: nat)

  function Advance(t: Task, lane: Lane, cancelled: bool): Task {
    match t.pc
    case Absent => t
    case Top =>
      if lane.Notify? then (if cancelled then t else t.(pc := Body))
      else if cancelled then t.(pc := Exited) else t.(pc := Asleep)
    case Asleep => if cancelled then t.(pc := Exited) else t.(pc := Body)
    case Body => Task(Top, t.bodies + 1)
    case Exited => t
  }

  datatype World = World(store: Store, tasks: map<(nat, Lane), Task>)

  const IDLE := World(Store([], None), map[])

  function TaskOf(w: World, k: nat, lane: Lane): Task {
    if (k, lane) in w.tasks then w.tasks[(k, lane)] else Task(Absent, 0)
  }

  predicate Cancelled(w: World, k: nat) {
    k < |w.store.flags| && w.store.flags[k]
  }

  datatype Step = DoCancel | DoPublish | Launch(k: nat, lane: Lane) | Run(k: nat, lane: Lane)

  function Next(w: World, step: Step): World {
    match step
    case DoCancel => w.(store := Cancel(w.store))
    case DoPublish => w.(store := Publish(w.store))
    case Launch(k, lane) =>
      if k < |w.store.flags| && TaskOf(w, k, lane).pc.Absent? then w.(tasks := w.tasks[(k, lane) := Task(Top, 0)])
      else w
    case Run(k, lane) => w.(tasks := w.tasks[(k, lane) := Advance(TaskOf(w, k, lane), lane, Cancelled(w, k))])
  }

  function RunAll(w: World, schedule: seq<Step>): World
    decreases schedule
  {
    if schedule == [] then w else RunAll(Next(w, schedule[0]), schedule[1..])
  }

  lemma {:induction false} RunAppend(w: World, a: seq<Step>, b: seq<Step>)
    ensures RunAll(w, a + b) == RunAll(RunAll(w, a), b)
    decreases a
  {
    if a == [] {
      assert a + b == b;
    } else {
      assert (a + b)[0] == a[0] && (a + b)[1..] == a[1..] + b;
      RunAppend(Next(w, a[0]), a[1..], b);
    }
  }

  // ----- at most one live session -----

  /** No flag but the stored one is unset. */
  ghost predicate OnlyStoredLive(s: Store) {
    forall k | 0 <= k < |s.flags| && !s.flags[k] :: s.stored == Some(k)
  }

  /** Between two publications there is a cancellation, as there always is while calls do not overlap. */
  ghost predicate Separated(schedule: seq<Step>) {
    forall i, j | 0 <= i < j < |schedule| && schedule[i].DoPublish? && schedule[j].DoPublish? ::
      exists m :: i < m < j && schedule[m].DoCancel?
  }

  /** A publication that no cancellation followed. */
  ghost predicate PublishedAt(schedule: seq<Step>, i: nat) {
    i < |schedule| && schedule[i].DoPublish? && forall m | i < m < |schedule| :: !schedule[m].DoCancel?
  }

  lemma PublishedGrows(front: seq<Step>, step: Step)
    ensures step.DoPublish? ==> PublishedAt(front + [step], |front|)
    ensures step.DoCancel? ==> forall i: nat :: !PublishedAt(front + [step], i)
    ensures !step.DoCancel? && !step.DoPublish? ==>
              forall i: nat :: PublishedAt(front + [step], i) <==> PublishedAt(front, i)
  {
    var all := front + [step];
    assert all[|front|] == step;
    forall i: nat | !step.DoPublish? ensures PublishedAt(all, i) <==> PublishedAt(front, i) && !step.DoCancel? {
      if PublishedAt(all, i) && i < |front| {
        assert forall m | i < m < |front| :: all[m] == front[m];
      }
    }
  }

  lemma SeparatedGrows(front: seq<Step>, step: Step)
    ensures Separated(front + [step]) <==>
            Separated(front) && (step.DoPublish? ==> forall i: nat :: !PublishedAt(front, i))
  {
    var all := front + [step];
    assert forall i | 0 <= i < |front| :: all[i] == front[i];
    if Separated(all) {
      forall i, j | 0 <= i < j < |front| && front[i].DoPublish? && front[j].DoPublish?
        ensures exists m :: i < m < j && front[m].DoCancel?
      {
        var m :| i < m < j && all[m].DoCancel?;
        assert front[m].DoCancel?;
      }
      forall i: nat | step.DoPublish? && i < |front| && front[i].DoPublish? ensures !PublishedAt(front, i) {
        assert all[i].DoPublish? && all[|front|].DoPublish?;
        var m :| i < m < |front| && all[m].DoCancel?;
        assert front[m].DoCancel?;
      }
    }
    if Separated(front) && (step.DoPublish? ==> forall i: nat :: !PublishedAt(front, i)) {
      forall i, j | 0 <= i < j < |all| && all[i].DoPublish? && all[j].DoPublish?
        ensures exists m :: i < m < j && all[m].DoCancel?
      {
        if j < |front| {
          var m :| i < m < j && front[m].DoCancel?;
          assert all[m].DoCancel?;
        } else {
          assert !PublishedAt(front, i);
          var m :| i < m < |front| && front[m].DoCancel?;
          assert all[m].DoCancel?;
        }
      }
    }
  }

  /** The cell holds the newest flag, still unset, exactly while a publication has not been followed by a
      cancellation. */
  ghost predicate CellOk(s: Store, schedule: seq<Step>) {
    && (s.stored.Some? ==> |s.flags| > 0 && s.stored.value == |s.flags| - 1 && !s.flags[|s.flags| - 1])
    && (s.stored.Some? <==> exists i: nat :: PublishedAt(schedule, i))
  }

  lemma CellStep(s: Store, front: seq<Step>, step: Step)
    requires CellOk(s, front) && (OnlyStoredLive(s) <==> Separated(front))
    ensures var s' := if step.DoCancel? then Cancel(s) else if step.DoPublish? then Publish(s) else s;
            CellOk(s', front + [step]) && (OnlyStoredLive(s') <==> Separated(front + [step]))
  {
    PublishedGrows(front, step);
    SeparatedGrows(front, step);
    if step.DoCancel? {
      var s' := Cancel(s);
      assert forall k | 0 <= k < |s.flags| && s.stored != Some(k) :: s'.flags[k] == s.flags[k];
    } else if step.DoPublish? {
      var s' := Publish(s);
      assert forall k | 0 <= k < |s.flags| :: s'.flags[k] == s.flags[k];
      if s.stored.Some? {
        assert !s'.flags[s.stored.value];
      } else if !OnlyStoredLive(s) {
        var k :| 0 <= k < |s.flags| && !s.flags[k] && s.stored != Some(k);
        assert !s'.flags[k];
      }
    } else {
      assert forall i: nat :: PublishedAt(front + [step], i) <==> PublishedAt(front, i);
    }
  }

  lemma {:induction false} CellHistory(schedule: seq<Step>)
    ensures CellOk(RunAll(IDLE, schedule).store, schedule)
    ensures OnlyStoredLive(RunAll(IDLE, schedule).store) <==> Separated(schedule)
  {
    if schedule != [] {
      var front, step := schedule[..|schedule| - 1], schedule[|schedule| - 1];
      CellHistory(front);
      assert schedule == front + [step];
      RunAppend(IDLE, front, [step]);
      CellStep(RunAll(IDLE, front).store, front, step);
    }
  }

  /** At every moment of every run at most one session is live, and it is the stored one, exactly as long as every
      publication has been followed by a cancellation before the next one. */
  lemma OneLiveSessionIff(schedule: seq<Step>)
    ensures OnlyStoredLive(RunAll(IDLE, schedule).store) <==> Separated(schedule)
    ensures Separated(schedule) ==>
              var flags := RunAll(IDLE, schedule).store.flags;
              forall j, k | 0 <= j < |flags| && 0 <= k < |flags| :: !flags[j] && !flags[k] ==> j == k
  {
    CellHistory(schedule);
  }

  // ----- calls that do not overlap -----

  /** A start that found its directory or not, or a stop. */
  datatype Call = StartCall(found: bool) | StopCall

  /** The steps a call takes on the shared cell. */
  function StepsOf(call: Call): seq<Step> {
    if call == StartCall(true) then [DoCancel, DoPublish] else [DoCancel]
  }

  function StepsOfAll(calls: seq<Call>): seq<Step> {
    if calls == [] then [] else StepsOfAll(calls[..|calls| - 1]) + StepsOf(calls[|calls| - 1])
  }

  /** The steps on the shared cell among all steps of a schedule. */
  function OnCell(schedule: seq<Step>): seq<Step> {
    if schedule == [] then []
    else
      var last := schedule[|schedule| - 1];
      OnCell(schedule[..|schedule| - 1]) + if last.DoCancel? || last.DoPublish? then [last] else []
  }

  lemma {:induction false} CellSeesOnly(schedule: seq<Step>)
    ensures RunAll(IDLE, schedule).store == RunAll(IDLE, OnCell(schedule)).store
  {
    if schedule != [] {
      var front, step := schedule[..|schedule| - 1], schedule[|schedule| - 1];
      CellSeesOnly(front);
      assert schedule == front + [step];
      RunAppend(IDLE, front, [step]);
      if step.DoCancel? || step.DoPublish? {
        RunAppend(IDLE, OnCell(front), [step]);
      } else {
        assert OnCell(front) + [] == OnCell(front);
      }
    }
  }

  lemma CallKeeps(w: World, call: Call)
    requires OnlyStoredLive(w.store) && (w.store.stored.Some? ==> w.store.stored.value < |w.store.flags|)
    ensures var s := RunAll(w, StepsOf(call)).store;
            OnlyStoredLive(s) && (s.stored.Some? ==> s.stored.value < |s.flags|)
  {
    var w1 := Next(w, DoCancel);
    assert RunAll(w1, []) == w1;
    assert [DoCancel, DoPublish][1..] == [DoPublish] && [DoPublish][1..] == [];
    assert RunAll(w1, [DoPublish]) == Next(w1, DoPublish);
  }

  lemma {:induction false} CallsKeep(calls: seq<Call>)
    ensures var s := RunAll(IDLE, StepsOfAll(calls)).store;
            OnlyStoredLive(s) && (s.stored.Some? ==> s.stored.value < |s.flags|)
  {
    if calls != [] {
      var front := calls[..|calls| - 1];
      CallsKeep(front);
      RunAppend(IDLE, StepsOfAll(front), StepsOf(calls[|calls| - 1]));
      CallKeeps(RunAll(IDLE, StepsOfAll(front)), calls[|calls| - 1]);
    }
  }

  /** Start and stop calls made one after the other, with the loops running in between at will: at most one session is
      live at the end of each, and it is the stored one. */
  lemma CallsInTurn(schedule: seq<Step>, calls: seq<Call>)
    requires OnCell(schedule) == StepsOfAll(calls)
    ensures Separated(schedule) && OnlyStoredLive(RunAll(IDLE, schedule).store)
  {
    CellSeesOnly(schedule);
    CallsKeep(calls);
    OneLiveSessionIff(schedule);
  }

  /** Being separated is a little more than not overlapping: a stop between the publications saves two starts that do
      overlap. */
  lemma StopSavesOverlap()
    ensures OnlyStoredLive(RunAll(IDLE, [DoCancel, DoCancel, DoPublish, DoCancel, DoPublish]).store)
  {
    var s := [DoCancel, DoCancel, DoPublish, DoCancel, DoPublish];
    forall i, j | 0 <= i < j < |s| && s[i].DoPublish? && s[j].DoPublish?
      ensures exists m :: i < m < j && s[m].DoCancel?
    {
      assert i == 2 && j == 4 && s[3].DoCancel?;
    }
    OneLiveSessionIff(s);
  }

  /** An unset flag that is not stored can never be set any more: overlapping starts leak a session for good. */
  lemma {:induction false} OrphanStaysLive(w: World, k: nat, schedule: seq<Step>)
    requires k < |w.store.flags| && !w.store.flags[k] && w.store.stored != Some(k)
    ensures k < |RunAll(w, schedule).store.flags| && !Cancelled(RunAll(w, schedule), k)
    decreases schedule
  {
    if schedule != [] {
      OrphanStaysLive(Next(w, schedule[0]), k, schedule[1..]);
    }
  }

  /** Two starts whose first steps both come before their second ones. */
  lemma OverlapLeaksSession(rest: seq<Step>)
    ensures !Cancelled(RunAll(IDLE, [DoCancel, DoCancel, DoPublish, DoPublish] + rest), 0)
  {
    var opening := [DoCancel, DoCancel, DoPublish, DoPublish];
    RunAppend(IDLE, opening, rest);
    assert opening[1..] == [DoCancel, DoPublish, DoPublish] && opening[1..][1..] == [DoPublish, DoPublish];
    var w := RunAll(IDLE, opening);
    assert w == RunAll(IDLE, [DoPublish, DoPublish]);
    assert [DoPublish, DoPublish][1..] == [DoPublish];
    assert w.store == Store([false, false], Some(1));
    OrphanStaysLive(w, 0, rest);
  }

  // ----- winding down -----

  /** How many of the steps are this loop's own. */
  function Own(schedule: seq<Step>, k: nat, lane: Lane): nat {
    if schedule == [] then 0
    else (if schedule[0] == Run(k, lane) then 1 else 0) + Own(schedule[1..], k, lane)
  }

  /** What a loop whose flag is set becomes after `n` further steps of its own. */
  function WoundDown(t: Task, lane: Lane, n: nat): Task {
    if n == 0 || t.pc.Absent? then t
    else if t.pc.Body? then (if n == 1 || lane.Notify? then Task(Top, t.bodies + 1) else Task(Exited, t.bodies + 1))
    else if lane.Notify? && t.pc.Top? then t
    else t.(pc := Exited)
  }

  lemma NextElsewhere(w: World, step: Step, k: nat, lane: Lane)
    requires Cancelled(w, k)
    ensures Cancelled(Next(w, step), k)
    ensures step == Run(k, lane) ==> TaskOf(Next(w, step), k, lane) == Advance(TaskOf(w, k, lane), lane, true)
    ensures step != Run(k, lane) && step != Launch(k, lane) ==> TaskOf(Next(w, step), k, lane) == TaskOf(w, k, lane)
    ensures step == Launch(k, lane) ==>
              TaskOf(Next(w, step), k, lane) ==
              if TaskOf(w, k, lane).pc.Absent? then Task(Top, 0) else TaskOf(w, k, lane)
  {
  }

  /** After a session's flag is set, a loop that was past its last check runs its body exactly once more and any other
      loop never again; a poll or timer loop has exited after two steps of its own. */
  lemma {:induction false} WindsDown(w: World, k: nat, lane: Lane, schedule: seq<Step>)
    requires Cancelled(w, k) && !TaskOf(w, k, lane).pc.Absent?
    ensures Cancelled(RunAll(w, schedule), k)
    ensures TaskOf(RunAll(w, schedule), k, lane) == WoundDown(TaskOf(w, k, lane), lane, Own(schedule, k, lane))
    decreases schedule
  {
    if schedule != [] {
      NextElsewhere(w, schedule[0], k, lane);
      WindsDown(Next(w, schedule[0]), k, lane, schedule[1..]);
    }
  }

  /** The same in one line per promise, for loops launched before or after the cancellation. */
  lemma {:induction false} AtMostOneMoreBody(w: World, k: nat, lane: Lane, schedule: seq<Step>)
    requires Cancelled(w, k) && (TaskOf(w, k, lane).pc.Absent? ==> TaskOf(w, k, lane).bodies == 0)
    ensures var t, t' := TaskOf(w, k, lane), TaskOf(RunAll(w, schedule), k, lane);
            && t'.bodies == t.bodies + (if t.pc.Body? && Own(schedule, k, lane) > 0 then 1 else 0)
            && (!lane.Notify? && !t.pc.Absent? && Own(schedule, k, lane) >= 2 ==> t'.pc.Exited?)
    decreases schedule
  {
    if !TaskOf(w, k, lane).pc.Absent? {
      WindsDown(w, k, lane, schedule);
    } else if schedule != [] {
      NextElsewhere(w, schedule[0], k, lane);
      AtMostOneMoreBody(Next(w, schedule[0]), k, lane, schedule[1..]);
    }
  }

  // ----- running on -----

  /** How many steps a loop takes per body: two checks and the body, or one check and the body for the callback. */
  function Cycle(lane: Lane): nat {
    if lane.Notify? then 2 else 3
  }

  /** Steps taken since the last body. */
  function Phase(t: Task, lane: Lane): nat {
    match t.pc
    case Asleep => 1
    case Body => Cycle(lane) - 1
    case _ => 0
  }

  lemma NextLive(w: World, step: Step, k: nat, lane: Lane)
    requires !Cancelled(Next(w, step), k) && TaskOf(w, k, lane).pc in {Top, Asleep, Body}
    requires lane.Notify? ==> !TaskOf(w, k, lane).pc.Asleep?
    ensures !Cancelled(w, k)
    ensures var t, t' := TaskOf(w, k, lane), TaskOf(Next(w, step), k, lane);
            && t'.pc in {Top, Asleep, Body} && (lane.Notify? ==> !t'.pc.Asleep?)
            && t'.bodies * Cycle(lane) + Phase(t', lane) ==
               t.bodies * Cycle(lane) + Phase(t, lane) + if step == Run(k, lane) then 1 else 0
  {
  }

  lemma {:induction false} StaysLive(w: World, k: nat, schedule: seq<Step>)
    requires !Cancelled(RunAll(w, schedule), k)
    ensures !Cancelled(w, k)
    decreases schedule
  {
    if schedule != [] {
      StaysLive(Next(w, schedule[0]), k, schedule[1..]);
    }
  }

  /** While its session is not cancelled a launched loop never exits and never stalls: whatever else happens, it runs
      its body once in every three of its own steps, the callback once in every two. */
  lemma {:induction false} LiveLoopRuns(w: World, k: nat, lane: Lane, schedule: seq<Step>)
    requires !Cancelled(RunAll(w, schedule), k) && TaskOf(w, k, lane).pc in {Top, Asleep, Body}
    requires lane.Notify? ==> !TaskOf(w, k, lane).pc.Asleep?
    ensures var t, t' := TaskOf(w, k, lane), TaskOf(RunAll(w, schedule), k, lane);
            && t'.pc in {Top, Asleep, Body}
            && t'.bodies * Cycle(lane) + Phase(t', lane) ==
               t.bodies * Cycle(lane) + Phase(t, lane) + Own(schedule, k, lane)
    decreases schedule
  {
    if schedule != [] {
      StaysLive(Next(w, schedule[0]), k, schedule[1..]);
      NextLive(w, schedule[0], k, lane);
      LiveLoopRuns(Next(w, schedule[0]), k, lane, schedule[1..]);
    }
  }

  /** From its launch on: `n` own steps are `n / 3` bodies, or `n / 2` for the callback. */
  lemma BodiesSinceLaunch(w: World, k: nat, lane: Lane, schedule: seq<Step>)
    requires k < |w.store.flags| && TaskOf(w, k, lane).pc.Absent?
    requires !Cancelled(RunAll(Next(w, Launch(k, lane)), schedule), k)
    ensures TaskOf(RunAll(Next(w, Launch(k, lane)), schedule), k, lane).bodies ==
            Own(schedule, k, lane) / (if lane.Notify? then 2 else 3)
  {
    LiveLoopRuns(Next(w, Launch(k, lane)), k, lane, schedule);
  }

  // ----- the shared cell as an object -----

  class Flag {
    var cancelled: bool

    constructor ()
      ensures !cancelled
    {
      cancelled := false;
    }
  }

  datatype StartResult = Watching(flag: Flag) | NoProjectDirectory | WatcherFailed

  class CancelStore {
    var stored: Option<Flag>
    ghost var issued: seq<Flag>

    ghost predicate Valid()
      reads this
    {
      && (forall i, j | 0 <= i < j < |issued| :: issued[i] != issued[j])
      && (stored.Some? ==> stored.value in issued)
    }

    ghost predicate Shows(s: Store)
      reads this, issued
    {
      && |s.flags| == |issued| && (forall k | 0 <= k < |issued| :: s.flags[k] == issued[k].cancelled)
      && (s.stored.None? <==> stored.None?)
      && (s.stored.Some? ==> s.stored.value < |issued| && stored == Some(issued[s.stored.value]))
    }

    constructor ()
      ensures Valid() && Shows(IDLE.store)
    {
      stored, issued := None, [];
    }

    method StopWatching(ghost s: Store)
      requires Valid() && Shows(s)
      modifies this`stored, issued
      ensures Valid() && Shows(Cancel(s)) && stored.None?
    {
      if stored.Some? {
        var flag := stored.value;
        stored := None;
        flag.cancelled := true;
      }
    }

    /** A start: cancel the previous session, then, if the directory is found, publish a fresh flag. The flag stays
        published even when creating the file watcher fails afterwards. */
    method StartWatching(found: bool, watcherOk: bool, ghost s: Store) returns (r: StartResult)
      requires Valid() && Shows(s)
      modifies this, issued
      ensures Valid()
      ensures Shows(if found then Publish(Cancel(s)) else Cancel(s))
      ensures r.NoProjectDirectory? <==> !found
      ensures r.WatcherFailed? <==> found && !watcherOk
      ensures r.Watching? ==> fresh(r.flag) && stored == Some(r.flag) && !r.flag.cancelled
      ensures OnlyStoredLive(s) ==> OnlyStoredLive(if found then Publish(Cancel(s)) else Cancel(s))
    {
      StopWatching(s);
      if !found {
        return NoProjectDirectory;
      }
      var flag := new Flag();
      stored, issued := Some(flag), issued + [flag];
      if !watcherOk {
        return WatcherFailed;
      }
      return Watching(flag);
    }
  }
}
