/** What the shared state cell of an actor can be read to mean. */
module ActorCell {
  import opened ActorMachine
  import opened ActorTheorems

  /** A cell reading Stopped means the last incarnation has ended, so nothing more is ever handled. */
  lemma StoppedMeansDone<M>(capacity: nat, steps: seq<Choice<M>>)
    requires capacity > 0
    requires Run(Spawned<M>(capacity), steps).cell.Stopped?
    ensures var pc := Run(Spawned<M>(capacity), steps).pc; pc.Release? || pc.Done?
  {
    Reachable(capacity, steps);
  }

  lemma StoppedStep<M>(w: World<M>, c: Choice<M>)
    requires w.pc.Release? || w.pc.Done?
    ensures var w' := Step(w, c);
            && (w'.pc.Release? || w'.pc.Done?) && w'.pc.outcome == w.pc.outcome && w'.log == w.log
            && w'.cell == if c == Env(StoreStopping) then Stopping else w.cell
  {
  }

  /** Stopped is not terminal in the cell: once it has been stored the cell reads Stopped exactly as long as
      nobody has called stop or abort again. */
  lemma {:induction false} StoppedUntilStopCall<M>(w0: World<M>, later: seq<Choice<M>>)
    requires (w0.pc.Release? || w0.pc.Done?) && w0.cell.Stopped?
    ensures var w := Run(w0, later);
            && (w.pc.Release? || w.pc.Done?) && w.pc.outcome == w0.pc.outcome && w.log == w0.log
            && (w.cell.Stopped? <==> Env(StoreStopping) !in later)
  {
    if later != [] {
      var before, last := later[..|later| - 1], later[|later| - 1];
      StoppedUntilStopCall(w0, before);
      StoppedStep(Run(w0, before), last);
      InSnoc(before, last, later);
    }
  }

  lemma InSnoc<M>(before: seq<Choice<M>>, last: Choice<M>, all: seq<Choice<M>>)
    requires all != [] && before == all[..|all| - 1] && last == all[|all| - 1]
    ensures Env(StoreStopping) in all <==> Env(StoreStopping) in before || last == Env(StoreStopping)
  {
    assert all == before + [last];
  }

  /** The actor step that overwrites Stopping: launching an incarnation, or marking the end. */
  predicate Overwrites<M>(w: World<M>, c: Choice<M>) {
    c.Act? && (w.pc.Launch? || w.pc.Mark?)
  }

  lemma StoppingStep<M>(w: World<M>, c: Choice<M>)
    requires w.cell.Stopping?
    ensures Step(w, c).cell.Stopping? <==> !Overwrites(w, c)
  {
    match c
    case Env(op) =>
    case Act(panics, d) => ActCell(w, panics, d);
  }

  /** What an actor step stores. */
  lemma ActCell<M>(w: World<M>, panics: bool, decision: Decision)
    ensures ActStep(w, panics, decision).cell ==
            if w.pc.Launch? then Running else if w.pc.EnterDrain? then Stopping else if w.pc.Mark? then Stopped
            else w.cell
  {
    match w.pc
    case Launch =>
    case EnterDrain =>
    case Mark(_) =>
    case _ =>
  }

  ghost predicate AlwaysStopping<M>(w: World<M>, steps: seq<Choice<M>>) {
    forall n | 0 <= n <= |steps| :: Run(w, steps[..n]).cell.Stopping?
  }

  /** Step `k` is such a step. */
  ghost predicate OverwrittenAt<M>(w: World<M>, steps: seq<Choice<M>>, k: nat)
    requires k < |steps|
  {
    Overwrites(Run(w, steps[..k]), steps[k])
  }

  ghost predicate NeverOverwritten<M>(w: World<M>, steps: seq<Choice<M>>) {
    forall k | 0 <= k < |steps| :: !OverwrittenAt(w, steps, k)
  }

  lemma StoppingGrows<M>(w: World<M>, steps: seq<Choice<M>>, n: nat)
    requires |steps| == n + 1
    ensures AlwaysStopping(w, steps) <==> AlwaysStopping(w, steps[..n]) && Run(w, steps).cell.Stopping?
  {
    forall k | 0 <= k <= n ensures steps[..n][..k] == steps[..k] {
    }
    assert steps[..|steps|] == steps;
  }

  lemma OverwrittenInPrefix<M>(w: World<M>, steps: seq<Choice<M>>, n: nat, k: nat)
    requires k < n <= |steps|
    ensures OverwrittenAt(w, steps[..n], k) <==> OverwrittenAt(w, steps, k)
  {
    assert steps[..n][..k] == steps[..k] && steps[..n][k] == steps[k];
  }

  lemma OverwrittenGrows<M>(w: World<M>, steps: seq<Choice<M>>, n: nat)
    requires |steps| == n + 1
    ensures NeverOverwritten(w, steps) <==> NeverOverwritten(w, steps[..n]) && !OverwrittenAt(w, steps, n)
  {
    if NeverOverwritten(w, steps) {
      forall k | 0 <= k < n ensures !OverwrittenAt(w, steps[..n], k) {
        OverwrittenInPrefix(w, steps, n, k);
        assert !OverwrittenAt(w, steps, k);
      }
    } else {
      var k :| 0 <= k < |steps| && OverwrittenAt(w, steps, k);
      if k < n {
        OverwrittenInPrefix(w, steps, n, k);
      }
    }
  }

  /** A cell that reads Stopping keeps reading it exactly as long as no incarnation is launched and the end is not
      marked; in particular a stop that comes before the first launch, or during a restart, is overwritten. */
  lemma {:induction false} StoppingStaysIff<M>(w: World<M>, steps: seq<Choice<M>>)
    requires w.cell.Stopping?
    ensures AlwaysStopping(w, steps) <==> NeverOverwritten(w, steps)
  {
    if steps == [] {
      assert steps[..0] == [] && Run(w, []) == w;
    } else {
      var n := |steps| - 1;
      StoppingStaysIff(w, steps[..n]);
      StoppingGrows(w, steps, n);
      OverwrittenGrows(w, steps, n);
      assert steps[..n][..n] == steps[..n];
      if AlwaysStopping(w, steps[..n]) {
        assert Run(w, steps[..n]).cell.Stopping?;
        StoppingStep(Run(w, steps[..n]), steps[n]);
      }
    }
  }

  lemma LaunchedStep<M>(w: World<M>, c: Choice<M>)
    requires !w.pc.Launch? && (w.cell.Stopping? || w.pc.Release? || w.pc.Done?) && (c.Act? ==> !c.panics)
    ensures var w' := Step(w, c); !w'.pc.Launch? && (w'.cell.Stopping? || w'.pc.Release? || w'.pc.Done?)
  {
  }

  /** Once an incarnation has been launched, and as long as none panics, Stopping is left only for the end. */
  lemma {:induction false} StoppingUntilEnd<M>(w: World<M>, steps: seq<Choice<M>>)
    requires w.cell.Stopping? && !w.pc.Launch? && PanicFree(steps)
    ensures var w' := Run(w, steps); !w'.pc.Launch? && (w'.cell.Stopping? || w'.pc.Release? || w'.pc.Done?)
  {
    if steps != [] {
      var n := |steps| - 1;
      StoppingUntilEnd(w, steps[..n]);
      assert steps[n].Act? ==> !steps[n].panics;
      LaunchedStep(Run(w, steps[..n]), steps[n]);
    }
  }

  /** A complete stop before the first launch: the cell reads Running afterwards. */
  lemma StopBeforeLaunch<M>(capacity: nat)
    requires capacity > 0
    ensures Run(Spawned<M>(capacity), [Env(StoreStopping), Env(RequestCancel), Act(false, Stop)]).cell.Running?
  {
    var steps: seq<Choice<M>> := [Env(StoreStopping), Env(RequestCancel), Act(false, Stop)];
    assert steps[..2][..1] == steps[..1] && steps[..1][..0] == [];
    var w := Spawned<M>(capacity);
    assert Run(w, steps[..1]) == w.(cell := Stopping);
    assert Run(w, steps[..2]) == w.(cell := Stopping, cancelled := true);
  }
}
