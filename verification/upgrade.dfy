/**
 AutoRevert after an RKE2 upgrade: the marker is stored before anything is stripped, so a crash in between
 never leads to the old spec being applied again.
 */
module Upgrades {
  import opened Text
  import opened Values
  import opened Components
  import opened Cluster
  import opened Protocol
  import opened Safety

  // ---------- what a pass has read was stored ----------

  /** The ImagePatch was stored like this in the j-th state. */
  predicate StoredAt(run: seq<Machine>, j: nat, c: Component, p: ImagePatch) {
    j < |run| && c in run[j].world.patches && run[j].world.patches[c] == p
  }

  ghost predicate WasStored(run: seq<Machine>, k: nat, c: Component, p: ImagePatch) {
    exists j :: 0 <= j <= k && StoredAt(run, j, c, p)
  }

  /** A pass goes on with its copy, or with what it has just stored. */
  predicate CopyFrom(m: Machine, n: Machine)
    requires m.worker.Busy?
  {
    n.worker.Busy? ==>
      n.worker.c == m.worker.c &&
      (n.worker.copy == m.worker.copy ||
        (n.worker.c in n.world.patches && n.world.patches[n.worker.c] == n.worker.copy))
  }

  lemma UpdateCopies(m: Machine, p: ImagePatch, next: Pc)
    requires m.worker.Busy?
    ensures CopyFrom(m, UpdatePatch(m, p, next))
    ensures var n := UpdatePatch(m, p, next);
            n.worker.Busy? ==>
              n.worker.pc == next && n.worker.copy.marker == p.marker && n.worker.copy.generation == p.generation
  {
  }

  lemma StepCopies(m: Machine)
    requires m.worker.Busy?
    ensures CopyFrom(m, Step(m))
  {
    var c, copy := m.worker.c, m.worker.copy;
    match m.worker.pc
    case AddingFinalizer => UpdateCopies(m, copy.(finalizer := true), CheckingPrime);
    case ClearingMarker(version, baseline, seen) =>
      UpdateCopies(m, copy.(marker := None), AfterMarker(copy, c, version, baseline, seen));
    case RecordingMarker(_, _, seen) =>
      UpdateCopies(m, copy.(marker := Some(copy.generation)), Reverting(RevertedAfterUpgrade, seen));
    case _ => OtherStepsCopy(m);
  }

  lemma OtherStepsCopy(m: Machine)
    requires m.worker.Busy? &&
             !(m.worker.pc.AddingFinalizer? || m.worker.pc.ClearingMarker? || m.worker.pc.RecordingMarker?)
    ensures CopyFrom(m, Step(m))
  {
    if Reads(m.worker.pc) { ReadStepsRemember(m); } else { LateStepsCopy(m); }
  }

  lemma LateStepsCopy(m: Machine)
    requires m.worker.Busy?
    requires m.worker.pc.Applying? || m.worker.pc.Reverting? || m.worker.pc.WritingStatus? ||
             m.worker.pc.FinalizeReverting? || m.worker.pc.RemovingFinalizer?
    ensures CopyFrom(m, Step(m))
  {
  }

  lemma Earlier(run: seq<Machine>, k: nat, c: Component, p: ImagePatch)
    requires WasStored(run, k, c, p)
    ensures WasStored(run, k + 1, c, p)
  {
    var j :| 0 <= j <= k && StoredAt(run, j, c, p);
    assert StoredAt(run, j, c, p);
  }

  lemma {:induction false} CopyWasStored(run: seq<Machine>, moves: seq<Move>, k: nat)
    requires IsRun(run, moves) && k < |run| && run[k].worker.Busy?
    ensures WasStored(run, k, run[k].worker.c, run[k].worker.copy)
    decreases k
  {
    if k > 0 {
      assert Follows(run, moves, k - 1);
      var m, n := run[k - 1], run[k];
      if m.worker.Busy? {
        CopyWasStored(run, moves, k - 1);
        if moves[k - 1].WorkerStep? { StepCopies(m); }
        Earlier(run, k - 1, m.worker.c, m.worker.copy);
      }
      assert n.worker.c in n.world.patches && n.world.patches[n.worker.c] == n.worker.copy ==>
             StoredAt(run, k, n.worker.c, n.worker.copy);
    }
  }

  // ---------- the marker comes first ----------

  predicate AboutToRevert(worker: Worker) {
    worker.Busy? && worker.pc.Reverting? && worker.pc.outcome == RevertedAfterUpgrade
  }

  /** A pass about to strip after an upgrade has the marker of its spec in hand. */
  predicate MarkerInHand(worker: Worker) {
    AboutToRevert(worker) ==> worker.copy.marker == Some(worker.copy.generation)
  }

  lemma StepMarksFirst(m: Machine)
    requires m.worker.Busy? && MarkerInHand(m.worker)
    ensures MarkerInHand(Step(m).worker)
  {
    var c, copy := m.worker.c, m.worker.copy;
    match m.worker.pc
    case AddingFinalizer => UpdateCopies(m, copy.(finalizer := true), CheckingPrime);
    case ClearingMarker(version, baseline, seen) =>
      UpdateCopies(m, copy.(marker := None), AfterMarker(copy, c, version, baseline, seen));
    case RecordingMarker(_, _, seen) =>
      UpdateCopies(m, copy.(marker := Some(copy.generation)), Reverting(RevertedAfterUpgrade, seen));
    case _ => OtherStepsMark(m);
  }

  lemma OtherStepsMark(m: Machine)
    requires m.worker.Busy? &&
             !(m.worker.pc.AddingFinalizer? || m.worker.pc.ClearingMarker? || m.worker.pc.RecordingMarker?)
    ensures AboutToRevert(Step(m).worker) ==> Step(m).worker.copy.marker == Some(Step(m).worker.copy.generation)
  {
  }

  lemma {:induction false} MarkerIsInHand(run: seq<Machine>, moves: seq<Move>, k: nat)
    requires IsRun(run, moves) && k < |run|
    ensures MarkerInHand(run[k].worker)
    decreases k
  {
    if k > 0 {
      MarkerIsInHand(run, moves, k - 1);
      assert Follows(run, moves, k - 1);
      if moves[k - 1].WorkerStep? { StepMarksFirst(run[k - 1]); }
    }
  }

  // ---------- what follows ----------

  /** A pass that strips a component after an upgrade, or is about to, has stored the marker before. */
  lemma MarkedBeforeReverted(run: seq<Machine>, moves: seq<Move>, k: nat) returns (j: nat)
    requires IsRun(run, moves) && k < |run| && AboutToRevert(run[k].worker)
    ensures j <= k && Marked(run[j].world, run[k].worker.c, run[k].worker.copy.generation)
  {
    var c, copy := run[k].worker.c, run[k].worker.copy;
    CopyWasStored(run, moves, k);
    MarkerIsInHand(run, moves, k);
    var i :| 0 <= i <= k && StoredAt(run, i, c, copy);
    j := i;
  }

  /**
   AutoRevert is final: from the moment on at which a pass is about to strip a component after an upgrade,
   whether or not it gets to do so, its old spec is not applied again. The marker has been stored by then,
   and holds until the generation changes, a user removes it, or the object is replaced.
   */
  lemma AutoRevertIsFinal(run: seq<Machine>, moves: seq<Move>, i: nat, k: nat) returns (j: nat)
    requires IsRun(run, moves) && i <= k < |moves| && AboutToRevert(run[i].worker)
    ensures var c, generation := run[i].worker.c, run[i].worker.copy.generation;
            j <= i && Marked(run[j].world, c, generation) &&
            ((forall l | j <= l <= k :: Undisturbed(run[l], moves[l], c, generation)) ==>
               Marked(run[k].world, c, generation) && !Applies(run[k], moves[k], c))
  {
    var c, generation := run[i].worker.c, run[i].worker.copy.generation;
    j := MarkedBeforeReverted(run, moves, i);
    if forall l | j <= l <= k :: Undisturbed(run[l], moves[l], c, generation) {
      NoResurrection(run, moves, c, generation, j, k);
    }
  }
}
