/**
 Which image a component's values name: the one that runs when the pass looks for it, without its registry
 host, and the component's own repository only if none runs.
 */
module Images {
  import opened Text
  import opened Values
  import opened Comparison
  import opened Components
  import opened Patcher
  import opened Policy
  import opened Cluster
  import opened Protocol
  import opened Safety
  import opened Convergence
  import opened History
  import Layout
  import Preservation
  import Records

  /** The name of the running image, or else the component's repository. */
  function ImageName(out: Outside, c: Component): string {
    match out.running(c)
    case Some(name) => name
    case None => Repository(c)
  }

  /** At each of the component's images the values name a repository and a tag. */
  predicate NamesImage(values: Tree, c: Component, repository: string, tag: string) {
    forall ip | ip in ImagePaths(c) ::
      At(values, ip + ["repository"]) == Some(Str(repository)) && At(values, ip + [TagKey(c)]) == Some(Str(tag))
  }

  lemma MergedNames(c: Component, e: Tree, repository: string, tag: string)
    ensures NamesImage(Merge(e, Generate(c, repository, tag)), c, repository, tag)
  {
    var g := Generate(c, repository, tag);
    forall ip | ip in ImagePaths(c)
      ensures At(Merge(e, g), ip + ["repository"]) == Some(Str(repository)) &&
              At(Merge(e, g), ip + [TagKey(c)]) == Some(Str(tag))
    {
      LeavesOfImage(c, repository, tag, ip);
      AtMerge(e, g, ip + ["repository"]);
      AtMerge(e, g, ip + [TagKey(c)]);
    }
  }

  lemma GeneratedNames(out: Outside, c: Component, e: Tree, tag: string)
    ensures NamesImage(Merge(e, out.generated(c, tag)), c, WithoutRegistry(ImageName(out, c)), tag)
  {
    assert out.generated(c, tag) == Generated(out.running(c), c, tag);
    MergedNames(c, e, WithoutRegistry(ImageName(out, c)), tag);
  }

  // ---------- an undisturbed pass ----------

  /** A pass that writes leaves the image running then, with the tag of the spec, in the HelmChartConfig. */
  lemma PassNamesTheRunningImage(w: World, c: Component)
    requires WritesTag(w, c)
    ensures NamesImage(ValuesOf(ConfigOf(AfterPass(w, c), c)), c, WithoutRegistry(ImageName(w.out, c)),
                       w.patches[c].tag)
  {
    var decision := Decide(w, c, w.patches[c]);
    LivePass(w, c, decision);
    AppliesGenerated(w, c, w.patches[c], decision);
    GeneratedNames(w.out, c, ValuesOf(ConfigOf(w, c)), w.patches[c].tag);
  }

  // ---------- along runs ----------

  /** One pass for c, with one copy of its ImagePatch, is under way from j to k. */
  predicate OnePass(run: seq<Machine>, j: nat, k: nat, c: Component, copy: ImagePatch) {
    j <= k < |run| &&
    forall i | j <= i <= k :: run[i].worker.Busy? && run[i].worker.c == c && run[i].worker.copy == copy
  }

  /** The pass looks for the running images at j and has kept its copy until k. */
  predicate LooksAt(run: seq<Machine>, moves: seq<Move>, j: nat, k: nat, c: Component, copy: ImagePatch) {
    OnePass(run, j, k, c, copy) && j < k && j < |moves| && moves[j].WorkerStep? && run[j].worker.pc.ReadingImages?
  }

  /** The pass goes on with its copy and the values it carries, which it has generated where it looks for images. */
  ghost predicate Hands(m: Machine, n: Machine)
    requires m.worker.Busy? && n.worker.Busy?
  {
    n.worker.c == m.worker.c && n.worker.copy == m.worker.copy &&
    Preservation.InHand(n.worker.pc) ==
      if m.worker.pc.ReadingImages? then Some(m.world.out.generated(m.worker.c, m.worker.copy.tag))
      else Preservation.InHand(m.worker.pc)
  }

  lemma HandsOn(m: Machine)
    requires m.worker.Busy? && Step(m).worker.Busy? && Preservation.InHand(Step(m).worker.pc).Some?
    ensures Hands(m, Step(m))
  {
    if m.worker.pc.AddingFinalizer? || m.worker.pc.ClearingMarker? || m.worker.pc.RecordingMarker? {
      Records.UpdatesEmptyHanded(m);
    } else if Reads(m.worker.pc) {
      ReadsHandOn(m);
    } else {
      Preservation.LastStepsEmptyHanded(m);
    }
  }

  lemma ReadsHandOn(m: Machine)
    requires m.worker.Busy? && Reads(m.worker.pc)
    requires Step(m).worker.Busy? && Preservation.InHand(Step(m).worker.pc).Some?
    ensures Hands(m, Step(m))
  {
    ReadStepsRemember(m);
    if Preservation.InHand(m.worker.pc).None? && !m.worker.pc.ReadingImages? { Preservation.EarlyReadsEmptyHanded(m); }
  }

  lemma OthersKeepInHand(m: Machine, move: Move)
    requires CanMove(m, move) && !move.WorkerStep?
    requires After(m, move).worker.Busy? && Preservation.InHand(After(m, move).worker.pc).Some?
    ensures After(m, move).worker == m.worker
  {
  }

  lemma LooksOn(run: seq<Machine>, moves: seq<Move>, j: nat, k: nat, c: Component, copy: ImagePatch)
    requires LooksAt(run, moves, j, k, c, copy) && k + 1 < |run|
    requires run[k + 1].worker.Busy? && run[k + 1].worker.c == c && run[k + 1].worker.copy == copy
    ensures LooksAt(run, moves, j, k + 1, c, copy)
  {
  }

  /** What the pass carries at k was generated at j. */
  ghost predicate GeneratedAt(run: seq<Machine>, moves: seq<Move>, j: nat, k: nat) {
    k < |run| && run[k].worker.Busy? && LooksAt(run, moves, j, k, run[k].worker.c, run[k].worker.copy) &&
    Preservation.InHand(run[k].worker.pc) ==
      Some(run[j].world.out.generated(run[k].worker.c, run[k].worker.copy.tag))
  }

  lemma StepHolds(run: seq<Machine>, moves: seq<Move>, k: nat, j: nat)
    requires k + 1 < |run| && k < |moves| && moves[k].WorkerStep? && run[k].worker.Busy? && run[k + 1].worker.Busy?
    requires Hands(run[k], run[k + 1])
    requires if run[k].worker.pc.ReadingImages? then j == k else GeneratedAt(run, moves, j, k)
    ensures GeneratedAt(run, moves, j, k + 1)
  {
    if !run[k].worker.pc.ReadingImages? { LooksOn(run, moves, j, k, run[k].worker.c, run[k].worker.copy); }
  }

  lemma {:induction false} HeldSince(run: seq<Machine>, moves: seq<Move>, k: nat) returns (j: nat)
    requires IsRun(run, moves) && k < |run| && run[k].worker.Busy? && Preservation.InHand(run[k].worker.pc).Some?
    ensures GeneratedAt(run, moves, j, k)
    decreases k
  {
    assert k > 0;
    assert Follows(run, moves, k - 1);
    if !moves[k - 1].WorkerStep? {
      OthersKeepInHand(run[k - 1], moves[k - 1]);
      j := HeldSince(run, moves, k - 1);
      LooksOn(run, moves, j, k - 1, run[k].worker.c, run[k].worker.copy);
    } else {
      HandsOn(run[k - 1]);
      if run[k - 1].worker.pc.ReadingImages? { j := k - 1; } else { j := HeldSince(run, moves, k - 1); }
      StepHolds(run, moves, k - 1, j);
    }
  }

  /**
   Whatever happens in between: a write of a component's values names the image that was running when the same
   pass looked for it, without its registry host, with the tag of the spec that the pass has read.
   */
  lemma AppliesNameTheRunningImage(run: seq<Machine>, moves: seq<Move>, k: nat, c: Component) returns (j: nat)
    requires IsRun(run, moves) && k < |moves| && Applies(run[k], moves[k], c)
    ensures LooksAt(run, moves, j, k, c, run[k].worker.copy)
    ensures NamesImage(ValuesOf(ConfigOf(run[k + 1].world, c)), c, WithoutRegistry(ImageName(run[j].world.out, c)),
                       run[k].worker.copy.tag)
  {
    var m := run[k];
    j := HeldSince(run, moves, k);
    assert Follows(run, moves, k);
    Layout.ApplyWrites(m);
    GeneratedNames(run[j].world.out, c, ValuesOf(m.worker.pc.seen), m.worker.copy.tag);
  }
}
