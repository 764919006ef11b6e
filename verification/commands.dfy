/** What the CLI commands leave behind: image-patch for a target, and image-reconcile for what is recorded. */
module Commands {
  import opened Text
  import opened Values
  import opened Components
  import opened Patcher
  import opened Policy
  import opened Cluster
  import opened Protocol
  import opened Modes
  import CliState
  import Images
  import Outcomes

  // ---------- image-patch ----------

  /** The command goes through: no ImagePatch, a running image, a tag inside the window, consent, no stale record. */
  predicate PatchGoesThrough(w: World, c: Component, target: string, confirmed: bool) {
    w.patches == map[] && w.out.running(c).Some? && ValidatePatchWindow(c, target, w.out.zeroDay) == Allowed &&
    confirmed && forall k | k in w.cli :: TrimSpace(w.cli[k].clusterVersion) == w.version
  }

  /** The target is recorded, with the running tag as the baseline unless one is recorded already. */
  ghost predicate RecordsTarget(w: World, v: World, c: Component, currentTag: string, target: string) {
    var key := CliState.EntryKey(w.version, c);
    key in v.cli && v.cli[key].patchedToTag == target &&
    v.cli[key].baselineTag ==
      (if key in w.cli && TrimSpace(w.cli[key].baselineTag) != "" then w.cli[key].baselineTag else currentTag) &&
    forall k | k != key :: (k in v.cli <==> k in w.cli) && (k in w.cli ==> v.cli[k] == w.cli[k])
  }

  /** No mark of the controller, and nothing outside the chart's HelmChartConfig and the record, has changed. */
  ghost predicate OnlyValuesAndRecord(w: World, v: World, c: Component) {
    (forall d :: Managed(v, d) == Managed(w, d)) &&
      (forall d | Chart(d) != Chart(c) :: ConfigOf(v, d) == ConfigOf(w, d)) &&
    v.patches == w.patches && v.version == w.version && v.out == w.out
  }

  /**
   image-patch does nothing, or names the running image with the target tag in the HelmChartConfig, keeps every
   value that patches of the component do not write, and records the target.
   */
  lemma ImagePatchMeans(w: World, c: Component, currentTag: string, target: string, confirmed: bool)
    ensures var v := ImagePatchCommand(w, c, currentTag, target, confirmed);
            if !PatchGoesThrough(w, c, target, confirmed) then v == w
            else
              Images.NamesImage(ValuesOf(ConfigOf(v, c)), c, WithoutRegistry(w.out.running(c).value), target) &&
              Outcomes.KeepsForeign(ValuesOf(ConfigOf(w, c)), ValuesOf(ConfigOf(v, c)), c) &&
              RecordsTarget(w, v, c, currentTag, target) && OnlyValuesAndRecord(w, v, c)
  {
    if PatchGoesThrough(w, c, target, confirmed) {
      var generated := w.out.generated(c, target);
      var u := PutConfig(w, c, MergedOnly(ConfigOf(w, c), generated));
      PutMeans(w, c, u, generated);
      Images.GeneratedNames(w.out, c, ValuesOf(ConfigOf(w, c)), target);
      Outcomes.WantedIs(w.out, c, target);
      Outcomes.MergeForeign(ValuesOf(ConfigOf(w, c)), c, WithoutRegistry(Images.ImageName(w.out, c)), target);
      RecordMeans(w, c, currentTag, target);
      Recorded(w, u, c, currentTag, target, CliState.Mutated(w.cli, PatchRecord(w, c, currentTag, target)));
    }
  }

  lemma PutMeans(w: World, c: Component, u: World, generated: Tree)
    requires u == PutConfig(w, c, MergedOnly(ConfigOf(w, c), generated))
    ensures ValuesOf(ConfigOf(u, c)) == Merge(ValuesOf(ConfigOf(w, c)), generated) && OnlyValuesAndRecord(w, u, c)
  {
    forall d ensures Managed(u, d) == Managed(w, d) {
      if Chart(d) == Chart(c) { assert ConfigOf(w, d) == ConfigOf(w, c) && ConfigOf(u, d) == ConfigOf(u, c); }
    }
  }

  lemma RecordMeans(w: World, c: Component, currentTag: string, target: string)
    ensures RecordsTarget(w, w.(cli := CliState.Mutated(w.cli, PatchRecord(w, c, currentTag, target))), c, currentTag,
                          target)
  {
    var record := PatchRecord(w, c, currentTag, target);
    CliState.PersistMeans(w.cli, record.key, record.entry);
  }

  lemma Recorded(w: World, u: World, c: Component, currentTag: string, target: string, cli: CliState.State)
    requires RecordsTarget(w, w.(cli := cli), c, currentTag, target) && OnlyValuesAndRecord(w, u, c)
    ensures RecordsTarget(w, u.(cli := cli), c, currentTag, target) && OnlyValuesAndRecord(w, u.(cli := cli), c)
    ensures ConfigOf(u.(cli := cli), c) == ConfigOf(u, c)
  {
  }

  // ---------- image-reconcile ----------

  /** An entry with recorded values, whose HelmChartConfig exists. */
  predicate Revertible(w: World, k: string) {
    k in w.cli && w.cli[k].values.Some? && ConfigOf(w, w.cli[k].component).Some?
  }

  /** Values recorded under one of the keys reach this path of the HelmChartConfig of d's chart. */
  ghost predicate TakenBack(w: World, keys: seq<string>, d: Component, p: Path) {
    exists k :: k in keys && Revertible(w, k) && Chart(w.cli[k].component) == Chart(d) &&
                Touches(w.cli[k].values.value, p)
  }

  /** What is recorded holds no empty map, as everything that image-patch records. */
  ghost predicate ProperRecord(cli: CliState.State) {
    forall k | k in cli && cli[k].values.Some? :: NoEmptyMaps(cli[k].values.value)
  }

  /** The same HelmChartConfigs and marks, whatever their values. */
  ghost predicate SameButValues(w: World, v: World) {
    (forall d :: ConfigOf(v, d).Some? <==> ConfigOf(w, d).Some?) && (forall d :: Managed(v, d) == Managed(w, d)) &&
    v.patches == w.patches && v.version == w.version && v.out == w.out && v.cli == w.cli
  }

  lemma OneTakesBack(w: World, entry: CliState.Entry, v: World)
    requires RevertEntry(w, entry) == Some(v)
    ensures SameButValues(w, v)
    ensures forall d :: ValuesOf(ConfigOf(v, d)) ==
              if Chart(d) == Chart(entry.component) then Subtract(ValuesOf(ConfigOf(w, d)), entry.values.value)
              else ValuesOf(ConfigOf(w, d))
  {
    forall d ensures Managed(v, d) == Managed(w, d) {
      if Chart(d) == Chart(entry.component) { assert ConfigOf(w, d) == ConfigOf(w, entry.component); }
    }
  }

  /** What the loop over the keys leaves in every HelmChartConfig, and which keys it lists as reverted. */
  lemma {:induction false} RevertsMean(w: World, keys: seq<string>, d: Component, p: Path)
    requires p != [] && ProperRecord(w.cli) && forall k | k in keys :: k in w.cli
    ensures var r := RevertEntries(w, keys);
            SameButValues(w, r.world) && (forall k :: k in r.done <==> k in keys && Revertible(w, k)) &&
            EndAt(ValuesOf(ConfigOf(r.world, d)), p) ==
              if TakenBack(w, keys, d, p) then None else EndAt(ValuesOf(ConfigOf(w, d)), p)
    decreases |keys|
  {
    if keys != [] {
      var front, key := keys[..|keys| - 1], keys[|keys| - 1];
      assert keys == front + [key];
      RevertsMean(w, front, d, p);
      OneMoreReverted(w, front, key, RevertEntries(w, front), d, p);
      TakenBackOnce(w, front, key, d, p);
    }
  }

  ghost predicate TakenBackBy(w: World, key: string, d: Component, p: Path) {
    Revertible(w, key) && Chart(w.cli[key].component) == Chart(d) && Touches(w.cli[key].values.value, p)
  }

  lemma TakenBackOnce(w: World, front: seq<string>, key: string, d: Component, p: Path)
    ensures TakenBack(w, front + [key], d, p) <==> TakenBack(w, front, d, p) || TakenBackBy(w, key, d, p)
  {
    assert forall k :: k in front + [key] <==> k in front || k == key;
    assert key in front + [key];
  }

  lemma OneMoreReverted(w: World, front: seq<string>, key: string, before: Reverted, d: Component, p: Path)
    requires p != [] && key in w.cli && ProperRecord(w.cli) && SameButValues(w, before.world)
    ensures RevertEntry(before.world, w.cli[key]).Some? <==> Revertible(w, key)
    ensures var v := RevertEntry(before.world, w.cli[key]);
            v.Some? ==>
              SameButValues(w, v.value) &&
              EndAt(ValuesOf(ConfigOf(v.value, d)), p) ==
                if TakenBackBy(w, key, d, p) then None else EndAt(ValuesOf(ConfigOf(before.world, d)), p)
  {
    var v := RevertEntry(before.world, w.cli[key]);
    if v.Some? {
      OneTakesBack(before.world, w.cli[key], v.value);
      if Chart(d) == Chart(w.cli[key].component) {
        SubtractExact(ValuesOf(ConfigOf(before.world, d)), w.cli[key].values.value, p);
      }
    }
  }

  /** What is recorded under the keys is gone from the values of d's chart at this path, and forgotten. */
  ghost predicate TakesBack(w: World, v: World, keys: seq<string>, d: Component, p: Path) {
    EndAt(ValuesOf(ConfigOf(v, d)), p) ==
      (if TakenBack(w, keys, d, p) then None else EndAt(ValuesOf(ConfigOf(w, d)), p)) &&
    (forall k :: k in v.cli <==> k in w.cli && !(k in keys && Revertible(w, k))) &&
    (forall k | k in v.cli :: v.cli[k] == w.cli[k]) && Managed(v, d) == Managed(w, d)
  }

  lemma RevertAndForgetMeans(w: World, keys: seq<string>, d: Component, p: Path)
    requires (forall k | k in keys :: k in w.cli) && ProperRecord(w.cli) && p != []
    ensures TakesBack(w, RevertAndForget(w, keys), keys, d, p)
  {
    var r := RevertEntries(w, keys);
    RevertsMean(w, keys, d, p);
    CliState.RemoveMeans(w.cli, r.done);
    Forgotten(w, r, keys, d);
  }

  /**
   image-reconcile takes back, from every HelmChartConfig and at every path, what is recorded for the component on
   other versions, or, if there is nothing and the user agrees, on this one. Exactly the entries it has
   reverted are forgotten.
   */
  lemma ImageReconcileMeans(w: World, c: Component, stale: seq<string>, current: seq<string>, confirmed: bool,
      d: Component, p: Path)
    requires Lists(w, c, stale, true) && Lists(w, c, current, false) && ProperRecord(w.cli) && p != []
    ensures TakesBack(w, ImageReconcileCommand(w, c, stale, current, confirmed),
                      if stale != [] then stale else if confirmed then current else [], d, p)
  {
    if stale != [] {
      RevertAndForgetMeans(w, stale, d, p);
    } else if confirmed {
      RevertAndForgetMeans(w, current, d, p);
    }
  }

  lemma Forgotten(w: World, r: Reverted, keys: seq<string>, d: Component)
    requires (forall k | k in keys :: k in w.cli) && r == RevertEntries(w, keys)
    ensures RevertAndForget(w, keys) == r.world.(cli := CliState.Mutated(w.cli, CliState.Remove(r.done)))
    ensures ConfigOf(RevertAndForget(w, keys), d) == ConfigOf(r.world, d)
    ensures Managed(RevertAndForget(w, keys), d) == Managed(r.world, d)
  {
  }

  // ---------- the record along histories ----------

  /** In every history what is recorded is proper: only image-patch adds to it. */
  lemma {:induction false} RecordsAreProper(run: seq<World>, deeds: seq<Deed>, k: nat)
    requires IsHistory(run, deeds) && k < |run|
    ensures ProperRecord(run[k].cli)
    decreases k
  {
    if k > 0 {
      RecordsAreProper(run, deeds, k - 1);
      assert Does(run, deeds, k - 1);
      DeedKeepsProper(run[k - 1], deeds[k - 1]);
    }
  }

  lemma DeedKeepsProper(w: World, deed: Deed)
    requires CanDo(w, deed) && ProperRecord(w.cli)
    ensures ProperRecord(Done(w, deed).cli)
  {
    match deed
    case PassOf(c, n) => StepsKeepRecord(After(Machine(w, Idle), StartPass(c)), n);
    case User(_) =>
    case PatchByCli(c, currentTag, tag, _) => PatchKeepsProper(w, c, currentTag, tag);
    case ReconcileByCli(c, stale, current, approved) => ReconcileKeepsProper(w, c, stale, current, approved);
  }

  lemma {:induction false} StepsKeepRecord(m: Machine, n: nat)
    ensures Steps(m, n).world.cli == m.world.cli
    decreases n
  {
    if n > 0 && m.worker.Busy? {
      StepKeepsCli(m);
      StepsKeepRecord(Step(m), n - 1);
    }
  }

  lemma PatchKeepsProper(w: World, c: Component, currentTag: string, target: string)
    requires ProperRecord(w.cli)
    ensures ProperRecord(CliState.Mutated(w.cli, PatchRecord(w, c, currentTag, target)))
  {
    Outcomes.WantedIs(w.out, c, target);
    GeneratedShape(c, WithoutRegistry(Images.ImageName(w.out, c)), target);
  }

  lemma ReconcileKeepsProper(w: World, c: Component, stale: seq<string>, current: seq<string>, confirmed: bool)
    requires Lists(w, c, stale, true) && Lists(w, c, current, false) && ProperRecord(w.cli)
    ensures ProperRecord(ImageReconcileCommand(w, c, stale, current, confirmed).cli)
  {
    ImageReconcileMeans(w, c, stale, current, confirmed, c, ["image"]);
  }
}
