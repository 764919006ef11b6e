/**
 The CLI and the controller are exclusive modes: with every CLI command as one step, a recorded CLI patch and
 a managed component never coexist, so image-reconcile never strips values that the controller manages.
 */
module Modes {
  import opened Text
  import opened Values
  import opened Components
  import opened Patcher
  import opened Policy
  import opened Cluster
  import opened Protocol
  import opened Safety
  import opened Layout
  import CliState

  // ---------- image-patch ----------

  predicate HasStaleEntry(w: World) { exists k | k in w.cli :: TrimSpace(w.cli[k].clusterVersion) != w.version }

  /** What image-patch records, keeping the first baseline tag seen on this version. */
  ghost function PatchRecord(w: World, c: Component, currentTag: string, target: string): CliState.Mutation {
    var key := CliState.EntryKey(w.version, c);
    var baseline := if CliState.HasBaseline(w.cli, key) then w.cli[key].baselineTag else currentTag;
    CliState.Persist(key, CliState.Entry(c, w.version, baseline, target, Some(w.out.generated(c, target))))
  }

  /** The HelmChartConfig with generated values merged in, its annotations as they were. */
  function MergedOnly(seen: Option<Config>, generated: Tree): Config {
    match seen
    case Some(config) => config.(values := Merge(config.values, generated))
    case None => Config(Merge(Empty, generated), map[], NEW_REST, 0)
  }

  /** image-patch, for a target that the tag selection has picked; confirmed unless it is declined or a dry run. */
  ghost function ImagePatchCommand(w: World, c: Component, currentTag: string, target: string, confirmed: bool): World {
    if w.patches != map[] || w.out.running(c).None? || ValidatePatchWindow(c, target, w.out.zeroDay) != Allowed then w
    else if !confirmed || HasStaleEntry(w) then w
    else
      var v := PutConfig(w, c, MergedOnly(ConfigOf(w, c), w.out.generated(c, target)));
      match CliState.Mutate(w.cli, PatchRecord(w, c, currentTag, target))
      case None => v
      case Some(cli) => v.(cli := cli)
  }

  // ---------- image-reconcile ----------

  /** RevertEntryWith: strips the recorded values; None when there is nothing to revert. */
  function RevertEntry(w: World, entry: CliState.Entry): Option<World> {
    if entry.values.None? || ConfigOf(w, entry.component).None? then None
    else
      var config := ConfigOf(w, entry.component).value;
      Some(PutConfig(w, entry.component, config.(values := Subtract(config.values, entry.values.value))))
  }

  datatype Reverted = Reverted(world: World, done: seq<string>)

  /** Reverts entries one after the other and lists the keys of those that were reverted. */
  function RevertEntries(w: World, keys: seq<string>): (r: Reverted)
    requires forall k | k in keys :: k in w.cli
    ensures r.world.cli == w.cli && (forall k | k in r.done :: k in keys) && (r.done == [] ==> r.world == w)
  {
    if keys == [] then Reverted(w, [])
    else
      var before := RevertEntries(w, keys[..|keys| - 1]);
      var key := keys[|keys| - 1];
      match RevertEntry(before.world, w.cli[key])
      case None => before
      case Some(world) => Reverted(world, before.done + [key])
  }

  function RevertAndForget(w: World, keys: seq<string>): World
    requires forall k | k in keys :: k in w.cli
  {
    var r := RevertEntries(w, keys);
    match CliState.Mutate(w.cli, CliState.Remove(r.done))
    case None => r.world
    case Some(cli) => r.world.(cli := cli)
  }

  /** The component's entries of other RKE2 versions, or of this one, each once, in some order. */
  ghost predicate Lists(w: World, c: Component, keys: seq<string>, stale: bool) {
    Distinct(keys) && forall k :: k in keys <==>
      k in w.cli && w.cli[k].component == c && (TrimSpace(w.cli[k].clusterVersion) != w.version) == stale
  }

  /** image-reconcile: stale patches are reverted; without any, the current ones are, if that is confirmed. */
  function ImageReconcileCommand(w: World, c: Component, stale: seq<string>, current: seq<string>,
      confirmed: bool): World
    requires Lists(w, c, stale, true) && Lists(w, c, current, false)
  {
    if stale != [] then RevertAndForget(w, stale)
    else if confirmed then RevertAndForget(w, current)
    else w
  }

  /** The loops of image-reconcile over the recorded state and the cluster. */
  method RunReconcile(w: World, c: Component, confirmed: bool)
      returns (v: World, ghost stale: seq<string>, ghost current: seq<string>)
    ensures Lists(w, c, stale, true) && Lists(w, c, current, false)
    ensures v == ImageReconcileCommand(w, c, stale, current, confirmed)
  {
    var staleKeys, currentKeys: seq<string> := [], [];
    var todo := w.cli.Keys;
    while todo != {}
      invariant todo <= w.cli.Keys && Distinct(staleKeys) && Distinct(currentKeys)
      invariant forall k :: k in staleKeys <==>
                  k in w.cli && k !in todo && w.cli[k].component == c && TrimSpace(w.cli[k].clusterVersion) != w.version
      invariant forall k :: k in currentKeys <==>
                  k in w.cli && k !in todo && w.cli[k].component == c && TrimSpace(w.cli[k].clusterVersion) == w.version
    {
      var key :| key in todo;
      todo := todo - {key};
      if w.cli[key].component != c {
        continue;
      }
      if TrimSpace(w.cli[key].clusterVersion) == w.version {
        currentKeys := currentKeys + [key];
      } else {
        staleKeys := staleKeys + [key];
      }
    }
    stale, current := staleKeys, currentKeys;
    if staleKeys == [] && (currentKeys == [] || !confirmed) {
      return w, stale, current;
    }
    v := RunReverts(w, if staleKeys == [] then currentKeys else staleKeys);
  }

  method RunReverts(w: World, keys: seq<string>) returns (v: World)
    requires forall k | k in keys :: k in w.cli
    ensures v == RevertAndForget(w, keys)
  {
    var keysToRemove: seq<string> := [];
    v := w;
    for i := 0 to |keys|
      invariant RevertEntries(w, keys[..i]) == Reverted(v, keysToRemove)
    {
      assert keys[..i + 1][..i] == keys[..i];
      var reverted := RevertEntry(v, w.cli[keys[i]]);
      if reverted.Some? {
        v := reverted.value;
        keysToRemove := keysToRemove + [keys[i]];
      }
    }
    assert keys[..|keys|] == keys;
    var left, _ := CliState.RunMutation(w.cli, CliState.Remove(keysToRemove));
    if left.Some? {
      v := v.(cli := left.value);
    }
  }

  // ---------- runs of both modes ----------

  /** A pass that stops after at most n steps, by a crash or at its end. */
  ghost function Steps(m: Machine, n: nat): Machine
    decreases n
  {
    if n == 0 || m.worker.Idle? then m else Steps(Step(m), n - 1)
  }

  datatype Deed =
    | PassOf(c: Component, steps: nat)
    | User(move: Move)
    | PatchByCli(target: Component, currentTag: string, tag: string, confirmed: bool)
    | ReconcileByCli(component: Component, stale: seq<string>, current: seq<string>, approved: bool)

  /** What users and the surroundings may do: anything but change the record of CLI patches. */
  ghost predicate CanDo(w: World, deed: Deed) {
    match deed
    case PassOf(c, _) => c in w.patches
    case User(move) =>
      (match move
       case OnPatch(_, _) => true
       case WriteConfig(_, _) => CanMove(Machine(w, Idle), move)
       case DeleteConfig(_) => true
       case Around(_, _, cli) => cli == w.cli
       case _ => false)
    case PatchByCli(_, _, _, _) => true
    case ReconcileByCli(c, stale, current, _) => Lists(w, c, stale, true) && Lists(w, c, current, false)
  }

  ghost function Done(w: World, deed: Deed): World
    requires CanDo(w, deed)
  {
    match deed
    case PassOf(c, n) => Steps(After(Machine(w, Idle), StartPass(c)), n).world
    case User(move) => After(Machine(w, Idle), move).world
    case PatchByCli(c, currentTag, tag, confirmed) => ImagePatchCommand(w, c, currentTag, tag, confirmed)
    case ReconcileByCli(c, stale, current, approved) => ImageReconcileCommand(w, c, stale, current, approved)
  }

  ghost predicate Does(run: seq<World>, deeds: seq<Deed>, i: nat)
    requires i < |deeds| < |run|
  {
    CanDo(run[i], deeds[i]) && run[i + 1] == Done(run[i], deeds[i])
  }

  ghost predicate IsHistory(run: seq<World>, deeds: seq<Deed>) {
    |run| == |deeds| + 1 && Initial(Machine(run[0], Idle)) && run[0].cli == map[] &&
      forall i | 0 <= i < |deeds| :: Does(run, deeds, i)
  }

  // ---------- the invariant ----------

  ghost predicate Unmanaged(w: World) { forall c :: Managed(w, c) == "" }

  /** Marks of the controller, or a record of CLI patches, but not both. */
  ghost predicate Exclusive(w: World) { w.cli != map[] ==> Unmanaged(w) }

  ghost predicate Healthy(w: World) { Inv(Machine(w, Idle)) && Exclusive(w) }

  /** While CLI patches exist, a pass does not get past its gates. */
  lemma {:induction false} GatedSteps(m: Machine, n: nat)
    requires Inv(m) && Unmanaged(m.world) && m.world.cli != map[]
    requires m.worker.Busy? ==> BeforeCli(m.worker.pc)
    ensures Unmanaged(Steps(m, n).world) && Inv(Steps(m, n)) && Steps(m, n).world.cli == m.world.cli
    decreases n
  {
    if n > 0 && m.worker.Busy? {
      WorkerStepKeeps(m);
      StepMarkFrom(m);
      GatedStep(m);
      assert Unmanaged(Step(m).world) by {
        forall c ensures Managed(Step(m).world, c) == "" {
          assert MarkFrom(m.world, Step(m).world, m.worker, c);
        }
      }
      GatedSteps(Step(m), n - 1);
    }
  }

  predicate BeforeCli(pc: Pc) { CheckedVersion(pc).None? && !pc.ReadingVersion? && !pc.ReadingChart? && !pc.Reverting? }

  lemma GatedStep(m: Machine)
    requires m.worker.Busy? && BeforeCli(m.worker.pc) && m.world.cli != map[]
    ensures Step(m).world.cli == m.world.cli && (Step(m).worker.Busy? ==> BeforeCli(Step(m).worker.pc))
  {
    StepKeepsCli(m);
    if Reads(m.worker.pc) { GatedRead(m); } else { GatedWrite(m); }
  }

  lemma GatedRead(m: Machine)
    requires m.worker.Busy? && Reads(m.worker.pc) && BeforeCli(m.worker.pc) && m.world.cli != map[]
    ensures Step(m).worker.Busy? ==> BeforeCli(Step(m).worker.pc)
  {
  }

  lemma GatedWrite(m: Machine)
    requires m.worker.Busy? && !Reads(m.worker.pc) && BeforeCli(m.worker.pc)
    ensures Step(m).worker.Busy? ==> BeforeCli(Step(m).worker.pc)
  {
  }

  lemma {:induction false} StepsKeep(m: Machine, n: nat)
    requires Inv(m)
    ensures Inv(Steps(m, n)) && Steps(m, n).world.cli == m.world.cli
    decreases n
  {
    if n > 0 && m.worker.Busy? {
      WorkerStepKeeps(m);
      StepKeepsCli(m);
      StepsKeep(Step(m), n - 1);
    }
  }

  lemma StepKeepsCli(m: Machine)
    requires m.worker.Busy?
    ensures Step(m).world.cli == m.world.cli
  {
    if Reads(m.worker.pc) { ReadsChangeNothing(m); } else { WritesKeepCli(m); }
  }

  lemma WritesKeepCli(m: Machine)
    requires m.worker.Busy? && !Reads(m.worker.pc)
    ensures Step(m).world.cli == m.world.cli
  {
  }

  // ---------- what keeps the invariant ----------

  lemma PassKeepsHealthy(w: World, c: Component, n: nat)
    requires Healthy(w) && c in w.patches
    ensures Healthy(Steps(After(Machine(w, Idle), StartPass(c)), n).world)
  {
    var m := After(Machine(w, Idle), StartPass(c));
    OtherMoveKeeps(Machine(w, Idle), StartPass(c));
    StepsKeep(m, n);
    OtherMoveKeeps(Steps(m, n), Crash);
    if w.cli != map[] {
      SameConfigsSameMarks(w, m.world);
      GatedSteps(m, n);
    }
  }

  lemma UserKeepsHealthy(w: World, move: Move)
    requires Healthy(w) && CanDo(w, User(move))
    ensures Healthy(After(Machine(w, Idle), move).world)
  {
    OtherMoveKeeps(Machine(w, Idle), move);
    OtherMoveShrinks(Machine(w, Idle), move);
  }

  /** Rewriting the values of a HelmChartConfig sets no mark. */
  lemma RewriteKeeps(w: World, c: Component, config: Config)
    requires Inv(Machine(w, Idle)) && UserConfig(ConfigOf(w, c), config)
    ensures Inv(Machine(PutConfig(w, c, config), Idle))
    ensures Unmanaged(w) ==> Unmanaged(PutConfig(w, c, config))
  {
    var move := WriteConfig(Chart(c), config);
    OtherMoveKeeps(Machine(w, Idle), move);
    OtherMoveShrinks(Machine(w, Idle), move);
    assert After(Machine(w, Idle), move).world == PutConfig(w, c, config);
  }

  lemma RecordKeeps(w: World, cli: CliState.State)
    requires Inv(Machine(w, Idle)) && Unmanaged(w)
    ensures Healthy(w.(cli := cli))
  {
    OtherMoveKeeps(Machine(w, Idle), Around(w.version, w.out, cli));
    SameConfigsSameMarks(w, w.(cli := cli));
  }

  lemma ImagePatchKeeps(w: World, c: Component, currentTag: string, target: string, confirmed: bool)
    requires Healthy(w)
    ensures Healthy(ImagePatchCommand(w, c, currentTag, target, confirmed))
  {
    if w.patches == map[] {
      var config := MergedOnly(ConfigOf(w, c), w.out.generated(c, target));
      var v := PutConfig(w, c, config);
      assert Unmanaged(w) by {
        forall d ensures Managed(w, d) == "" {
          assert Managed(w, d) != "" ==> Held(w, d);
        }
      }
      RewriteKeeps(w, c, config);
      RecordKeeps(v, v.cli);
      PatchedAndRecorded(w, v, c, PatchRecord(w, c, currentTag, target));
    }
  }

  lemma PatchedAndRecorded(w: World, v: World, c: Component, record: CliState.Mutation)
    requires Inv(Machine(v, Idle)) && Unmanaged(v)
    ensures Healthy(match CliState.Mutate(w.cli, record) case None => v case Some(cli) => v.(cli := cli))
  {
    match CliState.Mutate(w.cli, record)
    case None => RecordKeeps(v, v.cli);
    case Some(cli) => RecordKeeps(v, cli);
  }

  lemma {:induction false} RevertsKeep(w: World, keys: seq<string>)
    requires Inv(Machine(w, Idle)) && Unmanaged(w) && forall k | k in keys :: k in w.cli
    ensures Inv(Machine(RevertEntries(w, keys).world, Idle)) && Unmanaged(RevertEntries(w, keys).world)
    decreases |keys|
  {
    if keys != [] {
      var before := RevertEntries(w, keys[..|keys| - 1]);
      RevertsKeep(w, keys[..|keys| - 1]);
      if RevertEntry(before.world, w.cli[keys[|keys| - 1]]).Some? {
        RevertKeeps(before.world, w.cli[keys[|keys| - 1]]);
      }
    }
  }

  lemma RevertKeeps(w: World, entry: CliState.Entry)
    requires Inv(Machine(w, Idle)) && Unmanaged(w) && RevertEntry(w, entry).Some?
    ensures Inv(Machine(RevertEntry(w, entry).value, Idle)) && Unmanaged(RevertEntry(w, entry).value)
  {
    var config := ConfigOf(w, entry.component).value;
    RewriteKeeps(w, entry.component, config.(values := Subtract(config.values, entry.values.value)));
  }

  lemma ForgetKeeps(w: World, keys: seq<string>)
    requires Inv(Machine(w, Idle)) && Unmanaged(w) && forall k | k in keys :: k in w.cli
    ensures Healthy(RevertAndForget(w, keys))
  {
    var r := RevertEntries(w, keys);
    RevertsKeep(w, keys);
    RecordKeeps(r.world, r.world.cli);
    PatchedAndRecorded(w, r.world, Traefik, CliState.Remove(r.done));
  }

  /** Without a record of CLI patches there is nothing for image-reconcile to do. */
  lemma NothingRecorded(w: World, c: Component, stale: seq<string>, current: seq<string>, confirmed: bool)
    requires Lists(w, c, stale, true) && Lists(w, c, current, false) && w.cli == map[]
    ensures ImageReconcileCommand(w, c, stale, current, confirmed) == w
  {
    HasElement(stale);
    HasElement(current);
  }

  lemma HasElement(s: seq<string>)
    ensures s == [] || exists k :: k in s
  {
    if s != [] {
      assert s[0] in s;
    }
  }

  lemma ImageReconcileKeeps(w: World, c: Component, stale: seq<string>, current: seq<string>, confirmed: bool)
    requires Healthy(w) && Lists(w, c, stale, true) && Lists(w, c, current, false)
    ensures Healthy(ImageReconcileCommand(w, c, stale, current, confirmed))
  {
    if w.cli == map[] {
      NothingRecorded(w, c, stale, current, confirmed);
    } else if stale != [] {
      ForgetKeeps(w, stale);
    } else if confirmed {
      ForgetKeeps(w, current);
    }
  }

  // ---------- what follows ----------

  /** In every history, whatever passes, crashes, users and CLI commands do, only one mode has patches. */
  lemma {:induction false} ModesExclude(run: seq<World>, deeds: seq<Deed>, k: nat)
    requires IsHistory(run, deeds) && k < |run|
    ensures Healthy(run[k])
    ensures run[k].cli == map[] || forall c :: Managed(run[k], c) == ""
    decreases k
  {
    if k > 0 {
      ModesExclude(run, deeds, k - 1);
      assert Does(run, deeds, k - 1);
      match deeds[k - 1]
      case PassOf(c, n) => PassKeepsHealthy(run[k - 1], c, n);
      case User(move) => UserKeepsHealthy(run[k - 1], move);
      case PatchByCli(c, currentTag, tag, confirmed) => ImagePatchKeeps(run[k - 1], c, currentTag, tag, confirmed);
      case ReconcileByCli(c, stale, current, approved) => ImageReconcileKeeps(run[k - 1], c, stale, current, approved);
    } else {
      StartsHealthy(run[0]);
    }
  }

  lemma StartsHealthy(w: World)
    requires Initial(Machine(w, Idle)) && w.cli == map[]
    ensures Healthy(w)
  {
    forall c ensures Managed(w, c) == "" {
    }
  }

  /** image-reconcile never touches the values of a component that the controller manages. */
  lemma ReconcileSparesTheController(run: seq<World>, deeds: seq<Deed>, k: nat, c: Component)
    requires IsHistory(run, deeds) && k < |deeds| && deeds[k].ReconcileByCli?
    requires Managed(run[k], c) != ""
    ensures run[k + 1] == run[k]
  {
    ModesExclude(run, deeds, k);
    assert Does(run, deeds, k);
    NothingRecorded(run[k], deeds[k].component, deeds[k].stale, deeds[k].current, deeds[k].approved);
  }

  /** The first image-patch of a component, and image-reconcile after it, leave the user's values and no record. */
  lemma ReconcileUndoesPatch(w: World, v: World, c: Component, currentTag: string, target: string, stale: seq<string>,
      current: seq<string>)
    requires w.cli == map[] && v == ImagePatchCommand(w, c, currentTag, target, true) && v.cli != map[]
    requires Lists(v, c, stale, true) && Lists(v, c, current, false)
    ensures var u := ImageReconcileCommand(v, c, stale, current, true);
            u.cli == map[] && ConfigOf(u, c).Some? &&
            ConfigOf(u, c).value.values == Subtract(ValuesOf(ConfigOf(w, c)), w.out.generated(c, target))
  {
    var generated := w.out.generated(c, target);
    var key := CliState.EntryKey(w.version, c);
    assert v.cli == map[key := PatchRecord(w, c, currentTag, target).entry];
    OnlyKey(v, c, key, stale, current);
    assert generated == Generated(w.out.running(c), c, target);
    GeneratedShape(c, WithoutRegistry(match w.out.running(c) case Some(name) => name case None => Repository(c)),
      target);
    RevertAfterPatch(ValuesOf(ConfigOf(w, c)), generated, generated);
    OneReverted(v, c, key);
  }

  /** With one entry recorded, image-reconcile has one key to work on. */
  lemma OnlyKey(v: World, c: Component, key: string, stale: seq<string>, current: seq<string>)
    requires v.cli.Keys == {key} && v.cli[key].component == c
    requires Lists(v, c, stale, true) && Lists(v, c, current, false)
    ensures (stale == [key] && current == []) || (stale == [] && current == [key])
  {
    HasElement(stale);
    HasElement(current);
    SingleKey(stale, key);
    SingleKey(current, key);
  }

  lemma SingleKey(keys: seq<string>, key: string)
    requires Distinct(keys) && forall k :: k in keys ==> k == key
    ensures key in keys ==> keys == [key]
  {
    HasTwo(keys);
  }

  lemma HasTwo(keys: seq<string>)
    requires Distinct(keys)
    ensures |keys| <= 1 || exists a, b :: a in keys && b in keys && a != b
  {
    if |keys| > 1 {
      assert keys[0] in keys && keys[1] in keys;
    }
  }

  lemma OneReverted(v: World, c: Component, key: string)
    requires v.cli.Keys == {key} && v.cli[key].component == c && v.cli[key].values.Some? && ConfigOf(v, c).Some?
    ensures RevertAndForget(v, [key]).cli == map[] && ConfigOf(RevertAndForget(v, [key]), c).Some?
    ensures ConfigOf(RevertAndForget(v, [key]), c).value.values ==
            Subtract(ValuesOf(ConfigOf(v, c)), v.cli[key].values.value)
  {
    var r := RevertEntries(v, [key]);
    assert [key][..0] == [];
    assert RevertEntries(v, []) == Reverted(v, []);
    assert r.done == [] + [key] == [key];
    assert key in r.done;
  }
}
