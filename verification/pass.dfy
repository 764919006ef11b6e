/** A pass that nothing interrupts: running its steps one by one gives the closed form AfterPass. */
module Pass {
  import opened Text
  import opened Values
  import opened Comparison
  import opened Components
  import opened Patcher
  import opened Policy
  import opened Cluster
  import opened Protocol
  import opened Safety

  // ---------- running a pass to its end ----------

  function Rank(pc: Pc): nat {
    match pc
    case Fetched => 17
    case AddingFinalizer => 16
    case CheckingPrime => 15
    case CheckingCli => 14
    case ReadingVersion => 13
    case ReadingChart(_) => 12
    case ReadingConfig(_, _) => 11
    case ClearingMarker(_, _, _) => 10
    case RecordingMarker(_, _, _) => 9
    case ReadingImages(_, _, _) => 8
    case CheckingStale(_, _, _, _, _, _) => 7
    case CheckingTarget(_, _, _, _) => 6
    case Applying(_, _, _, _) => 5
    case Reverting(_, _) => 4
    case WritingStatus(_, _) => 3
    case ReadingForFinalize => 2
    case FinalizeReverting(_) => 1
    case RemovingFinalizer => 0
  }

  function Remaining(pc: Pc): nat { if pc.CheckingStale? then |pc.todo| else 0 }

  /** Every step brings the pass closer to its end. */
  lemma StepDescends(m: Machine)
    requires m.worker.Busy?
    ensures var n := Step(m);
            n.worker.Busy? ==>
              Rank(n.worker.pc) < Rank(m.worker.pc) ||
              (Rank(n.worker.pc) == Rank(m.worker.pc) && Remaining(n.worker.pc) < Remaining(m.worker.pc))
  {
    if Reads(m.worker.pc) { ReadDescends(m); } else { WriteDescends(m); }
  }

  lemma ReadDescends(m: Machine)
    requires m.worker.Busy? && Reads(m.worker.pc)
    ensures var n := Step(m);
            n.worker.Busy? ==>
              Rank(n.worker.pc) < Rank(m.worker.pc) ||
              (Rank(n.worker.pc) == Rank(m.worker.pc) && Remaining(n.worker.pc) < Remaining(m.worker.pc))
  {
  }

  lemma WriteDescends(m: Machine)
    requires m.worker.Busy? && !Reads(m.worker.pc)
    ensures Step(m).worker.Busy? ==> Rank(Step(m).worker.pc) < Rank(m.worker.pc)
  {
  }

  /** The steps of the worker, one after the other, until it is idle. */
  ghost function RunPass(m: Machine): (end: Machine)
    ensures end.worker.Idle?
    decreases m.worker.Busy?, if m.worker.Busy? then Rank(m.worker.pc) else 0,
              if m.worker.Busy? then Remaining(m.worker.pc) else 0
  {
    if m.worker.Idle? then m
    else
      StepDescends(m);
      RunPass(Step(m))
  }

  /** What the rest of the pass for c does from a point on, its copy of the ImagePatch being current. */
  ghost function Finish(w: World, c: Component, pc: Pc): World
    requires c in w.patches
  {
    RunPass(Machine(w, Busy(c, w.patches[c], pc))).world
  }

  // ---------- the stages, last to first ----------

  lemma FinishStatus(w: World, c: Component, outcome: Outcome, tag: string)
    requires c in w.patches
    ensures Finish(w, c, WritingStatus(outcome, tag)) == RecordTag(w, c, tag)
  {
    var m := Machine(w, Busy(c, w.patches[c], WritingStatus(outcome, tag)));
    assert Step(m) == Machine(RecordTag(w, c, tag), Idle);
    assert RunPass(m) == RunPass(Step(m));
  }

  lemma FinishRevert(w: World, c: Component, outcome: Outcome)
    requires c in w.patches && ConfigOf(w, c).Some?
    ensures Finish(w, c, Reverting(outcome, ConfigOf(w, c))) == Carry(w, c, Revert(outcome))
  {
    FinishStatus(PutConfig(w, c, Stripped(w.out, ConfigOf(w, c).value, c)), c, outcome, "");
  }

  lemma FinishApply(w: World, c: Component, baseline: string, generated: Tree)
    requires c in w.patches
    ensures Finish(w, c, Applying(w.version, baseline, ConfigOf(w, c), generated)) == Carry(w, c, Apply(generated))
  {
    FinishStatus(PutConfig(w, c, Patched(ConfigOf(w, c), c, generated, w.version)), c, Applied, w.patches[c].tag);
  }

  /** One step of a pass whose copy of the ImagePatch is current before and after. */
  lemma Chain(w: World, v: World, c: Component, pc: Pc, next: Pc)
    requires c in w.patches && c in v.patches
    requires Step(Machine(w, Busy(c, w.patches[c], pc))) == Machine(v, Busy(c, v.patches[c], next))
    ensures Finish(w, c, pc) == Finish(v, c, next)
  {
  }

  lemma FinishTarget(w: World, c: Component, baseline: string, generated: Tree, verdict: Verdict)
    requires c in w.patches && verdict == w.out.check(c, baseline, w.patches[c].appliedTag, w.patches[c].tag)
    ensures Finish(w, c, CheckingTarget(w.version, baseline, ConfigOf(w, c), generated)) ==
            Carry(w, c, DecideNew(c, ConfigOf(w, c), generated, w.patches[c].appliedTag, verdict))
  {
    var next := AfterTarget(w.patches[c], c, w.version, baseline, ConfigOf(w, c), generated, verdict);
    TargetStep(w, c, baseline, generated, verdict);
    Chain(w, w, c, CheckingTarget(w.version, baseline, ConfigOf(w, c), generated), next);
    FinishNew(w, c, baseline, generated, verdict);
  }

  lemma TargetStep(w: World, c: Component, baseline: string, generated: Tree, verdict: Verdict)
    requires c in w.patches && verdict == w.out.check(c, baseline, w.patches[c].appliedTag, w.patches[c].tag)
    ensures Step(Machine(w, Busy(c, w.patches[c], CheckingTarget(w.version, baseline, ConfigOf(w, c), generated)))) ==
            Machine(w, Busy(c, w.patches[c],
              AfterTarget(w.patches[c], c, w.version, baseline, ConfigOf(w, c), generated, verdict)))
  {
  }

  lemma FinishNew(w: World, c: Component, baseline: string, generated: Tree, verdict: Verdict)
    requires c in w.patches
    ensures Finish(w, c, AfterTarget(w.patches[c], c, w.version, baseline, ConfigOf(w, c), generated, verdict)) ==
            Carry(w, c, DecideNew(c, ConfigOf(w, c), generated, w.patches[c].appliedTag, verdict))
  {
    var tag := w.patches[c].appliedTag;
    match verdict
    case Refused(reason) => FinishStatus(w, c, Blocked(Rule(reason)), tag);
    case Allowed =>
      FinishStatus(w, c, Blocked(ConflictingOverride), tag);
      FinishApply(w, c, baseline, generated);
  }

  predicate StaleIn(w: World, todo: seq<Component>) {
    exists i :: 0 <= i < |todo| && Managed(w, todo[i]) != "" && Managed(w, todo[i]) != w.version
  }

  lemma StaleInStep(w: World, todo: seq<Component>)
    requires todo != []
    ensures StaleIn(w, todo) <==>
            (Managed(w, todo[0]) != "" && Managed(w, todo[0]) != w.version) || StaleIn(w, todo[1..])
  {
    if StaleIn(w, todo) {
      var i :| 0 <= i < |todo| && Managed(w, todo[i]) != "" && Managed(w, todo[i]) != w.version;
      assert i > 0 ==> todo[1..][i - 1] == todo[i];
    }
    if StaleIn(w, todo[1..]) {
      var i :| 0 <= i < |todo[1..]| && Managed(w, todo[1..][i]) != "" && Managed(w, todo[1..][i]) != w.version;
      assert todo[i + 1] == todo[1..][i];
    }
  }

  lemma {:induction false} FinishStale(w: World, c: Component, baseline: string, generated: Tree, todo: seq<Component>,
      found: bool)
    requires c in w.patches
    ensures var seen := ConfigOf(w, c);
            Finish(w, c, CheckingStale(w.version, baseline, seen, generated, todo, found)) ==
            if found || StaleIn(w, todo) then w else Finish(w, c, CheckingTarget(w.version, baseline, seen, generated))
    decreases |todo|
  {
    if todo == [] {
      FinishStatus(w, c, Blocked(StalePatchesExist), w.patches[c].appliedTag);
    } else {
      StaleInStep(w, todo);
      var on := Managed(w, todo[0]);
      var next := found || (on != "" && on != w.version);
      StaleStep(w, c, baseline, ConfigOf(w, c), generated, todo, found, next);
      FinishStale(w, c, baseline, generated, todo[1..], next);
    }
  }

  lemma StaleStep(w: World, c: Component, baseline: string, seen: Option<Config>, generated: Tree, todo: seq<Component>,
      found: bool, next: bool)
    requires c in w.patches && todo != []
    requires next == (found || (Managed(w, todo[0]) != "" && Managed(w, todo[0]) != w.version))
    ensures Finish(w, c, CheckingStale(w.version, baseline, seen, generated, todo, found)) ==
            Finish(w, c, CheckingStale(w.version, baseline, seen, generated, todo[1..], next))
  {
    Chain(w, w, c, CheckingStale(w.version, baseline, seen, generated, todo, found),
          CheckingStale(w.version, baseline, seen, generated, todo[1..], next));
  }

  lemma OthersAreAll(w: World, c: Component, others: seq<Component>)
    requires forall d :: d in others <==> d != c
    ensures StaleIn(w, others) <==> StaleOther(w, c)
  {
    if StaleOther(w, c) {
      var d :| d != c && Managed(w, d) != "" && Managed(w, d) != w.version;
      assert d in others;
    }
    if StaleIn(w, others) {
      var i :| 0 <= i < |others| && Managed(w, others[i]) != "" && Managed(w, others[i]) != w.version;
      assert others[i] in others;
    }
  }

  lemma FinishOthers(w: World, c: Component, baseline: string, generated: Tree, others: seq<Component>,
      verdict: Verdict)
    requires c in w.patches && forall d :: d in others <==> d != c
    requires verdict == w.out.check(c, baseline, w.patches[c].appliedTag, w.patches[c].tag)
    ensures Finish(w, c, CheckingStale(w.version, baseline, ConfigOf(w, c), generated, others, false)) ==
            if StaleOther(w, c) then w else Carry(w, c,
              DecideNew(c, ConfigOf(w, c), generated, w.patches[c].appliedTag, verdict))
  {
    FinishStale(w, c, baseline, generated, others, false);
    OthersAreAll(w, c, others);
    FinishTarget(w, c, baseline, generated, verdict);
  }

  lemma FinishAfterCompare(w: World, c: Component, baseline: string, generated: Tree, recheck: Verdict,
      verdict: Verdict)
    requires c in w.patches && verdict == w.out.check(c, baseline, w.patches[c].appliedTag, w.patches[c].tag)
    ensures var p := w.patches[c];
            Finish(w, c, AfterCompare(p, c, w.version, baseline, ConfigOf(w, c), generated, recheck)) ==
            Carry(w, c, DecidePatch(c, ConfigOf(w, c), StaleOther(w, c), p.tag, p.appliedTag, generated, recheck,
              verdict))
  {
    if Managed(w, c) != "" && Present(ValuesOf(ConfigOf(w, c)), generated) {
      match recheck
      case Allowed => FinishStatus(w, c, Steady, w.patches[c].tag);
      case Refused(reason) => FinishRevert(w, c, Overtaken(reason));
    } else {
      OthersIs(c);
      FinishOthers(w, c, baseline, generated, Others(c), verdict);
    }
  }

  lemma FinishAfterImages(w: World, c: Component, baseline: string, generated: Tree, recheck: Verdict, verdict: Verdict)
    requires c in w.patches && verdict == w.out.check(c, baseline, w.patches[c].appliedTag, w.patches[c].tag)
    ensures var p := w.patches[c];
            Finish(w, c, AfterImages(p, c, w.version, baseline, ConfigOf(w, c), generated, recheck)) ==
            Carry(w, c, DecideWith(c, ConfigOf(w, c), StaleOther(w, c), p.tag, p.appliedTag, baseline, generated,
              recheck, verdict))
  {
    if w.patches[c].tag != baseline {
      FinishAfterCompare(w, c, baseline, generated, recheck, verdict);
    } else if Managed(w, c) != "" {
      FinishRevert(w, c, AtBaseline);
    } else {
      FinishStatus(w, c, AtBaseline, "");
    }
  }

  lemma ImagesStep(w: World, c: Component, baseline: string, generated: Tree, recheck: Verdict)
    requires c in w.patches && generated == w.out.generated(c, w.patches[c].tag) &&
             recheck == w.out.recheck(baseline, w.patches[c].tag)
    ensures Step(Machine(w, Busy(c, w.patches[c], ReadingImages(w.version, baseline, ConfigOf(w, c))))) ==
            Machine(w, Busy(c, w.patches[c],
              AfterImages(w.patches[c], c, w.version, baseline, ConfigOf(w, c), generated, recheck)))
  {
    var m := Machine(w, Busy(c, w.patches[c], ReadingImages(w.version, baseline, ConfigOf(w, c))));
    ReadsImages(m, w.version, baseline, ConfigOf(w, c), generated, recheck);
  }

  lemma ReadsImages(m: Machine, version: Version, baseline: string, seen: Option<Config>, generated: Tree,
      recheck: Verdict)
    requires m.worker.Busy? && m.worker.pc == ReadingImages(version, baseline, seen)
    requires generated == m.world.out.generated(m.worker.c, m.worker.copy.tag)
    requires recheck == m.world.out.recheck(baseline, m.worker.copy.tag)
    ensures Step(m) == Go(m, AfterImages(m.worker.copy, m.worker.c, version, baseline, seen, generated, recheck))
  {
  }

  lemma FinishImages(w: World, c: Component, baseline: string)
    requires c in w.patches
    ensures var p := w.patches[c];
            Finish(w, c, ReadingImages(w.version, baseline, ConfigOf(w, c))) ==
            Carry(w, c, DecideTarget(w.out, c, ConfigOf(w, c), StaleOther(w, c), p.tag, p.appliedTag, baseline))
  {
    var p := w.patches[c];
    var generated, recheck := w.out.generated(c, p.tag), w.out.recheck(baseline, p.tag);
    ImagesStep(w, c, baseline, generated, recheck);
    Chain(w, w, c, ReadingImages(w.version, baseline, ConfigOf(w, c)),
          AfterImages(p, c, w.version, baseline, ConfigOf(w, c), generated, recheck));
    FinishAfterImages(w, c, baseline, generated, recheck, w.out.check(c, baseline, p.appliedTag, p.tag));
  }

  // ---------- the marker ----------

  lemma SameStale(w: World, v: World, c: Component)
    requires v.configs == w.configs && v.version == w.version
    ensures StaleOther(v, c) <==> StaleOther(w, c)
  {
    assert forall d :: Managed(v, d) == Managed(w, d);
  }

  /** What a pass does with the gates open, when its bookkeeping starts from w. */
  ghost function FromConfig(w: World, c: Component, baseline: string): World
    requires c in w.patches
  {
    Carry(RecordMarker(ForgetMarker(w, c), c), c, DecideOpen(w, c, w.patches[c], baseline))
  }

  lemma FinishNoMarker(w: World, c: Component, baseline: string)
    requires c in w.patches && w.patches[c].marker.None?
    ensures Finish(w, c, AfterMarker(w.patches[c], c, w.version, baseline, ConfigOf(w, c))) ==
            FromConfig(w, c, baseline)
  {
    var p, seen := w.patches[c], ConfigOf(w, c);
    if !ManagedOnOldVersion(w, c) {
      FinishImages(w, c, baseline);
    } else if p.policy == Manual {
      FinishStatus(w, c, Stale, p.appliedTag);
    } else {
      FinishRecording(w, c, baseline);
    }
  }

  lemma FinishRecording(w: World, c: Component, baseline: string)
    requires c in w.patches && w.patches[c].marker.None? && ManagedOnOldVersion(w, c) &&
             w.patches[c].policy == AutoRevert
    ensures Finish(w, c, RecordingMarker(w.version, baseline, ConfigOf(w, c))) ==
            Carry(RecordMarker(w, c), c, Revert(RevertedAfterUpgrade))
  {
    var v := RecordMarker(w, c);
    assert ConfigOf(v, c) == ConfigOf(w, c);
    Chain(w, v, c, RecordingMarker(w.version, baseline, ConfigOf(w, c)),
      Reverting(RevertedAfterUpgrade, ConfigOf(w, c)));
    FinishRevert(v, c, RevertedAfterUpgrade);
  }

  lemma FinishConfig(w: World, c: Component, baseline: string)
    requires c in w.patches
    ensures Finish(w, c, ReadingConfig(w.version, baseline)) == FromConfig(w, c, baseline)
  {
    var p, seen := w.patches[c], ConfigOf(w, c);
    assert Finish(w, c, ReadingConfig(w.version, baseline)) ==
           Finish(w, c, AfterConfig(p, c, w.version, baseline, seen));
    if p.marker.None? {
      FinishNoMarker(w, c, baseline);
    } else if p.marker == Some(p.generation) {
      if ManagedOn(seen, c) != "" {
        FinishRevert(w, c, RevertedAfterUpgrade);
      } else {
        FinishStatus(w, c, RevertedAfterUpgrade, "");
      }
    } else {
      FinishClearing(w, c, baseline);
    }
  }

  predicate OldMarker(p: ImagePatch) { p.marker.Some? && p.marker != Some(p.generation) }

  lemma FinishClearing(w: World, c: Component, baseline: string)
    requires c in w.patches && OldMarker(w.patches[c])
    ensures Finish(w, c, ClearingMarker(w.version, baseline, ConfigOf(w, c))) == FromConfig(w, c, baseline)
  {
    var v := ForgetMarker(w, c);
    ClearingStep(w, v, c, baseline);
    Chain(w, v, c, ClearingMarker(w.version, baseline, ConfigOf(w, c)),
      AfterMarker(v.patches[c], c, v.version, baseline, ConfigOf(v, c)));
    FinishNoMarker(v, c, baseline);
    FromForgotten(w, v, c, baseline);
  }

  lemma ClearingStep(w: World, v: World, c: Component, baseline: string)
    requires c in w.patches && OldMarker(w.patches[c]) && v == ForgetMarker(w, c)
    ensures Step(Machine(w, Busy(c, w.patches[c], ClearingMarker(w.version, baseline, ConfigOf(w, c))))) ==
            Machine(v, Busy(c, v.patches[c], AfterMarker(v.patches[c], c, v.version, baseline, ConfigOf(v, c))))
    ensures v.patches[c].marker.None?
  {
    assert ConfigOf(v, c) == ConfigOf(w, c);
  }

  lemma FromForgotten(w: World, v: World, c: Component, baseline: string)
    requires c in w.patches && OldMarker(w.patches[c]) && v == ForgetMarker(w, c)
    ensures FromConfig(v, c, baseline) == FromConfig(w, c, baseline)
  {
    SameOpen(w, v, c, w.patches[c], v.patches[c], baseline);
  }

  /** The decision depends on the spec, the applied tag, and whether the marker is for this spec. */
  lemma SameOpen(w: World, v: World, c: Component, p: ImagePatch, q: ImagePatch, baseline: string)
    requires v.configs == w.configs && v.version == w.version && v.out == w.out
    requires q.tag == p.tag && q.appliedTag == p.appliedTag && q.policy == p.policy
    requires p.marker == Some(p.generation) <==> q.marker == Some(q.generation)
    ensures DecideOpen(v, c, q, baseline) == DecideOpen(w, c, p, baseline)
  {
    SameStale(w, v, c);
    assert Managed(v, c) == Managed(w, c) && ConfigOf(v, c) == ConfigOf(w, c);
  }

  // ---------- the gates ----------

  lemma FinishGates(w: World, c: Component)
    requires c in w.patches
    ensures Finish(w, c, CheckingPrime) == match Gate(w, c) case Shut(_) => w
            case Open(baseline) => FromConfig(w, c, baseline)
  {
    var tag := w.patches[c].appliedTag;
    if !w.out.prime(Chart(c)) {
      FinishStatus(w, c, Blocked(NotPrime), tag);
    } else {
      assert Finish(w, c, CheckingPrime) == Finish(w, c, CheckingCli);
      if w.cli != map[] {
        FinishStatus(w, c, Blocked(CLIPatchesExist), tag);
      } else {
        assert Finish(w, c, CheckingCli) == Finish(w, c, ReadingVersion);
        assert Finish(w, c, ReadingVersion) == Finish(w, c, ReadingChart(w.version));
        FinishChart(w, c, w.out.bundled(c));
      }
    }
  }

  lemma FinishChart(w: World, c: Component, bundled: Option<string>)
    requires c in w.patches && bundled == w.out.bundled(c)
    ensures Finish(w, c, ReadingChart(w.version)) == match bundled case None => w
            case Some(baseline) => FromConfig(w, c, baseline)
  {
    match bundled
    case None => FinishStatus(w, c, Blocked(ChartLayoutMismatch), w.patches[c].appliedTag);
    case Some(baseline) => FinishConfig(w, c, baseline);
  }

  // ---------- the whole pass ----------

  lemma FinishDeleted(w: World, c: Component)
    requires c in w.patches && w.patches[c].deleting
    ensures Finish(w, c, Fetched) == Finalized(w, c)
  {
    if !w.patches[c].finalizer {
      var m := Machine(w, Busy(c, w.patches[c], Fetched));
      assert Step(m) == Machine(w, Idle);
      assert RunPass(m) == RunPass(Step(m));
    } else {
      Chain(w, w, c, Fetched, ReadingForFinalize);
      FinishFinalizing(w, c);
    }
  }

  lemma FinishFinalizing(w: World, c: Component)
    requires c in w.patches && w.patches[c].finalizer
    ensures Finish(w, c, ReadingForFinalize) == Finalized(w, c)
  {
    if Managed(w, c) != "" {
      Chain(w, w, c, ReadingForFinalize, FinalizeReverting(ConfigOf(w, c)));
      FinishStripping(w, PutConfig(w, c, Stripped(w.out, ConfigOf(w, c).value, c)), c);
    } else {
      Chain(w, w, c, ReadingForFinalize, RemovingFinalizer);
      FinishRelease(w, c);
    }
  }

  lemma FinishStripping(w: World, v: World, c: Component)
    requires c in w.patches && ConfigOf(w, c).Some? && v == PutConfig(w, c, Stripped(w.out, ConfigOf(w, c).value, c))
    ensures Finish(w, c, FinalizeReverting(ConfigOf(w, c))) == DropPatch(v, c)
  {
    Chain(w, v, c, FinalizeReverting(ConfigOf(w, c)), RemovingFinalizer);
    FinishRelease(v, c);
  }

  lemma FinishRelease(w: World, c: Component)
    requires c in w.patches
    ensures Finish(w, c, RemovingFinalizer) == DropPatch(w, c)
  {
    var m := Machine(w, Busy(c, w.patches[c], RemovingFinalizer));
    assert Step(m) == Machine(DropPatch(w, c), Idle);
    assert RunPass(m) == RunPass(Step(m));
  }

  /** Step by step or all at once: an undisturbed pass ends in AfterPass, for every world and component. */
  lemma StepsMakeThePass(w: World, c: Component)
    requires c in w.patches
    ensures RunPass(After(Machine(w, Idle), StartPass(c))) == Machine(AfterPass(w, c), Idle)
  {
    var p := w.patches[c];
    if p.deleting {
      FinishDeleted(w, c);
    } else {
      FinishLive(w, c);
    }
    assert RunPass(After(Machine(w, Idle), StartPass(c))).world == Finish(w, c, Fetched);
  }

  lemma FinishLive(w: World, c: Component)
    requires c in w.patches && !w.patches[c].deleting
    ensures Finish(w, c, Fetched) == Carry(Prepared(w, c), c, Decide(w, c, w.patches[c]))
  {
    var v := AddFinalizer(w, c);
    assert !w.patches[c].finalizer ==> Finish(w, c, AddingFinalizer) == Finish(v, c, CheckingPrime);
    assert Finish(w, c, Fetched) == Finish(v, c, CheckingPrime);
    FinishGates(v, c);
    LiveIsCarry(w, v, c, Gate(w, c));
  }

  lemma LiveIsCarry(w: World, v: World, c: Component, gate: Gates)
    requires c in w.patches && v == AddFinalizer(w, c) && gate == Gate(w, c)
    ensures Gate(v, c) == gate
    ensures Carry(Prepared(w, c), c, Decide(w, c, w.patches[c])) == match gate case Shut(_) => v
            case Open(baseline) => FromConfig(v, c, baseline)
  {
    SameGate(w, v, c);
    if gate.Open? {
      OpenIsCarry(w, v, c, gate.baseline);
    } else {
      assert Prepared(w, c) == v;
    }
  }

  lemma OpenIsCarry(w: World, v: World, c: Component, baseline: string)
    requires c in w.patches && v == AddFinalizer(w, c) && Gate(w, c) == Open(baseline)
    ensures Carry(Prepared(w, c), c, Decide(w, c, w.patches[c])) == FromConfig(v, c, baseline)
  {
    SameOpen(w, v, c, w.patches[c], v.patches[c], baseline);
    PreparedBehindGate(w, v, c);
    DecidedBehindGate(w, c, baseline);
  }

  lemma PreparedBehindGate(w: World, v: World, c: Component)
    requires c in w.patches && v == AddFinalizer(w, c) && Gate(w, c).Open?
    ensures Prepared(w, c) == RecordMarker(ForgetMarker(v, c), c)
  {
  }

  lemma DecidedBehindGate(w: World, c: Component, baseline: string)
    requires c in w.patches && Gate(w, c) == Open(baseline)
    ensures Decide(w, c, w.patches[c]) == DecideOpen(w, c, w.patches[c], baseline)
  {
  }

  lemma SameGate(w: World, v: World, c: Component)
    requires v.out == w.out && v.cli == w.cli
    ensures Gate(v, c) == Gate(w, c)
  {
  }
}
