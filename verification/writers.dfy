/** Any number of writers running Update on one ConfigMap at the same time, call by call. */
module Writers {
  import opened Text
  import opened CliState

  /** Where a writer's Update call stands. at is the length of the log when it loaded. */
  datatype Pc =
    | Loading
    | Comparing(next: State, carried: Mutation, expected: Option<nat>, at: nat)
    | Creating(next: State, carried: Mutation, at: nat)
    | Updating(next: State, carried: Mutation, rv: nat, at: nat)

  datatype Writer =
    | Resting
    | Calling(mu: Mutation, attempt: nat, start: nat, pc: Pc)
    | Ended(result: Result, start: nat)

  datatype System = System(stored: Option<ConfigMap>, clock: nat, log: seq<Event>, writers: nat -> Writer)

  /** Writers start, go on and give up; others write the ConfigMap without changing the record, or delete it. */
  datatype Move = Start(id: nat, mu: Mutation) | StepOf(writer: nat) | Abandon(who: nat) | AnnotateMap | DeleteMap

  function Set(s: System, id: nat, w: Writer): System {
    s.(writers := (i: nat) => if i == id then w else s.writers(i))
  }

  /** A conflict: another attempt, or the end of the last one. */
  function Retry(w: Writer): Writer
    requires w.Calling? && !w.pc.Loading?
  {
    if w.attempt + 1 < UPDATE_ATTEMPTS then Calling(w.pc.carried, w.attempt + 1, w.start, Loading)
    else Ended(AfterRetries, w.start)
  }

  function Written(s: System, id: nat, w: Writer): System
    requires w.Calling? && !w.pc.Loading?
  {
    Set(System(Some(ConfigMap(Some(w.pc.next), s.clock)), s.clock + 1, s.log + [Commit(id, w.mu)], s.writers), id,
        Ended(Committed, w.start))
  }

  function StepWriter(s: System, id: nat): System
    requires s.writers(id).Calling?
  {
    var w := s.writers(id);
    match w.pc
    case Loading =>
      var state := Content(s.stored);
      (match Mutate(state, w.mu)
       case None => Set(s, id, Ended(Unchanged, w.start))
       case Some(next) =>
         var expected := if s.stored.Some? then Some(s.stored.value.rv) else None;
         Set(s, id, w.(pc := Comparing(next, Carried(state, w.mu), expected, |s.log|))))
    case Comparing(next, carried, expected, at) =>
      if s.stored.None? then
        if expected.Some? then Set(s, id, Retry(w)) else Set(s, id, w.(pc := Creating(next, carried, at)))
      else if expected != Some(s.stored.value.rv) then Set(s, id, Retry(w))
      else Set(s, id, w.(pc := Updating(next, carried, s.stored.value.rv, at)))
    case Creating(_, _, _) => if s.stored.Some? then Set(s, id, Retry(w)) else Written(s, id, w)
    case Updating(_, _, rv, _) =>
      if s.stored.None? then Set(s, id, Ended(Failed, w.start))
      else if s.stored.value.rv != rv then Set(s, id, Retry(w))
      else Written(s, id, w)
  }

  predicate CanMove(s: System, move: Move) {
    match move
    case StepOf(id) => s.writers(id).Calling?
    case Start(id, _) => !s.writers(id).Calling?
    case _ => true
  }

  function After(s: System, move: Move): System
    requires CanMove(s, move)
  {
    match move
    case Start(id, mu) => Set(s, id, Calling(mu, 0, |s.log|, Loading))
    case StepOf(id) => StepWriter(s, id)
    case Abandon(id) => Set(s, id, Resting)
    case AnnotateMap =>
      if s.stored.Some?
      then s.(stored := Some(s.stored.value.(rv := s.clock)), clock := s.clock + 1, log := s.log + [Annotate])
      else s
    case DeleteMap => if s.stored.Some? then s.(stored := None, log := s.log + [Erase]) else s
  }

  ghost predicate Initial(s: System) {
    s.stored.None? && s.log == [] && forall id :: s.writers(id) == Resting
  }

  ghost predicate IsRun(run: seq<System>, moves: seq<Move>) {
    |run| == |moves| + 1 && Initial(run[0]) &&
    forall i | 0 <= i < |moves| :: CanMove(run[i], moves[i]) && run[i + 1] == After(run[i], moves[i])
  }

  // ---------- the invariant ----------

  predicate Foreign(log: seq<Event>, id: nat, from: nat) {
    from <= |log| && forall k :: from <= k < |log| ==> log[k].Commit? ==> log[k].who != id
  }

  function VersionOf(stored: Option<ConfigMap>): Option<nat> { if stored.Some? then Some(stored.value.rv) else None }

  /** The next state was computed from what is stored, unless that has changed since. */
  predicate PcOk(s: System, w: Writer)
    requires w.Calling?
  {
    match w.pc
    case Loading => w.start + w.attempt <= |s.log|
    case Comparing(next, _, expected, at) =>
      w.start + w.attempt <= at <= |s.log| && (at == |s.log| ==> expected == VersionOf(s.stored)) &&
        ComputedFrom(s, w.mu, next, expected)
    case Creating(next, _, at) =>
      w.start + w.attempt <= at <= |s.log| && (at == |s.log| ==> s.stored.None?) && ComputedFrom(s, w.mu, next, None)
    case Updating(next, _, rv, at) =>
      w.start + w.attempt <= at <= |s.log| && (at == |s.log| ==> VersionOf(s.stored) == Some(rv)) &&
        ComputedFrom(s, w.mu, next, Some(rv))
  }

  predicate ComputedFrom(s: System, mu: Mutation, next: State, expected: Option<nat>) {
    match expected
    case None => Mutate(map[], mu) == Some(next)
    case Some(rv) => rv < s.clock && (VersionOf(s.stored) == expected ==> Mutate(Content(s.stored), mu) == Some(next))
  }

  predicate WriterOk(s: System, id: nat, w: Writer) {
    match w
    case Resting => true
    case Calling(_, attempt, start, _) => attempt < UPDATE_ATTEMPTS && Foreign(s.log, id, start) && PcOk(s, w)
    case Ended(result, start) =>
      start <= |s.log| && (result == AfterRetries ==> |s.log| >= start + UPDATE_ATTEMPTS && Foreign(s.log, id, start))
  }

  ghost predicate Inv(s: System) {
    Content(s.stored) == Fold(s.log) && (s.stored.Some? ==> s.stored.value.rv < s.clock) &&
    forall id :: WriterOk(s, id, s.writers(id))
  }

  // ---------- every move keeps it ----------

  /** Nothing happened, or one event of someone else: the ConfigMap is gone, or has a version never seen before. */
  predicate Changed(s: System, t: System, id: nat) {
    (t.stored == s.stored && t.log == s.log && t.clock == s.clock) ||
    (|t.log| == |s.log| + 1 && t.log[..|s.log|] == s.log && s.clock <= t.clock &&
     (t.log[|s.log|].Commit? ==> t.log[|s.log|].who != id) &&
     (t.stored.None? || t.stored.value.rv >= s.clock))
  }

  lemma OthersStayOk(s: System, t: System, id: nat, w: Writer)
    requires WriterOk(s, id, w) && Changed(s, t, id)
    ensures WriterOk(t, id, w)
  {
    assert forall k :: 0 <= k < |s.log| ==> t.log[..|s.log|][k] == t.log[k];
  }

  lemma WrittenKeeps(s: System, id: nat, w: Writer)
    requires Inv(s) && s.writers(id) == w && w.Calling? && !w.pc.Loading?
    requires Mutate(Content(s.stored), w.mu) == Some(w.pc.next)
    ensures Inv(Written(s, id, w))
  {
    var t := Written(s, id, w);
    FoldAppend(s.log, Commit(id, w.mu));
    assert t.log[..|s.log|] == s.log;
    forall other ensures WriterOk(t, other, t.writers(other)) {
      if other != id {
        OthersStayOk(s, t, other, s.writers(other));
      }
    }
  }

  /** The ConfigMap stays and one writer moves on. */
  lemma SetKeeps(s: System, id: nat, w: Writer)
    requires Inv(s) && WriterOk(s, id, w)
    ensures Inv(Set(s, id, w))
  {
    var t := Set(s, id, w);
    forall other ensures WriterOk(t, other, t.writers(other)) {
      OthersStayOk(s, t, other, t.writers(other));
    }
  }

  lemma StepKeeps(s: System, id: nat)
    requires Inv(s) && s.writers(id).Calling?
    ensures Inv(StepWriter(s, id))
  {
    var w := s.writers(id);
    assert WriterOk(s, id, w);
    var t := StepWriter(s, id);
    if t.stored == s.stored && t.log == s.log {
      SetKeeps(s, id, t.writers(id));
      assert t == Set(s, id, t.writers(id));
    } else {
      WrittenKeeps(s, id, w);
    }
  }

  lemma OutsiderKeeps(s: System, move: Move)
    requires Inv(s) && (move.AnnotateMap? || move.DeleteMap?)
    ensures Inv(After(s, move))
  {
    OutsiderFolds(s, move);
    forall id ensures Changed(s, After(s, move), id) {
      OutsiderChanges(s, move, id);
    }
    WritersStayOk(s, After(s, move));
  }

  lemma OutsiderFolds(s: System, move: Move)
    requires Content(s.stored) == Fold(s.log) && (s.stored.Some? ==> s.stored.value.rv < s.clock)
    requires move.AnnotateMap? || move.DeleteMap?
    ensures var t := After(s, move);
            Content(t.stored) == Fold(t.log) && (t.stored.Some? ==> t.stored.value.rv < t.clock) &&
              t.writers == s.writers
  {
    FoldAppend(s.log, if move.AnnotateMap? then Annotate else Erase);
  }

  lemma OutsiderChanges(s: System, move: Move, id: nat)
    requires move.AnnotateMap? || move.DeleteMap?
    ensures Changed(s, After(s, move), id)
  {
    var t := After(s, move);
    assert s.stored.Some? ==> t.log[..|s.log|] == s.log;
  }

  lemma WritersStayOk(s: System, t: System)
    requires (forall id :: WriterOk(s, id, s.writers(id))) && (forall id :: Changed(s, t, id)) && t.writers == s.writers
    ensures forall id :: WriterOk(t, id, t.writers(id))
  {
    forall id ensures WriterOk(t, id, t.writers(id)) {
      OthersStayOk(s, t, id, s.writers(id));
    }
  }

  lemma {:induction false} RunsKeep(run: seq<System>, moves: seq<Move>, k: nat)
    requires IsRun(run, moves) && k < |run|
    ensures Inv(run[k])
    decreases k
  {
    if k > 0 {
      RunsKeep(run, moves, k - 1);
      match moves[k - 1]
      case StepOf(id) => StepKeeps(run[k - 1], id);
      case AnnotateMap => OutsiderKeeps(run[k - 1], AnnotateMap);
      case DeleteMap => OutsiderKeeps(run[k - 1], DeleteMap);
      case Start(id, mu) => SetKeeps(run[k - 1], id, Calling(mu, 0, |run[k - 1].log|, Loading));
      case Abandon(id) => SetKeeps(run[k - 1], id, Resting);
    }
  }

  // ---------- what follows ----------

  /** No lost update: whatever interleaves, the ConfigMap holds the committed mutations in commit order. */
  lemma NoLostUpdate(run: seq<System>, moves: seq<Move>, k: nat)
    requires IsRun(run, moves) && k < |run|
    ensures Content(run[k].stored) == Fold(run[k].log)
  {
    RunsKeep(run, moves, k);
  }

  /** A call that gives up after its retries has seen at least five foreign changes since it started. */
  lemma GivingUpMeansContention(run: seq<System>, moves: seq<Move>, k: nat, id: nat)
    requires IsRun(run, moves) && k < |run|
    requires run[k].writers(id).Ended? && run[k].writers(id).result == AfterRetries
    ensures var start := run[k].writers(id).start;
            |run[k].log| >= start + 5 && Foreign(run[k].log, id, start)
  {
    RunsKeep(run, moves, k);
    assert WriterOk(run[k], id, run[k].writers(id));
  }

  lemma {:induction false} LogsGrow(run: seq<System>, moves: seq<Move>, i: nat, k: nat)
    requires IsRun(run, moves) && i <= k < |run|
    ensures |run[i].log| <= |run[k].log| && run[k].log[..|run[i].log|] == run[i].log
    decreases k
  {
    if i < k {
      LogsGrow(run, moves, i, k - 1);
      var s, t := run[k - 1], run[k];
      assert t.log == s.log || (|t.log| == |s.log| + 1 && t.log[..|s.log|] == s.log);
      assert t.log[..|run[i].log|] == t.log[..|s.log|][..|run[i].log|];
    }
  }

  /** The events between two states of a run. */
  function Since(s: System, t: System): seq<Event> { if |s.log| <= |t.log| then t.log[|s.log|..] else [] }

  /** Along a run a recorded baseline tag changes only after its entry was removed. */
  lemma BaselinesStay(run: seq<System>, moves: seq<Move>, i: nat, k: nat, key: string)
    requires IsRun(run, moves) && i <= k < |run| && HasBaseline(Content(run[i].stored), key)
    requires forall e | e in Since(run[i], run[k]) :: !Drops(e, key)
    ensures HasBaseline(Content(run[k].stored), key)
    ensures Content(run[k].stored)[key].baselineTag == Content(run[i].stored)[key].baselineTag
  {
    NoLostUpdate(run, moves, i);
    NoLostUpdate(run, moves, k);
    LogsGrow(run, moves, i, k);
    var n := |run[i].log|;
    BaselineIsSticky(run[i].log, run[k].log[n..], key);
    assert run[k].log == run[k].log[..n] + run[k].log[n..];
  }

  // ---------- a call that nobody gets in the way of ----------

  /** The three steps of an attempt, one right after the other. */
  function Attempted(s: System, id: nat): System
    requires s.writers(id).Calling? && s.writers(id).pc.Loading? && Mutate(Content(s.stored), s.writers(id).mu).Some?
  {
    StepWriter(StepWriter(StepWriter(s, id), id), id)
  }

  /** Without others, an attempt commits its mutation; or it ends at once if there is nothing to change. */
  lemma UndisturbedCommits(s: System, id: nat)
    requires s.writers(id).Calling? && s.writers(id).pc.Loading?
    ensures var w := s.writers(id);
            match Mutate(Content(s.stored), w.mu)
            case None => StepWriter(s, id) == Set(s, id, Ended(Unchanged, w.start))
            case Some(next) =>
              var t := Attempted(s, id);
              t.stored.Some? && t.stored.value.data == Some(next) && t.log == s.log + [Commit(id, w.mu)] &&
              t.writers(id) == Ended(Committed, w.start)
  {
  }

  /** A call fails exactly when the ConfigMap it is about to update has been deleted. */
  lemma FailsIff(s: System, id: nat)
    requires s.writers(id).Calling?
    ensures (StepWriter(s, id).writers(id).Ended? && StepWriter(s, id).writers(id).result == Failed) <==>
            s.writers(id).pc.Updating? && s.stored.None?
  {
  }
}
