/** What one Update call commits, in a run of any number of writers: once or not at all, and with which baseline tag. */
module Calls {
  import opened Text
  import opened Components
  import opened CliState
  import opened Writers

  // ---------- the baseline tags a call sees ----------

  /** The move is a writer's load. */
  predicate Loads(s: System, move: Move, id: nat) {
    move == StepOf(id) && s.writers(id).Calling? && s.writers(id).pc.Loading?
  }

  /** The baseline tag recorded under the key of a Persist, if there is one and it is not blank. */
  function Baseline(s: System, mu: Mutation): Option<string> {
    if mu.Persist? && HasBaseline(Content(s.stored), mu.key) then Some(Content(s.stored)[mu.key].baselineTag) else None
  }

  /** The last baseline tag that the loads of a writer have found between two points of a run. */
  function Seen(run: seq<System>, moves: seq<Move>, id: nat, mu: Mutation, start: nat, k: nat): Option<string>
    requires k <= |moves| < |run|
    decreases k
  {
    if k <= start then None
    else if Loads(run[k - 1], moves[k - 1], id) && Baseline(run[k - 1], mu).Some? then Baseline(run[k - 1], mu)
    else Seen(run, moves, id, mu, start, k - 1)
  }

  /** The mutation with the baseline tag that was seen, if one was. */
  function With(mu: Mutation, seen: Option<string>): Mutation {
    if mu.Persist? && seen.Some? then mu.(entry := mu.entry.(baselineTag := seen.value)) else mu
  }

  /** From start on, the writer is in the call that the move at start began. */
  ghost predicate OneCall(run: seq<System>, moves: seq<Move>, id: nat, mu: Mutation, start: nat, k: nat) {
    IsRun(run, moves) && start < k < |run| && moves[start] == Start(id, mu) &&
      forall j | start < j < k :: GoesOn(moves[j], id)
  }

  predicate GoesOn(move: Move, id: nat) { !(move.Start? && move.id == id) && !(move.Abandon? && move.who == id) }

  // ---------- where a call stands ----------

  predicate Own(e: Event, id: nat) { e.Commit? && e.who == id }

  /** The event at p is the writer's only one since from, and is the mutation up to its baseline tag. */
  predicate OnlyAt(log: seq<Event>, id: nat, mu: Mutation, from: nat, p: nat) {
    from <= p < |log| && Own(log[p], id) && SameButBaseline(log[p].mu, mu) &&
    forall q :: from <= q < |log| && q != p ==> !Own(log[q], id)
  }

  ghost predicate Once(log: seq<Event>, id: nat, mu: Mutation, from: nat) { exists p :: OnlyAt(log, id, mu, from, p) }

  /** What the writer holds is the mutation it was started with, with the baseline tag last seen. */
  ghost predicate Standing(w: Writer, log: seq<Event>, id: nat, mu: Mutation, from: nat, seen: Option<string>) {
    match w
    case Resting => false
    case Calling(now, _, start, pc) =>
      start == from && Foreign(log, id, from) && SameButBaseline(now, mu) &&
      (if pc.Loading? then now == With(mu, seen)
       else pc.carried == With(mu, seen) &&
            (mu.Persist? ==> mu.key in pc.next && pc.next[mu.key] == With(mu, seen).entry))
    case Ended(result, start) =>
      start == from && if result == Committed then Once(log, id, mu, from) else Foreign(log, id, from)
  }

  lemma WithTwice(mu: Mutation, seen: Option<string>, state: State)
    ensures var now := With(mu, seen);
            Carried(state, now) ==
            With(mu, if mu.Persist? && HasBaseline(state, mu.key) then Some(state[mu.key].baselineTag) else seen)
    ensures SameButBaseline(With(mu, seen), mu)
  {
  }

  lemma LoadStands(s: System, id: nat, mu: Mutation, from: nat, seen: Option<string>)
    requires s.writers(id).Calling? && s.writers(id).pc.Loading? && Standing(s.writers(id), s.log, id, mu, from, seen)
    ensures var t := StepWriter(s, id);
            Standing(t.writers(id), t.log, id, mu, from, if Baseline(s, mu).Some? then Baseline(s, mu) else seen)
  {
    WithTwice(mu, seen, Content(s.stored));
  }

  lemma CommitStands(log: seq<Event>, id: nat, mu: Mutation, now: Mutation, from: nat)
    requires Foreign(log, id, from) && SameButBaseline(now, mu)
    ensures Once(log + [Commit(id, now)], id, mu, from)
  {
    assert OnlyAt(log + [Commit(id, now)], id, mu, from, |log|);
  }

  lemma StepStands(s: System, id: nat, mu: Mutation, from: nat, seen: Option<string>)
    requires s.writers(id).Calling? && !s.writers(id).pc.Loading? && Standing(s.writers(id), s.log, id, mu, from, seen)
    ensures var t := StepWriter(s, id); Standing(t.writers(id), t.log, id, mu, from, seen)
  {
    WithTwice(mu, seen, map[]);
    CommitStands(s.log, id, mu, s.writers(id).mu, from);
  }

  /** Others only add events of their own. */
  lemma OthersLeaveStanding(s: System, t: System, id: nat, mu: Mutation, from: nat, seen: Option<string>)
    requires Standing(s.writers(id), s.log, id, mu, from, seen) && t.writers(id) == s.writers(id) && Changed(s, t, id)
    ensures Standing(t.writers(id), t.log, id, mu, from, seen)
  {
    var log, more := s.log, t.log;
    assert forall q :: 0 <= q < |log| ==> more[..|log|][q] == more[q];
    if p :| OnlyAt(log, id, mu, from, p) {
      assert OnlyAt(more, id, mu, from, p);
    }
  }

  lemma OthersMove(s: System, move: Move, id: nat)
    requires CanMove(s, move) && move != StepOf(id) && GoesOn(move, id)
    requires s.stored.Some? ==> s.stored.value.rv < s.clock
    ensures After(s, move).writers(id) == s.writers(id) && Changed(s, After(s, move), id)
  {
    if move.StepOf? {
      OtherSteps(s, move.writer, id);
    }
  }

  lemma OtherSteps(s: System, other: nat, id: nat)
    requires s.writers(other).Calling? && other != id
    ensures StepWriter(s, other).writers(id) == s.writers(id) && Changed(s, StepWriter(s, other), id)
  {
  }

  /** In every run, and wherever the call stands. */
  lemma {:induction false} CallStands(run: seq<System>, moves: seq<Move>, id: nat, mu: Mutation, start: nat, k: nat)
    requires OneCall(run, moves, id, mu, start, k)
    ensures Standing(run[k].writers(id), run[k].log, id, mu, |run[start].log|, Seen(run, moves, id, mu, start, k))
    decreases k
  {
    if k > start + 1 {
      CallStands(run, moves, id, mu, start, k - 1);
      RunsKeep(run, moves, k - 1);
      var s, from, seen := run[k - 1], |run[start].log|, Seen(run, moves, id, mu, start, k - 1);
      assert GoesOn(moves[k - 1], id);
      if Loads(s, moves[k - 1], id) {
        LoadStands(s, id, mu, from, seen);
      } else if moves[k - 1] == StepOf(id) {
        StepStands(s, id, mu, from, seen);
      } else {
        OthersMove(s, moves[k - 1], id);
        OthersLeaveStanding(s, run[k], id, mu, from, seen);
      }
    }
  }

  // ---------- what follows ----------

  /**
   Once or not at all: a call that ended Committed has exactly one event of its own since it started, the
   mutation it was started with up to the baseline tag; any other call has none.
   */
  lemma CommitsOnce(run: seq<System>, moves: seq<Move>, id: nat, mu: Mutation, start: nat, k: nat)
    requires OneCall(run, moves, id, mu, start, k)
    ensures if run[k].writers(id).Ended? && run[k].writers(id).result == Committed
            then Once(run[k].log, id, mu, |run[start].log|)
            else Foreign(run[k].log, id, |run[start].log|)
  {
    CallStands(run, moves, id, mu, start, k);
  }

  /** The move commits the call of a Persist. */
  ghost predicate Commits(run: seq<System>, moves: seq<Move>, id: nat, mu: Mutation, start: nat, k: nat) {
    OneCall(run, moves, id, mu, start, k) && mu.Persist? && k < |moves| && moves[k] == StepOf(id) &&
    run[k + 1].log == run[k].log + [Commit(id, run[k].writers(id).mu)] && run[k].writers(id).Calling?
  }

  /**
   The baseline tag that a Persist records: the last one its loads have seen, or else its own. One that is
   still recorded when it commits stays.
   */
  lemma CommittedBaseline(run: seq<System>, moves: seq<Move>, id: nat, mu: Mutation, start: nat, k: nat)
    requires Commits(run, moves, id, mu, start, k)
    ensures var written := Content(run[k + 1].stored);
            mu.key in written && written[mu.key] == With(mu, Seen(run, moves, id, mu, start, k)).entry
    ensures Baseline(run[k], mu).Some? ==>
              Content(run[k + 1].stored)[mu.key].baselineTag == Baseline(run[k], mu).value
  {
    CallStands(run, moves, id, mu, start, k);
    RunsKeep(run, moves, k);
    RunsKeep(run, moves, k + 1);
    var w := run[k].writers(id);
    assert WriterOk(run[k], id, w);
    assert run[k + 1].log != run[k].log;
    WithTwice(mu, None, Content(run[k].stored));
    StoredIsNext(run[k], id, w);
  }

  lemma StoredIsNext(s: System, id: nat, w: Writer)
    requires w == s.writers(id) && w.Calling? && WriterOk(s, id, w) && StepWriter(s, id).log != s.log
    ensures !w.pc.Loading? && Content(StepWriter(s, id).stored) == w.pc.next &&
            Mutate(Content(s.stored), w.mu) == Some(w.pc.next)
  {
  }

  /** The record has no baseline tag under the key any more, and yet the call writes one that is not its own. */
  predicate Revives(before: System, after: System, mu: Mutation)
    requires mu.Persist? && mu.key in Content(after.stored)
  {
    Baseline(before, mu).None? && Content(after.stored)[mu.key].baselineTag != mu.entry.baselineTag
  }

  /** A removed baseline tag comes back exactly when the last one a load has seen is another, and is gone by now. */
  lemma RevivesIff(run: seq<System>, moves: seq<Move>, id: nat, mu: Mutation, start: nat, k: nat)
    requires Commits(run, moves, id, mu, start, k)
    ensures mu.key in Content(run[k + 1].stored)
    ensures Revives(run[k], run[k + 1], mu) <==>
            Baseline(run[k], mu).None? && Seen(run, moves, id, mu, start, k) !in {None, Some(mu.entry.baselineTag)}
  {
    CommittedBaseline(run, moves, id, mu, start, k);
  }

  // ---------- a run in which a removed baseline tag comes back ----------

  const KEY := "v1|rke2-traefik"

  function EntryOf(baseline: string, target: string): Entry { Entry(Traefik, "v1", baseline, target, None) }

  /** What the first writer has recorded, and what the second one wants to record. */
  const FIRST: Mutation := Persist(KEY, EntryOf("t1", "t2"))
  const SECOND: Mutation := Persist(KEY, EntryOf("t2", "t3"))

  /**
   The first writer records its patch. The second one loads, the first one removes its entry, the second
   one conflicts, loads again and commits.
   */
  const COURSE: seq<Move> := [
    Start(1, FIRST), StepOf(1), StepOf(1), StepOf(1),
    Start(2, SECOND), StepOf(2),
    Start(1, Remove([KEY])), StepOf(1), StepOf(1), StepOf(1),
    StepOf(2), StepOf(2), StepOf(2), StepOf(2)]

  /** A move, if it is possible. */
  function Try(s: System, move: Move): System { if CanMove(s, move) then After(s, move) else s }

  function Play(s: System, moves: seq<Move>): (run: seq<System>)
    ensures |run| == |moves| + 1 && run[0] == s
    decreases |moves|
  {
    if moves == [] then [s] else [s] + Play(Try(s, moves[0]), moves[1..])
  }

  ghost predicate Tries(run: seq<System>, moves: seq<Move>) {
    |run| == |moves| + 1 && forall i | 0 <= i < |moves| :: run[i + 1] == Try(run[i], moves[i])
  }

  lemma {:induction false} PlayTries(s: System, moves: seq<Move>)
    ensures Tries(Play(s, moves), moves)
    decreases |moves|
  {
    if moves != [] {
      PlayTries(Try(s, moves[0]), moves[1..]);
    }
  }

  ghost predicate Possible(run: seq<System>, i: nat, k: nat)
    requires k <= |COURSE| < |run|
  {
    forall j | i <= j < k :: CanMove(run[j], COURSE[j])
  }

  /** The first writer's entry is recorded. */
  ghost predicate Recorded(s: System) {
    s.stored == Some(ConfigMap(Some(map[KEY := FIRST.entry]), 0)) && s.clock == 1 && s.log == [Commit(1, FIRST)] &&
    s.writers(1).Ended? && s.writers(2) == Resting
  }

  lemma FirstRecords(run: seq<System>)
    requires Tries(run, COURSE) && Initial(run[0]) && run[0].clock == 0
    ensures Recorded(run[4]) && Possible(run, 0, 4)
  {
    assert run[1].writers(1) == Calling(FIRST, 0, 0, Loading);
    assert run[2].writers(1).pc == Comparing(map[KEY := FIRST.entry], FIRST, None, 0);
    assert run[3].writers(1).pc == Creating(map[KEY := FIRST.entry], FIRST, 0);
  }

  /** The second writer has seen the entry, which is then removed. */
  ghost predicate Removed(s: System) {
    s.stored == Some(ConfigMap(Some(map[]), 1)) && s.clock == 2 &&
      s.log == [Commit(1, FIRST), Commit(1, Remove([KEY]))] &&
    s.writers(2).Calling? && s.writers(2).attempt == 0 && s.writers(2).pc.Comparing? &&
    s.writers(2).pc.expected == Some(0) && s.writers(2).pc.carried == With(SECOND, Some("t1"))
  }

  /** The second writer has seen the entry. */
  ghost predicate Looked(s: System) {
    s.stored == Some(ConfigMap(Some(map[KEY := FIRST.entry]), 0)) && s.clock == 1 && s.log == [Commit(1, FIRST)] &&
    s.writers(1).Ended? && LookedOnce(s.writers(2))
  }

  predicate LookedOnce(w: Writer) {
    w.Calling? && w.attempt == 0 && w.pc.Comparing? && w.pc.expected == Some(0) &&
      w.pc.carried == With(SECOND, Some("t1"))
  }

  lemma SecondLooks(s: System, t: System, u: System)
    requires Recorded(s) && t == Try(s, Start(2, SECOND)) && u == Try(t, StepOf(2))
    ensures CanMove(s, Start(2, SECOND)) && Loads(t, StepOf(2), 2) && Baseline(t, SECOND) == Some("t1") && Looked(u)
  {
    TrimSpaceIs("t1");
    assert t.writers(2) == Calling(SECOND, 0, 1, Loading);
    assert Carried(map[KEY := FIRST.entry], SECOND) == With(SECOND, Some("t1"));
  }

  lemma FirstRemoves(s: System, t: System, u: System, v: System, x: System, gone: Mutation)
    requires Looked(s) && gone == Remove([KEY]) && t == Try(s, Start(1, gone))
    requires u == Try(t, StepOf(1)) && v == Try(u, StepOf(1)) && x == Try(v, StepOf(1))
    ensures CanMove(s, Start(1, gone)) && CanMove(t, StepOf(1)) && CanMove(u, StepOf(1)) && CanMove(v, StepOf(1))
    ensures Removed(x)
  {
    var found := map[KEY := FIRST.entry];
    assert KEY in gone.keys && KEY in found;
    assert found - (set k | k in gone.keys) == map[];
    assert t.writers(1) == Calling(gone, 0, 1, Loading) && t.writers(2) == s.writers(2);
    assert u.writers(1).pc == Comparing(map[], gone, Some(0), 1) && u.writers(2) == s.writers(2);
    assert v.writers(1).pc == Updating(map[], gone, 0, 1) && v.writers(2) == s.writers(2);
  }

  lemma SecondCommits(s: System, t: System, u: System, v: System, x: System)
    requires Removed(s) && t == Try(s, StepOf(2)) && u == Try(t, StepOf(2)) && v == Try(u, StepOf(2)) &&
             x == Try(v, StepOf(2))
    ensures CanMove(s, StepOf(2)) && CanMove(t, StepOf(2)) && CanMove(u, StepOf(2)) && CanMove(v, StepOf(2))
    ensures !Loads(s, StepOf(2), 2) && Baseline(t, SECOND).None? && !Loads(u, StepOf(2), 2) && Baseline(v, SECOND).None?
    ensures v.writers(2).Calling? && x.log == v.log + [Commit(2, v.writers(2).mu)]
  {
    var now := With(SECOND, Some("t1"));
    var next: State := map[KEY := now.entry];
    assert t.writers(2).mu == now && t.writers(2).pc.Loading? && t.stored == s.stored;
    assert Carried(map[], now) == now && Mutate(map[], now) == Some(next);
    assert u.writers(2).pc == Comparing(next, now, Some(1), 2);
    assert v.writers(2).pc == Updating(next, now, 1, 2);
  }

  ghost predicate Steps(run: seq<System>) {
    Tries(run, COURSE) && Initial(run[0]) && run[0].clock == 0
  }

  lemma CourseStates(run: seq<System>)
    requires Steps(run)
    ensures Recorded(run[4]) && Removed(run[10]) && IsRun(run, COURSE) && SawThenGone(run)
    ensures run[13].writers(2).Calling? && run[14].log == run[13].log + [Commit(2, run[13].writers(2).mu)]
  {
    FirstRecords(run);
    CourseLooks(run);
    CourseRemoves(run);
    CourseEnds(run);
    forall i | 0 <= i < |COURSE| ensures CanMove(run[i], COURSE[i]) {
      var part := if i < 4 then Possible(run, 0, 4) else if i < 6 then Possible(run, 4, 6)
                  else if i < 10 then Possible(run, 6, 10) else Possible(run, 10, 14);
    }
  }

  lemma CourseLooks(run: seq<System>)
    requires Tries(run, COURSE) && Recorded(run[4])
    ensures Looked(run[6]) && Possible(run, 4, 6) && Loads(run[5], COURSE[5], 2) &&
            Baseline(run[5], SECOND) == Some("t1")
  {
    assert COURSE[4] == Start(2, SECOND) && COURSE[5] == StepOf(2);
    SecondLooks(run[4], run[5], run[6]);
  }

  lemma CourseRemoves(run: seq<System>)
    requires Tries(run, COURSE) && Looked(run[6])
    ensures Removed(run[10]) && Possible(run, 6, 10)
  {
    assert COURSE[6] == Start(1, Remove([KEY])) && COURSE[7] == COURSE[8] == COURSE[9] == StepOf(1);
    FirstRemoves(run[6], run[7], run[8], run[9], run[10], Remove([KEY]));
  }

  lemma CourseEnds(run: seq<System>)
    requires Tries(run, COURSE) && Removed(run[10])
    ensures Possible(run, 10, 14)
    ensures !Loads(run[10], COURSE[10], 2) && Baseline(run[11], SECOND).None? && !Loads(run[12], COURSE[12], 2)
    ensures Baseline(run[13], SECOND).None?
    ensures run[13].writers(2).Calling? && run[14].log == run[13].log + [Commit(2, run[13].writers(2).mu)]
  {
    assert COURSE[10] == COURSE[11] == COURSE[12] == COURSE[13] == StepOf(2);
    SecondCommits(run[10], run[11], run[12], run[13], run[14]);
  }

  /** What the loads of the second writer find: the entry, and later no entry. */
  ghost predicate SawThenGone(run: seq<System>)
    requires |run| == |COURSE| + 1
  {
    Loads(run[5], COURSE[5], 2) && Baseline(run[5], SECOND) == Some("t1") &&
    !Loads(run[10], COURSE[10], 2) && Baseline(run[11], SECOND).None? && !Loads(run[12], COURSE[12], 2) &&
    Baseline(run[13], SECOND).None?
  }

  lemma CourseSees(run: seq<System>)
    requires |run| == |COURSE| + 1 && SawThenGone(run)
    ensures Seen(run, COURSE, 2, SECOND, 4, 13) == Some("t1")
  {
    assert Seen(run, COURSE, 2, SECOND, 4, 6) == Some("t1");
    assert Seen(run, COURSE, 2, SECOND, 4, 8) == Seen(run, COURSE, 2, SECOND, 4, 6);
    assert Seen(run, COURSE, 2, SECOND, 4, 10) == Seen(run, COURSE, 2, SECOND, 4, 8);
    assert Seen(run, COURSE, 2, SECOND, 4, 11) == Seen(run, COURSE, 2, SECOND, 4, 10);
    assert Seen(run, COURSE, 2, SECOND, 4, 12) == Seen(run, COURSE, 2, SECOND, 4, 11);
  }

  /** So a baseline tag that has been removed can come back: the record is empty when it is written. */
  lemma RemovedBaselineComesBack() returns (run: seq<System>, moves: seq<Move>)
    ensures Commits(run, moves, 2, SECOND, 4, 13) && |run| == 15
    ensures Baseline(run[4], FIRST) == Some("t1") && Content(run[10].stored) == map[]
    ensures KEY in Content(run[14].stored) && Revives(run[13], run[14], SECOND)
    ensures Content(run[14].stored)[KEY].baselineTag == "t1"
  {
    var start := System(None, 0, [], _ => Resting);
    moves := COURSE;
    run := Play(start, moves);
    PlayTries(start, moves);
    CourseStates(run);
    CourseSees(run);
    TrimSpaceIs("t1");
    CourseCommits(run);
    RevivesIff(run, moves, 2, SECOND, 4, 13);
    CommittedBaseline(run, moves, 2, SECOND, 4, 13);
  }

  lemma CourseCommits(run: seq<System>)
    requires |run| == |COURSE| + 1 && IsRun(run, COURSE)
    requires run[13].writers(2).Calling? && run[14].log == run[13].log + [Commit(2, run[13].writers(2).mu)]
    ensures Commits(run, COURSE, 2, SECOND, 4, 13)
  {
    assert COURSE[4] == Start(2, SECOND) && COURSE[13] == StepOf(2);
    forall j | 4 < j < 13 ensures GoesOn(COURSE[j], 2) {
      assert j in {5, 6, 7, 8, 9, 10, 11, 12};
    }
  }
}
