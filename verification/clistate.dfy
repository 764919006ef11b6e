/**
 The state of the CLI mode: the recorded patches, the two mutations of them, and the retry loop that
 writes them to a ConfigMap under optimistic concurrency.
 */
module CliState {
  import opened Text
  import opened Values
  import opened Components

  datatype Entry = Entry(
    component: Component, clusterVersion: string, baselineTag: string, patchedToTag: string, values: Option<Tree>)

  type State = map<string, Entry>

  function EntryKey(clusterVersion: string, c: Component): string { clusterVersion + "|" + Name(c) }

  lemma NamesAreDistinct(c: Component, d: Component)
    ensures Name(c) == Name(d) ==> c == d
  {
  }

  lemma NamesHaveNoBar(c: Component)
    ensures '|' !in Name(c)
  {
  }

  lemma SplitAtBar(v: string, m: string, w: string, n: string)
    requires v + "|" + m == w + "|" + n && '|' !in m && '|' !in n
    ensures v == w && m == n
  {
    var key := v + "|" + m;
    assert key[|v|] == '|' && key[|w|] == '|';
    assert key[..|v|] == v && key[..|w|] == w && key[|v| + 1..] == m && key[|w| + 1..] == n;
  }

  /** Entries of different components, or of different versions, have different keys. */
  lemma KeysAreApart(v: string, c: Component, w: string, d: Component)
    requires EntryKey(v, c) == EntryKey(w, d)
    ensures v == w && c == d
  {
    NamesHaveNoBar(c);
    NamesHaveNoBar(d);
    SplitAtBar(v, Name(c), w, Name(d));
    NamesAreDistinct(c, d);
  }

  // ---------- the mutations ----------

  datatype Mutation = Persist(key: string, entry: Entry) | Remove(keys: seq<string>)

  predicate HasBaseline(s: State, key: string) { key in s && TrimSpace(s[key].baselineTag) != "" }

  /** Persist keeps its entry between attempts, with the baseline tag it took over from the state it saw. */
  function Carried(s: State, mu: Mutation): Mutation {
    if mu.Persist? && HasBaseline(s, mu.key) then mu.(entry := mu.entry.(baselineTag := s[mu.key].baselineTag)) else mu
  }

  predicate AlreadyPersisted(s: State, mu: Mutation)
    requires mu.Persist?
  {
    mu.key in s && s[mu.key].patchedToTag == mu.entry.patchedToTag && s[mu.key].baselineTag == mu.entry.baselineTag
  }

  /** The state after a mutation; None when it changes nothing. */
  function Mutate(s: State, mu: Mutation): Option<State> {
    match mu
    case Persist(key, _) => if AlreadyPersisted(s, mu) then None else Some(s[key := Carried(s, mu).entry])
    case Remove(keys) => if exists k :: k in keys && k in s then Some(s - set k | k in keys) else None
  }

  /** What is recorded after a mutation. */
  function Mutated(s: State, mu: Mutation): State { match Mutate(s, mu) case Some(next) => next case None => s }

  /**
   Persist records the target, and the baseline tag unless one is recorded already. It changes nothing exactly
   when the same target and baseline tag are recorded.
   */
  lemma PersistMeans(s: State, key: string, entry: Entry)
    ensures var t := Mutated(s, Persist(key, entry));
            key in t && t[key].patchedToTag == entry.patchedToTag &&
            t[key].baselineTag ==
              if key in s && TrimSpace(s[key].baselineTag) != "" then s[key].baselineTag else entry.baselineTag
    ensures Mutate(s, Persist(key, entry)) == None <==>
            key in s && s[key].patchedToTag == entry.patchedToTag && s[key].baselineTag == entry.baselineTag
    ensures var t := Mutated(s, Persist(key, entry));
            t != s ==> t.Keys == s.Keys + {key} && t[key].component == entry.component &&
                       t[key].clusterVersion == entry.clusterVersion && t[key].values == entry.values
  {
  }

  /** Remove leaves exactly the entries it does not name. */
  lemma RemoveMeans(s: State, keys: seq<string>)
    ensures var t := Mutated(s, Remove(keys));
            (forall k :: k in t <==> k in s && k !in keys) && forall k | k in t :: t[k] == s[k]
    ensures Mutate(s, Remove(keys)) == None <==> forall k | k in keys :: k !in s
  {
  }

  /** The closures of Persist and RemoveEntries, which change the state in place. */
  method RunMutation(state: State, mu: Mutation) returns (next: Option<State>, carried: Mutation)
    ensures next == Mutate(state, mu) && carried == Carried(state, mu)
  {
    carried := mu;
    match mu {
      case Persist(key, entry) =>
        var recorded := entry;
        if key in state {
          if TrimSpace(state[key].baselineTag) != "" {
            recorded := recorded.(baselineTag := state[key].baselineTag);
          }
          carried := Persist(key, recorded);
          if state[key].patchedToTag == entry.patchedToTag && state[key].baselineTag == entry.baselineTag {
            return None, carried;
          }
        }
        return Some(state[key := recorded]), carried;
      case Remove(keys) =>
        var left, changed := state, false;
        for i := 0 to |keys|
          invariant left == state - set k | k in keys[..i]
          invariant changed <==> exists k :: k in keys[..i] && k in state
        {
          assert keys[..i + 1] == keys[..i] + [keys[i]];
          if keys[i] in left {
            left := left - {keys[i]};
            changed := true;
          }
        }
        assert keys[..|keys|] == keys;
        next := if changed then Some(left) else None;
    }
  }

  /** The keys of entries recorded on another RKE2 version. */
  method StaleKeys(state: State, currentVersion: string) returns (keys: seq<string>)
    ensures forall k :: k in keys <==> k in state && TrimSpace(state[k].clusterVersion) != currentVersion
  {
    keys := [];
    var todo := state.Keys;
    while todo != {}
      invariant todo <= state.Keys
      invariant forall k :: k in keys <==>
                k in state && k !in todo && TrimSpace(state[k].clusterVersion) != currentVersion
    {
      var key :| key in todo;
      todo := todo - {key};
      if TrimSpace(state[key].clusterVersion) != currentVersion {
        keys := keys + [key];
      }
    }
  }

  // ---------- the ConfigMap and its history ----------

  /** A ConfigMap; data is None when the key is missing or blank. */
  datatype ConfigMap = ConfigMap(data: Option<State>, rv: nat)

  function Content(stored: Option<ConfigMap>): State {
    if stored.Some? && stored.value.data.Some? then stored.value.data.value else map[]
  }

  /**
   What was done to the ConfigMap: a writer committed a mutation, somebody wrote it without changing the
   record (an annotation, say), or somebody deleted it.
   */
  datatype Event = Commit(who: nat, mu: Mutation) | Annotate | Erase

  function Applied(s: State, e: Event): State {
    match e
    case Commit(_, mu) => (match Mutate(s, mu) case Some(next) => next case None => s)
    case Annotate => s
    case Erase => map[]
  }

  /** The committed mutations, one after the other. */
  function Fold(log: seq<Event>): State {
    if log == [] then map[] else Applied(Fold(log[..|log| - 1]), log[|log| - 1])
  }

  lemma FoldAppend(log: seq<Event>, e: Event)
    ensures Fold(log + [e]) == Applied(Fold(log), e)
  {
    assert (log + [e])[..|log|] == log;
  }

  predicate Drops(e: Event, key: string) { e.Erase? || (e.Commit? && e.mu.Remove? && key in e.mu.keys) }

  /** A recorded baseline tag never changes until its entry is removed. */
  lemma {:induction false} BaselineIsSticky(log: seq<Event>, later: seq<Event>, key: string)
    requires HasBaseline(Fold(log), key)
    requires forall e | e in later :: !Drops(e, key)
    ensures HasBaseline(Fold(log + later), key)
    ensures Fold(log + later)[key].baselineTag == Fold(log)[key].baselineTag
    decreases |later|
  {
    if later == [] {
      assert log + later == log;
    } else {
      var front, e := later[..|later| - 1], later[|later| - 1];
      BaselineIsSticky(log, front, key);
      assert log + later == log + front + [e];
      FoldAppend(log + front, e);
      assert !Drops(e, key);
    }
  }

  /** A mutation leaves every entry it does not name alone. */
  lemma OtherEntriesStay(s: State, mu: Mutation, key: string)
    requires Mutate(s, mu).Some?
    requires if mu.Persist? then key != mu.key else key !in mu.keys
    ensures key in Mutate(s, mu).value <==> key in s
    ensures key in s ==> Mutate(s, mu).value[key] == s[key]
  {
  }

  // ---------- one writer and its retry loop ----------

  const UPDATE_ATTEMPTS := 5

  datatype Result = Committed | Unchanged | Conflicted | AfterRetries | Failed

  /** The API server's ConfigMap. others are the events that reach it before each of this writer's calls. */
  class StateStore {
    const me: nat
    var stored: Option<ConfigMap>
    var clock: nat
    ghost var log: seq<Event>
    var others: seq<seq<Event>>

    constructor (me: nat, others: seq<seq<Event>>)
      ensures Valid() && this.me == me && this.others == others && stored == None && log == []
    {
      this.me := me;
      this.others := others;
      stored, clock, log := None, 0, [];
    }

    ghost predicate Valid()
      reads this
    {
      Content(stored) == Fold(log) && (stored.Some? ==> stored.value.rv < clock)
    }

    /** No event since a length of the log is this writer's own. */
    ghost predicate ForeignSince(length: nat)
      reads this
    {
      length <= |log| && forall k :: length <= k < |log| ==> log[k].Commit? ==> log[k].who != me
    }

    /** All events since a length of the log are this writer's own: nobody else got in. */
    ghost predicate OnlyOwn(length: nat)
      reads this
    {
      length <= |log| && forall k :: length <= k < |log| ==> log[k].Commit? && log[k].who == me
    }

    /** Somebody has deleted the ConfigMap since a length of the log. */
    ghost predicate ErasedSince(length: nat)
      reads this
    {
      exists k :: length <= k < |log| && log[k].Erase?
    }

    /** An event reaches the ConfigMap. */
    method Write(next: Option<ConfigMap>, ghost e: Event)
      requires Valid() && Content(next) == Applied(Content(stored), e) && (next.Some? ==> next.value.rv == clock)
      modifies `stored, `clock, `log
      ensures Valid() && clock == old(clock) + 1 && log == old(log) + [e] && stored == next
    {
      FoldAppend(log, e);
      stored, clock, log := next, clock + 1, log + [e];
    }

    /** At most n calls have been made since this many were to come. */
    predicate Called(n: nat, before: nat)
      reads this
    {
      |others| + n >= before
    }

    /** Someone else's event, if it changes anything. */
    method Happen(e: Event)
      requires Valid() && (e.Commit? ==> e.who != me)
      modifies `stored, `clock, `log
      ensures Valid() && old(clock) <= clock
      ensures (log == old(log) && stored == old(stored)) || log == old(log) + [e]
      ensures log != old(log) ==> stored.None? || stored.value.rv >= old(clock)
      ensures old(stored).Some? && stored.None? ==> e.Erase? && log == old(log) + [e]
    {
      match e {
        case Erase =>
          if stored.Some? {
            Write(None, e);
          }
        case Annotate =>
          if stored.Some? {
            Write(Some(stored.value.(rv := clock)), e);
          }
        case Commit(_, mu) =>
          var next := Mutate(Content(stored), mu);
          if next.Some? {
            Write(Some(ConfigMap(next, clock)), e);
          }
      }
    }

    /** Before each call of this writer any number of other events may happen. */
    method OthersMove()
      requires Valid()
      modifies `stored, `clock, `log, `others
      ensures Valid() && old(clock) <= clock && old(log) <= log && ForeignSince(|old(log)|)
      ensures log == old(log) ==> stored == old(stored)
      ensures log != old(log) ==> stored.None? || stored.value.rv >= old(clock)
      ensures old(stored).Some? && stored.None? ==> ErasedSince(|old(log)|)
      ensures old(others) == [] ==> others == [] && log == old(log)
      ensures Called(1, |old(others)|)
    {
      if others != [] {
        var batch := others[0];
        others := others[1..];
        for i := 0 to |batch|
          invariant |others| + 1 == |old(others)|
          invariant Valid() && old(clock) <= clock && old(log) <= log && ForeignSince(|old(log)|)
          invariant log == old(log) ==> stored == old(stored)
          invariant log != old(log) ==> stored.None? || stored.value.rv >= old(clock)
          invariant old(stored).Some? && stored.None? ==> ErasedSince(|old(log)|)
        {
          ghost var before := log;
          if batch[i].Commit? ==> batch[i].who != me {
            Happen(batch[i]);
            if log != before { assert log[|before|] == batch[i]; }
            assert forall k :: 0 <= k < |before| ==> before[k] == log[k];
          }
        }
      }
    }

    method Load() returns (state: State, version: Option<nat>)
      requires Valid()
      modifies `stored, `clock, `log, `others
      ensures Valid() && old(clock) <= clock && old(log) <= log && ForeignSince(|old(log)|)
      ensures state == Content(stored) && version == (if stored.Some? then Some(stored.value.rv) else None)
      ensures log == old(log) ==> stored == old(stored)
      ensures old(others) == [] ==> others == [] && log == old(log)
      ensures Called(1, |old(others)|)
    {
      OthersMove();
      state := Content(stored);
      version := if stored.Some? then Some(stored.value.rv) else None;
    }

    /** Get, compare, and create or update: three calls, each of which others may get in before. */
    method Save(state: State, expected: Option<nat>, ghost mu: Mutation) returns (r: Result)
      requires Valid()
      requires expected == (if stored.Some? then Some(stored.value.rv) else None)
      requires Mutate(Content(stored), mu) == Some(state)
      modifies `stored, `clock, `log, `others
      ensures Valid() && old(log) <= log && r in {Committed, Conflicted, Failed}
      ensures r == Committed ==>
              |log| > |old(log)| && log[|log| - 1] == Commit(me, mu) && NoneOwn(log[|old(log)|..|log| - 1])
      ensures r == Committed ==> Mutate(Fold(log[..|log| - 1]), mu) == Some(Content(stored))
      ensures r != Committed ==> ForeignSince(|old(log)|)
      ensures r != Committed ==> |log| > |old(log)|
      ensures r == Failed ==> ErasedSince(|old(log)|)
      ensures OnlyOwn(|old(log)|) ==> r == Committed
      ensures old(others) == [] ==> others == [] && OnlyOwn(|old(log)|)
      ensures Called(2, |old(others)|)
    {
      ghost var known := Content(stored);
      OthersMove();
      var current := stored;
      if current.None? {
        if expected.Some? {
          return Conflicted;
        }
      } else if expected.None? || current.value.rv != expected.value {
        return Conflicted;
      }
      assert Content(current) == known;
      ghost var between := log;
      OthersMove();
      assert stored.None? && current.Some? ==> ErasedSince(|between|) && ErasedSince(|old(log)|);
      if current.None? {
        if stored.Some? {
          return Conflicted;
        }
      } else if stored.None? {
        return Failed;
      } else if stored.value.rv != current.value.rv {
        return Conflicted;
      }
      assert Content(stored) == known;
      ghost var before := log;
      Write(Some(ConfigMap(Some(state), clock)), Commit(me, mu));
      assert log[..|log| - 1] == before;
      return Committed;
    }

    ghost predicate NoneOwn(events: seq<Event>) { NoneBy(events, me) }

    /** The last event is this writer's commit of mu, and its only one since a length of the log. */
    ghost predicate CommittedSince(length: nat, mu: Mutation)
      reads this
    {
      length < |log| && NoneOwn(log[length..|log| - 1]) && log[|log| - 1] == Commit(me, mu) &&
      Mutate(Fold(log[..|log| - 1]), mu) == Some(Content(stored))
    }

    /** What a call does when nobody else gets in: the mutation, if it changes anything. */
    ghost predicate Undisturbed(before: State, mu: Mutation, r: Result)
      reads this
    {
      match Mutate(before, mu)
      case None => r == Unchanged && Content(stored) == before
      case Some(next) => r == Committed && Content(stored) == next
    }

    /** One attempt: load, mutate and save. */
    method Attempt(mu: Mutation) returns (r: Result, carried: Mutation)
      requires Valid()
      modifies `stored, `clock, `log, `others
      ensures Valid() && old(log) <= log && r in {Committed, Unchanged, Conflicted, Failed}
      ensures SameButBaseline(carried, mu)
      ensures if r == Committed then CommittedSince(|old(log)|, mu) else ForeignSince(|old(log)|)
      ensures r == Unchanged ==> Mutate(Content(stored), mu) == None
      ensures r in {Conflicted, Failed} ==> |log| > |old(log)|
      ensures r == Failed ==> ErasedSince(|old(log)|)
      ensures OnlyOwn(|old(log)|) ==> Undisturbed(old(Content(stored)), mu, r)
      ensures old(others) == [] ==> others == [] && OnlyOwn(|old(log)|)
      ensures Called(3, |old(others)|)
    {
      var state, version := Load();
      var next;
      next, carried := RunMutation(state, mu);
      if next.None? {
        return Unchanged, carried;
      }
      ghost var before := log;
      r := Save(next.value, version, mu);
      if r == Committed {
        StillNone(old(log), before, log, me);
        LoneCommit(old(log), log, me);
      }
    }

    /**
     Update: attempts until one is no conflict. It commits once or not at all, always on the state it is
     committed to, and giving up means that others got in during each of five attempts, of three calls at most.
     */
    method Update(mutation: Mutation) returns (r: Result)
      requires Valid()
      modifies `stored, `clock, `log, `others
      ensures Valid() && old(log) <= log
      ensures r != Committed ==> ForeignSince(|old(log)|)
      ensures r == Committed ==> exists mu :: SameButBaseline(mu, mutation) && CommittedSince(|old(log)|, mu)
      ensures r == Unchanged ==> exists mu :: SameButBaseline(mu, mutation) && Mutate(Content(stored), mu) == None
      ensures r == AfterRetries ==> |log| >= |old(log)| + 5
      ensures r == Failed ==> ErasedSince(|old(log)|)
      ensures OnlyOwn(|old(log)|) ==> Undisturbed(old(Content(stored)), mutation, r)
      ensures old(others) == [] ==> OnlyOwn(|old(log)|)
      ensures r != Conflicted && Called(15, |old(others)|)
    {
      var mu := mutation;
      for attempt := 0 to UPDATE_ATTEMPTS
        invariant Valid() && old(log) <= log && ForeignSince(|old(log)|)
        invariant |log| >= |old(log)| + attempt && Called(3 * attempt, |old(others)|)
        invariant SameButBaseline(mu, mutation)
        invariant if attempt == 0 then log == old(log) && stored == old(stored) && others == old(others) &&
                  mu == mutation
                  else Disturbed(|old(log)|) && old(others) != []
      {
        ghost var before := log;
        var carried;
        r, carried := Attempt(mu);
        if r != Conflicted {
          if r == Committed {
            StillNone(old(log), before, log, me);
            assert CommittedSince(|old(log)|, mu);
          }
          return r;
        }
        assert Disturbed(|before|);
        mu := carried;
      }
      return AfterRetries;
    }

    /** The first event since a length of the log is not this writer's own. */
    ghost predicate Disturbed(length: nat)
      reads this
    {
      length < |log| && !(log[length].Commit? && log[length].who == me)
    }
  }

  predicate NoneBy(events: seq<Event>, who: nat) { forall e | e in events :: e.Commit? ==> e.who != who }

  /** No event of a writer up to a point, and none but the last one after it. */
  lemma StillNone(before: seq<Event>, between: seq<Event>, log: seq<Event>, me: nat)
    requires before <= between <= log && |between| < |log|
    requires forall k :: |before| <= k < |between| ==> between[k].Commit? ==> between[k].who != me
    requires NoneBy(log[|between|..|log| - 1], me)
    ensures NoneBy(log[|before|..|log| - 1], me)
  {
    assert log[|before|..|log| - 1] == between[|before|..] + log[|between|..|log| - 1];
  }

  /** If all new events are a writer's own, and at most the last one is, there is just that one. */
  lemma LoneCommit(before: seq<Event>, log: seq<Event>, me: nat)
    requires before <= log && |before| < |log|
    requires NoneBy(log[|before|..|log| - 1], me)
    ensures (forall k :: |before| <= k < |log| ==> log[k].Commit? && log[k].who == me) ==> log[..|log| - 1] == before
  {
    if |before| < |log| - 1 {
      assert log[|before|] in log[|before|..|log| - 1];
    }
  }

  /** Retries may change the baseline tag a mutation records, and nothing else of it. */
  predicate SameButBaseline(a: Mutation, b: Mutation) {
    a == b || (a.Persist? && b.Persist? && a == b.(entry := b.entry.(baselineTag := a.entry.baselineTag)))
  }
}
