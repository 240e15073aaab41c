/** Runs a scheduler can force: how other requests can act while one session stays open.

    Each lemma drives the state machine of `Steps` from a given state to the state it returns. */
module Schedules {
  import opened Content
  import opened Manifests
  import opened Tables
  import opened Steps
  import opened Invariants

  /** Some run leads there without committing a drain, so no chunk row disappears on the way. */
  ghost predicate Forces(h: Hashes, before: State, after: State) {
    exists run: Run :: RunFrom(h, before, run) && run.Last() == after && NoRowDeleted(run)
  }

  ghost predicate NoRowDeleted(run: Run) {
    forall i :: 0 <= i < |run.steps| ==> !run.steps[i].DrainCommit?
  }

  lemma Stay(h: Hashes, st: State)
    ensures Forces(h, st, st)
  {
    assert RunFrom(h, st, Halt(st)) && NoRowDeleted(Halt(st));
  }

  lemma Go(h: Hashes, before: State, st: State, step: Step) returns (after: State)
    requires Forces(h, before, st) && Enabled(st, step) && !step.DrainCommit?
    ensures Forces(h, before, after) && after == Apply(h, st, step)
  {
    hide Enabled, Apply;
    var run: Run :| RunFrom(h, before, run) && run.Last() == st && NoRowDeleted(run);
    after := Apply(h, st, step);
    var longer := Extend(h, run, step);
    assert RunFrom(h, before, longer) && NoRowDeleted(longer);
  }

  lemma Chain(h: Hashes, first: State, second: State, third: State)
    requires Forces(h, first, second) && Forces(h, second, third)
    ensures Forces(h, first, third)
  {
    hide Enabled, Apply;
    var one: Run :| RunFrom(h, first, one) && one.Last() == second && NoRowDeleted(one);
    var two: Run :| RunFrom(h, second, two) && two.Last() == third && NoRowDeleted(two);
    var both := Join(h, one, two);
    assert RunFrom(h, first, both) && NoRowDeleted(both);
  }

  lemma ForcesReaches(h: Hashes, before: State, after: State)
    requires Forces(h, before, after)
    ensures Reaches(h, before, after)
  {
  }

  lemma ForcesInv(h: Hashes, before: State, after: State)
    requires Inv(h, before) && Forces(h, before, after)
    ensures Inv(h, after)
  {
    hide Enabled, Apply, Inv;
    var run: Run :| RunFrom(h, before, run) && run.Last() == after && NoRowDeleted(run);
    RunKeepsInv(h, run, |run.steps|);
  }

  // ------------------------------------------------------------------ fresh names and late times

  lemma {:induction false} FreshNat(used: set<nat>) returns (n: nat)
    ensures n !in used
    ensures forall k :: k in used ==> k < n
  {
    if used == {} {
      n := 0;
    } else {
      var k :| k in used;
      n := FreshNat(used - {k});
      assert forall other :: other in used ==> other == k || other in used - {k};
      if n <= k { n := k + 1; }
    }
  }

  /** A time past every session expiry and every tombstone. */
  lemma LateTime(st: State) returns (t: nat)
    ensures forall s :: s in st.sessions ==> st.sessions[s].expiresAt <= t
    ensures forall oid :: oid in st.tombstones ==> st.tombstones[oid] <= t
  {
    var expiries := set s | s in st.sessions :: st.sessions[s].expiresAt;
    var deadlines := set oid | oid in st.tombstones :: st.tombstones[oid];
    t := FreshNat(expiries + deadlines);
    forall s | s in st.sessions ensures st.sessions[s].expiresAt <= t {
      assert st.sessions[s].expiresAt in expiries;
    }
    forall oid | oid in st.tombstones ensures st.tombstones[oid] <= t {
      assert st.tombstones[oid] in deadlines;
    }
  }

  // ------------------------------------------------------------------ locks and time

  lemma {:induction false} AbortDrains(h: Hashes, st: State) returns (r: State)
    ensures Forces(h, st, r) && r == st.(draining := map[])
    decreases |st.draining|
  {
    if st.draining == map[] {
      Stay(h, st);
      r := st;
    } else {
      var c :| c in st.draining;
      Stay(h, st);
      var next := Go(h, st, st, DrainAbort(c));
      assert next.draining.Keys == st.draining.Keys - {c};
      assert |next.draining.Keys| < |st.draining.Keys|;
      r := AbortDrains(h, next);
      Chain(h, st, next, r);
    }
  }

  /** The session is open and its expiry has not come. */
  ghost predicate Live(st: State, s: SessionId) {
    IsOpen(st.sessions, s) && st.now < st.sessions[s].expiresAt
  }

  function Refreshed(sessions: SessionTable, s: SessionId, expiresAt: nat): (r: SessionTable)
    requires s in sessions
  {
    sessions[s := sessions[s].(expiresAt := expiresAt)]
  }

  /** A begin with the manifest of a live session resumes that session and only moves its expiry. */
  lemma MatchingBeginResumes(h: Hashes, st: State, s: SessionId, drawn: SessionId)
    requires SessionsSound(st.sessions, st.issued) && Live(st, s)
    ensures BeginTx(st, drawn, st.sessions[s].manifest)
      == (st.(sessions := Refreshed(st.sessions, s, st.now + SESSION_LIFETIME)), Started(s))
  {
    hide WellFormed;
    var m := st.sessions[s].manifest;
    var live := ExpireStale(st.sessions, st.now, m.oid);
    forall t | t in st.sessions ensures live[t] == st.sessions[t] {
      if IsOpenFor(st.sessions, t, m.oid) {
        assert IsOpenFor(st.sessions, s, m.oid);
        assert t == s;
      }
    }
    assert live == st.sessions;
    assert IsOpenFor(live, s, m.oid);
    assert OpenSessionOf(live, m.oid) == Some(s);
  }

  /** `seconds` later, nothing has changed but the clock and the session's expiry, not yet come. */
  ghost predicate Slept(st: State, r: State, s: SessionId, seconds: nat) {
    && s in st.sessions && Live(r, s)
    && r == st.(now := st.now + seconds, sessions := Refreshed(st.sessions, s, r.sessions[s].expiresAt))
  }

  lemma SleptOn(a: State, b: State, c: State, s: SessionId, first: nat, second: nat)
    requires Slept(a, b, s, first) && Slept(b, c, s, second)
    ensures Slept(a, c, s, first + second)
  {
  }

  /** Time can pass without the session expiring: its client keeps beginning again. */
  lemma {:induction false} KeepAlive(h: Hashes, st: State, s: SessionId, seconds: nat) returns (r: State)
    requires Inv(h, st) && Live(st, s)
    ensures Forces(h, st, r) && Slept(st, r, s, seconds)
    decreases seconds
  {
    hide Inv, Forces, Slept;
    if seconds < SESSION_LIFETIME {
      r := Nap(h, st, s, seconds);
    } else {
      var pause := SESSION_LIFETIME - 1;
      var next := Nap(h, st, s, pause);
      ForcesInv(h, st, next);
      SleptLive(st, next, s, pause);
      r := KeepAlive(h, next, s, seconds - pause);
      Chain(h, st, next, r);
      SleptOn(st, next, r, s, pause, seconds - pause);
    }
  }

  lemma SleptLive(st: State, r: State, s: SessionId, seconds: nat)
    requires Slept(st, r, s, seconds)
    ensures Live(r, s)
  {
  }

  lemma Nap(h: Hashes, st: State, s: SessionId, pause: nat) returns (r: State)
    requires Inv(h, st) && Live(st, s) && pause < SESSION_LIFETIME
    ensures Forces(h, st, r) && Slept(st, r, s, pause)
  {
    hide CatalogueSound, BeginTx, RegisterTx, PublishTx, CollectTx, ReclaimTx, Forces;
    var drawn := FreshNat(st.issued);
    MatchingBeginResumes(h, st, s, drawn);
    Stay(h, st);
    var resumed := Go(h, st, st, Begin(drawn, st.sessions[s].manifest));
    r := Go(h, st, resumed, Tick(pause));
  }

  // ------------------------------------------------------------------ collecting everything

  /** Two fresh empty snapshots are the newest two. */
  lemma LatestOfTwo(epochs: map<EpochId, Epoch>, now: nat, a: EpochId, b: EpochId)
    requires a !in epochs && b !in epochs && a < b
    requires forall e :: e in epochs ==> epochs[e].completedAt < now
    ensures Latest(epochs[a := Epoch(now, {})][b := Epoch(now, {})]) == {a, b}
  {
    var all := epochs[a := Epoch(now, {})][b := Epoch(now, {})];
    assert NewerThan(all, b) == {};
    assert NewerThan(all, a) == {b};
    forall e | e in epochs ensures e !in Latest(all) {
      var newer := NewerThan(all, e);
      assert {a, b} <= newer;
      CardinalityAtLeast({a, b}, newer);
    }
  }

  lemma CardinalityAtLeast<T>(small: set<T>, big: set<T>)
    requires small <= big
    ensures |small| <= |big|
  {
    assert big == small + (big - small);
  }

  lemma SubmitEmpty(st: State, id: EpochId, startedAt: nat)
    ensures SubmitTx(st, id, startedAt, []) == st.(epochs := st.epochs[id := Epoch(startedAt, {})])
  {
    var oids: seq<Oid> := [];
    assert (set oid | oid in oids) == {};
  }

  lemma SubmitTwoEmpty(h: Hashes, st: State) returns (r: State)
    requires forall e :: e in st.epochs ==> st.epochs[e].completedAt < st.now
    ensures Forces(h, st, r) && r == st.(epochs := r.epochs)
    ensures |Latest(r.epochs)| == 2
    ensures forall e :: e in Latest(r.epochs) ==> r.epochs[e].reachable == {}
  {
    hide BeginTx, RegisterTx, PublishTx, CollectTx, ReclaimTx, Latest, Forces;
    var a := FreshNat(st.epochs.Keys);
    var b := a + 1;
    Stay(h, st);
    var one := Go(h, st, st, Submit(a, st.now, []));
    SubmitEmpty(st, a, st.now);
    r := Go(h, st, one, Submit(b, st.now, []));
    SubmitEmpty(one, b, st.now);
    assert r.epochs == st.epochs[a := Epoch(st.now, {})][b := Epoch(st.now, {})];
    LatestOfTwo(st.epochs, st.now, a, b);
  }

  /** Every live object can be staged with no grace: two empty snapshots, a dry run, a stage. */
  lemma StageEverything(h: Hashes, st: State) returns (r: State)
    requires st.tombstones.Keys <= st.objects.Keys
    requires forall e :: e in st.epochs ==> st.epochs[e].completedAt < st.now
    ensures Forces(h, st, r)
    ensures r == st.(epochs := r.epochs, plans := r.plans, tombstones := r.tombstones)
    ensures r.tombstones.Keys == st.objects.Keys
  {
    hide BeginTx, RegisterTx, PublishTx, CollectTx, ReclaimTx, Latest, Forces;
    var seen := SubmitTwoEmpty(h, st);
    var plan := Candidates(seen);
    assert plan == st.objects.Keys - st.tombstones.Keys;
    var planned := Go(h, st, seen, DryRun);
    r := Go(h, st, planned, Stage(plan, 0));
    assert r.tombstones.Keys == plan + st.tombstones.Keys;
  }

  /** When every object is due, collection can empty the catalogue; nothing else moves, and every
      chunk row stays, unreferenced. */
  lemma {:induction false} CollectAll(h: Hashes, st: State) returns (r: State)
    requires Inv(h, st) && forall oid :: oid in st.objects ==> Due(st, oid)
    ensures Forces(h, st, r) && Inv(h, r)
    ensures r == st.(objects := map[], objectChunks := r.objectChunks, tombstones := r.tombstones,
                     chunks := r.chunks, queue := r.queue)
    ensures r.chunks.Keys == st.chunks.Keys
    ensures forall c :: c in r.chunks ==> r.chunks[c].refs == 0
    decreases |st.objects|
  {
    hide CatalogueSound, LocksSound, PutsSound, AcksSound, HoldsSound, SessionsSound,
      BeginTx, RegisterTx, PublishTx, CollectTx, ReclaimTx;
    if st.objects == map[] {
      Stay(h, st);
      EmptyCatalogueUnreferenced(st);
      r := st;
    } else {
      var oid :| oid in st.objects;
      Stay(h, st);
      var next := Go(h, st, st, Collect(oid));
      CollectKeepsCatalogue(st, oid);
      assert next.objects.Keys == st.objects.Keys - {oid};
      assert |next.objects.Keys| < |st.objects.Keys|;
      ForcesInv(h, st, next);
      r := CollectAll(h, next);
      Chain(h, st, next, r);
    }
  }

  lemma EmptyCatalogueUnreferenced(st: State)
    requires Catalogued(st) && st.objects == map[]
    ensures forall c :: c in st.chunks ==> st.chunks[c].refs == 0
  {
    hide WellFormed;
    forall c | c in st.chunks ensures st.chunks[c].refs == 0 {
      NamingNone(st.objectChunks, c);
    }
  }
}
