/** What a deletion rests on: two complete snapshots without the object, and a grace period. */
module GcEvidence {
  import opened Content
  import opened Tables
  import opened Steps
  import opened Invariants

  // ------------------------------------------------------------------ the newest two epochs

  lemma {:induction false} NewestOf(epochs: map<EpochId, Epoch>, some: set<EpochId>) returns (top: EpochId)
    requires some != {} && some <= epochs.Keys
    ensures top in some
    ensures forall e :: e in some && e != top ==> Newer(epochs, top, e)
  {
    var e :| e in some;
    var rest := some - {e};
    if rest == {} {
      top := e;
      assert some == {e};
    } else {
      var best := NewestOf(epochs, rest);
      top := if Newer(epochs, e, best) then e else best;
      forall f | f in some && f != top ensures Newer(epochs, top, f) {
        if f != e {
          assert f in rest;
          assert f == best || Newer(epochs, best, f);
        }
      }
    }
  }

  /** `LIMIT 2` yields two epochs exactly when two exist, and then every other epoch is older than
      both. */
  lemma LatestAreNewest(epochs: map<EpochId, Epoch>)
    ensures |Latest(epochs)| == 2 <==> 2 <= |epochs|
    ensures forall e, f :: e in Latest(epochs) && f in epochs && f !in Latest(epochs) ==> Newer(epochs, e, f)
  {
    if epochs == map[] {
      assert Latest(epochs) == {};
    } else {
      var first := NewestOf(epochs, epochs.Keys);
      var rest := epochs.Keys - {first};
      if rest == {} {
        assert epochs.Keys == {first};
        assert NewerThan(epochs, first) == {};
        assert Latest(epochs) == {first};
      } else {
        var second := NewestOf(epochs, rest);
        LatestIsTopTwo(epochs, first, second);
        assert epochs.Keys == {first, second} + (rest - {second});
        assert |epochs.Keys| == |epochs|;
      }
    }
  }

  lemma LatestIsTopTwo(epochs: map<EpochId, Epoch>, first: EpochId, second: EpochId)
    requires first in epochs && second in epochs && first != second
    requires forall e :: e in epochs && e != first ==> Newer(epochs, first, e)
    requires forall e :: e in epochs && e != first && e != second ==> Newer(epochs, second, e)
    ensures Latest(epochs) == {first, second}
  {
    assert NewerThan(epochs, first) == {};
    assert NewerThan(epochs, second) == {first};
    forall e | e in epochs && e != first && e != second ensures |NewerThan(epochs, e)| >= 2 {
      TwoNewer(epochs, e, first, second);
    }
    hide NewerThan, Newer;
  }

  lemma TwoNewer(epochs: map<EpochId, Epoch>, e: EpochId, first: EpochId, second: EpochId)
    requires e in epochs && first in epochs && second in epochs && first != second
    requires Newer(epochs, first, e) && Newer(epochs, second, e)
    ensures |NewerThan(epochs, e)| >= 2
  {
    var newer := NewerThan(epochs, e);
    assert newer == {first, second} + (newer - {first, second});
  }

  // ------------------------------------------------------------------ what a dry run proposes

  /** Completed earlier, ties broken by id. */
  ghost predicate Older(epochs: map<EpochId, Epoch>, e: EpochId, f: EpochId)
    requires e in epochs && f in epochs
  {
    || epochs[e].completedAt < epochs[f].completedAt
    || (epochs[e].completedAt == epochs[f].completedAt && e < f)
  }

  /** Two epochs that every other one is older than. */
  ghost predicate NewestTwo(epochs: map<EpochId, Epoch>, a: EpochId, b: EpochId) {
    && a in epochs && b in epochs && a != b
    && forall e :: e in epochs && e != a && e != b ==> Older(epochs, e, a) && Older(epochs, e, b)
  }

  /** There are two newest snapshots, and the object is in neither. */
  ghost predicate AbsentFromNewestTwo(epochs: map<EpochId, Epoch>, oid: Oid) {
    exists a, b :: NewestTwo(epochs, a, b) && oid !in epochs[a].reachable && oid !in epochs[b].reachable
  }

  lemma UnreachableIsAbsent(epochs: map<EpochId, Epoch>, oid: Oid)
    requires Unreachable(epochs, oid)
    ensures AbsentFromNewestTwo(epochs, oid)
  {
    LatestAreNewest(epochs);
    LatestAreEpochs(epochs);
    hide Latest;
    var a, b := BothOf(Latest(epochs));
    assert a in Latest(epochs) && b in Latest(epochs);
    forall e | e in epochs && e != a && e != b ensures Older(epochs, e, a) && Older(epochs, e, b) {
      assert e !in Latest(epochs);
    }
    assert NewestTwo(epochs, a, b);
  }

  lemma AbsentIsUnreachable(epochs: map<EpochId, Epoch>, oid: Oid)
    requires AbsentFromNewestTwo(epochs, oid)
    ensures Unreachable(epochs, oid)
  {
    hide Latest;
    var a, b :| NewestTwo(epochs, a, b) && oid !in epochs[a].reachable && oid !in epochs[b].reachable;
    if Newer(epochs, a, b) {
      LatestIsTopTwo(epochs, a, b);
    } else {
      LatestIsTopTwo(epochs, b, a);
    }
    assert |{a, b}| == 2;
  }

  lemma BothOf(two: set<EpochId>) returns (a: EpochId, b: EpochId)
    requires |two| == 2
    ensures a != b && two == {a, b}
  {
    a :| a in two;
    assert |two - {a}| == 1;
    b :| b in two - {a};
    assert |two - {a} - {b}| == 0;
  }

  lemma LatestAreEpochs(epochs: map<EpochId, Epoch>)
    ensures Latest(epochs) <= epochs.Keys
  {
  }

  /** The dry run's query, exactly: it proposes the live objects without a tombstone that are in neither of the two
      newest complete snapshots, and nothing while there are fewer than two. */
  lemma CandidatesExactly(st: State, oid: Oid)
    ensures oid in Candidates(st) <==>
      oid in st.objects && oid !in st.tombstones && AbsentFromNewestTwo(st.epochs, oid)
  {
    hide Unreachable, AbsentFromNewestTwo;
    if Unreachable(st.epochs, oid) {
      UnreachableIsAbsent(st.epochs, oid);
    }
    if AbsentFromNewestTwo(st.epochs, oid) {
      AbsentIsUnreachable(st.epochs, oid);
    }
  }

  // ------------------------------------------------------------------ what was submitted

  ghost predicate Distinct(oids: seq<Oid>) {
    forall i, j :: 0 <= i < j < |oids| ==> oids[i] != oids[j]
  }

  /** Step `p` commits a snapshot: its list repeats no id. */
  ghost predicate Submitted(run: Run, p: nat) {
    p < |run.steps| && run.steps[p].Submit? && Distinct(run.steps[p].oids)
  }

  lemma SubmitRecords(st: State, id: EpochId, startedAt: nat, oids: seq<Oid>)
    ensures var r := SubmitTx(st, id, startedAt, oids);
      && (!Distinct(oids) ==> r == st)
      && (Distinct(oids) ==>
            && r.epochs.Keys == st.epochs.Keys + {id}
            && (forall e :: e in st.epochs && e != id ==> r.epochs[e] == st.epochs[e])
            && r.epochs[id].completedAt == startedAt
            && forall oid :: oid in r.epochs[id].reachable <==> oid in oids)
  {
  }

  /** An epoch records its submitted list: nothing else, and nothing less. */
  ghost predicate Records(epochs: map<EpochId, Epoch>, step: Step)
    requires step.Submit?
  {
    && step.epoch in epochs && epochs[step.epoch].completedAt == step.startedAt
    && forall oid :: oid in epochs[step.epoch].reachable <==> oid in step.oids
  }

  /** Every step but a committing submission leaves the epochs alone. */
  lemma StepKeepsRecords(h: Hashes, st: State, step: Step, e: EpochId)
    requires Enabled(st, step)
    ensures var r := Apply(h, st, step);
      && (e in st.epochs ==> e in r.epochs && r.epochs[e] == st.epochs[e])
      && (e in r.epochs && e !in st.epochs ==>
            step.Submit? && step.epoch == e && Distinct(step.oids) && Records(r.epochs, step))
      && (step.Submit? && Distinct(step.oids) ==> Records(r.epochs, step))
  {
    hide BeginTx, RegisterTx, PublishTx, CollectTx, ReclaimTx, StageTx, SubmitTx, PutEffect, Candidates, HeldOpen,
      Named;
    Frame(h, st, step);
    if step.Submit? {
      SubmitRecords(st, step.epoch, step.startedAt, step.oids);
    }
  }

  /** In every state of every run, every epoch goes back to the submission that committed it, and records it. */
  lemma {:induction false} EpochOrigin(h: Hashes, run: Run, n: nat, e: EpochId) returns (p: nat)
    requires RunFrom(h, EMPTY, run) && n <= |run.steps| && e in run.states[n].epochs
    ensures p < n && Submitted(run, p) && run.steps[p].epoch == e && Records(run.states[n].epochs, run.steps[p])
  {
    hide Enabled, Apply;
    assert n > 0;
    assert Next(h, run.states[n - 1], run.steps[n - 1], run.states[n]);
    StepKeepsRecords(h, run.states[n - 1], run.steps[n - 1], e);
    if e in run.states[n - 1].epochs {
      p := EpochOrigin(h, run, n - 1, e);
    } else {
      p := n - 1;
    }
  }

  /** And every committed submission is recorded from then on. */
  lemma {:induction false} SubmissionStays(h: Hashes, run: Run, p: nat, n: nat)
    requires IsRun(h, run) && p < n <= |run.steps| && Submitted(run, p)
    ensures Records(run.states[n].epochs, run.steps[p])
    decreases n
  {
    hide Enabled, Apply;
    assert Next(h, run.states[n - 1], run.steps[n - 1], run.states[n]);
    StepKeepsRecords(h, run.states[n - 1], run.steps[n - 1], run.steps[p].epoch);
    if p < n - 1 {
      SubmissionStays(h, run, p, n - 1);
    }
  }

  /** No epoch id is submitted twice. */
  lemma RecordedTwice(h: Hashes, run: Run, p: nat, q: nat)
    requires IsRun(h, run) && p < q && Submitted(run, p) && Submitted(run, q)
    ensures run.steps[p].epoch != run.steps[q].epoch
  {
    hide Apply, Distinct;
    SubmissionStays(h, run, p, q);
    assert Next(h, run.states[q], run.steps[q], run.states[q + 1]);
  }

  /** Submission `r` was completed before submission `p`, ties broken by id. */
  ghost predicate Before(run: Run, r: nat, p: nat)
    requires Submitted(run, r) && Submitted(run, p)
  {
    || run.steps[r].startedAt < run.steps[p].startedAt
    || (run.steps[r].startedAt == run.steps[p].startedAt && run.steps[r].epoch < run.steps[p].epoch)
  }

  /** The two newest snapshots committed in the first `n` steps. */
  ghost predicate NewestSubmissions(run: Run, n: nat, p: nat, q: nat) {
    && p < n && q < n && p != q && Submitted(run, p) && Submitted(run, q)
    && forall r: nat :: r < n && r != p && r != q && Submitted(run, r) ==> Before(run, r, p) && Before(run, r, q)
  }

  // ------------------------------------------------------------------ where tombstones come from

  /** At the dry run at `i` two snapshots had been committed, the newest two did not list the object, and it was
      live and not staged yet. */
  ghost predicate EvidenceAt(run: Run, i: nat, oid: Oid)
    requires i < |run.steps| < |run.states|
  {
    && run.steps[i] == DryRun
    && oid in run.states[i].objects && oid !in run.states[i].tombstones
    && exists p: nat, q: nat ::
         NewestSubmissions(run, i, p, q) && oid !in run.steps[p].oids && oid !in run.steps[q].oids
  }

  /** The stage at `j` wrote the tombstone from a plan of the dry run at `i`. */
  ghost predicate StagedAt(run: Run, i: nat, j: nat, oid: Oid, deadline: nat)
    requires i < j < |run.steps| < |run.states|
  {
    && EvidenceAt(run, i, oid)
    && run.steps[j].Stage? && oid in run.steps[j].plan
    && deadline == run.states[j].now + run.steps[j].grace
  }

  lemma {:induction false} PlanOrigin(h: Hashes, run: Run, n: nat, plan: set<Oid>) returns (i: nat)
    requires RunFrom(h, EMPTY, run) && n <= |run.steps| && plan in run.states[n].plans
    ensures i < n && run.steps[i] == DryRun && plan == Candidates(run.states[i])
  {
    hide BeginTx, RegisterTx, PublishTx, CollectTx, ReclaimTx, Candidates;
    assert n > 0;
    var st, step := run.states[n - 1], run.steps[n - 1];
    assert Next(h, st, step, run.states[n]);
    Frame(h, st, step);
    if plan in st.plans {
      i := PlanOrigin(h, run, n - 1, plan);
    } else {
      i := n - 1;
    }
  }

  lemma CandidateEvidence(h: Hashes, run: Run, i: nat, oid: Oid)
    requires RunFrom(h, EMPTY, run) && i < |run.steps| && run.steps[i] == DryRun
    requires oid in Candidates(run.states[i])
    ensures EvidenceAt(run, i, oid)
  {
    hide Enabled, Apply, Candidates, Distinct;
    var epochs := run.states[i].epochs;
    CandidatesExactly(run.states[i], oid);
    var a, b :| NewestTwo(epochs, a, b) && oid !in epochs[a].reachable && oid !in epochs[b].reachable;
    var p := EpochOrigin(h, run, i, a);
    var q := EpochOrigin(h, run, i, b);
    forall r: nat | r < i && r != p && r != q && Submitted(run, r) ensures Before(run, r, p) && Before(run, r, q) {
      SubmissionStays(h, run, r, i);
      SubmissionsDiffer(h, run, r, p);
      SubmissionsDiffer(h, run, r, q);
      assert Older(epochs, run.steps[r].epoch, a);
    }
    assert NewestSubmissions(run, i, p, q);
  }

  lemma SubmissionsDiffer(h: Hashes, run: Run, p: nat, q: nat)
    requires IsRun(h, run) && Submitted(run, p) && Submitted(run, q) && p != q
    ensures run.steps[p].epoch != run.steps[q].epoch
  {
    hide IsRun, Distinct;
    if p < q {
      RecordedTwice(h, run, p, q);
    } else {
      RecordedTwice(h, run, q, p);
    }
  }

  lemma StageAdds(st: State, plan: set<Oid>, grace: nat, oid: Oid)
    requires oid in StageTx(st, plan, grace).tombstones
    ensures oid in st.tombstones ==> StageTx(st, plan, grace).tombstones[oid] == st.tombstones[oid]
    ensures oid !in st.tombstones ==>
      oid in plan && StageTx(st, plan, grace).tombstones[oid] == st.now + grace
  {
  }

  /** Staging, exactly, for every grace: if every planned object is live, each of them has a tombstone afterwards,
      new ones are due when the grace is over, old ones keep their deadline, and nothing else changes; if one has
      gone, nothing is staged. */
  lemma StageExactly(st: State, plan: set<Oid>, grace: nat)
    ensures var r := StageTx(st, plan, grace);
      && r == st.(tombstones := r.tombstones)
      && (!(forall oid :: oid in plan ==> oid in st.objects) ==> r.tombstones == st.tombstones)
      && ((forall oid :: oid in plan ==> oid in st.objects) ==>
            && r.tombstones.Keys == st.tombstones.Keys + plan
            && (forall oid :: oid in st.tombstones ==> r.tombstones[oid] == st.tombstones[oid])
            && (forall oid :: oid in plan && oid !in st.tombstones ==> r.tombstones[oid] == st.now + grace))
  {
    assert (forall oid :: oid in plan ==> oid in st.objects) <==> plan <= st.objects.Keys;
  }

  /** Every tombstone was staged from an evidenced dry run, and its deadline is staging time plus
      grace. */
  lemma {:induction false} TombstoneOrigin(h: Hashes, run: Run, n: nat, oid: Oid) returns (i: nat, j: nat)
    requires RunFrom(h, EMPTY, run) && n <= |run.steps| && oid in run.states[n].tombstones
    ensures i < j < n && StagedAt(run, i, j, oid, run.states[n].tombstones[oid])
  {
    hide BeginTx, RegisterTx, PublishTx, CollectTx, ReclaimTx, StageTx, Candidates, EvidenceAt;
    assert n > 0;
    var st, step := run.states[n - 1], run.steps[n - 1];
    assert Next(h, st, step, run.states[n]);
    Frame(h, st, step);
    if step.Stage? { StageAdds(st, step.plan, step.grace, oid); }
    if step.Collect? { CollectShrinks(st, step.oid); }
    if oid in st.tombstones {
      i, j := TombstoneOrigin(h, run, n - 1, oid);
    } else {
      i := PlanOrigin(h, run, n - 1, step.plan);
      j := n - 1;
      CandidateEvidence(h, run, i, oid);
    }
  }

  lemma CollectShrinks(st: State, oid: Oid)
    ensures var r := CollectTx(st, oid);
      && r.tombstones.Keys <= st.tombstones.Keys
      && forall o :: o in r.tombstones ==> r.tombstones[o] == st.tombstones[o]
  {
    hide DropReferences, RowsOf;
  }

  /** GC evidence over runs: every deletion was staged, from a dry run before which two snapshots had been submitted
      and committed, neither of the newest two listing the object, and happens no earlier than staging time plus
      grace. */
  lemma DeletionHasEvidence(h: Hashes, run: Run, k: nat, oid: Oid) returns (i: nat, j: nat)
    requires RunFrom(h, EMPTY, run) && k < |run.steps| && run.steps[k] == Collect(oid)
    ensures i < j < k && EvidenceAt(run, i, oid)
    ensures run.steps[j].Stage? && oid in run.steps[j].plan
    ensures run.states[j].now + run.steps[j].grace <= run.states[k].now
  {
    hide BeginTx, RegisterTx, PublishTx, CollectTx, ReclaimTx, EvidenceAt;
    assert Next(h, run.states[k], run.steps[k], run.states[k + 1]);
    i, j := TombstoneOrigin(h, run, k, oid);
  }

  // ------------------------------------------------------------------ too few snapshots

  lemma {:induction false} EpochsOnlyGrow(h: Hashes, run: Run, i: nat, n: nat)
    requires IsRun(h, run) && i <= n <= |run.steps|
    ensures run.states[i].epochs.Keys <= run.states[n].epochs.Keys
    decreases n - i
  {
    hide BeginTx, RegisterTx, PublishTx, CollectTx, ReclaimTx;
    if i < n {
      EpochsOnlyGrow(h, run, i, n - 1);
      assert Next(h, run.states[n - 1], run.steps[n - 1], run.states[n]);
      Frame(h, run.states[n - 1], run.steps[n - 1]);
    }
  }

  /** Only collection removes an object. */
  lemma ObjectLeavesByCollect(h: Hashes, st: State, step: Step, oid: Oid)
    requires Enabled(st, step) && oid in st.objects && oid !in Apply(h, st, step).objects
    ensures step == Collect(oid)
  {
    hide BeginTx, RegisterTx, PublishTx, CollectTx, ReclaimTx;
    Frame(h, st, step);
    match step {
      case Publish(s) => PublishKeepsObjects(st, s);
      case Collect(other) => CollectRemovesOne(st, other);
      case _ =>
    }
  }

  lemma CollectRemovesOne(st: State, oid: Oid)
    ensures st.objects.Keys - {oid} <= CollectTx(st, oid).objects.Keys
  {
    hide DropReferences, RowsOf;
  }

  /** A run that ends with fewer than two complete snapshots has deleted no object. */
  lemma {:induction false} NoDeletionWithoutTwoEpochs(h: Hashes, run: Run, i: nat, n: nat, oid: Oid)
    requires RunFrom(h, EMPTY, run) && i <= n <= |run.steps|
    requires |run.states[n].epochs| < 2 && oid in run.states[i].objects
    ensures oid in run.states[n].objects
    decreases n - i
  {
    hide Enabled, Apply;
    if i < n {
      EpochsOnlyGrow(h, run, n - 1, n);
      KeysBound(run.states[n - 1].epochs, run.states[n].epochs);
      NoDeletionWithoutTwoEpochs(h, run, i, n - 1, oid);
      var st, step := run.states[n - 1], run.steps[n - 1];
      assert Next(h, st, step, run.states[n]);
      if oid !in run.states[n].objects {
        ObjectLeavesByCollect(h, st, step, oid);
        var a, b := DeletionHasEvidence(h, run, n - 1, oid);
        EvidenceHasTwo(h, run, a, oid);
        EpochsOnlyGrow(h, run, a, n);
        KeysBound(run.states[a].epochs, run.states[n].epochs);
      }
    }
  }

  lemma EvidenceHasTwo(h: Hashes, run: Run, i: nat, oid: Oid)
    requires IsRun(h, run) && i < |run.steps| && EvidenceAt(run, i, oid)
    ensures 2 <= |run.states[i].epochs|
  {
    hide Enabled, Apply, Distinct;
    var epochs := run.states[i].epochs;
    var p: nat, q: nat :| NewestSubmissions(run, i, p, q) && oid !in run.steps[p].oids && oid !in run.steps[q].oids;
    SubmissionStays(h, run, p, i);
    SubmissionStays(h, run, q, i);
    SubmissionsDiffer(h, run, p, q);
    var two := {run.steps[p].epoch, run.steps[q].epoch};
    assert epochs.Keys == two + (epochs.Keys - two);
    assert |epochs| == |epochs.Keys|;
  }

  lemma KeysBound(few: map<EpochId, Epoch>, many: map<EpochId, Epoch>)
    requires few.Keys <= many.Keys
    ensures |few| <= |many|
  {
    assert many.Keys == few.Keys + (many.Keys - few.Keys);
    assert |few| == |few.Keys| && |many| == |many.Keys|;
  }
}
