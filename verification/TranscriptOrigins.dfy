/** Where each transcript row comes from: the intake its work was taken in at, over any run
    (cmd/server/transcripts.go handleDeliverTranscript, cmd/server/main.go transcribe). */
module TranscriptOrigins {
  import opened TranscriptQueue
  import opened TranscriptRuns

  /** The state a run is in before its `i`th action. */
  function At(actions: seq<Action>, i: nat): State
    requires i <= |actions|
  {
    Run(START, actions[..i])
  }

  /** The server has the work in hand: its own, or a delivery it accepted. */
  predicate Admitted(s: State, job: JobId) {
    job in s.jobs && (!s.jobs[job].Hearing? || s.jobs[job].local)
  }

  /** The action takes work on an item in, under a job's name, while the item has this etag: a
      pass of the server's own, or a delivery that names that very etag. */
  predicate TakesIn(s: State, a: Action, job: JobId, id: ItemId, etag: Etag) {
    && (a == Take(job, id, true) || (a.Deliver? && a.job == job && a.etag == etag && job in s.jobs && s.jobs[job].id == id))
    && !Admitted(s, job) && id in s.items && s.items[id].etag == etag
    && Admitted(Step(s, a), job)
  }

  /** The action is the row step of work under way on this item. */
  predicate WritesRow(s: State, a: Action, id: ItemId) {
    a.Go? && a.job in s.jobs && s.jobs[a.job].RowNext? && s.jobs[a.job].id == id
  }

  /** The job is in the server's hands all the way from the `k`th action to the `n`th. */
  predicate UnderWay(actions: seq<Action>, k: nat, n: nat, job: JobId)
    requires n <= |actions|
  {
    forall i: nat :: k < i <= n ==> Admitted(At(actions, i), job)
  }

  /** The row an item has now was written by the `m`th action, at the end of the work taken in
      by the `k`th, when the item had this etag; and no row step of the item's came after. */
  ghost predicate Origin(actions: seq<Action>, id: ItemId, etag: Etag, job: JobId, k: nat, m: nat) {
    && k < m < |actions|
    && TakesIn(At(actions, k), actions[k], job, id, etag)
    && UnderWay(actions, k, m, job)
    && actions[m] == Go(job) && WritesRow(At(actions, m), actions[m], id)
    && NoRowAfter(actions, m, id)
  }

  predicate NoRowAfter(actions: seq<Action>, m: nat, id: ItemId) {
    forall i: nat :: m < i < |actions| ==> !WritesRow(At(actions, i), actions[i], id)
  }

  ghost predicate HasOrigin(actions: seq<Action>, id: ItemId, etag: Etag) {
    exists job: JobId, k: nat, m: nat :: Origin(actions, id, etag, job, k, m)
  }

  /** The work at `job` was taken in by the `k`th action, at the etag it is carried under. */
  predicate Intake(actions: seq<Action>, job: JobId, k: nat) {
    var s := At(actions, |actions|);
    && k < |actions| && Admitted(s, job)
    && TakesIn(At(actions, k), actions[k], job, s.jobs[job].id, s.jobs[job].named)
    && UnderWay(actions, k, |actions|, job)
  }

  lemma Prefixes(actions: seq<Action>)
    requires actions != []
    ensures forall i: nat :: 0 <= i < |actions| ==> At(actions[..|actions| - 1], i) == At(actions, i)
    ensures At(actions, |actions|) == Step(At(actions, |actions| - 1), actions[|actions| - 1])
  {
    var before := actions[..|actions| - 1];
    assert forall i: nat :: 0 <= i < |actions| ==> before[..i] == actions[..i];
    assert actions[..|actions|] == actions;
  }

  lemma JobKeepsItsName(s: State, a: Action, job: JobId)
    requires Admitted(s, job) && Admitted(Step(s, a), job)
    ensures Step(s, a).jobs[job].id == s.jobs[job].id && Step(s, a).jobs[job].named == s.jobs[job].named
  {
  }

  lemma UnderWayExtends(actions: seq<Action>, k: nat, job: JobId)
    requires actions != [] && UnderWay(actions[..|actions| - 1], k, |actions| - 1, job)
    requires Admitted(At(actions, |actions|), job)
    ensures UnderWay(actions, k, |actions|, job)
  {
    Prefixes(actions);
    var before, n := actions[..|actions| - 1], |actions| - 1;
    assert before[..n] == before;
    forall i: nat | k < i <= |actions|
      ensures Admitted(At(actions, i), job)
    {
      if i < |actions| {
        assert Admitted(At(before, i), job);
      }
    }
  }

  /** The work that one state has in hand was taken in by that action, and the next state has it
      still. */
  lemma StillTakenIn(was: State, intake: Action, s: State, a: Action, job: JobId)
    requires Admitted(s, job) && Admitted(Step(s, a), job)
    requires TakesIn(was, intake, job, s.jobs[job].id, s.jobs[job].named)
    ensures TakesIn(was, intake, job, Step(s, a).jobs[job].id, Step(s, a).jobs[job].named)
  {
    JobKeepsItsName(s, a, job);
  }

  lemma IntakeGoesOn(actions: seq<Action>, job: JobId, k: nat)
    requires actions != [] && Intake(actions[..|actions| - 1], job, k)
    requires Admitted(At(actions, |actions|), job)
    ensures Intake(actions, job, k)
  {
    UnderWayExtends(actions, k, job);
    Prefixes(actions);
    var before, n := actions[..|actions| - 1], |actions| - 1;
    assert before[..n] == before && before[k] == actions[k];
    StillTakenIn(At(actions, k), actions[k], At(actions, n), actions[n], job);
  }

  lemma AdmittingTakesIn(s: State, a: Action, job: JobId)
    requires !Admitted(s, job) && Admitted(Step(s, a), job)
    ensures var j := Step(s, a).jobs[job]; TakesIn(s, a, job, j.id, j.named)
  {
  }

  lemma {:induction false} EveryJobHasAnIntake(actions: seq<Action>, job: JobId)
    requires Admitted(At(actions, |actions|), job)
    ensures exists k: nat :: Intake(actions, job, k)
  {
    assert actions[..|actions|] == actions;
    if actions != [] {
      Prefixes(actions);
      var before, n := actions[..|actions| - 1], |actions| - 1;
      if Admitted(At(actions, n), job) {
        EveryJobHasAnIntake(before, job);
        var k: nat :| Intake(before, job, k);
        IntakeGoesOn(actions, job, k);
      } else {
        AdmittingTakesIn(At(actions, n), actions[n], job);
        assert Intake(actions, job, n);
      }
    }
  }

  lemma UnderWayGoesOn(actions: seq<Action>, k: nat, m: nat, job: JobId)
    requires actions != [] && m < |actions| && UnderWay(actions[..|actions| - 1], k, m, job)
    ensures UnderWay(actions, k, m, job)
  {
    Prefixes(actions);
    forall i: nat | k < i <= m
      ensures Admitted(At(actions, i), job)
    {
      assert Admitted(At(actions[..|actions| - 1], i), job);
    }
  }

  lemma NoRowGoesOn(actions: seq<Action>, m: nat, id: ItemId)
    requires actions != [] && NoRowAfter(actions[..|actions| - 1], m, id)
    requires !WritesRow(At(actions, |actions| - 1), actions[|actions| - 1], id)
    ensures NoRowAfter(actions, m, id)
  {
    Prefixes(actions);
    var before := actions[..|actions| - 1];
    forall i: nat | m < i < |actions|
      ensures !WritesRow(At(actions, i), actions[i], id)
    {
      if i < |before| {
        assert !WritesRow(At(before, i), before[i], id);
      }
    }
  }

  lemma OriginGoesOn(actions: seq<Action>, id: ItemId, etag: Etag)
    requires actions != [] && HasOrigin(actions[..|actions| - 1], id, etag)
    requires !WritesRow(At(actions, |actions| - 1), actions[|actions| - 1], id)
    ensures HasOrigin(actions, id, etag)
  {
    var before := actions[..|actions| - 1];
    var job: JobId, k: nat, m: nat :| Origin(before, id, etag, job, k, m);
    UnderWayGoesOn(actions, k, m, job);
    NoRowGoesOn(actions, m, id);
    Prefixes(actions);
    assert Origin(actions, id, etag, job, k, m);
  }

  lemma RowStep(s: State, a: Action, id: ItemId)
    requires WritesRow(s, a, id)
    ensures id in Step(s, a).rows && Step(s, a).rows[id] == s.jobs[a.job].named
    ensures a == Go(a.job) && Admitted(s, a.job) && s.jobs[a.job].id == id
  {
  }

  lemma IntakeIsOrigin(actions: seq<Action>, id: ItemId, job: JobId, k: nat)
    requires actions != [] && Intake(actions[..|actions| - 1], job, k)
    requires actions[|actions| - 1] == Go(job) && WritesRow(At(actions, |actions| - 1), Go(job), id)
    ensures Origin(actions, id, At(actions, |actions| - 1).jobs[job].named, job, k, |actions| - 1)
  {
    Prefixes(actions);
    UnderWayGoesOn(actions, k, |actions| - 1, job);
  }

  lemma OriginAtRowStep(actions: seq<Action>, id: ItemId)
    requires actions != [] && WritesRow(At(actions, |actions| - 1), actions[|actions| - 1], id)
    ensures id in At(actions, |actions|).rows && HasOrigin(actions, id, At(actions, |actions|).rows[id])
  {
    Prefixes(actions);
    var before, n := actions[..|actions| - 1], |actions| - 1;
    var job := actions[n].job;
    RowStep(At(actions, n), actions[n], id);
    EveryJobHasAnIntake(before, job);
    var k: nat :| Intake(before, job, k);
    IntakeIsOrigin(actions, id, job, k);
  }

  lemma OthersKeepTheRow(s: State, a: Action, id: ItemId)
    requires !WritesRow(s, a, id) && id in Step(s, a).rows
    ensures id in s.rows && s.rows[id] == Step(s, a).rows[id]
  {
  }

  /** In every run every row records the etag its own work was taken in under: the item had it
      at the intake, a delivered one was delivered under it, and whatever became of the item
      before the row was written changes nothing. */
  lemma {:induction false} EveryRowRecordsItsIntake(actions: seq<Action>, id: ItemId)
    requires id in Run(START, actions).rows
    ensures HasOrigin(actions, id, Run(START, actions).rows[id])
  {
    assert actions[..|actions|] == actions;
    if actions != [] {
      Prefixes(actions);
      var before, a := actions[..|actions| - 1], actions[|actions| - 1];
      var s := At(actions, |actions| - 1);
      if WritesRow(s, a, id) {
        OriginAtRowStep(actions, id);
      } else {
        OthersKeepTheRow(s, a, id);
        EveryRowRecordsItsIntake(before, id);
        OriginGoesOn(actions, id, s.rows[id]);
      }
    }
  }
}
