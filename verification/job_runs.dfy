/** What holds in every run of the job queue: absorption of terminal states, one notification
    per job, attempt budgets and the alternation of hand-outs and returns. */
module JobRuns {
  import opened Jobs
  import opened JobHistory

  // ---- One event seen from one job ----

  predicate Claims(e: Event, id: string) { e.Claim? && e.id == id }
  predicate Releases(e: Event, id: string) { e.Release? && e.id == id }

  /** Every way an event may treat a stored job: purge it when terminal, leave it alone, or
      move it along the life cycle without touching what it was created with. */
  predicate LifeStep(e: Event, j: Job, k: Job) {
    && SamePayload(j, k)
    && (if Claims(e, j.id) then
          j.status.Claimable() && k.status.Running? && k.attemptCount == j.attemptCount + 1
        else
          && k.attemptCount == j.attemptCount
          && (if Releases(e, j.id) then k.status.Pending? && j.status.Running?
              else
                || k == j
                || (j.status.Running? && k.status.Running?)
                || (j.status.Running? && k.status.Pending? &&
                    !(j.maxAttempts > 0 && j.attemptCount >= j.maxAttempts))
                || (!j.status.Terminal() && k.status.Terminal())))
  }

  lemma EditedLife(cfg: Config, j: Job, e: Event)
    requires Fine(j) && Targets(e) && e.id == j.id && Applies(cfg, j, e)
    ensures LifeStep(e, j, Edited(cfg, j, e))
  {
  }

  lemma OtherStep(cfg: Config, s: State, e: Event, id: string)
    requires id in s.jobs && !(Targets(e) && e.id == id) && Enabled(cfg, s, e)
    requires id in s.issued && (Targets(e) ==> s.jobs[e.id].id == e.id)
    requires Targets(e) ==> Edited(cfg, s.jobs[e.id], e).id == e.id
    ensures var t := Apply(cfg, s, e);
            if id in t.jobs then t.jobs[id] == s.jobs[id]
            else e.PurgeJobs? && s.jobs[id].status.Terminal()
  {
    hide Edited;
  }

  lemma JobStep(cfg: Config, s: State, e: Event, id: string)
    requires Sound(s) && Enabled(cfg, s, e) && id in s.jobs
    ensures var t := Apply(cfg, s, e);
            if id in t.jobs then LifeStep(e, s.jobs[id], t.jobs[id])
            else e.PurgeJobs? && s.jobs[id].status.Terminal()
    ensures id in s.issued
  {
    hide Edited, NewJob, Attempted;
    assert JobOk(s, id);
    if Targets(e) {
      assert JobOk(s, e.id);
      EditedFine(cfg, s.jobs[e.id], e);
    }
    if Targets(e) && e.id == id {
      EditedLife(cfg, s.jobs[id], e);
    } else {
      OtherStep(cfg, s, e, id);
    }
  }

  lemma IssuedStep(cfg: Config, s: State, e: Event, id: string)
    requires Sound(s) && Enabled(cfg, s, e) && id !in s.jobs
    ensures var t := Apply(cfg, s, e);
            id in t.jobs ==> id !in s.issued && e.Create? && t.jobs[id] == NewJob(id, e.user, e.input, e.labels, e.at)
    ensures s.issued <= Apply(cfg, s, e).issued
    ensures !Claims(e, id) && !Releases(e, id)
  {
    hide Edited, NewJob, Attempted;
    if Targets(e) {
      assert JobOk(s, e.id);
      EditedFine(cfg, s.jobs[e.id], e);
    }
  }

  // ---- Terminal states absorb ----

  lemma IssuedGrows(cfg: Config, s: State, e: Event)
    requires Enabled(cfg, s, e)
    ensures s.issued <= Apply(cfg, s, e).issued
  {
  }

  lemma GoneStep(cfg: Config, r: Run, n: nat, id: string)
    requires Legal(cfg, r) && n < |r.events| && id in r.states[n].issued && id !in r.states[n].jobs
    ensures id in r.states[n + 1].issued && id !in r.states[n + 1].jobs
  {
    hide Apply, Enabled, Sound;
    Reachable(cfg, r, n);
    assert Step(cfg, r, n);
    IssuedStep(cfg, r.states[n], r.events[n], id);
  }

  /** An issued id that names no job names none to the end of the run. */
  lemma {:induction false} GoneForGood(cfg: Config, r: Run, m: nat, n: nat, id: string)
    requires Legal(cfg, r) && m <= n < |r.states| && id in r.states[m].issued && id !in r.states[m].jobs
    ensures id in r.states[n].issued && id !in r.states[n].jobs
  {
    if m < n {
      GoneForGood(cfg, r, m, n - 1, id);
      GoneStep(cfg, r, n - 1, id);
    }
  }

  /** What one event of a run does to one stored job. */
  lemma JobMove(cfg: Config, r: Run, n: nat, id: string)
    requires Legal(cfg, r) && n < |r.events| && id in r.states[n].jobs
    ensures var s, t := r.states[n], r.states[n + 1];
            && id in s.issued && s.issued <= t.issued
            && s.jobs[id].id == id
            && if id in t.jobs then LifeStep(r.events[n], s.jobs[id], t.jobs[id])
               else r.events[n].PurgeJobs? && s.jobs[id].status.Terminal()
  {
    hide Apply, Enabled, LifeStep;
    Reachable(cfg, r, n);
    assert JobOk(r.states[n], id);
    assert Step(cfg, r, n);
    JobStep(cfg, r.states[n], r.events[n], id);
    IssuedGrows(cfg, r.states[n], r.events[n]);
  }

  /** A terminal job keeps its record for good, or is purged and its id never returns. */
  lemma {:induction false} TerminalForGood(cfg: Config, r: Run, m: nat, n: nat, id: string)
    requires Legal(cfg, r) && m <= n < |r.states|
    requires id in r.states[m].jobs && r.states[m].jobs[id].status.Terminal()
    ensures id in r.states[n].jobs ==> r.states[n].jobs[id] == r.states[m].jobs[id]
    ensures id in r.states[n].issued
  {
    hide Apply, Enabled;
    if m == n {
      Reachable(cfg, r, n);
      assert JobOk(r.states[n], id);
    } else {
      TerminalForGood(cfg, r, m, n - 1, id);
      if id in r.states[n - 1].jobs { JobMove(cfg, r, n - 1, id); }
      else { GoneStep(cfg, r, n - 1, id); }
    }
  }

  // ---- Exactly one notification ----

  function NewRows(s: State, t: State, id: string): set<string> {
    set w | w in t.outbox && w !in s.outbox && t.outbox[w].jobId == id
  }

  /** How many outbox rows the first `n` events enqueued for job `id`, counted on the outbox itself. */
  function Enqueued(r: Run, n: nat, id: string): nat
    requires n < |r.states|
  {
    if n == 0 then 0 else Enqueued(r, n - 1, id) + |NewRows(r.states[n - 1], r.states[n], id)|
  }

  function Due(cfg: Config, s: State, id: string): nat {
    if id in s.jobs && s.jobs[id].status.Terminal() && cfg.notify then 1 else 0
  }

  lemma PutNewRows(cfg: Config, s: State, j: Job, row: string, now: Time, id: string)
    requires Sound(s) && (j.status.Terminal() ==> Fresh(s, row))
    ensures NewRows(s, Put(cfg, s, j, row, now), id)
            == if j.status.Terminal() && cfg.notify && j.id == id then {row} else {}
  {
    if row in s.outbox { assert RowOk(s, row); }
  }

  lemma PutDue(cfg: Config, s: State, j: Job, row: string, now: Time, id: string)
    requires Sound(s) && (j.status.Terminal() ==> Fresh(s, row))
    requires j.id in s.jobs && !s.jobs[j.id].status.Terminal()
    ensures |NewRows(s, Put(cfg, s, j, row, now), id)| + Due(cfg, s, id) == Due(cfg, Put(cfg, s, j, row, now), id)
  {
    PutNewRows(cfg, s, j, row, now, id);
  }

  /** Events that edit no job leave every dueness as it was and enqueue nothing. */
  lemma QuietStep(cfg: Config, s: State, e: Event, id: string)
    requires Enabled(cfg, s, e) && !Targets(e) && (id in s.jobs ==> id in s.issued)
    ensures var t := Apply(cfg, s, e);
            && NewRows(s, t, id) == {}
            && (id in t.jobs || id !in s.jobs ==> Due(cfg, s, id) == Due(cfg, t, id))
  {
    hide Attempted, Requeued;
  }

  lemma NewRowsStep(cfg: Config, s: State, e: Event, id: string)
    requires Sound(s) && Enabled(cfg, s, e)
    requires id in s.jobs || id !in s.issued
    ensures var t := Apply(cfg, s, e);
            id in t.jobs || id !in t.issued ==> |NewRows(s, t, id)| + Due(cfg, s, id) == Due(cfg, t, id)
    ensures id in s.jobs ==> id in s.issued
  {
    hide Edited, NewRows, Due, Attempted, Requeued;
    if id in s.jobs { assert JobOk(s, id); }
    if Targets(e) {
      assert JobOk(s, e.id);
      EditedFine(cfg, s.jobs[e.id], e);
      PutDue(cfg, s, Edited(cfg, s.jobs[e.id], e), RowId(e), e.at, id);
    } else {
      QuietStep(cfg, s, e, id);
    }
  }

  /** With the webhook configured every stored job has had exactly one row enqueued if it is
      terminal and none otherwise, whatever was delivered, requeued or purged meanwhile. */
  lemma {:induction false} ExactlyOneNotification(cfg: Config, r: Run, n: nat, id: string)
    requires Legal(cfg, r) && n < |r.states|
    ensures id in r.states[n].jobs ==> Enqueued(r, n, id) == Due(cfg, r.states[n], id)
    ensures id !in r.states[n].issued ==> Enqueued(r, n, id) == 0
  {
    hide Apply, Enabled, Sound, Due, NewRows;
    if n == 0 { return; }
    var s, e := r.states[n - 1], r.events[n - 1];
    ExactlyOneNotification(cfg, r, n - 1, id);
    Reachable(cfg, r, n - 1);
    assert Step(cfg, r, n - 1);
    IssuedGrows(cfg, s, e);
    NoneDue(cfg, s, r.states[n], id);
    NoneUnissued(cfg, r, n, id);
    if id in s.jobs || id !in s.issued { NewRowsStep(cfg, s, e, id); }
    if id !in s.jobs && id in s.issued { GoneStep(cfg, r, n - 1, id); }
    if id in s.jobs { JobMove(cfg, r, n - 1, id); }
  }

  /** Never two rows for one job, whatever was purged meanwhile; and a job that is gone had
      exactly the one that was due to it. */
  lemma {:induction false} NeverTwice(cfg: Config, r: Run, m: nat, n: nat, id: string)
    requires Legal(cfg, r) && m <= n < |r.states|
    ensures Enqueued(r, n, id) <= 1
    ensures id in r.states[m].jobs && id !in r.states[n].jobs ==> Enqueued(r, n, id) == if cfg.notify then 1 else 0
  {
    hide Apply, Enabled, Sound, NewRows;
    ExactlyOneNotification(cfg, r, n, id);
    if n > 0 && id !in r.states[n].jobs {
      if m < n { NeverTwice(cfg, r, m, n - 1, id); } else { NeverTwice(cfg, r, n - 1, n - 1, id); }
      NoRowsForGone(cfg, r, n, id);
      ExactlyOneNotification(cfg, r, n - 1, id);
      if id in r.states[n - 1].jobs { JobMove(cfg, r, n - 1, id); }
    }
  }

  lemma NoRowsForGone(cfg: Config, r: Run, n: nat, id: string)
    requires Legal(cfg, r) && 0 < n < |r.states| && id !in r.states[n].jobs
    ensures NewRows(r.states[n - 1], r.states[n], id) == {}
  {
    Reachable(cfg, r, n);
    assert forall w <- r.states[n].outbox :: RowOk(r.states[n], w);
  }

  lemma NoneUnissued(cfg: Config, r: Run, n: nat, id: string)
    requires Legal(cfg, r) && n < |r.states|
    ensures id in r.states[n].jobs ==> id in r.states[n].issued
  {
    Reachable(cfg, r, n);
    assert id in r.states[n].jobs ==> JobOk(r.states[n], id);
  }

  lemma NoneDue(cfg: Config, s: State, t: State, id: string)
    ensures id !in s.jobs ==> Due(cfg, s, id) == 0
    ensures id !in t.jobs ==> Due(cfg, t, id) == 0
  {
  }

  /** Rows never outlive their job, and announce the record that is still stored. */
  lemma RowsNameStoredJobs(cfg: Config, r: Run, n: nat, w: string)
    requires Legal(cfg, r) && n < |r.states| && w in r.states[n].outbox
    ensures var s := r.states[n]; var row := s.outbox[w];
            row.jobId in s.jobs && row.payload.job == s.jobs[row.jobId] && row.payload.job.status.Terminal()
            && row.event == EventName(s.jobs[row.jobId].status)
  {
    Reachable(cfg, r, n);
    assert RowOk(r.states[n], w);
  }

  // ---- Attempt budget ----

  function ClaimCount(r: Run, n: nat, id: string): nat
    requires n <= |r.events|
  {
    if n == 0 then 0 else ClaimCount(r, n - 1, id) + if Claims(r.events[n - 1], id) then 1 else 0
  }

  /** Releases asked for by policy or by an administrator, as opposed to lease expiry. */
  function ReleaseCount(r: Run, n: nat, id: string): nat
    requires n <= |r.events|
  {
    if n == 0 then 0 else ReleaseCount(r, n - 1, id) + if Releases(r.events[n - 1], id) then 1 else 0
  }

  predicate StatusChanged(s: State, t: State, id: string) {
    id in s.jobs && id in t.jobs && s.jobs[id].status != t.jobs[id].status
  }

  function StatusChanges(r: Run, n: nat, id: string): nat
    requires n < |r.states|
  {
    if n == 0 then 0
    else StatusChanges(r, n - 1, id) + if StatusChanged(r.states[n - 1], r.states[n], id) then 1 else 0
  }

  /** Status changes still possible when `budget` claims are allowed in all. */
  function Fuel(j: Job, budget: int): int {
    if j.status.Terminal() then 0
    else 2 * (budget - j.attemptCount) + if j.status.Running? then 1 else 0
  }

  predicate WithinBudget(j: Job, released: nat, changes: nat) {
    var budget := j.maxAttempts + released;
    j.maxAttempts > 0 ==>
      && j.attemptCount <= budget
      && (j.status.Claimable() ==> j.attemptCount < budget)
      && changes + Fuel(j, budget) <= 2 * budget
  }

  lemma BudgetStep(e: Event, j: Job, k: Job, released: nat, changes: nat)
    requires LifeStep(e, j, k) && WithinBudget(j, released, changes)
    ensures WithinBudget(k, released + (if Releases(e, j.id) then 1 else 0),
                         changes + if j.status != k.status then 1 else 0)
    ensures k.attemptCount == j.attemptCount + if Claims(e, j.id) then 1 else 0
  {
  }

  lemma {:induction false} Budget(cfg: Config, r: Run, n: nat, id: string)
    requires Legal(cfg, r) && n < |r.states|
    ensures id !in r.states[n].issued ==>
              ClaimCount(r, n, id) == 0 && ReleaseCount(r, n, id) == 0 && StatusChanges(r, n, id) == 0
    ensures id in r.states[n].jobs ==>
              && r.states[n].jobs[id].attemptCount == ClaimCount(r, n, id)
              && WithinBudget(r.states[n].jobs[id], ReleaseCount(r, n, id), StatusChanges(r, n, id))
  {
    hide Apply, Enabled, Sound, LifeStep;
    if n == 0 { return; }
    var s, e, t := r.states[n - 1], r.events[n - 1], r.states[n];
    Budget(cfg, r, n - 1, id);
    if id in s.jobs {
      JobMove(cfg, r, n - 1, id);
      if id in t.jobs {
        BudgetStep(e, s.jobs[id], t.jobs[id], ReleaseCount(r, n - 1, id), StatusChanges(r, n - 1, id));
      }
    } else {
      Reachable(cfg, r, n - 1);
      assert Step(cfg, r, n - 1);
      IssuedStep(cfg, s, e, id);
      if id in t.jobs { FreshWithinBudget(e, id); }
    }
  }

  lemma FreshWithinBudget(e: Event, id: string)
    requires e.Create?
    ensures WithinBudget(NewJob(id, e.user, e.input, e.labels, e.at), 0, 0)
    ensures NewJob(id, e.user, e.input, e.labels, e.at).attemptCount == 0
  {
  }

  /** A job allowed M > 0 attempts is claimed at most M times plus once per policy or admin
      release, and changes status at most twice that often. */
  lemma AttemptBudget(cfg: Config, r: Run, n: nat, id: string)
    requires Legal(cfg, r) && n < |r.states| && id in r.states[n].jobs && r.states[n].jobs[id].maxAttempts > 0
    ensures var j := r.states[n].jobs[id]; var budget := j.maxAttempts + ReleaseCount(r, n, id);
            && j.attemptCount == ClaimCount(r, n, id) <= budget
            && StatusChanges(r, n, id) <= 2 * budget
            && (StatusChanges(r, n, id) == 2 * budget ==> j.status.Terminal())
  {
    Budget(cfg, r, n, id);
    Reachable(cfg, r, n);
    assert JobOk(r.states[n], id);
  }

  // ---- Hand-outs and returns alternate ----

  /** Event n takes job `id` from running back to pending. */
  predicate Returned(r: Run, n: nat, id: string)
    requires n + 1 < |r.states|
  {
    && id in r.states[n].jobs && r.states[n].jobs[id].status.Running?
    && id in r.states[n + 1].jobs && r.states[n + 1].jobs[id].status.Pending?
  }

  lemma {:induction false} StaysIssued(cfg: Config, r: Run, i: nat, k: nat, id: string)
    requires Legal(cfg, r) && i <= k < |r.states| && id in r.states[i].jobs
    ensures id in r.states[k].issued
  {
    hide Apply, Enabled;
    if i == k {
      Reachable(cfg, r, i);
      assert JobOk(r.states[i], id);
    } else {
      StaysIssued(cfg, r, i, k - 1, id);
      assert Step(cfg, r, k - 1);
      IssuedGrows(cfg, r.states[k - 1], r.events[k - 1]);
    }
  }

  lemma {:induction false} ReturnBetween(cfg: Config, r: Run, i: nat, k: nat, id: string)
    requires Legal(cfg, r) && i <= k < |r.states|
    requires id in r.states[i].jobs && r.states[i].jobs[id].status.Running?
    requires id in r.states[k].jobs && r.states[k].jobs[id].status.Claimable()
    ensures exists n :: i <= n < k && Returned(r, n, id)
    decreases k
  {
    hide Apply, Enabled;
    var s := r.states[k - 1];
    if id in s.jobs {
      JobMove(cfg, r, k - 1, id);
      if s.jobs[id].status.Running? {
        Reachable(cfg, r, k);
        assert JobOk(r.states[k], id);
        assert Returned(r, k - 1, id);
      } else {
        ReturnBetween(cfg, r, i, k - 1, id);
      }
    } else {
      StaysIssued(cfg, r, i, k - 1, id);
      GoneStep(cfg, r, k - 1, id);
    }
  }

  /** Between two claims of the same job some write returned it to pending. */
  lemma ClaimsAlternate(cfg: Config, r: Run, i: nat, k: nat, id: string)
    requires Legal(cfg, r) && i < k < |r.events| && Claims(r.events[i], id) && Claims(r.events[k], id)
    ensures exists n :: i < n < k && Returned(r, n, id)
  {
    hide Apply;
    assert Step(cfg, r, i);
    assert Step(cfg, r, k);
    JobMove(cfg, r, i, id);
    ReturnBetween(cfg, r, i + 1, k, id);
  }
}
