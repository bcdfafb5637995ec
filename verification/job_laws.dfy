/** The job queue's rules in plain fields and numbers: what each write leaves of a record, when a
    running job is left alone, timed out, given up or put back, and who ends a job. */
module JobLaws {
  import opened Text
  import opened Jobs
  import opened JobHistory
  import opened JobRuns
  import opened Reclaim

  // ---- The note trail ----

  /** A segment joins the trimmed trail after " | "; the last 2000 bytes stay. */
  lemma NoteLaw(existing: string, extra: string)
    ensures Trim(extra) == "" ==> AppendNote(existing, extra) == existing
    ensures var full := if Trim(existing) == "" then Trim(extra) else Trim(existing) + " | " + Trim(extra);
            Trim(extra) != "" ==> AppendNote(existing, extra) == if |full| <= 2000 then full else full[|full| - 2000..]
  {
  }

  lemma ReleaseNoteLaw(existing: string, reason: string)
    ensures Trim(reason) == "" ==> ReleaseNote(existing, reason) == existing
    ensures var full := (if Trim(existing) == "" then "" else Trim(existing) + " | ") + "released: " + Trim(reason);
            Trim(reason) != "" ==> ReleaseNote(existing, reason) == if |full| <= 2000 then full else full[|full| - 2000..]
  {
    assert forall a: string :: a + ("released: " + Trim(reason)) == a + "released: " + Trim(reason);
  }

  // ---- One write ----

  lemma ClaimLaw(cfg: Config, s: State, e: Event)
    requires Sound(s) && e.Claim? && Enabled(cfg, s, e)
    ensures var j := s.jobs[e.id];
            && (j.status == Pending || j.status == Dispatched)
            && Apply(cfg, s, e) == s.(jobs := s.jobs[e.id := j.(
                 status := Running, claimedByAgent := e.agent, claimedByRunner := e.runner, heartbeatAt := e.at,
                 claimedAt := e.at, attemptCount := j.attemptCount + 1, updatedAt := e.at)])
  {
    assert JobOk(s, e.id);
  }

  lemma BeatLaw(cfg: Config, s: State, e: Event)
    requires Sound(s) && e.Beat? && Enabled(cfg, s, e)
    ensures var j := s.jobs[e.id];
            && j.status == Running
            && Apply(cfg, s, e) == s.(jobs := s.jobs[e.id := j.(heartbeatAt := e.at, updatedAt := e.at)])
  {
    assert JobOk(s, e.id);
  }

  lemma ReleaseLaw(cfg: Config, s: State, e: Event)
    requires Sound(s) && e.Release? && Enabled(cfg, s, e)
    ensures var j := s.jobs[e.id];
            && j.status == Running
            && Apply(cfg, s, e) == s.(jobs := s.jobs[e.id := j.(
                 status := Pending, claimedByAgent := "", claimedByRunner := "", heartbeatAt := 0, claimedAt := 0,
                 updatedAt := e.at, note := ReleaseNote(j.note, e.reason))])
  {
    assert JobOk(s, e.id);
  }

  lemma EventLaw()
    ensures EventName(Succeeded) == "job.succeeded" && EventName(Failed) == "job.failed" && EventName(Cancelled) == "job.cancelled"
  {
    assert "job." + "succeeded" == "job.succeeded";
    assert "job." + "failed" == "job.failed";
    assert "job." + "cancelled" == "job.cancelled";
  }

  /** A write that ends a job announces it: this row, if the webhook is configured, and no other. */
  lemma AnnounceLaw(cfg: Config, s: State, j: Job, row: string, now: Time)
    requires j.status.Terminal()
    ensures var t := Put(cfg, s, j, row, now);
            var event := if j.status == Succeeded then "job.succeeded" else if j.status == Failed then "job.failed" else "job.cancelled";
            && t.jobs == s.jobs[j.id := j]
            && t.outbox == if !cfg.notify then s.outbox
                           else s.outbox[row := Row(row, j.id, j.userId, event, Envelope(row, event, now, j),
                                                    Waiting, 0, now, "", now, now, 0)]
  {
    EventLaw();
    hide EventName;
  }

  lemma CompleteLaw(cfg: Config, s: State, e: Event)
    requires Sound(s) && e.Complete? && Enabled(cfg, s, e)
    ensures e.id in Apply(cfg, s, e).jobs
    ensures var j, k := s.jobs[e.id], Apply(cfg, s, e).jobs[e.id];
            && (j.status == Pending || j.status == Running)
            && k.status == (if e.result.ok then Succeeded else Failed)
            && k.exitCode == (if e.result.exitCode.Some? then e.result.exitCode else j.exitCode)
            && k.durationMs == (if e.result.durationMs > 0 then e.result.durationMs else j.durationMs)
            && k.claimedByAgent == j.claimedByAgent && k.claimedByRunner == j.claimedByRunner
            && k.attemptCount == j.attemptCount && k.heartbeatAt == 0 && k.claimedAt == 0 && k.updatedAt == e.at
            && k.note == AppendNote(j.note, e.result.note)
  {
    hide AppendNote, NotificationRow;
    assert JobOk(s, e.id);
  }

  /** Reported output is cut to its last bytes; where none is reported, and none cut, the stored one stays. */
  lemma OutputLaw(cfg: Config, s: State, e: Event)
    requires cfg.Valid() && Sound(s) && e.Complete? && Enabled(cfg, s, e) && e.id in Apply(cfg, s, e).jobs
    ensures var j, k, r, cap := s.jobs[e.id], Apply(cfg, s, e).jobs[e.id], e.result, cfg.outputMax;
            && (if r.stdout == "" && !r.stdoutTruncated then k.stdout == j.stdout && k.stdoutTruncated == j.stdoutTruncated
                else k.stdout == (if |r.stdout| <= cap then r.stdout else r.stdout[|r.stdout| - cap..])
                     && k.stdoutTruncated == (r.stdoutTruncated || |r.stdout| > cap))
            && (if r.stderr == "" && !r.stderrTruncated then k.stderr == j.stderr && k.stderrTruncated == j.stderrTruncated
                else k.stderr == (if |r.stderr| <= cap then r.stderr else r.stderr[|r.stderr| - cap..])
                     && k.stderrTruncated == (r.stderrTruncated || |r.stderr| > cap))
  {
    hide AppendNote, NotificationRow;
    assert JobOk(s, e.id);
  }

  lemma CancelLaw(cfg: Config, s: State, e: Event)
    requires Sound(s) && e.Cancel? && Enabled(cfg, s, e)
    ensures e.id in Apply(cfg, s, e).jobs
    ensures var j, k := s.jobs[e.id], Apply(cfg, s, e).jobs[e.id];
            && (j.status == Pending || j.status == Running)
            && k == j.(status := Cancelled, heartbeatAt := 0, claimedAt := 0, updatedAt := e.at,
                       note := if e.adminNote == "" then j.note else AppendNote(j.note, "admin cancel: " + e.adminNote))
  {
    hide AppendNote, NotificationRow;
    assert JobOk(s, e.id);
  }

  lemma CreateLaw(cfg: Config, s: State, e: Event)
    requires e.Create? && Enabled(cfg, s, e)
    ensures e.id in Apply(cfg, s, e).jobs
    ensures var k, i := Apply(cfg, s, e).jobs[e.id], e.input;
            && k.id == e.id && k.userId == e.user && k.status == Pending && k.attemptCount == 0
            && k.driveId == i.driveId && k.bindingId == i.bindingId && k.command == i.command && k.regionHint == i.regionHint
            && k.mode == (if i.mode == "" then "mount" else i.mode)
            && k.connectorId == Trim(i.connectorId) && k.agentId == Trim(i.agentId)
            && k.idempotencyKey == Trim(i.idempotencyKey) && k.labels == e.labels
            && k.priority == (if i.priority > 1000 then 1000 else if i.priority < -1000 then -1000 else i.priority)
            && k.timeoutSec == (if i.timeoutSec < 0 then 0 else i.timeoutSec)
            && k.maxAttempts == (if i.maxAttempts < 0 then 0 else i.maxAttempts)
            && k.createdAt == e.at && k.updatedAt == e.at && k.heartbeatAt == 0 && k.claimedAt == 0
            && k.claimedByAgent == "" && k.claimedByRunner == "" && k.exitCode == None && k.durationMs == 0
            && k.note == (if Trim(i.note) == "" then "" else Trim(i.note) + " | ")
                         + "BYOC only: claim with your runner; no platform large pool (D-001)"
  {
  }

  // ---- Sweeps ----

  lemma SweptInNumbers(cfg: Config, j: Job, global: bool, now: Time)
    requires Fine(j) && j.status == Running
    ensures var k := Swept(cfg, j, global, now); var limit := if j.timeoutSec > 0 then j.timeoutSec else cfg.defaultTimeoutSec;
            if limit > 0 && now > j.claimedAt + limit * 1_000_000_000 then
              k == j.(status := Failed, exitCode := Some(124), heartbeatAt := 0, claimedAt := 0, claimedByRunner := "",
                      updatedAt := now, note := AppendNote(j.note, "timeout after " + Decimal(limit) + "s"))
            else if cfg.lease <= 0 || j.heartbeatAt >= now - cfg.lease then k == j
            else if j.maxAttempts > 0 && j.attemptCount >= j.maxAttempts then
              k == j.(status := Failed, exitCode := Some(1), heartbeatAt := 0, claimedAt := 0, claimedByRunner := "",
                      updatedAt := now, note := AppendNote(j.note,
                        "max attempts exceeded (" + Decimal(j.attemptCount) + "/" + Decimal(j.maxAttempts) + ") after lease expired"))
            else
              k == j.(status := Pending, claimedByAgent := "", claimedByRunner := "", heartbeatAt := 0, claimedAt := 0,
                      updatedAt := now, note := ReleaseNote(j.note, "lease expired"))
  {
    hide AppendNote, ReleaseNote, Decimal;
  }

  lemma OnlyRunningSwept(cfg: Config, j: Job, global: bool, now: Time)
    requires j.status != Running
    ensures Swept(cfg, j, global, now) == j
  {
  }

  /** What a sweep of these jobs makes of any job of a sound store. */
  lemma SweepLaw(cfg: Config, s: State, t: State, ids: set<string>, global: bool, now: Time, mint: map<string, string>, id: string)
    requires Sound(s) && SweptTo(cfg, s, t, ids, global, now, mint) && id in s.jobs
    ensures id in t.jobs
    ensures var j, k := s.jobs[id], t.jobs[id]; var limit := if j.timeoutSec > 0 then j.timeoutSec else cfg.defaultTimeoutSec;
            if id !in ids || j.status != Running then k == j
            else if limit > 0 && now > j.claimedAt + limit * 1_000_000_000 then k.status == Failed && k.exitCode == Some(124)
            else if cfg.lease <= 0 || j.heartbeatAt >= now - cfg.lease then k == j
            else if j.maxAttempts > 0 && j.attemptCount >= j.maxAttempts then k.status == Failed && k.exitCode == Some(1)
            else k.status == Pending && k.claimedByAgent == "" && k.claimedByRunner == "" && k.attemptCount == j.attemptCount
  {
    assert JobOk(s, id);
    hide RowsAdded, Swept, Sound;
    if s.jobs[id].status == Running { SweptInNumbers(cfg, s.jobs[id], global, now); }
    else { OnlyRunningSwept(cfg, s.jobs[id], global, now); }
  }

  /** Between these stores exactly the jobs in `ids` went through a sweep at `now`. */
  ghost predicate ByTheNumbers(cfg: Config, s: State, t: State, ids: set<string>, now: Time) {
    forall id <- s.jobs :: id in t.jobs &&
      var j, k := s.jobs[id], t.jobs[id]; var limit := if j.timeoutSec > 0 then j.timeoutSec else cfg.defaultTimeoutSec;
      if id !in ids || j.status != Running then k == j
      else if limit > 0 && now > j.claimedAt + limit * 1_000_000_000 then k.status == Failed && k.exitCode == Some(124)
      else if cfg.lease <= 0 || j.heartbeatAt >= now - cfg.lease then k == j
      else if j.maxAttempts > 0 && j.attemptCount >= j.maxAttempts then k.status == Failed && k.exitCode == Some(1)
      else k.status == Pending && k.claimedByAgent == "" && k.claimedByRunner == "" && k.attemptCount == j.attemptCount
  }

  lemma SweepsGoByTheNumbers(cfg: Config, s: State, t: State, ids: set<string>, global: bool, now: Time, mint: map<string, string>)
    requires Sound(s) && SweptTo(cfg, s, t, ids, global, now, mint)
    ensures ByTheNumbers(cfg, s, t, ids, now)
  {
    hide SweptTo, Sound;
    forall id | id in s.jobs
      ensures id in t.jobs &&
        var j, k := s.jobs[id], t.jobs[id]; var limit := if j.timeoutSec > 0 then j.timeoutSec else cfg.defaultTimeoutSec;
        if id !in ids || j.status != Running then k == j
        else if limit > 0 && now > j.claimedAt + limit * 1_000_000_000 then k.status == Failed && k.exitCode == Some(124)
        else if cfg.lease <= 0 || j.heartbeatAt >= now - cfg.lease then k == j
        else if j.maxAttempts > 0 && j.attemptCount >= j.maxAttempts then k.status == Failed && k.exitCode == Some(1)
        else k.status == Pending && k.claimedByAgent == "" && k.claimedByRunner == "" && k.attemptCount == j.attemptCount
    {
      SweepLaw(cfg, s, t, ids, global, now, mint, id);
    }
  }

  /** After the global sweep of a reachable store every running job is within its timeout and,
      with the lease on, its last heartbeat is within the lease. */
  lemma GlobalSweepLeavesNoneStale(cfg: Config, r: Run, n: nat, t: State, now: Time, mint: map<string, string>, id: string)
    requires Legal(cfg, r) && n < |r.states| && SweptTo(cfg, r.states[n], t, r.states[n].jobs.Keys, true, now, mint)
    requires id in t.jobs && t.jobs[id].status.Running?
    ensures var j := t.jobs[id]; var limit := if j.timeoutSec > 0 then j.timeoutSec else cfg.defaultTimeoutSec;
            && (limit > 0 ==> now <= j.claimedAt + limit * 1_000_000_000)
            && (cfg.lease > 0 ==> j.heartbeatAt >= now - cfg.lease)
  {
    Reachable(cfg, r, n);
    hide RowsAdded, Sound;
    SweepLaw(cfg, r.states[n], t, r.states[n].jobs.Keys, true, now, mint, id);
  }

  // ---- Heartbeats and the lease, over runs ----

  predicate Signs(e: Event, id: string) { (e.Beat? || e.Claim?) && e.id == id }

  /** One event: the heartbeat of a running job comes from a beat or claim of it, or stays. */
  lemma HeartbeatStep(cfg: Config, r: Run, n: nat, id: string)
    requires Legal(cfg, r) && n < |r.events|
    requires id in r.states[n + 1].jobs && r.states[n + 1].jobs[id].status == Running
    ensures id in r.states[n].jobs
    ensures var j, k, e := r.states[n].jobs[id], r.states[n + 1].jobs[id], r.events[n];
            if Signs(e, id) then k.heartbeatAt == e.at && k.claimedAt == (if e.Claim? then e.at else j.claimedAt)
            else k == j
  {
    var s, e := r.states[n], r.events[n];
    Reachable(cfg, r, n);
    Reachable(cfg, r, n + 1);
    assert Step(cfg, r, n);
    hide Enabled, Apply, LifeStep, Sound, NewJob;
    if id !in s.jobs {
      IssuedStep(cfg, s, e, id);
      NewIsPending(e);
    } else {
      JobMove(cfg, r, n, id);
      RunningAfter(cfg, s, e, id);
    }
  }

  lemma NewIsPending(e: Event)
    ensures e.Create? ==> NewJob(e.id, e.user, e.input, e.labels, e.at).status == Pending
    ensures e.Create? ==> forall id :: NewJob(id, e.user, e.input, e.labels, e.at).status == Pending
  {
  }

  lemma RunningAfter(cfg: Config, s: State, e: Event, id: string)
    requires Sound(s) && Enabled(cfg, s, e) && id in s.jobs
    requires id in Apply(cfg, s, e).jobs && Apply(cfg, s, e).jobs[id].status == Running
    ensures var j, k := s.jobs[id], Apply(cfg, s, e).jobs[id];
            if Signs(e, id) then k.heartbeatAt == e.at && k.claimedAt == (if e.Claim? then e.at else j.claimedAt)
            else k == j
  {
    assert JobOk(s, id);
    if Targets(e) && e.id == id {
      RunningEdited(cfg, s, e);
    } else {
      hide Edited, Apply, Enabled, Sound;
      EditKeepsId(cfg, s, e);
      OtherStep(cfg, s, e, id);
    }
  }

  lemma EditKeepsId(cfg: Config, s: State, e: Event)
    requires Sound(s) && Enabled(cfg, s, e)
    ensures Targets(e) ==> s.jobs[e.id].id == e.id && Edited(cfg, s.jobs[e.id], e).id == e.id
  {
    hide Edited, Fine;
    if Targets(e) {
      assert JobOk(s, e.id);
      EditedFine(cfg, s.jobs[e.id], e);
    }
  }

  lemma RunningEdited(cfg: Config, s: State, e: Event)
    requires Sound(s) && Targets(e) && Enabled(cfg, s, e) && e.id in Apply(cfg, s, e).jobs
    requires Apply(cfg, s, e).jobs[e.id].status == Running
    ensures var j, k := s.jobs[e.id], Apply(cfg, s, e).jobs[e.id];
            Signs(e, e.id) && k.heartbeatAt == e.at && k.claimedAt == (if e.Claim? then e.at else j.claimedAt)
  {
    if e.Claim? {
      ClaimLaw(cfg, s, e);
    } else if e.Beat? {
      BeatLaw(cfg, s, e);
    } else {
      hide Edited, NotificationRow;
      assert JobOk(s, e.id);
      EditedStops(cfg, s.jobs[e.id], e);
    }
  }

  lemma EditedStops(cfg: Config, j: Job, e: Event)
    requires Targets(e) && !e.Claim? && !e.Beat? && e.id == j.id && Applies(cfg, j, e)
    ensures Edited(cfg, j, e).status != Running && Edited(cfg, j, e).id == j.id
  {
    hide AppendNote, ReleaseNote, CapTail, Judge;
    if e.Sweep? { SweptNotRunning(cfg, j, e.global, e.at); }
    hide Swept;
  }

  lemma SweptNotRunning(cfg: Config, j: Job, global: bool, now: Time)
    requires Judge(cfg, j, global, now) != Keep
    ensures Swept(cfg, j, global, now).status != Running && Swept(cfg, j, global, now).id == j.id
  {
    hide AppendNote, ReleaseNote, Decimal;
  }

  /** A running job's last sign of life is no older than one of its beats, or claims, at `t`, as
      long as those after it are no older. */
  lemma {:induction false} SignedSince(cfg: Config, r: Run, m: nat, n: nat, id: string, t: Time)
    requires Legal(cfg, r) && m < n < |r.states| && Signs(r.events[m], id) && r.events[m].at >= t
    requires forall i :: m < i < n && Signs(r.events[i], id) ==> r.events[i].at >= t
    requires id in r.states[n].jobs && r.states[n].jobs[id].status == Running
    ensures r.states[n].jobs[id].heartbeatAt >= t
  {
    HeartbeatStep(cfg, r, n - 1, id);
    if m < n - 1 && !Signs(r.events[n - 1], id) { SignedSince(cfg, r, m, n - 1, id, t); }
  }

  /** With no later beat or claim, it is exactly that beat. */
  lemma {:induction false} SignedLast(cfg: Config, r: Run, m: nat, n: nat, id: string)
    requires Legal(cfg, r) && m < n < |r.states| && Signs(r.events[m], id)
    requires forall i :: m < i < n ==> !Signs(r.events[i], id)
    requires id in r.states[n].jobs && r.states[n].jobs[id].status == Running
    ensures r.states[n].jobs[id].heartbeatAt == r.events[m].at
  {
    HeartbeatStep(cfg, r, n - 1, id);
    if m < n - 1 { SignedLast(cfg, r, m, n - 1, id); }
  }

  /** A job that beat at `t` and is still running at `now <= t + lease`, within its timeout, is
      left alone by every sweep at `now`. */
  lemma BeatingJobsAreKept(cfg: Config, r: Run, m: nat, n: nat, id: string, u: State, ids: set<string>, global: bool,
                           now: Time, mint: map<string, string>)
    requires Legal(cfg, r) && m < n < |r.states| && r.events[m].Beat? && r.events[m].id == id
    requires forall i :: m < i < n && Signs(r.events[i], id) ==> r.events[i].at >= r.events[m].at
    requires id in r.states[n].jobs && r.states[n].jobs[id].status == Running && now <= r.events[m].at + cfg.lease
    requires var j := r.states[n].jobs[id]; var limit := if j.timeoutSec > 0 then j.timeoutSec else cfg.defaultTimeoutSec;
             limit > 0 ==> now <= j.claimedAt + limit * 1_000_000_000
    requires SweptTo(cfg, r.states[n], u, ids, global, now, mint)
    ensures id in u.jobs && u.jobs[id] == r.states[n].jobs[id]
  {
    SignedSince(cfg, r, m, n, id, r.events[m].at);
    Reachable(cfg, r, n);
    hide SweptTo, Sound;
    SweepLaw(cfg, r.states[n], u, ids, global, now, mint, id);
  }

  /** A job silent since a beat or claim at `t` runs no more after a sweep of it past `t + lease`. */
  lemma SilentJobsAreTaken(cfg: Config, r: Run, m: nat, n: nat, id: string, u: State, ids: set<string>, global: bool,
                           now: Time, mint: map<string, string>)
    requires Legal(cfg, r) && m < n < |r.states| && Signs(r.events[m], id)
    requires forall i :: m < i < n ==> !Signs(r.events[i], id)
    requires id in r.states[n].jobs && r.states[n].jobs[id].status == Running
    requires cfg.lease > 0 && now > r.events[m].at + cfg.lease && id in ids
    requires SweptTo(cfg, r.states[n], u, ids, global, now, mint)
    ensures id in u.jobs && (u.jobs[id].status == Failed || u.jobs[id].status == Pending)
  {
    SignedLast(cfg, r, m, n, id);
    Reachable(cfg, r, n);
    hide SweptTo, Sound;
    SweepLaw(cfg, r.states[n], u, ids, global, now, mint, id);
  }

  // ---- Who ended a job ----

  /** The event that can have ended a job with this status. */
  predicate Ends(e: Event, id: string, status: Status) {
    match status
    case Succeeded => e.Complete? && e.id == id && e.result.ok
    case Failed => (e.Complete? && e.id == id && !e.result.ok) || (e.Sweep? && e.id == id)
    case Cancelled => e.Cancel? && e.id == id
    case _ => false
  }

  lemma EndedBy(cfg: Config, s: State, e: Event, id: string)
    requires Sound(s) && Enabled(cfg, s, e) && id in s.jobs && !s.jobs[id].status.Terminal()
    requires id in Apply(cfg, s, e).jobs && Apply(cfg, s, e).jobs[id].status.Terminal()
    ensures Ends(e, id, Apply(cfg, s, e).jobs[id].status)
  {
    assert JobOk(s, id);
    if Targets(e) {
      assert JobOk(s, e.id);
      EditedFine(cfg, s.jobs[e.id], e);
    }
    if !(Targets(e) && e.id == id) {
      OtherStep(cfg, s, e, id);
    } else if e.Complete? {
      CompleteLaw(cfg, s, e);
    } else if e.Cancel? {
      CancelLaw(cfg, s, e);
    } else if e.Sweep? {
      hide Edited, NotificationRow;
      SweepEdits(cfg, s.jobs[id], id, e.global, e.row, e.at);
      SweptFails(cfg, s.jobs[id], e.global, e.at);
    } else {
      hide NotificationRow, AppendNote, ReleaseNote;
    }
  }

  lemma SweptFails(cfg: Config, j: Job, global: bool, now: Time)
    requires !j.status.Terminal()
    ensures var k := Swept(cfg, j, global, now); k.id == j.id && (k.status.Terminal() ==> k.status == Failed)
  {
    SentenceFails(j, Judge(cfg, j, global, now), now);
    hide Sentence, Judge;
  }

  lemma SentenceFails(j: Job, v: Verdict, now: Time)
    requires !j.status.Terminal()
    ensures var k := Sentence(j, v, now); k.id == j.id && (k.status.Terminal() ==> k.status == Failed)
  {
    hide AppendNote, ReleaseNote, Decimal;
    match v
    case Keep =>
    case TimeOut(sec) =>
    case Exhaust =>
    case LeaseOut =>
  }

  lemma EndsLaw(e: Event, id: string, status: Status)
    requires Ends(e, id, status)
    ensures match status
            case Succeeded => e.Complete? && e.id == id && e.result.ok
            case Failed => (e.Complete? && e.id == id && !e.result.ok) || (e.Sweep? && e.id == id)
            case _ => e.Cancel? && e.id == id
  {
  }

  lemma EndedWhenStored(cfg: Config, r: Run, n: nat, id: string)
    requires Legal(cfg, r) && n < |r.states| && id in r.states[n].jobs && r.states[n].jobs[id].status.Terminal()
    ensures n > 0 && id in r.states[n - 1].jobs
    ensures if r.states[n - 1].jobs[id].status.Terminal() then r.states[n].jobs[id] == r.states[n - 1].jobs[id]
            else Ends(r.events[n - 1], id, r.states[n].jobs[id].status)
  {
    assert r.states[0] == EMPTY;
    var s, e := r.states[n - 1], r.events[n - 1];
    Reachable(cfg, r, n - 1);
    assert Step(cfg, r, n - 1);
    hide Legal, Enabled, Apply, Sound, Ends;
    if id !in s.jobs {
      NewIsLive(cfg, s, e, id);
    } else if s.jobs[id].status.Terminal() {
      TerminalForGood(cfg, r, n - 1, n, id);
    } else {
      EndedBy(cfg, s, e, id);
    }
  }

  lemma NewIsLive(cfg: Config, s: State, e: Event, id: string)
    requires Sound(s) && Enabled(cfg, s, e) && id !in s.jobs && id in Apply(cfg, s, e).jobs
    ensures !Apply(cfg, s, e).jobs[id].status.Terminal()
  {
    hide Enabled, Apply, Sound, NewJob;
    IssuedStep(cfg, s, e, id);
    NewIsPending(e);
  }

  /** A stored Succeeded job was completed with ok, a Cancelled one cancelled, a Failed one
      completed without ok or failed by a sweep. */
  lemma {:induction false} EndedOnce(cfg: Config, r: Run, n: nat, id: string) returns (m: nat)
    requires Legal(cfg, r) && n < |r.states| && id in r.states[n].jobs && r.states[n].jobs[id].status.Terminal()
    ensures m < n
    ensures var e := r.events[m];
            match r.states[n].jobs[id].status
            case Succeeded => e.Complete? && e.id == id && e.result.ok
            case Failed => (e.Complete? && e.id == id && !e.result.ok) || (e.Sweep? && e.id == id)
            case _ => e.Cancel? && e.id == id
  {
    EndedWhenStored(cfg, r, n, id);
    hide Enabled, Apply, Sound, LifeStep, Ends;
    if r.states[n - 1].jobs[id].status.Terminal() {
      m := EndedOnce(cfg, r, n - 1, id);
      hide Legal;
    } else {
      m := n - 1;
      EndsLaw(r.events[m], id, r.states[n].jobs[id].status);
    }
  }

  /** Every row announces its job's end by name, in its event and in its payload. */
  lemma RowsSayHowItEnded(cfg: Config, r: Run, n: nat, w: string)
    requires Legal(cfg, r) && n < |r.states| && w in r.states[n].outbox
    ensures var row := r.states[n].outbox[w];
            && row.jobId in r.states[n].jobs && row.event == row.payload.event && row.payload.eventId == w
            && var j := r.states[n].jobs[row.jobId];
               && row.userId == j.userId && row.payload.job == j
               && (j.status == Succeeded ==> row.event == "job.succeeded")
               && (j.status == Failed ==> row.event == "job.failed")
               && (j.status == Cancelled ==> row.event == "job.cancelled")
               && (j.status == Succeeded || j.status == Failed || j.status == Cancelled)
  {
    Reachable(cfg, r, n);
    EventLaw();
    hide EventName, JobsOk, OneRowPerJob, OneJobPerKey;
    assert RowOk(r.states[n], w);
  }

  // ---- Deliveries ----

  lemma BackoffLaw(cfg: Config, k: int)
    ensures Backoff(cfg, k) == if cfg.fastBackoff then 1_000_000
      else if k <= 1 then 5_000_000_000 else if k == 2 then 15_000_000_000 else if k == 3 then 60_000_000_000
      else if k == 4 then 300_000_000_000 else if k == 5 then 900_000_000_000 else if k == 6 then 3_600_000_000_000
      else if k == 7 then 7_200_000_000_000 else 14_400_000_000_000
  {
  }

  lemma DeliveryLaw(cfg: Config, s: State, e: Event)
    requires e.Deliver? && Enabled(cfg, s, e)
    ensures e.row in Apply(cfg, s, e).outbox && Apply(cfg, s, e).jobs == s.jobs
    ensures var r, q := s.outbox[e.row], Apply(cfg, s, e).outbox[e.row]; var n := r.attempts + 1;
            && r.status == Waiting && r.nextAttemptAt <= e.at
            && if e.ok then q == r.(attempts := n, updatedAt := e.at, status := Delivered, deliveredAt := e.at, lastError := "")
               else if n >= cfg.maxDeliveries then
                 q == r.(attempts := n, updatedAt := e.at, status := Dead,
                         lastError := if |e.detail| > 500 then e.detail[..500] else e.detail)
               else
                 q == r.(attempts := n, updatedAt := e.at, nextAttemptAt := e.at + Backoff(cfg, n),
                         lastError := if |e.detail| > 500 then e.detail[..500] else e.detail)
  {
    hide Backoff;
  }

  lemma RequeueLaw(cfg: Config, s: State, e: Event)
    requires e.Requeue? && Enabled(cfg, s, e)
    ensures Apply(cfg, s, e) == s.(outbox := s.outbox[e.row := s.outbox[e.row].(
              status := Waiting, attempts := 0, nextAttemptAt := e.at - 1_000_000_000, lastError := "", deliveredAt := 0,
              updatedAt := e.at)])
  {
  }
}
