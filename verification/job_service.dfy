/** The job service over the memory store. Each method keeps the run so far and states the
    events it adds to it, one by one or by number and kind, so everything proved about runs
    holds of every service object.

    One call is one atomic step at the instant `now`; identifiers the code draws at random are
    parameters that were never issued before. */
module JobService {
  import opened Text
  import opened Jobs
  import opened JobHistory
  import opened JobKeys
  import opened JobLaws
  import opened Reclaim
  import opened Paging
  import opened Cursor
  import opened Claiming
  import opened Delivery
  import opened Sorting
  import opened MemoryStore

  datatype CreateResult = Created(job: Job) | Replayed(job: Job) | Conflict | Rejected

  /** Run `t` is run `r` continued by event `e` if `ok`, and `r` itself otherwise. */
  ghost predicate Did(cfg: Config, r: Run, t: Run, ok: bool, e: Event)
    requires r.states != []
  {
    if ok then Enabled(cfg, Now(r), e) && t == Then(cfg, r, e) else t == r
  }

  /** The kinds of event that a sweep, a claiming scan and a delivery round add to the run. */
  function Sweeps(global: bool, now: Time): Event -> bool {
    (e: Event) => e.Sweep? && e.global == global && e.at == now
  }

  function Scans(q: Request): Event -> bool {
    (e: Event) => (e.Claim? && e.agent == q.agent && e.runner == q.runner && e.at == q.now) || (e.Release? && e.at == q.now)
  }

  function Deliveries(): Event -> bool { (e: Event) => e.Deliver? }

  lemma DidContinues(cfg: Config, r: Run, t: Run, ok: bool, e: Event, kind: Event -> bool)
    requires r.states != [] && Did(cfg, r, t, ok, e) && kind(e)
    ensures Continued(r, t, if ok then 1 else 0, kind)
  {
    if ok { ContinuedByOne(cfg, r, e, kind); } else { ContinuedByNone(r, kind); }
  }

  predicate KeyFree(jobs: Table, user: string, key: string) {
    key == "" || forall id <- jobs :: !SameKey(jobs[id], user, key)
  }

  /** `r` is the right answer to a create request over these stored jobs. */
  predicate Answers(jobs: Table, user: string, input: CreateInput, labels: map<string, string>, r: CreateResult) {
    var key := Trim(input.idempotencyKey);
    match r
    case Replayed(j) => key != "" && Stored(jobs, j) && SameKey(j, user, key) && SameCreatePayload(j, input, labels)
    case Conflict =>
      !KeyFree(jobs, user, key)
      && forall id <- jobs :: SameKey(jobs[id], user, key) ==> !SameCreatePayload(jobs[id], input, labels)
    case Created(_) => KeyFree(jobs, user, key)
    case Rejected => true
  }

  lemma BadLabels(raw: map<string, string>)
    ensures (exists k <- raw :: BadLabel(k, raw[k])) <==> exists k <- raw :: Trim(k) == "" || |Trim(k)| > 64 || |Trim(raw[k])| > 256
  {
    hide Trim;
  }

  method EncodeLabels(raw: map<string, string>) returns (r: Option<map<string, string>>)
    ensures r.None? <==> |raw| > 16 || exists k <- raw :: BadLabel(k, raw[k])
    ensures r.Some? ==> Encodes(raw, r.value) && LegalLabels(r.value)
  {
    if |raw| > 16 { return None; }
    var clean := map[];
    var todo := raw.Keys;
    while todo != {}
      invariant todo <= raw.Keys && |clean| + |todo| <= |raw|
      invariant forall k <- raw.Keys - todo :: Trim(k) in clean && !BadLabel(k, raw[k])
      invariant forall c <- clean :: Trim(c) == c && Trim(clean[c]) == clean[c] && !BadLabel(c, clean[c])
      invariant forall c <- clean :: exists k <- raw :: Trim(k) == c && Trim(raw[k]) == clean[c]
    {
      var k :| k in todo;
      todo := todo - {k};
      if BadLabel(k, raw[k]) { return None; }
      TrimIdempotent(k);
      TrimIdempotent(raw[k]);
      clean := clean[Trim(k) := Trim(raw[k])];
    }
    r := Some(clean);
  }

  /** What an answer says about the jobs that hold the user's key. */
  lemma AnswersHolders(jobs: Table, user: string, input: CreateInput, labels: map<string, string>, r: CreateResult)
    requires Answers(jobs, user, input, labels, r)
    ensures var key := Trim(input.idempotencyKey);
            var holders := set id | id in jobs && jobs[id].userId == user && jobs[id].idempotencyKey == key;
            && (r.Created? ==> key == "" || holders == {})
            && (r.Conflict? ==> key != "" && holders != {})
            && (r.Replayed? ==> key != "" && exists id <- holders :: r.job == jobs[id])
  {
    hide SameCreatePayload, Trim;
    var key := Trim(input.idempotencyKey);
    var holders := set id | id in jobs && jobs[id].userId == user && jobs[id].idempotencyKey == key;
    if r.Conflict? {
      var id :| id in jobs && SameKey(jobs[id], user, key);
      assert id in holders;
    } else if r.Replayed? {
      assert r.job.id in holders;
    } else if r.Created? && key != "" {
      assert forall id <- jobs :: !SameKey(jobs[id], user, key);
    }
  }

  class Service {
    const cfg: Config
    const store: Memory
    ghost var run: Run

    ghost predicate Valid()
      reads this, store
    {
      && cfg.Valid() && Legal(cfg, run) && run.states != []
      && State().jobs == store.jobs && State().outbox == store.outbox
    }

    /** The store together with every identifier it has ever issued. */
    ghost function State(): State
      reads this
      requires run.states != []
    {
      Now(run)
    }

    constructor (cfg: Config)
      requires cfg.Valid()
      ensures Valid() && run == START && fresh(store) && this.cfg == cfg
    {
      this.cfg := cfg;
      store := new Memory();
      run := START;
    }

    /** Book one event that the store has just carried out. */
    ghost method Record(e: Event)
      requires cfg.Valid() && Legal(cfg, run) && Enabled(cfg, State(), e)
      requires Apply(cfg, State(), e).jobs == store.jobs && Apply(cfg, State(), e).outbox == store.outbox
      modifies this`run
      ensures Valid() && Did(cfg, old(run), run, true, e)
    {
      Extend(cfg, run, e);
      run := Then(cfg, run, e);
    }

    lemma Sane()
      requires Valid()
      ensures Sound(State()) && Keyed(store.jobs) && RowKeyed(store.outbox)
      ensures forall w <- store.outbox :: IsUuid(w)
    {
      Reachable(cfg, run, |run.events|);
      IssuedAreUuids(cfg, run, |run.events|);
      assert forall id <- store.jobs :: JobOk(State(), id);
      assert forall w <- store.outbox :: RowOk(State(), w);
    }

    // ---- Create ----

    method GetJobByIdempotencyKey(user: string, key: string) returns (found: Option<Job>)
      ensures found.Some? ==> Trim(key) != "" && SameKey(found.value, user, Trim(key)) && found.value in store.jobs.Values
      ensures found.None? ==> Trim(key) == "" || forall id <- store.jobs :: !SameKey(store.jobs[id], user, Trim(key))
    {
      if Trim(key) == "" { return None; }
      var todo := store.jobs.Keys;
      while todo != {}
        invariant todo <= store.jobs.Keys
        invariant forall id <- store.jobs.Keys - todo :: !SameKey(store.jobs[id], user, Trim(key))
      {
        var id :| id in todo;
        todo := todo - {id};
        if SameKey(store.jobs[id], user, Trim(key)) { return Some(store.jobs[id]); }
      }
      found := None;
    }

    /** The job of an earlier request answers the request sent again, and no other job has its key. */
    lemma RepeatIsReplayed(user: string, input: CreateInput, labels: map<string, string>, id: string)
      requires Valid() && Encodes(input.labels, labels) && Unambiguous(input.labels)
      requires id in store.jobs && RequestOf(run, id, user, input)
      ensures Answers(store.jobs, user, input, labels, Replayed(store.jobs[id]))
      ensures forall k <- store.jobs :: SameKey(store.jobs[k], user, Trim(input.idempotencyKey)) ==> store.jobs[k] == store.jobs[id]
    {
      Sane();
      KeyOfRequest(run, id, user, input);
      hide Encodes, Unambiguous, SameCreatePayload, RequestOf, Legal;
      RepeatedRequest(cfg, run, |run.events|, id, user, input);
      OneKeyHolder(State(), store.jobs[id], user, Trim(input.idempotencyKey));
    }

    /** The answer an already stored (user, key) dictates, if there is one. */
    method Replay(user: string, input: CreateInput, labels: map<string, string>) returns (r: Option<CreateResult>)
      requires Valid()
      ensures r.Some? ==> !r.value.Created? && !r.value.Rejected? && Answers(store.jobs, user, input, labels, r.value)
      ensures r.None? ==> KeyFree(store.jobs, user, Trim(input.idempotencyKey))
      ensures forall id <- store.jobs ::
          RequestOf(run, id, user, input) && Unambiguous(input.labels) && Encodes(input.labels, labels) ==>
            r == Some(Replayed(store.jobs[id]))
    {
      hide SameCreatePayload, RequestOf, Unambiguous, Encodes;
      forall id | id in store.jobs && RequestOf(run, id, user, input) && Unambiguous(input.labels) && Encodes(input.labels, labels)
        ensures Answers(store.jobs, user, input, labels, Replayed(store.jobs[id]))
        ensures forall k <- store.jobs :: SameKey(store.jobs[k], user, Trim(input.idempotencyKey)) ==> store.jobs[k] == store.jobs[id]
      {
        RepeatIsReplayed(user, input, labels, id);
      }
      var key := Trim(input.idempotencyKey);
      if key == "" { return None; }
      TrimIdempotent(input.idempotencyKey);
      var existing := GetJobByIdempotencyKey(user, key);
      if existing.None? { return None; }
      Sane();
      OneKeyHolder(State(), existing.value, user, key);
      r := Some(if SameCreatePayload(existing.value, input, labels) then Replayed(existing.value) else Conflict);
    }

    /** Enqueue a job, or answer a repeated request from the job it already made. */
    method Create(user: string, input: CreateInput, uuid: string, now: Time)
      returns (r: CreateResult, ghost labels: map<string, string>)
      requires Valid() && Fresh(State(), uuid) && now != 0
      modifies this`run, store
      ensures Valid()
      ensures r.Rejected? <==>
                || Trim(input.driveId) == "" || input.command == [] || |Trim(input.idempotencyKey)| > 128
                || |input.labels| > 16
                || exists k <- input.labels :: Trim(k) == "" || |Trim(k)| > 64 || |Trim(input.labels[k])| > 256
      ensures !r.Rejected? ==> Encodes(input.labels, labels)
      ensures Answers(old(store.jobs), user, input, labels, r)
      ensures var key := Trim(input.idempotencyKey);
              var holders := set id | id in old(store.jobs) && old(store.jobs)[id].userId == user
                                      && old(store.jobs)[id].idempotencyKey == key;
              && (r.Created? ==> key == "" || holders == {})
              && (r.Conflict? ==> key != "" && holders != {})
              && (r.Replayed? ==> key != "" && exists id <- holders :: r.job == old(store.jobs)[id])
      ensures forall id <- old(store.jobs) ::
          RequestOf(old(run), id, user, input) && Unambiguous(input.labels) && !r.Rejected? ==>
            r == Replayed(old(store.jobs)[id])
      ensures Did(cfg, old(run), run, r.Created?, Event.Create(uuid, user, input, labels, now))
      ensures r.Created? ==> r.job == NewJob(uuid, user, input, labels, now) && store.jobs == old(store.jobs)[uuid := r.job]
    {
      hide SameCreatePayload, RequestOf, Unambiguous, LegalLabels, Encodes, NewJob, Enabled, BadLabel, Trim;
      labels := map[];
      if Trim(input.driveId) == "" || input.command == [] || |Trim(input.idempotencyKey)| > 128 {
        return Rejected, labels;
      }
      BadLabels(input.labels);
      var clean := EncodeLabels(input.labels);
      if clean.None? { return Rejected, labels; }
      labels := clean.value;
      var answer := Replay(user, input, clean.value);
      AnswersHolders(store.jobs, user, input, labels, if answer.Some? then answer.value else Created(NewJob(uuid, user, input, labels, now)));
      if answer.Some? { return answer.value, labels; }
      var j := Insert(user, input, clean.value, uuid, now);
      r := Created(j);
    }

    method Insert(user: string, input: CreateInput, labels: map<string, string>, uuid: string, now: Time) returns (j: Job)
      requires Valid() && Fresh(State(), uuid) && now != 0
      requires Encodes(input.labels, labels) && LegalLabels(labels) && KeyFree(store.jobs, user, Trim(input.idempotencyKey))
      modifies this`run, store
      ensures Valid() && Did(cfg, old(run), run, true, Event.Create(uuid, user, input, labels, now))
      ensures j == NewJob(uuid, user, input, labels, now) && store.jobs == old(store.jobs)[uuid := j]
    {
      hide Encodes, LegalLabels;
      j := NewJob(uuid, user, input, labels, now);
      store.jobs := store.jobs[uuid := j];
      Record(Event.Create(uuid, user, input, labels, now));
    }

    // ---- Closing and releasing jobs ----

    /** UpdateJob, then notifyJobTerminal: the two writes that end every edit of a job. */
    method Commit(j: Job, uuid: string, now: Time, ghost e: Event)
      requires Valid() && Enabled(cfg, State(), e) && Apply(cfg, State(), e) == Put(cfg, State(), j, uuid, now)
      requires j.id in store.jobs && store.jobs[j.id].userId == j.userId
      requires j.status.Terminal() ==> Fresh(State(), uuid)
      modifies this`run, store
      ensures Valid() && Did(cfg, old(run), run, true, e)
    {
      Sane();
      ghost var before := State();
      assert forall w <- before.outbox :: RowOk(before, w);
      var ok := store.UpdateJob(j);
      if j.status.Terminal() && cfg.notify {
        TrimTidy(uuid);
        var queued := store.EnqueueWebhookOutbox(NotificationRow(uuid, j, now));
      }
      Record(e);
    }

    method FailRunning(user: string, id: string, code: int, reason: string, now: Time, uuid: string, ghost e: Event)
      returns (ok: bool)
      requires Valid() && Fresh(State(), uuid)
      requires id in store.jobs && store.jobs[id].userId == user && store.jobs[id].status.Running? ==>
                 Enabled(cfg, State(), e)
                 && Apply(cfg, State(), e) == Put(cfg, State(), FailedBy(store.jobs[id], code, reason, now), uuid, now)
      modifies this`run, store
      ensures Valid()
      ensures ok <==> id in old(store.jobs) && old(store.jobs)[id].userId == user && old(store.jobs)[id].status.Running?
      ensures Did(cfg, old(run), run, ok, e)
    {
      Sane();
      var found := store.GetJob(user, id);
      if found.None? || !found.value.status.Running? { return false; }
      Commit(FailedBy(found.value, code, reason, now), uuid, now, e);
      ok := true;
    }

    method Unclaim(user: string, id: string, reason: string, now: Time, ghost e: Event) returns (ok: bool)
      requires Valid()
      requires id in store.jobs && store.jobs[id].userId == user
               && (store.jobs[id].status.Running? || store.jobs[id].status.Dispatched?) ==>
                 Enabled(cfg, State(), e)
                 && Apply(cfg, State(), e) == Put(cfg, State(), Released(store.jobs[id], reason, now), "", now)
      modifies this`run, store
      ensures Valid()
      ensures ok <==> id in old(store.jobs) && old(store.jobs)[id].userId == user
                      && (old(store.jobs)[id].status.Running? || old(store.jobs)[id].status.Dispatched?)
      ensures Did(cfg, old(run), run, ok, e)
    {
      Sane();
      var found := store.GetJob(user, id);
      if found.None? || !(found.value.status.Running? || found.value.status.Dispatched?) { return false; }
      Commit(Released(found.value, reason, now), "", now, e);
      ok := true;
    }

    /** Policy or admin release of a running job. */
    method ReleaseToPending(user: string, id: string, reason: string, now: Time) returns (ok: bool)
      requires Valid()
      modifies this`run, store
      ensures Valid()
      ensures ok <==> id in old(store.jobs) && old(store.jobs)[id].userId == user && old(store.jobs)[id].status.Running?
      ensures Did(cfg, old(run), run, ok, Release(id, reason, now))
      ensures ok ==> store.outbox == old(store.outbox)
                     && store.jobs == old(store.jobs)[id := old(store.jobs)[id].(
                          status := Pending, claimedByAgent := "", claimedByRunner := "", heartbeatAt := 0, claimedAt := 0,
                          updatedAt := now, note := ReleaseNote(old(store.jobs)[id].note, reason))]
    {
      hide ReleaseNote;
      Sane();
      assert id in store.jobs ==> JobOk(State(), id);
      ok := Unclaim(user, id, reason, now, Release(id, reason, now));
    }

    method Heartbeat(user: string, id: string, now: Time) returns (ok: bool)
      requires Valid() && now != 0
      modifies this`run, store
      ensures Valid()
      ensures ok <==> id in old(store.jobs) && old(store.jobs)[id].userId == user && old(store.jobs)[id].status.Running?
      ensures Did(cfg, old(run), run, ok, Beat(id, now))
      ensures ok ==> store.outbox == old(store.outbox)
                     && store.jobs == old(store.jobs)[id := old(store.jobs)[id].(heartbeatAt := now, updatedAt := now)]
    {
      Sane();
      assert id in store.jobs ==> JobOk(State(), id);
      var found := store.GetJob(user, id);
      if found.None? || !found.value.status.Running? { return false; }
      Commit(Beaten(found.value, now), "", now, Beat(id, now));
      ok := true;
    }

    /** Report a result: a finished job is returned as it is, any other ends as reported. */
    method Complete(user: string, id: string, result: CompleteInput, uuid: string, now: Time) returns (r: Option<Job>)
      requires Valid() && Fresh(State(), uuid)
      modifies this`run, store
      ensures Valid()
      ensures r.Some? <==> id in old(store.jobs) && old(store.jobs)[id].userId == user
      ensures r.Some? ==> id in store.jobs && r.value == store.jobs[id] && r.value.status.Terminal()
      ensures Did(cfg, old(run), run, r.Some? && !old(store.jobs)[id].status.Terminal(), Event.Complete(id, result, uuid, now))
      ensures r.Some? && !old(store.jobs)[id].status.Terminal() ==>
                var j := old(store.jobs)[id];
                && store.jobs == old(store.jobs)[id := r.value]
                && r.value.status == (if result.ok then Succeeded else Failed)
                && r.value.exitCode == (if result.exitCode.Some? then result.exitCode else j.exitCode)
                && r.value.durationMs == (if result.durationMs > 0 then result.durationMs else j.durationMs)
                && r.value.claimedByAgent == j.claimedByAgent && r.value.claimedByRunner == j.claimedByRunner
                && r.value.attemptCount == j.attemptCount
                && r.value.heartbeatAt == 0 && r.value.claimedAt == 0 && r.value.updatedAt == now
      ensures r.Some? && !old(store.jobs)[id].status.Terminal() ==>
                var event := if result.ok then "job.succeeded" else "job.failed";
                store.outbox == if !cfg.notify then old(store.outbox)
                                else old(store.outbox)[uuid := Row(uuid, id, user, event, Envelope(uuid, event, now, r.value),
                                                                   Waiting, 0, now, "", now, now, 0)]
    {
      Sane();
      assert id in store.jobs ==> JobOk(State(), id);
      var found := store.GetJob(user, id);
      if found.None? || found.value.status.Terminal() { return found; }
      hide Legal, Sound, AppendNote, NotificationRow;
      ghost var s, e := State(), Event.Complete(id, result, uuid, now);
      var done := Completed(cfg, found.value, result, now);
      Commit(done, uuid, now, e);
      CompleteLaw(cfg, s, e);
      AnnounceLaw(cfg, s, done, uuid, now);
      r := Some(done);
    }

    /** Cancel on behalf of the owner, or of an administrator when `user` is None. */
    method Cancel(user: Option<string>, id: string, adminNote: string, uuid: string, now: Time) returns (ok: bool)
      requires Valid() && Fresh(State(), uuid)
      modifies this`run, store
      ensures Valid()
      ensures ok <==> id in old(store.jobs) && (user.Some? ==> old(store.jobs)[id].userId == user.value)
                      && !old(store.jobs)[id].status.Succeeded? && !old(store.jobs)[id].status.Failed?
      ensures ok ==> id in store.jobs && store.jobs[id].status.Cancelled?
      ensures Did(cfg, old(run), run, ok && !old(store.jobs)[id].status.Cancelled?, Event.Cancel(id, adminNote, uuid, now))
      ensures ok && !old(store.jobs)[id].status.Cancelled? ==>
                var j := old(store.jobs)[id];
                var note := if adminNote == "" then j.note else AppendNote(j.note, "admin cancel: " + adminNote);
                var k := j.(status := Cancelled, heartbeatAt := 0, claimedAt := 0, updatedAt := now, note := note);
                && store.jobs == old(store.jobs)[id := k]
                && store.outbox == if !cfg.notify then old(store.outbox)
                     else old(store.outbox)[uuid := Row(uuid, id, j.userId, "job.cancelled",
                            Envelope(uuid, "job.cancelled", now, k), Waiting, 0, now, "", now, now, 0)]
    {
      Sane();
      assert id in store.jobs ==> JobOk(State(), id);
      if id !in store.jobs || (user.Some? && store.jobs[id].userId != user.value) { return false; }
      var j := store.jobs[id];
      if j.status.Succeeded? || j.status.Failed? { return false; }
      if j.status.Cancelled? { return true; }
      hide Legal, Sound, AppendNote, NotificationRow;
      ghost var s, e := State(), Event.Cancel(id, adminNote, uuid, now);
      Commit(CancelledAs(j, adminNote, now), uuid, now, e);
      CancelLaw(cfg, s, e);
      AnnounceLaw(cfg, s, CancelledAs(j, adminNote, now), uuid, now);
      ok := true;
    }

    method PurgeTerminalJobs(olderThan: Time, limit: int) returns (n: nat, ghost purged: set<string>)
      requires Valid()
      modifies this`run, store
      ensures Valid() && n == |purged| && Did(cfg, old(run), run, true, PurgeJobs(purged))
      ensures Oldest(old(store.jobs), EndedBefore(olderThan), UpdatedFirst, if limit <= 0 then 500 else if limit > 5000 then 5000 else limit, purged)
    {
      Sane();
      n, purged := store.PurgeTerminalJobs(olderThan, limit);
      Record(PurgeJobs(purged));
    }

    // ---- Sweeping stale jobs ----

    /** What a stale job gets: failed for its deadline or its attempts, or released. */
    method Condemn(user: string, sj: Job, global: bool, now: Time, uuid: string, ghost e: Event) returns (done: bool)
      requires Valid() && Stored(store.jobs, sj) && sj.status.Running? && Judge(cfg, sj, global, now) != Keep
      requires Fresh(State(), uuid) && e == Sweep(sj.id, global, uuid, now) && Enabled(cfg, State(), e)
      modifies this`run, store
      ensures Valid() && done == (sj.userId == user)
      ensures Did(cfg, old(run), run, done, e)
    {
      hide Legal, Sound, NotificationRow;
      if PastDeadline(cfg, sj, now) {
        done := FailRunning(user, sj.id, 124, "timeout after " + Decimal(EffectiveTimeout(cfg, sj)) + "s", now, uuid, e);
      } else if sj.maxAttempts > 0 && sj.attemptCount >= sj.maxAttempts {
        done := FailRunning(user, sj.id, 1,
                            "max attempts exceeded (" + Decimal(sj.attemptCount) + "/" + Decimal(sj.maxAttempts)
                            + ") after lease expired", now, uuid, e);
      } else {
        done := Unclaim(user, sj.id, "lease expired", now, e);
      }
    }

    /** The body of both reclaim loops for one listed job. */
    method SweepJob(user: string, sj: Job, global: bool, now: Time, mint: map<string, string>) returns (done: bool)
      requires Valid() && Stored(store.jobs, sj) && sj.status.Running?
      requires Supplies(mint, State(), {sj.id})
      modifies this`run, store
      ensures Valid()
      ensures done <==> sj.userId == user && Judge(cfg, sj, global, now) != Keep
      ensures SweptTo(cfg, old(State()), State(), if sj.userId == user then {sj.id} else {}, global, now, mint)
      ensures Continued(old(run), run, if done then 1 else 0, Sweeps(global, now))
    {
      Sane();
      hide SweptTo, Continued, Judge, Legal, Sound, Apply;
      ghost var s := State();
      ghost var e := Sweep(sj.id, global, mint[sj.id], now);
      ContinuedByNone(run, Sweeps(global, now));
      NothingStale(cfg, s, sj, global, now);
      SweepNothing(cfg, s, {}, global, now, mint);
      if Judge(cfg, sj, global, now) == Keep {
        SweepNothing(cfg, s, {sj.id}, global, now, mint);
        return false;
      }
      SweepOne(cfg, s, sj.id, global, now, mint);
      done := Condemn(user, sj, global, now, mint[sj.id], e);
      DidContinues(cfg, old(run), run, done, e, Sweeps(global, now));
    }

    /** One turn of the reclaim loop. */
    method SweepTurn(user: string, global: bool, now: Time, mint: map<string, string>, list: seq<Job>, i: nat,
                     count: nat, ghost s: State) returns (n: nat)
      requires Valid() && Usable(mint, s) && i < |list|
      requires Distinct(list) && forall j <- list :: Stored(s.jobs, j) && j.status.Running?
      requires Progress(cfg, s, State(), list, i, user, global, now, mint, count)
      modifies this`run, store
      ensures Valid() && Progress(cfg, s, State(), list, i + 1, user, global, now, mint, n)
      ensures count <= n && Continued(old(run), run, n - count, Sweeps(global, now))
    {
      hide Continued, SweptTo, Legal;
      ghost var t := State();
      StillListed(cfg, s, t, list, i, user, global, now, mint);
      TakenOne(list[i], user, global);
      assert list[i] in list;
      var done := SweepJob(if global then list[i].userId else user, list[i], global, now, mint);
      n := if done then count + 1 else count;
      TakeNext(cfg, s, t, State(), list, i, user, global, now, mint, done);
    }

    /** ReclaimStale (one user) and ReclaimStaleAll (`global`): list the running jobs, then
        sweep the listed ones that the per-job lookup finds under the given user. */
    method SweepListed(user: string, global: bool, now: Time, mint: map<string, string>, list: seq<Job>) returns (n: nat)
      requires Valid() && Usable(mint, State())
      requires Distinct(list) && forall j <- list :: Stored(store.jobs, j) && j.status.Running?
      modifies this`run, store
      ensures Valid()
      ensures SweptTo(cfg, old(State()), State(), Taken(list, user, global), global, now, mint)
      ensures n == |Stale(cfg, old(State()), Taken(list, user, global), global, now)|
      ensures Continued(old(run), run, n, Sweeps(global, now))
    {
      hide RowsAdded, JobsSwept, Continued, Progress;
      ghost var s := State();
      ContinuedByNone(run, Sweeps(global, now));
      NoProgress(cfg, s, list, user, global, now, mint);
      n := 0;
      var i := 0;
      while i < |list|
        invariant Valid() && i <= |list|
        invariant Progress(cfg, s, State(), list, i, user, global, now, mint, n)
        invariant Continued(old(run), run, n, Sweeps(global, now))
      {
        ghost var before, m := run, n;
        n := SweepTurn(user, global, now, mint, list, i, n, s);
        ContinuedOn(old(run), before, run, m, n - m, Sweeps(global, now));
        i := i + 1;
      }
      AllProgress(cfg, s, State(), list, user, global, now, mint, n);
    }

    method ReclaimStale(user: string, now: Time, mint: map<string, string>) returns (n: nat)
      requires Valid() && Usable(mint, State())
      modifies this`run, store
      ensures Valid()
      ensures SweptTo(cfg, old(State()), State(), Owned(old(State()), user), false, now, mint)
      ensures n == |Stale(cfg, old(State()), Owned(old(State()), user), false, now)|
      ensures Continued(old(run), run, n, Sweeps(false, now))
      ensures ByTheNumbers(cfg, old(State()), State(), Owned(old(State()), user), now)
    {
      Sane();
      hide Continued, SweptTo, Legal, Sound, ByTheNumbers;
      ghost var s := State();
      var list := store.ListRunningJobs(user);
      n := SweepListed(user, false, now, mint, list);
      ghost var taken := Taken(list, user, false);
      TakenOwned(s, list, user);
      assert forall id <- Owned(s, user) - taken :: !s.jobs[id].status.Running?;
      WidenSweep(cfg, s, State(), taken, Owned(s, user), false, now, mint);
      SweepsGoByTheNumbers(cfg, s, State(), Owned(s, user), false, now, mint);
    }

    method ReclaimStaleAll(now: Time, mint: map<string, string>) returns (n: nat)
      requires Valid() && Usable(mint, State())
      modifies this`run, store
      ensures Valid()
      ensures SweptTo(cfg, old(State()), State(), old(store.jobs).Keys, true, now, mint)
      ensures n == |Stale(cfg, old(State()), old(store.jobs).Keys, true, now)|
      ensures Continued(old(run), run, n, Sweeps(true, now))
      ensures ByTheNumbers(cfg, old(State()), State(), old(store.jobs).Keys, now)
    {
      Sane();
      hide Continued, SweptTo, Legal, Sound, ByTheNumbers;
      ghost var s := State();
      var list := store.ListRunningJobs("");
      n := SweepListed("", true, now, mint, list);
      TakenAll(s, list);
      WidenSweep(cfg, s, State(), Taken(list, "", true), s.jobs.Keys, true, now, mint);
      SweepsGoByTheNumbers(cfg, s, State(), s.jobs.Keys, true, now, mint);
    }

    /** ReclaimStale called for one user after the other. */
    method ReclaimEach(users: seq<string>, now: Time, mint: map<string, string>) returns (n: nat)
      requires Valid() && Usable(mint, State())
      modifies this`run, store
      ensures Valid()
      ensures SweptTo(cfg, old(State()), State(), OwnedByAny(old(State()), users), false, now, mint)
      ensures n == |Stale(cfg, old(State()), OwnedByAny(old(State()), users), false, now)|
      ensures Continued(old(run), run, n, Sweeps(false, now))
      ensures var stale := Stale(cfg, old(State()), old(store.jobs).Keys, true, now);
              && (SweptTo(cfg, old(State()), State(), old(store.jobs).Keys, true, now, mint)
                  <==> stale <= OwnedByAny(old(State()), users))
              && (n == |stale| <==> stale <= OwnedByAny(old(State()), users))
    {
      Sane();
      hide SweptTo, Continued, Legal, Sound, Stale, Owned, OwnedByAny, Usable, ByTheNumbers;
      ghost var s := State();
      NoUsers(cfg, s, now, mint);
      ContinuedByNone(run, Sweeps(false, now));
      n := 0;
      var i := 0;
      while i < |users|
        invariant Valid() && i <= |users| && Usable(mint, State())
        invariant SweptTo(cfg, s, State(), OwnedByAny(s, users[..i]), false, now, mint)
        invariant n == |Stale(cfg, s, OwnedByAny(s, users[..i]), false, now)|
        invariant Continued(old(run), run, n, Sweeps(false, now))
      {
        ghost var t, before := State(), run;
        var k := ReclaimStale(users[i], now, mint);
        StillUsable(cfg, t, State(), Owned(t, users[i]), false, now, mint);
        ContinuedOn(old(run), before, run, n, k, Sweeps(false, now));
        OneMoreUser(cfg, s, t, State(), users[..i], users[i], now, mint);
        assert users[..i + 1] == users[..i] + [users[i]];
        n := n + k;
        i := i + 1;
      }
      assert users[..|users|] == users;
      ReachIsGlobal(cfg, s, State(), OwnedByAny(s, users), now, mint);
    }

    // ---- Claims ----

    method ClaimPending(user: string, id: string, agent: string, runner: string, now: Time) returns (claimed: Option<Job>)
      requires Valid() && now != 0
      modifies this`run, store
      ensures Valid()
      ensures claimed.Some? <==> id in old(store.jobs) && old(store.jobs)[id].userId == user
                                 && old(store.jobs)[id].status.Claimable()
      ensures claimed.Some? ==> claimed.value == ClaimedBy(old(store.jobs)[id], agent, runner, now)
      ensures claimed.Some? ==> claimed.value == old(store.jobs)[id].(
                status := Running, claimedByAgent := agent, claimedByRunner := runner, heartbeatAt := now, claimedAt := now,
                attemptCount := old(store.jobs)[id].attemptCount + 1, updatedAt := now)
      ensures Did(cfg, old(run), run, claimed.Some?, Claim(id, agent, runner, now))
      ensures store.jobs == if claimed.Some? then old(store.jobs)[id := claimed.value] else old(store.jobs)
      ensures store.outbox == old(store.outbox)
    {
      Sane();
      claimed := store.ClaimPendingJob(user, id, agent, runner, now);
      if claimed.Some? { Record(Claim(id, agent, runner, now)); }
    }

    /** Claim by id, after this user's stale jobs were swept. */
    method ClaimById(user: string, id: string, agent: string, runner: string, now: Time, mint: map<string, string>)
      returns (claimed: Option<Job>, ghost swept: Run)
      requires Valid() && now != 0 && Usable(mint, State())
      modifies this`run, store
      ensures Valid() && Legal(cfg, swept)
      ensures SweptTo(cfg, old(State()), Now(swept), Owned(old(State()), user), false, now, mint)
      ensures Continued(old(run), swept, |Stale(cfg, old(State()), Owned(old(State()), user), false, now)|, Sweeps(false, now))
      ensures Did(cfg, swept, run, claimed.Some?, Claim(id, agent, runner, now))
      ensures var jobs := Now(swept).jobs;
              && (claimed.Some? <==> id in jobs && jobs[id].userId == user && jobs[id].status.Claimable())
              && (claimed.Some? ==> claimed.value == ClaimedBy(jobs[id], agent, runner, now))
              && store.jobs == if claimed.Some? then jobs[id := claimed.value] else jobs
    {
      hide Continued;
      var n := ReclaimStale(user, now, mint);
      swept := run;
      claimed := ClaimPending(user, id, agent, runner, now);
    }

    /** Claim one stored candidate and ask the policy again: hand it out, or put it back. */
    method ClaimThenRecheck(q: Request, cand: Job) returns (claimed: Option<Job>)
      requires Valid() && q.now != 0 && Stored(store.jobs, cand) && cand.userId == q.user && cand.status.Claimable()
      modifies this`run, store
      ensures Valid() && store.outbox == old(store.outbox)
      ensures claimed.Some? <==> q.recheck(cand.driveId) == ""
      ensures claimed.Some? ==> claimed.value == HandedOut(q, cand)
      ensures store.jobs == old(store.jobs)[cand.id := if claimed.Some? then HandedOut(q, cand) else Bounced(q, cand)]
      ensures Continued(old(run), run, if claimed.Some? then 1 else 2, Scans(q))
    {
      hide Released, Continued;
      ClaimAndReturn(cfg, State(), cand, q);
      claimed := ClaimPending(q.user, cand.id, q.agent, q.runner, q.now);
      DidContinues(cfg, old(run), run, true, Claim(cand.id, q.agent, q.runner, q.now), Scans(q));
      if q.recheck(claimed.value.driveId) != "" {
        ghost var claimedRun, release := run, Release(cand.id, q.recheck(claimed.value.driveId), q.now);
        var ok := ReleaseToPending(q.user, cand.id, q.recheck(claimed.value.driveId), q.now);
        claimed := None;
        DidContinues(cfg, claimedRun, run, ok, release, Scans(q));
        ContinuedOn(old(run), claimedRun, run, 1, 1, Scans(q));
      }
    }

    /** One candidate of the scan: skip it, hand it out, or claim it and put it back. */
    method ScanTurn(q: Request, list: seq<Job>, i: nat, ghost before: Table) returns (won: Option<Job>)
      requires Valid() && q.now != 0 && i < |list| && Candidates(q, before, list)
      requires Scanned(q, before, store.jobs, list, i)
      modifies this`run, store
      ensures Valid() && store.outbox == old(store.outbox)
      ensures won.None? ==> Scanned(q, before, store.jobs, list, i + 1)
      ensures won.Some? ==> ClaimOutcome(q, before, store.jobs, TriedAmong(q, list[..i]), won)
      ensures Continued(old(run), run, if won.Some? then 1 else if Tried(q, list[i]) then 2 else 0, Scans(q))
    {
      hide HandedOut, Bounced, JobsBounced, ClaimOutcome, Applies, Continued;
      ContinuedByNone(run, Scans(q));
      ghost var entry := store.jobs;
      NextCandidate(q, before, entry, list, i);
      var cand := list[i];
      if !InRegion(q, cand) || q.allow(cand.driveId) != "" {
        PassOver(q, before, entry, entry, list, i);
        return None;
      }
      won := ClaimThenRecheck(q, cand);
      if won.None? {
        PassOver(q, before, entry, store.jobs, list, i);
      } else {
        ScanWins(q, before, entry, list, i);
      }
    }

    /** The scan over the candidates, best first. */
    method Scan(q: Request, list: seq<Job>) returns (won: Option<Job>, ghost bounced: set<string>)
      requires Valid() && q.now != 0 && Candidates(q, store.jobs, list)
      modifies this`run, store
      ensures Valid() && store.outbox == old(store.outbox)
      ensures ClaimOutcome(q, old(store.jobs), store.jobs, bounced, won)
      ensures Continued(old(run), run, 2 * |bounced| + if won.Some? then 1 else 0, Scans(q))
    {
      hide Continued, ClaimOutcome, Scanned, Candidates, Legal, TriedAmong, Tried;
      ghost var before := store.jobs;
      ContinuedByNone(run, Scans(q));
      NothingScanned(q, before, list);
      var i := 0;
      while i < |list|
        invariant Valid() && i <= |list| && store.outbox == old(store.outbox)
        invariant Scanned(q, before, store.jobs, list, i)
        invariant Continued(old(run), run, 2 * |TriedAmong(q, list[..i])|, Scans(q))
      {
        ghost var m, middle := 2 * |TriedAmong(q, list[..i])|, run;
        TriedNext(q, before, store.jobs, list, i);
        won := ScanTurn(q, list, i, before);
        ContinuedOn(old(run), middle, run, m, if won.Some? then 1 else if Tried(q, list[i]) then 2 else 0, Scans(q));
        if won.Some? {
          bounced := TriedAmong(q, list[..i]);
          return;
        }
        i := i + 1;
      }
      assert list[..|list|] == list;
      ScanFails(q, before, store.jobs, list);
      won, bounced := None, TriedAmong(q, list);
    }

    /** Claim the best pending job that the policy allows. */
    method ClaimNextFiltered(q: Request, mint: map<string, string>)
      returns (won: Option<Job>, ghost swept: Run, ghost bounced: set<string>)
      requires Valid() && q.now != 0 && Usable(mint, State())
      modifies this`run, store
      ensures Valid() && Legal(cfg, swept)
      ensures SweptTo(cfg, old(State()), Now(swept), Owned(old(State()), q.user), false, q.now, mint)
      ensures Continued(old(run), swept, |Stale(cfg, old(State()), Owned(old(State()), q.user), false, q.now)|,
                        Sweeps(false, q.now))
      ensures store.outbox == Now(swept).outbox
      ensures ClaimOutcome(q, Now(swept).jobs, store.jobs, bounced, won)
      ensures Continued(swept, run, 2 * |bounced| + if won.Some? then 1 else 0, Scans(q))
    {
      hide Continued, SweptTo, ClaimOutcome, Legal, ByTheNumbers;
      var n := ReclaimStale(q.user, q.now, mint);
      swept := run;
      Sane();
      var list := store.ListPendingJobs(q.user);
      OutranksStrict();
      list := Arrange(list, Outranks);
      assert Candidates(q, store.jobs, list);
      won, bounced := Scan(q, list);
    }

    // ---- Listing ----

    /** One page of the user's jobs and the cursor of the next one, empty when there is none. */
    method List(f: Filter, limit: int, cursor: string) returns (items: seq<Job>, next: string)
      requires Valid()
      ensures var size := if limit <= 0 then 100 else if limit > 500 then 500 else limit;
              IsPage(store.jobs, f, AfterCursor(cursor), size, items, next != "")
      ensures next != "" ==> items != [] && IsBytes(items[|items| - 1].id) && next == NextCursor(items)
    {
      hide Sound, Legal, IsPage, Eligible, Descending, NextCursor, AfterCursor;
      Sane();
      var size := if limit <= 0 then 100 else if limit > 500 then 500 else limit;
      items := store.ListJobsPage(f, AfterCursor(cursor), size + 1);
      next := "";
      if |items| > size {
        PeekedPage(store.jobs, f, AfterCursor(cursor), items, size);
        next := NextCursor(items[..size]);
        items := items[..size];
      } else {
        WholePage(store.jobs, f, AfterCursor(cursor), items, size);
      }
    }

    // ---- Webhook deliveries ----

    /** The row as the answer to one delivery changes it, and 1 if it counts as delivered. */
    method Answered(row: Row, o: Outcome) returns (r: Row, delivered: nat)
      ensures r == AfterAttempt(cfg, row, o) && delivered == if o.ok then 1 else 0
    {
      r := row.(attempts := row.attempts + 1, updatedAt := o.at);
      if o.ok {
        return r.(status := Delivered, deliveredAt := o.at, lastError := ""), 1;
      }
      r := r.(lastError := if |o.detail| > 500 then o.detail[..500] else o.detail);
      if r.attempts >= cfg.maxDeliveries {
        return r.(status := Dead), 0;
      }
      r, delivered := r.(nextAttemptAt := o.at + Backoff(cfg, r.attempts)), 0;
    }

    /** Book the answer to one delivery. */
    method FinishAttempt(row: Row, o: Outcome) returns (delivered: nat)
      requires Valid() && row.id in store.outbox && store.outbox[row.id] == row
      requires row.status.Waiting? && row.nextAttemptAt <= o.at
      modifies this`run, store
      ensures Valid() && store.jobs == old(store.jobs)
      ensures Did(cfg, old(run), run, true, Deliver(row.id, o.ok, o.detail, o.at))
      ensures store.outbox == old(store.outbox)[row.id := AfterAttempt(cfg, row, o)]
      ensures var q, n := store.outbox[row.id], row.attempts + 1;
              if o.ok then q == row.(attempts := n, updatedAt := o.at, status := Delivered, deliveredAt := o.at, lastError := "")
              else q.attempts == n && q.updatedAt == o.at && q.deliveredAt == row.deliveredAt
                   && q.status == (if n >= cfg.maxDeliveries then Dead else Waiting)
                   && (n < cfg.maxDeliveries ==> q.nextAttemptAt == o.at + Backoff(cfg, n))
      ensures delivered == if o.ok then 1 else 0
    {
      hide Attempted, Backoff;
      Sane();
      AttemptLaw(cfg, row, o);
      TrimTidy(row.id);
      AttemptKeepsId(cfg, row, o);
      var r;
      r, delivered := Answered(row, o);
      var ok := store.UpdateWebhookOutbox(r);
      Record(Deliver(row.id, o.ok, o.detail, o.at));
    }

    /** The serial branch: fetch, deliver and book one due row after the other. */
    method DeliverSerially(due: seq<Row>, outcomes: map<string, Outcome>) returns (n: nat)
      requires Valid() && DueBatch(store.outbox, due, outcomes)
      modifies this`run, store
      ensures Valid() && store.jobs == old(store.jobs)
      ensures store.outbox == Finished(cfg, old(store.outbox), Ids(due), outcomes)
      ensures n == |Successes(Ids(due), outcomes)|
      ensures Continued(old(run), run, |due|, Deliveries())
    {
      hide Finished, Successes, AfterAttempt, Continued;
      ContinuedByNone(run, Deliveries());
      ghost var rows := store.outbox;
      NothingFinished(cfg, rows, outcomes);
      assert due[..0] == [];
      n := 0;
      var i := 0;
      while i < |due|
        invariant Valid() && i <= |due| && store.jobs == old(store.jobs)
        invariant store.outbox == Finished(cfg, rows, Ids(due[..i]), outcomes)
        invariant n == |Successes(Ids(due[..i]), outcomes)|
        invariant Continued(old(run), run, i, Deliveries())
      {
        ghost var before := run;
        IdsNext(rows, due, i);
        assert due[i] in due;
        var id := due[i].id;
        FinishNext(cfg, rows, Ids(due[..i]), id, outcomes);
        var fetched := store.outbox[id];
        if fetched.status.Waiting? {
          var d := FinishAttempt(fetched, outcomes[id]);
          n := n + d;
        }
        DeliveredOne(cfg, before, run, id, outcomes[id]);
        ContinuedOn(old(run), before, run, i, 1, Deliveries());
        i := i + 1;
      }
      assert due[..|due|] == due;
    }

    /** The parallel branch: fetch all due rows, deliver them at once, and book the answers in
        the order, whatever it is, in which the deliveries completed. */
    method DeliverInParallel(due: seq<Row>, outcomes: map<string, Outcome>) returns (n: nat)
      requires Valid() && DueBatch(store.outbox, due, outcomes)
      modifies this`run, store
      ensures Valid() && store.jobs == old(store.jobs)
      ensures store.outbox == Finished(cfg, old(store.outbox), Ids(due), outcomes)
      ensures n == |Successes(Ids(due), outcomes)|
      ensures Continued(old(run), run, |due|, Deliveries())
    {
      hide Finished, Successes, AfterAttempt, Continued;
      ContinuedByNone(run, Deliveries());
      ghost var rows := store.outbox;
      var results := CompletionOrder(due);
      Reordered(rows, due, results);
      assert |results| == |multiset(results)| == |due|;
      NothingFinished(cfg, rows, outcomes);
      assert results[..0] == [];
      n := 0;
      var i := 0;
      while i < |results|
        invariant Valid() && i <= |results| && store.jobs == old(store.jobs)
        invariant store.outbox == Finished(cfg, rows, Ids(results[..i]), outcomes)
        invariant n == |Successes(Ids(results[..i]), outcomes)|
        invariant Continued(old(run), run, i, Deliveries())
      {
        ghost var before := run;
        IdsNext(rows, results, i);
        assert results[i] in results && results[i] in due;
        FinishNext(cfg, rows, Ids(results[..i]), results[i].id, outcomes);
        var d := FinishAttempt(results[i], outcomes[results[i].id]);
        n := n + d;
        DeliveredOne(cfg, before, run, results[i].id, outcomes[results[i].id]);
        ContinuedOn(old(run), before, run, i, 1, Deliveries());
        i := i + 1;
      }
      assert results[..|results|] == results;
    }

    /** Deliver the due rows, serially or with up to `inflight` at a time. */
    method ProcessWebhookOutbox(now: Time, limit: int, inflight: nat, outcomes: map<string, Outcome>)
      returns (n: nat, ghost done: set<string>)
      requires Valid() && store.outbox.Keys <= outcomes.Keys
      requires forall w <- store.outbox :: outcomes[w].at >= now
      modifies this`run, store
      ensures Valid() && store.jobs == old(store.jobs)
      ensures cfg.notify ==> Oldest(old(store.outbox), DueBy(now), DueFirst, if limit <= 0 then 32 else if limit > 200 then 200 else limit, done)
      ensures store.outbox == Finished(cfg, old(store.outbox), done, outcomes)
      ensures n == |Successes(done, outcomes)|
      ensures !cfg.notify ==> done == {}
      ensures Continued(old(run), run, |done|, Deliveries())
    {
      hide Finished, Successes, Oldest, Continued, Legal;
      Sane();
      ContinuedByNone(run, Deliveries());
      NothingFinished(cfg, store.outbox, outcomes);
      if !cfg.notify { return 0, {}; }
      var due := store.ListDueWebhookOutbox(now, limit);
      forall i, k | 0 <= i < k < |due| ensures due[i].id != due[k].id {
        assert due[i] in due && due[k] in due;
      }
      done := Ids(due);
      DueIds(store.outbox, due, now, DueCap(limit));
      if inflight <= 1 { n := DeliverSerially(due, outcomes); }
      else { n := DeliverInParallel(due, outcomes); }
    }

    /** Put a row back in the queue, its tries forgotten. */
    method AdminRetryWebhook(id: string, now: Time) returns (ok: bool)
      requires Valid()
      modifies this`run, store
      ensures Valid()
      ensures ok <==> Trim(id) in old(store.outbox)
      ensures Did(cfg, old(run), run, ok, Requeue(Trim(id), now))
      ensures ok ==> store.jobs == old(store.jobs)
                     && store.outbox == old(store.outbox)[Trim(id) := old(store.outbox)[Trim(id)].(
                          status := Waiting, attempts := 0, nextAttemptAt := now - 1_000_000_000, lastError := "",
                          deliveredAt := 0, updatedAt := now)]
    {
      Sane();
      var key := Trim(id);
      if key !in store.outbox { return false; }
      TrimTidy(key);
      ok := store.UpdateWebhookOutbox(Requeued(store.outbox[key], now));
      Record(Requeue(key, now));
    }

    method PurgeWebhookOutbox(olderThan: Time, limit: int) returns (n: nat, ghost purged: set<string>)
      requires Valid()
      modifies this`run, store
      ensures Valid() && n == |purged| && Did(cfg, old(run), run, true, PurgeRows(purged))
      ensures Oldest(old(store.outbox), RestedBefore(olderThan), RestedFirst, if limit <= 0 then 500 else if limit > 5000 then 5000 else limit, purged)
    {
      Sane();
      n, purged := store.PurgeWebhookOutbox(olderThan, limit);
      Record(PurgeRows(purged));
    }
  }

  lemma DeliveredOne(cfg: Config, r: Run, t: Run, row: string, o: Outcome)
    requires r.states != [] && Did(cfg, r, t, true, Deliver(row, o.ok, o.detail, o.at))
    ensures Continued(r, t, 1, Deliveries())
  {
    DidContinues(cfg, r, t, true, Deliver(row, o.ok, o.detail, o.at), Deliveries());
  }

  lemma AttemptLaw(cfg: Config, row: Row, o: Outcome)
    ensures var q, n := AfterAttempt(cfg, row, o), row.attempts + 1;
            if o.ok then q == row.(attempts := n, updatedAt := o.at, status := Delivered, deliveredAt := o.at, lastError := "")
            else q.attempts == n && q.updatedAt == o.at && q.deliveredAt == row.deliveredAt
                 && q.status == (if n >= cfg.maxDeliveries then Dead else row.status)
                 && (n < cfg.maxDeliveries ==> q.nextAttemptAt == o.at + Backoff(cfg, n))
  {
    hide Backoff;
  }

  lemma AttemptKeepsId(cfg: Config, r: Row, o: Outcome)
    ensures AfterAttempt(cfg, r, o).id == r.id
  {
  }

  /** Any order in which the deliveries of a batch may complete. */
  method CompletionOrder(batch: seq<Row>) returns (results: seq<Row>)
    ensures multiset(results) == multiset(batch)
  {
    var flying := batch;
    results := [];
    while flying != []
      invariant multiset(results) + multiset(flying) == multiset(batch)
      decreases |flying|
    {
      var k :| 0 <= k < |flying|;
      assert flying == flying[..k] + [flying[k]] + flying[k + 1..];
      results := results + [flying[k]];
      flying := flying[..k] + flying[k + 1..];
    }
  }

  ghost predicate DueBatch(rows: Rows, due: seq<Row>, outcomes: map<string, Outcome>) {
    && Batch(rows, due) && rows.Keys <= outcomes.Keys
    && forall r <- due :: r.status.Waiting? && r.nextAttemptAt <= outcomes[r.id].at
  }

  lemma DueIds(rows: Rows, due: seq<Row>, now: Time, cut: nat)
    requires Batch(rows, due) && RowKeyed(rows) && |due| <= cut
    requires forall r <- due :: DueBy(now)(r)
    requires forall w <- rows :: DueBy(now)(rows[w]) && rows[w] !in due ==>
               |due| == cut && forall r <- due :: r.nextAttemptAt <= rows[w].nextAttemptAt
    ensures Oldest(rows, DueBy(now), DueFirst, cut, Ids(due)) && |Ids(due)| == |due|
  {
    var ids := seq(|due|, i requires 0 <= i < |due| => due[i].id);
    DistinctSize(ids);
    forall w ensures w in ids <==> w in Ids(due) {
      if w in ids { var i :| 0 <= i < |ids| && ids[i] == w; assert due[i] in due; }
      if w in Ids(due) { var i :| 0 <= i < |due| && due[i].id == w; assert ids[i] == w; }
    }
    assert (set w | w in ids) == Ids(due);
    forall w | w in rows && w !in Ids(due) ensures rows[w] !in due { assert rows[w].id == w; }
    assert forall w <- Ids(due) :: w in rows && rows[w] in due;
  }

  /** The limit+1 peek, cut back to the limit, is a page with more to come. */
  lemma PeekedPage(jobs: Table, f: Filter, cursor: Option<Key>, items: seq<Job>, size: nat)
    requires Keyed(jobs) && size > 0 && |items| == size + 1 && Descending(items)
    requires forall j <- items :: Eligible(jobs, f, cursor, j)
    requires forall id <- jobs :: Eligible(jobs, f, cursor, jobs[id]) && jobs[id] !in items ==>
               Newer(LastKey(items), KeyOf(jobs[id]))
    ensures IsPage(jobs, f, cursor, size, items[..size], true)
    ensures IsBytes(items[size - 1].id) && NextCursor(items[..size]) != ""
  {
    hide Matches, Below;
    var page := items[..size];
    assert forall j <- page :: j in items;
    var extra := items[size];
    assert extra in items && items[size - 1] in items;
    CursorRoundTrip(items[size - 1].createdAt, items[size - 1].id);
    forall id | id in jobs && Eligible(jobs, f, cursor, jobs[id]) && jobs[id] !in page
      ensures Newer(LastKey(page), KeyOf(jobs[id]))
    {
      LeftAfterPeek(jobs, items, size, jobs[id]);
    }
    NotRepeated(items, size);
    assert jobs[extra.id] == extra;
  }

  /** What stays within the limit is the whole rest of the listing. */
  lemma WholePage(jobs: Table, f: Filter, cursor: Option<Key>, items: seq<Job>, size: nat)
    requires |items| <= size && Descending(items) && forall j <- items :: Eligible(jobs, f, cursor, j)
    requires forall id <- jobs :: Eligible(jobs, f, cursor, jobs[id]) ==> jobs[id] in items
    ensures IsPage(jobs, f, cursor, size, items, false)
  {
    hide Eligible, Descending;
  }

  lemma LeftAfterPeek(jobs: Table, items: seq<Job>, size: nat, j: Job)
    requires size > 0 && |items| == size + 1 && Descending(items) && j !in items[..size]
    requires j !in items ==> Newer(LastKey(items), KeyOf(j))
    ensures Newer(LastKey(items[..size]), KeyOf(j))
  {
    if j in items {
      assert items == items[..size] + [items[size]];
    } else {
      NewerTransitive(KeyOf(items[size - 1]), KeyOf(items[size]), KeyOf(j));
    }
  }

  lemma NotRepeated(items: seq<Job>, size: nat)
    requires |items| == size + 1 && Descending(items)
    ensures items[size] !in items[..size]
  {
    forall i | 0 <= i < size ensures items[i] != items[size] {
      NewerStrict(KeyOf(items[i]), KeyOf(items[size]));
    }
  }

  /** Claiming a job and releasing it again leaves its bounced record. */
  lemma ClaimAndReturn(cfg: Config, s: State, j: Job, q: Request)
    requires Stored(s.jobs, j) && j.status.Claimable() && q.now != 0
    ensures var claim := Claim(j.id, q.agent, q.runner, q.now);
            var release := Release(j.id, q.recheck(j.driveId), q.now);
            && Enabled(cfg, s, claim) && Enabled(cfg, Apply(cfg, s, claim), release)
            && var t := Apply(cfg, Apply(cfg, s, claim), release);
            t.jobs == s.jobs[j.id := Bounced(q, j)] && t.outbox == s.outbox
  {
  }

  /** An unused event id for every job a sweep might fail. */
  predicate Usable(mint: map<string, string>, s: State) {
    Supplies(mint, s, set id | id in s.jobs && s.jobs[id].status.Running?)
  }

  /** What a sweep leaves of the supply serves the next one. */
  lemma StillUsable(cfg: Config, s: State, t: State, ids: set<string>, global: bool, now: Time, mint: map<string, string>)
    requires Usable(mint, s) && SweptTo(cfg, s, t, ids, global, now, mint)
    ensures Usable(mint, t)
  {
    var announced := Announced(cfg, s, ids, global, now);
    forall id | id in t.jobs && t.jobs[id].status.Running? ensures id in mint && Fresh(t, mint[id]) {
      if id in ids { RunningKept(cfg, s.jobs[id], global, now); }
      assert id !in announced;
      hide Swept, Judge;
      assert s.jobs[id].status.Running?;
      assert mint[id] !in Minted(mint, announced);
    }
  }

  lemma RunningKept(cfg: Config, j: Job, global: bool, now: Time)
    requires Swept(cfg, j, global, now).status.Running?
    ensures Judge(cfg, j, global, now) == Keep && Swept(cfg, j, global, now) == j
  {
  }

  /** Listed jobs the loop acts on: all of them, or those stored under exactly this user. */
  function Taken(list: seq<Job>, user: string, global: bool): set<string> {
    set j | j in list && (global || j.userId == user) :: j.id
  }

  ghost predicate Progress(cfg: Config, s: State, t: State, list: seq<Job>, i: nat, user: string, global: bool,
                           now: Time, mint: map<string, string>, n: nat)
    requires i <= |list|
  {
    SweptTo(cfg, s, t, Taken(list[..i], user, global), global, now, mint)
    && n == |Stale(cfg, s, Taken(list[..i], user, global), global, now)|
  }

  lemma NoProgress(cfg: Config, s: State, list: seq<Job>, user: string, global: bool, now: Time, mint: map<string, string>)
    ensures Progress(cfg, s, s, list, 0, user, global, now, mint, 0)
  {
    assert list[..0] == [];
    assert Taken([], user, global) == {};
    assert Stale(cfg, s, {}, global, now) == {};
    SweepNothing(cfg, s, {}, global, now, mint);
  }

  lemma NothingStale(cfg: Config, s: State, j: Job, global: bool, now: Time)
    requires Stored(s.jobs, j)
    ensures Stale(cfg, s, {}, global, now) == {}
    ensures Judge(cfg, j, global, now) == Keep ==> Stale(cfg, s, {j.id}, global, now) == {}
  {
  }

  lemma AllProgress(cfg: Config, s: State, t: State, list: seq<Job>, user: string, global: bool,
                    now: Time, mint: map<string, string>, n: nat)
    requires Progress(cfg, s, t, list, |list|, user, global, now, mint, n)
    ensures SweptTo(cfg, s, t, Taken(list, user, global), global, now, mint)
    ensures n == |Stale(cfg, s, Taken(list, user, global), global, now)|
  {
    assert list[..|list|] == list;
  }

  lemma TakenOwned(s: State, list: seq<Job>, user: string)
    requires Sound(s) && forall j :: j in list <==> Stored(s.jobs, j) && j.status.Running? && Wants(user, j.userId)
    ensures Taken(list, user, false) == set id | id in Owned(s, user) && s.jobs[id].status.Running?
  {
    forall id | id in Owned(s, user) && s.jobs[id].status.Running? ensures id in Taken(list, user, false) {
      assert JobOk(s, id);
      assert s.jobs[id] in list;
    }
    forall id | id in Taken(list, user, false) ensures id in Owned(s, user) && s.jobs[id].status.Running? {
      var j :| j in list && j.userId == user && j.id == id;
    }
  }

  /** A listed job not yet taken is still stored as listed, and its event id still unused. */
  lemma StillListed(cfg: Config, s: State, t: State, list: seq<Job>, i: nat, user: string, global: bool,
                    now: Time, mint: map<string, string>)
    requires Usable(mint, s) && Distinct(list) && i < |list| && forall j <- list :: Stored(s.jobs, j) && j.status.Running?
    requires SweptTo(cfg, s, t, Taken(list[..i], user, global), global, now, mint)
    ensures Stored(t.jobs, list[i]) && Supplies(mint, t, {list[i].id})
  {
    DistinctIds(s.jobs, list);
    assert forall j <- list[..i] :: j.id != list[i].id;
    assert list[i] in list;
    assert list[i].id !in Taken(list[..i], user, global);
  }

  lemma TakenStep(list: seq<Job>, i: nat, user: string, global: bool)
    requires i < |list|
    ensures Taken(list[..i + 1], user, global) == Taken(list[..i], user, global) + Taken([list[i]], user, global)
  {
    assert list[..i + 1] == list[..i] + [list[i]];
  }

  lemma StaleOne(cfg: Config, t: State, j: Job, user: string, global: bool, now: Time, done: bool)
    requires Stored(t.jobs, j)
    requires done <==> (global || j.userId == user) && Judge(cfg, j, global, now) != Keep
    ensures Stale(cfg, t, Taken([j], user, global), global, now) == if done then {j.id} else {}
  {
    TakenOne(j, user, global);
  }

  /** Taking one more listed job. */
  lemma TakeNext(cfg: Config, s: State, t: State, u: State, list: seq<Job>, i: nat, user: string, global: bool,
                 now: Time, mint: map<string, string>, done: bool)
    requires i < |list| && Stored(t.jobs, list[i])
    requires SweptTo(cfg, s, t, Taken(list[..i], user, global), global, now, mint)
    requires SweptTo(cfg, t, u, Taken([list[i]], user, global), global, now, mint)
    requires done <==> (global || list[i].userId == user) && Judge(cfg, list[i], global, now) != Keep
    ensures SweptTo(cfg, s, u, Taken(list[..i + 1], user, global), global, now, mint)
    ensures |Stale(cfg, s, Taken(list[..i + 1], user, global), global, now)|
            == |Stale(cfg, s, Taken(list[..i], user, global), global, now)| + if done then 1 else 0
  {
    TakenStep(list, i, user, global);
    StaleOne(cfg, t, list[i], user, global, now, done);
    SweepTwice(cfg, s, t, u, Taken(list[..i], user, global), Taken([list[i]], user, global), global, now, mint);
  }

  lemma TakenOne(j: Job, user: string, global: bool)
    ensures Taken([j], user, global) == if global || j.userId == user then {j.id} else {}
  {
  }

  lemma TakenAll(s: State, list: seq<Job>)
    requires Sound(s) && forall j :: j in list <==> Stored(s.jobs, j) && j.status.Running? && Wants("", j.userId)
    ensures Taken(list, "", true) == set id | id in s.jobs && s.jobs[id].status.Running?
  {
    forall id | id in s.jobs && s.jobs[id].status.Running? ensures id in Taken(list, "", true) {
      assert JobOk(s, id);
      assert s.jobs[id] in list;
    }
  }

  /** Jobs a sweep would keep may be added to its scope. */
  lemma WidenSweep(cfg: Config, s: State, t: State, ids: set<string>, wider: set<string>, global: bool,
                   now: Time, mint: map<string, string>)
    requires SweptTo(cfg, s, t, ids, global, now, mint) && ids <= wider
    requires forall id <- wider - ids :: id in s.jobs ==> !s.jobs[id].status.Running?
    ensures SweptTo(cfg, s, t, wider, global, now, mint)
    ensures Stale(cfg, s, wider, global, now) == Stale(cfg, s, ids, global, now)
  {
    var rest := wider - ids;
    assert Stale(cfg, t, rest, global, now) == {};
    SweepNothing(cfg, t, rest, global, now, mint);
    SweepTwice(cfg, s, t, t, ids, rest, global, now, mint);
    assert ids + rest == wider;
  }

  lemma KeyOfRequest(r: Run, id: string, user: string, input: CreateInput)
    requires RequestOf(r, id, user, input)
    ensures Trim(input.idempotencyKey) != ""
  {
  }

  lemma OneKeyHolder(s: State, j: Job, user: string, key: string)
    requires Sound(s) && j in s.jobs.Values && SameKey(j, user, key) && key != ""
    ensures Stored(s.jobs, j)
    ensures forall id <- s.jobs :: SameKey(s.jobs[id], user, key) ==> s.jobs[id] == j
  {
    var i :| i in s.jobs && s.jobs[i] == j;
    assert JobOk(s, i);
  }
}
