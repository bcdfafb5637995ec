/** The job store as a state machine: one event per write the service makes, histories of
    such events, and the invariants every reachable store satisfies. */
module JobHistory {
  import opened Text
  import opened Jobs

  /** `issued` remembers every identifier ever minted, purged ones included. */
  datatype State = State(jobs: map<string, Job>, outbox: map<string, Row>, issued: set<string>)

  const EMPTY := State(map[], map[], {})

  datatype Event =
    | Create(id: string, user: string, input: CreateInput, labels: map<string, string>, at: Time)
    | Claim(id: string, agent: string, runner: string, at: Time)
    | Beat(id: string, at: Time)
    | Sweep(id: string, global: bool, row: string, at: Time)
    | Release(id: string, reason: string, at: Time)
    | Complete(id: string, result: CompleteInput, row: string, at: Time)
    | Cancel(id: string, adminNote: string, row: string, at: Time)
    | PurgeJobs(ids: set<string>)
    | Deliver(row: string, ok: bool, detail: string, at: Time)
    | Requeue(row: string, at: Time)
    | PurgeRows(rows: set<string>)

  predicate Fresh(s: State, id: string) { id !in s.issued && IsUuid(id) }

  predicate SameKey(j: Job, user: string, key: string) { j.userId == user && j.idempotencyKey == key }

  /** Events that edit one stored job. */
  predicate Targets(e: Event) {
    e.Claim? || e.Beat? || e.Sweep? || e.Release? || e.Complete? || e.Cancel?
  }

  /** May the event happen to this job? */
  predicate Applies(cfg: Config, j: Job, e: Event)
    requires Targets(e)
  {
    match e
    case Claim(_, agent, runner, at) => j.status.Claimable() && at != 0
    case Beat(_, at) => j.status.Running? && at != 0
    case Sweep(_, global, row, at) => Judge(cfg, j, global, at) != Keep
    case Release(_, reason, at) => j.status.Running? || j.status.Dispatched?
    case Complete(_, result, row, at) => !j.status.Terminal()
    case Cancel(_, adminNote, row, at) => !j.status.Terminal()
  }

  /** The record the event leaves for its job. */
  function Edited(cfg: Config, j: Job, e: Event): Job
    requires Targets(e)
  {
    match e
    case Claim(_, agent, runner, at) => ClaimedBy(j, agent, runner, at)
    case Beat(_, at) => Beaten(j, at)
    case Sweep(_, global, row, at) => Swept(cfg, j, global, at)
    case Release(_, reason, at) => Released(j, reason, at)
    case Complete(_, result, row, at) => Completed(cfg, j, result, at)
    case Cancel(_, adminNote, row, at) => CancelledAs(j, adminNote, at)
  }

  /** The id reserved for a notification, if the event may send one. */
  function RowId(e: Event): string
    requires Targets(e)
  {
    if e.Sweep? || e.Complete? || e.Cancel? then e.row else ""
  }

  predicate Enabled(cfg: Config, s: State, e: Event) {
    match e
    case Create(id, user, input, labels, at) =>
      && Fresh(s, id) && at != 0 && Encodes(input.labels, labels) && LegalLabels(labels)
      && (Trim(input.idempotencyKey) != "" ==>
            forall k <- s.jobs :: !SameKey(s.jobs[k], user, Trim(input.idempotencyKey)))
    case PurgeJobs(ids) => forall id <- ids :: id in s.jobs && s.jobs[id].status.Terminal()
    case Deliver(row, ok, detail, at) =>
      row in s.outbox && s.outbox[row].status.Waiting? && s.outbox[row].nextAttemptAt <= at
    case Requeue(row, at) => row in s.outbox
    case PurgeRows(rows) => forall w <- rows :: w in s.outbox && !s.outbox[w].status.Waiting?
    case _ =>
      && e.id in s.jobs && Applies(cfg, s.jobs[e.id], e)
      && (e.Sweep? || e.Complete? || e.Cancel? ==> Fresh(s, e.row))
  }

  /** Store `j`; when it is terminal and the webhook is configured, enqueue its notification. */
  function Put(cfg: Config, s: State, j: Job, row: string, now: Time): State {
    if j.status.Terminal() && cfg.notify then
      State(s.jobs[j.id := j], s.outbox[row := NotificationRow(row, j, now)], s.issued + {row})
    else s.(jobs := s.jobs[j.id := j])
  }

  function Apply(cfg: Config, s: State, e: Event): State
    requires Enabled(cfg, s, e)
  {
    match e
    case Create(id, user, input, labels, at) =>
      State(s.jobs[id := NewJob(id, user, input, labels, at)], s.outbox, s.issued + {id})
    case PurgeJobs(ids) =>
      s.(jobs := s.jobs - ids,
         outbox := map w | w in s.outbox && s.outbox[w].jobId !in ids :: s.outbox[w])
    case Deliver(row, ok, detail, at) =>
      s.(outbox := s.outbox[row := Attempted(cfg, s.outbox[row], ok, detail, at)])
    case Requeue(row, at) => s.(outbox := s.outbox[row := Requeued(s.outbox[row], at)])
    case PurgeRows(rows) => s.(outbox := s.outbox - rows)
    case _ => Put(cfg, s, Edited(cfg, s.jobs[e.id], e), RowId(e), e.at)
  }

  // ---- Runs ----

  /** A run: the stores passed through and the events between them. */
  datatype Run = Run(states: seq<State>, events: seq<Event>)

  /** Event `n` of the run is possible where it happens and leads to the next store. */
  predicate Step(cfg: Config, r: Run, n: nat)
    requires n < |r.events| && n + 1 < |r.states|
  {
    Enabled(cfg, r.states[n], r.events[n]) && r.states[n + 1] == Apply(cfg, r.states[n], r.events[n])
  }

  ghost predicate Legal(cfg: Config, r: Run) {
    && |r.states| == |r.events| + 1 && r.states[0] == EMPTY
    && forall n :: 0 <= n < |r.events| ==> Step(cfg, r, n)
  }

  const START := Run([EMPTY], [])

  function Now(r: Run): State
    requires r.states != []
  {
    r.states[|r.states| - 1]
  }

  function Then(cfg: Config, r: Run, e: Event): Run
    requires r.states != [] && Enabled(cfg, Now(r), e)
  {
    Run(r.states + [Apply(cfg, Now(r), e)], r.events + [e])
  }

  lemma Extend(cfg: Config, r: Run, e: Event)
    requires Legal(cfg, r) && Enabled(cfg, Now(r), e)
    ensures Legal(cfg, Then(cfg, r, e)) && Now(Then(cfg, r, e)) == Apply(cfg, Now(r), e)
  {
    hide Apply, Enabled;
    var t := Then(cfg, r, e);
    forall n | 0 <= n < |t.events| ensures Step(cfg, t, n) {
      if n < |r.events| { assert Step(cfg, r, n); }
    }
  }

  /** Run `t` is run `r` continued by `n` events, all of one kind. */
  ghost predicate Continued(r: Run, t: Run, n: nat, kind: Event -> bool) {
    && r.states <= t.states && r.events <= t.events && |t.events| == |r.events| + n
    && forall i :: |r.events| <= i < |t.events| ==> kind(t.events[i])
  }

  lemma ContinuedByNone(r: Run, kind: Event -> bool)
    ensures Continued(r, r, 0, kind)
  {
  }

  lemma ContinuedByOne(cfg: Config, r: Run, e: Event, kind: Event -> bool)
    requires r.states != [] && Enabled(cfg, Now(r), e) && kind(e)
    ensures Continued(r, Then(cfg, r, e), 1, kind)
  {
    hide Enabled, Apply;
  }

  lemma ContinuedOn(r: Run, s: Run, t: Run, m: nat, n: nat, kind: Event -> bool)
    requires Continued(r, s, m, kind) && Continued(s, t, n, kind)
    ensures Continued(r, t, m + n, kind)
  {
    forall i | |r.events| <= i < |t.events| ensures kind(t.events[i]) {
      if i < |s.events| { assert t.events[i] == s.events[i]; }
    }
  }

  // ---- Reachable stores ----

  /** What holds of every stored record by itself. */
  predicate Fine(j: Job) {
    && !j.status.Dispatched? && j.createdAt != 0
    && (j.status.Running? ==> j.heartbeatAt != 0 && j.claimedAt != 0)
    && (!j.status.Terminal() ==>
          j.stdout == "" && j.stderr == "" && !j.stdoutTruncated && !j.stderrTruncated)
  }

  predicate JobOk(s: State, id: string)
    requires id in s.jobs
  {
    s.jobs[id].id == id && id in s.issued && Fine(s.jobs[id])
  }

  /** A row announces, under its own id, the final record of a stored terminal job. */
  predicate RowOk(s: State, w: string)
    requires w in s.outbox
  {
    var r := s.outbox[w];
    && r.id == w && w in s.issued
    && r.jobId in s.jobs
    && var j := s.jobs[r.jobId];
    && j.status.Terminal()
    && r.userId == j.userId && r.event == EventName(j.status)
    && r.payload.eventId == w && r.payload.event == r.event && r.payload.job == j
  }

  ghost predicate JobsOk(s: State) { forall id <- s.jobs :: JobOk(s, id) }

  ghost predicate RowsOk(s: State) { forall w <- s.outbox :: RowOk(s, w) }

  ghost predicate OneRowPerJob(s: State) {
    forall v, w | v in s.outbox && w in s.outbox && s.outbox[v].jobId == s.outbox[w].jobId :: v == w
  }

  ghost predicate OneJobPerKey(s: State) {
    forall i, k | i in s.jobs && k in s.jobs && SameKey(s.jobs[k], s.jobs[i].userId, s.jobs[i].idempotencyKey) ::
      i == k || s.jobs[i].idempotencyKey == ""
  }

  ghost predicate Sound(s: State) { JobsOk(s) && RowsOk(s) && OneRowPerJob(s) && OneJobPerKey(s) }

  predicate SamePayload(a: Job, b: Job) {
    && a.id == b.id && a.userId == b.userId && a.driveId == b.driveId && a.bindingId == b.bindingId
    && a.mode == b.mode && a.command == b.command && a.regionHint == b.regionHint
    && a.connectorId == b.connectorId && a.agentId == b.agentId && a.priority == b.priority
    && a.labels == b.labels && a.idempotencyKey == b.idempotencyKey && a.timeoutSec == b.timeoutSec
    && a.maxAttempts == b.maxAttempts && a.createdAt == b.createdAt
  }

  /** An edit keeps what the job was created with, and its record in order. */
  lemma EditedFine(cfg: Config, j: Job, e: Event)
    requires Fine(j) && Targets(e) && Applies(cfg, j, e)
    ensures !j.status.Terminal() && Fine(Edited(cfg, j, e)) && SamePayload(j, Edited(cfg, j, e))
    ensures Edited(cfg, j, e).status.Terminal() ==> e.Sweep? || e.Complete? || e.Cancel?
  {
  }

  /** Replacing a live job's record, its identity kept, leaves the store sound. */
  lemma EditSound(s: State, j: Job)
    requires Sound(s) && j.id in s.jobs && !s.jobs[j.id].status.Terminal()
    requires Fine(j) && SamePayload(s.jobs[j.id], j)
    ensures Sound(s.(jobs := s.jobs[j.id := j]))
    ensures forall w <- s.outbox :: s.outbox[w].jobId != j.id
  {
    hide Fine;
    var t := s.(jobs := s.jobs[j.id := j]);
    assert forall w <- s.outbox :: RowOk(s, w);
    assert forall k <- s.jobs :: JobOk(s, k);
    assert RowsOk(t) && JobsOk(t);
    assert OneJobPerKey(t);
  }

  /** The first notification of a finished job leaves the store sound. */
  lemma EnqueueSound(s: State, id: string, row: string, now: Time)
    requires Sound(s) && id in s.jobs && s.jobs[id].status.Terminal() && Fresh(s, row)
    requires forall w <- s.outbox :: s.outbox[w].jobId != id
    ensures Sound(State(s.jobs, s.outbox[row := NotificationRow(row, s.jobs[id], now)], s.issued + {row}))
  {
    hide Fine;
    var t := State(s.jobs, s.outbox[row := NotificationRow(row, s.jobs[id], now)], s.issued + {row});
    assert JobOk(s, id);
    assert forall w <- s.outbox :: RowOk(s, w);
    assert forall k <- s.jobs :: JobOk(s, k);
    assert JobsOk(t) && RowsOk(t);
  }

  lemma PutSound(cfg: Config, s: State, j: Job, row: string, now: Time)
    requires Sound(s) && j.id in s.jobs && (j.status.Terminal() ==> Fresh(s, row))
    requires !s.jobs[j.id].status.Terminal()
    requires Fine(j) && SamePayload(s.jobs[j.id], j)
    ensures Sound(Put(cfg, s, j, row, now))
  {
    hide Fine, Sound, NotificationRow;
    EditSound(s, j);
    if j.status.Terminal() && cfg.notify {
      EnqueueSound(s.(jobs := s.jobs[j.id := j]), j.id, row, now);
    }
  }

  lemma OutboxEditSound(s: State, row: string, r: Row)
    requires Sound(s) && row in s.outbox
    requires r.id == row && r.jobId == s.outbox[row].jobId && r.userId == s.outbox[row].userId
    requires r.event == s.outbox[row].event && r.payload == s.outbox[row].payload
    ensures Sound(s.(outbox := s.outbox[row := r]))
  {
    hide Fine;
    var t := s.(outbox := s.outbox[row := r]);
    assert forall w <- s.outbox :: RowOk(s, w);
    assert forall k <- s.jobs :: JobOk(s, k);
    assert RowsOk(t) && JobsOk(t);
    assert OneRowPerJob(t);
  }

  lemma NewJobFine(id: string, user: string, input: CreateInput, labels: map<string, string>, at: Time)
    requires at != 0
    ensures var j := NewJob(id, user, input, labels, at);
            Fine(j) && j.id == id && SameKey(j, user, Trim(input.idempotencyKey)) && j.status.Pending?
  {
  }

  lemma CreateSound(cfg: Config, s: State, e: Event)
    requires Sound(s) && e.Create? && Enabled(cfg, s, e)
    ensures Sound(Apply(cfg, s, e))
  {
    hide Fine, NewJob, Encodes, LegalLabels;
    NewJobFine(e.id, e.user, e.input, e.labels, e.at);
    var t := Apply(cfg, s, e);
    assert forall w <- s.outbox :: RowOk(s, w);
    assert forall k <- s.jobs :: JobOk(s, k);
    assert RowsOk(t) && JobsOk(t);
    assert OneJobPerKey(t);
  }

  lemma PurgeSound(cfg: Config, s: State, e: Event)
    requires Sound(s) && (e.PurgeJobs? || e.PurgeRows?) && Enabled(cfg, s, e)
    ensures Sound(Apply(cfg, s, e))
  {
    hide Fine, Encodes, LegalLabels, Applies;
    var t := Apply(cfg, s, e);
    assert forall w <- s.outbox :: RowOk(s, w);
    assert forall k <- s.jobs :: JobOk(s, k);
    assert RowsOk(t) && JobsOk(t);
  }

  lemma StepSound(cfg: Config, s: State, e: Event)
    requires Sound(s) && Enabled(cfg, s, e)
    ensures Sound(Apply(cfg, s, e))
  {
    hide Edited, Attempted, Requeued;
    if Targets(e) {
      assert JobOk(s, e.id);
      EditedFine(cfg, s.jobs[e.id], e);
      PutSound(cfg, s, Edited(cfg, s.jobs[e.id], e), RowId(e), e.at);
    } else if e.Create? {
      CreateSound(cfg, s, e);
    } else if e.PurgeJobs? || e.PurgeRows? {
      PurgeSound(cfg, s, e);
    } else {
      assert RowOk(s, e.row);
      RowEdits(cfg, s.outbox[e.row], e);
      OutboxEditSound(s, e.row, Apply(cfg, s, e).outbox[e.row]);
    }
  }

  lemma RowEdits(cfg: Config, r: Row, e: Event)
    requires e.Deliver? || e.Requeue?
    ensures var k := if e.Deliver? then Attempted(cfg, r, e.ok, e.detail, e.at) else Requeued(r, e.at);
            k.id == r.id && k.jobId == r.jobId && k.userId == r.userId && k.event == r.event && k.payload == r.payload
  {
  }

  /** Every reachable store is sound. */
  lemma {:induction false} Reachable(cfg: Config, r: Run, n: nat)
    requires Legal(cfg, r) && n < |r.states|
    ensures Sound(r.states[n])
  {
    hide Apply, Enabled, Sound;
    if n == 0 {
      EmptySound();
    } else {
      Reachable(cfg, r, n - 1);
      assert Step(cfg, r, n - 1);
      StepSound(cfg, r.states[n - 1], r.events[n - 1]);
    }
  }

  lemma EmptySound()
    ensures Sound(EMPTY)
  {
  }

  /** Every identifier in use is a UUID. */
  lemma {:induction false} IssuedAreUuids(cfg: Config, r: Run, n: nat)
    requires Legal(cfg, r) && n < |r.states|
    ensures forall id <- r.states[n].issued :: IsUuid(id)
  {
    hide Apply, Enabled;
    if n > 0 {
      IssuedAreUuids(cfg, r, n - 1);
      assert Step(cfg, r, n - 1);
      IssuedStepUuid(cfg, r.states[n - 1], r.events[n - 1]);
    }
  }

  lemma IssuedStepUuid(cfg: Config, s: State, e: Event)
    requires Enabled(cfg, s, e)
    ensures forall id <- Apply(cfg, s, e).issued :: id in s.issued || IsUuid(id)
  {
  }
}
