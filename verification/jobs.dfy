/** Job and outbox records, and every edit the job service makes to one of them.
    Times are nanosecond counts; 0 is Go's zero `time.Time`. */
module Jobs {
  import opened Text

  type Time = int

  const SECOND: int := 1_000_000_000
  const NOTE_MAX := 2000

  datatype Status = Pending | Dispatched | Running | Succeeded | Failed | Cancelled {
    predicate Terminal() { Succeeded? || Failed? || Cancelled? }
    predicate Claimable() { Pending? || Dispatched? }

    function Name(): string {
      match this
      case Pending => "pending"
      case Dispatched => "dispatched"
      case Running => "running"
      case Succeeded => "succeeded"
      case Failed => "failed"
      case Cancelled => "cancelled"
    }
  }

  /** Service settings, read from the environment and constant here. `notify` says that the
      webhook URL is set; the lease is in nanoseconds and 0 disables it. */
  datatype Config = Config(lease: int, defaultTimeoutSec: nat, notify: bool,
                           maxDeliveries: nat, outputMax: nat, fastBackoff: bool) {
    predicate Valid() { maxDeliveries >= 1 && outputMax >= 1 }
  }

  datatype Job = Job(
    id: string, userId: string, driveId: string, bindingId: string, mode: string,
    command: seq<string>, status: Status, regionHint: string, note: string,
    connectorId: string, agentId: string, claimedByAgent: string, claimedByRunner: string,
    priority: int, labels: map<string, string>, idempotencyKey: string,
    exitCode: Option<int>, durationMs: int, heartbeatAt: Time, claimedAt: Time,
    timeoutSec: nat, attemptCount: nat, maxAttempts: nat,
    stdout: string, stderr: string, stdoutTruncated: bool, stderrTruncated: bool,
    createdAt: Time, updatedAt: Time)

  datatype CreateInput = CreateInput(
    driveId: string, bindingId: string, mode: string, command: seq<string>,
    regionHint: string, note: string, connectorId: string, timeoutSec: int,
    maxAttempts: int, priority: int, labels: map<string, string>,
    idempotencyKey: string, agentId: string)

  datatype CompleteInput = CompleteInput(
    ok: bool, note: string, exitCode: Option<int>, durationMs: int,
    stdout: string, stderr: string, stdoutTruncated: bool, stderrTruncated: bool)

  // ---- Labels ----

  predicate BadLabel(k: string, v: string) {
    Trim(k) == "" || |Trim(k)| > 64 || |Trim(v)| > 256
  }

  /** Labels as stored: at most 16, trimmed, with short non-blank keys and short values. */
  predicate LegalLabels(m: map<string, string>) {
    |m| <= 16 && forall k <- m :: Trim(k) == k && Trim(m[k]) == m[k] && !BadLabel(k, m[k])
  }

  /** `clean` holds every label of `raw`, keys and values trimmed; when two keys trim to the
      same one, either value may have been written last. */
  predicate Encodes(raw: map<string, string>, clean: map<string, string>) {
    && (forall k <- raw :: Trim(k) in clean)
    && (forall c <- clean :: exists k <- raw :: Trim(k) == c && Trim(raw[k]) == clean[c])
  }

  // ---- The note trail ----

  function LastBytes(s: string, n: nat): string {
    if |s| <= n then s else s[|s| - n..]
  }

  function JoinNote(existing: string, segment: string): string {
    var trail := Trim(existing);
    LastBytes((if trail != "" then trail + " | " else "") + segment, NOTE_MAX)
  }

  function AppendNote(existing: string, extra: string): string {
    var segment := Trim(extra);
    if segment == "" then existing else JoinNote(existing, segment)
  }

  function ReleaseNote(existing: string, reason: string): string {
    var r := Trim(reason);
    if r == "" then existing else JoinNote(existing, "released: " + r)
  }

  function CreationNote(note: string): string {
    var n := Trim(note);
    (if n != "" then n + " | " else "")
    + "BYOC only: claim with your runner; no platform large pool (D-001)"
  }

  // ---- Edits ----

  function AtLeastZero(n: int): nat { if n < 0 then 0 else n }

  function Clamp(p: int): int { if p > 1000 then 1000 else if p < -1000 then -1000 else p }

  function NewJob(id: string, user: string, input: CreateInput, labels: map<string, string>, now: Time): Job {
    Job(id, user, input.driveId, input.bindingId, if input.mode == "" then "mount" else input.mode,
        input.command, Pending, input.regionHint, CreationNote(input.note),
        Trim(input.connectorId), Trim(input.agentId), "", "",
        Clamp(input.priority), labels, Trim(input.idempotencyKey),
        None, 0, 0, 0,
        AtLeastZero(input.timeoutSec), 0, AtLeastZero(input.maxAttempts),
        "", "", false, false, now, now)
  }

  function ClaimedBy(j: Job, agent: string, runner: string, now: Time): Job {
    j.(status := Running, claimedByAgent := agent, claimedByRunner := runner,
       heartbeatAt := now, claimedAt := now, attemptCount := j.attemptCount + 1, updatedAt := now)
  }

  function Beaten(j: Job, now: Time): Job {
    j.(heartbeatAt := now, updatedAt := now)
  }

  function FailedBy(j: Job, code: int, reason: string, now: Time): Job {
    j.(status := Failed, exitCode := Some(code), note := AppendNote(j.note, reason),
       heartbeatAt := 0, claimedAt := 0, claimedByRunner := "", updatedAt := now)
  }

  function Released(j: Job, reason: string, now: Time): Job {
    j.(status := Pending, claimedByAgent := "", claimedByRunner := "",
       heartbeatAt := 0, claimedAt := 0, updatedAt := now, note := ReleaseNote(j.note, reason))
  }

  function CapTail(s: string, max: int): (string, bool) {
    if max <= 0 || |s| <= max then (s, false) else (s[|s| - max..], true)
  }

  function Completed(cfg: Config, j: Job, input: CompleteInput, now: Time): Job {
    var out := CapTail(input.stdout, cfg.outputMax);
    var err := CapTail(input.stderr, cfg.outputMax);
    var hasOut := input.stdout != "" || input.stdoutTruncated;
    var hasErr := input.stderr != "" || input.stderrTruncated;
    j.(status := if input.ok then Succeeded else Failed,
       note := AppendNote(j.note, input.note),
       exitCode := if input.exitCode.Some? then input.exitCode else j.exitCode,
       durationMs := if input.durationMs > 0 then input.durationMs else j.durationMs,
       stdout := if hasOut then out.0 else j.stdout,
       stdoutTruncated := if hasOut then input.stdoutTruncated || out.1 else j.stdoutTruncated,
       stderr := if hasErr then err.0 else j.stderr,
       stderrTruncated := if hasErr then input.stderrTruncated || err.1 else j.stderrTruncated,
       heartbeatAt := 0, claimedAt := 0, updatedAt := now)
  }

  function CancelledAs(j: Job, adminNote: string, now: Time): Job {
    j.(status := Cancelled,
       note := if adminNote != "" then AppendNote(j.note, "admin cancel: " + adminNote) else j.note,
       heartbeatAt := 0, claimedAt := 0, updatedAt := now)
  }

  // ---- Stale running jobs ----

  datatype Verdict = Keep | TimeOut(sec: nat) | Exhaust | LeaseOut

  function FirstSet(a: Time, b: Time): Time { if a != 0 then a else b }

  function EffectiveTimeout(cfg: Config, j: Job): nat {
    if j.timeoutSec > 0 then j.timeoutSec else cfg.defaultTimeoutSec
  }

  predicate PastDeadline(cfg: Config, j: Job, now: Time) {
    var start := FirstSet(j.claimedAt, FirstSet(j.heartbeatAt, j.updatedAt));
    EffectiveTimeout(cfg, j) > 0 && start != 0 && now > start + EffectiveTimeout(cfg, j) * SECOND
  }

  /** The last sign of life: the per-user loop falls back from the heartbeat straight to the
      update time, the global loop tries the claim time in between. */
  function LastSign(j: Job, global: bool): Time {
    if global then FirstSet(j.heartbeatAt, FirstSet(j.claimedAt, j.updatedAt))
    else FirstSet(j.heartbeatAt, j.updatedAt)
  }

  predicate LeaseExpired(cfg: Config, j: Job, global: bool, now: Time) {
    cfg.lease > 0 && LastSign(j, global) != 0 && LastSign(j, global) < now - cfg.lease
  }

  function Judge(cfg: Config, j: Job, global: bool, now: Time): Verdict {
    if !j.status.Running? then Keep
    else if PastDeadline(cfg, j, now) then TimeOut(EffectiveTimeout(cfg, j))
    else if !LeaseExpired(cfg, j, global, now) then Keep
    else if j.maxAttempts > 0 && j.attemptCount >= j.maxAttempts then Exhaust
    else LeaseOut
  }

  function Sentence(j: Job, v: Verdict, now: Time): Job {
    match v
    case Keep => j
    case TimeOut(sec) => FailedBy(j, 124, "timeout after " + Decimal(sec) + "s", now)
    case Exhaust =>
      FailedBy(j, 1, "max attempts exceeded (" + Decimal(j.attemptCount) + "/" + Decimal(j.maxAttempts)
                     + ") after lease expired", now)
    case LeaseOut => Released(j, "lease expired", now)
  }

  /** What one sweep makes of one job. */
  function Swept(cfg: Config, j: Job, global: bool, now: Time): Job {
    Sentence(j, Judge(cfg, j, global, now), now)
  }

  // ---- Webhook outbox rows ----

  datatype RowStatus = Waiting | Delivered | Dead

  datatype Envelope = Envelope(eventId: string, event: string, occurredAt: Time, job: Job)

  datatype Row = Row(
    id: string, jobId: string, userId: string, event: string, payload: Envelope,
    status: RowStatus, attempts: nat, nextAttemptAt: Time, lastError: string,
    createdAt: Time, updatedAt: Time, deliveredAt: Time)

  function EventName(s: Status): string { "job." + s.Name() }

  function NotificationRow(rowId: string, j: Job, now: Time): Row {
    var event := EventName(j.status);
    Row(rowId, j.id, j.userId, event, Envelope(rowId, event, now, j), Waiting, 0, now, "", now, now, 0)
  }

  const BACKOFF_SECONDS: seq<int> := [5, 15, 60, 300, 900, 3600, 7200, 14400]

  function Backoff(cfg: Config, attempt: int): (d: int)
    ensures d > 0
  {
    if cfg.fastBackoff then 1_000_000
    else
      var a := if attempt < 1 then 1 else attempt;
      BACKOFF_SECONDS[if a <= 8 then a - 1 else 7] * SECOND
  }

  function Attempted(cfg: Config, r: Row, ok: bool, detail: string, now: Time): Row {
    var n := r.attempts + 1;
    if ok then
      r.(attempts := n, updatedAt := now, status := Delivered, deliveredAt := now, lastError := "")
    else
      var failed := r.(attempts := n, updatedAt := now,
                       lastError := if |detail| > 500 then detail[..500] else detail);
      if n >= cfg.maxDeliveries then failed.(status := Dead)
      else failed.(nextAttemptAt := now + Backoff(cfg, n))
  }

  function Requeued(r: Row, now: Time): Row {
    r.(status := Waiting, attempts := 0, nextAttemptAt := now - SECOND, lastError := "",
       deliveredAt := 0, updatedAt := now)
  }
}
