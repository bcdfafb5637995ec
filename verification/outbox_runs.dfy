/** The delivery life of one outbox row over any run: bounded retries, backoff, and rest. */
module OutboxRuns {
  import opened Jobs
  import opened JobHistory
  import opened JobRuns

  predicate Delivers(e: Event, w: string) { e.Deliver? && e.row == w }
  predicate Requeues(e: Event, w: string) { e.Requeue? && e.row == w }

  /** Deliveries tried for row `w` since it was enqueued or last requeued. */
  function Tries(r: Run, n: nat, w: string): nat
    requires n <= |r.events|
  {
    if n == 0 || Requeues(r.events[n - 1], w) then 0
    else Tries(r, n - 1, w) + if Delivers(r.events[n - 1], w) then 1 else 0
  }

  /** Did every one of those tries fail? */
  predicate AllFailed(r: Run, n: nat, w: string)
    requires n <= |r.events|
  {
    n == 0 || Requeues(r.events[n - 1], w)
    || (AllFailed(r, n - 1, w) && (Delivers(r.events[n - 1], w) ==> !r.events[n - 1].ok))
  }

  function BackoffSum(cfg: Config, k: nat): int {
    if k == 0 then 0 else BackoffSum(cfg, k - 1) + Backoff(cfg, k)
  }

  /** The instant row `w` first fell due: its enqueue time, or one second before its last requeue. */
  function Started(r: Run, n: nat, w: string): Time
    requires n <= |r.events| && n < |r.states|
  {
    if n == 0 then 0
    else if Requeues(r.events[n - 1], w) then r.events[n - 1].at - SECOND
    else if w !in r.states[n - 1].outbox && w in r.states[n].outbox then r.states[n].outbox[w].createdAt
    else Started(r, n - 1, w)
  }

  predicate RowLife(cfg: Config, r: Row, tries: nat, failed: bool, started: Time) {
    && r.attempts == tries
    && match r.status
       case Waiting =>
         failed && tries < cfg.maxDeliveries && r.nextAttemptAt >= started + BackoffSum(cfg, tries)
       case Dead => failed && tries == cfg.maxDeliveries
       case Delivered => !failed && tries <= cfg.maxDeliveries
  }

  lemma DeliverLife(cfg: Config, r: Row, started: Time, e: Event)
    requires cfg.Valid() && e.Deliver? && r.status.Waiting? && r.nextAttemptAt <= e.at
    requires RowLife(cfg, r, r.attempts, true, started)
    ensures RowLife(cfg, Attempted(cfg, r, e.ok, e.detail, e.at), r.attempts + 1, !e.ok, started)
    ensures e.at >= started + BackoffSum(cfg, r.attempts)
  {
  }

  /** A step that is not about row `w` leaves it alone, drops it, or enqueues it. */
  lemma RowStep(cfg: Config, s: State, e: Event, w: string)
    requires Sound(s) && Enabled(cfg, s, e) && !Delivers(e, w) && !Requeues(e, w)
    ensures var t := Apply(cfg, s, e);
            w in t.outbox ==>
              if w in s.outbox then t.outbox[w] == s.outbox[w]
              else w !in s.issued && t.outbox[w].status.Waiting? && t.outbox[w].attempts == 0
                   && t.outbox[w].nextAttemptAt == t.outbox[w].createdAt
  {
    hide Edited, Attempted, Requeued;
    if w in s.outbox { assert RowOk(s, w); }
    if Targets(e) {
      assert JobOk(s, e.id);
      EditedFine(cfg, s.jobs[e.id], e);
    }
  }

  /** What one event of a run that is not about row `w` does to it. */
  lemma RowMove(cfg: Config, r: Run, n: nat, w: string)
    requires Legal(cfg, r) && n < |r.events| && !Delivers(r.events[n], w) && !Requeues(r.events[n], w)
    ensures var s, t := r.states[n], r.states[n + 1];
            && s.issued <= t.issued
            && (w in s.outbox ==> w in s.issued)
            && (w in t.outbox ==>
                  if w in s.outbox then t.outbox[w] == s.outbox[w]
                  else w !in s.issued && t.outbox[w].status.Waiting? && t.outbox[w].attempts == 0
                       && t.outbox[w].nextAttemptAt == t.outbox[w].createdAt)
  {
    hide Apply, Enabled;
    Reachable(cfg, r, n);
    assert w in r.states[n].outbox ==> RowOk(r.states[n], w);
    assert Step(cfg, r, n);
    RowStep(cfg, r.states[n], r.events[n], w);
    IssuedGrows(cfg, r.states[n], r.events[n]);
  }

  /** What a delivery of row `w` finds and leaves. */
  lemma DeliverMove(cfg: Config, r: Run, n: nat, w: string)
    requires Legal(cfg, r) && n < |r.events| && (Delivers(r.events[n], w) || Requeues(r.events[n], w))
    ensures w in r.states[n].outbox && w in r.states[n].issued && w in r.states[n + 1].outbox
    ensures var e, row := r.events[n], r.states[n].outbox[w];
            if e.Deliver? then row.status.Waiting? && row.nextAttemptAt <= e.at
                               && r.states[n + 1].outbox[w] == Attempted(cfg, row, e.ok, e.detail, e.at)
            else r.states[n + 1].outbox[w] == Requeued(row, e.at)
    ensures r.states[n].issued <= r.states[n + 1].issued
  {
    hide Attempted, Requeued;
    Reachable(cfg, r, n);
    assert Step(cfg, r, n);
    assert RowOk(r.states[n], w);
    IssuedGrows(cfg, r.states[n], r.events[n]);
  }

  /** A row nobody minted yet has no past. */
  lemma {:induction false} NoTriesBeforeIssue(cfg: Config, r: Run, n: nat, w: string)
    requires Legal(cfg, r) && n < |r.states| && w !in r.states[n].issued
    ensures Tries(r, n, w) == 0 && AllFailed(r, n, w)
  {
    hide Apply, Enabled, Attempted, Requeued;
    if n > 0 {
      var e := r.events[n - 1];
      if Delivers(e, w) || Requeues(e, w) { DeliverMove(cfg, r, n - 1, w); }
      else {
        RowMove(cfg, r, n - 1, w);
        NoTriesBeforeIssue(cfg, r, n - 1, w);
      }
    }
  }

  /** In every run: a waiting row has failed fewer than the allowed tries, a dead row exactly
      that many, a delivered row ended on a success. */
  lemma {:induction false} RowLifecycle(cfg: Config, r: Run, n: nat, w: string)
    requires cfg.Valid() && Legal(cfg, r) && n < |r.states| && w in r.states[n].outbox
    ensures RowLife(cfg, r.states[n].outbox[w], Tries(r, n, w), AllFailed(r, n, w), Started(r, n, w))
  {
    hide Apply, Enabled, Attempted;
    var s, e := r.states[n - 1], r.events[n - 1];
    if Delivers(e, w) {
      DeliverMove(cfg, r, n - 1, w);
      RowLifecycle(cfg, r, n - 1, w);
      DeliverLife(cfg, s.outbox[w], Started(r, n - 1, w), e);
    } else if Requeues(e, w) {
      DeliverMove(cfg, r, n - 1, w);
    } else {
      RowMove(cfg, r, n - 1, w);
      if w in s.outbox { RowLifecycle(cfg, r, n - 1, w); }
      else { NoTriesBeforeIssue(cfg, r, n - 1, w); }
    }
  }

  /** The k-th try since the last requeue comes no earlier than the first k-1 backoffs add up
      to, and kills the row exactly when it is the last one allowed and fails too. */
  lemma BackoffRespected(cfg: Config, r: Run, n: nat, w: string)
    requires cfg.Valid() && Legal(cfg, r) && n < |r.events| && Delivers(r.events[n], w)
    ensures r.events[n].at >= Started(r, n, w) + BackoffSum(cfg, Tries(r, n + 1, w) - 1)
    ensures Tries(r, n + 1, w) <= cfg.maxDeliveries && AllFailed(r, n, w)
    ensures w in r.states[n + 1].outbox
    ensures r.states[n + 1].outbox[w].status.Dead?
            <==> !r.events[n].ok && Tries(r, n + 1, w) == cfg.maxDeliveries
  {
    DeliverMove(cfg, r, n, w);
    RowLifecycle(cfg, r, n, w);
    RowLifecycle(cfg, r, n + 1, w);
    DeliverLife(cfg, r.states[n].outbox[w], Started(r, n, w), r.events[n]);
  }

  /** Delivered and dead rows rest: without a requeue they stay as they are until purged. */
  lemma {:induction false} SettledRowsRest(cfg: Config, r: Run, m: nat, n: nat, w: string)
    requires Legal(cfg, r) && m <= n < |r.states| && w in r.states[m].outbox
    requires !r.states[m].outbox[w].status.Waiting?
    requires forall i :: m <= i < n ==> !Requeues(r.events[i], w)
    ensures w in r.states[n].outbox ==> r.states[n].outbox[w] == r.states[m].outbox[w]
    ensures w in r.states[n].issued
  {
    hide Apply, Enabled, Attempted, Requeued;
    if m == n {
      Reachable(cfg, r, n);
      assert RowOk(r.states[n], w);
    } else {
      SettledRowsRest(cfg, r, m, n - 1, w);
      if Delivers(r.events[n - 1], w) { DeliverMove(cfg, r, n - 1, w); }
      else { RowMove(cfg, r, n - 1, w); }
    }
  }
}
