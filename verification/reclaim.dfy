/** Sweeping stale running jobs: one user at a time, or all users at once. */
module Reclaim {
  import opened Text
  import opened Jobs
  import opened JobHistory
  import opened Sets

  /** Jobs among `ids` that a sweep fails, hence announces. */
  function Failing(cfg: Config, s: State, ids: set<string>, global: bool, now: Time): set<string> {
    set id | id in s.jobs && id in ids
             && (Judge(cfg, s.jobs[id], global, now).TimeOut? || Judge(cfg, s.jobs[id], global, now).Exhaust?)
  }

  /** Jobs among `ids` that a sweep changes. */
  function Stale(cfg: Config, s: State, ids: set<string>, global: bool, now: Time): set<string> {
    set id | id in s.jobs && id in ids && Judge(cfg, s.jobs[id], global, now) != Keep
  }

  function Announced(cfg: Config, s: State, ids: set<string>, global: bool, now: Time): set<string> {
    if cfg.notify then Failing(cfg, s, ids, global, now) else {}
  }

  function Minted(mint: map<string, string>, ids: set<string>): set<string> {
    set id | id in ids && id in mint :: mint[id]
  }

  /** The supply of event ids: a distinct one for each job. */
  predicate Injective(mint: map<string, string>) {
    forall a, b | a in mint && b in mint && mint[a] == mint[b] :: a == b
  }

  predicate Supplies(mint: map<string, string>, s: State, ids: set<string>) {
    Injective(mint) && forall id <- ids :: id in mint && Fresh(s, mint[id])
  }

  ghost predicate JobsSwept(cfg: Config, s: State, t: State, ids: set<string>, global: bool, now: Time) {
    && t.jobs.Keys == s.jobs.Keys
    && forall id <- s.jobs ::
         t.jobs[id] == if id in ids then Swept(cfg, s.jobs[id], global, now) else s.jobs[id]
  }

  /** The outbox of `t` is that of `s` plus one notification for each announced job. */
  ghost predicate RowsAdded(s: State, t: State, announced: set<string>, now: Time, mint: map<string, string>) {
    && announced <= mint.Keys && announced <= t.jobs.Keys
    && t.outbox.Keys == s.outbox.Keys + Minted(mint, announced)
    && (forall w <- s.outbox :: t.outbox[w] == s.outbox[w])
    && (forall id <- announced :: mint[id] in t.outbox &&
          t.outbox[mint[id]] == NotificationRow(mint[id], t.jobs[id], now))
    && t.issued == s.issued + Minted(mint, announced)
  }

  /** Store `t` is store `s` with exactly the jobs in `ids` swept at instant `now`. */
  ghost predicate SweptTo(cfg: Config, s: State, t: State, ids: set<string>, global: bool,
                          now: Time, mint: map<string, string>) {
    JobsSwept(cfg, s, t, ids, global, now)
    && RowsAdded(s, t, Announced(cfg, s, ids, global, now), now, mint)
  }

  lemma MintedUnion(mint: map<string, string>, a: set<string>, b: set<string>)
    ensures Minted(mint, a + b) == Minted(mint, a) + Minted(mint, b)
  {
  }

  lemma RowsAddedTwice(s: State, t: State, u: State, a: set<string>, b: set<string>, now: Time, mint: map<string, string>)
    requires RowsAdded(s, t, a, now, mint) && RowsAdded(t, u, b, now, mint)
    requires t.jobs.Keys <= u.jobs.Keys
    requires forall id <- a :: u.jobs[id] == t.jobs[id]
    ensures RowsAdded(s, u, a + b, now, mint)
  {
    hide NotificationRow, Minted;
    MintedUnion(mint, a, b);
    forall w | w in s.outbox ensures u.outbox[w] == s.outbox[w] {
      assert t.outbox[w] == s.outbox[w];
    }
    forall id | id in a + b ensures mint[id] in u.outbox && u.outbox[mint[id]] == NotificationRow(mint[id], u.jobs[id], now) {
      if id in a { assert u.outbox[mint[id]] == t.outbox[mint[id]]; }
    }
  }

  lemma PutAddsRow(cfg: Config, s: State, j: Job, now: Time, mint: map<string, string>)
    requires Sound(s) && j.status.Terminal() && Supplies(mint, s, {j.id})
    ensures RowsAdded(s, Put(cfg, s, j, mint[j.id], now), if cfg.notify then {j.id} else {}, now, mint)
  {
    hide NotificationRow, JobOk;
    assert Minted(mint, {j.id}) == {mint[j.id]} && Minted(mint, {}) == {};
    assert forall w <- s.outbox :: RowOk(s, w);
  }

  lemma PutAddsNothing(cfg: Config, s: State, j: Job, row: string, now: Time, mint: map<string, string>)
    requires !j.status.Terminal()
    ensures RowsAdded(s, Put(cfg, s, j, row, now), {}, now, mint)
  {
    assert Minted(mint, {}) == {};
  }

  lemma RowsDetermined(s: State, t: State, u: State, announced: set<string>, now: Time, mint: map<string, string>)
    requires RowsAdded(s, t, announced, now, mint) && RowsAdded(s, u, announced, now, mint)
    requires t.jobs == u.jobs
    ensures t == u
  {
    assert t.outbox == u.outbox;
  }

  lemma SweptIsSettled(cfg: Config, j: Job, global: bool, now: Time)
    ensures Judge(cfg, Swept(cfg, j, global, now), global, now) == Keep
    ensures Judge(cfg, j, global, now) == Keep ==> Swept(cfg, j, global, now) == j
    ensures Swept(cfg, j, global, now).userId == j.userId
  {
  }

  lemma SweepEdits(cfg: Config, j: Job, id: string, global: bool, row: string, now: Time)
    ensures Edited(cfg, j, Sweep(id, global, row, now)) == Swept(cfg, j, global, now)
  {
  }

  lemma SentenceKind(cfg: Config, j: Job, global: bool, now: Time)
    requires Judge(cfg, j, global, now) != Keep
    ensures Swept(cfg, j, global, now).status.Terminal() <==> Judge(cfg, j, global, now) != LeaseOut
    ensures Swept(cfg, j, global, now).id == j.id && j.status.Running?
  {
  }

  lemma SweepOneJob(cfg: Config, s: State, id: string, global: bool, now: Time, row: string)
    requires Sound(s) && id in s.jobs && Fresh(s, row) && Judge(cfg, s.jobs[id], global, now) != Keep
    ensures JobsSwept(cfg, s, Apply(cfg, s, Sweep(id, global, row, now)), {id}, global, now)
  {
    assert JobOk(s, id);
    hide Edited, Sentence, Judge, Fine, RowsOk, OneRowPerJob, OneJobPerKey, Swept;
    EditedFine(cfg, s.jobs[id], Sweep(id, global, row, now));
    SweepEdits(cfg, s.jobs[id], id, global, row, now);
    PutJobs(cfg, s, Swept(cfg, s.jobs[id], global, now), row, now);
    hide Put;
  }

  lemma PutJobs(cfg: Config, s: State, j: Job, row: string, now: Time)
    ensures Put(cfg, s, j, row, now).jobs == s.jobs[j.id := j]
  {
    hide NotificationRow;
  }

  lemma SweepOne(cfg: Config, s: State, id: string, global: bool, now: Time, mint: map<string, string>)
    requires Sound(s) && id in s.jobs && Supplies(mint, s, {id}) && Judge(cfg, s.jobs[id], global, now) != Keep
    ensures var e := Sweep(id, global, mint[id], now);
            Enabled(cfg, s, e) && SweptTo(cfg, s, Apply(cfg, s, e), {id}, global, now, mint)
  {
    hide RowsAdded, JobsSwept, Sentence, PastDeadline, LeaseExpired;
    SweepEdits(cfg, s.jobs[id], id, global, mint[id], now);
    SentenceKind(cfg, s.jobs[id], global, now);
    assert JobOk(s, id);
    SweepOneJob(cfg, s, id, global, now, mint[id]);
    var swept := Swept(cfg, s.jobs[id], global, now);
    var announced := Announced(cfg, s, {id}, global, now);
    if swept.status.Terminal() {
      assert announced == if cfg.notify then {id} else {};
      PutAddsRow(cfg, s, swept, now, mint);
    } else {
      assert announced == {};
      PutAddsNothing(cfg, s, swept, mint[id], now, mint);
    }
  }

  lemma SweepNothing(cfg: Config, s: State, ids: set<string>, global: bool, now: Time, mint: map<string, string>)
    requires Stale(cfg, s, ids, global, now) == {}
    ensures SweptTo(cfg, s, s, ids, global, now, mint)
  {
    forall id | id in s.jobs && id in ids ensures Judge(cfg, s.jobs[id], global, now) == Keep {
      assert id !in Stale(cfg, s, ids, global, now);
    }
    assert Announced(cfg, s, ids, global, now) == {};
  }

  lemma TwiceJobs(cfg: Config, s: State, t: State, u: State, a: set<string>, b: set<string>,
                  global: bool, now: Time, mint: map<string, string>)
    requires SweptTo(cfg, s, t, a, global, now, mint) && SweptTo(cfg, t, u, b, global, now, mint)
    ensures forall id <- s.jobs ::
              Judge(cfg, t.jobs[id], global, now) == if id in a then Keep else Judge(cfg, s.jobs[id], global, now)
    ensures forall id <- s.jobs ::
              u.jobs[id] == if id in a + b then Swept(cfg, s.jobs[id], global, now) else s.jobs[id]
    ensures forall id <- s.jobs :: id in a ==> u.jobs[id] == t.jobs[id]
  {
    forall id | id in s.jobs ensures
      && Judge(cfg, t.jobs[id], global, now) == (if id in a then Keep else Judge(cfg, s.jobs[id], global, now))
      && u.jobs[id] == (if id in a + b then Swept(cfg, s.jobs[id], global, now) else s.jobs[id])
      && (id in a ==> u.jobs[id] == t.jobs[id])
    {
      SweptIsSettled(cfg, s.jobs[id], global, now);
      SweptIsSettled(cfg, t.jobs[id], global, now);
    }
  }

  lemma TwiceSets(cfg: Config, s: State, t: State, a: set<string>, b: set<string>, global: bool, now: Time)
    requires t.jobs.Keys == s.jobs.Keys
    requires forall id <- s.jobs ::
               Judge(cfg, t.jobs[id], global, now) == if id in a then Keep else Judge(cfg, s.jobs[id], global, now)
    ensures Stale(cfg, s, a + b, global, now) == Stale(cfg, s, a, global, now) + Stale(cfg, t, b, global, now)
    ensures Stale(cfg, s, a, global, now) !! Stale(cfg, t, b, global, now)
    ensures Announced(cfg, s, a + b, global, now)
            == Announced(cfg, s, a, global, now) + Announced(cfg, t, b, global, now)
    ensures Announced(cfg, s, a, global, now) <= a
  {
  }

  /** Two sweeps at one instant are the sweep of both sets, overlapping or not. */
  lemma SweepTwice(cfg: Config, s: State, t: State, u: State, a: set<string>, b: set<string>,
                   global: bool, now: Time, mint: map<string, string>)
    requires SweptTo(cfg, s, t, a, global, now, mint) && SweptTo(cfg, t, u, b, global, now, mint)
    ensures SweptTo(cfg, s, u, a + b, global, now, mint)
    ensures Stale(cfg, s, a + b, global, now) == Stale(cfg, s, a, global, now) + Stale(cfg, t, b, global, now)
    ensures Stale(cfg, s, a, global, now) !! Stale(cfg, t, b, global, now)
  {
    TwiceJobs(cfg, s, t, u, a, b, global, now, mint);
    TwiceSets(cfg, s, t, a, b, global, now);
    RowsAddedTwice(s, t, u, Announced(cfg, s, a, global, now), Announced(cfg, t, b, global, now), now, mint);
  }

  /** The verdict a sweep of `ids` passes on job `id`. */
  function VerdictOn(cfg: Config, s: State, id: string, ids: set<string>, global: bool, now: Time): Verdict
    requires id in s.jobs
  {
    if id in ids then Judge(cfg, s.jobs[id], global, now) else Keep
  }

  lemma SweptByVerdict(cfg: Config, s: State, t: State, ids: set<string>, global: bool, now: Time)
    requires JobsSwept(cfg, s, t, ids, global, now)
    ensures forall id <- s.jobs :: t.jobs[id] == Sentence(s.jobs[id], VerdictOn(cfg, s, id, ids, global, now), now)
    ensures Failing(cfg, s, ids, global, now)
            == set id | id in s.jobs && (VerdictOn(cfg, s, id, ids, global, now).TimeOut?
                                         || VerdictOn(cfg, s, id, ids, global, now).Exhaust?)
  {
  }

  /** Sweeps that pass the same verdicts end in the same store. */
  lemma SweepDeterministic(cfg: Config, s: State, t: State, u: State, a: set<string>, b: set<string>,
                           g: bool, now: Time, mint: map<string, string>)
    requires SweptTo(cfg, s, t, a, false, now, mint) && SweptTo(cfg, s, u, b, g, now, mint)
    requires forall id <- s.jobs :: VerdictOn(cfg, s, id, a, false, now) == VerdictOn(cfg, s, id, b, g, now)
    ensures t == u
  {
    SweptByVerdict(cfg, s, t, a, false, now);
    SweptByVerdict(cfg, s, u, b, g, now);
    assert t.jobs == u.jobs;
    assert Failing(cfg, s, a, false, now) == Failing(cfg, s, b, g, now);
    RowsDetermined(s, t, u, Announced(cfg, s, a, false, now), now, mint);
  }

  // ---- Per-user sweeps against the global one ----

  /** Users whose jobs the per-user loop can reach: it lists by the trimmed id but then looks
      each job up by the id as given. */
  predicate Trimmed(user: string) { Trim(user) == "" || Trim(user) == user }

  function Owned(s: State, user: string): set<string> {
    set id | id in s.jobs && s.jobs[id].userId == user && Trimmed(user)
  }

  function OwnedByAny(s: State, users: seq<string>): set<string> {
    set id | id in s.jobs && s.jobs[id].userId in users && Trimmed(s.jobs[id].userId)
  }

  /** `states` is a run of per-user sweeps, in the order of `users`, all at instant `now`, that
      return `counts`. */
  ghost predicate UserSweeps(cfg: Config, states: seq<State>, counts: seq<nat>, users: seq<string>,
                             now: Time, mint: map<string, string>) {
    && |states| == |users| + 1 && |counts| == |users|
    && forall i :: 0 <= i < |users| ==>
         && SweptTo(cfg, states[i], states[i + 1], Owned(states[i], users[i]), false, now, mint)
         && counts[i] == |Stale(cfg, states[i], Owned(states[i], users[i]), false, now)|
  }

  function Total(counts: seq<nat>): nat {
    if counts == [] then 0 else Total(counts[..|counts| - 1]) + counts[|counts| - 1]
  }

  /** One more user joins those already swept. */
  lemma OneMoreUser(cfg: Config, s: State, t: State, u: State, users: seq<string>, user: string,
                    now: Time, mint: map<string, string>)
    requires SweptTo(cfg, s, t, OwnedByAny(s, users), false, now, mint)
    requires SweptTo(cfg, t, u, Owned(t, user), false, now, mint)
    ensures SweptTo(cfg, s, u, OwnedByAny(s, users + [user]), false, now, mint)
    ensures |Stale(cfg, s, OwnedByAny(s, users + [user]), false, now)|
            == |Stale(cfg, s, OwnedByAny(s, users), false, now)| + |Stale(cfg, t, Owned(t, user), false, now)|
  {
    hide RowsAdded, Judge, Swept, Trim;
    forall id | id in s.jobs ensures t.jobs[id].userId == s.jobs[id].userId {
      SweptIsSettled(cfg, s.jobs[id], false, now);
    }
    assert OwnedByAny(s, users + [user]) == OwnedByAny(s, users) + Owned(t, user);
    SweepTwice(cfg, s, t, u, OwnedByAny(s, users), Owned(t, user), false, now, mint);
  }

  lemma NoUsers(cfg: Config, s: State, now: Time, mint: map<string, string>)
    ensures SweptTo(cfg, s, s, OwnedByAny(s, []), false, now, mint)
    ensures |Stale(cfg, s, OwnedByAny(s, []), false, now)| == 0
  {
    assert OwnedByAny(s, []) == {};
    assert Stale(cfg, s, {}, false, now) == {};
    SweepNothing(cfg, s, {}, false, now, mint);
  }

  lemma {:induction false} UserSweepsCompose(cfg: Config, states: seq<State>, counts: seq<nat>, users: seq<string>,
                                             now: Time, mint: map<string, string>)
    requires UserSweeps(cfg, states, counts, users, now, mint)
    ensures SweptTo(cfg, states[0], states[|users|], OwnedByAny(states[0], users), false, now, mint)
    ensures Total(counts) == |Stale(cfg, states[0], OwnedByAny(states[0], users), false, now)|
  {
    hide SweptTo, Owned, OwnedByAny, Stale;
    var n := |users|;
    if n == 0 {
      NoUsers(cfg, states[0], now, mint);
      assert users == [];
    } else {
      UserSweepsCompose(cfg, states[..n], counts[..n - 1], users[..n - 1], now, mint);
      assert users == users[..n - 1] + [users[n - 1]];
      assert SweptTo(cfg, states[n - 1], states[n], Owned(states[n - 1], users[n - 1]), false, now, mint);
      OneMoreUser(cfg, states[0], states[n - 1], states[n], users[..n - 1], users[n - 1], now, mint);
    }
  }

  /** On a reachable store both loops judge every job alike. */
  lemma JudgesAgree(cfg: Config, s: State, id: string, now: Time)
    requires Sound(s) && id in s.jobs
    ensures Judge(cfg, s.jobs[id], true, now) == Judge(cfg, s.jobs[id], false, now)
  {
    assert JobOk(s, id);
  }

  /** Without a heartbeat the two fall-backs part exactly when one of the claim time and the
      update time is before the lease and the other is not. No run reaches such a job. */
  lemma JudgesDifferWithoutHeartbeat(cfg: Config, j: Job, now: Time)
    requires j.status.Running? && j.heartbeatAt == 0 && !PastDeadline(cfg, j, now) && cfg.lease > 0
    ensures Judge(cfg, j, true, now) != Judge(cfg, j, false, now)
            <==> j.claimedAt != 0
                 && (j.claimedAt < now - cfg.lease) != (j.updatedAt != 0 && j.updatedAt < now - cfg.lease)
  {
  }

  lemma ReachVerdicts(cfg: Config, s: State, reach: set<string>, now: Time)
    requires Sound(s)
    ensures Stale(cfg, s, reach, false, now) == Stale(cfg, s, s.jobs.Keys, true, now) * reach
    ensures Stale(cfg, s, s.jobs.Keys, true, now) <= reach ==>
              forall id <- s.jobs :: VerdictOn(cfg, s, id, reach, false, now) == VerdictOn(cfg, s, id, s.jobs.Keys, true, now)
  {
    hide Sound, Judge;
    forall id | id in s.jobs ensures Judge(cfg, s.jobs[id], true, now) == Judge(cfg, s.jobs[id], false, now) {
      JudgesAgree(cfg, s, id, now);
    }
    forall id | id in s.jobs && id !in reach && Stale(cfg, s, s.jobs.Keys, true, now) <= reach
      ensures Judge(cfg, s.jobs[id], true, now) == Keep
    {
      assert id !in Stale(cfg, s, s.jobs.Keys, true, now);
    }
  }

  /** A sweep with the same verdicts as another is that other sweep. */
  lemma SameVerdicts(cfg: Config, s: State, t: State, a: set<string>, b: set<string>, g: bool,
                     now: Time, mint: map<string, string>)
    requires SweptTo(cfg, s, t, a, false, now, mint)
    requires forall id <- s.jobs :: VerdictOn(cfg, s, id, a, false, now) == VerdictOn(cfg, s, id, b, g, now)
    ensures SweptTo(cfg, s, t, b, g, now, mint)
  {
    hide RowsAdded, Judge, Sentence;
    SweptByVerdict(cfg, s, t, a, false, now);
    forall id | id in s.jobs
      ensures t.jobs[id] == if id in b then Swept(cfg, s.jobs[id], g, now) else s.jobs[id]
    {
      KeepSentence(s.jobs[id], now);
    }
    assert Failing(cfg, s, a, false, now) == Failing(cfg, s, b, g, now);
  }

  lemma KeepSentence(j: Job, now: Time)
    ensures Sentence(j, Keep, now) == j
  {
  }

  /** The sweep of all these users is the global sweep, in store and in count alike, if and only
      if every stale job belongs to one of them. */
  lemma ReachIsGlobal(cfg: Config, s: State, t: State, reach: set<string>, now: Time, mint: map<string, string>)
    requires Sound(s) && SweptTo(cfg, s, t, reach, false, now, mint)
    ensures var stale := Stale(cfg, s, s.jobs.Keys, true, now);
            && (SweptTo(cfg, s, t, s.jobs.Keys, true, now, mint) <==> stale <= reach)
            && (|Stale(cfg, s, reach, false, now)| == |stale| <==> stale <= reach)
  {
    hide RowsAdded, Sound, Judge, Sentence;
    ReachVerdicts(cfg, s, reach, now);
    var stale := Stale(cfg, s, s.jobs.Keys, true, now);
    if stale <= reach {
      assert stale * reach == stale;
      SameVerdicts(cfg, s, t, reach, s.jobs.Keys, true, now, mint);
    } else {
      if |stale * reach| == |stale| { SameSize(stale * reach, stale); }
      var id :| id in stale && id !in reach;
      MissedStale(cfg, s, t, id, true, now);
    }
  }

  /** On every reachable store, sweeping each listed user in any order at one instant ends in
      the very store the global sweep makes, and returns its count in all, if and only if every
      stale job belongs to a listed user whose id survives trimming. */
  lemma PerUserEqualsGlobal(cfg: Config, r: Run, n: nat, states: seq<State>, counts: seq<nat>, users: seq<string>,
                            all: State, now: Time, mint: map<string, string>)
    requires Legal(cfg, r) && n < |r.states|
    requires UserSweeps(cfg, states, counts, users, now, mint) && states[0] == r.states[n]
    requires SweptTo(cfg, r.states[n], all, r.states[n].jobs.Keys, true, now, mint)
    ensures var stale, owned := Stale(cfg, states[0], states[0].jobs.Keys, true, now), OwnedByAny(states[0], users);
            (states[|users|] == all <==> stale <= owned) && (Total(counts) == |stale| <==> stale <= owned)
  {
    var s := r.states[n];
    var reach := OwnedByAny(s, users);
    Reachable(cfg, r, n);
    UserSweepsCompose(cfg, states, counts, users, now, mint);
    hide SweptTo, Sound, UserSweeps, OwnedByAny, Judge;
    ReachIsGlobal(cfg, s, states[|users|], reach, now, mint);
    if Stale(cfg, s, s.jobs.Keys, true, now) <= reach {
      ReachVerdicts(cfg, s, reach, now);
      SweepDeterministic(cfg, s, states[|users|], all, reach, s.jobs.Keys, true, now, mint);
    }
  }

  lemma MissedStale(cfg: Config, s: State, t: State, id: string, global: bool, now: Time)
    requires id in s.jobs && id in t.jobs && t.jobs[id] == s.jobs[id] && Judge(cfg, s.jobs[id], global, now) != Keep
    ensures !JobsSwept(cfg, s, t, s.jobs.Keys, global, now)
  {
    StaleChanges(cfg, s.jobs[id], global, now);
  }

  lemma StaleChanges(cfg: Config, j: Job, global: bool, now: Time)
    requires Judge(cfg, j, global, now) != Keep
    ensures Swept(cfg, j, global, now) != j
  {
  }
}
