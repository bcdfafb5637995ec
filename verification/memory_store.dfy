/** The in-memory store's job and outbox tables. */
module MemoryStore {
  import opened Text
  import opened Jobs
  import opened Sorting
  import opened Paging

  predicate RowKeyed(rows: map<string, Row>) { forall w <- rows :: rows[w].id == w }

  predicate CreatedFirst(a: Job, b: Job) {
    a.createdAt < b.createdAt || (a.createdAt == b.createdAt && Less(a.id, b.id))
  }

  lemma CreatedFirstStrict()
    ensures StrictOrder(CreatedFirst)
  {
    forall x: Job, y: Job | CreatedFirst(x, y) ensures !CreatedFirst(y, x) {
      if CreatedFirst(y, x) {
        LessTransitive(x.id, y.id, x.id);
        LessIrreflexive(x.id);
      }
    }
    forall x: Job, y: Job, z: Job | CreatedFirst(x, y) && CreatedFirst(y, z) ensures CreatedFirst(x, z) {
      if x.createdAt == y.createdAt == z.createdAt { LessTransitive(x.id, y.id, z.id); }
    }
  }

  predicate NewerJob(a: Job, b: Job) { Newer(KeyOf(a), KeyOf(b)) }

  lemma NewerJobStrict()
    ensures StrictOrder(NewerJob)
  {
    forall x: Job, y: Job | NewerJob(x, y) ensures !NewerJob(y, x) { NewerStrict(KeyOf(x), KeyOf(y)); }
    forall x: Job, y: Job, z: Job | NewerJob(x, y) && NewerJob(y, z) ensures NewerJob(x, z) {
      NewerTransitive(KeyOf(x), KeyOf(y), KeyOf(z));
    }
  }

  lemma DescendingWhenSorted(out: seq<Job>)
    requires Sorted(NewerJob, out)
    requires forall i, k :: 0 <= i < k < |out| ==> out[i].id != out[k].id
    ensures Descending(out)
  {
    forall i, k | 0 <= i < k < |out| ensures Newer(KeyOf(out[i]), KeyOf(out[k])) {
      NewerTotal(KeyOf(out[i]), KeyOf(out[k]));
      assert !NewerJob(out[k], out[i]);
    }
  }

  lemma DistinctIds(jobs: Table, out: seq<Job>)
    requires Distinct(out) && forall j <- out :: Stored(jobs, j)
    ensures forall i, k :: 0 <= i < k < |out| ==> out[i].id != out[k].id
  {
    forall i, k | 0 <= i < k < |out| ensures out[i].id != out[k].id {
      assert out[i] in out && out[k] in out;
    }
  }

  predicate DueFirst(a: Row, b: Row) { a.nextAttemptAt < b.nextAttemptAt }

  /** Delivery time of a delivered row, last update of a dead one. */
  function RestedAt(r: Row): Time {
    if r.status.Delivered? && r.deliveredAt != 0 then r.deliveredAt else r.updatedAt
  }

  predicate RestedFirst(a: Row, b: Row) { RestedAt(a) < RestedAt(b) }

  predicate UpdatedFirst(a: Job, b: Job) { a.updatedAt < b.updatedAt }

  /** Rows delivered or given up before `olderThan`. */
  function RestedBefore(olderThan: Time): Row -> bool {
    (r: Row) => !r.status.Waiting? && RestedAt(r) < olderThan
  }

  /** Terminal jobs last updated before `olderThan`. */
  function EndedBefore(olderThan: Time): Job -> bool {
    (j: Job) => j.status.Terminal() && j.updatedAt < olderThan
  }

  /** Waiting rows whose next attempt is due. */
  function DueBy(now: Time): Row -> bool {
    (r: Row) => r.status.Waiting? && r.nextAttemptAt <= now
  }

  function DueCap(limit: int): nat { if limit <= 0 then 32 else if limit > 200 then 200 else limit }

  function PurgeCap(limit: int): nat { if limit <= 0 then 500 else if limit > 5000 then 5000 else limit }

  /** Only due records are chosen, the oldest first, and one is left only when the cap is reached. */
  ghost predicate Oldest<T(!new)>(table: map<string, T>, due: T -> bool, before: (T, T) -> bool, cut: nat, chosen: set<string>) {
    && |chosen| <= cut
    && (forall id <- chosen :: id in table && due(table[id]))
    && (forall id <- table :: due(table[id]) && id !in chosen ==> |chosen| == cut)
    && (forall id <- table, p <- chosen :: due(table[id]) && id !in chosen ==> !before(table[id], table[p]))
  }

  /** A purge of jobs takes terminal ones updated before the cut-off, the longest untouched first. */
  lemma OldestJobsLaw(jobs: Table, olderThan: Time, cut: nat, purged: set<string>)
    requires Oldest(jobs, EndedBefore(olderThan), UpdatedFirst, cut, purged)
    ensures |purged| <= cut
    ensures forall id <- purged :: id in jobs && jobs[id].updatedAt < olderThan
              && (jobs[id].status == Succeeded || jobs[id].status == Failed || jobs[id].status == Cancelled)
    ensures forall id <- jobs ::
      (id !in purged && jobs[id].updatedAt < olderThan
       && (jobs[id].status == Succeeded || jobs[id].status == Failed || jobs[id].status == Cancelled)) ==>
        (|purged| == cut && forall p <- purged :: jobs[p].updatedAt <= jobs[id].updatedAt)
  {
    assert forall id <- jobs :: EndedBefore(olderThan)(jobs[id]) <==>
             jobs[id].updatedAt < olderThan && jobs[id].status.Terminal();
    forall id, p | id in jobs && p in purged && id !in purged && EndedBefore(olderThan)(jobs[id])
      ensures jobs[p].updatedAt <= jobs[id].updatedAt
    {
      assert !UpdatedFirst(jobs[id], jobs[p]);
    }
  }

  /** A purge of rows takes delivered and dead ones at rest before the cut-off, the longest first. */
  lemma OldestRowsLaw(rows: map<string, Row>, olderThan: Time, cut: nat, purged: set<string>)
    requires Oldest(rows, RestedBefore(olderThan), RestedFirst, cut, purged)
    ensures
      var at := (r: Row) => if r.status == Delivered && r.deliveredAt != 0 then r.deliveredAt else r.updatedAt;
      var due := (r: Row) => (r.status == Delivered || r.status == Dead) && at(r) < olderThan;
      && |purged| <= cut
      && (forall w <- purged :: w in rows && due(rows[w]))
      && (forall w <- rows :: w !in purged && due(rows[w]) ==> |purged| == cut)
      && (forall w <- rows, p <- purged :: w !in purged && due(rows[w]) ==> at(rows[p]) <= at(rows[w]))
  {
    assert forall w <- rows :: RestedBefore(olderThan)(rows[w]) <==> rows[w].status != Waiting && RestedAt(rows[w]) < olderThan;
    forall w, p | w in rows && p in purged && w !in purged && RestedBefore(olderThan)(rows[w])
      ensures RestedAt(rows[p]) <= RestedAt(rows[w])
    {
      assert !RestedFirst(rows[w], rows[p]);
    }
  }

  lemma {:induction false} DistinctSize(s: seq<string>)
    requires Distinct(s)
    ensures |set x | x in s| == |s|
  {
    if s != [] {
      var rest := s[..|s| - 1];
      DistinctSize(rest);
      assert (set x | x in s) == (set x | x in rest) + {s[|s| - 1]};
    }
  }

  lemma FirstAreOldest<T(!new)>(table: map<string, T>, due: T -> bool, before: (T, T) -> bool, cut: nat,
                                all: seq<T>, list: seq<T>, ids: seq<string>)
    requires Distinct(list) && |list| <= cut && (forall x <- list :: x in all) && (forall x <- all :: x !in list ==> |list| == cut)
    requires forall x, y | x in all && x !in list && y in list :: !before(x, y)
    requires |ids| == |list| && forall i :: 0 <= i < |ids| ==> ids[i] in table && table[ids[i]] == list[i] && due(list[i])
    requires forall id <- table :: due(table[id]) ==> table[id] in all
    requires forall id <- table :: table[id] in list ==> id in ids
    ensures Distinct(ids) && Oldest(table, due, before, cut, set id | id in ids)
  {
    DistinctSize(ids);
    var chosen := set id | id in ids;
    forall id, p | id in table && p in chosen && due(table[id]) && id !in chosen ensures !before(table[id], table[p]) {
      var k :| 0 <= k < |ids| && ids[k] == p;
      assert list[k] in list;
    }
  }

  class Memory {
    var jobs: map<string, Job>
    var outbox: map<string, Row>

    constructor ()
      ensures jobs == map[] && outbox == map[]
    {
      jobs, outbox := map[], map[];
    }

    function GetJob(user: string, id: string): Option<Job>
      reads this
    {
      if id in jobs && jobs[id].userId == user then Some(jobs[id]) else None
    }

    /** One pass over the table in Go's unspecified map order. */
    method Select(keep: Job -> bool) returns (out: seq<Job>)
      requires Keyed(jobs)
      ensures forall j :: j in out <==> Stored(jobs, j) && keep(j)
      ensures Distinct(out)
    {
      var todo := jobs.Keys;
      out := [];
      while todo != {}
        invariant todo <= jobs.Keys
        invariant forall j <- out :: Stored(jobs, j) && keep(j) && j.id !in todo
        invariant forall id <- jobs.Keys - todo :: keep(jobs[id]) ==> jobs[id] in out
        invariant Distinct(out)
      {
        var id :| id in todo;
        todo := todo - {id};
        if keep(jobs[id]) { out := out + [jobs[id]]; }
      }
    }

    method ListPendingJobs(user: string) returns (out: seq<Job>)
      requires Keyed(jobs)
      ensures forall j :: j in out <==> Stored(jobs, j) && j.userId == user && j.status.Claimable()
      ensures Distinct(out)
    {
      out := Select((j: Job) => j.userId == user && j.status.Claimable());
    }

    /** Running jobs of one user, or of all when the trimmed user is empty, oldest first. */
    method ListRunningJobs(user: string) returns (out: seq<Job>)
      requires Keyed(jobs)
      ensures forall j :: j in out <==> Stored(jobs, j) && j.status.Running? && Wants(user, j.userId)
      ensures Distinct(out) && Sorted(CreatedFirst, out)
    {
      out := Select((j: Job) => j.status.Running? && Wants(user, j.userId));
      CreatedFirstStrict();
      out := Arrange(out, CreatedFirst);
    }

    /** One page of a listing, filter and cursor applied, cut at the limit. */
    method ListJobsPage(f: Filter, cursor: Option<Key>, limit: int) returns (out: seq<Job>)
      requires Keyed(jobs)
      ensures var cut := if limit <= 0 then 100 else if limit > 501 then 501 else limit;
              |out| <= cut && Descending(out)
              && (forall j <- out :: Eligible(jobs, f, cursor, j))
              && (forall id <- jobs :: Eligible(jobs, f, cursor, jobs[id]) && jobs[id] !in out ==>
                    |out| == cut && Newer(LastKey(out), KeyOf(jobs[id])))
    {
      var cut := if limit <= 0 then 100 else if limit > 501 then 501 else limit;
      var all := Select((j: Job) => Matches(f, j) && Below(j, cursor));
      NewerJobStrict();
      out := TakeFirst(all, NewerJob, cut);
      DistinctIds(jobs, out);
      DescendingWhenSorted(out);
      forall id | id in jobs && Eligible(jobs, f, cursor, jobs[id]) && jobs[id] !in out
        ensures |out| == cut && Newer(LastKey(out), KeyOf(jobs[id]))
      {
        assert jobs[id] in all;
        var last := out[|out| - 1];
        assert last in out && Stored(jobs, last) && last.id != id;
        assert !NewerJob(jobs[id], last);
        NewerTotal(KeyOf(jobs[id]), KeyOf(last));
      }
    }

    /** Compare-and-set under the write lock: only a claimable job changes hands. */
    method ClaimPendingJob(user: string, id: string, agent: string, runner: string, now: Time)
      returns (claimed: Option<Job>)
      modifies this
      ensures outbox == old(outbox)
      ensures claimed.Some? <==> id in old(jobs) && old(jobs[id]).userId == user && old(jobs[id]).status.Claimable()
      ensures claimed.None? ==> jobs == old(jobs)
      ensures claimed.Some? ==> claimed.value == old(jobs[id]).(
                status := Running, claimedByAgent := agent, claimedByRunner := runner, heartbeatAt := now, claimedAt := now,
                attemptCount := old(jobs[id]).attemptCount + 1, updatedAt := now)
      ensures claimed.Some? ==> claimed.value == ClaimedBy(old(jobs[id]), agent, runner, now)
                                && jobs == old(jobs)[id := claimed.value]
    {
      if id !in jobs || jobs[id].userId != user || !jobs[id].status.Claimable() {
        return None;
      }
      var j := jobs[id];
      j := j.(status := Running, claimedByAgent := agent, claimedByRunner := runner,
              heartbeatAt := now, claimedAt := now);
      j := j.(attemptCount := j.attemptCount + 1, updatedAt := now);
      jobs := jobs[id := j];
      claimed := Some(j);
    }

    method UpdateJob(j: Job) returns (ok: bool)
      modifies this
      ensures outbox == old(outbox)
      ensures ok <==> j.id in old(jobs) && old(jobs[j.id]).userId == j.userId
      ensures jobs == if ok then old(jobs)[j.id := j] else old(jobs)
    {
      ok := j.id in jobs && jobs[j.id].userId == j.userId;
      if ok { jobs := jobs[j.id := j]; }
    }

    method EnqueueWebhookOutbox(r: Row) returns (ok: bool)
      modifies this
      ensures jobs == old(jobs)
      ensures ok <==> Trim(r.id) != "" && r.id !in old(outbox)
      ensures outbox == if ok then old(outbox)[r.id := r] else old(outbox)
    {
      ok := Trim(r.id) != "" && r.id !in outbox;
      if ok { outbox := outbox[r.id := r]; }
    }

    method UpdateWebhookOutbox(r: Row) returns (ok: bool)
      modifies this
      ensures jobs == old(jobs)
      ensures ok <==> Trim(r.id) != "" && r.id in old(outbox)
      ensures outbox == if ok then old(outbox)[r.id := r] else old(outbox)
    {
      ok := Trim(r.id) != "" && r.id in outbox;
      if ok { outbox := outbox[r.id := r]; }
    }

    /** Waiting rows due by `now`, the longest due first, cut at the limit. */
    method ListDueWebhookOutbox(now: Time, limit: int) returns (due: seq<Row>)
      requires RowKeyed(outbox)
      ensures var cut := DueCap(limit);
              |due| <= cut && Distinct(due)
              && (forall r <- due :: r.id in outbox && outbox[r.id] == r && r.status.Waiting? && r.nextAttemptAt <= now)
              && (forall w <- outbox :: outbox[w].status.Waiting? && outbox[w].nextAttemptAt <= now && outbox[w] !in due ==>
                    |due| == cut && forall r <- due :: r.nextAttemptAt <= outbox[w].nextAttemptAt)
    {
      var cut := DueCap(limit);
      var all := DueRows(now);
      due := TakeFirst(all, DueFirst, cut);
      forall w | w in outbox && outbox[w].status.Waiting? && outbox[w].nextAttemptAt <= now && outbox[w] !in due
        ensures |due| == cut && forall r <- due :: r.nextAttemptAt <= outbox[w].nextAttemptAt
      {
        assert outbox[w] in all;
        assert forall r <- due :: !DueFirst(outbox[w], r);
      }
    }

    method DueRows(now: Time) returns (out: seq<Row>)
      requires RowKeyed(outbox)
      ensures forall r :: r in out <==> r.id in outbox && outbox[r.id] == r && r.status.Waiting? && r.nextAttemptAt <= now
      ensures Distinct(out)
    {
      var todo := outbox.Keys;
      out := [];
      while todo != {}
        invariant todo <= outbox.Keys
        invariant forall r <- out :: r.id in outbox && outbox[r.id] == r && r.status.Waiting? && r.nextAttemptAt <= now
                                     && r.id !in todo
        invariant forall w <- outbox.Keys - todo ::
                    outbox[w].status.Waiting? && outbox[w].nextAttemptAt <= now ==> outbox[w] in out
        invariant Distinct(out)
      {
        var w :| w in todo;
        todo := todo - {w};
        if outbox[w].status.Waiting? && !(outbox[w].nextAttemptAt > now) { out := out + [outbox[w]]; }
      }
    }

    /** Delete settled rows older than `olderThan`, the oldest first. */
    method PurgeWebhookOutbox(olderThan: Time, limit: int) returns (n: nat, ghost purged: set<string>)
      requires RowKeyed(outbox)
      modifies this
      ensures n == |purged| && Oldest(old(outbox), RestedBefore(olderThan), RestedFirst, PurgeCap(limit), purged)
      ensures jobs == old(jobs) && outbox == old(outbox) - purged
    {
      var ids := OldestAtRest(olderThan, PurgeCap(limit));
      ghost var rows := outbox;
      for i := 0 to |ids|
        invariant outbox == rows - (set w | w in ids[..i]) && jobs == old(jobs)
      {
        outbox := outbox - {ids[i]};
      }
      assert ids[..|ids|] == ids;
      purged := set w | w in ids;
      DistinctSize(ids);
      n := |ids|;
    }

    /** The ids of the first `cut` rows at rest since before `olderThan`, oldest first. */
    method OldestAtRest(olderThan: Time, cut: nat) returns (ids: seq<string>)
      requires RowKeyed(outbox)
      ensures Distinct(ids)
      ensures Oldest(outbox, RestedBefore(olderThan), RestedFirst, cut, set w | w in ids)
    {
      var todo := outbox.Keys;
      var all: seq<Row> := [];
      while todo != {}
        invariant todo <= outbox.Keys && Distinct(all)
        invariant forall r <- all :: r.id in outbox && outbox[r.id] == r && r.id !in todo && RestedBefore(olderThan)(r)
        invariant forall w <- outbox :: w in todo || !RestedBefore(olderThan)(outbox[w]) || outbox[w] in all
      {
        var w :| w in todo;
        todo := todo - {w};
        if RestedBefore(olderThan)(outbox[w]) { all := all + [outbox[w]]; }
      }
      var list := TakeFirst(all, RestedFirst, cut);
      ids := seq(|list|, i requires 0 <= i < |list| => list[i].id);
      forall w | w in outbox && outbox[w] in list ensures w in ids {
        var i :| 0 <= i < |list| && list[i] == outbox[w];
        assert ids[i] == w;
      }
      forall i | 0 <= i < |ids| ensures ids[i] in outbox && outbox[ids[i]] == list[i] && RestedBefore(olderThan)(list[i]) {
        assert list[i] in all;
      }
      FirstAreOldest(outbox, RestedBefore(olderThan), RestedFirst, cut, all, list, ids);
    }

    /** Delete the oldest terminal jobs last updated before `olderThan`, and their outbox rows. */
    method PurgeTerminalJobs(olderThan: Time, limit: int) returns (n: nat, ghost purged: set<string>)
      requires Keyed(jobs)
      modifies this
      ensures n == |purged| && Oldest(old(jobs), EndedBefore(olderThan), UpdatedFirst, PurgeCap(limit), purged)
      ensures jobs == old(jobs) - purged
      ensures outbox == map w | w in old(outbox) && old(outbox[w]).jobId !in purged :: old(outbox[w])
    {
      var ids := OldestTerminal(olderThan, PurgeCap(limit));
      purged := set id | id in ids;
      DistinctSize(ids);
      n := |ids|;
      DeleteJobs(ids);
    }

    /** The ids of the first `cut` terminal jobs last updated before `olderThan`, oldest first. */
    method OldestTerminal(olderThan: Time, cut: nat) returns (ids: seq<string>)
      requires Keyed(jobs)
      ensures Distinct(ids)
      ensures Oldest(jobs, EndedBefore(olderThan), UpdatedFirst, cut, set id | id in ids)
    {
      var all := Select(EndedBefore(olderThan));
      var list := TakeFirst(all, UpdatedFirst, cut);
      ids := seq(|list|, i requires 0 <= i < |list| => list[i].id);
      forall id | id in jobs && jobs[id] in list ensures id in ids {
        var i :| 0 <= i < |list| && list[i] == jobs[id];
        assert ids[i] == id;
      }
      forall i | 0 <= i < |ids| ensures ids[i] in jobs && jobs[ids[i]] == list[i] && EndedBefore(olderThan)(list[i]) {
        assert list[i] in all;
      }
      FirstAreOldest(jobs, EndedBefore(olderThan), UpdatedFirst, cut, all, list, ids);
    }

    /** Drop the listed jobs, then the rows that name them. */
    method DeleteJobs(ids: seq<string>)
      modifies this
      ensures jobs == old(jobs) - set id | id in ids
      ensures outbox == map w | w in old(outbox) && old(outbox[w]).jobId !in ids :: old(outbox[w])
    {
      for i := 0 to |ids|
        invariant jobs == old(jobs) - set id | id in ids[..i]
        invariant outbox == old(outbox)
      {
        jobs := jobs - {ids[i]};
      }
      assert ids[..|ids|] == ids;
      for i := 0 to |ids|
        invariant outbox == map w | w in old(outbox) && old(outbox[w]).jobId !in ids[..i] :: old(outbox[w])
        invariant jobs == old(jobs) - set id | id in ids
      {
        outbox := map w | w in outbox && outbox[w].jobId != ids[i] :: outbox[w];
      }
    }
  }
}
