/** Which job a filtered claim hands out, and what it does to the rest. */
module Claiming {
  import opened Text
  import opened Jobs
  import opened Sorting
  import opened Paging

  /** One filtered claim. `allow` is the policy asked before the claim and `recheck` the same
      question asked after it; both answer "" for yes or a reason for no. */
  datatype Request = Request(user: string, agent: string, runner: string, region: string,
                             allow: string -> string, recheck: string -> string, now: Time)

  predicate Outranks(a: Job, b: Job) {
    a.priority > b.priority || (a.priority == b.priority && a.createdAt < b.createdAt)
  }

  lemma OutranksStrict()
    ensures StrictOrder(Outranks)
  {
  }

  predicate InRegion(q: Request, j: Job) { Trim(q.region) == "" || Trim(j.regionHint) == Trim(q.region) }

  /** A claimable job of this user, in the region, that the policy allows to be tried. */
  predicate Tried(q: Request, j: Job) {
    j.userId == q.user && j.status.Claimable() && InRegion(q, j) && q.allow(j.driveId) == ""
  }

  /** A tried job the policy still allows once it is claimed. */
  predicate Acceptable(q: Request, j: Job) { Tried(q, j) && q.recheck(j.driveId) == "" }

  predicate Refused(q: Request, j: Job) { Tried(q, j) && q.recheck(j.driveId) != "" }

  /** The jobs a scan tries: the user's claimable ones of the region that the policy allows. */
  lemma TriedLaw(q: Request, j: Job)
    ensures Tried(q, j) <==>
      && j.userId == q.user && (j.status == Pending || j.status == Dispatched)
      && (Trim(q.region) == "" || Trim(j.regionHint) == Trim(q.region)) && q.allow(j.driveId) == ""
  {
  }

  function HandedOut(q: Request, j: Job): Job { ClaimedBy(j, q.agent, q.runner, q.now) }

  /** Claimed, then released because the policy changed its mind. */
  function Bounced(q: Request, j: Job): Job { Released(HandedOut(q, j), q.recheck(j.driveId), q.now) }

  /** Exactly the jobs in `bounced` were claimed and put back. */
  ghost predicate JobsBounced(q: Request, before: Table, after: Table, bounced: set<string>) {
    && after.Keys == before.Keys && bounced <= before.Keys
    && (forall id <- bounced :: Refused(q, before[id]))
    && forall id <- before :: after[id] == if id in bounced then Bounced(q, before[id]) else before[id]
  }

  /** The outcome of a filtered claim on the table `before`. */
  ghost predicate ClaimOutcome(q: Request, before: Table, after: Table, bounced: set<string>, won: Option<Job>) {
    match won
    case None =>
      && JobsBounced(q, before, after, bounced)
      && forall id <- before :: Tried(q, before[id]) ==> id in bounced
    case Some(j) =>
      && j.id in before && j.id !in bounced
      && Acceptable(q, before[j.id]) && j == HandedOut(q, before[j.id]) && j.id in after && after[j.id] == j
      && JobsBounced(q, before, after[j.id := before[j.id]], bounced)
      && (forall id <- before :: Acceptable(q, before[id]) ==> !Outranks(before[id], before[j.id]))
      && (forall id <- before :: Refused(q, before[id]) && Outranks(before[id], before[j.id]) ==> id in bounced)
      && (forall id <- bounced :: !Outranks(before[j.id], before[id]))
  }

  /** With a policy that answers alike both times, the claim returns a job that no other
      allowed claimable job outranks, fails exactly when there is none, and touches no other. */
  lemma SteadyPolicy(q: Request, before: Table, after: Table, bounced: set<string>, won: Option<Job>)
    requires Keyed(before) && ClaimOutcome(q, before, after, bounced, won)
    requires forall d :: q.allow(d) == "" <==> q.recheck(d) == ""
    ensures won.None? <==> forall id <- before :: !Tried(q, before[id])
    ensures won.None? ==> after == before
    ensures won.Some? ==>
              && after == before[won.value.id := won.value]
              && Tried(q, before[won.value.id])
              && won.value == before[won.value.id].(
                   status := Running, claimedByAgent := q.agent, claimedByRunner := q.runner, heartbeatAt := q.now,
                   claimedAt := q.now, attemptCount := before[won.value.id].attemptCount + 1, updatedAt := q.now)
              && forall id <- before :: Tried(q, before[id]) ==>
                   before[id].priority < before[won.value.id].priority
                   || (before[id].priority == before[won.value.id].priority && before[id].createdAt >= before[won.value.id].createdAt)
  {
    assert forall id <- bounced :: Refused(q, before[id]);
    assert bounced == {};
    if won.Some? {
      assert after[won.value.id := before[won.value.id]] == before;
      assert after == before[won.value.id := won.value];
      assert Tried(q, before[won.value.id]);
    } else {
      assert after == before;
    }
  }

  /** A policy that changes its mind leaves the job pending, one attempt spent, unowned. */
  lemma ChangeOfMind(q: Request, before: Table, after: Table, bounced: set<string>, won: Option<Job>, id: string)
    requires Keyed(before) && ClaimOutcome(q, before, after, bounced, won) && id in before && id in bounced
    ensures id in after && after[id].status.Pending? && after[id].attemptCount == before[id].attemptCount + 1
    ensures after[id].claimedByAgent == "" && after[id].claimedByRunner == ""
    ensures won.Some? ==> won.value.id != id
  {
    if won.Some? { assert after[won.value.id := before[won.value.id]][id] == after[id]; }
  }

  /** Ids of the candidates that the policy lets the scan try. */
  function TriedAmong(q: Request, list: seq<Job>): set<string> {
    set j | j in list && Tried(q, j) :: j.id
  }

  /** The scan has passed the first `i` candidates without success. */
  ghost predicate Scanned(q: Request, before: Table, after: Table, list: seq<Job>, i: nat)
    requires i <= |list|
  {
    JobsBounced(q, before, after, TriedAmong(q, list[..i]))
  }

  /** The candidates: this user's claimable jobs, best first. */
  ghost predicate Candidates(q: Request, before: Table, list: seq<Job>) {
    && Keyed(before) && Distinct(list) && Sorted(Outranks, list)
    && forall j :: j in list <==> Stored(before, j) && j.userId == q.user && j.status.Claimable()
  }

  lemma NextCandidate(q: Request, before: Table, after: Table, list: seq<Job>, i: nat)
    requires Candidates(q, before, list) && i < |list| && Scanned(q, before, after, list, i)
    ensures Stored(before, list[i]) && Stored(after, list[i]) && list[i].userId == q.user && list[i].status.Claimable()
    ensures list[i].id !in TriedAmong(q, list[..i])
  {
    assert list[i] in list;
    forall k | 0 <= k < i ensures list[k].id != list[i].id { assert list[k] in list; }
    assert forall j <- list[..i] :: j.id != list[i].id;
  }

  lemma NothingScanned(q: Request, before: Table, list: seq<Job>)
    ensures TriedAmong(q, list[..0]) == {} && Scanned(q, before, before, list, 0)
  {
    assert list[..0] == [];
  }

  lemma TriedNext(q: Request, before: Table, after: Table, list: seq<Job>, i: nat)
    requires Candidates(q, before, list) && i < |list| && Scanned(q, before, after, list, i)
    ensures |TriedAmong(q, list[..i + 1])| == |TriedAmong(q, list[..i])| + if Tried(q, list[i]) then 1 else 0
  {
    NextCandidate(q, before, after, list, i);
    hide Candidates, Scanned, TriedAmong;
    TriedAmongNext(q, list, i);
  }

  lemma TriedAmongNext(q: Request, list: seq<Job>, i: nat)
    requires i < |list|
    ensures TriedAmong(q, list[..i + 1]) == TriedAmong(q, list[..i]) + if Tried(q, list[i]) then {list[i].id} else {}
  {
    hide Tried;
    assert list[..i + 1] == list[..i] + [list[i]];
  }

  lemma PassOver(q: Request, before: Table, after: Table, next: Table, list: seq<Job>, i: nat)
    requires Candidates(q, before, list) && i < |list| && Scanned(q, before, after, list, i)
    requires if Tried(q, list[i]) then Refused(q, list[i]) && next == after[list[i].id := Bounced(q, list[i])] else next == after
    ensures Scanned(q, before, next, list, i + 1)
  {
    hide Bounced, InRegion, Candidates, Tried, Refused;
    NextCandidate(q, before, after, list, i);
    TriedAmongNext(q, list, i);
  }

  lemma ClaimKeepsId(q: Request, j: Job)
    ensures HandedOut(q, j).id == j.id
  {
  }

  lemma ScanFails(q: Request, before: Table, after: Table, list: seq<Job>)
    requires Candidates(q, before, list) && Scanned(q, before, after, list, |list|)
    ensures ClaimOutcome(q, before, after, TriedAmong(q, list), None)
  {
    assert list[..|list|] == list;
    forall id | id in before && Tried(q, before[id]) ensures id in TriedAmong(q, list) {
      assert before[id] in list;
    }
  }

  lemma ScanWins(q: Request, before: Table, after: Table, list: seq<Job>, i: nat)
    requires Candidates(q, before, list) && i < |list| && Scanned(q, before, after, list, i)
    requires Acceptable(q, list[i])
    ensures ClaimOutcome(q, before, after[list[i].id := HandedOut(q, list[i])], TriedAmong(q, list[..i]), Some(HandedOut(q, list[i])))
  {
    hide Bounced, InRegion, ClaimedBy;
    NextCandidate(q, before, after, list, i);
    assert HandedOut(q, list[i]).id == list[i].id by { ClaimKeepsId(q, list[i]); }
    var id := list[i].id;
    var tried := TriedAmong(q, list[..i]);
    assert after[id := HandedOut(q, list[i])][id := before[id]] == after;
    forall k | k in before && Tried(q, before[k]) && (Outranks(before[k], before[id]) || Acceptable(q, before[k]))
      ensures k in tried || !Outranks(before[k], before[id])
    {
      assert before[k] in list;
      var m :| 0 <= m < |list| && list[m] == before[k];
      if m < i { assert list[m] in list[..i]; }
    }
    forall k | k in tried ensures !Outranks(before[id], before[k]) {
      var j :| j in list[..i] && Tried(q, j) && j.id == k;
      var m :| 0 <= m < i && list[..i][m] == j;
      assert list[m] in list;
    }
  }
}
