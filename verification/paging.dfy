/** Keyset pagination of job listings, newest first, over a store that may change between pages. */
module Paging {
  import opened Text
  import opened Jobs
  import opened Cursor

  datatype Key = Key(createdAt: Time, id: string)

  function KeyOf(j: Job): Key { Key(j.createdAt, j.id) }

  /** Does `a` come before `b` in created_at DESC, id DESC? */
  predicate Newer(a: Key, b: Key) {
    a.createdAt > b.createdAt || (a.createdAt == b.createdAt && Less(b.id, a.id))
  }

  lemma NewerTransitive(a: Key, b: Key, c: Key)
    requires Newer(a, b) && Newer(b, c)
    ensures Newer(a, c)
  {
    if a.createdAt == b.createdAt == c.createdAt { LessTransitive(c.id, b.id, a.id); }
  }

  lemma NewerStrict(a: Key, b: Key)
    requires Newer(a, b)
    ensures !Newer(b, a)
  {
    if Newer(b, a) {
      LessTransitive(a.id, b.id, a.id);
      LessIrreflexive(a.id);
    }
  }

  lemma NewerTotal(a: Key, b: Key)
    ensures Newer(a, b) || a == b || Newer(b, a)
  {
    LessTotal(a.id, b.id);
  }

  datatype Filter = Filter(userId: string, agentId: string, claimedByAgent: string, claimedByRunner: string,
                           regionHint: string, status: string, labels: map<string, string>)

  predicate Wants(want: string, have: string) { Trim(want) == "" || have == Trim(want) }

  predicate LabelsMatch(have: map<string, string>, want: map<string, string>) {
    want == map[] || (have != map[] && forall k <- want :: (if k in have then have[k] else "") == want[k])
  }

  predicate Matches(f: Filter, j: Job) {
    && Wants(f.userId, j.userId) && Wants(f.agentId, j.agentId)
    && Wants(f.claimedByAgent, j.claimedByAgent) && Wants(f.claimedByRunner, j.claimedByRunner)
    && Wants(f.regionHint, j.regionHint) && Wants(f.status, j.status.Name())
    && LabelsMatch(j.labels, f.labels)
  }

  /** A filter keeps the jobs that agree with each field it sets. */
  lemma MatchesLaw(f: Filter, j: Job)
    ensures Matches(f, j) <==>
      && (Trim(f.userId) == "" || j.userId == Trim(f.userId))
      && (Trim(f.agentId) == "" || j.agentId == Trim(f.agentId))
      && (Trim(f.claimedByAgent) == "" || j.claimedByAgent == Trim(f.claimedByAgent))
      && (Trim(f.claimedByRunner) == "" || j.claimedByRunner == Trim(f.claimedByRunner))
      && (Trim(f.regionHint) == "" || j.regionHint == Trim(f.regionHint))
      && (Trim(f.status) == "" || Trim(f.status) == match j.status
            case Pending => "pending" case Dispatched => "dispatched" case Running => "running"
            case Succeeded => "succeeded" case Failed => "failed" case Cancelled => "cancelled")
      && (f.labels == map[] || (j.labels != map[] && forall k <- f.labels :: (if k in j.labels then j.labels[k] else "") == f.labels[k]))
  {
  }

  /** A cursor restricts only when both its parts are set. */
  predicate Below(j: Job, cursor: Option<Key>) {
    match cursor
    case None => true
    case Some(k) => k.createdAt == 0 || k.id == "" || Newer(k, KeyOf(j))
  }

  /** Below a cursor come the older jobs, and those of the same instant with a smaller id. */
  lemma BelowLaw(j: Job, k: Key)
    ensures Below(j, None)
    ensures Below(j, Some(k)) <==> k.createdAt == 0 || k.id == "" || j.createdAt < k.createdAt
                                   || (j.createdAt == k.createdAt && Less(j.id, k.id))
  {
  }

  type Table = map<string, Job>

  /** Jobs sit under their own non-empty byte-string ids and have a creation time. */
  predicate Keyed(jobs: Table) {
    forall id <- jobs :: jobs[id].id == id && id != "" && IsBytes(id) && jobs[id].createdAt != 0
  }

  predicate Stored(jobs: Table, j: Job) { j.id in jobs && jobs[j.id] == j }

  predicate Eligible(jobs: Table, f: Filter, cursor: Option<Key>, j: Job) {
    Stored(jobs, j) && Matches(f, j) && Below(j, cursor)
  }

  predicate Descending(items: seq<Job>) {
    forall i, k :: 0 <= i < k < |items| ==> Newer(KeyOf(items[i]), KeyOf(items[k]))
  }

  /** One page: the first `limit` eligible jobs in order, and whether any are left over. */
  ghost predicate IsPage(jobs: Table, f: Filter, cursor: Option<Key>, limit: nat, items: seq<Job>, more: bool) {
    && Descending(items) && |items| <= limit
    && (forall j <- items :: Eligible(jobs, f, cursor, j))
    && (more ==> items != [])
    && (forall id <- jobs :: Eligible(jobs, f, cursor, jobs[id]) && jobs[id] !in items ==>
          more && Newer(KeyOf(items[|items| - 1]), KeyOf(jobs[id])))
    && (more ==> exists id <- jobs :: Eligible(jobs, f, cursor, jobs[id]) && jobs[id] !in items)
  }

  // ---- Runs of pages ----

  function LastKey(items: seq<Job>): Key
    requires items != []
  {
    KeyOf(items[|items| - 1])
  }

  /** Where page `i` starts: after the last item of the page before it. */
  function StartOf(pages: seq<seq<Job>>, i: nat): Option<Key>
    requires i <= |pages|
  {
    if i == 0 || pages[i - 1] == [] then None else Some(LastKey(pages[i - 1]))
  }

  ghost predicate PageAt(tables: seq<Table>, f: Filter, limits: seq<nat>, pages: seq<seq<Job>>, i: nat)
    requires |tables| == |limits| == |pages| && i < |pages|
  {
    Keyed(tables[i]) && IsPage(tables[i], f, StartOf(pages, i), limits[i], pages[i], i + 1 < |pages|)
  }

  /** Page after page by next_cursor until there is none, each over the table as it then is. */
  ghost predicate PageRun(tables: seq<Table>, f: Filter, limits: seq<nat>, pages: seq<seq<Job>>) {
    && |tables| == |limits| == |pages| && |pages| > 0
    && forall i :: 0 <= i < |pages| ==> PageAt(tables, f, limits, pages, i)
  }

  lemma ItemAt(tables: seq<Table>, f: Filter, limits: seq<nat>, pages: seq<seq<Job>>, p: nat, k: nat)
    requires PageRun(tables, f, limits, pages) && p < |pages| && k < |pages[p]|
    ensures Stored(tables[p], pages[p][k]) && Matches(f, pages[p][k]) && Below(pages[p][k], StartOf(pages, p))
    ensures pages[p][k].id != "" && pages[p][k].createdAt != 0
  {
    assert PageAt(tables, f, limits, pages, p);
    assert pages[p][k] in pages[p];
    assert Eligible(tables[p], f, StartOf(pages, p), pages[p][k]);
  }

  /** An eligible job that page `i` leaves over comes after all of that page. */
  lemma LeftOver(tables: seq<Table>, f: Filter, limits: seq<nat>, pages: seq<seq<Job>>, i: nat, id: string)
    requires PageRun(tables, f, limits, pages) && i < |pages| && id in tables[i]
    requires Eligible(tables[i], f, StartOf(pages, i), tables[i][id]) && tables[i][id] !in pages[i]
    ensures i + 1 < |pages| && pages[i] != [] && Newer(LastKey(pages[i]), KeyOf(tables[i][id]))
  {
    assert PageAt(tables, f, limits, pages, i);
  }

  /** A matching job that is not among the pages before `i` is on page `i` or later. */
  lemma {:induction false} Found(tables: seq<Table>, f: Filter, limits: seq<nat>, pages: seq<seq<Job>>, i: nat, key: Key)
    returns (p: nat, k: nat)
    requires PageRun(tables, f, limits, pages) && i < |pages|
    requires forall t <- tables :: key.id in t && Matches(f, t[key.id]) && KeyOf(t[key.id]) == key
    requires StartOf(pages, i) == None || Newer(StartOf(pages, i).value, key)
    ensures i <= p < |pages| && k < |pages[p]| && KeyOf(pages[p][k]) == key
    decreases |pages| - i
  {
    assert tables[i] in tables;
    var j := tables[i][key.id];
    if j in pages[i] {
      p := i;
      k :| 0 <= k < |pages[i]| && pages[i][k] == j;
    } else {
      LeftOver(tables, f, limits, pages, i, key.id);
      p, k := Found(tables, f, limits, pages, i + 1, key);
    }
  }

  lemma WithinPage(tables: seq<Table>, f: Filter, limits: seq<nat>, pages: seq<seq<Job>>, p: nat, k: nat, m: nat)
    requires PageRun(tables, f, limits, pages) && p < |pages| && k < m < |pages[p]|
    ensures Newer(KeyOf(pages[p][k]), KeyOf(pages[p][m]))
  {
    assert PageAt(tables, f, limits, pages, p);
  }

  lemma PageBefore(tables: seq<Table>, f: Filter, limits: seq<nat>, pages: seq<seq<Job>>, q: nat)
    requires PageRun(tables, f, limits, pages) && 0 < q < |pages|
    ensures |tables| == |limits| == |pages| && pages[q - 1] != []
  {
    assert PageAt(tables, f, limits, pages, q - 1);
  }

  /** Everything on a page comes after the last item of the page before it. */
  lemma NextPage(tables: seq<Table>, f: Filter, limits: seq<nat>, pages: seq<seq<Job>>, q: nat, m: nat)
    requires PageRun(tables, f, limits, pages) && 0 < q < |pages| && m < |pages[q]|
    ensures pages[q - 1] != [] && Newer(LastKey(pages[q - 1]), KeyOf(pages[q][m]))
  {
    PageBefore(tables, f, limits, pages, q);
    hide PageAt, PageRun, Matches;
    ItemAt(tables, f, limits, pages, q, m);
    ItemAt(tables, f, limits, pages, q - 1, |pages[q - 1]| - 1);
  }

  /** Keys strictly descend through a page and from every page to all later ones. */
  lemma {:induction false} PagesDescend(tables: seq<Table>, f: Filter, limits: seq<nat>, pages: seq<seq<Job>>,
                                        p: nat, k: nat, q: nat, m: nat)
    requires PageRun(tables, f, limits, pages)
    requires p < |pages| && k < |pages[p]| && q < |pages| && m < |pages[q]|
    requires p < q || (p == q && k < m)
    ensures Newer(KeyOf(pages[p][k]), KeyOf(pages[q][m]))
    decreases q
  {
    if p == q {
      WithinPage(tables, f, limits, pages, p, k, m);
    } else {
      NextPage(tables, f, limits, pages, q, m);
      var last := |pages[q - 1]| - 1;
      if p < q - 1 || k < last {
        PagesDescend(tables, f, limits, pages, p, k, q - 1, last);
        NewerTransitive(KeyOf(pages[p][k]), LastKey(pages[q - 1]), KeyOf(pages[q][m]));
      }
    }
  }

  // ---- Following next_cursor ----

  /** Where a request with this cursor token starts. */
  function AfterCursor(token: string): Option<Key> {
    match DecodeCursor(token)
    case None => None
    case Some(pair) => Some(Key(pair.0, pair.1))
  }

  function NextCursor(items: seq<Job>): string
    requires items != [] && IsBytes(items[|items| - 1].id)
  {
    EncodeCursor(items[|items| - 1].createdAt, items[|items| - 1].id)
  }

  /** Request after request, the first without a cursor and each later one with the token the
      previous answer carried, until an answer carries none; the table may differ each time. */
  ghost predicate ListRun(tables: seq<Table>, f: Filter, limits: seq<nat>, tokens: seq<string>, pages: seq<seq<Job>>) {
    && |tables| == |limits| == |pages| == |tokens| && |pages| > 0 && tokens[0] == ""
    && forall i :: 0 <= i < |pages| ==> Answered(tables, f, limits, tokens, pages, i)
  }

  ghost predicate Answered(tables: seq<Table>, f: Filter, limits: seq<nat>, tokens: seq<string>, pages: seq<seq<Job>>, i: nat)
    requires |tables| == |limits| == |pages| == |tokens| && i < |pages|
  {
    && Keyed(tables[i])
    && IsPage(tables[i], f, AfterCursor(tokens[i]), limits[i], pages[i], i + 1 < |pages|)
    && (i + 1 < |pages| ==>
          pages[i] != [] && IsBytes(pages[i][|pages[i]| - 1].id) && tokens[i + 1] == NextCursor(pages[i]))
  }

  /** The token leads each request to the end of the previous page. */
  lemma TokensFollow(tables: seq<Table>, f: Filter, limits: seq<nat>, tokens: seq<string>, pages: seq<seq<Job>>)
    requires ListRun(tables, f, limits, tokens, pages)
    ensures PageRun(tables, f, limits, pages)
  {
    forall i | 0 <= i < |pages| ensures PageAt(tables, f, limits, pages, i) {
      assert Answered(tables, f, limits, tokens, pages, i);
      if i == 0 {
        assert AfterCursor("") == None;
      } else {
        assert Answered(tables, f, limits, tokens, pages, i - 1);
        var last := pages[i - 1][|pages[i - 1]| - 1];
        assert last in pages[i - 1] && Stored(tables[i - 1], last);
        CursorRoundTrip(last.createdAt, last.id);
      }
    }
  }

  /** However the table changes between pages, a job present and matching throughout is
      returned exactly once. */
  lemma EachJobOnce(tables: seq<Table>, f: Filter, limits: seq<nat>, tokens: seq<string>, pages: seq<seq<Job>>, key: Key)
    returns (p: nat, k: nat)
    requires ListRun(tables, f, limits, tokens, pages)
    requires forall t <- tables :: key.id in t && Matches(f, t[key.id]) && KeyOf(t[key.id]) == key
    ensures p < |pages| && k < |pages[p]| && KeyOf(pages[p][k]) == key
    ensures forall q, m | 0 <= q < |pages| && 0 <= m < |pages[q]| && pages[q][m].id == key.id :: q == p && m == k
  {
    TokensFollow(tables, f, limits, tokens, pages);
    p, k := Found(tables, f, limits, pages, 0, key);
    forall q: nat, m: nat | q < |pages| && m < |pages[q]| && pages[q][m].id == key.id ensures q == p && m == k {
      ItemAt(tables, f, limits, pages, q, m);
      assert tables[q] in tables;
      if p < q || (p == q && k < m) {
        PagesDescend(tables, f, limits, pages, p, k, q, m);
        LessIrreflexive(key.id);
      } else if q < p || m < k {
        PagesDescend(tables, f, limits, pages, q, m, p, k);
        LessIrreflexive(key.id);
      }
    }
  }

  /** Over an unchanging table the pages, read in order, are the matching jobs newest first,
      without repeat or gap. */
  lemma PagesAreTheListing(table: Table, tables: seq<Table>, f: Filter, limits: seq<nat>, tokens: seq<string>,
                           pages: seq<seq<Job>>)
    requires ListRun(tables, f, limits, tokens, pages) && forall t <- tables :: t == table
    ensures forall id :: id in table && Matches(f, table[id])
              <==> exists p, k :: 0 <= p < |pages| && 0 <= k < |pages[p]| && pages[p][k].id == id
    ensures forall p, k :: 0 <= p < |pages| && 0 <= k < |pages[p]| ==> Stored(table, pages[p][k])
    ensures forall p, k, q, m :: 0 <= p <= q < |pages| && 0 <= k < |pages[p]| && 0 <= m < |pages[q]| && (p < q || k < m) ==>
              var a, b := pages[p][k], pages[q][m];
              a.createdAt > b.createdAt || (a.createdAt == b.createdAt && Less(b.id, a.id))
  {
    TokensFollow(tables, f, limits, tokens, pages);
    assert PageAt(tables, f, limits, pages, 0);
    assert tables[0] in tables;
    forall p: nat, k: nat | p < |pages| && k < |pages[p]|
      ensures Stored(table, pages[p][k]) && Matches(f, pages[p][k])
    {
      ItemAt(tables, f, limits, pages, p, k);
      assert tables[p] in tables;
    }
    forall id | id in table && Matches(f, table[id])
      ensures exists p, k :: 0 <= p < |pages| && 0 <= k < |pages[p]| && pages[p][k].id == id
    {
      var p, k := Found(tables, f, limits, pages, 0, KeyOf(table[id]));
      assert pages[p][k].id == id;
    }
    forall p: nat, k: nat, q: nat, m: nat | p <= q < |pages| && k < |pages[p]| && m < |pages[q]| && (p < q || k < m)
      ensures Newer(KeyOf(pages[p][k]), KeyOf(pages[q][m]))
    {
      PagesDescend(tables, f, limits, pages, p, k, q, m);
    }
  }
}
