/** One batch of webhook deliveries, serial or parallel. */
module Delivery {
  import opened Jobs
  import opened Sorting

  /** What the receiver answered for one row, and when. */
  datatype Outcome = Outcome(ok: bool, detail: string, at: Time)

  type Rows = map<string, Row>

  function AfterAttempt(cfg: Config, r: Row, o: Outcome): Row { Attempted(cfg, r, o.ok, o.detail, o.at) }

  /** The outbox once exactly the rows in `done` have been attempted. */
  function Finished(cfg: Config, rows: Rows, done: set<string>, outcomes: map<string, Outcome>): Rows
    requires rows.Keys <= outcomes.Keys
  {
    map w | w in rows :: if w in done then AfterAttempt(cfg, rows[w], outcomes[w]) else rows[w]
  }

  function Successes(done: set<string>, outcomes: map<string, Outcome>): set<string> {
    set w | w in done && w in outcomes && outcomes[w].ok
  }

  function Ids(batch: seq<Row>): set<string> { set r | r in batch :: r.id }

  /** A batch of distinct stored rows. */
  predicate Batch(rows: Rows, batch: seq<Row>) {
    && (forall i, k :: 0 <= i < k < |batch| ==> batch[i].id != batch[k].id)
    && forall r <- batch :: r.id in rows && rows[r.id] == r
  }

  lemma IdsNext(rows: Rows, batch: seq<Row>, i: nat)
    requires i < |batch| && Batch(rows, batch)
    ensures Ids(batch[..i + 1]) == Ids(batch[..i]) + {batch[i].id} && batch[i].id !in Ids(batch[..i])
    ensures batch[i].id in rows && rows[batch[i].id] == batch[i]
  {
    assert batch[i] in batch;
    assert batch[..i + 1] == batch[..i] + [batch[i]];
    assert forall r <- batch[..i] :: r.id != batch[i].id;
  }

  lemma NothingFinished(cfg: Config, rows: Rows, outcomes: map<string, Outcome>)
    requires rows.Keys <= outcomes.Keys
    ensures Finished(cfg, rows, {}, outcomes) == rows && Successes({}, outcomes) == {} && Ids([]) == {}
  {
  }

  /** Attempting one more row of a batch. */
  lemma FinishNext(cfg: Config, rows: Rows, done: set<string>, id: string, outcomes: map<string, Outcome>)
    requires rows.Keys <= outcomes.Keys && id in rows && id !in done
    ensures id in Finished(cfg, rows, done, outcomes) && Finished(cfg, rows, done, outcomes)[id] == rows[id]
    ensures Finished(cfg, rows, done + {id}, outcomes)
            == Finished(cfg, rows, done, outcomes)[id := AfterAttempt(cfg, rows[id], outcomes[id])]
    ensures |Successes(done + {id}, outcomes)| == |Successes(done, outcomes)| + if outcomes[id].ok then 1 else 0
  {
    hide AfterAttempt;
    assert Successes(done + {id}, outcomes) == Successes(done, outcomes) + if outcomes[id].ok then {id} else {};
  }

  /** A batch in another order is still that batch. */
  lemma Reordered(rows: Rows, batch: seq<Row>, other: seq<Row>)
    requires Batch(rows, batch) && multiset(batch) == multiset(other)
    ensures Batch(rows, other) && Ids(other) == Ids(batch) && forall r <- other :: r in batch
  {
    forall r ensures r in other <==> r in batch {
      assert r in other <==> r in multiset(other);
      assert r in batch <==> r in multiset(batch);
    }
    RearrangedDistinct(batch, other);
    assert forall r <- other :: r in batch;
  }
}
