/** Idempotent creation: when a repeated create request is a replay and when a conflict. */
module JobKeys {
  import opened Text
  import opened Jobs
  import opened JobHistory
  import opened JobRuns
  import opened Sets

  /** Go map lookup: a missing key reads as the empty string. */
  function Lookup(m: map<string, string>, k: string): string { if k in m then m[k] else "" }

  predicate MapsEqual(a: map<string, string>, b: map<string, string>) {
    |a| == |b| && forall k <- a :: Lookup(b, k) == a[k]
  }

  predicate NoEmptyValue(m: map<string, string>) { forall k <- m :: m[k] != "" }

  lemma MapsEqualOnFullLabels(a: map<string, string>, b: map<string, string>)
    requires NoEmptyValue(a)
    ensures MapsEqual(a, b) <==> a == b
  {
    if MapsEqual(a, b) {
      assert forall k <- a :: k in b;
      assert a.Keys <= b.Keys;
      assert |a.Keys| == |a| && |b.Keys| == |b|;
      SameSize(a.Keys, b.Keys);
    }
  }

  function Ks(n: nat): (s: string)
    ensures |s| == n && forall i :: 0 <= i < n ==> s[i] == 'k'
  {
    seq(n, i => 'k')
  }

  /** Some short key is missing from every finite set. */
  lemma {:induction false} FreshKey(s: set<string>) returns (n: nat)
    ensures 0 < n <= |s| + 1 && Ks(n) !in s
    decreases |s|
  {
    n := |s| + 1;
    if Ks(n) in s {
      var m := FreshKey(s - {Ks(n)});
      assert |Ks(m)| == m < n == |Ks(n)|;
      n := m;
    }
  }

  /** Legal labels that the comparison cannot tell from labels with an empty value. */
  lemma Confusable(a: map<string, string>) returns (b: map<string, string>)
    requires LegalLabels(a) && !NoEmptyValue(a)
    ensures LegalLabels(b) && MapsEqual(a, b) && a != b && b != map[]
  {
    var k :| k in a && a[k] == "";
    var n := FreshKey(a.Keys);
    assert |a.Keys| == |a|;
    TrimTidy(Ks(n));
    TrimTidy("x");
    b := (a - {k})[Ks(n) := "x"];
    assert b.Keys == a.Keys - {k} + {Ks(n)};
    assert |b| == |b.Keys| == |a.Keys|;
    assert Ks(n) in b && Ks(n) !in a;
  }

  /** Comparing legal labels this way recognises exactly the equal ones if and only if no stored
      label is empty: an empty one is indistinguishable from a missing one. */
  lemma LabelComparison(a: map<string, string>)
    requires LegalLabels(a)
    ensures (forall b :: LegalLabels(b) ==> (MapsEqual(a, b) <==> a == b)) <==> NoEmptyValue(a)
  {
    hide LegalLabels;
    if NoEmptyValue(a) {
      forall b ensures MapsEqual(a, b) <==> a == b { MapsEqualOnFullLabels(a, b); }
    } else {
      var b := Confusable(a);
    }
  }

  // ---- The encoding of labels ----

  /** Labels whose trimmed keys clash only where their trimmed values agree. */
  predicate Unambiguous(raw: map<string, string>) {
    forall k <- raw, l <- raw :: Trim(k) == Trim(l) ==> Trim(raw[k]) == Trim(raw[l])
  }

  lemma EncodesOnce(raw: map<string, string>, a: map<string, string>, b: map<string, string>)
    requires Unambiguous(raw) && Encodes(raw, a) && Encodes(raw, b)
    ensures a == b
  {
    hide Trim;
    forall c | c in a ensures c in b && b[c] == a[c] {
      var k :| k in raw && Trim(k) == c && Trim(raw[k]) == a[c];
    }
    forall c | c in b ensures c in a {
      var k :| k in raw && Trim(k) == c && Trim(raw[k]) == b[c];
    }
  }

  /** Ambiguous labels have, for every encoding, another one the comparison tells from it. */
  lemma EncodesOtherwise(raw: map<string, string>, a: map<string, string>) returns (b: map<string, string>)
    requires !Unambiguous(raw) && Encodes(raw, a)
    ensures Encodes(raw, b) && !MapsEqual(a, b) && a != map[]
  {
    hide Trim;
    var k, l :| k in raw && l in raw && Trim(k) == Trim(l) && Trim(raw[k]) != Trim(raw[l]);
    var other := if a[Trim(k)] == Trim(raw[k]) then l else k;
    b := a[Trim(k) := Trim(raw[other])];
    forall c | c in b ensures exists m <- raw :: Trim(m) == c && Trim(raw[m]) == b[c] {
      if c == Trim(k) { assert other in raw && Trim(other) == c; }
    }
    assert Trim(k) in a && Lookup(b, Trim(k)) != a[Trim(k)];
  }

  /** Two keys that trim alike: either value may be stored, and the other is then no match. */
  lemma ClashingKeys(k: string, l: string, v: string, w: string)
    requires k != l && Trim(k) == Trim(l) && Trim(v) != Trim(w)
    ensures var raw := map[k := v, l := w];
            && !Unambiguous(raw) && Encodes(raw, map[Trim(k) := Trim(v)]) && Encodes(raw, map[Trim(k) := Trim(w)])
            && !MapsEqual(map[Trim(k) := Trim(v)], map[Trim(k) := Trim(w)])
  {
    hide Trim;
    var raw := map[k := v, l := w];
    assert k in raw && l in raw && raw[k] == v && raw[l] == w;
    assert Trim(k) in map[Trim(k) := Trim(v)];
  }

  /** The labels {"a": "1", " a": "2"} are of that kind. */
  lemma AmbiguousLabels()
    ensures Trim("a") == Trim(" a") && Trim("1") != Trim("2") && !Unambiguous(map["a" := "1", " a" := "2"])
  {
    TrimTidy("a");
    TrimTidy("1");
    TrimTidy("2");
    assert " a"[1..] == "a";
    assert "1"[0] != "2"[0] && |"a"| != |" a"|;
    ClashingKeys("a", " a", "1", "2");
    hide Trim, Unambiguous;
  }

  /** Does a create request describe the stored job? `labels` are its encoded labels. */
  predicate SameCreatePayload(j: Job, input: CreateInput, labels: map<string, string>) {
    && j.driveId == input.driveId && j.bindingId == input.bindingId
    && j.mode == (if input.mode == "" then "mount" else input.mode)
    && j.command == input.command
    && Trim(j.regionHint) == Trim(input.regionHint)
    && j.connectorId == Trim(input.connectorId)
    && j.priority == Clamp(input.priority)
    && j.timeoutSec == AtLeastZero(input.timeoutSec)
    && j.maxAttempts == AtLeastZero(input.maxAttempts)
    && (if j.labels == map[] && labels == map[] then true
        else if j.labels == map[] || labels == map[] then false
        else MapsEqual(j.labels, labels))
  }

  /** What the replay test compares, field by field; the labels as sets of trimmed pairs in which
      an empty value and a missing key are one. */
  lemma SamePayloadLaw(j: Job, input: CreateInput, labels: map<string, string>)
    ensures SameCreatePayload(j, input, labels) <==>
      && j.driveId == input.driveId && j.bindingId == input.bindingId && j.command == input.command
      && j.mode == (if input.mode == "" then "mount" else input.mode)
      && Trim(j.regionHint) == Trim(input.regionHint) && j.connectorId == Trim(input.connectorId)
      && j.priority == (if input.priority > 1000 then 1000 else if input.priority < -1000 then -1000 else input.priority)
      && j.timeoutSec == (if input.timeoutSec < 0 then 0 else input.timeoutSec)
      && j.maxAttempts == (if input.maxAttempts < 0 then 0 else input.maxAttempts)
      && |j.labels| == |labels| && forall k <- j.labels :: (if k in labels then labels[k] else "") == j.labels[k]
  {
  }

  /** The part of a request that identifies the work asked for. */
  datatype Work = Work(driveId: string, bindingId: string, mode: string, command: seq<string>,
                       region: string, connectorId: string, priority: int,
                       timeoutSec: nat, maxAttempts: nat, labels: map<string, string>)

  function WorkOf(input: CreateInput, labels: map<string, string>): Work {
    Work(input.driveId, input.bindingId, if input.mode == "" then "mount" else input.mode,
         input.command, Trim(input.regionHint), Trim(input.connectorId), Clamp(input.priority),
         AtLeastZero(input.timeoutSec), AtLeastZero(input.maxAttempts), labels)
  }

  lemma SameWork(j: Job, id: string, e: Event, input: CreateInput, labels: map<string, string>)
    requires e.Create? && SamePayload(NewJob(id, e.user, e.input, e.labels, e.at), j)
    ensures SameCreatePayload(j, input, labels)
            <==> WorkOf(e.input, map[]) == WorkOf(input, map[])
                 && (e.labels == labels || (e.labels != map[] && labels != map[] && MapsEqual(e.labels, labels)))
  {
  }

  /** What a job was created with is what it still carries. */
  lemma {:induction false} CreatedBy(cfg: Config, r: Run, n: nat, id: string) returns (c: nat)
    requires Legal(cfg, r) && n < |r.states| && id in r.states[n].jobs
    ensures c < n && r.events[c].Create? && r.events[c].id == id
    ensures var e := r.events[c]; SamePayload(NewJob(id, e.user, e.input, e.labels, e.at), r.states[n].jobs[id])
  {
    hide Apply, Enabled, NewJob;
    var s := r.states[n - 1];
    if id in s.jobs {
      c := CreatedBy(cfg, r, n - 1, id);
      JobMove(cfg, r, n - 1, id);
    } else {
      Reachable(cfg, r, n - 1);
      assert Step(cfg, r, n - 1);
      IssuedStep(cfg, s, r.events[n - 1], id);
      c := n - 1;
      Reachable(cfg, r, n);
      assert JobOk(r.states[n], id);
      CreatedId(cfg, s, r.events[c], id);
    }
  }

  lemma CreatedId(cfg: Config, s: State, e: Event, id: string)
    requires Enabled(cfg, s, e) && e.Create? && id !in s.jobs && id in Apply(cfg, s, e).jobs
    ensures e.id == id
  {
  }

  /** Does the replay test on job `j`, created by `e`, accept exactly the requests for the same
      work, whatever legal labels they carry? */
  ghost predicate DecidesWork(j: Job, e: Event)
    requires e.Create?
  {
    forall input, labels :: LegalLabels(labels) ==>
      (SameCreatePayload(j, input, labels) <==> WorkOf(e.input, e.labels) == WorkOf(input, labels))
  }

  /** In every run a stored (user, key) names one job, and a later request with that key is
      taken for a replay exactly when it asks for the work the job was created for, for all
      requests, if and only if no label of the job is empty. */
  lemma ReplayDecision(cfg: Config, r: Run, n: nat, id: string) returns (c: nat)
    requires Legal(cfg, r) && n < |r.states| && id in r.states[n].jobs && r.states[n].jobs[id].idempotencyKey != ""
    ensures c < n && r.events[c].Create? && r.events[c].id == id
    ensures DecidesWork(r.states[n].jobs[id], r.events[c]) <==> NoEmptyValue(r.states[n].jobs[id].labels)
    ensures var j := r.states[n].jobs[id];
            forall k <- r.states[n].jobs :: SameKey(r.states[n].jobs[k], j.userId, j.idempotencyKey) ==> k == id
  {
    Reachable(cfg, r, n);
    c := CreatedBy(cfg, r, n, id);
    assert Step(cfg, r, c);
    DecidesExactly(cfg, r.states[c], r.events[c], r.states[n].jobs[id]);
  }

  lemma DecidesExactly(cfg: Config, s: State, e: Event, j: Job)
    requires e.Create? && Enabled(cfg, s, e) && SamePayload(NewJob(e.id, e.user, e.input, e.labels, e.at), j)
    ensures DecidesWork(j, e) <==> NoEmptyValue(j.labels)
  {
    assert j.labels == e.labels && LegalLabels(e.labels);
    hide Enabled, LegalLabels, SameCreatePayload, SamePayload, NewJob;
    if NoEmptyValue(e.labels) {
      forall input, labels ensures SameCreatePayload(j, input, labels) <==> WorkOf(e.input, e.labels) == WorkOf(input, labels) {
        SameWork(j, e.id, e, input, labels);
        MapsEqualOnFullLabels(e.labels, labels);
      }
    } else {
      var b := Confusable(e.labels);
      SameWork(j, e.id, e, e.input, b);
      assert SameCreatePayload(j, e.input, b) && WorkOf(e.input, e.labels) != WorkOf(e.input, b);
    }
  }

  /** Job `id` was created in this run by exactly this request, key included. */
  ghost predicate RequestOf(r: Run, id: string, user: string, input: CreateInput) {
    Trim(input.idempotencyKey) != "" &&
    exists c :: 0 <= c < |r.events| && r.events[c].Create? && r.events[c].id == id
                && r.events[c].user == user && r.events[c].input == input
  }

  /** The same request sent again while its job is stored: whatever encoding its labels get, it
      is taken for a replay, if and only if the labels are unambiguous. */
  lemma RepeatedRequest(cfg: Config, r: Run, n: nat, id: string, user: string, input: CreateInput)
    requires Legal(cfg, r) && n < |r.states| && n == |r.events| && id in r.states[n].jobs && RequestOf(r, id, user, input)
    ensures SameKey(r.states[n].jobs[id], user, Trim(input.idempotencyKey))
    ensures (forall labels :: Encodes(input.labels, labels) ==> SameCreatePayload(r.states[n].jobs[id], input, labels))
            <==> Unambiguous(input.labels)
  {
    var j := r.states[n].jobs[id];
    var c := CreatedBy(cfg, r, n, id);
    var d :| 0 <= d < |r.events| && r.events[d].Create? && r.events[d].id == id
             && r.events[d].user == user && r.events[d].input == input;
    CreatedOnce(cfg, r, c, d);
    assert Step(cfg, r, c);
    var e := r.events[c];
    assert Encodes(input.labels, e.labels);
    hide Enabled, Apply, Encodes, Unambiguous, SameCreatePayload;
    forall labels ensures SameCreatePayload(j, input, labels) <==>
      e.labels == labels || (e.labels != map[] && labels != map[] && MapsEqual(e.labels, labels))
    {
      SameWork(j, id, e, input, labels);
    }
    if Unambiguous(input.labels) {
      forall labels | Encodes(input.labels, labels) ensures SameCreatePayload(j, input, labels) {
        EncodesOnce(input.labels, e.labels, labels);
      }
    } else {
      var b := EncodesOtherwise(input.labels, e.labels);
      assert Encodes(input.labels, b) && !SameCreatePayload(j, input, b);
    }
  }

  /** No id is created twice in a run. */
  lemma CreatedOnce(cfg: Config, r: Run, c: nat, d: nat)
    requires Legal(cfg, r) && c < |r.events| && d < |r.events| && r.events[c].Create? && r.events[d].Create?
    requires r.events[c].id == r.events[d].id
    ensures c == d
  {
    hide Encodes, LegalLabels, NewJob;
    if c != d {
      var m, k := if c < d then c else d, if c < d then d else c;
      assert Step(cfg, r, m) && Step(cfg, r, k);
      StaysIssued(cfg, r, m + 1, k, r.events[m].id);
    }
  }
}
