/** The lockout that counts consecutive failures of a key within a window. Times are
    nanoseconds on one clock. */
module AuthLimit {

  datatype Entry = Entry(count: nat, first: int)

  type Failures = map<string, Entry>

  /** What NewFailureTracker guarantees: maxFail >= 1 and window > 0. */
  datatype Params = Params(maxFail: nat, window: int) {
    predicate Valid() { maxFail >= 1 && window > 0 }
  }

  datatype Event =
    | Check(key: string, at: int)
    | Fail(key: string, at: int)
    | Clear(key: string, at: int)

  predicate Expired(p: Params, e: Entry, now: int) { now - e.first > p.window }

  /** Is a key locked out at `now`? */
  predicate LockedOut(p: Params, fs: Failures, key: string, now: int) {
    key in fs && !Expired(p, fs[key], now) && fs[key].count >= p.maxFail
  }

  function Next(p: Params, fs: Failures, e: Event): Failures {
    match e
    case Check(k, now) => if k in fs && Expired(p, fs[k], now) then fs - {k} else fs
    case Fail(k, now) =>
      if k !in fs || Expired(p, fs[k], now) then fs[k := Entry(1, now)]
      else fs[k := fs[k].(count := fs[k].count + 1)]
    case Clear(k, _) => fs - {k}
  }

  /** What recording a failure answers: the failure that opens an entry always answers no. */
  predicate FailAnswer(p: Params, fs: Failures, key: string, now: int) {
    && key in fs && !Expired(p, fs[key], now)
    && fs[key].count + 1 >= p.maxFail
  }

  predicate Positive(fs: Failures) { forall k <- fs :: fs[k].count >= 1 }

  /** Does recording a failure, on any table a run can hold, report whether the key is locked out? */
  ghost predicate ReportsLocks(p: Params) {
    forall fs, key, now :: Positive(fs) ==>
      (FailAnswer(p, fs, key, now) <==> LockedOut(p, Next(p, fs, Fail(key, now)), key, now))
  }

  class FailureTracker {
    const p: Params
    var failures: Failures

    constructor (maxFail: int, window: int)
      ensures p.Valid() && failures == map[]
      ensures p.maxFail == if maxFail <= 0 then 8 else maxFail
      ensures p.window == if window <= 0 then 900_000_000_000 else window
    {
      p := Params(if maxFail <= 0 then 8 else maxFail, if window <= 0 then 900_000_000_000 else window);
      failures := map[];
    }

    method Locked(key: string, now: int) returns (locked: bool)
      modifies this
      ensures locked == LockedOut(p, old(failures), key, now)
      ensures locked <==> key in old(failures) && now - old(failures)[key].first <= p.window
                          && old(failures)[key].count >= p.maxFail
      ensures failures == if key in old(failures) && now - old(failures)[key].first > p.window then old(failures) - {key}
                          else old(failures)
      ensures failures == Next(p, old(failures), Check(key, now))
    {
      if key !in failures {
        return false;
      }
      var e := failures[key];
      if now - e.first > p.window {
        failures := failures - {key};
        return false;
      }
      locked := e.count >= p.maxFail;
    }

    method RecordFailure(key: string, now: int) returns (locked: bool)
      modifies this
      ensures failures == if key !in old(failures) || now - old(failures)[key].first > p.window
                          then old(failures)[key := Entry(1, now)]
                          else old(failures)[key := Entry(old(failures)[key].count + 1, old(failures)[key].first)]
      ensures locked <==> key in old(failures) && now - old(failures)[key].first <= p.window
                          && old(failures)[key].count + 1 >= p.maxFail
      ensures failures == Next(p, old(failures), Fail(key, now))
      ensures locked == FailAnswer(p, old(failures), key, now)
    {
      if key !in failures || now - failures[key].first > p.window {
        failures := failures[key := Entry(1, now)];
        return false;
      }
      var e := failures[key];
      e := e.(count := e.count + 1);
      failures := failures[key := e];
      locked := e.count >= p.maxFail;
    }

    method Forget(key: string, now: int)
      modifies this
      ensures failures == Next(p, old(failures), Clear(key, now))
      ensures failures == old(failures) - {key}
    {
      failures := failures - {key};
    }
  }

  /** The answer tells whether the key is now locked out, on all tables, keys and instants, if
      and only if more than one failure is allowed. */
  lemma FailReportsExactly(p: Params)
    requires p.Valid()
    ensures ReportsLocks(p) <==> p.maxFail > 1
  {
    if p.maxFail == 1 {
      FirstFailureUnreported(p.window, "k", 0);
      assert Positive(map[]);
    }
  }

  /** With a maximum of one, the first failure of a key locks it out and answers no. */
  lemma FirstFailureUnreported(window: int, key: string, now: int)
    requires window > 0
    ensures var p := Params(1, window);
            LockedOut(p, Next(p, map[], Fail(key, now)), key, now) && !FailAnswer(p, map[], key, now)
  {
  }

  // ---- Runs ----

  function After(p: Params, run: seq<Event>): Failures {
    if run == [] then map[] else Next(p, After(p, run[..|run| - 1]), run[|run| - 1])
  }

  /** Every table a run can hold is of the kind the answer is judged on. */
  lemma {:induction false} RunsPositive(p: Params, run: seq<Event>)
    ensures Positive(After(p, run))
  {
    if run != [] { RunsPositive(p, run[..|run| - 1]); }
  }

  predicate Ordered(run: seq<Event>) {
    forall i, k :: 0 <= i <= k < |run| ==> run[i].at <= run[k].at
  }

  /** The last event about `key` is a check that found it not locked out. */
  predicate Admitted(p: Params, run: seq<Event>, key: string) {
    run != [] &&
    var before, e := run[..|run| - 1], run[|run| - 1];
    if e.key == key then e.Check? && !LockedOut(p, After(p, before), key, e.at) else Admitted(p, before, key)
  }

  /** The login handler: a failure of `key` is recorded only right after such a check. Checks
      may also stand alone, and other keys do as they like. */
  predicate Guarded(p: Params, run: seq<Event>, key: string) {
    run == [] ||
    var before, e := run[..|run| - 1], run[|run| - 1];
    Guarded(p, before, key) && (e.Fail? && e.key == key ==> Admitted(p, before, key))
  }

  predicate NotClearedIn(run: seq<Event>, key: string, s: int, t: int) {
    forall e <- run :: e.Clear? && e.key == key ==> e.at < s || t < e.at
  }

  function FailuresIn(run: seq<Event>, key: string, s: int, t: int): nat {
    if run == [] then 0
    else
      var e := run[|run| - 1];
      FailuresIn(run[..|run| - 1], key, s, t) + if e.Fail? && e.key == key && s <= e.at <= t then 1 else 0
  }

  /** Where the count stands against the entry, for the window that opens at `s`. A full
      count can come from an entry opened before `s`, and one more from an entry opened in it. */
  predicate Counted(p: Params, fs: Failures, key: string, count: nat, s: int, now: int) {
    && (key in fs ==> 1 <= fs[key].count <= p.maxFail && fs[key].first <= now)
    && (if now > s + p.window then count <= 2 * p.maxFail - 1
        else if key !in fs then count <= p.maxFail - 1
        else if fs[key].first < s then count <= fs[key].count - 1
        else count <= p.maxFail - 1 + fs[key].count)
    && (now < s ==> count == 0)
  }

  lemma CountedStep(p: Params, fs: Failures, key: string, count: nat, s: int, now: int, e: Event)
    requires p.Valid() && Counted(p, fs, key, count, s, now) && now <= e.at
    requires e.Fail? && e.key == key && key in fs ==> fs[key].count < p.maxFail
    requires e.Clear? && e.key == key ==> e.at < s || s + p.window < e.at
    ensures Counted(p, Next(p, fs, e), key,
                    count + (if e.Fail? && e.key == key && s <= e.at <= s + p.window then 1 else 0), s, e.at)
  {
  }

  lemma {:induction false} CountedRun(p: Params, run: seq<Event>, key: string, s: int)
    requires p.Valid() && Ordered(run) && Guarded(p, run, key) && NotClearedIn(run, key, s, s + p.window)
    ensures run != [] ==>
      Counted(p, After(p, run), key, FailuresIn(run, key, s, s + p.window), s, run[|run| - 1].at)
    ensures Admitted(p, run, key) && key in After(p, run) ==> After(p, run)[key].count < p.maxFail
  {
    if run != [] {
      var before, e := run[..|run| - 1], run[|run| - 1];
      CountedRun(p, before, key, s);
      if before == [] {
        assert After(p, before) == map[] && FailuresIn(before, key, s, s + p.window) == 0;
        CountedStep(p, map[], key, 0, s, e.at, e);
      } else {
        CountedStep(p, After(p, before), key, FailuresIn(before, key, s, s + p.window), s,
                    before[|before| - 1].at, e);
      }
    }
  }

  /** At most 2 * maxFail - 1 failures of one key in any closed interval as long as the window
      in which it is not cleared. */
  lemma FailureBound(p: Params, run: seq<Event>, key: string, s: int)
    requires p.Valid() && Ordered(run) && Guarded(p, run, key) && NotClearedIn(run, key, s, s + p.window)
    ensures FailuresIn(run, key, s, s + p.window) <= 2 * p.maxFail - 1
  {
    CountedRun(p, run, key, s);
  }

  // ---- The bound is reached ----

  /** The run extended by `n` failed logins at one instant. */
  function Logins(run: seq<Event>, key: string, at: int, n: nat): seq<Event> {
    if n == 0 then run else Logins(run, key, at, n - 1) + [Check(key, at), Fail(key, at)]
  }

  /** How long the open entry of `key` already is. */
  function Open(p: Params, run: seq<Event>, key: string, at: int): nat {
    var fs := After(p, run);
    if key in fs && !Expired(p, fs[key], at) then fs[key].count else 0
  }

  lemma OneLogin(p: Params, run: seq<Event>, key: string, at: int, s: int, t: int)
    requires p.Valid() && Guarded(p, run, key) && Open(p, run, key, at) < p.maxFail
    requires key in After(p, run) ==> After(p, run)[key].count > 0
    ensures var more := run + [Check(key, at), Fail(key, at)];
            && Guarded(p, more, key)
            && FailuresIn(more, key, s, t) == FailuresIn(run, key, s, t) + (if s <= at <= t then 1 else 0)
            && key in After(p, more)
            && After(p, more)[key] == Entry(Open(p, run, key, at) + 1,
                 if Open(p, run, key, at) > 0 then After(p, run)[key].first else at)
  {
    var check := run + [Check(key, at)];
    var more := run + [Check(key, at), Fail(key, at)];
    assert check[..|run|] == run && more[..|check|] == check;
    assert Admitted(p, check, key);
  }

  lemma OneMoreInOrder(run: seq<Event>, e: Event, key: string, s: int, t: int)
    requires Ordered(run) && NotClearedIn(run, key, s, t) && !e.Clear? && (run != [] ==> run[|run| - 1].at <= e.at)
    ensures Ordered(run + [e]) && NotClearedIn(run + [e], key, s, t)
  {
    var more := run + [e];
    forall i, k | 0 <= i <= k < |more| ensures more[i].at <= more[k].at {
      assert run != [] && i < |run| ==> run[i].at <= run[|run| - 1].at;
    }
  }

  lemma {:induction false} LoginsOrdered(run: seq<Event>, key: string, at: int, n: nat, s: int, t: int)
    requires Ordered(run) && NotClearedIn(run, key, s, t) && (run != [] ==> run[|run| - 1].at <= at)
    ensures var more := Logins(run, key, at, n);
            && Ordered(more) && NotClearedIn(more, key, s, t)
            && (more != [] ==> more[|more| - 1].at <= at) && (n > 0 ==> more != [])
  {
    if n > 0 {
      LoginsOrdered(run, key, at, n - 1, s, t);
      var less := Logins(run, key, at, n - 1);
      var c, f := Check(key, at), Fail(key, at);
      OneMoreInOrder(less, c, key, s, t);
      OneMoreInOrder(less + [c], f, key, s, t);
      assert less + [c] + [f] == less + [c, f];
      hide Ordered, NotClearedIn;
    }
  }

  lemma {:induction false} LoginsCounted(p: Params, run: seq<Event>, key: string, at: int, n: nat, s: int, t: int)
    requires p.Valid() && Guarded(p, run, key) && Open(p, run, key, at) + n <= p.maxFail
    requires key in After(p, run) ==> After(p, run)[key].count > 0
    ensures var more := Logins(run, key, at, n);
            && Guarded(p, more, key)
            && FailuresIn(more, key, s, t) == FailuresIn(run, key, s, t) + (if s <= at <= t then n else 0)
            && Open(p, more, key, at) == Open(p, run, key, at) + n
    ensures var fs := After(p, Logins(run, key, at, n));
            var first := if Open(p, run, key, at) > 0 then After(p, run)[key].first else at;
            n > 0 ==> key in fs && fs[key] == Entry(Open(p, run, key, at) + n, first)
  {
    if n > 0 {
      LoginsCounted(p, run, key, at, n - 1, s, t);
      OneLogin(p, Logins(run, key, at, n - 1), key, at, s, t);
    }
  }

  /** After this run, which ends by `at`, the key has this entry and this many failures in [s, t]. */
  ghost predicate Stands(p: Params, run: seq<Event>, key: string, at: int, entry: Entry, count: nat, s: int, t: int) {
    && Ordered(run) && Guarded(p, run, key) && NotClearedIn(run, key, s, t)
    && (run != [] ==> run[|run| - 1].at <= at) && entry.count > 0
    && FailuresIn(run, key, s, t) == count && key in After(p, run) && After(p, run)[key] == entry
  }

  lemma MoreLogins(p: Params, run: seq<Event>, key: string, was: int, at: int, n: nat, entry: Entry, count: nat, s: int, t: int)
    requires p.Valid() && Stands(p, run, key, was, entry, count, s, t) && was <= at && 0 < n
    requires (if Expired(p, entry, at) then 0 else entry.count) + n <= p.maxFail
    ensures Stands(p, Logins(run, key, at, n), key, at,
                   if Expired(p, entry, at) then Entry(n, at) else Entry(entry.count + n, entry.first),
                   count + (if s <= at <= t then n else 0), s, t)
  {
    hide Ordered, NotClearedIn, Guarded, Logins, FailuresIn, After;
    LoginsOrdered(run, key, at, n, s, t);
    LoginsCounted(p, run, key, at, n, s, t);
  }

  lemma FirstLogin(p: Params, key: string, s: int, t: int)
    requires p.Valid() && 0 < s <= t
    ensures Stands(p, Logins([], key, 0, 1), key, 0, Entry(1, 0), 0, s, t)
  {
    LoginsOrdered([], key, 0, 1, s, t);
    LoginsCounted(p, [], key, 0, 1, s, t);
    hide Ordered, NotClearedIn, Guarded, FailuresIn, After;
  }

  /** One login at 0, maxFail - 1 at the end of the window, maxFail just after it: the bound is
      reached for every setting. */
  lemma FailureBoundReached(p: Params, key: string) returns (run: seq<Event>)
    requires p.Valid()
    ensures Ordered(run) && Guarded(p, run, key) && NotClearedIn(run, key, 1, 1 + p.window)
    ensures FailuresIn(run, key, 1, 1 + p.window) == 2 * p.maxFail - 1
  {
    var s, t := 1, 1 + p.window;
    FirstLogin(p, key, s, t);
    run := Logins([], key, 0, 1);
    hide Ordered, NotClearedIn, Guarded, FailuresIn, After, Logins;
    if p.maxFail > 1 {
      MoreLogins(p, run, key, 0, p.window, p.maxFail - 1, Entry(1, 0), 0, s, t);
      run := Logins(run, key, p.window, p.maxFail - 1);
      MoreLogins(p, run, key, p.window, t, p.maxFail, Entry(p.maxFail, 0), p.maxFail - 1, s, t);
    } else {
      MoreLogins(p, run, key, 0, t, p.maxFail, Entry(1, 0), 0, s, t);
    }
    run := Logins(run, key, t, p.maxFail);
  }
}
