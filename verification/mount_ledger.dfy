/** The trail hubd leaves on the machine and at the control plane, and the discipline it keeps:
    which mounts are held, and which pulled work is still to be pushed back. */
module MountLedger {

  /** A pull or push copies between a remote path and a local directory. */
  datatype Place = Place(remotePath: string, mountPoint: string)

  datatype Actual = Mounted | Unmounted | Broken

  /** `Acquired` is a started rclone process or a successful pull, under a serial number of its
      own; `Died` a process found dead while starting; `Stopped` the end of a stop. */
  datatype Effect =
    | Acquired(b: string, serial: nat)
    | Died(b: string, serial: nat)
    | Stopped(b: string, serial: nat)
    | Pulled(b: string, place: Place)
    | PullFailed(b: string)
    | Pushed(b: string, place: Place)
    | Barrier(b: string, drive: string)
    | Reported(b: string, actual: Actual)

  datatype Ledger = Ledger(held: map<string, nat>, owed: map<string, Place>, spent: set<nat>)

  const CLEAN := Ledger(map[], map[], {})

  function Post(l: Ledger, e: Effect): Ledger {
    match e
    case Acquired(b, h) => l.(held := l.held[b := h], spent := l.spent + {h})
    case Died(b, _) => l.(held := l.held - {b})
    case Stopped(b, _) => l.(held := l.held - {b})
    case Pulled(b, place) => if place.remotePath != "" then l.(owed := l.owed[b := place]) else l
    case Pushed(b, _) => l.(owed := l.owed - {b})
    case _ => l
  }

  /** When may an effect happen? A binding holds one mount at a time; a pull finds no work that
      was not pushed; a push puts back what was pulled, where it came from; a mount is let go
      after that, once; and what is reported is so. */
  predicate Fits(l: Ledger, e: Effect) {
    match e
    case Acquired(b, h) => b !in l.held && h !in l.spent
    case Died(b, h) => b in l.held && l.held[b] == h && b !in l.owed
    case Stopped(b, h) => b in l.held && l.held[b] == h && b !in l.owed
    case Pulled(b, _) => b !in l.owed && b !in l.held
    case PullFailed(b) => b !in l.owed && b !in l.held
    case Pushed(b, place) => b in l.owed && l.owed[b] == place
    case Barrier(b, _) => b !in l.held && b !in l.owed
    case Reported(b, actual) =>
      (actual.Mounted? ==> b in l.held) && (actual.Unmounted? ==> b !in l.held && b !in l.owed)
  }

  function Tally(log: seq<Effect>): Ledger {
    if log == [] then CLEAN else Post(Tally(log[..|log| - 1]), log[|log| - 1])
  }

  predicate Disciplined(log: seq<Effect>) {
    log == [] || (Disciplined(log[..|log| - 1]) && Fits(Tally(log[..|log| - 1]), log[|log| - 1]))
  }

  lemma OneMore(log: seq<Effect>, e: Effect)
    ensures Tally(log + [e]) == Post(Tally(log), e)
    ensures Disciplined(log + [e]) <==> Disciplined(log) && Fits(Tally(log), e)
  {
    assert (log + [e])[..|log|] == log;
  }

  // ---- What discipline means for whole trails ----

  predicate Releases(e: Effect, h: nat) { (e.Died? || e.Stopped?) && e.serial == h }

  function AcquiredCount(log: seq<Effect>, h: nat): nat {
    if log == [] then 0
    else AcquiredCount(log[..|log| - 1], h) + if log[|log| - 1].Acquired? && log[|log| - 1].serial == h then 1 else 0
  }

  function ReleasedCount(log: seq<Effect>, h: nat): nat {
    if log == [] then 0
    else ReleasedCount(log[..|log| - 1], h) + if Releases(log[|log| - 1], h) then 1 else 0
  }

  predicate Holds(l: Ledger, h: nat) { exists b <- l.held :: l.held[b] == h }

  ghost predicate Orderly(l: Ledger) {
    && (forall b <- l.held :: l.held[b] in l.spent)
    && forall a, b | a in l.held && b in l.held && l.held[a] == l.held[b] :: a == b
  }

  lemma {:induction false} AlwaysOrderly(log: seq<Effect>)
    requires Disciplined(log)
    ensures Orderly(Tally(log))
  {
    if log != [] { AlwaysOrderly(log[..|log| - 1]); }
  }

  /** Every mount acquired is held now or was released exactly once, and none is held twice. */
  lemma {:induction false} HandleConservation(log: seq<Effect>, h: nat)
    requires Disciplined(log)
    ensures AcquiredCount(log, h) == if h in Tally(log).spent then 1 else 0
    ensures AcquiredCount(log, h) == ReleasedCount(log, h) + if Holds(Tally(log), h) then 1 else 0
  {
    if log != [] {
      var before, e := log[..|log| - 1], log[|log| - 1];
      HandleConservation(before, h);
      AlwaysOrderly(before);
      HoldsStep(Tally(before), e, h);
    }
  }

  lemma HoldsStep(l: Ledger, e: Effect, h: nat)
    requires Orderly(l) && Fits(l, e)
    ensures Holds(Post(l, e), h) <==>
              (e.Acquired? && e.serial == h) || (Holds(l, h) && !Releases(e, h))
    ensures Releases(e, h) ==> Holds(l, h)
    ensures e.Acquired? && e.serial == h ==> !Holds(l, h)
  {
    var m := Post(l, e);
    if Holds(l, h) {
      var b :| b in l.held && l.held[b] == h;
      if !Releases(e, h) { assert b in m.held && m.held[b] == h; }
    }
    if e.Acquired? { assert e.b in m.held; }
  }

  predicate PullsWork(e: Effect, b: string) { e.Pulled? && e.b == b && e.place.remotePath != "" }

  predicate Pushes(e: Effect, b: string) { e.Pushed? && e.b == b }

  function PullCount(log: seq<Effect>, b: string): nat {
    if log == [] then 0 else PullCount(log[..|log| - 1], b) + if PullsWork(log[|log| - 1], b) then 1 else 0
  }

  function PushCount(log: seq<Effect>, b: string): nat {
    if log == [] then 0 else PushCount(log[..|log| - 1], b) + if Pushes(log[|log| - 1], b) then 1 else 0
  }

  /** Pulls and pushes of a binding stay level: one pull more than pushes while work is owed. */
  lemma {:induction false} PullsMinusPushes(log: seq<Effect>, b: string)
    requires Disciplined(log)
    ensures PullCount(log, b) == PushCount(log, b) + if b in Tally(log).owed then 1 else 0
  {
    if log != [] { PullsMinusPushes(log[..|log| - 1], b); }
  }

  lemma {:induction false} PrefixDisciplined(log: seq<Effect>, n: nat)
    requires Disciplined(log) && n <= |log|
    ensures Disciplined(log[..n])
    ensures n < |log| ==> Fits(Tally(log[..n]), log[n])
  {
    if n < |log| {
      PrefixDisciplined(log[..|log| - 1], n);
      assert log[..|log| - 1][..n] == log[..n];
    } else {
      assert log[..n] == log;
    }
  }

  /** Owed work was pulled some time ago and not pushed since. */
  lemma {:induction false} OwedUntilPushed(log: seq<Effect>, i: nat, n: nat, b: string)
    requires Disciplined(log) && i < n <= |log| && PullsWork(log[i], b)
    ensures (b in Tally(log[..n]).owed && Tally(log[..n]).owed[b] == log[i].place)
            || exists j :: i < j < n && log[j] == Pushed(b, log[i].place)
  {
    assert log[..n][..n - 1] == log[..n - 1];
    PrefixDisciplined(log, n - 1);
    if i + 1 < n { OwedUntilPushed(log, i, n - 1, b); }
  }

  /** Between a pull and any later attempt to pull for the same binding, the work was pushed
      back to where it came from. */
  lemma PushBeforeNextPull(log: seq<Effect>, i: nat, k: nat, b: string)
    requires Disciplined(log) && i < k < |log| && PullsWork(log[i], b)
    requires log[k] == PullFailed(b) || (log[k].Pulled? && log[k].b == b)
    ensures exists j :: i < j < k && log[j] == Pushed(b, log[i].place)
  {
    PrefixDisciplined(log, k);
    OwedUntilPushed(log, i, k, b);
  }

  lemma {:induction false} NothingOwedUntilPull(log: seq<Effect>, i: nat, n: nat, b: string)
    requires Disciplined(log) && i < n <= |log| && Pushes(log[i], b)
    ensures b !in Tally(log[..n]).owed || exists j :: i < j < n && PullsWork(log[j], b)
  {
    assert log[..n][..n - 1] == log[..n - 1];
    if i + 1 < n { NothingOwedUntilPull(log, i, n - 1, b); }
  }

  /** Between two pushes for a binding there is a pull. */
  lemma PullBeforeNextPush(log: seq<Effect>, i: nat, k: nat, b: string)
    requires Disciplined(log) && i < k < |log| && Pushes(log[i], b) && Pushes(log[k], b)
    ensures exists j :: i < j < k && PullsWork(log[j], b)
  {
    PrefixDisciplined(log, k);
    NothingOwedUntilPull(log, i, k, b);
  }

  /** A binding is reported mounted only while a mount of it is held, and reported unmounted, or
      its drive put behind a barrier, only when none is held and no work is owed. */
  lemma TruthfulReports(log: seq<Effect>, i: nat)
    requires Disciplined(log) && i < |log|
    ensures log[i].Reported? && log[i].actual == Mounted ==> log[i].b in Tally(log[..i]).held
    ensures (log[i].Reported? && log[i].actual == Unmounted) || log[i].Barrier? ==>
              log[i].b !in Tally(log[..i]).held && log[i].b !in Tally(log[..i]).owed
  {
    PrefixDisciplined(log, i);
  }

  // ---- Pulls from an empty remote path ----

  lemma {:induction false} OwedHasPath(log: seq<Effect>)
    requires Disciplined(log)
    ensures forall b <- Tally(log).owed :: Tally(log).owed[b].remotePath != ""
  {
    if log != [] { OwedHasPath(log[..|log| - 1]); }
  }

  /** Nothing is ever pushed to an empty remote path. */
  lemma EmptyPathNeverPushed(log: seq<Effect>, j: nat)
    requires Disciplined(log) && j < |log| && log[j].Pushed?
    ensures log[j].place.remotePath != ""
  {
    PrefixDisciplined(log, j);
    OwedHasPath(log[..j]);
  }

  /** Between a pull and any later attempt to pull for the same binding, what was pulled is pushed
      back if and only if the remote path is not empty. */
  lemma PulledIsPushedExactly(log: seq<Effect>, i: nat, k: nat, b: string)
    requires Disciplined(log) && i < k < |log| && log[i].Pulled? && log[i].b == b
    requires log[k] == PullFailed(b) || (log[k].Pulled? && log[k].b == b)
    ensures (exists j :: i < j < k && log[j] == Pushed(b, log[i].place)) <==> log[i].place.remotePath != ""
  {
    if log[i].place.remotePath != "" { PushBeforeNextPull(log, i, k, b); }
    if j :| i < j < k && log[j] == Pushed(b, log[i].place) { EmptyPathNeverPushed(log, j); }
  }

  /** A workspace pulled from an empty remote path: the trail is in order and its books are
      closed, and the work was never pushed. */
  lemma EmptyPathTrail(b: string, mountPoint: string, h: nat)
    ensures var log := [Pulled(b, Place("", mountPoint)), Acquired(b, h), Stopped(b, h)];
            && Disciplined(log) && Tally(log).held == map[] && Tally(log).owed == map[]
            && forall j :: 0 <= j < |log| ==> !Pushes(log[j], b)
  {
    var pulled := Pulled(b, Place("", mountPoint));
    OneMore([], pulled);
    OneMore([pulled], Acquired(b, h));
    OneMore([pulled, Acquired(b, h)], Stopped(b, h));
    assert [] + [pulled] == [pulled];
    assert [pulled] + [Acquired(b, h)] == [pulled, Acquired(b, h)];
    assert [pulled, Acquired(b, h)] + [Stopped(b, h)] == [pulled, Acquired(b, h), Stopped(b, h)];
  }

  /** With the books closed, every mount acquired was released once and all work pushed back. */
  lemma ClosedBooks(log: seq<Effect>)
    requires Disciplined(log) && Tally(log).held == map[] && Tally(log).owed == map[]
    ensures forall h :: ReleasedCount(log, h) == AcquiredCount(log, h) <= 1
    ensures forall i, b :: 0 <= i < |log| && log[i].Pulled? && log[i].b == b ==>
              (log[i].place.remotePath != "" <==> exists j :: i < j < |log| && log[j] == Pushed(b, log[i].place))
  {
    forall h ensures ReleasedCount(log, h) == AcquiredCount(log, h) <= 1 { HandleConservation(log, h); }
    forall i, b | 0 <= i < |log| && log[i].Pulled? && log[i].b == b
      ensures log[i].place.remotePath != "" <==> exists j :: i < j < |log| && log[j] == Pushed(b, log[i].place)
    {
      assert log[..|log|] == log;
      if log[i].place.remotePath != "" { OwedUntilPushed(log, i, |log|, b); }
      if j :| i < j < |log| && log[j] == Pushed(b, log[i].place) { EmptyPathNeverPushed(log, j); }
    }
  }
}
