/** The hubd controller: it drives a map of live mounts towards the bindings the control plane
    wants, while calls to the outside may fail in any way. */
module Hubd {
  import opened Text
  import opened MountLedger
  import opened HubdPass

  /** The books list exactly these mounts, and owe exactly the work of those that sync. */
  ghost predicate Agrees(l: Ledger, live: map<string, MountProc>, next: nat) {
    && l.held.Keys == live.Keys && (forall b <- live :: l.held[b] == live[b].serial < next && live[b].Ready())
    && (forall b <- l.owed :: b in live && live[b].Syncs() && l.owed[b] == live[b].Source())
    && (forall b <- live :: live[b].Syncs() ==> b in l.owed)
    && (forall h <- l.spent :: h < next)
  }

  lemma PullAgrees(l: Ledger, live: map<string, MountProc>, next: nat, id: string, mp: MountProc)
    requires Agrees(l, live, next) && id !in live && mp.Ready() && mp.serial == next && mp.mode == "sync_workspace"
    ensures Fits(l, Pulled(id, mp.Source()))
    ensures var m := Post(l, Pulled(id, mp.Source()));
            Fits(m, Acquired(id, next)) && Agrees(Post(m, Acquired(id, next)), live[id := mp], next + 1)
  {
  }

  lemma MountAgrees(l: Ledger, live: map<string, MountProc>, next: nat, id: string, mp: MountProc)
    requires Agrees(l, live, next) && id !in live && mp.Ready() && mp.serial == next && mp.mode != "sync_workspace"
    ensures Fits(l, Acquired(id, next)) && Agrees(Post(l, Acquired(id, next)), live[id := mp], next + 1)
  {
  }

  lemma PushAgrees(l: Ledger, live: map<string, MountProc>, next: nat, id: string)
    requires Agrees(l, live, next) && id in live
    ensures live[id].Syncs() <==> Fits(l, Pushed(id, live[id].Source()))
    ensures var m := if live[id].Syncs() then Post(l, Pushed(id, live[id].Source())) else l;
            && Fits(m, Stopped(id, live[id].serial)) && Fits(m, Died(id, live[id].serial))
            && Agrees(Post(m, Stopped(id, live[id].serial)), live - {id}, next)
  {
  }

  lemma NothingHeld(l: Ledger, live: map<string, MountProc>, next: nat)
    requires Agrees(l, live, next) && live.Keys == {}
    ensures l.held == map[] && l.owed == map[]
  {
  }

  lemma DeadIsStopped(l: Ledger, id: string, serial: nat)
    ensures Post(l, Died(id, serial)) == Post(l, Stopped(id, serial))
  {
  }

  lemma PostBarrierKeeps(l: Ledger, id: string, drive: string)
    ensures Post(l, Barrier(id, drive)) == l
  {
  }

  lemma ReportAgrees(l: Ledger, live: map<string, MountProc>, next: nat, id: string)
    requires Agrees(l, live, next)
    ensures id in live ==> Fits(l, Reported(id, Mounted))
    ensures id !in live ==> Fits(l, Reported(id, Unmounted)) && Fits(l, PullFailed(id))
    ensures id !in live ==> forall drive :: Fits(l, Barrier(id, drive))
  {
  }

  /** The books do not record the session or the request of a mount. */
  lemma EditAgrees(l: Ledger, live: map<string, MountProc>, next: nat, id: string, was: MountProc, now: MountProc)
    requires Agrees(l, live[id := was], next)
    requires now == was.(driveId := now.driveId, bindingMode := now.bindingMode, expiresAt := now.expiresAt,
                         sessionToken := now.sessionToken)
    ensures Agrees(l, live[id := now], next)
  {
  }

  lemma ServesAsAsked(h: MountProc, b: Binding)
    requires Trim(b.mode) == "" || h.mode == Trim(b.mode)
    ensures Serves(h, b)
  {
  }

  lemma ModeIsTrim(bindingMode: string, s: Session)
    ensures Trim(ResolveMode(bindingMode, s)) == ResolveMode(bindingMode, s) != ""
  {
    TrimIdempotent(bindingMode);
    TrimIdempotent(s.mode);
    TrimIdempotent(s.envMode);
    TrimTidy("mount");
    hide Trim;
  }

  lemma StillServes(h: MountProc, b: Binding)
    requires Faithful(h)
    ensures Trim(b.mode) == "" || Trim(b.mode) == h.bindingMode || Trim(b.mode) == h.mode ==> Serves(h, b)
  {
  }

  lemma SerialsBelow(l: Ledger, live: map<string, MountProc>, next: nat)
    requires Agrees(l, live, next)
    ensures forall b <- live :: live[b].serial < next
  {
  }

  class Controller {
    const stateDir: string
    const host: Host
    var active: map<string, MountProc>
    ghost var log: seq<Effect>
    ghost var books: Ledger
    /** Numbers the mounts in the order in which they were made. */
    var next: nat

    /** Is the trail in order, and do its books agree with this map of mounts? */
    ghost predicate Match(live: map<string, MountProc>) reads this`log, this`books, this`next {
      Disciplined(log) && books == Tally(log) && Agrees(books, live, next)
    }

    ghost predicate Valid() reads this { Match(active) && forall b <- active :: Faithful(active[b]) }

    lemma EditMatches(live: map<string, MountProc>, id: string, was: MountProc, now: MountProc)
      requires Match(live[id := was])
      requires now == was.(driveId := now.driveId, bindingMode := now.bindingMode, expiresAt := now.expiresAt,
                           sessionToken := now.sessionToken)
      ensures Match(live[id := now])
    {
      EditAgrees(books, live, next, id, was, now);
    }

    constructor (stateDir: string, host: Host)
      ensures Valid() && this.host == host && active == map[] && log == []
    {
      this.stateDir, this.host := stateDir, host;
      active, log, books, next := map[], [], CLEAN, 0;
    }

    ghost method Emit(e: Effect)
      requires Disciplined(log) && books == Tally(log) && Fits(books, e)
      modifies this`log, this`books
      ensures Disciplined(log) && books == Tally(log)
      ensures log == old(log) + [e] && books == Post(old(books), e)
    {
      OneMore(log, e);
      log, books := log + [e], Post(books, e);
    }

    /** Ends a mount: local work of a synced workspace is pushed before the process goes. */
    method StopMount(id: string, mp: MountProc, ghost live: map<string, MountProc>)
      requires Match(live) && id in live && live[id] == mp
      modifies this`log, this`books
      ensures Match(live - {id}) && old(log) < log && log[|log| - 1] == Stopped(id, mp.serial)
    {
      assert mp.Ready();
      PushAgrees(books, live, next, id);
      hide Agrees, Disciplined, Tally, Fits, Post;
      if mp.mode == "sync_workspace" && mp.confPath != "" && mp.remotePath != "" && mp.mountPoint != "" {
        Emit(Pushed(id, Place(mp.remotePath, mp.mountPoint)));
      }
      Emit(Stopped(id, mp.serial));
    }

    method Report(id: string, actual: Actual, ghost live: map<string, MountProc>)
      requires Match(live) && (actual.Mounted? ==> id in live) && (actual.Unmounted? ==> id !in live)
      modifies this`log, this`books
      ensures Match(live) && log == old(log) + [Reported(id, actual)]
    {
      ReportAgrees(books, live, next, id);
      hide Agrees, Disciplined, Tally;
      Emit(Reported(id, actual));
    }

    /** Repeats a report until the control plane takes it. */
    method ReportRetry(id: string, actual: Actual, attempts: nat, acks: seq<bool>, ghost live: map<string, MountProc>) returns (ok: bool)
      requires Match(live) && (actual.Mounted? ==> id in live) && (actual.Unmounted? ==> id !in live) && attempts > 0
      modifies this`log, this`books
      ensures Match(live) && old(log) + [Reported(id, actual)] <= log
      ensures ok <==> Acked(acks, attempts)
    {
      hide Match;
      for i := 0 to attempts
        invariant Match(live) && if i == 0 then log == old(log) else old(log) + [Reported(id, actual)] <= log
        invariant forall k :: 0 <= k < i && k < |acks| ==> !acks[k]
      {
        Report(id, actual, live);
        if i < |acks| && acks[i] { return true; }
      }
      ok := false;
    }

    /** Starts a mount or pulls a workspace. A process that dies while starting, or whose path
        never becomes reachable, is not handed back, and nothing of it remains. */
    method StartMount(id: string, s: Session, requested: string, l: Launch, ghost live: map<string, MountProc>)
      returns (r: Option<MountProc>)
      requires Match(live) && id !in live && Trim(requested) != ""
      modifies this`log, this`books, this`next
      ensures old(log) <= log && old(next) <= next && (r.None? ==> Match(live))
      ensures r.Some? <==> Launches(host, s, Trim(requested), l)
      ensures r.Some? ==> Match(live[id := r.value]) && r.value.serial >= old(next)
      ensures r.Some? ==> r.value.mode == Trim(requested) && r.value.remotePath == SpecOf(s).remotePath
                          && r.value.mountPoint == SpecOf(s).mountPoint != ""
    {
      hide Match, Trim, ComesUp;
      r := None;
      if !l.found { return; }
      var spec := SpecOf(s);
      if spec.rcloneConf == "" { return; }
      if !l.written { return; }
      if spec.mountPoint == "" { return; }
      var mode := Trim(requested);
      if l.driveLetter {
        if mode == "sync_workspace" { return; }
      } else {
        if !l.made { return; }
      }
      if mode == "mount" && host.windows && !host.winFspOk { return; }
      if mode == "sync_workspace" {
        r := PullWorkspace(id, spec, mode, l.pulled, live);
      } else {
        r := AwaitMount(id, spec, mode, l, live);
      }
    }

    method PullWorkspace(id: string, spec: MountSpec, mode: string, pulled: bool, ghost live: map<string, MountProc>)
      returns (r: Option<MountProc>)
      requires Match(live) && id !in live && mode == "sync_workspace" && spec.mountPoint != ""
      modifies this`log, this`books, this`next
      ensures old(log) <= log && old(next) <= next && (r.None? ==> Match(live)) && (r.Some? <==> pulled)
      ensures r.Some? ==> Match(live[id := r.value]) && r.value.mode == mode && r.value.serial >= old(next)
      ensures r.Some? ==> r.value.remotePath == spec.remotePath && r.value.mountPoint == spec.mountPoint
    {
      ReportAgrees(books, live, next, id);
      hide Agrees, Disciplined, Tally;
      if !pulled {
        Emit(PullFailed(id));
        return None;
      }
      var mp := MountProc(next, mode, stateDir + "/" + id + "/rclone.conf", spec.remotePath, spec.mountPoint, "", "", 0, "");
      PullAgrees(books, live, next, id, mp);
      hide Post, Fits;
      Emit(Pulled(id, Place(spec.remotePath, spec.mountPoint)));
      Emit(Acquired(id, next));
      next := next + 1;
      r := Some(mp);
    }

    method AwaitMount(id: string, spec: MountSpec, mode: string, l: Launch, ghost live: map<string, MountProc>)
      returns (r: Option<MountProc>)
      requires Match(live) && id !in live && mode != "sync_workspace" && spec.mountPoint != ""
      modifies this`log, this`books, this`next
      ensures old(log) <= log && old(next) <= next && (r.None? ==> Match(live)) && (r.Some? <==> l.started && ComesUp(l.polls))
      ensures r.Some? ==> Match(live[id := r.value]) && r.value.mode == mode && r.value.serial >= old(next)
      ensures r.Some? ==> r.value.remotePath == spec.remotePath && r.value.mountPoint == spec.mountPoint
    {
      hide Match, ComesUp;
      if !l.started { return None; }
      var mp := MountProc(next, mode, stateDir + "/" + id + "/rclone.conf", spec.remotePath, spec.mountPoint, "", "", 0, "");
      Acquire(id, mp, live);
      assert live[id := mp] - {id} == live;
      var up := WaitFor(id, mp, l.polls, live[id := mp]);
      r := if up then Some(mp) else None;
    }

    /** A mount process has been started. */
    method Acquire(id: string, mp: MountProc, ghost live: map<string, MountProc>)
      requires Match(live) && id !in live && mp.Ready() && mp.serial == next && mp.mode != "sync_workspace"
      modifies this`log, this`books, this`next
      ensures Match(live[id := mp]) && log == old(log) + [Acquired(id, mp.serial)] && next == old(next) + 1
    {
      MountAgrees(books, live, next, id, mp);
      hide Agrees, Disciplined, Tally, Post, Fits;
      Emit(Acquired(id, next));
      next := next + 1;
    }

    /** Polls a starting mount until its path is reachable, its process exits or time is up. */
    method WaitFor(id: string, mp: MountProc, polls: seq<Poll>, ghost live: map<string, MountProc>) returns (up: bool)
      requires Match(live) && id in live && live[id] == mp && mp.mode != "sync_workspace"
      modifies this`log, this`books
      ensures old(log) <= log && Match(if up then live else live - {id})
      ensures up <==> ComesUp(polls)
    {
      hide Match;
      for i := 0 to |polls|
        invariant log == old(log) && Match(live)
        invariant forall k :: 0 <= k < i ==> polls[k] == Hanging
      {
        if polls[i] == Exited {
          NoteExit(id, mp, live);
          return false;
        }
        if polls[i] == Reachable { return true; }
      }
      StopMount(id, mp, live);
      up := false;
    }

    /** The process has gone by itself; there is nothing to stop. */
    ghost method NoteExit(id: string, mp: MountProc, live: map<string, MountProc>)
      requires Match(live) && id in live && live[id] == mp && mp.mode != "sync_workspace"
      modifies this`log, this`books
      ensures Match(live - {id}) && log == old(log) + [Died(id, mp.serial)]
    {
      PushAgrees(books, live, next, id);
      DeadIsStopped(books, id, mp.serial);
      hide Agrees, Disciplined, Tally, Post, Fits;
      Emit(Died(id, mp.serial));
    }

    /** Opens a session for a binding that is not mounted, and mounts it. */
    method MountNow(id: string, b: Binding, v: Sight)
      requires Valid() && id !in active
      modifies this
      ensures Valid()
      ensures old(log) <= log && SameBut(active, old(active), id)
      ensures id in active ==> active[id].serial >= old(next) && Serves(active[id], b)
      ensures Opened(id, host, b, v, HeldBy(active, id), log, |old(log)|)
    {
      hide Match, Happened, SpecOf, SameBut, Serves, Agrees, Launches, Trim;
      SameButRefl(active, id);
      if v.session.None? {
        Report(id, Broken, active);
        HappenedLast(log, |old(log)|);
        return;
      }
      var s := v.session.value;
      ModeIsTrim(b.mode, s);
      var started := StartMount(id, s, ResolveMode(b.mode, s), v.launch, active);
      if started.None? {
        Report(id, Broken, active);
        HappenedLast(log, |old(log)|);
        return;
      }
      var mp := started.value.(expiresAt := s.expiresAt, sessionToken := s.token,
                               driveId := b.driveId, bindingMode := Trim(b.mode));
      ServesAsAsked(mp, b);
      SameButEdit(active, id, mp);
      EditMatches(active, id, started.value, mp);
      active := active[id := mp];
      ghost var before := log;
      var ok := ReportRetry(id, Mounted, 3, v.launch.acks, active);
      ghost var told := log;
      HappenedAt(told, |old(log)|, |before|);
      if !ok {
        var _ := ReportRetry(id, Broken, 2, if |v.launch.acks| > 3 then v.launch.acks[3..] else [], active);
        InOrderAt(log, |old(log)|, |before|, |told|);
        HappenedMore(told, log, |old(log)|, |old(log)|, Reported(id, Mounted));
      }
    }

    /** Stops the mount of a binding, if there is one, and mounts it again. */
    method Remount(id: string, b: Binding, v: Sight)
      requires Valid()
      modifies this
      ensures Valid()
      ensures old(log) <= log && SameBut(active, old(active), id)
      ensures id in active ==> Serves(active[id], b)
      ensures Opened(id, host, b, v, HeldBy(active, id), log, |old(log)|)
      ensures id in old(active) ==> Gone(id, old(active)[id], HeldBy(active, id), log, |old(log)|)
    {
      SerialsBelow(books, active, next);
      hide Match, Happened, SameBut, Serves;
      SameButRefl(active, id);
      ghost var before, was := log, active;
      if id in active {
        StopMount(id, active[id], active);
        HappenedLast(log, |before|);
        SameButEdit(active, id, active[id]);
        active := active - {id};
      }
      ghost var middle, without := log, active;
      MountNow(id, b, v);
      SameButTrans(active, without, was, id);
      if id in was { HappenedMore(middle, log, |before|, |before|, Stopped(id, was[id].serial)); }
      OpenedLater(id, host, b, v, HeldBy(active, id), log, |before|, |middle|);
    }

    method MountDead(mp: MountProc, exited: bool) returns (dead: bool)
      ensures dead == (mp.mode != "sync_workspace" && exited)
    {
      if mp.mode == "sync_workspace" { return false; }
      dead := exited;
    }

    /** Reports a failed mount, stops it and mounts again. */
    method Replace(id: string, b: Binding, v: Sight)
      requires Valid() && id in active
      modifies this
      ensures Valid()
      ensures old(log) <= log && SameBut(active, old(active), id)
      ensures id in active ==> Serves(active[id], b)
      ensures Gone(id, old(active)[id], HeldBy(active, id), log, |old(log)|)
      ensures Opened(id, host, b, v, HeldBy(active, id), log, |old(log)|)
      ensures InOrder(log, |old(log)|, Reported(id, Broken), Stopped(id, old(active)[id].serial))
    {
      SerialsBelow(books, active, next);
      hide Match, Happened, InOrder, SameBut, Serves, Faithful;
      ghost var before, was := log, active;
      StopBroken(id);
      ghost var middle, without := log, active;
      MountNow(id, b, v);
      SameButTrans(active, without, was, id);
      InOrderMore(middle, log, |before|, Reported(id, Broken), Stopped(id, was[id].serial));
      HappenedMore(middle, log, |before|, |before|, Stopped(id, was[id].serial));
      OpenedLater(id, host, b, v, HeldBy(active, id), log, |before|, |middle|);
    }

    method StopBroken(id: string)
      requires Valid() && id in active
      modifies this`active, this`log, this`books
      ensures Valid() && old(log) <= log && id !in active && SameBut(active, old(active), id)
      ensures Happened(log, |old(log)|, Stopped(id, old(active)[id].serial))
      ensures InOrder(log, |old(log)|, Reported(id, Broken), Stopped(id, old(active)[id].serial))
    {
      hide Match, Happened, InOrder, SameBut;
      ghost var before := log;
      Report(id, Broken, active);
      StopMount(id, active[id], active);
      InOrderLast(before, log, Reported(id, Broken));
      HappenedLast(log, |before|);
      SameButEdit(active, id, active[id]);
      active := active - {id};
    }

    /** One wanted binding: mount it, replace it when it changed or failed, renew its session. */
    method Tend(id: string, b: Binding, v: Sight)
      requires Valid()
      modifies this
      ensures Valid()
      ensures old(log) <= log && SameBut(active, old(active), id)
      ensures id in old(active) && id in active && active[id].serial == old(active)[id].serial ==> log == old(log)
      ensures Tended(id, host, b, v, HeldBy(old(active), id), HeldBy(active, id), log, |old(log)|)
    {
      hide Match, Happened, InOrder, Renews, SameBut, Opened;
      SameButRefl(active, id);
      if id in active { StillServes(active[id], b); }
      if id !in active {
        Remount(id, b, v);
        return;
      }
      var mp := active[id];
      if Trim(b.mode) != "" && Trim(b.mode) != mp.bindingMode && Trim(b.mode) != mp.mode {
        Remount(id, b, v);
        return;
      }
      var dead := MountDead(mp, v.dead);
      if dead {
        Replace(id, b, v);
        return;
      }
      if mp.mode == "mount" {
        if v.unreachable {
          Replace(id, b, v);
          return;
        }
      }
      if mp.expiresAt != 0 && mp.expiresAt - v.now < REFRESH_AHEAD {
        Refresh(id, b, v);
      }
    }

    /** Renews the session of a mount, by remounting it if need be. */
    method Refresh(id: string, b: Binding, v: Sight)
      requires Valid() && id in active
      modifies this
      ensures Valid() && old(log) <= log && SameBut(active, old(active), id)
      ensures if Renews(old(active)[id], v) then
                log == old(log)
                && active == old(active)[id := old(active)[id].(expiresAt := v.renewal.value.expiresAt,
                                                                sessionToken := v.renewal.value.token)]
              else
                && (id in active ==> Serves(active[id], b))
                && Opened(id, host, b, v, HeldBy(active, id), log, |old(log)|)
                && Gone(id, old(active)[id], HeldBy(active, id), log, |old(log)|)
    {
      hide Match, Happened, Renews, SameBut, Serves;
      ghost var was := active;
      var renewed := SoftRefresh(id, v);
      ghost var rewritten := active;
      if !renewed { Remount(id, b, v); SameButTrans(active, rewritten, was, id); }
    }

    /** Rewrites the credentials of a running mount in place, unless that is switched off or fails. */
    method SoftRefresh(id: string, v: Sight) returns (renewed: bool)
      requires Valid() && id in active
      modifies this`active
      ensures Valid() && renewed == Renews(old(active)[id], v)
      ensures SameBut(active, old(active), id) && id in active && active[id].serial == old(active)[id].serial
      ensures renewed ==> active == old(active)[id := old(active)[id].(expiresAt := v.renewal.value.expiresAt,
                                                                       sessionToken := v.renewal.value.token)]
    {
      hide Match, SameBut;
      SameButRefl(active, id);
      renewed := false;
      var mp := active[id];
      if v.force { return; }
      if mp.sessionToken == "" || mp.driveId == "" { return; }
      if v.renewal.None? { return; }
      var s := v.renewal.value;
      if mp.confPath == "" || SpecOf(s).rcloneConf == "" { return; }
      if !v.written { return; }
      mp := mp.(expiresAt := s.expiresAt, sessionToken := s.token);
      SameButEdit(active, id, mp);
      Rewrite(id, mp);
      var dead := MountDead(mp, v.deadAfter);
      if dead { return; }
      renewed := !v.unreachableAfter;
    }

    method Rewrite(id: string, mp: MountProc)
      requires Valid() && id in active
      requires mp == active[id].(expiresAt := mp.expiresAt, sessionToken := mp.sessionToken)
      modifies this`active
      ensures Valid() && active == old(active)[id := mp]
    {
      hide Match;
      ghost var rest := active - {id};
      assert rest[id := active[id]] == active && rest[id := mp] == active[id := mp];
      EditMatches(rest, id, active[id], mp);
      active := active[id := mp];
    }

    /** Stops a mount, then tells the control plane. */
    method Release(id: string, mp: MountProc, ghost live: map<string, MountProc>)
      requires Match(live) && id in live && live[id] == mp
      modifies this`log, this`books
      ensures Match(live - {id}) && old(log) <= log && LetGo(id, mp, log, |old(log)|)
    {
      hide Agrees, Disciplined, Tally, Fits, Post, LetGo;
      StopMount(id, mp, live);
      ghost var stopped := log;
      ReportAgrees(books, live - {id}, next, id);
      if mp.driveId != "" {
        PostBarrierKeeps(books, id, mp.driveId);
        Emit(Barrier(id, mp.driveId));
      }
      Report(id, Unmounted, live - {id});
      LetGoNow(id, mp, stopped, log, |old(log)|);
    }

    /** One pass: when the wanted bindings are known, every other mount is stopped, and each wanted
        binding gets its turn, whatever the outside then shows. */
    method Reconcile(list: Option<seq<Binding>>, sights: map<string, Sight>) returns (ghost want: map<string, Binding>)
      requires Valid()
      modifies this
      ensures Valid()
      ensures list.None? ==> active == old(active) && log == old(log)
      ensures list.Some? ==>
          && WantedOf(list.value, |list.value|, want)
          && old(log) <= log && active.Keys <= want.Keys
          && Settled(host, old(active), active, log, |old(log)|, want, sights, want.Keys)
          && forall id <- old(active) :: id in want || LetGo(id, old(active)[id], log, |old(log)|)
    {
      want := map[];
      if list.None? { return; }
      var wanted := Wanted(list.value);
      want := wanted;
      hide Match, Settled, LetGo, Valid, WantedOf;
      ghost var before, held := log, active;
      DropUnwanted(wanted.Keys);
      ghost var middle, kept := log, active;
      KeptAsHeld(held, kept, wanted.Keys);
      TendAll(wanted, sights, held, |before|);
      forall id | id in held && id !in want ensures LetGo(id, held[id], log, |before|) {
        LetGoLater(id, held[id], middle, log, |before|, |before|);
      }
    }

    method Wanted(list: seq<Binding>) returns (want: map<string, Binding>)
      ensures WantedOf(list, |list|, want)
    {
      want := map[];
      for i := 0 to |list|
        invariant WantedOf(list, i, want)
      {
        WantedNext(list, i, want);
        if list[i].desired == "mounted" { want := want[list[i].id := list[i]]; }
      }
    }

    /** The next wanted binding of a pass. */
    method TendNext(id: string, want: map<string, Binding>, sights: map<string, Sight>, ghost held: map<string, MountProc>,
                    ghost from: nat, ghost done: set<string>)
      requires Valid() && id in want && id !in done && from <= |log| && HeldBy(held, id) == HeldBy(active, id)
      requires Settled(host, held, active, log, from, want, sights, done)
      modifies this
      ensures Valid()
      ensures old(log) <= log && SameBut(active, old(active), id)
      ensures Settled(host, held, active, log, from, want, sights, done + {id})
    {
      hide Match, Tended, Settled, SameBut;
      ghost var before, was := log, active;
      Tend(id, want[id], SightOf(sights, id));
      SettledNext(host, held, was, active, before, log, from, want, sights, done, id);
    }

    method TendAll(want: map<string, Binding>, sights: map<string, Sight>, ghost held: map<string, MountProc>, ghost from: nat)
      requires Valid() && active.Keys <= want.Keys && from <= |log|
      requires forall id <- want :: HeldBy(held, id) == HeldBy(active, id)
      modifies this
      ensures Valid()
      ensures active.Keys <= want.Keys && old(log) <= log && Settled(host, held, active, log, from, want, sights, want.Keys)
    {
      hide Match, Settled, Valid, HeldBy, SameBut;
      NoneSettled(host, held, active, log, from, want, sights);
      var todo := want.Keys;
      ghost var done: set<string> := {};
      while todo != {}
        invariant Valid() && active.Keys <= want.Keys && old(log) <= log
        invariant done + todo == want.Keys && done !! todo && Settled(host, held, active, log, from, want, sights, done)
        invariant forall k <- todo :: HeldBy(held, k) == HeldBy(active, k)
        decreases |todo|
      {
        var id :| id in todo;
        ghost var was := active;
        TendNext(id, want, sights, held, from, done);
        KeysElsewhere(was, active, id, want.Keys);
        todo, done := todo - {id}, done + {id};
        forall k | k in todo ensures HeldBy(held, k) == HeldBy(active, k) { SameElsewhere(was, active, id, k); }
      }
    }

    /** Stops every mount that is not wanted. */
    method DropUnwanted(want: set<string>)
      requires Valid()
      modifies this
      ensures Valid() && old(log) <= log
      ensures active == old(active) - (old(active).Keys - want)
      ensures forall id <- old(active) :: id in want || LetGo(id, old(active)[id], log, |old(log)|)
    {
      hide Match, LetGo, Dropped, Faithful;
      var todo := active.Keys;
      ghost var held, from, gone := active, |log|, {};
      NoneDropped(held, log, from);
      while todo != {}
        invariant Valid() && old(log) <= log && todo <= active.Keys && todo <= held.Keys
        invariant gone + todo + want >= held.Keys && gone !! want && gone <= held.Keys
        invariant Dropped(held, active, log, from, gone)
        decreases |todo|
      {
        var id :| id in todo;
        todo := todo - {id};
        if id !in want {
          ghost var before := log;
          Release(id, active[id], active);
          DropNext(held, active, before, log, from, gone, id);
          active, gone := active - {id}, gone + {id};
        }
      }
      AllDropped(held, active, log, from, gone, want);
    }

    /** Stops everything on the way out. */
    method Shutdown()
      requires Valid()
      modifies this
      ensures Disciplined(log) && Tally(log).held == map[] && Tally(log).owed == map[]
      ensures old(log) <= log && forall id <- old(active) :: LetGo(id, old(active)[id], log, |old(log)|)
    {
      hide Agrees, Disciplined, Tally, LetGo, Dropped;
      var todo := active.Keys;
      ghost var live, gone := active, {};
      NoneDropped(live, log, |log|);
      while todo != {}
        invariant todo <= active.Keys && active == old(active) && gone + todo == active.Keys
        invariant live.Keys == todo && Match(live) && forall k <- live :: live[k] == active[k]
        invariant old(log) <= log && Dropped(active, live, log, |old(log)|, gone)
        decreases |todo|
      {
        var id :| id in todo;
        ghost var before := log;
        Release(id, active[id], live);
        DropNext(active, live, before, log, |old(log)|, gone, id);
        todo, gone := todo - {id}, gone + {id};
        live := live - {id};
      }
      NothingHeld(books, live, next);
      AllDropped(active, live, log, |old(log)|, gone, {});
    }
  }

  /** A whole life of hubd, in once or daemon mode, with any number of passes before the signal:
      it keeps the discipline throughout and closes its books. */
  method Run(stateDir: string, host: Host, once: bool, passes: nat) returns (ghost log: seq<Effect>)
    ensures Disciplined(log) && Tally(log).held == map[] && Tally(log).owed == map[]
  {
    var c := new Controller(stateDir, host);
    var list: Option<seq<Binding>>, sights: map<string, Sight> := *, *;
    var _ := c.Reconcile(list, sights);
    if !once {
      for i := 0 to passes
        invariant fresh(c) && c.Valid()
      {
        list, sights := *, *;
        var _ := c.Reconcile(list, sights);
      }
    }
    c.Shutdown();
    log := c.log;
  }
}
