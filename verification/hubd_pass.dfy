/** What one pass of hubd does to one binding, in values: what the outside shows during the turn of
    the binding, the fields of its mount before and after, and the effects in between. */
module HubdPass {
  import opened Text
  import opened MountLedger

  const REFRESH_AHEAD: int := 300_000_000_000

  datatype Binding = Binding(id: string, driveId: string, mode: string, mountPoint: string, desired: string)

  datatype MountSpec = MountSpec(remotePath: string, mountPoint: string, rcloneConf: string)

  datatype Session = Session(expiresAt: int, token: string, mode: string, envMode: string,
                             spec: MountSpec, outerSpec: MountSpec)

  function SpecOf(s: Session): MountSpec { if s.outerSpec.rcloneConf != "" then s.outerSpec else s.spec }

  function ResolveMode(bindingMode: string, s: Session): (mode: string)
    ensures mode != ""
    ensures Trim(bindingMode) != "" ==> mode == Trim(bindingMode)
    ensures Trim(bindingMode) == "" && Trim(s.mode) != "" ==> mode == Trim(s.mode)
    ensures Trim(bindingMode) == "" && Trim(s.mode) == "" ==> mode == if Trim(s.envMode) != "" then Trim(s.envMode) else "mount"
  {
    if Trim(bindingMode) != "" then Trim(bindingMode)
    else if Trim(s.mode) != "" then Trim(s.mode)
    else if Trim(s.envMode) != "" then Trim(s.envMode)
    else "mount"
  }

  /** The machine: is it Windows, and if so, is WinFsp installed? */
  datatype Host = Host(windows: bool, winFspOk: bool)

  /** What a poll of a mount that is starting finds. */
  datatype Poll = Exited | Hanging | Reachable

  /** How the steps of one start will go; `polls` are those that fit before the deadline,
      `acks` the answers to the reports that it is mounted. */
  datatype Launch = Launch(found: bool, written: bool, driveLetter: bool, made: bool, pulled: bool,
                           started: bool, polls: seq<Poll>, acks: seq<bool>)

  /** Does the control plane take one of the first `n` reports? */
  predicate Acked(acks: seq<bool>, n: nat) { exists k :: 0 <= k < n && k < |acks| && acks[k] }

  /** Is the path reachable before the process exits and before the deadline? */
  predicate ComesUp(polls: seq<Poll>) {
    exists k :: 0 <= k < |polls| && polls[k] == Reachable && forall i :: 0 <= i < k ==> polls[i] == Hanging
  }

  /** Does a start in this mode go through? */
  predicate Launches(host: Host, s: Session, mode: string, l: Launch) {
    && l.found && SpecOf(s).rcloneConf != "" && l.written && SpecOf(s).mountPoint != ""
    && (if l.driveLetter then mode != "sync_workspace" else l.made)
    && !(mode == "mount" && host.windows && !host.winFspOk)
    && if mode == "sync_workspace" then l.pulled else l.started && ComesUp(l.polls)
  }

  /** What the outside will show about one binding during its turn in a pass: the instant, whether
      the process of its mount has exited and its path hangs, how a renewal of the session goes,
      with the two probes after it, and how a new session and a new start go. */
  datatype Sight = Sight(now: int, dead: bool, unreachable: bool, force: bool, renewal: Option<Session>,
                         written: bool, deadAfter: bool, unreachableAfter: bool,
                         session: Option<Session>, launch: Launch)

  const DARK := Sight(0, false, false, false, None, false, false, false, None,
                      Launch(false, false, false, false, false, false, [], []))

  function SightOf(sights: map<string, Sight>, id: string): Sight { if id in sights then sights[id] else DARK }

  /** A mount: a running rclone process or a pulled workspace, known by its serial number. */
  datatype MountProc = MountProc(
    serial: nat, mode: string, confPath: string, remotePath: string, mountPoint: string,
    driveId: string, bindingMode: string, expiresAt: int, sessionToken: string) {

    predicate Ready() { confPath != "" && mountPoint != "" }

    predicate Syncs() { mode == "sync_workspace" && remotePath != "" }

    function Source(): Place { Place(remotePath, mountPoint) }
  }

  /** The two agree on every binding but `id`. */
  ghost predicate SameBut(a: map<string, MountProc>, b: map<string, MountProc>, id: string) { a - {id} == b - {id} }

  lemma SameButRefl(a: map<string, MountProc>, id: string)
    ensures SameBut(a, a, id)
  {
  }

  lemma SameButEdit(a: map<string, MountProc>, id: string, h: MountProc)
    ensures SameBut(a[id := h], a, id) && SameBut(a - {id}, a, id)
  {
    assert a[id := h] - {id} == a - {id};
    assert a - {id} - {id} == a - {id};
  }

  lemma SameButTrans(a: map<string, MountProc>, b: map<string, MountProc>, c: map<string, MountProc>, id: string)
    requires SameBut(a, b, id) && SameBut(b, c, id)
    ensures SameBut(a, c, id)
  {
  }

  function HeldBy(held: map<string, MountProc>, id: string): Option<MountProc> {
    if id in held then Some(held[id]) else None
  }

  /** `earlier` and then `later` happened since the trail had length `from`. */
  ghost predicate InOrder(log: seq<Effect>, from: nat, earlier: Effect, later: Effect) {
    exists i, k :: from <= i < k < |log| && log[i] == earlier && log[k] == later
  }

  ghost predicate Happened(log: seq<Effect>, from: nat, e: Effect) {
    exists i :: from <= i < |log| && log[i] == e
  }

  /** The mount made way for none or for another one. */
  ghost predicate Gone(id: string, was: MountProc, now: Option<MountProc>, log: seq<Effect>, from: nat) {
    (now.None? || now.value.serial != was.serial) && Happened(log, from, Stopped(id, was.serial))
  }

  predicate ModeChanged(b: Binding, h: MountProc) {
    Trim(b.mode) != "" && Trim(b.mode) != h.bindingMode && Trim(b.mode) != h.mode
  }

  predicate Failing(h: MountProc, v: Sight) {
    (h.mode != "sync_workspace" && v.dead) || (h.mode == "mount" && v.unreachable)
  }

  predicate Expiring(h: MountProc, v: Sight) { h.expiresAt != 0 && h.expiresAt - v.now < REFRESH_AHEAD }

  /** Does rewriting the credentials in place go through, and is the mount well after it? */
  predicate Renews(h: MountProc, v: Sight) {
    && !v.force && h.sessionToken != "" && h.driveId != "" && v.renewal.Some?
    && h.confPath != "" && SpecOf(v.renewal.value).rcloneConf != "" && v.written
    && !(h.mode != "sync_workspace" && v.deadAfter) && !v.unreachableAfter
  }

  /** Does mounting the binding anew go through? */
  predicate Opens(host: Host, b: Binding, v: Sight) {
    v.session.Some? && Launches(host, v.session.value, ResolveMode(b.mode, v.session.value), v.launch)
  }

  /** A mount made for this binding with the session the outside opened. */
  predicate MadeFor(b: Binding, v: Sight, h: MountProc) {
    && v.session.Some?
    && var s := v.session.value;
    && h.mode == ResolveMode(b.mode, s) && h.bindingMode == Trim(b.mode) && h.driveId == b.driveId
    && h.expiresAt == s.expiresAt && h.sessionToken == s.token
    && h.remotePath == SpecOf(s).remotePath && h.mountPoint == SpecOf(s).mountPoint
  }

  /** The outcome of mounting a binding anew. */
  ghost predicate Opened(id: string, host: Host, b: Binding, v: Sight, now: Option<MountProc>, log: seq<Effect>, from: nat) {
    && (now.Some? <==> Opens(host, b, v))
    && (now.Some? ==> MadeFor(b, v, now.value) && Happened(log, from, Reported(id, Mounted)))
    && (now.Some? && !Acked(v.launch.acks, 3) ==> InOrder(log, from, Reported(id, Mounted), Reported(id, Broken)))
    && (now.None? ==> Happened(log, from, Reported(id, Broken)))
  }

  /** Does the mount run in the mode the binding asks for, if it asks for one? */
  predicate Serves(h: MountProc, b: Binding) { Trim(b.mode) == "" || h.mode == Trim(b.mode) }

  /** A mount made on request runs in the requested mode. */
  predicate Faithful(h: MountProc) { h.bindingMode == "" || h.mode == h.bindingMode }

  /** What the turn of a wanted binding made of it, between `was` and `now`. */
  ghost predicate Tended(id: string, host: Host, b: Binding, v: Sight, was: Option<MountProc>, now: Option<MountProc>,
                         log: seq<Effect>, from: nat) {
    && (now.Some? ==> Serves(now.value, b))
    && match was
       case None => Opened(id, host, b, v, now, log, from)
       case Some(h) =>
         if ModeChanged(b, h) then Gone(id, h, now, log, from) && Opened(id, host, b, v, now, log, from)
         else if Failing(h, v) then
           && Gone(id, h, now, log, from) && Opened(id, host, b, v, now, log, from)
           && InOrder(log, from, Reported(id, Broken), Stopped(id, h.serial))
         else if !Expiring(h, v) then now == was
         else if Renews(h, v) then
           now == Some(h.(expiresAt := v.renewal.value.expiresAt, sessionToken := v.renewal.value.token))
         else Gone(id, h, now, log, from) && Opened(id, host, b, v, now, log, from)
  }

  lemma HappenedLast(log: seq<Effect>, from: nat)
    requires from < |log|
    ensures Happened(log, from, log[|log| - 1])
  {
  }

  lemma HappenedAt(log: seq<Effect>, from: nat, i: nat)
    requires from <= i < |log|
    ensures Happened(log, from, log[i])
  {
  }

  lemma InOrderAt(log: seq<Effect>, from: nat, i: nat, k: nat)
    requires from <= i < k < |log|
    ensures InOrder(log, from, log[i], log[k])
  {
  }

  lemma HappenedLater(log: seq<Effect>, longer: seq<Effect>, from: nat, to: nat)
    requires log <= longer && from <= to
    ensures forall e :: Happened(log, to, e) ==> Happened(longer, from, e)
    ensures forall e, f :: InOrder(log, to, e, f) ==> InOrder(longer, from, e, f)
  {
    forall e | Happened(log, to, e) ensures Happened(longer, from, e) {
      var i :| to <= i < |log| && log[i] == e;
      assert longer[i] == e;
    }
    forall e, f | InOrder(log, to, e, f) ensures InOrder(longer, from, e, f) {
      var i, k :| to <= i < k < |log| && log[i] == e && log[k] == f;
      assert longer[i] == e && longer[k] == f;
    }
  }

  lemma HappenedMore(log: seq<Effect>, longer: seq<Effect>, from: nat, to: nat, e: Effect)
    requires log <= longer && from <= to && Happened(log, to, e)
    ensures Happened(longer, from, e)
  {
    HappenedLater(log, longer, from, to);
  }

  lemma InOrderMore(log: seq<Effect>, longer: seq<Effect>, from: nat, e: Effect, f: Effect)
    requires log <= longer && InOrder(log, from, e, f)
    ensures InOrder(longer, from, e, f)
  {
    HappenedLater(log, longer, from, from);
  }

  lemma InOrderLast(before: seq<Effect>, log: seq<Effect>, e: Effect)
    requires before + [e] < log
    ensures InOrder(log, |before|, e, log[|log| - 1])
  {
    assert log[|before|] == (before + [e])[|before|];
  }

  lemma OpenedLater(id: string, host: Host, b: Binding, v: Sight, now: Option<MountProc>, log: seq<Effect>, from: nat, to: nat)
    requires Opened(id, host, b, v, now, log, to) && from <= to
    ensures Opened(id, host, b, v, now, log, from)
  {
    HappenedLater(log, log, from, to);
    hide Happened, InOrder, Opens, MadeFor;
  }

  lemma TendedLater(id: string, host: Host, b: Binding, v: Sight, was: Option<MountProc>, now: Option<MountProc>,
                    log: seq<Effect>, longer: seq<Effect>, from: nat, to: nat)
    requires Tended(id, host, b, v, was, now, log, to) && log <= longer && from <= to
    ensures Tended(id, host, b, v, was, now, longer, from)
  {
    HappenedLater(log, longer, from, to);
    hide Happened, InOrder;
  }

  /** A mount whose process has exited, or whose path hangs, is reported broken, then stopped, and
      is not the entry afterwards; unless the binding asked for another mode, for which it is
      stopped all the same. */
  lemma FailedMountsGo(id: string, host: Host, b: Binding, v: Sight, was: MountProc, now: Option<MountProc>, log: seq<Effect>, from: nat)
    requires Tended(id, host, b, v, Some(was), now, log, from)
    requires (was.mode != "sync_workspace" && v.dead) || (was.mode == "mount" && v.unreachable)
    ensures now.None? || now.value.serial != was.serial
    ensures exists k :: from <= k < |log| && log[k] == Stopped(id, was.serial)
    ensures Trim(b.mode) == "" || Trim(b.mode) == was.bindingMode || Trim(b.mode) == was.mode ==>
              exists i, k :: from <= i < k < |log| && log[i] == Reported(id, Broken) && log[k] == Stopped(id, was.serial)
  {
  }

  /** The session of a mount that is well, but ends within five minutes, is renewed in place, to the
      new end and token, when that is allowed and goes through, and the mount is well after it;
      otherwise the mount is stopped. */
  lemma ExpiringSessionsAreRenewed(id: string, host: Host, b: Binding, v: Sight, was: MountProc, now: Option<MountProc>, log: seq<Effect>, from: nat)
    requires Tended(id, host, b, v, Some(was), now, log, from)
    requires Trim(b.mode) == "" || Trim(b.mode) == was.mode || Trim(b.mode) == was.bindingMode
    requires (was.mode == "sync_workspace" || !v.dead) && (was.mode != "mount" || !v.unreachable)
    requires was.expiresAt != 0 && was.expiresAt < v.now + 300_000_000_000
    ensures if !v.force && was.sessionToken != "" && was.driveId != "" && was.confPath != "" && v.renewal.Some? && v.written
               && (v.renewal.value.outerSpec.rcloneConf != "" || v.renewal.value.spec.rcloneConf != "")
               && (was.mode == "sync_workspace" || !v.deadAfter) && !v.unreachableAfter
            then now == Some(was.(expiresAt := v.renewal.value.expiresAt, sessionToken := v.renewal.value.token))
            else (now.None? || now.value.serial != was.serial) && exists k :: from <= k < |log| && log[k] == Stopped(id, was.serial)
  {
    hide Opened, InOrder, Trim, Serves;
  }

  /** A mount that is well, as asked for and not about to expire is left alone. */
  lemma HealthyMountsStay(id: string, host: Host, b: Binding, v: Sight, was: MountProc, now: Option<MountProc>, log: seq<Effect>, from: nat)
    requires Tended(id, host, b, v, Some(was), now, log, from)
    requires Trim(b.mode) == "" || Trim(b.mode) == was.mode || Trim(b.mode) == was.bindingMode
    requires !v.dead && !v.unreachable && (was.expiresAt == 0 || was.expiresAt - v.now >= 300_000_000_000)
    ensures now == Some(was)
  {
  }

  /** A binding that asks for a mode its mount neither runs in nor was made for has it stopped. */
  lemma ModeChangesRemount(id: string, host: Host, b: Binding, v: Sight, was: MountProc, now: Option<MountProc>, log: seq<Effect>, from: nat)
    requires Tended(id, host, b, v, Some(was), now, log, from)
    requires Trim(b.mode) != "" && Trim(b.mode) != was.bindingMode && Trim(b.mode) != was.mode
    ensures now.None? || (now.value.serial != was.serial && now.value.mode == Trim(b.mode))
    ensures exists k :: from <= k < |log| && log[k] == Stopped(id, was.serial)
  {
  }

  /** A binding that had no mount has one after its turn if and only if a session opens and the
      start goes through; if it has none, a failure was reported. */
  lemma MissingMountsOpen(id: string, host: Host, b: Binding, v: Sight, now: Option<MountProc>, log: seq<Effect>, from: nat)
    requires Tended(id, host, b, v, None, now, log, from)
    ensures now.Some? <==>
      && v.session.Some?
      && var s, l := v.session.value, v.launch;
         var spec := if s.outerSpec.rcloneConf != "" then s.outerSpec else s.spec;
         var mode := if Trim(b.mode) != "" then Trim(b.mode) else if Trim(s.mode) != "" then Trim(s.mode)
                     else if Trim(s.envMode) != "" then Trim(s.envMode) else "mount";
         && l.found && l.written && spec.rcloneConf != "" && spec.mountPoint != ""
         && (l.driveLetter ==> mode != "sync_workspace") && (!l.driveLetter ==> l.made)
         && (mode == "mount" && host.windows ==> host.winFspOk)
         && (mode == "sync_workspace" ==> l.pulled)
         && (mode != "sync_workspace" ==>
               l.started
               && exists k :: 0 <= k < |l.polls| && l.polls[k] == Reachable && forall i :: 0 <= i < k ==> l.polls[i] == Hanging)
    ensures now.Some? ==>
      && now.value.expiresAt == v.session.value.expiresAt && now.value.sessionToken == v.session.value.token
      && now.value.driveId == b.driveId && now.value.bindingMode == Trim(b.mode)
      && (Trim(b.mode) != "" ==> now.value.mode == Trim(b.mode))
    ensures now.None? ==> exists k :: from <= k < |log| && log[k] == Reported(id, Broken)
    ensures now.Some? ==> exists k :: from <= k < |log| && log[k] == Reported(id, Mounted)
    ensures now.Some? && (forall k :: 0 <= k < 3 && k < |v.launch.acks| ==> !v.launch.acks[k]) ==>
              exists i, k :: from <= i < k < |log| && log[i] == Reported(id, Mounted) && log[k] == Reported(id, Broken)
  {
    hide Serves, Trim;
  }

  // ---- A whole pass ----

  ghost predicate LastSays(list: seq<Binding>, n: nat, i: nat)
    requires i < n <= |list|
  {
    list[i].desired == "mounted" && forall k :: i < k < n ==> list[k].id != list[i].id || list[k].desired != "mounted"
  }

  /** The bindings to be mounted among these first ones of the list: the last of each id that says so. */
  ghost predicate WantedOf(list: seq<Binding>, n: nat, want: map<string, Binding>)
    requires n <= |list|
  {
    && (forall i :: 0 <= i < n && list[i].desired == "mounted" ==> list[i].id in want)
    && forall id <- want :: want[id].id == id && exists i :: 0 <= i < n && list[i] == want[id] && LastSays(list, n, i)
  }

  lemma WantedNext(list: seq<Binding>, n: nat, want: map<string, Binding>)
    requires n < |list| && WantedOf(list, n, want)
    ensures WantedOf(list, n + 1, if list[n].desired == "mounted" then want[list[n].id := list[n]] else want)
  {
    var b := list[n];
    var more := if b.desired == "mounted" then want[b.id := b] else want;
    forall id | id in more
      ensures more[id].id == id && exists i :: 0 <= i < n + 1 && list[i] == more[id] && LastSays(list, n + 1, i)
    {
      if b.desired != "mounted" || id != b.id {
        var i :| 0 <= i < n && list[i] == want[id] && LastSays(list, n, i);
        assert LastSays(list, n + 1, i);
      } else {
        assert LastSays(list, n + 1, n);
      }
    }
  }

  /** These bindings had their turn in the pass that began with `held` and a trail of length `from`. */
  ghost predicate Settled(host: Host, held: map<string, MountProc>, now: map<string, MountProc>, log: seq<Effect>, from: nat,
                          want: map<string, Binding>, sights: map<string, Sight>, ids: set<string>) {
    forall id <- ids :: id in want && Tended(id, host, want[id], SightOf(sights, id), HeldBy(held, id), HeldBy(now, id), log, from)
  }

  lemma NoneSettled(host: Host, held: map<string, MountProc>, now: map<string, MountProc>, log: seq<Effect>, from: nat,
                    want: map<string, Binding>, sights: map<string, Sight>)
    ensures Settled(host, held, now, log, from, want, sights, {})
  {
  }

  lemma SettledNext(host: Host, held: map<string, MountProc>, now: map<string, MountProc>, later: map<string, MountProc>, log: seq<Effect>, longer: seq<Effect>,
                    from: nat, want: map<string, Binding>, sights: map<string, Sight>, ids: set<string>, id: string)
    requires Settled(host, held, now, log, from, want, sights, ids) && log <= longer && from <= |log| && id in want && id !in ids
    requires HeldBy(held, id) == HeldBy(now, id)
    requires Tended(id, host, want[id], SightOf(sights, id), HeldBy(now, id), HeldBy(later, id), longer, |log|)
    requires SameBut(later, now, id)
    ensures Settled(host, held, later, longer, from, want, sights, ids + {id})
  {
    hide Tended, SightOf;
    forall k | k in ids + {id}
      ensures k in want && Tended(k, host, want[k], SightOf(sights, k), HeldBy(held, k), HeldBy(later, k), longer, from)
    {
      if k == id {
        TendedLater(k, host, want[k], SightOf(sights, k), HeldBy(held, k), HeldBy(later, k), longer, longer, from, |log|);
      } else {
        SameElsewhere(now, later, id, k);
        TendedLater(k, host, want[k], SightOf(sights, k), HeldBy(held, k), HeldBy(later, k), log, longer, from, from);
      }
    }
  }

  lemma SameElsewhere(now: map<string, MountProc>, later: map<string, MountProc>, id: string, k: string)
    requires SameBut(later, now, id) && k != id
    ensures HeldBy(later, k) == HeldBy(now, k)
  {
    assert k in later <==> k in later - {id};
    assert k in now <==> k in now - {id};
    assert k in later ==> later[k] == (later - {id})[k] == (now - {id})[k] == now[k];
  }

  lemma KeysElsewhere(now: map<string, MountProc>, later: map<string, MountProc>, id: string, keys: set<string>)
    requires SameBut(later, now, id) && now.Keys <= keys && id in keys
    ensures later.Keys <= keys
  {
    forall k | k in later ensures k in keys {
      if k != id { SameElsewhere(now, later, id, k); }
    }
  }

  lemma KeptAsHeld(held: map<string, MountProc>, kept: map<string, MountProc>, want: set<string>)
    requires kept == held - (held.Keys - want)
    ensures kept.Keys <= want && forall id <- want :: HeldBy(held, id) == HeldBy(kept, id)
  {
  }

  /** A mount was let go: stopped, then the barrier of its drive was posted, if it has one, and then
      the binding was reported unmounted. */
  ghost predicate LetGo(id: string, h: MountProc, log: seq<Effect>, from: nat) {
    && InOrder(log, from, Stopped(id, h.serial), Reported(id, Unmounted))
    && (h.driveId != "" ==> InOrder(log, from, Stopped(id, h.serial), Barrier(id, h.driveId))
                            && InOrder(log, from, Barrier(id, h.driveId), Reported(id, Unmounted)))
  }

  lemma LetGoNow(id: string, h: MountProc, before: seq<Effect>, log: seq<Effect>, from: nat)
    requires from < |before| && before[|before| - 1] == Stopped(id, h.serial)
    requires log == before + (if h.driveId != "" then [Barrier(id, h.driveId)] else []) + [Reported(id, Unmounted)]
    ensures LetGo(id, h, log, from)
  {
    assert log[|before| - 1] == Stopped(id, h.serial) && log[|log| - 1] == Reported(id, Unmounted);
    if h.driveId != "" { assert log[|before|] == Barrier(id, h.driveId); }
  }

  lemma LetGoLater(id: string, h: MountProc, log: seq<Effect>, longer: seq<Effect>, from: nat, to: nat)
    requires LetGo(id, h, log, to) && log <= longer && from <= to
    ensures LetGo(id, h, longer, from)
  {
    HappenedLater(log, longer, from, to);
    hide InOrder;
  }

  /** These mounts were let go since the pass began, and are the ones missing. */
  ghost predicate Dropped(held: map<string, MountProc>, now: map<string, MountProc>, log: seq<Effect>, from: nat, gone: set<string>) {
    now == held - gone && forall id <- gone :: id in held && LetGo(id, held[id], log, from)
  }

  lemma NoneDropped(held: map<string, MountProc>, log: seq<Effect>, from: nat)
    ensures Dropped(held, held, log, from, {})
  {
  }

  lemma DropNext(held: map<string, MountProc>, now: map<string, MountProc>, log: seq<Effect>, longer: seq<Effect>,
                 from: nat, gone: set<string>, id: string)
    requires Dropped(held, now, log, from, gone) && log <= longer && from <= |log| && id in now
    requires LetGo(id, now[id], longer, |log|)
    ensures Dropped(held, now - {id}, longer, from, gone + {id})
  {
    hide LetGo;
    forall k | k in gone + {id} ensures LetGo(k, held[k], longer, from) {
      if k == id { LetGoLater(k, now[id], longer, longer, from, |log|); }
      else { LetGoLater(k, held[k], log, longer, from, from); }
    }
    assert now - {id} == held - (gone + {id});
  }

  lemma AllDropped(held: map<string, MountProc>, now: map<string, MountProc>, log: seq<Effect>, from: nat,
                   gone: set<string>, want: set<string>)
    requires Dropped(held, now, log, from, gone) && gone + want >= held.Keys && gone !! want && gone <= held.Keys
    ensures now == held - (held.Keys - want)
    ensures forall id <- held :: id in want || LetGo(id, held[id], log, from)
  {
    assert gone == held.Keys - want;
  }
}
