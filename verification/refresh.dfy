/** Refresh-token rotation: any number of callers exchanging tokens, interleaved at the
    granularity of store calls. A secret stands for its own digest: hashing is injective here. */
module RefreshTokens {
  import opened Text

  datatype Token = Token(id: string, user: string, hash: string, expiresAt: int, revoked: bool)

  type Tokens = map<string, Token>

  predicate Usable(t: Token, now: int) { !t.revoked && now <= t.expiresAt }

  /** May a lookup by hash answer `found`? */
  ghost predicate IsLookup(ts: Tokens, hash: string, now: int, found: Option<Token>) {
    match found
    case Some(t) => t.id in ts && ts[t.id] == t && t.hash == hash && Usable(t, now)
    case None => (forall id <- ts :: ts[id].hash != hash) || exists id <- ts :: ts[id].hash == hash && !Usable(ts[id], now)
  }

  predicate CanRevoke(ts: Tokens, id: string) { id in ts && !ts[id].revoked }

  function Revoked(ts: Tokens, id: string): Tokens {
    if id in ts then ts[id := ts[id].(revoked := true)] else ts
  }

  function RevokedFor(ts: Tokens, user: string): Tokens {
    map id | id in ts :: if ts[id].user == user then ts[id].(revoked := true) else ts[id]
  }

  class RefreshStore {
    var refresh: Tokens

    ghost predicate Valid() reads this { forall id <- refresh :: refresh[id].id == id }

    constructor ()
      ensures Valid() && refresh == map[]
    {
      refresh := map[];
    }

    method CreateRefreshToken(t: Token) returns (ok: bool)
      requires Valid()
      modifies this
      ensures Valid() && ok == (t.id != "" && t.hash != "")
      ensures refresh == if ok then old(refresh)[t.id := t] else old(refresh)
    {
      if t.id == "" || t.hash == "" { return false; }
      refresh := refresh[t.id := t];
      ok := true;
    }

    method GetRefreshTokenByHash(hash: string, now: int) returns (found: Option<Token>)
      requires Valid()
      ensures IsLookup(refresh, hash, now, found)
      ensures found.Some? ==> found.value.id in refresh && refresh[found.value.id] == found.value
                              && found.value.hash == hash && !found.value.revoked && now <= found.value.expiresAt
      ensures found.None? ==> (forall id <- refresh :: refresh[id].hash != hash)
                              || exists id <- refresh :: refresh[id].hash == hash && (refresh[id].revoked || now > refresh[id].expiresAt)
    {
      var todo := refresh.Keys;
      while todo != {}
        invariant todo <= refresh.Keys
        invariant forall id <- refresh :: id in todo || refresh[id].hash != hash
        decreases |todo|
      {
        var id :| id in todo;
        todo := todo - {id};
        if refresh[id].hash == hash {
          return if refresh[id].revoked || now > refresh[id].expiresAt then None else Some(refresh[id]);
        }
      }
      found := None;
    }

    method RevokeRefreshToken(id: string) returns (ok: bool)
      requires Valid()
      modifies this
      ensures Valid() && ok == CanRevoke(old(refresh), id)
      ensures ok <==> id in old(refresh) && !old(refresh)[id].revoked
      ensures refresh == if ok then old(refresh)[id := old(refresh)[id].(revoked := true)] else old(refresh)
      ensures refresh == if ok then Revoked(old(refresh), id) else old(refresh)
    {
      if id !in refresh { return false; }
      if refresh[id].revoked { return false; }
      refresh := refresh[id := refresh[id].(revoked := true)];
      ok := true;
    }

    method RevokeRefreshTokensForUser(user: string)
      requires Valid()
      modifies this
      ensures Valid() && refresh == RevokedFor(old(refresh), user)
      ensures refresh.Keys == old(refresh.Keys)
      ensures forall id <- refresh :: refresh[id] ==
                if old(refresh)[id].user == user then old(refresh)[id].(revoked := true) else old(refresh)[id]
    {
      var todo := refresh.Keys;
      while todo != {}
        invariant todo <= refresh.Keys == old(refresh.Keys)
        invariant forall id <- refresh ::
            refresh[id] == if id in todo then old(refresh)[id] else RevokedFor(old(refresh), user)[id]
        decreases |todo|
      {
        var id :| id in todo;
        todo := todo - {id};
        if refresh[id].user == user { refresh := refresh[id := refresh[id].(revoked := true)]; }
      }
    }
  }

  // ---- Concurrent callers ----

  /** How far a Refresh call has come: the token found, its user loaded, the token spent. */
  datatype Caller =
    | Idle
    | Found(token: Token)
    | Loaded(token: Token)
    | Spent(token: Token)

  /** `births` lists the token ids in the order they were stored, `parents` the position of the
      token each was exchanged for, if any. */
  datatype World = World(tokens: Tokens, callers: map<nat, Caller>, births: seq<string>, parents: seq<Option<nat>>)

  const DAWN := World(map[], map[], [], [])

  datatype Move =
    | Look(c: nat, hash: string, now: int, found: Option<Token>)
    | Load(c: nat, ok: bool)
    | Spend(c: nat)
    | Issue(c: nat, parent: nat, minted: Token)
    | IssueFails(c: nat)
    | Login(minted: Token)
    | Logout(id: string)
    | RevokeAll(user: string)

  function CallerOf(a: World, c: nat): Caller { if c in a.callers then a.callers[c] else Idle }

  /** A newly drawn id and secret are in nobody's hands yet. */
  predicate IsNew(a: World, t: Token) {
    t.id != "" && t.hash != "" && !t.revoked && t.id !in a.tokens && forall id <- a.tokens :: a.tokens[id].hash != t.hash
  }

  function Born(a: World, t: Token, parent: Option<nat>): World {
    a.(tokens := a.tokens[t.id := t], births := a.births + [t.id], parents := a.parents + [parent])
  }

  ghost predicate Possible(a: World, m: Move) {
    match m
    case Look(c, hash, now, found) => CallerOf(a, c).Idle? && IsLookup(a.tokens, hash, now, found)
    case Load(c, ok) => CallerOf(a, c).Found?
    case Spend(c) => CallerOf(a, c).Loaded?
    case Issue(c, parent, minted) =>
      && CallerOf(a, c).Spent? && IsNew(a, minted) && minted.user == CallerOf(a, c).token.user
      && parent < |a.births| && a.births[parent] == CallerOf(a, c).token.id
    case IssueFails(c) => CallerOf(a, c).Spent?
    case Login(minted) => IsNew(a, minted)
    case Logout(id) => true
    case RevokeAll(user) => true
  }

  ghost function After(a: World, m: Move): World
    requires Possible(a, m)
  {
    match m
    case Look(c, hash, now, found) =>
      a.(callers := a.callers[c := if found.Some? then Found(found.value) else Idle])
    case Load(c, ok) => a.(callers := a.callers[c := if ok then Loaded(CallerOf(a, c).token) else Idle])
    case Spend(c) =>
      var t := CallerOf(a, c).token;
      if CanRevoke(a.tokens, t.id) then a.(tokens := Revoked(a.tokens, t.id), callers := a.callers[c := Spent(t)])
      else a.(callers := a.callers[c := Idle])
    case Issue(c, parent, minted) => Born(a, minted, Some(parent)).(callers := a.callers[c := Idle])
    case IssueFails(c) => a.(callers := a.callers[c := Idle])
    case Login(minted) => Born(a, minted, None)
    case Logout(id) => a.(tokens := Revoked(a.tokens, id))
    case RevokeAll(user) => a.(tokens := RevokedFor(a.tokens, user))
  }

  ghost predicate Next(a: World, m: Move, b: World) { Possible(a, m) && b == After(a, m) }

  ghost predicate Execution(worlds: seq<World>, moves: seq<Move>) {
    && |worlds| == |moves| + 1 && worlds[0] == DAWN
    && forall n :: 0 <= n < |moves| ==> Next(worlds[n], moves[n], worlds[n + 1])
  }

  // ---- What every step keeps ----

  /** Positions and ids of the tokens match, and hashes are distinct. */
  ghost predicate Registered(a: World) {
    && |a.births| == |a.parents|
    && (forall i :: 0 <= i < |a.births| ==> a.births[i] in a.tokens)
    && (forall i, k :: 0 <= i < k < |a.births| ==> a.births[i] != a.births[k])
    && (forall id <- a.tokens :: id in a.births && a.tokens[id].id == id)
  }

  ghost predicate SameButFlag(a: Token, b: Token) {
    a.id == b.id && a.user == b.user && a.hash == b.hash && a.expiresAt == b.expiresAt
  }

  /** Callers hold stored tokens, and a spent one is revoked. */
  ghost predicate Holding(a: World) {
    forall c <- a.callers :: !a.callers[c].Idle? ==>
      var t := a.callers[c].token;
      t.id in a.tokens && SameButFlag(a.tokens[t.id], t) && (a.callers[c].Spent? ==> a.tokens[t.id].revoked)
  }

  /** A spent token is held by one caller. */
  ghost predicate SpentOnce(a: World) {
    forall c, d | c in a.callers && d in a.callers && a.callers[c].Spent? && a.callers[d].Spent? ::
      a.callers[c].token.id == a.callers[d].token.id ==> c == d
  }

  /** A spent token has not led to another yet. */
  ghost predicate SpentChildless(a: World)
    requires Registered(a) && OneChild(a.parents)
  {
    forall c, k | c in a.callers && 0 <= k < |a.parents| && a.callers[c].Spent? && a.parents[k].Some? ::
      a.births[a.parents[k].value] != a.callers[c].token.id
  }

  predicate OneChild(parents: seq<Option<nat>>) {
    && (forall k :: 0 <= k < |parents| && parents[k].Some? ==> parents[k].value < k)
    && forall i, k :: 0 <= i < k < |parents| && parents[i].Some? ==> parents[i] != parents[k]
  }

  /** Exchanged tokens are revoked and passed on within one user. */
  ghost predicate Exchanged(a: World)
    requires Registered(a)
  {
    && OneChild(a.parents)
    && forall k :: 0 <= k < |a.parents| && a.parents[k].Some? ==>
         var p := a.tokens[a.births[a.parents[k].value]];
         p.revoked && p.user == a.tokens[a.births[k]].user
  }

  ghost predicate Inv(a: World) {
    Registered(a) && Exchanged(a) && Holding(a) && SpentOnce(a) && SpentChildless(a)
  }

  /** Position `p` holds a revoked token of the user that nobody has exchanged or is about to. */
  ghost predicate Unspent(a: World, user: string, p: nat)
    requires Registered(a)
  {
    && p < |a.births| && a.tokens[a.births[p]].revoked && a.tokens[a.births[p]].user == user
    && Some(p) !in a.parents
    && forall c <- a.callers :: a.callers[c].Spent? ==> a.callers[c].token.id != a.births[p]
  }

  lemma BornRegistered(a: World, t: Token, parent: Option<nat>)
    requires Registered(a) && IsNew(a, t)
    ensures Registered(Born(a, t, parent))
  {
    var b := Born(a, t, parent);
    assert forall i :: 0 <= i < |a.births| ==> b.births[i] == a.births[i] && a.births[i] != t.id;
    assert b.births[|a.births|] == t.id;
  }

  lemma BornExchanged(a: World, t: Token, parent: Option<nat>)
    requires Registered(a) && Exchanged(a) && IsNew(a, t) && Registered(Born(a, t, parent))
    requires parent.Some? ==> Unspent(a, t.user, parent.value)
    ensures Exchanged(Born(a, t, parent))
  {
    var b := Born(a, t, parent);
    assert forall k :: 0 <= k < |a.births| ==> b.births[k] == a.births[k] && b.tokens[b.births[k]] == a.tokens[a.births[k]];
    assert b.tokens[b.births[|a.births|]] == t;
    hide Registered, IsNew;
  }

  lemma BornInv(a: World, t: Token, parent: Option<nat>)
    requires Inv(a) && IsNew(a, t)
    requires parent.Some? ==> Unspent(a, t.user, parent.value)
    ensures Inv(Born(a, t, parent))
  {
    BornRegistered(a, t, parent);
    BornExchanged(a, t, parent);
    BornCallers(a, t, parent);
    BornChildless(a, t, parent);
    hide Registered, Exchanged, Holding, SpentOnce, SpentChildless, IsNew;
  }

  lemma BornCallers(a: World, t: Token, parent: Option<nat>)
    requires Inv(a) && IsNew(a, t) && Registered(Born(a, t, parent)) && Exchanged(Born(a, t, parent))
    requires parent.Some? ==> Unspent(a, t.user, parent.value)
    ensures Holding(Born(a, t, parent)) && SpentOnce(Born(a, t, parent))
  {
    var b := Born(a, t, parent);
    assert forall k :: 0 <= k < |a.births| ==> b.births[k] == a.births[k] && b.parents[k] == a.parents[k];
    assert forall k :: 0 <= k < |a.births| && a.parents[k].Some? ==> a.parents[k].value < |a.births|;
    assert |a.births| == |a.parents|;
    hide Registered, OneChild, IsNew, Exchanged;
    hide SpentChildless, Unspent;
    assert Holding(b) && SpentOnce(b);
  }

  lemma BornChildless(a: World, t: Token, parent: Option<nat>)
    requires Inv(a) && IsNew(a, t) && Registered(Born(a, t, parent)) && Exchanged(Born(a, t, parent))
    requires parent.Some? ==> Unspent(a, t.user, parent.value)
    ensures SpentChildless(Born(a, t, parent))
  {
    var b := Born(a, t, parent);
    assert forall k :: 0 <= k < |a.births| ==> b.births[k] == a.births[k] && b.parents[k] == a.parents[k];
    assert forall k :: 0 <= k < |a.births| && a.parents[k].Some? ==> a.parents[k].value < |a.births|;
    assert |a.births| == |a.parents|;
    hide Registered, OneChild, IsNew, Exchanged, Holding, SpentOnce;
    assert SpentChildless(b);
  }

  lemma IssueInv(a: World, m: Move)
    requires Inv(a) && m.Issue? && Possible(a, m)
    ensures Inv(After(a, m))
  {
    assert m.c in a.callers;
    var free := a.(callers := a.callers[m.c := Idle]);
    CallerInv(a, m.c, Idle);
    assert Unspent(free, m.minted.user, m.parent) by { hide IsNew; }
    BornInv(free, m.minted, Some(m.parent));
    hide Inv;
  }

  /** A caller may drop its token, or hold on to one that is stored, short of spending it. */
  lemma CallerInv(a: World, c: nat, k: Caller)
    requires Inv(a) && !k.Spent?
    requires !k.Idle? ==> k.token.id in a.tokens && SameButFlag(a.tokens[k.token.id], k.token)
    ensures Inv(a.(callers := a.callers[c := k]))
  {
    var b := a.(callers := a.callers[c := k]);
    assert Registered(b);
    assert Exchanged(b);
    hide Registered, Exchanged, OneChild;
    assert SpentChildless(b);
  }

  lemma SpendInv(a: World, m: Move)
    requires Inv(a) && m.Spend? && Possible(a, m) && CanRevoke(a.tokens, CallerOf(a, m.c).token.id)
    ensures Inv(After(a, m))
  {
    var t := CallerOf(a, m.c).token;
    RevokeInv(a, Revoked(a.tokens, t.id));
    var a', b := a.(tokens := Revoked(a.tokens, t.id)), After(a, m);
    assert Registered(b) && Exchanged(b);
    assert forall k :: 0 <= k < |a.parents| && a.parents[k].Some? ==> a.births[a.parents[k].value] != t.id;
    hide Registered, Exchanged, OneChild;
    assert Holding(b) && SpentOnce(b) && SpentChildless(b);
  }

  lemma RevokeInv(a: World, ts: Tokens)
    requires Inv(a) && ts.Keys == a.tokens.Keys
    requires forall id <- ts :: SameButFlag(ts[id], a.tokens[id]) && (a.tokens[id].revoked ==> ts[id].revoked)
    ensures Inv(a.(tokens := ts))
  {
    assert Registered(a.(tokens := ts));
  }

  lemma MoveInv(a: World, m: Move)
    requires Inv(a) && Possible(a, m)
    ensures Inv(After(a, m))
  {
    match m
    case Look(c, hash, now, found) =>
      hide Inv;
      CallerInv(a, c, if found.Some? then Found(found.value) else Idle);
    case Load(c, ok) =>
      assert c in a.callers;
      CallerInv(a, c, if ok then Loaded(CallerOf(a, c).token) else Idle);
      hide Inv;
    case Spend(c) =>
      if CanRevoke(a.tokens, CallerOf(a, c).token.id) { hide Inv; SpendInv(a, m); } else { hide Inv; CallerInv(a, c, Idle); }
    case Issue(c, parent, minted) => hide Inv; IssueInv(a, m);
    case IssueFails(c) => hide Inv; CallerInv(a, c, Idle);
    case Login(minted) => hide Inv; BornInv(a, minted, None);
    case Logout(id) => hide Inv; RevokeInv(a, Revoked(a.tokens, id));
    case RevokeAll(user) => hide Inv; RevokeInv(a, RevokedFor(a.tokens, user));
  }

  lemma StoredIsBorn(a: World, id: string)
    requires Inv(a) && id in a.tokens
    ensures id in a.births
  {
  }

  lemma {:induction false} AlwaysInv(worlds: seq<World>, moves: seq<Move>, n: nat)
    requires Execution(worlds, moves) && n < |worlds|
    ensures Inv(worlds[n])
  {
    hide Possible, After;
    if n > 0 {
      hide Inv;
      AlwaysInv(worlds, moves, n - 1);
      assert Next(worlds[n - 1], moves[n - 1], worlds[n]);
      MoveInv(worlds[n - 1], moves[n - 1]);
    }
  }

  // ---- Lineages ----

  /** The login a token goes back to. */
  function Root(parents: seq<Option<nat>>, i: nat): (r: nat)
    requires OneChild(parents) && i < |parents|
    ensures r <= i && parents[r].None?
  {
    if parents[i].None? then i else Root(parents, parents[i].value)
  }

  /** Was token `j` obtained from token `i` by one or more exchanges? */
  predicate Descends(parents: seq<Option<nat>>, i: nat, j: nat)
    requires OneChild(parents) && j < |parents|
    decreases j
  {
    parents[j].Some? && (parents[j].value == i || Descends(parents, i, parents[j].value))
  }

  /** The token exchanged for `i` on the way from `i` to `j`. */
  lemma {:induction false} FirstStep(parents: seq<Option<nat>>, i: nat, j: nat) returns (k: nat)
    requires OneChild(parents) && j < |parents| && Descends(parents, i, j)
    ensures i < k <= j && parents[k] == Some(i)
    decreases j
  {
    if parents[j].value == i { k := j; } else { k := FirstStep(parents, i, parents[j].value); }
  }

  /** Two tokens of one lineage: the later one descends from the earlier one. */
  lemma {:induction false} LineageIsChain(parents: seq<Option<nat>>, i: nat, j: nat)
    requires OneChild(parents) && i < j < |parents| && Root(parents, i) == Root(parents, j)
    ensures Descends(parents, i, j)
  {
    var p := parents[j].value;
    if p > i {
      LineageIsChain(parents, i, p);
    } else if p < i {
      LineageIsChain(parents, p, i);
      var k := FirstStep(parents, p, i);
    }
  }

  /** Each refresh token yields at most one new pair, however the callers interleave. */
  lemma SingleUse(worlds: seq<World>, moves: seq<Move>, n: nat, i: nat, k: nat)
    requires Execution(worlds, moves) && n < |worlds|
    requires var ps := worlds[n].parents; i < |ps| && k < |ps| && ps[i].Some? && ps[i] == ps[k]
    ensures i == k
  {
    AlwaysInv(worlds, moves, n);
  }

  /** Every lineage is a chain of one user's tokens, and all but its last are revoked: of two
      tokens going back to one login, the earlier one is revoked and led to the later. */
  lemma Lineage(worlds: seq<World>, moves: seq<Move>, n: nat, i: nat, j: nat)
    requires Execution(worlds, moves) && n < |worlds| && i < j < |worlds[n].parents|
    ensures Registered(worlds[n]) && OneChild(worlds[n].parents)
    ensures var a := worlds[n];
            Root(a.parents, i) == Root(a.parents, j) ==>
              && a.tokens[a.births[i]].revoked && Descends(a.parents, i, j)
              && a.tokens[a.births[i]].user == a.tokens[a.births[j]].user
  {
    AlwaysInv(worlds, moves, n);
    var a := worlds[n];
    if Root(a.parents, i) == Root(a.parents, j) {
      LineageIsChain(a.parents, i, j);
      var k := FirstStep(a.parents, i, j);
      SameUser(a, i, j);
    }
  }

  lemma {:induction false} SameUser(a: World, i: nat, j: nat)
    requires Inv(a) && j < |a.parents| && i < |a.births| && Descends(a.parents, i, j)
    ensures a.tokens[a.births[i]].user == a.tokens[a.births[j]].user
    decreases j
  {
    if a.parents[j].value != i { SameUser(a, i, a.parents[j].value); }
  }

  // ---- One call on its own ----

  /** Moves leading from the first of these worlds to the last. */
  ghost predicate Path(worlds: seq<World>, moves: seq<Move>) {
    |worlds| == |moves| + 1 && forall n :: 0 <= n < |moves| ==> Next(worlds[n], moves[n], worlds[n + 1])
  }

  class Auth {
    const store: RefreshStore
    ghost var world: World

    ghost predicate Valid() reads this, store { store.Valid() && store.refresh == world.tokens && Inv(world) }

    constructor ()
      ensures Valid() && world == DAWN && fresh(store)
    {
      store := new RefreshStore();
      world := DAWN;
    }

    /** A call that nothing interrupts: its store calls are the steps the callers interleave. The
        user lookup and the signing of the access token may fail; `drawn` is the new secret. */
    method Refresh(secret: string, now: int, ghost c: nat, userKnown: bool, signed: bool, drawn: Token)
      returns (pair: Option<Token>, ghost worlds: seq<World>, ghost moves: seq<Move>)
      requires Valid() && CallerOf(world, c).Idle? && IsNew(world, drawn)
      modifies this, store
      ensures Valid() && CallerOf(world, c).Idle?
      ensures Path(worlds, moves) && worlds[0] == old(world) && worlds[|moves|] == world
      ensures pair.Some? ==> exists p <- old(world.tokens) ::
                && !old(world).tokens[p].revoked && now <= old(world).tokens[p].expiresAt
                && old(world).tokens[p].hash == Trim(secret)
                && pair == Some(drawn.(user := old(world).tokens[p].user))
                && world.tokens == old(world).tokens[p := old(world).tokens[p].(revoked := true)][drawn.id := pair.value]
      ensures pair.None? && userKnown && signed && Trim(secret) != "" ==> IsLookup(old(world).tokens, Trim(secret), now, None)
    {
      hide Inv;
      pair, worlds, moves := None, [world], [];
      var raw := Trim(secret);
      if raw == "" { return; }
      var found := store.GetRefreshTokenByHash(raw, now);
      worlds, moves := Advance(worlds, moves, Look(c, raw, now, found));
      if found.None? { return; }
      worlds, moves := Advance(worlds, moves, Load(c, userKnown));
      if !userKnown { return; }
      var spent := store.RevokeRefreshToken(found.value.id);
      worlds, moves := Advance(worlds, moves, Spend(c));
      if !spent { return; }
      pair, worlds, moves := IssueTokens(found.value, c, signed, drawn, worlds, moves);
    }

    method IssueTokens(spent: Token, ghost c: nat, signed: bool, drawn: Token, ghost ws: seq<World>, ghost ms: seq<Move>)
      returns (pair: Option<Token>, ghost worlds: seq<World>, ghost moves: seq<Move>)
      requires Valid() && CallerOf(world, c) == Spent(spent) && IsNew(world, drawn)
      requires Path(ws, ms) && ws[|ms|] == world
      modifies this, store
      ensures Valid() && CallerOf(world, c).Idle?
      ensures Path(worlds, moves) && worlds[0] == ws[0] && worlds[|moves|] == world
      ensures pair == if signed then Some(drawn.(user := spent.user)) else None
      ensures world.tokens == if signed then old(world).tokens[drawn.id := pair.value] else old(world).tokens
    {
      worlds, moves, pair := ws, ms, None;
      if !signed {
        hide Inv;
        worlds, moves := Advance(worlds, moves, IssueFails(c));
        return;
      }
      assert c in world.callers;
      StoredIsBorn(world, spent.id);
      hide Inv;
      ghost var k :| 0 <= k < |world.births| && world.births[k] == spent.id;
      var t := drawn.(user := spent.user);
      var stored := store.CreateRefreshToken(t);
      worlds, moves := Advance(worlds, moves, Issue(c, k, t));
      pair := Some(t);
    }

    /** Records one more move of the world. */
    ghost method Advance(worlds: seq<World>, moves: seq<Move>, m: Move) returns (ws: seq<World>, ms: seq<Move>)
      requires Path(worlds, moves) && worlds[|moves|] == world && Inv(world) && Possible(world, m)
      modifies this`world
      ensures world == After(old(world), m) && Inv(world)
      ensures Path(ws, ms) && ws[0] == worlds[0] && ws[|ms|] == world
    {
      hide Inv, After, Possible;
      MoveInv(world, m);
      world := After(world, m);
      ws, ms := worlds + [world], moves + [m];
      forall n | 0 <= n < |ms| ensures Next(ws[n], ms[n], ws[n + 1]) {
        if n < |moves| { assert Next(worlds[n], moves[n], worlds[n + 1]); }
      }
    }
  }
}
