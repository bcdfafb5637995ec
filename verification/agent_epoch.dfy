/** Agent identities: their records, the version that retires tokens, and what an accepted
    token says about the record it was minted under. */
module AgentEpoch {
  import opened Text
  import opened AccessPolicy
  import opened Sorting

  const KNOWN_SCOPES: seq<string> := ["drive.read", "drive.write", "job.run", "provider.read", "provider.write"]

  datatype Agent = Agent(id: string, owner: string, name: string, description: string, active: bool,
                         grants: Grants, version: nat)

  datatype CreateInput = CreateInput(name: string, description: string, scopes: seq<string>, drives: seq<string>,
                                     readPrefixes: seq<string>, writePrefixes: seq<string>)

  datatype UpdateInput = UpdateInput(name: Option<string>, description: Option<string>, status: Option<string>,
                                     scopes: Option<seq<string>>, drives: Option<seq<string>>, setDrives: bool,
                                     readPrefixes: Option<seq<string>>, writePrefixes: Option<seq<string>>)

  // ---- Normal lists ----

  function TrimSlashesLeft(s: string): string { if s != "" && s[0] == '/' then TrimSlashesLeft(s[1..]) else s }

  function TrimSlashesRight(s: string): string {
    if s != "" && s[|s| - 1] == '/' then TrimSlashesRight(s[..|s| - 1]) else s
  }

  /** One entry as stored: trimmed, and for a prefix without the slashes around it. */
  function Cleaned(s: string, isPrefix: bool): string {
    if isPrefix then TrimSlashesRight(TrimSlashesLeft(Trim(s))) else Trim(s)
  }

  /** The non-blank cleaned entries, each where it first occurs. */
  function Normal(raw: seq<string>, isPrefix: bool): (r: seq<string>)
    ensures "" !in r && Distinct(r)
    ensures forall x :: x in r <==> x != "" && exists i :: 0 <= i < |raw| && Cleaned(raw[i], isPrefix) == x
  {
    if raw == [] then []
    else
      var before, x := Normal(raw[..|raw| - 1], isPrefix), Cleaned(raw[|raw| - 1], isPrefix);
      if x == "" || x in before then before else before + [x]
  }

  method Normalize(raw: seq<string>, isPrefix: bool) returns (out: seq<string>)
    ensures out == Normal(raw, isPrefix)
  {
    out := [];
    var seen: set<string> := {};
    for i := 0 to |raw|
      invariant out == Normal(raw[..i], isPrefix) && forall x :: x in seen <==> x in out
    {
      assert raw[..i + 1][..i] == raw[..i];
      var x := Cleaned(raw[i], isPrefix);
      if x != "" && x !in seen {
        seen, out := seen + {x}, out + [x];
      }
    }
    assert raw[..|raw|] == raw;
  }

  predicate AllKnown(scopes: seq<string>) { forall s <- scopes :: Trim(s) in KNOWN_SCOPES }

  predicate AllOwned(drives: seq<string>, owned: set<string>) { forall d <- drives :: d in owned }

  // ---- The state ----

  /** `used` remembers every agent id, deleted ones included; `users` holds their token versions. */
  datatype State = State(agents: map<string, Agent>, users: map<string, nat>, used: set<string>)

  const EMPTY := State(map[], map[], {})

  datatype Event =
    | Create(id: string, owner: string, created: CreateInput, owned: set<string>)
    | Update(id: string, owner: string, update: UpdateInput, owned: set<string>)
    | Delete(id: string, owner: string)
    | BumpAgent(id: string)
    | Register(user: string)
    | BumpUser(user: string)
    | Issue(id: string, owner: string, scopes: seq<string>)

  function NewAgent(id: string, owner: string, c: CreateInput, owned: set<string>): Option<Agent> {
    var scopes := if Normal(c.scopes, false) == [] then ["drive.read", "drive.write"] else Normal(c.scopes, false);
    var drives := Normal(c.drives, false);
    if Trim(c.name) == "" || |Trim(c.name)| > 64 || !AllKnown(scopes) || !AllOwned(drives, owned) then None
    else Some(Agent(id, owner, Trim(c.name), Trim(c.description), true,
                    Grants(scopes, drives, Normal(c.readPrefixes, true), Normal(c.writePrefixes, true)), 0))
  }

  function NewGrants(g: Grants, u: UpdateInput): Grants {
    Grants(if u.scopes.Some? then Normal(u.scopes.value, false) else g.scopes,
           if u.drives.Some? then Normal(u.drives.value, false) else if u.setDrives then [] else g.drives,
           if u.readPrefixes.Some? then Normal(u.readPrefixes.value, true) else g.readPrefixes,
           if u.writePrefixes.Some? then Normal(u.writePrefixes.value, true) else g.writePrefixes)
  }

  predicate UpdateOk(u: UpdateInput, g: Grants, owned: set<string>) {
    && (u.name.Some? ==> Trim(u.name.value) != "")
    && (u.status.Some? ==> Trim(u.status.value) == "active" || Trim(u.status.value) == "disabled")
    && (u.scopes.Some? ==> AllKnown(NewGrants(g, u).scopes))
    && (u.drives.Some? ==> AllOwned(NewGrants(g, u).drives, owned))
  }

  lemma UpdateOkLaw(u: UpdateInput, g: Grants, owned: set<string>)
    ensures UpdateOk(u, g, owned) <==>
      && (u.name.Some? ==> Trim(u.name.value) != "")
      && (u.status.Some? ==> Trim(u.status.value) == "active" || Trim(u.status.value) == "disabled")
      && (u.scopes.Some? ==> AllKnown(Normal(u.scopes.value, false)))
      && (u.drives.Some? ==> forall d <- Normal(u.drives.value, false) :: d in owned)
  {
    hide Trim, Normal;
  }

  /** The record an accepted update stores: its version moves on when the agent is disabled or
      any grant is tightened. */
  function Patched(a: Agent, u: UpdateInput): Agent {
    var active := if u.status.Some? then Trim(u.status.value) == "active" else a.active;
    var g := NewGrants(a.grants, u);
    Agent(a.id, a.owner, if u.name.Some? then Trim(u.name.value) else a.name,
          if u.description.Some? then Trim(u.description.value) else a.description,
          active, g, if (a.active && !active) || Tightened(a.grants, g) then a.version + 1 else a.version)
  }

  predicate Owns(s: State, owner: string, id: string) { id in s.agents && s.agents[id].owner == owner }

  /** Every call, with those that fail leaving the state as it was. */
  function Apply(s: State, e: Event): State {
    match e
    case Create(id, owner, c, owned) =>
      if id in s.used || NewAgent(id, owner, c, owned).None? then s
      else s.(agents := s.agents[id := NewAgent(id, owner, c, owned).value], used := s.used + {id})
    case Update(id, owner, u, owned) =>
      if Owns(s, owner, id) && UpdateOk(u, s.agents[id].grants, owned) then
        s.(agents := s.agents[id := Patched(s.agents[id], u)])
      else s
    case Delete(id, owner) => if Owns(s, owner, id) then s.(agents := s.agents - {id}) else s
    case BumpAgent(id) =>
      if id in s.agents then s.(agents := s.agents[id := s.agents[id].(version := s.agents[id].version + 1)]) else s
    case Register(user) => if user in s.users then s else s.(users := s.users[user := 0])
    case BumpUser(user) => if user in s.users then s.(users := s.users[user := s.users[user] + 1]) else s
    case Issue(id, owner, scopes) => s
  }

  // ---- Tokens ----

  datatype Token = Token(agent: string, agentVersion: nat, user: string, userVersion: nat, scopes: seq<string>)

  /** The token the endpoint hands out: only for an active agent of the caller, by default with
      the agent's own scopes. */
  function Mint(s: State, id: string, owner: string, scopes: seq<string>): Option<Token> {
    if !Owns(s, owner, id) || !s.agents[id].active || owner !in s.users || id == "" then None
    else
      var asked := Normal(if scopes == [] then s.agents[id].grants.scopes else scopes, false);
      if !AllKnown(asked) then None
      else Some(Token(id, s.agents[id].version, owner, s.users[owner], asked))
  }

  /** The version checks of token parsing; expiry and the deny list can only refuse more. */
  predicate Accepted(s: State, t: Token) {
    && t.user in s.users && s.users[t.user] == t.userVersion
    && t.agent in s.agents && s.agents[t.agent].active && s.agents[t.agent].version == t.agentVersion
  }

  /** A token is refused unless both versions are current and its agent is active. */
  lemma AcceptedLaw(s: State, t: Token)
    ensures Accepted(s, t) <==>
      && t.user in s.users && t.userVersion == s.users[t.user]
      && t.agent in s.agents && t.agentVersion == s.agents[t.agent].version && s.agents[t.agent].active
  {
  }

  lemma KnownLaw(scopes: seq<string>)
    ensures AllKnown(scopes) <==> forall s <- scopes ::
      Trim(s) == "drive.read" || Trim(s) == "drive.write" || Trim(s) == "job.run" || Trim(s) == "provider.read" || Trim(s) == "provider.write"
  {
    hide Trim;
  }

  /** Prefixes lose the slashes around them, all of them. */
  lemma {:induction false} SlashLaw(s: string) returns (a: string, b: string)
    ensures s == a + TrimSlashesRight(TrimSlashesLeft(s)) + b
    ensures (forall i :: 0 <= i < |a| ==> a[i] == '/') && (forall i :: 0 <= i < |b| ==> b[i] == '/')
    ensures var r := TrimSlashesRight(TrimSlashesLeft(s)); r == "" || (r[0] != '/' && r[|r| - 1] != '/')
    decreases |s|
  {
    if s != "" && s[0] == '/' {
      var c;
      c, b := SlashLaw(s[1..]);
      a := [s[0]] + c;
    } else if s != "" && s[|s| - 1] == '/' {
      assert TrimSlashesLeft(s) == s && TrimSlashesLeft(s[..|s| - 1]) == s[..|s| - 1];
      var c;
      a, c := SlashLaw(s[..|s| - 1]);
      b := c + [s[|s| - 1]];
    } else {
      a, b := "", "";
    }
  }

  lemma CleanedLaw(s: string)
    ensures Cleaned(s, false) == Trim(s) && Cleaned(s, true) == TrimSlashesRight(TrimSlashesLeft(Trim(s)))
  {
  }

  // ---- The service ----

  class AgentService {
    var agents: map<string, Agent>
    var users: map<string, nat>
    var used: set<string>

    function Now(): State reads this { State(agents, users, used) }

    constructor ()
      ensures Now() == EMPTY
    {
      agents, users, used := map[], map[], {};
    }

    method CreateAgent(id: string, owner: string, c: CreateInput, owned: set<string>) returns (r: Option<Agent>)
      requires id !in used
      modifies this
      ensures Now() == Apply(old(Now()), Create(id, owner, c, owned))
      ensures r == NewAgent(id, owner, c, owned)
      ensures r.Some? ==> agents == old(agents)[id := r.value] && r.value.id == id && r.value.owner == owner && r.value.active
                          && r.value.version == 0 && r.value.name == Trim(c.name) && 0 < |Trim(c.name)| <= 64
                          && r.value.grants.scopes == (if Normal(c.scopes, false) == [] then ["drive.read", "drive.write"]
                                                       else Normal(c.scopes, false))
                          && r.value.grants.drives == Normal(c.drives, false)
                          && r.value.grants.readPrefixes == Normal(c.readPrefixes, true)
                          && r.value.grants.writePrefixes == Normal(c.writePrefixes, true)
      ensures r.None? ==> agents == old(agents)
      ensures r.Some? <==>
                var scopes := if Normal(c.scopes, false) == [] then ["drive.read", "drive.write"] else Normal(c.scopes, false);
                0 < |Trim(c.name)| <= 64 && AllKnown(scopes) && forall d <- Normal(c.drives, false) :: d in owned
    {
      var name := Trim(c.name);
      if name == "" || |name| > 64 { return None; }
      var scopes := Normalize(c.scopes, false);
      if |scopes| == 0 { scopes := ["drive.read", "drive.write"]; }
      if !AllKnown(scopes) { return None; }
      var drives := Normalize(c.drives, false);
      if !AllOwned(drives, owned) { return None; }
      var read := Normalize(c.readPrefixes, true);
      var write := Normalize(c.writePrefixes, true);
      var a := Agent(id, owner, name, Trim(c.description), true, Grants(scopes, drives, read, write), 0);
      agents, used := agents[id := a], used + {id};
      r := Some(a);
    }

    method UpdateAgent(id: string, owner: string, u: UpdateInput, owned: set<string>) returns (r: Option<Agent>)
      modifies this
      ensures Now() == Apply(old(Now()), Update(id, owner, u, owned))
      ensures r == if Owns(old(Now()), owner, id) && UpdateOk(u, old(agents)[id].grants, owned) then
                     Some(Patched(old(agents)[id], u)) else None
      ensures r.Some? ==>
                var a, b := old(agents)[id], r.value;
                && agents == old(agents)[id := b] && b.id == a.id && b.owner == a.owner == owner
                && b.name == (if u.name.Some? then Trim(u.name.value) else a.name)
                && b.active == (if u.status.Some? then Trim(u.status.value) == "active" else a.active)
                && b.grants.scopes == (if u.scopes.Some? then Normal(u.scopes.value, false) else a.grants.scopes)
                && b.grants.drives == (if u.drives.Some? then Normal(u.drives.value, false)
                                       else if u.setDrives then [] else a.grants.drives)
                && b.grants.readPrefixes == (if u.readPrefixes.Some? then Normal(u.readPrefixes.value, true) else a.grants.readPrefixes)
                && b.grants.writePrefixes == (if u.writePrefixes.Some? then Normal(u.writePrefixes.value, true) else a.grants.writePrefixes)
                && b.version == (if (a.active && !b.active) || Tightened(a.grants, b.grants) then a.version + 1 else a.version)
      ensures r.None? ==> agents == old(agents)
      ensures r.Some? <==>
                && id in old(agents) && old(agents)[id].owner == owner
                && (u.name.Some? ==> Trim(u.name.value) != "")
                && (u.status.Some? ==> Trim(u.status.value) == "active" || Trim(u.status.value) == "disabled")
                && (u.scopes.Some? ==> AllKnown(Normal(u.scopes.value, false)))
                && (u.drives.Some? ==> forall d <- Normal(u.drives.value, false) :: d in owned)
    {
      hide Tightened, UpdateOk, Normal, AllKnown, Trim;
      if id !in agents || agents[id].owner != owner { return None; }
      var prev := agents[id];
      UpdateOkLaw(u, prev.grants, owned);
      var ok, a := Patch(prev, u, owned);
      if !ok { return None; }
      a := Retire(prev, a);
      agents := agents[id := a];
      r := Some(a);
    }

    /** Moves the version on when the agent is disabled or any grant is tightened. */
    method Retire(prev: Agent, patched: Agent) returns (a: Agent)
      ensures a == patched.(version := if (prev.active && !patched.active) || Tightened(prev.grants, patched.grants)
                                       then patched.version + 1 else patched.version)
    {
      hide ListTightened, ScopesTightened;
      a := patched;
      var revoke := false;
      if !a.active && prev.active { revoke := true; }
      if ScopesTightened(prev.grants.scopes, a.grants.scopes) { revoke := true; }
      if ListTightened(prev.grants.drives, a.grants.drives) { revoke := true; }
      if ListTightened(prev.grants.readPrefixes, a.grants.readPrefixes)
         || ListTightened(prev.grants.writePrefixes, a.grants.writePrefixes) { revoke := true; }
      if revoke { a := a.(version := a.version + 1); }
    }

    /** The patched record, before its version is settled. */
    method Patch(prev: Agent, u: UpdateInput, owned: set<string>) returns (ok: bool, a: Agent)
      ensures ok == UpdateOk(u, prev.grants, owned)
      ensures ok ==> a == Patched(prev, u).(version := prev.version)
    {
      hide Tightened, Trim, NewGrants, AllKnown, AllOwned;
      ok, a := false, prev;
      if u.name.Some? {
        var n := Trim(u.name.value);
        if n == "" { return; }
        a := a.(name := n);
      }
      if u.description.Some? { a := a.(description := Trim(u.description.value)); }
      if u.status.Some? {
        var st := Trim(u.status.value);
        if st != "active" && st != "disabled" { return; }
        a := a.(active := st == "active");
      }
      var good, g := PatchGrants(prev.grants, u, owned);
      ok, a := good, a.(grants := g);
    }

    method PatchGrants(prev: Grants, u: UpdateInput, owned: set<string>) returns (ok: bool, g: Grants)
      ensures ok == ((u.scopes.Some? ==> AllKnown(NewGrants(prev, u).scopes))
                     && (u.drives.Some? ==> AllOwned(NewGrants(prev, u).drives, owned)))
      ensures ok ==> g == NewGrants(prev, u)
    {
      ok, g := false, prev;
      if u.scopes.Some? {
        var scopes := Normalize(u.scopes.value, false);
        if !AllKnown(scopes) { return; }
        g := g.(scopes := scopes);
      }
      if u.setDrives || u.drives.Some? {
        var drives := Normalize(if u.drives.Some? then u.drives.value else [], false);
        if !AllOwned(drives, owned) { return; }
        g := g.(drives := drives);
      }
      hide AllKnown, AllOwned, Normal;
      if u.readPrefixes.Some? {
        var ps := Normalize(u.readPrefixes.value, true);
        g := g.(readPrefixes := ps);
      }
      if u.writePrefixes.Some? {
        var ps := Normalize(u.writePrefixes.value, true);
        g := g.(writePrefixes := ps);
      }
      ok := true;
    }

    method DeleteAgent(id: string, owner: string) returns (ok: bool)
      modifies this
      ensures ok == Owns(old(Now()), owner, id)
      ensures Now() == Apply(old(Now()), Delete(id, owner))
    {
      if id !in agents || agents[id].owner != owner { return false; }
      agents := agents - {id};
      ok := true;
    }

    method IssueToken(id: string, owner: string, scopes: seq<string>) returns (t: Option<Token>)
      ensures t == Mint(Now(), id, owner, scopes)
      ensures t.Some? ==> id in agents && agents[id].owner == owner && agents[id].active && owner in users
                          && t.value.agent == id && t.value.agentVersion == agents[id].version
                          && t.value.user == owner && t.value.userVersion == users[owner]
                          && t.value.scopes == Normal(if scopes == [] then agents[id].grants.scopes else scopes, false)
                          && AllKnown(t.value.scopes)
      ensures t.None? ==> id == "" || id !in agents || agents[id].owner != owner || !agents[id].active || owner !in users
                          || !AllKnown(Normal(if scopes == [] then agents[id].grants.scopes else scopes, false))
    {
      if id !in agents || agents[id].owner != owner { return None; }
      if !agents[id].active { return None; }
      var asked := scopes;
      if |asked| == 0 { asked := agents[id].grants.scopes; }
      if owner !in users || id == "" { return None; }
      asked := Normalize(asked, false);
      if !AllKnown(asked) { return None; }
      t := Some(Token(id, agents[id].version, owner, users[owner], asked));
    }
  }

  // ---- Runs ----

  ghost predicate Legal(states: seq<State>, events: seq<Event>) {
    && |states| == |events| + 1 && states[0] == EMPTY
    && forall n :: 0 <= n < |events| ==> states[n + 1] == Apply(states[n], events[n])
  }

  predicate AllTrimmed(xs: seq<string>) { forall x <- xs :: Trim(x) == x }

  /** Grants as the service stores them: no blank drive, scopes without surrounding spaces. */
  predicate Stored(g: Grants) { "" !in g.drives && AllTrimmed(g.scopes) }

  /** Records are stored under their own id, and every id was used. */
  ghost predicate Tracked(s: State) {
    forall id <- s.agents :: s.agents[id].id == id && id in s.used && Stored(s.agents[id].grants)
  }

  lemma NormalTrimmed(raw: seq<string>)
    ensures AllTrimmed(Normal(raw, false))
  {
    forall x | x in Normal(raw, false) ensures Trim(x) == x {
      var i :| 0 <= i < |raw| && Cleaned(raw[i], false) == x;
      TrimIdempotent(raw[i]);
    }
  }

  lemma NormalOfTrimmed(xs: seq<string>)
    requires AllTrimmed(xs)
    ensures Includes(Normal(xs, false), xs)
  {
    forall x | x in Normal(xs, false) ensures x in xs {
      var i :| 0 <= i < |xs| && Cleaned(xs[i], false) == x;
      assert xs[i] in xs;
    }
  }

  /** What one event can do to a known agent: it goes for good, its version moves on, or it
      stays active if it was and keeps all it granted. */
  lemma OneStep(s: State, e: Event, id: string)
    requires Tracked(s) && id in s.used
    ensures var t := Apply(s, e);
            && Tracked(t) && id in t.used
            && (id in t.agents ==> id in s.agents && s.agents[id].version <= t.agents[id].version)
            && (id in t.agents && s.agents[id].version == t.agents[id].version ==>
                  Covers(s.agents[id].grants, t.agents[id].grants) && (s.agents[id].active ==> t.agents[id].active))
  {
    hide Covers, Tightened, UpdateOk, NewGrants, NewAgent;
    if id in s.agents {
      CoversReflexive(s.agents[id].grants);
      if e.Update? && e.id == id && !Tightened(s.agents[id].grants, NewGrants(s.agents[id].grants, e.update)) {
        UntightenedCovers(s.agents[id].grants, NewGrants(s.agents[id].grants, e.update));
      }
    }
    if e.Create? { NewAgentId(e.id, e.owner, e.created, e.owned); }
    if e.Update? && e.id in s.agents { NewGrantsStored(s.agents[e.id].grants, e.update); }
  }

  lemma NewAgentId(id: string, owner: string, c: CreateInput, owned: set<string>)
    ensures var a := NewAgent(id, owner, c, owned); a.Some? ==> a.value.id == id && Stored(a.value.grants)
  {
    NormalTrimmed(c.scopes);
    TrimTidy("drive.read");
    TrimTidy("drive.write");
    assert AllTrimmed(["drive.read", "drive.write"]);
    hide Normal, AllKnown, AllOwned, AllTrimmed, Trim;
  }

  lemma NewGrantsStored(g: Grants, u: UpdateInput)
    requires Stored(g)
    ensures Stored(NewGrants(g, u))
  {
    if u.scopes.Some? { NormalTrimmed(u.scopes.value); }
  }

  /** Was this agent, from event `m` to event `n`, active at this version with ever wider grants? */
  ghost predicate Steady(states: seq<State>, id: string, version: nat, m: nat, n: nat) {
    m <= n < |states| && forall k :: m <= k <= n ==>
      && id in states[k].agents && states[k].agents[id].version == version && states[k].agents[id].active
      && id in states[m].agents && Covers(states[m].agents[id].grants, states[k].agents[id].grants)
      && id in states[n].agents && Covers(states[k].agents[id].grants, states[n].agents[id].grants)
  }

  lemma {:induction false} TrackedRun(states: seq<State>, events: seq<Event>, n: nat)
    requires Legal(states, events) && n < |states|
    ensures Tracked(states[n])
  {
    hide Apply;
    if n > 0 {
      TrackedRun(states, events, n - 1);
      assert states[n] == Apply(states[n - 1], events[n - 1]);
      TrackedStep(states[n - 1], events[n - 1]);
    }
  }

  lemma TrackedStep(s: State, e: Event)
    requires Tracked(s)
    ensures Tracked(Apply(s, e))
  {
    hide Tightened, UpdateOk, NewGrants, NewAgent;
    if e.Create? { NewAgentId(e.id, e.owner, e.created, e.owned); }
    if e.Update? && e.id in s.agents { NewGrantsStored(s.agents[e.id].grants, e.update); }
  }

  lemma {:induction false} SteadyRun(states: seq<State>, events: seq<Event>, id: string, m: nat, n: nat)
    requires Legal(states, events) && m <= n < |states|
    requires id in states[m].agents && id in states[m].used && states[m].agents[id].active
    ensures id in states[n].used
    ensures id in states[n].agents ==> states[m].agents[id].version <= states[n].agents[id].version
    ensures id in states[n].agents && states[m].agents[id].version == states[n].agents[id].version ==>
              Steady(states, id, states[m].agents[id].version, m, n)
  {
    hide Apply, Covers;
    if m == n {
      CoversReflexive(states[m].agents[id].grants);
    } else {
      SteadyRun(states, events, id, m, n - 1);
      TrackedRun(states, events, n - 1);
      assert states[n] == Apply(states[n - 1], events[n - 1]);
      OneStep(states[n - 1], events[n - 1], id);
      if id in states[n].agents && states[m].agents[id].version == states[n].agents[id].version {
        var g := states[n].agents[id].grants;
        CoversReflexive(g);
        forall k | m <= k < n ensures Covers(states[k].agents[id].grants, g) {
          CoversTransitive(states[k].agents[id].grants, states[n - 1].agents[id].grants, g);
        }
      }
    }
  }

  lemma {:induction false} UserVersions(states: seq<State>, events: seq<Event>, user: string, m: nat, n: nat)
    requires Legal(states, events) && m <= n < |states| && user in states[m].users
    ensures user in states[n].users && states[m].users[user] <= states[n].users[user]
  {
    hide UpdateOk, NewAgent, Patched;
    if m < n {
      UserVersions(states, events, user, m, n - 1);
      assert states[n] == Apply(states[n - 1], events[n - 1]);
    }
  }

  /** An accepted token: from its minting until now the agent existed, was active, kept its
      version and never lost a scope, a drive or a path, and no session of the user was revoked. */
  lemma AcceptedTokenEpoch(states: seq<State>, events: seq<Event>, m: nat, n: nat)
    requires Legal(states, events) && m < n < |states| && events[m].Issue?
    requires var e := events[m]; var t := Mint(states[m], e.id, e.owner, e.scopes); t.Some? && Accepted(states[n], t.value)
    ensures Steady(states, events[m].id, states[m].agents[events[m].id].version, m, n)
    ensures forall k :: m <= k <= n ==>
              events[m].owner in states[k].users && states[k].users[events[m].owner] == states[m].users[events[m].owner]
  {
    hide Apply, Normal, AllKnown, Steady;
    var e := events[m];
    TrackedRun(states, events, m);
    SteadyRun(states, events, e.id, m, n);
    forall k | m <= k <= n
      ensures e.owner in states[k].users && states[k].users[e.owner] == states[m].users[e.owner]
    {
      UserVersions(states, events, e.owner, m, k);
      UserVersions(states, events, e.owner, k, n);
    }
  }

  /** The agent of a token is revoked, deleted by its owner or disabled, or all sessions of its
      user are revoked. */
  predicate Revokes(s: State, e: Event, t: Token) {
    || (e.BumpAgent? && e.id == t.agent)
    || (e.BumpUser? && e.user == t.user)
    || (e.Delete? && e.id == t.agent && Owns(s, e.owner, e.id))
    || (e.Update? && e.id == t.agent && Owns(s, e.owner, e.id) && UpdateOk(e.update, s.agents[e.id].grants, e.owned)
        && e.update.status.Some? && Trim(e.update.status.value) == "disabled")
  }

  /** A token minted before such an event is never accepted after it, whatever else happens. */
  lemma RevocationIsFinal(states: seq<State>, events: seq<Event>, i: nat, m: nat, n: nat, token: Token)
    requires Legal(states, events) && i < m < n < |states| && events[i].Issue?
    requires Mint(states[i], events[i].id, events[i].owner, events[i].scopes) == Some(token)
    requires Revokes(states[m], events[m], token)
    ensures !(&& token.user in states[n].users && states[n].users[token.user] == token.userVersion
              && token.agent in states[n].agents && states[n].agents[token.agent].active
              && states[n].agents[token.agent].version == token.agentVersion)
  {
    hide Normal, AllKnown, Steady, Covers, Revokes, Apply;
    if Accepted(states[n], token) {
      AcceptedTokenEpoch(states, events, i, n);
      StillValid(states, events, i, m, n, token);
      StillValid(states, events, i, m + 1, n, token);
      assert states[m + 1] == Apply(states[m], events[m]);
      RevokedNow(states[m], events[m], token);
    }
  }

  lemma StillValid(states: seq<State>, events: seq<Event>, i: nat, k: nat, n: nat, token: Token)
    requires Legal(states, events) && i <= k <= n < |states| && i < |events| && events[i].Issue?
    requires Mint(states[i], events[i].id, events[i].owner, events[i].scopes) == Some(token)
    requires Steady(states, events[i].id, states[i].agents[events[i].id].version, i, n)
    requires events[i].owner in states[k].users && states[k].users[events[i].owner] == states[i].users[events[i].owner]
    ensures Accepted(states[k], token)
  {
    hide Normal, AllKnown, Covers, Apply, Legal;
  }

  lemma RevokedNow(s: State, e: Event, t: Token)
    requires Revokes(s, e, t) && Accepted(s, t)
    ensures !Accepted(Apply(s, e), t)
  {
    hide UpdateOk, NewGrants, Tightened;
  }

  /** Whatever an accepted token allowed when it was minted, under the scopes it carries, it
      still allows and did all along; and so it was with the agent's own scopes, which a token
      minted without asking for others carries and still finds on the record. */
  lemma NothingLost(states: seq<State>, events: seq<Event>, m: nat, k: nat, n: nat, token: Token, r: Request)
    requires Legal(states, events) && m <= k <= n < |states| && m < n && events[m].Issue?
    requires Mint(states[m], events[m].id, events[m].owner, events[m].scopes) == Some(token) && Accepted(states[n], token)
    ensures token.agent in states[m].agents && token.agent in states[k].agents
    ensures var g, h := states[m].agents[token.agent].grants, states[k].agents[token.agent].grants;
            && (Allows(g, token.scopes, r) ==> Allows(h, token.scopes, r))
            && (Allows(g, g.scopes, r) ==> Allows(h, h.scopes, r))
            && (events[m].scopes == [] ==> Includes(token.scopes, h.scopes))
  {
    hide Accepted, Allows, Covers, Normal, AllKnown;
    AcceptedTokenEpoch(states, events, m, n);
    assert Steady(states, token.agent, states[m].agents[token.agent].version, m, n);
    var g, h := states[m].agents[token.agent].grants, states[k].agents[token.agent].grants;
    CoversIncludes(g, h);
    TrackedRun(states, events, m);
    NormalOfTrimmed(g.scopes);
    if Allows(g, token.scopes, r) { CoversAllows(g, h, token.scopes, token.scopes, r); }
    if Allows(g, g.scopes, r) { CoversAllows(g, h, g.scopes, h.scopes, r); }
  }

  lemma CoversIncludes(a: Grants, b: Grants)
    requires Covers(a, b)
    ensures Includes(a.scopes, b.scopes)
  {
  }

  /** An update of nothing but the drives retires the tokens exactly when some drive the agent
      could reach is out of reach afterwards. */
  lemma DrivesUpdateRetiresExactly(states: seq<State>, events: seq<Event>, n: nat)
    requires Legal(states, events) && n < |events| && events[n].Update? && Owns(states[n], events[n].owner, events[n].id)
    requires var e := events[n]; var g := states[n].agents[e.id].grants;
             && UpdateOk(e.update, g, e.owned) && NewGrants(g, e.update) == g.(drives := NewGrants(g, e.update).drives)
             && e.update.status.None?
    ensures events[n].id in states[n + 1].agents
    ensures var a, b := states[n].agents[events[n].id], states[n + 1].agents[events[n].id];
            a.version != b.version <==> !DrivesKept(a.grants, b.grants)
  {
    hide NewGrants, UpdateOk, DrivesKept;
    TrackedRun(states, events, n);
    TrackedRun(states, events, n + 1);
    assert states[n + 1] == Apply(states[n], events[n]);
    DrivesTightenedExactly(states[n].agents[events[n].id].grants, states[n + 1].agents[events[n].id].grants);
  }
}
