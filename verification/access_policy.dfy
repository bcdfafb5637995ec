/** The built-in access checks on an agent's requests, and what they depend on. */
module AccessPolicy {
  import opened Text

  /** What an agent record says about access. An empty list of drives or prefixes means all. */
  datatype Grants = Grants(scopes: seq<string>, drives: seq<string>, readPrefixes: seq<string>, writePrefixes: seq<string>)

  datatype Request = Request(action: string, driveId: string, path: string)

  predicate Includes(small: seq<string>, big: seq<string>) { forall x <- small :: x in big }

  predicate HasScope(scopes: seq<string>, need: string) {
    || need in scopes
    || (need == "drive.read" && "drive.write" in scopes)
    || (need == "provider.read" && "provider.write" in scopes)
  }

  function ScopeForAction(action: string): string {
    if action == "drive.read" || action == "drive.session" || action == "path.read" then "drive.read"
    else if action == "drive.write" || action == "path.write" then "drive.write"
    else if action == "job.run" || action == "provider.read" || action == "provider.write" then action
    else ""
  }

  predicate CanAccessDrive(allowed: seq<string>, drive: string) {
    drive == "" || allowed == [] || drive in allowed
  }

  /** A listed prefix without surrounding spaces and one leading slash. */
  function Bare(prefix: string): string { TrimOnePrefix(Trim(prefix), "/") }

  predicate PrefixMatches(path: string, prefix: string) {
    var pref := Bare(prefix);
    var p := TrimOnePrefix(path, "/");
    || pref == "" || pref == "*"
    || p == pref || HasPrefix(p, pref + "/") || HasPrefix(path, pref)
    || Contains(path, "/" + pref) || HasSuffix(path, pref)
  }

  predicate PrefixOk(path: string, prefixes: seq<string>) {
    exists i :: 0 <= i < |prefixes| && PrefixMatches(Trim(path), prefixes[i])
  }

  predicate CanAccessPath(prefixes: seq<string>, path: string) {
    path == "" || prefixes == [] || PrefixOk(path, prefixes)
  }

  /** The built-in part of the decision for an agent whose token carries `scopes`. */
  predicate Allows(g: Grants, scopes: seq<string>, r: Request) {
    && (ScopeForAction(r.action) == "" || HasScope(scopes, ScopeForAction(r.action)))
    && CanAccessDrive(g.drives, r.driveId)
    && (r.action == "path.write" || r.action == "drive.write" ==> CanAccessPath(g.writePrefixes, r.path))
    && (r.action == "path.read" || r.action == "drive.read" || r.action == "drive.session" ==>
          CanAccessPath(g.readPrefixes, r.path))
  }

  lemma PrefixLaw(path: string, prefix: string)
    ensures var f := if HasPrefix(Trim(prefix), "/") then Trim(prefix)[1..] else Trim(prefix);
            var p := if HasPrefix(path, "/") then path[1..] else path;
            PrefixMatches(path, prefix) <==>
              f == "" || f == "*" || p == f || f + "/" <= p || f <= path || Contains(path, "/" + f) || HasSuffix(path, f)
  {
    hide Contains, HasSuffix, Trim;
  }

  /** Which scope, drive and path each action asks for. */
  lemma AllowsLaw(g: Grants, scopes: seq<string>, r: Request)
    ensures r.action == "drive.read" || r.action == "drive.session" || r.action == "path.read" ==>
              (Allows(g, scopes, r) <==>
                 && ("drive.read" in scopes || "drive.write" in scopes)
                 && (r.driveId == "" || g.drives == [] || r.driveId in g.drives)
                 && (r.path == "" || g.readPrefixes == [] || exists i :: 0 <= i < |g.readPrefixes| && PrefixMatches(Trim(r.path), g.readPrefixes[i])))
    ensures r.action == "drive.write" || r.action == "path.write" ==>
              (Allows(g, scopes, r) <==>
                 && "drive.write" in scopes
                 && (r.driveId == "" || g.drives == [] || r.driveId in g.drives)
                 && (r.path == "" || g.writePrefixes == [] || exists i :: 0 <= i < |g.writePrefixes| && PrefixMatches(Trim(r.path), g.writePrefixes[i])))
    ensures r.action == "job.run" || r.action == "provider.write" ==>
              (Allows(g, scopes, r) <==> r.action in scopes && (r.driveId == "" || g.drives == [] || r.driveId in g.drives))
    ensures r.action == "provider.read" ==>
              (Allows(g, scopes, r) <==> ("provider.read" in scopes || "provider.write" in scopes)
                                         && (r.driveId == "" || g.drives == [] || r.driveId in g.drives))
  {
    hide PrefixMatches;
  }

  // ---- Tightening ----

  predicate ScopesTightened(old': seq<string>, new': seq<string>) {
    old' != new' && !Includes(old', new')
  }

  /** Also used for prefixes, which the program tests with the same code. */
  predicate ListTightened(old': seq<string>, new': seq<string>) {
    if old' == new' then false
    else if old' == [] && new' != [] then true
    else if old' != [] && new' == [] then false
    else !Includes(old', new')
  }

  predicate Tightened(a: Grants, b: Grants) {
    || ScopesTightened(a.scopes, b.scopes) || ListTightened(a.drives, b.drives)
    || ListTightened(a.readPrefixes, b.readPrefixes) || ListTightened(a.writePrefixes, b.writePrefixes)
  }

  ghost predicate DrivesKept(a: Grants, b: Grants) {
    forall d: string :: CanAccessDrive(a.drives, d) ==> CanAccessDrive(b.drives, d)
  }

  ghost predicate PathsKept(p: seq<string>, q: seq<string>) {
    forall path: string :: CanAccessPath(p, path) ==> CanAccessPath(q, path)
  }

  /** Everything `a` grants, `b` grants too. */
  ghost predicate Covers(a: Grants, b: Grants) {
    && Includes(a.scopes, b.scopes) && DrivesKept(a, b)
    && PathsKept(a.readPrefixes, b.readPrefixes) && PathsKept(a.writePrefixes, b.writePrefixes)
  }

  lemma PrefixOkMonotone(path: string, p: seq<string>, q: seq<string>)
    requires Includes(p, q) && PrefixOk(path, p)
    ensures PrefixOk(path, q)
  {
    hide PrefixMatches, Trim;
    var i :| 0 <= i < |p| && PrefixMatches(Trim(path), p[i]);
    assert p[i] in q;
    var k :| 0 <= k < |q| && q[k] == p[i];
  }

  lemma ListKept(p: seq<string>, q: seq<string>)
    requires !ListTightened(p, q)
    ensures PathsKept(p, q)
  {
    forall path: string | CanAccessPath(p, path) ensures CanAccessPath(q, path) {
      hide PrefixOk;
      if path != "" && q != [] { PrefixOkMonotone(path, p, q); }
    }
  }

  /** A change the tests do not call a tightening takes nothing away. */
  lemma UntightenedCovers(a: Grants, b: Grants)
    requires !Tightened(a, b)
    ensures Covers(a, b)
  {
    hide PathsKept;
    ListKept(a.readPrefixes, b.readPrefixes);
    ListKept(a.writePrefixes, b.writePrefixes);
  }

  /** For non-blank drive ids the test is exact: it fires when and only when a drive is lost. */
  lemma DrivesTightenedExactly(a: Grants, b: Grants)
    requires "" !in a.drives && "" !in b.drives
    ensures ListTightened(a.drives, b.drives) <==> !DrivesKept(a, b)
  {
    if a.drives == [] && b.drives != [] {
      var d := Longer(b.drives);
      assert CanAccessDrive(a.drives, d) && !CanAccessDrive(b.drives, d);
    } else if ListTightened(a.drives, b.drives) {
      var d :| d in a.drives && d !in b.drives;
      assert CanAccessDrive(a.drives, d) && !CanAccessDrive(b.drives, d);
    }
  }

  /** A non-empty string longer than every listed one, hence not listed. */
  lemma Longer(xs: seq<string>) returns (d: string)
    ensures d != "" && forall x <- xs :: |x| < |d|
  {
    d := "x";
    for i := 0 to |xs|
      invariant d != "" && forall k :: 0 <= k < i ==> |xs[k]| < |d|
    {
      d := d + xs[i] + "x";
    }
  }

  lemma CoversTransitive(a: Grants, b: Grants, c: Grants)
    requires Covers(a, b) && Covers(b, c)
    ensures Covers(a, c)
  {
    hide CanAccessDrive, CanAccessPath;
  }

  lemma CoversReflexive(a: Grants)
    ensures Covers(a, a)
  {
    hide CanAccessDrive, CanAccessPath;
  }

  /** Covering grants, with the same token scopes or wider ones, allow every request that was
      allowed. */
  lemma CoversAllows(a: Grants, b: Grants, s: seq<string>, t: seq<string>, r: Request)
    requires Covers(a, b) && Includes(s, t) && Allows(a, s, r)
    ensures Allows(b, t, r)
  {
    hide CanAccessDrive, CanAccessPath;
  }
}
