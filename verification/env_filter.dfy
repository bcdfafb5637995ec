/** The environment handed to agent processes: which KEY=VALUE entries pass, and which value
    each key ends up with. Keys are ASCII text; a key is compared in upper case. */
module EnvFilter {
  import opened Text

  const DEFAULT_ALLOW: seq<string> := [
    "AI_CLOUDHUB_", "PATH", "HOME", "USER", "LOGNAME", "LANG", "LC_", "TZ", "TERM", "TMPDIR", "TEMP", "TMP",
    "PWD", "SHELL", "HOSTNAME", "HTTP_PROXY", "HTTPS_PROXY", "NO_PROXY", "http_proxy", "https_proxy", "no_proxy"]

  const DEFAULT_BLOCK: seq<string> := [
    "AWS_SECRET_ACCESS_KEY", "AWS_ACCESS_KEY_ID", "AWS_SESSION_TOKEN", "MINIO_SECRET_KEY", "MINIO_ACCESS_KEY",
    "AI_CLOUDHUB_TOKEN", "JWT_SECRET", "AI_CLOUDHUB_MASTER_KEY"]

  const NETWORK_KEYS: seq<string> := [
    "HTTP_PROXY", "HTTPS_PROXY", "ALL_PROXY", "NO_PROXY", "http_proxy", "https_proxy", "all_proxy", "no_proxy",
    "FTP_PROXY", "ftp_proxy", "SOCKS_PROXY", "socks_proxy"]

  const LIBPQ_KEYS: seq<string> := [
    "PGPASSWORD", "PGUSER", "PGHOST", "PGDATABASE", "PGPORT", "PGSSLMODE", "PGSSLROOTCERT", "PGSSLCERT",
    "PGSSLKEY", "PGPASSFILE"]

  const MYSQL_KEYS: seq<string> := [
    "MYSQL_PWD", "MYSQL_PASSWORD", "MYSQL_HOST", "MYSQL_TCP_PORT", "MYSQL_UNIX_PORT"]

  /** Does upper-case key `uk` equal one of `keys`, ignoring case? */
  predicate Listed(uk: string, keys: seq<string>) { exists i :: 0 <= i < |keys| && Upper(keys[i]) == uk }

  predicate PrefixAllows(uk: string, prefix: string) {
    var p := Trim(prefix);
    p != "" &&
    if HasSuffix(p, "_") then HasPrefix(uk, Upper(p)) else uk == Upper(p) || HasPrefix(uk, Upper(p) + "_")
  }

  predicate KeyAllowed(uk: string, prefixes: seq<string>) {
    exists i :: 0 <= i < |prefixes| && PrefixAllows(uk, prefixes[i])
  }

  datatype Rules = Rules(allowPrefixes: seq<string>, blockExact: seq<string>,
                         passToken: bool, passLibpq: bool, passMysql: bool, denyNetwork: bool) {

    function Allow(): seq<string> { if allowPrefixes == [] then DEFAULT_ALLOW else allowPrefixes }

    function Block(): seq<string> { if blockExact == [] then DEFAULT_BLOCK else blockExact }

    predicate Blocked(uk: string) {
      || (Listed(uk, Block()) && !(passToken && uk == "AI_CLOUDHUB_TOKEN"))
      || (denyNetwork && Listed(uk, NETWORK_KEYS))
    }

    predicate Secret(uk: string) {
      (passLibpq && Listed(uk, LIBPQ_KEYS)) || (passMysql && Listed(uk, MYSQL_KEYS))
    }

    predicate AcceptsKey(uk: string) {
      && !Blocked(uk)
      && !(denyNetwork && Contains(uk, "PROXY"))
      && (KeyAllowed(uk, Allow()) || Secret(uk))
    }

    /** The tests on one entry: a non-empty key before the first '=', not blocked, and allowed. */
    predicate Accepts(entry: string) {
      0 < IndexOf(entry, '=') < |entry| && AcceptsKey(KeyOf(entry))
    }
  }

  lemma DefaultLists()
    ensures DEFAULT_ALLOW == ["AI_CLOUDHUB_", "PATH", "HOME", "USER", "LOGNAME", "LANG", "LC_", "TZ", "TERM", "TMPDIR",
                              "TEMP", "TMP", "PWD", "SHELL", "HOSTNAME", "HTTP_PROXY", "HTTPS_PROXY", "NO_PROXY",
                              "http_proxy", "https_proxy", "no_proxy"]
    ensures DEFAULT_BLOCK == ["AWS_SECRET_ACCESS_KEY", "AWS_ACCESS_KEY_ID", "AWS_SESSION_TOKEN", "MINIO_SECRET_KEY",
                              "MINIO_ACCESS_KEY", "AI_CLOUDHUB_TOKEN", "JWT_SECRET", "AI_CLOUDHUB_MASTER_KEY"]
    ensures NETWORK_KEYS == ["HTTP_PROXY", "HTTPS_PROXY", "ALL_PROXY", "NO_PROXY", "http_proxy", "https_proxy", "all_proxy",
                             "no_proxy", "FTP_PROXY", "ftp_proxy", "SOCKS_PROXY", "socks_proxy"]
    ensures LIBPQ_KEYS == ["PGPASSWORD", "PGUSER", "PGHOST", "PGDATABASE", "PGPORT", "PGSSLMODE", "PGSSLROOTCERT",
                           "PGSSLCERT", "PGSSLKEY", "PGPASSFILE"]
    ensures MYSQL_KEYS == ["MYSQL_PWD", "MYSQL_PASSWORD", "MYSQL_HOST", "MYSQL_TCP_PORT", "MYSQL_UNIX_PORT"]
  {
  }

  /** Which keys pass, in terms of the lists. */
  lemma AcceptsLaw(f: Rules, uk: string)
    ensures var block := if f.blockExact == [] then DEFAULT_BLOCK else f.blockExact;
            var allow := if f.allowPrefixes == [] then DEFAULT_ALLOW else f.allowPrefixes;
            f.AcceptsKey(uk) <==>
              && ((forall i :: 0 <= i < |block| ==> Upper(block[i]) != uk) || (f.passToken && uk == "AI_CLOUDHUB_TOKEN"))
              && (f.denyNetwork ==> !Contains(uk, "PROXY") && forall i :: 0 <= i < |NETWORK_KEYS| ==> Upper(NETWORK_KEYS[i]) != uk)
              && ((exists i :: 0 <= i < |allow| && PrefixAllows(uk, allow[i]))
                  || (f.passLibpq && exists i :: 0 <= i < |LIBPQ_KEYS| && Upper(LIBPQ_KEYS[i]) == uk)
                  || (f.passMysql && exists i :: 0 <= i < |MYSQL_KEYS| && Upper(MYSQL_KEYS[i]) == uk))
  {
    hide Contains, PrefixAllows;
  }

  lemma PrefixAllowsLaw(uk: string, prefix: string)
    ensures var p := Trim(prefix);
            PrefixAllows(uk, prefix) <==>
              && p != ""
              && if p[|p| - 1] == '_' then Upper(p) <= uk else uk == Upper(p) || Upper(p) + "_" <= uk
  {
    var p := Trim(prefix);
    hide Trim;
    if p != "" { assert p[|p| - 1..] == [p[|p| - 1]]; }
  }

  /** With the default lists the master key and the cloud credentials never pass. */
  lemma SecretsBlocked(f: Rules)
    requires f.blockExact == []
    ensures !f.AcceptsKey("AI_CLOUDHUB_MASTER_KEY") && !f.AcceptsKey("AWS_SECRET_ACCESS_KEY") && !f.AcceptsKey("JWT_SECRET")
    ensures !f.passToken ==> !f.AcceptsKey("AI_CLOUDHUB_TOKEN")
  {
    hide KeyAllowed, Contains, Rules.Secret;
    assert Upper(DEFAULT_BLOCK[7]) == "AI_CLOUDHUB_MASTER_KEY" && Upper(DEFAULT_BLOCK[0]) == "AWS_SECRET_ACCESS_KEY";
    assert Upper(DEFAULT_BLOCK[6]) == "JWT_SECRET" && Upper(DEFAULT_BLOCK[5]) == "AI_CLOUDHUB_TOKEN";
  }

  /** The key of an entry, in upper case. */
  function KeyOf(entry: string): (uk: string)
    ensures forall i :: 0 <= i < |uk| ==> uk[i] != '='
  {
    Upper(entry[..IndexOf(entry, '=')])
  }

  // ---- What the result has to be ----

  /** The last accepted entry for a key. */
  function Binding(f: Rules, given: seq<string>, uk: string): (e: Option<string>)
    ensures e.Some? ==> e.value in given && f.Accepts(e.value) && KeyOf(e.value) == uk
    ensures e.None? ==> forall x <- given :: f.Accepts(x) ==> KeyOf(x) != uk
  {
    if given == [] then None
    else
      var last := given[|given| - 1];
      if f.Accepts(last) && KeyOf(last) == uk then Some(last) else Binding(f, given[..|given| - 1], uk)
  }

  /** The accepted keys, in the order in which they first occur. */
  function FirstSeen(f: Rules, given: seq<string>): (keys: seq<string>)
    ensures forall i, k :: 0 <= i < k < |keys| ==> keys[i] != keys[k]
    ensures forall uk :: uk in keys <==> Binding(f, given, uk).Some?
  {
    if given == [] then []
    else
      var last, before := given[|given| - 1], FirstSeen(f, given[..|given| - 1]);
      if f.Accepts(last) && KeyOf(last) !in before then before + [KeyOf(last)] else before
  }

  /** `out` lists, in that order, each key's last accepted entry. */
  predicate IsFiltered(f: Rules, given: seq<string>, out: seq<string>) {
    && |out| == |FirstSeen(f, given)|
    && forall i :: 0 <= i < |out| ==> Binding(f, given, FirstSeen(f, given)[i]) == Some(out[i])
  }

  lemma Snoc(f: Rules, given: seq<string>, entry: string, uk: string)
    ensures Binding(f, given + [entry], uk) ==
            if f.Accepts(entry) && KeyOf(entry) == uk then Some(entry) else Binding(f, given, uk)
    ensures FirstSeen(f, given + [entry]) ==
            FirstSeen(f, given) + if f.Accepts(entry) && KeyOf(entry) !in FirstSeen(f, given) then [KeyOf(entry)] else []
  {
    assert (given + [entry])[..|given|] == given;
  }

  lemma SnocBindings(f: Rules, given: seq<string>, out: seq<string>, entry: string)
    requires IsFiltered(f, given, out)
    ensures var keys := FirstSeen(f, given);
            forall i :: 0 <= i < |keys| ==>
              Binding(f, given + [entry], keys[i]) == Some(if f.Accepts(entry) && KeyOf(entry) == keys[i] then entry else out[i])
  {
    var keys := FirstSeen(f, given);
    forall i | 0 <= i < |keys|
      ensures Binding(f, given + [entry], keys[i]) == Some(if f.Accepts(entry) && KeyOf(entry) == keys[i] then entry else out[i])
    {
      Snoc(f, given, entry, keys[i]);
    }
  }

  /** An entry that is refused changes nothing; one with a new key goes to the end. */
  lemma AppendStep(f: Rules, given: seq<string>, out: seq<string>, entry: string)
    requires IsFiltered(f, given, out)
    ensures !f.Accepts(entry) ==> IsFiltered(f, given + [entry], out)
    ensures f.Accepts(entry) && KeyOf(entry) !in FirstSeen(f, given) ==> IsFiltered(f, given + [entry], out + [entry])
  {
    Snoc(f, given, entry, KeyOf(entry));
    SnocBindings(f, given, out, entry);
    hide Binding, FirstSeen, Rules.Accepts, KeyOf;
  }

  /** An accepted entry with a known key overwrites the entry of that key. */
  lemma OverwriteStep(f: Rules, given: seq<string>, out: seq<string>, entry: string, j: nat)
    requires IsFiltered(f, given, out) && f.Accepts(entry) && j < |out| && KeyOf(out[j]) == KeyOf(entry)
    ensures IsFiltered(f, given + [entry], out[j := entry])
  {
    OutKeys(f, given, out);
    Snoc(f, given, entry, KeyOf(entry));
    SnocBindings(f, given, out, entry);
    hide Binding, FirstSeen, Rules.Accepts, KeyOf;
  }

  lemma OutKeys(f: Rules, given: seq<string>, out: seq<string>)
    requires IsFiltered(f, given, out)
    ensures |out| == |FirstSeen(f, given)|
    ensures forall i :: 0 <= i < |out| ==> f.Accepts(out[i]) && KeyOf(out[i]) == FirstSeen(f, given)[i]
  {
    var keys := FirstSeen(f, given);
    hide FirstSeen;
    assert forall i :: 0 <= i < |out| ==> Binding(f, given, keys[i]) == Some(out[i]);
  }

  lemma PrefixIsPart(u: string, n: nat, uk: string)
    requires n < |u| && u[n] == '=' && '=' !in u[..n] && '=' !in uk
    ensures uk + "=" <= u <==> u[..n] == uk
  {
    var key := uk + "=";
    assert forall i :: 0 <= i < n ==> u[i] != '=' by { assert forall i :: 0 <= i < n ==> u[..n][i] == u[i]; }
    if key <= u {
      assert u[|uk|] == key[|uk|] == '=';
      assert forall i :: 0 <= i < |uk| ==> u[i] == key[i] == uk[i];
    }
    assert u[..n] == uk ==> u[..n + 1] == key;
  }

  /** Testing for the prefix KEY= in upper case finds the entries of that key. */
  lemma PrefixFindsKey(entry: string, uk: string)
    requires 0 < IndexOf(entry, '=') < |entry| && '=' !in uk
    ensures HasPrefix(Upper(entry), uk + "=") <==> KeyOf(entry) == uk
  {
    var n := IndexOf(entry, '=');
    assert KeyOf(entry) == Upper(entry)[..n];
    PrefixIsPart(Upper(entry), n, uk);
  }

  // ---- The filter as the program runs it ----

  method UpperSet(keys: seq<string>) returns (s: set<string>)
    ensures forall uk :: uk in s <==> Listed(uk, keys)
  {
    s := {};
    for i := 0 to |keys|
      invariant forall uk :: uk in s <==> Listed(uk, keys[..i])
    {
      s := s + {Upper(keys[i])};
    }
    assert keys[..|keys|] == keys;
  }

  class Environment {
    const f: Rules
    var blockSet: set<string>
    var secretPass: set<string>
    var out: seq<string>
    var seen: set<string>
    ghost var given: seq<string>

    ghost predicate Valid() reads this {
      && (forall uk :: uk in blockSet <==> f.Blocked(uk))
      && (forall uk :: uk in secretPass <==> f.Secret(uk))
      && IsFiltered(f, given, out)
      && (forall uk :: uk in seen <==> uk in FirstSeen(f, given))
    }

    constructor (f: Rules)
      ensures Valid() && given == [] && this.f == f
    {
      this.f := f;
      out, seen, given := [], {}, [];
      new;
      blockSet := UpperSet(f.Block());
      if f.passToken { blockSet := blockSet - {"AI_CLOUDHUB_TOKEN"}; }
      secretPass := {};
      if f.passLibpq { var s := UpperSet(LIBPQ_KEYS); secretPass := secretPass + s; }
      if f.passMysql { var s := UpperSet(MYSQL_KEYS); secretPass := secretPass + s; }
      if f.denyNetwork { var s := UpperSet(NETWORK_KEYS); blockSet := blockSet + s; }
    }

    method Add(entry: string)
      requires Valid()
      modifies this
      ensures Valid() && given == old(given) + [entry]
    {
      hide IsFiltered, FirstSeen, Binding, KeyAllowed, Listed, Contains;
      AppendStep(f, given, out, entry);
      Snoc(f, given, entry, "");
      OutKeys(f, given, out);
      given := given + [entry];
      var i := IndexOf(entry, '=');
      if i == 0 || i == |entry| { return; }
      var uk := Upper(entry[..i]);
      if uk in blockSet { return; }
      if f.denyNetwork && Contains(uk, "PROXY") { return; }
      if !KeyAllowed(uk, f.Allow()) && uk !in secretPass { return; }
      if uk in seen {
        var j := 0;
        while j < |out|
          invariant 0 <= j <= |out|
          invariant blockSet == old(blockSet) && secretPass == old(secretPass) && seen == old(seen)
          invariant out == old(out) && given == old(given) + [entry]
          invariant forall k :: 0 <= k < j ==> KeyOf(out[k]) != uk
        {
          PrefixFindsKey(out[j], uk);
          if HasPrefix(Upper(out[j]), uk + "=") {
            OverwriteStep(f, old(given), out, entry, j);
            out := out[j := entry];
            return;
          }
          j := j + 1;
        }
      }
      seen := seen + {uk};
      out := out + [entry];
    }
  }

  function Lines(extra: map<string, string>, order: seq<string>): (lines: seq<string>)
    requires forall k <- order :: k in extra
    ensures |lines| == |order|
    ensures forall i :: 0 <= i < |order| ==> lines[i] == order[i] + "=" + extra[order[i]]
  {
    seq(|order|, i requires 0 <= i < |order| => order[i] + "=" + extra[order[i]])
  }

  function Markers(f: Rules): seq<string> {
    if f.denyNetwork then ["AI_CLOUDHUB_NETWORK=deny", "NO_PROXY=*"] else []
  }

  /** `order` is one way to walk over the keys of a map. */
  ghost predicate Enumerates(order: seq<string>, keys: set<string>) {
    && (forall k :: k in order <==> k in keys)
    && forall i, j :: 0 <= i < j < |order| ==> order[i] != order[j]
  }

  /** Filters `base`, then `extra` in the order the map happens to be walked, then the markers. */
  method FilterEnv(base: seq<string>, extra: map<string, string>, f: Rules)
    returns (out: seq<string>)
    ensures exists order :: Enumerates(order, extra.Keys) && IsFiltered(f, base + Lines(extra, order) + Markers(f), out)
    ensures Markers(f) == if f.denyNetwork then ["AI_CLOUDHUB_NETWORK=deny", "NO_PROXY=*"] else []
  {
    hide IsFiltered, FirstSeen, Binding;
    var env := new Environment(f);
    for i := 0 to |base|
      invariant fresh(env) && env.Valid() && env.f == f && env.given == base[..i]
    {
      env.Add(base[i]);
    }
    var todo := extra.Keys;
    ghost var order: seq<string> := [];
    while todo != {}
      invariant todo <= extra.Keys && Enumerates(order, extra.Keys - todo)
      invariant fresh(env) && env.Valid() && env.f == f && env.given == base + Lines(extra, order)
      decreases |todo|
    {
      var k :| k in todo;
      env.Add(k + "=" + extra[k]);
      order := order + [k];
      todo := todo - {k};
    }
    if f.denyNetwork {
      env.Add("AI_CLOUDHUB_NETWORK=deny");
      env.Add("NO_PROXY=*");
    }
    assert env.given == base + Lines(extra, order) + Markers(f);
    out := env.out;
  }

  // ---- What the result means ----

  predicate HasKey(entries: seq<string>, uk: string) { exists e <- entries :: KeyOf(e) == uk }

  predicate GivenKey(f: Rules, given: seq<string>, uk: string) {
    exists e <- given :: f.Accepts(e) && KeyOf(e) == uk
  }

  /** No two entries share a key, a key is present exactly when some entry given for it passes
      the tests, and the one kept is the last of those. */
  lemma FilteredIsLastWriteMap(f: Rules, given: seq<string>, out: seq<string>)
    requires IsFiltered(f, given, out)
    ensures forall i, k :: 0 <= i < k < |out| ==> KeyOf(out[i]) != KeyOf(out[k])
    ensures forall uk :: HasKey(out, uk) <==> GivenKey(f, given, uk)
    ensures forall i, n :: 0 <= i < |out| && 0 <= n < |given| && f.Accepts(given[n]) && KeyOf(given[n]) == KeyOf(out[i]) ==>
              exists m :: n <= m < |given| && out[i] == given[m]
  {
    OutKeys(f, given, out);
    var keys := FirstSeen(f, given);
    forall uk ensures HasKey(out, uk) <==> GivenKey(f, given, uk) {
      hide FirstSeen;
      if GivenKey(f, given, uk) {
        assert uk in keys;
        var i :| 0 <= i < |out| && keys[i] == uk;
        assert out[i] in out;
      }
      if HasKey(out, uk) {
        var i :| 0 <= i < |out| && KeyOf(out[i]) == uk;
        assert Binding(f, given, keys[i]) == Some(out[i]);
      }
    }
    forall i, n | 0 <= i < |out| && 0 <= n < |given| && f.Accepts(given[n]) && KeyOf(given[n]) == KeyOf(out[i])
      ensures exists m :: n <= m < |given| && out[i] == given[m]
    {
      BindingIsLast(f, given, KeyOf(out[i]), n);
    }
  }

  lemma {:induction false} BindingIsLast(f: Rules, given: seq<string>, uk: string, n: nat)
    requires n < |given| && f.Accepts(given[n]) && KeyOf(given[n]) == uk
    ensures Binding(f, given, uk).Some?
    ensures exists m :: n <= m < |given| && given[m] == Binding(f, given, uk).value
  {
    if n < |given| - 1 {
      BindingIsLast(f, given[..|given| - 1], uk, n);
    }
  }

  /** With the network denied no key that contains PROXY passes, so the NO_PROXY=* marker the
      program adds at the end never survives its own filter. */
  lemma NoProxyWhenDenied(f: Rules, given: seq<string>, out: seq<string>)
    requires f.denyNetwork && IsFiltered(f, given, out)
    ensures forall e <- out :: !Contains(KeyOf(e), "PROXY")
    ensures "NO_PROXY=*" !in out
  {
    hide IsFiltered, FirstSeen, Contains, KeyAllowed;
    OutKeys(f, given, out);
    assert forall e <- out :: f.Accepts(e);
    MarkerKey();
  }

  lemma MarkerKey()
    ensures Contains(KeyOf("NO_PROXY=*"), "PROXY")
  {
    var e := "NO_PROXY=*";
    assert e[8] == '=';
    assert IndexOf(e, '=') == 8;
    var key := Upper(e[..8]);
    assert key[3] == 'P' && key[4] == 'R' && key[5] == 'O' && key[6] == 'X' && key[7] == 'Y';
    assert key[3..8] == "PROXY";
    assert OccursAt(KeyOf(e), "PROXY", 3);
  }

  /** A second pass over the result changes nothing, not even the order. */
  lemma FilterIdempotent(f: Rules, given: seq<string>, out: seq<string>)
    requires IsFiltered(f, given, out)
    ensures IsFiltered(f, out, out)
  {
    OutKeys(f, given, out);
    hide IsFiltered, FirstSeen, KeyOf, Rules.Accepts;
    DistinctIsFiltered(f, out);
  }

  lemma {:induction false} DistinctIsFiltered(f: Rules, out: seq<string>)
    requires forall i :: 0 <= i < |out| ==> f.Accepts(out[i])
    requires forall i, k :: 0 <= i < k < |out| ==> KeyOf(out[i]) != KeyOf(out[k])
    ensures IsFiltered(f, out, out)
  {
    hide IsFiltered, FirstSeen, KeyOf, Rules.Accepts;
    if out == [] {
      NothingFiltered(f);
    } else {
      var before, e := out[..|out| - 1], out[|out| - 1];
      DistinctIsFiltered(f, before);
      assert forall i :: 0 <= i < |before| ==> KeyOf(before[i]) != KeyOf(e);
      NewKeyAtEnd(f, before, e);
      assert before + [e] == out;
    }
  }

  lemma NothingFiltered(f: Rules)
    ensures IsFiltered(f, [], [])
  {
  }

  lemma NewKeyAtEnd(f: Rules, before: seq<string>, e: string)
    requires IsFiltered(f, before, before) && f.Accepts(e)
    requires forall i :: 0 <= i < |before| ==> KeyOf(before[i]) != KeyOf(e)
    ensures IsFiltered(f, before + [e], before + [e])
  {
    hide IsFiltered, FirstSeen, KeyOf, Rules.Accepts;
    OutKeys(f, before, before);
    AppendStep(f, before, before, e);
  }

  // ---- The order in which the extra entries are walked ----

  lemma {:induction false} BindingSplit(f: Rules, a: seq<string>, b: seq<string>, uk: string)
    ensures Binding(f, a + b, uk) == if Binding(f, b, uk).Some? then Binding(f, b, uk) else Binding(f, a, uk)
  {
    if b == [] {
      assert a + b == a;
    } else {
      assert (a + b)[..|a + b| - 1] == a + b[..|b| - 1];
      BindingSplit(f, a, b[..|b| - 1], uk);
    }
  }

  function Line(extra: map<string, string>, k: string): string
    requires k in extra
  {
    k + "=" + extra[k]
  }

  /** Two walks of the extra entries give every key the same value. */
  ghost predicate SameBindings(f: Rules, base: seq<string>, extra: map<string, string>, p: seq<string>, q: seq<string>)
    requires Enumerates(p, extra.Keys) && Enumerates(q, extra.Keys)
  {
    forall uk :: Binding(f, base + Lines(extra, p) + Markers(f), uk) == Binding(f, base + Lines(extra, q) + Markers(f), uk)
  }

  /** Are both entries accepted for one key, and not one that a marker sets anyway? */
  predicate Compete(f: Rules, a: string, b: string) {
    f.Accepts(a) && f.Accepts(b) && KeyOf(a) == KeyOf(b) && Binding(f, Markers(f), KeyOf(a)).None?
  }

  /** No two different extra entries compete for a key. */
  ghost predicate NoClash(f: Rules, extra: map<string, string>) {
    forall k <- extra, l <- extra ::
      Compete(f, Line(extra, k), Line(extra, l)) ==> Line(extra, k) == Line(extra, l)
  }

  lemma OrderIrrelevant(f: Rules, base: seq<string>, extra: map<string, string>, p: seq<string>, q: seq<string>)
    requires Enumerates(p, extra.Keys) && Enumerates(q, extra.Keys) && NoClash(f, extra)
    ensures SameBindings(f, base, extra, p, q)
  {
    var a, b, m := Lines(extra, p), Lines(extra, q), Markers(f);
    forall uk ensures Binding(f, base + a + m, uk) == Binding(f, base + b + m, uk) {
      hide Binding, NoClash, Enumerates;
      BindingSplit(f, base + a, m, uk);
      BindingSplit(f, base + b, m, uk);
      BindingSplit(f, base, a, uk);
      BindingSplit(f, base, b, uk);
      if Binding(f, m, uk).None? { SameLast(f, extra, p, q, uk); }
    }
  }

  lemma SameLast(f: Rules, extra: map<string, string>, p: seq<string>, q: seq<string>, uk: string)
    requires Enumerates(p, extra.Keys) && Enumerates(q, extra.Keys) && NoClash(f, extra)
    requires Binding(f, Markers(f), uk).None?
    ensures Binding(f, Lines(extra, p), uk) == Binding(f, Lines(extra, q), uk)
  {
    hide Binding, Markers, Rules.Accepts, KeyOf;
    var a, b := Lines(extra, p), Lines(extra, q);
    SameLines(extra, p, q);
    SameLines(extra, q, p);
    var x, y := Binding(f, a, uk), Binding(f, b, uk);
    if x.Some? && y.Some? {
      var i :| 0 <= i < |p| && a[i] == x.value;
      var j :| 0 <= j < |q| && b[j] == y.value;
      assert a[i] == Line(extra, p[i]) && b[j] == Line(extra, q[j]);
    }
  }

  lemma SameLines(extra: map<string, string>, p: seq<string>, q: seq<string>)
    requires Enumerates(p, extra.Keys) && Enumerates(q, extra.Keys)
    ensures forall e <- Lines(extra, p) :: e in Lines(extra, q)
  {
    forall e | e in Lines(extra, p) ensures e in Lines(extra, q) {
      var i :| 0 <= i < |p| && Lines(extra, p)[i] == e;
      assert p[i] in q;
      var j :| 0 <= j < |q| && q[j] == p[i];
      assert Lines(extra, q)[j] == e;
    }
  }

  lemma Enumerate(keys: set<string>) returns (order: seq<string>)
    ensures Enumerates(order, keys)
  {
    order := [];
    var todo := keys;
    while todo != {}
      invariant todo <= keys && Enumerates(order, keys - todo)
    {
      var k :| k in todo;
      order, todo := order + [k], todo - {k};
    }
  }

  /** The result is the same for every walk if and only if no two entries clash. */
  lemma OrderMattersExactly(f: Rules, base: seq<string>, extra: map<string, string>)
    ensures NoClash(f, extra) <==>
            forall p, q :: Enumerates(p, extra.Keys) && Enumerates(q, extra.Keys) ==> SameBindings(f, base, extra, p, q)
  {
    hide Binding, Enumerates, SameBindings, NoClash;
    if NoClash(f, extra) {
      forall p, q | Enumerates(p, extra.Keys) && Enumerates(q, extra.Keys) ensures SameBindings(f, base, extra, p, q) {
        OrderIrrelevant(f, base, extra, p, q);
      }
    } else {
      var p, q := ClashShows(f, base, extra);
    }
  }

  lemma ClashShows(f: Rules, base: seq<string>, extra: map<string, string>) returns (p: seq<string>, q: seq<string>)
    requires !NoClash(f, extra)
    ensures Enumerates(p, extra.Keys) && Enumerates(q, extra.Keys) && !SameBindings(f, base, extra, p, q)
  {
    hide Binding, Rules.Accepts, KeyOf, Enumerates, Lines, Markers;
    var k, l :| k in extra && l in extra && Compete(f, Line(extra, k), Line(extra, l))
      && Line(extra, k) != Line(extra, l);
    var rest := Enumerate(extra.Keys - {k, l});
    LastWins(f, base, extra, rest, k, l);
    assert extra.Keys - {k, l} == extra.Keys - {l, k};
    LastWins(f, base, extra, rest, l, k);
    p, q := rest + [k, l], rest + [l, k];
  }

  lemma LastWins(f: Rules, base: seq<string>, extra: map<string, string>, rest: seq<string>, k: string, l: string)
    requires k in extra && l in extra && k != l && f.Accepts(Line(extra, l)) && Enumerates(rest, extra.Keys - {k, l})
    requires Binding(f, Markers(f), KeyOf(Line(extra, l))).None?
    ensures Enumerates(rest + [k, l], extra.Keys)
    ensures Binding(f, base + Lines(extra, rest + [k, l]) + Markers(f), KeyOf(Line(extra, l))) == Some(Line(extra, l))
  {
    var p, uk := rest + [k, l], KeyOf(Line(extra, l));
    var a := Lines(extra, p);
    assert a[|a| - 1] == Line(extra, l);
    BindingSplit(f, base + a, Markers(f), uk);
    BindingSplit(f, base, a, uk);
  }
}
