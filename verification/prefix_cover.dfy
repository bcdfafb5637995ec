/** Exactly when dropping path prefixes takes a path away, for the prefix matching of the access
    checks, which accepts a prefix at the start, after any slash and at the end of a path. */
module PrefixCover {
  import opened Text
  import opened AccessPolicy

  /** A prefix that every path matches. */
  predicate Universal(prefix: string) { Bare(prefix) == "" || Bare(prefix) == "*" }

  /** Path `x` matches the bare prefix `f` by one of the three ways that remain. */
  predicate Fits(x: string, f: string) { f <= x || Contains(x, "/" + f) || HasSuffix(x, f) }

  lemma MatchesByForm(x: string, prefix: string)
    ensures PrefixMatches(x, prefix) <==> Universal(prefix) || Fits(x, Bare(prefix))
  {
    var f, p := Bare(prefix), TrimOnePrefix(x, "/");
    if HasPrefix(x, "/") { assert x == "/" + p; }
    if p == f && !(f <= x) {
      assert x[|x| - |f|..] == f;
    } else if HasPrefix(p, f + "/") && !(f <= x) {
      assert p[..|f|] == (f + "/")[..|f|] == f;
      assert x[0..0 + |"/" + f|] == "/" + f;
      assert OccursAt(x, "/" + f, 0);
    } else if HasPrefix(p, f + "/") || p == f {
      assert f <= x;
    }
  }

  /** Prefix `g` takes every path that begins with `f` or has it after a slash. */
  predicate Opens(g: string, f: string) {
    Universal(g) || Bare(g) <= Bare(f) || Contains(Bare(f), "/" + Bare(g))
  }

  /** Prefix `g` takes every path that ends in `f`. */
  predicate Closes(g: string, f: string) {
    Universal(g) || HasSuffix(Bare(f), Bare(g)) || Contains(Bare(f), "/" + Bare(g))
  }

  predicate AnyUniversal(q: seq<string>) { exists g <- q :: Universal(g) }

  /** Do the prefixes of `q` take over all paths of `f`? */
  predicate Covered(f: string, q: seq<string>) {
    if Universal(f) then AnyUniversal(q) else (exists g <- q :: Opens(g, f)) && (exists g <- q :: Closes(g, f))
  }

  /** No prefix means all paths. */
  predicate AllCovered(p: seq<string>, q: seq<string>) {
    q == [] || (if p == [] then AnyUniversal(q) else forall f <- p :: Covered(f, q))
  }

  // ---- Covered prefixes lose nothing, for all lists ----

  lemma ContainsInside(x: string, f: string, g: string, at: nat)
    requires at + |f| <= |x| && x[at..at + |f|] == f && Contains(f, g)
    ensures Contains(x, g)
  {
    var i :| 0 <= i <= |f| && OccursAt(f, g, i);
    forall k | 0 <= k < |g| ensures x[at + i..at + i + |g|][k] == g[k] {
      assert x[at..at + |f|][i + k] == f[i + k] == f[i..i + |g|][k];
    }
    assert OccursAt(x, g, at + i);
  }

  lemma PrefixOfPart(x: string, a: string, b: string, i: nat)
    requires i <= |x| && OccursAt(x, "/" + a, i) && b <= a
    ensures Contains(x, "/" + b)
  {
    assert ("/" + a)[..1 + |b|] == "/" + b;
    assert x[i..i + 1 + |b|] == x[i..i + 1 + |a|][..1 + |b|];
    assert OccursAt(x, "/" + b, i);
  }

  lemma OpensTakes(x: string, f: string, g: string)
    requires Opens(g, f) && (Bare(f) <= x || Contains(x, "/" + Bare(f)))
    ensures PrefixMatches(x, g)
  {
    hide Bare, PrefixMatches;
    MatchesByForm(x, g);
    var a, b := Bare(f), Bare(g);
    if Universal(g) {
    } else if a <= x {
      if b <= a { assert b <= x; } else { ContainsInside(x, a, "/" + b, 0); }
    } else {
      var i :| 0 <= i <= |x| && OccursAt(x, "/" + a, i);
      if b <= a {
        PrefixOfPart(x, a, b, i);
      } else {
        assert x[i..i + 1 + |a|][1..] == a == x[i + 1..i + 1 + |a|];
        ContainsInside(x, a, "/" + b, i + 1);
      }
    }
  }

  lemma ClosesTakes(x: string, f: string, g: string)
    requires Closes(g, f) && HasSuffix(x, Bare(f))
    ensures PrefixMatches(x, g)
  {
    hide Bare, PrefixMatches;
    MatchesByForm(x, g);
    var a, b := Bare(f), Bare(g);
    if Universal(g) {
    } else if HasSuffix(a, b) {
      assert x[|x| - |b|..] == x[|x| - |a|..][|a| - |b|..] == b;
    } else {
      ContainsInside(x, a, "/" + b, |x| - |a|);
    }
  }

  lemma CoveredTakes(x: string, f: string, q: seq<string>)
    requires Covered(f, q) && PrefixMatches(x, f)
    ensures exists i :: 0 <= i < |q| && PrefixMatches(x, q[i])
  {
    hide Bare, PrefixMatches, Opens, Closes, Universal;
    MatchesByForm(x, f);
    var g;
    if Universal(f) {
      g :| g in q && Universal(g);
      MatchesByForm(x, g);
    } else if HasSuffix(x, Bare(f)) {
      g :| g in q && Closes(g, f);
      ClosesTakes(x, f, g);
    } else {
      g :| g in q && Opens(g, f);
      OpensTakes(x, f, g);
    }
    var i :| 0 <= i < |q| && q[i] == g;
  }

  lemma AllCoveredKeeps(p: seq<string>, q: seq<string>)
    requires AllCovered(p, q)
    ensures PathsKept(p, q)
  {
    forall path: string | CanAccessPath(p, path) ensures CanAccessPath(q, path) {
      hide PrefixMatches, Covered, Universal;
      if path != "" && q != [] {
        if p == [] {
          var g :| g in q && Universal(g);
          MatchesByForm(Trim(path), g);
          var i :| 0 <= i < |q| && q[i] == g;
        } else {
          var k :| 0 <= k < |p| && PrefixMatches(Trim(path), p[k]);
          CoveredTakes(Trim(path), p[k], q);
        }
      }
    }
  }

  // ---- An uncovered prefix loses a path ----

  /** A character that no prefix of `q` uses, to build the lost path with. */
  predicate Unused(c: char, q: seq<string>) {
    !IsSpace(c) && c != '/' && forall g <- q :: c !in Bare(g)
  }

  lemma OtherBeginning(x: string, g: string)
    requires x != "" && g != "" && x[0] != g[0]
    ensures !(g <= x)
  {
  }

  lemma OtherEnding(x: string, g: string)
    requires x != "" && g != "" && x[|x| - 1] != g[|g| - 1]
    ensures !HasSuffix(x, g)
  {
  }

  /** A path that begins with an unused character matches only inside the rest. */
  lemma OnlyInside(c: char, rest: string, g: string)
    requires g != "" && c !in g && c != '/' && Fits([c] + rest, g)
    ensures Contains(rest, "/" + g) || HasSuffix(rest, g)
  {
    var x := [c] + rest;
    assert g[0] in g;
    OtherBeginning(x, g);
    if Contains(x, "/" + g) {
      var i :| 0 <= i <= |x| && OccursAt(x, "/" + g, i);
      assert x[i] == x[i..i + |"/" + g|][0] == ("/" + g)[0] == '/';
      assert i > 0 && rest[i - 1..i - 1 + |"/" + g|] == x[i..i + 1 + |g|];
      assert OccursAt(rest, "/" + g, i - 1);
    } else {
      assert x[|x| - |g|..] == g && x[0..] == x && x != g;
      assert rest[|rest| - |g|..] == g;
    }
  }

  lemma BeforeTheEnd(c: char, f: string, g: string, i: nat)
    requires g != "" && c !in g && c != '/' && OccursAt("/" + f + [c], "/" + g, i)
    ensures i + |g| <= |f| && ("/" + f)[i..i + 1 + |g|] == "/" + g
  {
    var rest, key := "/" + f + [c], "/" + g;
    assert rest[i..i + |key|][|g|] == key[|g|] == g[|g| - 1] && g[|g| - 1] in g;
    assert rest[|f| + 1] == c && rest[..|f| + 1] == "/" + f;
    assert rest[i..i + |key|] == rest[..|f| + 1][i..i + |key|];
  }

  /** Within /f followed by an unused character, only a prefix that opens `f` matches. */
  lemma OnlyOpening(c: char, f: string, g: string)
    requires g != "" && c !in g && c != '/' && Fits([c] + ("/" + f + [c]), g)
    ensures g <= f || Contains(f, "/" + g)
  {
    var rest, key := "/" + f + [c], "/" + g;
    OnlyInside(c, rest, g);
    assert rest[|rest| - 1] == c && g[|g| - 1] in g;
    OtherEnding(rest, g);
    var i :| 0 <= i <= |rest| && OccursAt(rest, key, i);
    BeforeTheEnd(c, f, g, i);
    hide OccursAt, HasSuffix;
    if i == 0 {
      assert key[1..] == g && f[..|g|] == ("/" + f)[0..1 + |g|][1..];
    } else {
      assert f[i - 1..i - 1 + |key|] == ("/" + f)[i..i + |key|];
      InPart(f, key, i - 1);
    }
  }

  lemma InPart(f: string, key: string, i: nat)
    requires i + |key| <= |f| && f[i..i + |key|] == key
    ensures Contains(f, key)
  {
    assert OccursAt(f, key, i);
  }

  /** A path that some prefix takes and no other one does. */
  ghost predicate Lost(x: string, f: string, q: seq<string>) {
    x != "" && Trim(x) == x && PrefixMatches(x, f) && forall g <- q :: !PrefixMatches(x, g)
  }

  lemma LoseOpening(c: char, f: string, q: seq<string>)
    requires Unused(c, q) && !Universal(f) && forall g <- q :: !Opens(g, f)
    ensures Lost([c] + ("/" + Bare(f) + [c]), f, q)
  {
    hide Bare, PrefixMatches;
    var a := Bare(f);
    var x := [c] + ("/" + a + [c]);
    assert x[|x| - 1] == c;
    TrimTidy(x);
    MatchesByForm(x, f);
    assert x[1..1 + |"/" + a|] == "/" + a;
    assert OccursAt(x, "/" + a, 1);
    forall g | g in q ensures !PrefixMatches(x, g) {
      MatchesByForm(x, g);
      if Fits(x, Bare(g)) && !Universal(g) { OnlyOpening(c, a, Bare(g)); }
    }
  }

  lemma LoseClosing(c: char, f: string, q: seq<string>)
    requires Unused(c, q) && !Universal(f) && forall g <- q :: !Closes(g, f)
    ensures Lost([c] + Bare(f), f, q)
  {
    BareEnds(f);
    hide Bare, PrefixMatches;
    var a := Bare(f);
    var x := [c] + a;
    assert x[|x| - 1] == a[|a| - 1];
    TrimTidy(x);
    MatchesByForm(x, f);
    assert x[1..] == a;
    forall g | g in q ensures !PrefixMatches(x, g) {
      MatchesByForm(x, g);
      if Fits(x, Bare(g)) && !Universal(g) { OnlyInside(c, a, Bare(g)); }
    }
  }

  lemma BareEnds(f: string)
    ensures Bare(f) == "" || !IsSpace(Bare(f)[|Bare(f)| - 1])
  {
    TrimRightEnds(TrimLeft(f));
  }

  lemma LoseAll(c: char, f: string, q: seq<string>)
    requires Unused(c, q) && Universal(f) && !AnyUniversal(q)
    ensures Lost([c], f, q)
  {
    hide Bare, PrefixMatches;
    var x := [c];
    TrimTidy(x);
    MatchesByForm(x, f);
    forall g | g in q ensures !PrefixMatches(x, g) {
      MatchesByForm(x, g);
      assert x == [c] + "";
      if Fits(x, Bare(g)) { OnlyInside(c, "", Bare(g)); }
    }
  }

  lemma UncoveredLoses(c: char, f: string, q: seq<string>) returns (x: string)
    requires Unused(c, q) && !Covered(f, q)
    ensures Lost(x, f, q)
  {
    hide Bare, PrefixMatches, Opens, Closes, Lost, Unused;
    if Universal(f) {
      LoseAll(c, f, q);
      x := [c];
    } else if forall g <- q :: !Opens(g, f) {
      LoseOpening(c, f, q);
      x := [c] + ("/" + Bare(f) + [c]);
    } else {
      LoseClosing(c, f, q);
      x := [c] + Bare(f);
    }
  }

  /** All paths stay within reach if and only if every prefix is covered, for all lists that
      leave some character unused. */
  lemma PathsKeptExactly(p: seq<string>, q: seq<string>, c: char)
    requires Unused(c, q)
    ensures PathsKept(p, q) <==> AllCovered(p, q)
  {
    hide Bare, PrefixMatches, Covered, Unused, PathsKept;
    if AllCovered(p, q) {
      AllCoveredKeeps(p, q);
    } else if p == [] {
      EmptyIsUniversal();
      LoseAll(c, "", q);
      LostNotKept([c], "", p, q);
    } else {
      var f :| f in p && !Covered(f, q);
      var x := UncoveredLoses(c, f, q);
      LostNotKept(x, f, p, q);
    }
  }

  lemma EmptyIsUniversal()
    ensures Universal("")
  {
  }

  lemma LostNotKept(x: string, f: string, p: seq<string>, q: seq<string>)
    requires Lost(x, f, q) && q != [] && (p == [] || f in p)
    ensures !PathsKept(p, q)
  {
    hide PrefixMatches;
    if p != [] { var k :| 0 <= k < |p| && p[k] == f; }
    assert CanAccessPath(p, x) && !CanAccessPath(q, x);
  }

  /** The program's test is right about a change of prefixes except exactly when it fires and
      what was dropped is covered by what was kept. */
  lemma PrefixTestExactly(p: seq<string>, q: seq<string>, c: char)
    requires Unused(c, q)
    ensures (ListTightened(p, q) <==> !PathsKept(p, q)) <==> !(ListTightened(p, q) && AllCovered(p, q))
  {
    hide AllCovered, PathsKept;
    PathsKeptExactly(p, q, c);
    if !ListTightened(p, q) { ListKept(p, q); }
  }

  /** An input at which it fires for nothing, and one beside it at which it does not. */
  lemma PrefixTestOverApproximates()
    ensures ListTightened(["a", "aa"], ["a"]) && PathsKept(["a", "aa"], ["a"])
    ensures !PathsKept(["a", "ab"], ["a"])
  {
    assert "aa" in ["a", "aa"] && "aa" !in ["a"];
    Plain("a");
    Plain("aa");
    Plain("ab");
    assert "a" <= "aa" && HasSuffix("aa", "a");
    assert Opens("a", "a") && Closes("a", "a") && Opens("a", "aa") && Closes("a", "aa");
    assert AllCovered(["a", "aa"], ["a"]);
    AllCoveredKeeps(["a", "aa"], ["a"]);
    assert !Contains("ab", "/a") by {
      forall i | 0 <= i <= 2 ensures !OccursAt("ab", "/a", i) { assert "ab"[0] != "/a"[0]; }
    }
    assert "ab"[1] != "a"[0];
    assert !Closes("a", "ab");
    assert "ab" in ["a", "ab"] && !Covered("ab", ["a"]);
    PathsKeptExactly(["a", "ab"], ["a"], 'z');
  }

  lemma Plain(s: string)
    requires s != "" && s[0] == 'a' && !IsSpace(s[|s| - 1])
    ensures Bare(s) == s && !Universal(s)
  {
    TrimTidy(s);
  }
}
