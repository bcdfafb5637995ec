/** The opaque page cursor: base64url (RFC 4648, section 5, unpadded) of "time|id". */
module Cursor {
  import opened Text

  function SextetChar(n: nat): char
    requires n < 64
  {
    if n < 26 then 'A' + n as char
    else if n < 52 then 'a' + (n - 26) as char
    else if n < 62 then '0' + (n - 52) as char
    else if n == 62 then '-' else '_'
  }

  function CharSextet(c: char): Option<nat> {
    if 'A' <= c <= 'Z' then Some((c - 'A') as nat)
    else if 'a' <= c <= 'z' then Some((c - 'a') as nat + 26)
    else if '0' <= c <= '9' then Some((c - '0') as nat + 52)
    else if c == '-' then Some(62)
    else if c == '_' then Some(63)
    else None
  }

  lemma SextetRoundTrip(n: nat)
    requires n < 64
    ensures CharSextet(SextetChar(n)) == Some(n)
  {
  }

  /** The alphabet of section 5 of RFC 4648. */
  lemma AlphabetLaw(n: nat)
    requires n < 64
    ensures SextetChar(n) as int == if n <= 25 then 65 + n else if n <= 51 then 71 + n else if n <= 61 then n - 4 else if n == 62 then 45 else 95
  {
  }

  // ---- Base64 ----

  function Sextet0(b0: nat): nat { b0 / 4 % 64 }
  function Sextet1(b0: nat, b1: nat): nat { b0 % 4 * 16 + b1 / 16 % 16 }
  function Sextet2(b1: nat, b2: nat): nat { b1 % 16 * 4 + b2 / 64 % 4 }
  function Sextet3(b2: nat): nat { b2 % 64 }

  function Byte0(s0: nat, s1: nat): char { ((s0 * 4 + s1 / 16) % 256) as char }
  function Byte1(s1: nat, s2: nat): char { ((s1 % 16 * 16 + s2 / 4) % 256) as char }
  function Byte2(s2: nat, s3: nat): char { ((s2 % 4 * 64 + s3) % 256) as char }

  lemma Regroup0(b0: nat, b1: nat)
    requires b0 < 256 && b1 < 256
    ensures Byte0(Sextet0(b0), Sextet1(b0, b1)) == b0 as char
  {
    var p := b1 / 16;
    assert p % 16 == p;
    assert (b0 % 4 * 16 + p) / 16 == b0 % 4;
    assert b0 / 4 % 64 == b0 / 4;
  }

  lemma Regroup1(b0: nat, b1: nat, b2: nat)
    requires b0 < 256 && b1 < 256 && b2 < 256
    ensures Byte1(Sextet1(b0, b1), Sextet2(b1, b2)) == b1 as char
  {
    var p, q, u := b1 / 16, b1 % 16, b2 / 64;
    assert p % 16 == p && u % 4 == u;
    assert (b0 % 4 * 16 + p) % 16 == p;
    assert (q * 4 + u) / 4 == q;
    assert p * 16 + q == b1;
  }

  lemma Regroup2(b1: nat, b2: nat)
    requires b1 < 256 && b2 < 256
    ensures Byte2(Sextet2(b1, b2), Sextet3(b2)) == b2 as char
  {
    var u := b2 / 64;
    assert u % 4 == u;
    assert (b1 % 16 * 4 + u) % 4 == u;
  }

  /** The sextets of a byte triple, regrouped, are the triple. */
  lemma Regroup(b0: nat, b1: nat, b2: nat)
    requires b0 < 256 && b1 < 256 && b2 < 256
    ensures Byte0(Sextet0(b0), Sextet1(b0, b1)) == b0 as char
    ensures Byte1(Sextet1(b0, b1), Sextet2(b1, b2)) == b1 as char
    ensures Byte2(Sextet2(b1, b2), Sextet3(b2)) == b2 as char
  {
    Regroup0(b0, b1);
    Regroup1(b0, b1, b2);
    Regroup2(b1, b2);
  }

  /** The four characters of a byte triple. */
  function Quad(b0: nat, b1: nat, b2: nat): string
    requires b0 < 256
  {
    [SextetChar(Sextet0(b0)), SextetChar(Sextet1(b0, b1)), SextetChar(Sextet2(b1, b2)), SextetChar(Sextet3(b2))]
  }

  function Encode(s: string): string
    requires IsBytes(s)
  {
    if |s| == 0 then ""
    else
      var b0 := s[0] as nat;
      if |s| == 1 then [SextetChar(Sextet0(b0)), SextetChar(Sextet1(b0, 0))]
      else
        var b1 := s[1] as nat;
        if |s| == 2 then [SextetChar(Sextet0(b0)), SextetChar(Sextet1(b0, b1)), SextetChar(Sextet2(b1, 0))]
        else
          var b2 := s[2] as nat;
          Quad(b0, b1, b2) + Encode(s[3..])
  }

  function StripBreaks(t: string): string {
    if t == "" then ""
    else if t[0] == '\r' || t[0] == '\n' then StripBreaks(t[1..])
    else [t[0]] + StripBreaks(t[1..])
  }

  function DecodeQuanta(t: string): Option<string> {
    if |t| == 0 then Some("")
    else if |t| == 1 then None
    else match (CharSextet(t[0]), CharSextet(t[1]))
      case (Some(s0), Some(s1)) =>
        var c0 := Byte0(s0, s1);
        if |t| == 2 then Some([c0])
        else (match CharSextet(t[2])
          case None => None
          case Some(s2) =>
              var c1 := Byte1(s1, s2);
            if |t| == 3 then Some([c0, c1])
            else (match (CharSextet(t[3]), DecodeQuanta(t[4..]))
              case (Some(s3), Some(rest)) => Some([c0, c1, Byte2(s2, s3)] + rest)
              case _ => None))
      case _ => None
  }

  function DropPadding(t: string): string {
    if t != "" && t[|t| - 1] == '=' then
      if |t| > 1 && t[|t| - 2] == '=' then t[..|t| - 2] else t[..|t| - 1]
    else t
  }

  /** Unpadded first, padded as a fallback for hand-made cursors. */
  function Decode(t: string): Option<string> {
    var plain := StripBreaks(t);
    match DecodeQuanta(plain)
    case Some(s) => Some(s)
    case None => if |plain| % 4 == 0 then DecodeQuanta(DropPadding(plain)) else None
  }

  predicate AllSextets(t: string) { forall i :: 0 <= i < |t| ==> CharSextet(t[i]).Some? }

  lemma DecodeQuad(t: string, s0: nat, s1: nat, s2: nat, s3: nat, rest: string)
    requires |t| >= 4 && DecodeQuanta(t[4..]) == Some(rest)
    requires CharSextet(t[0]) == Some(s0) && CharSextet(t[1]) == Some(s1)
    requires CharSextet(t[2]) == Some(s2) && CharSextet(t[3]) == Some(s3)
    ensures DecodeQuanta(t) == Some([Byte0(s0, s1), Byte1(s1, s2), Byte2(s2, s3)] + rest)
  {
  }

  lemma DecodePair(t: string, s0: nat, s1: nat)
    requires |t| == 2 && CharSextet(t[0]) == Some(s0) && CharSextet(t[1]) == Some(s1)
    ensures DecodeQuanta(t) == Some([Byte0(s0, s1)])
  {
  }

  lemma DecodeTriple(t: string, s0: nat, s1: nat, s2: nat)
    requires |t| == 3 && CharSextet(t[0]) == Some(s0) && CharSextet(t[1]) == Some(s1)
    requires CharSextet(t[2]) == Some(s2)
    ensures DecodeQuanta(t) == Some([Byte0(s0, s1), Byte1(s1, s2)])
  {
  }

  lemma OneByteRoundTrip(s: string)
    requires IsBytes(s) && |s| == 1
    ensures DecodeQuanta(Encode(s)) == Some(s) && AllSextets(Encode(s))
  {
    var b0 := s[0] as nat;
    Regroup0(b0, 0);
    SextetRoundTrip(Sextet0(b0));
    SextetRoundTrip(Sextet1(b0, 0));
    DecodePair(Encode(s), Sextet0(b0), Sextet1(b0, 0));
    assert s == [s[0]];
  }

  lemma TwoByteRoundTrip(s: string)
    requires IsBytes(s) && |s| == 2
    ensures DecodeQuanta(Encode(s)) == Some(s) && AllSextets(Encode(s))
  {
    var b0, b1 := s[0] as nat, s[1] as nat;
    Regroup(b0, b1, 0);
    SextetRoundTrip(Sextet0(b0));
    SextetRoundTrip(Sextet1(b0, b1));
    SextetRoundTrip(Sextet2(b1, 0));
    DecodeTriple(Encode(s), Sextet0(b0), Sextet1(b0, b1), Sextet2(b1, 0));
    assert s == [s[0], s[1]];
  }

  lemma QuadSextets(b0: nat, b1: nat, b2: nat)
    requires b0 < 256
    ensures var q := Quad(b0, b1, b2);
            && CharSextet(q[0]) == Some(Sextet0(b0)) && CharSextet(q[1]) == Some(Sextet1(b0, b1))
            && CharSextet(q[2]) == Some(Sextet2(b1, b2)) && CharSextet(q[3]) == Some(Sextet3(b2))
  {
    SextetRoundTrip(Sextet0(b0));
    SextetRoundTrip(Sextet1(b0, b1));
    SextetRoundTrip(Sextet2(b1, b2));
    SextetRoundTrip(Sextet3(b2));
  }

  lemma QuadDecodes(b0: nat, b1: nat, b2: nat, t: string, rest: string)
    requires b0 < 256 && b1 < 256 && b2 < 256
    requires DecodeQuanta(t) == Some(rest) && AllSextets(t)
    ensures DecodeQuanta(Quad(b0, b1, b2) + t) == Some([b0 as char, b1 as char, b2 as char] + rest)
    ensures AllSextets(Quad(b0, b1, b2) + t)
  {
    var q := Quad(b0, b1, b2);
    QuadSextets(b0, b1, b2);
    Regroup(b0, b1, b2);
    assert (q + t)[4..] == t;
    DecodeQuad(q + t, Sextet0(b0), Sextet1(b0, b1), Sextet2(b1, b2), Sextet3(b2), rest);
  }

  lemma TripleRoundTrip(s: string)
    requires IsBytes(s) && |s| >= 3
    requires DecodeQuanta(Encode(s[3..])) == Some(s[3..]) && AllSextets(Encode(s[3..]))
    ensures DecodeQuanta(Encode(s)) == Some(s) && AllSextets(Encode(s))
  {
    QuadDecodes(s[0] as nat, s[1] as nat, s[2] as nat, Encode(s[3..]), s[3..]);
    assert s == [s[0], s[1], s[2]] + s[3..];
  }

  lemma {:induction false} QuantaRoundTrip(s: string)
    requires IsBytes(s)
    ensures DecodeQuanta(Encode(s)) == Some(s) && AllSextets(Encode(s))
  {
    if |s| >= 3 {
      QuantaRoundTrip(s[3..]);
      TripleRoundTrip(s);
    } else if |s| == 2 {
      TwoByteRoundTrip(s);
    } else if |s| == 1 {
      OneByteRoundTrip(s);
    }
  }

  lemma {:induction false} NoBreaks(t: string)
    requires AllSextets(t)
    ensures StripBreaks(t) == t
  {
    if t != "" { NoBreaks(t[1..]); }
  }

  // ---- Time and id ----

  function FormatTime(t: int): string {
    if t < 0 then "-" + Decimal(-t) else Decimal(t)
  }

  function ParseTime(s: string): Option<int> {
    var negative := s != "" && s[0] == '-';
    var digits := ParseDecimal(if negative then s[1..] else s);
    if digits.None? then None
    else
      var r: Option<int> := Some(if negative then 0 - digits.value else digits.value);
      r
  }

  lemma TimeRoundTrip(t: int)
    ensures ParseTime(FormatTime(t)) == Some(t)
    ensures FormatTime(t) != "" && '|' !in FormatTime(t) && IsBytes(FormatTime(t))
  {
    DecimalRoundTrip(if t < 0 then -t else t);
    assert Decimal(if t < 0 then -t else t)[0] != '-';
  }

  function EncodeCursor(createdAt: int, id: string): string
    requires IsBytes(id)
  {
    TimeRoundTrip(createdAt);
    Encode(FormatTime(createdAt) + "|" + id)
  }

  /** Test vectors of section 10 of RFC 4648, unpadded, and one whole cursor. */
  lemma VectorLaw()
    ensures Encode("f") == "Zg" && Encode("fo") == "Zm8" && Encode("foo") == "Zm9v"
    ensures EncodeCursor(7, "j") == Encode("7|j")
  {
    assert "foo"[3..] == "";
    assert FormatTime(7) == "7";
    assert "7" + "|" + "j" == "7|j";
  }

  /** None for an empty or invalid cursor, which the caller takes for the first page. */
  function DecodeCursor(cursor: string): Option<(int, string)> {
    var c := Trim(cursor);
    if c == "" then None
    else match Decode(c)
      case None => None
      case Some(raw) =>
        var bar := IndexOf(raw, '|');
        if bar == |raw| || bar == 0 || bar + 1 == |raw| then None
        else match ParseTime(raw[..bar])
          case None => None
          case Some(t) => Some((t, raw[bar + 1..]))
  }

  lemma {:induction false} TrimKeeps(s: string)
    requires forall i :: 0 <= i < |s| ==> !IsSpace(s[i])
    ensures Trim(s) == s
  {
  }

  lemma SplitAtBar(time: string, id: string)
    requires '|' !in time
    ensures IndexOf(time + "|" + id, '|') == |time|
  {
    var raw := time + "|" + id;
    assert raw[|time|] == '|';
    assert forall i :: 0 <= i < |time| ==> raw[i] == time[i];
  }

  lemma EncodedPlain(raw: string)
    requires IsBytes(raw) && raw != ""
    ensures Decode(Encode(raw)) == Some(raw) && Trim(Encode(raw)) == Encode(raw) && Encode(raw) != ""
  {
    QuantaRoundTrip(raw);
    NoBreaks(Encode(raw));
    TrimKeeps(Encode(raw));
  }

  /** A cursor leads back to exactly the row it was made from. */
  lemma CursorRoundTrip(createdAt: int, id: string)
    requires IsBytes(id) && id != ""
    ensures DecodeCursor(EncodeCursor(createdAt, id)) == Some((createdAt, id))
    ensures EncodeCursor(createdAt, id) != ""
  {
    TimeRoundTrip(createdAt);
    var time := FormatTime(createdAt);
    var raw := time + "|" + id;
    EncodedPlain(raw);
    SplitAtBar(time, id);
    assert raw[..|time|] == time && raw[|time| + 1..] == id;
  }
}
