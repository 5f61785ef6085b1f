/** The fingerprint of a ClientHello (internal/edge/clienthello.go). The hash is a parameter. */
module Ja4 {
  import opened Basics
  import opened ClientHello

  // ----- hexadecimal text -----

  function HexDigit(d: int): char
    requires 0 <= d < 16
  {
    "0123456789abcdef"[d]
  }

  function Hex4(v: u16): string {
    [HexDigit(v / 4096), HexDigit(v / 256 % 16), HexDigit(v / 16 % 16), HexDigit(v % 16)]
  }

  function Each<A, B>(f: A -> B, s: seq<A>): seq<B> {
    if s == [] then [] else Each(f, s[..|s| - 1]) + [f(s[|s| - 1])]
  }

  function Hexes(vs: seq<u16>): seq<string> {
    Each(Hex4, vs)
  }

  function Join(parts: seq<string>): string {
    if parts == [] then "" else if |parts| == 1 then parts[0] else Join(parts[..|parts| - 1]) + "," + parts[|parts| - 1]
  }

  // ----- sorting -----

  predicate LexLe(a: string, b: string) {
    a == [] || (b != [] && (a[0] < b[0] || (a[0] == b[0] && LexLe(a[1..], b[1..]))))
  }

  function Insert(x: string, s: seq<string>): seq<string> {
    if s == [] || LexLe(x, s[0]) then [x] + s else [s[0]] + Insert(x, s[1..])
  }

  /** sort.Strings. */
  function Sort(s: seq<string>): seq<string> {
    if s == [] then [] else Insert(s[|s| - 1], Sort(s[..|s| - 1]))
  }

  // ----- the parts -----

  function Min(a: nat, b: nat): nat {
    if a < b then a else b
  }

  function Two(n: nat): string
    requires n < 100
  {
    [HexDigit(n / 10), HexDigit(n % 10)]
  }

  function VersionString(v: u16): string {
    if v == 0x0304 then "1.3" else if v == 0x0303 then "1.2" else if v == 0x0302 then "1.1" else if v == 0x0301 then "1.0" else "0x" + Hex4(v)
  }

  function VersionPart(v: string): string {
    if v == "1.2" then "12" else if v == "1.1" then "11" else if v == "1.0" then "10" else "13"
  }

  predicate IsAlnum(b: byte) {
    48 <= b <= 57 || 65 <= b <= 90 || 97 <= b <= 122
  }

  /** The first and last characters of the protocol name, or of its hexadecimal text. */
  function AlpnPart(alpn: seq<byte>): string {
    if alpn == [] then "00"
    else
      var first, last := alpn[0], alpn[|alpn| - 1];
      if IsAlnum(first) && IsAlnum(last) then [first as char, last as char] else [HexDigit(first / 16), HexDigit(last % 16)]
  }

  /** The kinds that are hashed: all but the server name and the protocol names. */
  function Hashed(kinds: seq<u16>): seq<u16> {
    if kinds == [] then []
    else var k := kinds[|kinds| - 1]; Hashed(kinds[..|kinds| - 1]) + (if k == SNI || k == ALPN then [] else [k])
  }

  function Sha12(hash: string -> string, s: string): string {
    if s == "" then "000000000000" else var h := hash(s); if |h| < 12 then h else h[..12]
  }

  function Counted(f: Facts): string {
    "t" + VersionPart(VersionString(f.version)) + (if f.sni != [] then "d" else "i")
    + Two(Min(|f.ciphers|, 99)) + Two(Min(|f.kinds|, 99)) + AlpnPart(f.alpn)
  }

  function ExtensionText(sorted: seq<string>, sigAlgs: seq<u16>): string {
    Join(sorted) + (if sigAlgs == [] then "" else "_" + Join(Hexes(sigAlgs)))
  }

  function Fingerprint(hash: string -> string, f: Facts): string {
    Counted(f) + "_" + Sha12(hash, Join(Sort(Hexes(f.ciphers)))) + "_" + Sha12(hash, ExtensionText(Sort(Hexes(Hashed(f.kinds))), f.sigAlgs))
  }

  datatype Info = Info(sni: seq<byte>, alpn: seq<byte>, version: string, ja4: string)

  /** parseClientHello. */
  function Parse(hash: string -> string, record: seq<byte>): Option<Info> {
    var r := Read(record);
    if r.None? then None else Some(Info(r.value.sni, r.value.alpn, VersionString(r.value.version), Fingerprint(hash, r.value)))
  }

  // ----- the loops -----

  method HexList(vs: seq<u16>) returns (out: seq<string>)
    ensures out == Hexes(vs)
  {
    out := [];
    var i := 0;
    while i < |vs|
      invariant 0 <= i <= |vs| && out == Hexes(vs[..i])
    {
      out := out + [Hex4(vs[i])];
      assert vs[..i + 1][..i] == vs[..i];
      i := i + 1;
    }
    assert vs[..i] == vs;
  }

  method FilterKinds(kinds: seq<u16>) returns (out: seq<u16>)
    ensures out == Hashed(kinds)
  {
    out := [];
    var i := 0;
    while i < |kinds|
      invariant 0 <= i <= |kinds| && out == Hashed(kinds[..i])
    {
      assert kinds[..i + 1][..i] == kinds[..i];
      if kinds[i] != SNI && kinds[i] != ALPN {
        out := out + [kinds[i]];
      }
      i := i + 1;
    }
    assert kinds[..i] == kinds;
  }

  /** computeJA4. */
  method Compute(hash: string -> string, f: Facts) returns (ja4: string)
    ensures ja4 == Fingerprint(hash, f)
  {
    var ciphers := HexList(f.ciphers);
    var hashed := FilterKinds(f.kinds);
    var kinds := HexList(hashed);
    var sigAlgs := HexList(f.sigAlgs);
    var text := Join(Sort(kinds));
    if f.sigAlgs != [] {
      text := text + ("_" + Join(sigAlgs));
    }
    assert text == ExtensionText(Sort(kinds), f.sigAlgs);
    ja4 := Counted(f) + "_" + Sha12(hash, Join(Sort(ciphers))) + "_" + Sha12(hash, text);
  }

  // ----- sorting depends on the elements only -----

  lemma {:induction false} LexIsTotal(a: string, b: string)
    ensures LexLe(a, b) || LexLe(b, a)
    decreases |a|
  {
    if a != [] && b != [] {
      LexIsTotal(a[1..], b[1..]);
    }
  }

  lemma {:induction false} LexIsAntisymmetric(a: string, b: string)
    requires LexLe(a, b) && LexLe(b, a)
    ensures a == b
    decreases |a|
  {
    if a != [] && b != [] {
      LexIsAntisymmetric(a[1..], b[1..]);
      assert a == [a[0]] + a[1..] && b == [b[0]] + b[1..];
    }
  }

  lemma {:induction false} LexIsTransitive(a: string, b: string, c: string)
    requires LexLe(a, b) && LexLe(b, c)
    ensures LexLe(a, c)
    decreases |a|
  {
    if a != [] && a[0] == b[0] && b[0] == c[0] {
      LexIsTransitive(a[1..], b[1..], c[1..]);
    }
  }

  ghost predicate Sorted(s: seq<string>) {
    forall i, j :: 0 <= i < j < |s| ==> LexLe(s[i], s[j])
  }

  lemma {:induction false} InsertKeepsElements(x: string, s: seq<string>)
    ensures multiset(Insert(x, s)) == multiset(s) + multiset{x}
    decreases |s|
  {
    if s != [] && !LexLe(x, s[0]) {
      InsertKeepsElements(x, s[1..]);
      assert s == [s[0]] + s[1..];
    }
  }

  lemma {:induction false} InsertKeepsSorted(x: string, s: seq<string>)
    requires Sorted(s)
    ensures Sorted(Insert(x, s))
    decreases |s|
  {
    if s == [] {
    } else if LexLe(x, s[0]) {
      forall j | 0 <= j < |s|
        ensures LexLe(x, s[j])
      {
        if j > 0 {
          LexIsTransitive(x, s[0], s[j]);
        }
      }
    } else {
      LexIsTotal(x, s[0]);
      InsertKeepsSorted(x, s[1..]);
      InsertKeepsElements(x, s[1..]);
      forall j | 0 <= j < |Insert(x, s[1..])|
        ensures LexLe(s[0], Insert(x, s[1..])[j])
      {
        assert Insert(x, s[1..])[j] in multiset(Insert(x, s[1..]));
      }
    }
  }

  lemma {:induction false} SortSorts(s: seq<string>)
    ensures Sorted(Sort(s)) && multiset(Sort(s)) == multiset(s)
    decreases |s|
  {
    if s != [] {
      var rest := s[..|s| - 1];
      SortSorts(rest);
      InsertKeepsSorted(s[|s| - 1], Sort(rest));
      InsertKeepsElements(s[|s| - 1], Sort(rest));
      assert s == rest + [s[|s| - 1]];
    }
  }

  lemma WithoutFirst<T>(a: seq<T>)
    requires a != []
    ensures multiset(a[1..]) == multiset(a) - multiset{a[0]}
  {
    assert a == [a[0]] + a[1..];
  }

  lemma SmallestIsFirst(a: seq<string>, b: seq<string>)
    requires Sorted(a) && Sorted(b) && a != [] && b != [] && a[0] in b && b[0] in a
    ensures a[0] == b[0]
  {
    var i :| 0 <= i < |b| && b[i] == a[0];
    var j :| 0 <= j < |a| && a[j] == b[0];
    if i > 0 && j > 0 {
      LexIsAntisymmetric(a[0], b[0]);
    }
  }

  lemma {:induction false} SortedIsUnique(a: seq<string>, b: seq<string>)
    requires Sorted(a) && Sorted(b) && multiset(a) == multiset(b)
    ensures a == b
    decreases |a|
  {
    SameLength(a, b);
    if a != [] {
      assert a[0] in multiset(b) && b[0] in multiset(a);
      SmallestIsFirst(a, b);
      WithoutFirst(a);
      WithoutFirst(b);
      SortedIsUnique(a[1..], b[1..]);
    }
  }

  lemma SameLength<T>(a: seq<T>, b: seq<T>)
    requires multiset(a) == multiset(b)
    ensures |a| == |b|
  {
    assert |a| == |multiset(a)| && |b| == |multiset(b)|;
  }

  lemma SortIsCanonical(a: seq<string>, b: seq<string>)
    requires multiset(a) == multiset(b)
    ensures Sort(a) == Sort(b)
  {
    SortSorts(a);
    SortSorts(b);
    SortedIsUnique(Sort(a), Sort(b));
  }

  // ----- elements under a map -----

  lemma WithoutOne<T>(b: seq<T>, j: nat)
    requires j < |b|
    ensures multiset(b[..j] + b[j + 1..]) == multiset(b) - multiset{b[j]}
  {
    assert b == b[..j] + ([b[j]] + b[j + 1..]);
  }

  lemma {:induction false} EachConcat<A, B>(f: A -> B, a: seq<A>, b: seq<A>)
    ensures Each(f, a + b) == Each(f, a) + Each(f, b)
    decreases |b|
  {
    if b == [] {
      assert a + b == a;
    } else {
      var n := |b| - 1;
      EachConcat(f, a, b[..n]);
      assert (a + b)[..|a + b| - 1] == a + b[..n];
    }
  }

  lemma EachOne<A, B>(f: A -> B, x: A)
    ensures Each(f, [x]) == [f(x)]
  {
    assert [x][..0] == [];
  }

  lemma Middle<T>(x: seq<T>, q: T, z: seq<T>)
    ensures multiset((x + [q]) + z) == multiset(x + z) + multiset{q}
  {
    assert multiset((x + [q]) + z) == multiset(x + [q]) + multiset(z) == (multiset(x) + multiset{q}) + multiset(z);
    assert multiset(x + z) == multiset(x) + multiset(z);
  }

  lemma EachMiddle<A, B>(f: A -> B, x: seq<A>, q: A, z: seq<A>)
    ensures Each(f, (x + [q]) + z) == (Each(f, x) + [f(q)]) + Each(f, z)
  {
    EachConcat(f, x + [q], z);
    EachConcat(f, x, [q]);
    EachOne(f, q);
  }

  lemma EachWithoutOne<A, B>(f: A -> B, b: seq<A>, j: nat)
    requires j < |b|
    ensures multiset(Each(f, b)) == multiset(Each(f, b[..j] + b[j + 1..])) + multiset{f(b[j])}
  {
    var x, z := b[..j], b[j + 1..];
    assert b == (x + [b[j]]) + z;
    EachMiddle(f, x, b[j], z);
    EachConcat(f, x, z);
    Middle(Each(f, x), f(b[j]), Each(f, z));
  }

  lemma {:induction false} EachKeepsElements<A, B>(f: A -> B, a: seq<A>, b: seq<A>)
    requires multiset(a) == multiset(b)
    ensures multiset(Each(f, a)) == multiset(Each(f, b))
    decreases |a|
  {
    SameLength(a, b);
    if a != [] {
      var n := |a| - 1;
      assert a[n] in multiset(b);
      var j :| 0 <= j < |b| && b[j] == a[n];
      WithoutOne(a, n);
      WithoutOne(b, j);
      assert a[..n] + a[n + 1..] == a[..n];
      EachKeepsElements(f, a[..n], b[..j] + b[j + 1..]);
      EachWithoutOne(f, b, j);
    }
  }
}
