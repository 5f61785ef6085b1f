/**
 What a fingerprint tells: its first ten characters position by position, and, but for collisions of the hash, exactly
 which facts give the same fingerprint.
 */
module Ja4Exact {
  import opened ClientHello
  import opened Ja4

  // ----- digits -----

  lemma HexDigitTells(d: int)
    requires 0 <= d < 16
    ensures HexDigit(d) == if d < 10 then (d + '0' as int) as char else (d - 10 + 'a' as int) as char
  {
    assert d == 0 || d == 1 || d == 2 || d == 3 || d == 4 || d == 5 || d == 6 || d == 7 || d == 8 || d == 9
           || d == 10 || d == 11 || d == 12 || d == 13 || d == 14 || d == 15;
  }

  lemma HexDigitIsInjective(c: int, d: int)
    requires 0 <= c < 16 && 0 <= d < 16 && HexDigit(c) == HexDigit(d)
    ensures c == d
  {
    HexDigitTells(c);
    HexDigitTells(d);
  }

  /** The value of a hexadecimal digit. */
  function Value(c: char): int {
    if c <= '9' then c as int - '0' as int else c as int - 'a' as int + 10
  }

  lemma DigitHasValue(d: int)
    requires 0 <= d < 16
    ensures Value(HexDigit(d)) == d && HexDigit(d) != '_'
  {
    HexDigitTells(d);
  }

  lemma FourDigits(v: int, a: int, b: int, c: int, d: int)
    requires 0 <= v < 65536 && a == v / 4096 && b == v / 256 % 16 && c == v / 16 % 16 && d == v % 16
    ensures v == 4096 * a + 256 * b + 16 * c + d
  {
    assert v / 16 == 16 * (v / 256) + c;
    assert v / 256 == 16 * a + b;
  }

  lemma Hex4IsInjective(v: u16, w: u16)
    requires Hex4(v) == Hex4(w)
    ensures v == w
  {
    assert Hex4(v)[0] == Hex4(w)[0] && Hex4(v)[1] == Hex4(w)[1] && Hex4(v)[2] == Hex4(w)[2] && Hex4(v)[3] == Hex4(w)[3];
    SameDigits(v / 4096, v / 256 % 16, v / 16 % 16, v % 16, w / 4096, w / 256 % 16, w / 16 % 16, w % 16);
    FourDigits(v, v / 4096, v / 256 % 16, v / 16 % 16, v % 16);
    FourDigits(w, w / 4096, w / 256 % 16, w / 16 % 16, w % 16);
  }

  lemma SameDigits(a: int, b: int, c: int, d: int, a': int, b': int, c': int, d': int)
    requires 0 <= a < 16 && 0 <= b < 16 && 0 <= c < 16 && 0 <= d < 16 && 0 <= a' < 16 && 0 <= b' < 16 && 0 <= c' < 16 && 0 <= d' < 16
    requires HexDigit(a) == HexDigit(a') && HexDigit(b) == HexDigit(b') && HexDigit(c) == HexDigit(c') && HexDigit(d) == HexDigit(d')
    ensures a == a' && b == b' && c == c' && d == d'
  {
    hide HexDigit;
    HexDigitIsInjective(a, a');
    HexDigitIsInjective(b, b');
    HexDigitIsInjective(c, c');
    HexDigitIsInjective(d, d');
  }

  // ----- the first ten characters -----

  lemma Ten(a: string, b: string, c: string, d: string, e: string, f: string)
    requires |a| == 1 && |b| == 2 && |c| == 1 && |d| == 2 && |e| == 2 && |f| == 2
    ensures var t := a + b + c + d + e + f;
            |t| == 10 && t[0] == a[0] && t[1..3] == b && t[3] == c[0] && t[4..6] == d && t[6..8] == e && t[8..10] == f
  {
  }

  lemma PartsHaveTwo(f: Facts)
    ensures |VersionPart(VersionString(f.version))| == 2 && |AlpnPart(f.alpn)| == 2
  {
  }

  lemma FirstTen(hash: string -> string, f: Facts)
    ensures var t := Counted(f);
            && |t| == 10 && t[0] == 't' && t[1..3] == VersionPart(VersionString(f.version)) && t[3] == (if f.sni != [] then 'd' else 'i')
            && t[4..6] == Two(Min(|f.ciphers|, 99)) && t[6..8] == Two(Min(|f.kinds|, 99)) && t[8..10] == AlpnPart(f.alpn)
    ensures |Fingerprint(hash, f)| >= 10 && Fingerprint(hash, f)[..10] == Counted(f)
  {
    hide VersionPart, VersionString, AlpnPart, HexDigit, Sha12, Hexes, Sort;
    PartsHaveTwo(f);
    Ten("t", VersionPart(VersionString(f.version)), if f.sni != [] then "d" else "i", Two(Min(|f.ciphers|, 99)), Two(Min(|f.kinds|, 99)), AlpnPart(f.alpn));
  }

  /** The two characters of a version: those of 1.0 to 1.3, and 1.3 for any other. */
  lemma VersionTells(v: u16)
    ensures var part := VersionPart(VersionString(v));
            |part| == 2 && part[0] == '1' && Value(part[1]) == if 0x0301 <= v <= 0x0304 then v - 0x0301 else 3
  {
    if v < 0x0301 || v > 0x0304 {
      assert VersionString(v)[0] == '0';
    }
  }

  /** The two characters of a protocol name: none, its first and last characters, or the first and last of its hexadecimal text. */
  lemma AlpnTells(alpn: seq<byte>)
    ensures var part := AlpnPart(alpn);
            && |part| == 2 && (alpn == [] ==> part == "00")
            && (alpn != [] && IsAlnum(alpn[0]) && IsAlnum(alpn[|alpn| - 1]) ==> part[0] as int == alpn[0] && part[1] as int == alpn[|alpn| - 1])
            && (alpn != [] && !(IsAlnum(alpn[0]) && IsAlnum(alpn[|alpn| - 1])) ==>
                  Value(part[0]) == alpn[0] / 16 && Value(part[1]) == alpn[|alpn| - 1] % 16)
  {
    if alpn != [] {
      DigitHasValue(alpn[0] / 16);
      DigitHasValue(alpn[|alpn| - 1] % 16);
    }
  }

  /**
   A fingerprint can be read: transport, version, whether a server name was sent, how many ciphers and extensions up to
   99, and the protocol.
   */
  lemma FingerprintReads(hash: string -> string, f: Facts)
    ensures var t := Fingerprint(hash, f);
            && |t| >= 10 && t[0] == 't' && t[1] == '1'
            && Value(t[2]) == (if 0x0301 <= f.version <= 0x0304 then f.version - 0x0301 else 3)
            && t[3] == (if f.sni != [] then 'd' else 'i')
            && 10 * Value(t[4]) + Value(t[5]) == Min(|f.ciphers|, 99)
            && 10 * Value(t[6]) + Value(t[7]) == Min(|f.kinds|, 99)
            && t[8..10] == AlpnPart(f.alpn)
  {
    hide VersionPart, VersionString, AlpnPart, HexDigit, Fingerprint, Value, Counted;
    var t, c, n, m := Fingerprint(hash, f), Counted(f), Min(|f.ciphers|, 99), Min(|f.kinds|, 99);
    FirstTen(hash, f);
    VersionTells(f.version);
    TwoDigits(n);
    TwoDigits(m);
    assert forall i :: 0 <= i < 10 ==> t[i] == t[..10][i];
    assert c[1] == c[1..3][0] && c[2] == c[1..3][1];
    assert c[4] == c[4..6][0] && c[5] == c[4..6][1] && c[6] == c[6..8][0] && c[7] == c[6..8][1];
    assert t[8..10] == t[..10][8..10];
  }

  lemma TwoDigits(n: nat)
    requires n < 100
    ensures 10 * Value(Two(n)[0]) + Value(Two(n)[1]) == n
  {
    DigitHasValue(n / 10);
    DigitHasValue(n % 10);
  }

  // ----- the hashed texts -----

  predicate AllFour(parts: seq<string>) {
    forall i :: 0 <= i < |parts| ==> |parts[i]| == 4
  }

  lemma {:induction false} JoinLength(parts: seq<string>)
    requires AllFour(parts)
    ensures |Join(parts)| == if parts == [] then 0 else 5 * |parts| - 1
  {
    if |parts| > 1 {
      JoinLength(parts[..|parts| - 1]);
    }
  }

  lemma {:induction false} JoinIsInjective(a: seq<string>, b: seq<string>)
    requires AllFour(a) && AllFour(b) && Join(a) == Join(b)
    ensures a == b
    decreases |a|
  {
    JoinLength(a);
    JoinLength(b);
    if |a| > 1 {
      var n := |a| - 1;
      var x, y := Join(a[..n]) + ",", Join(b[..n]) + ",";
      JoinLength(a[..n]);
      JoinLength(b[..n]);
      assert Join(a) == x + a[n] && Join(b) == y + b[n] && |x| == |y|;
      assert (x + a[n])[..|x|] == x && (y + b[n])[..|y|] == y && (x + a[n])[|x|..] == a[n] && (y + b[n])[|y|..] == b[n];
      assert x[..|x| - 1] == Join(a[..n]) && y[..|y| - 1] == Join(b[..n]);
      JoinIsInjective(a[..n], b[..n]);
      assert a == a[..n] + [a[n]] && b == b[..n] + [b[n]];
    } else if |a| == 1 {
      assert a == [a[0]] && b == [b[0]];
    }
  }

  lemma {:induction false} EachAt<A, B>(f: A -> B, s: seq<A>)
    ensures |Each(f, s)| == |s| && forall i :: 0 <= i < |s| ==> Each(f, s)[i] == f(s[i])
  {
    if s != [] {
      EachAt(f, s[..|s| - 1]);
    }
  }

  lemma HexesIsInjective(a: seq<u16>, b: seq<u16>)
    requires Hexes(a) == Hexes(b)
    ensures a == b
  {
    EachAt(Hex4, a);
    EachAt(Hex4, b);
    forall i | 0 <= i < |a|
      ensures a[i] == b[i]
    {
      Hex4IsInjective(a[i], b[i]);
    }
  }

  lemma HexesAreFour(vs: seq<u16>)
    ensures AllFour(Hexes(vs))
  {
    EachAt(Hex4, vs);
  }

  lemma SortedAreFour(vs: seq<u16>)
    ensures AllFour(Sort(Hexes(vs)))
  {
    HexesAreFour(vs);
    SortSorts(Hexes(vs));
    var sorted := Sort(Hexes(vs));
    forall i | 0 <= i < |sorted|
      ensures |sorted[i]| == 4
    {
      assert sorted[i] in multiset(Hexes(vs));
    }
  }

  /** An element whose text is among the others' texts is among the others. */
  lemma TextIsElement(v: u16, b: seq<u16>) returns (j: nat)
    requires Hex4(v) in multiset(Hexes(b))
    ensures j < |b| && b[j] == v
  {
    hide Hex4;
    EachAt(Hex4, b);
    var texts := Hexes(b);
    assert Hex4(v) in texts;
    j :| 0 <= j < |texts| && texts[j] == Hex4(v);
    Hex4IsInjective(v, b[j]);
  }

  lemma TextsWithoutOne(b: seq<u16>, j: nat)
    requires j < |b|
    ensures var rest := b[..j] + b[j + 1..];
            && multiset(Hexes(rest)) == multiset(Hexes(b)) - multiset{Hex4(b[j])} && Hex4(b[j]) in multiset(Hexes(b))
            && multiset(b) == multiset(rest) + multiset{b[j]}
  {
    hide Hex4;
    EachWithoutOne(Hex4, b, j);
    WithoutOne(b, j);
    assert b[j] in multiset(b);
  }

  /** Lists with the same texts, in any order, have the same elements. */
  lemma {:induction false} SameTextsSameElements(a: seq<u16>, b: seq<u16>)
    requires multiset(Hexes(a)) == multiset(Hexes(b))
    ensures multiset(a) == multiset(b)
    decreases |a|
  {
    hide Hex4, Hexes;
    if a == [] {
      NoTexts(a, b);
    } else {
      TextsWithoutOne(a, 0);
      var j := TextIsElement(a[0], b);
      TextsWithoutOne(b, j);
      SameTextsSameElements(a[..0] + a[1..], b[..j] + b[j + 1..]);
    }
  }

  lemma NoTexts(a: seq<u16>, b: seq<u16>)
    requires a == [] && multiset(Hexes(a)) == multiset(Hexes(b))
    ensures b == []
  {
    EachAt(Hex4, b);
    SameLength(Hexes(a), Hexes(b));
  }

  lemma SameSortedSameElements(a: seq<u16>, b: seq<u16>)
    requires Join(Sort(Hexes(a))) == Join(Sort(Hexes(b)))
    ensures multiset(a) == multiset(b)
  {
    SortedAreFour(a);
    SortedAreFour(b);
    JoinIsInjective(Sort(Hexes(a)), Sort(Hexes(b)));
    SortSorts(Hexes(a));
    SortSorts(Hexes(b));
    SameTextsSameElements(a, b);
  }

  lemma {:induction false} JoinHasNoBar(parts: seq<string>)
    requires forall i, k :: 0 <= i < |parts| && 0 <= k < |parts[i]| ==> parts[i][k] != '_'
    ensures forall k :: 0 <= k < |Join(parts)| ==> Join(parts)[k] != '_'
  {
    if |parts| > 1 {
      JoinHasNoBar(parts[..|parts| - 1]);
    }
  }

  lemma SortedHaveNoBar(vs: seq<u16>)
    ensures forall k :: 0 <= k < |Join(Sort(Hexes(vs)))| ==> Join(Sort(Hexes(vs)))[k] != '_'
  {
    EachAt(Hex4, vs);
    SortSorts(Hexes(vs));
    var sorted := Sort(Hexes(vs));
    forall i, k | 0 <= i < |sorted| && 0 <= k < |sorted[i]|
      ensures sorted[i][k] != '_'
    {
      assert sorted[i] in multiset(Hexes(vs));
      var j :| 0 <= j < |vs| && Hexes(vs)[j] == sorted[i];
      HexHasNoBar(vs[j], k);
    }
    JoinHasNoBar(sorted);
  }

  lemma HexHasNoBar(v: u16, k: nat)
    requires k < 4
    ensures Hex4(v)[k] != '_'
  {
    DigitHasValue(v / 4096);
    DigitHasValue(v / 256 % 16);
    DigitHasValue(v / 16 % 16);
    DigitHasValue(v % 16);
  }

  /** Text before an optional bar, and after it. */
  lemma SplitAtBar(x: string, p: bool, y: string, x': string, p': bool, y': string)
    requires x + (if p then "_" + y else "") == x' + (if p' then "_" + y' else "")
    requires (forall k :: 0 <= k < |x| ==> x[k] != '_') && (forall k :: 0 <= k < |x'| ==> x'[k] != '_')
    ensures x == x' && p == p' && (p ==> y == y')
  {
    var t, t' := x + (if p then "_" + y else ""), x' + (if p' then "_" + y' else "");
    assert p ==> t[|x|] == '_';
    assert p' ==> t'[|x'|] == '_';
    assert t[..|x|] == x && t'[..|x'|] == x';
    assert p && p' ==> t[|x| + 1..] == y && t'[|x'| + 1..] == y';
  }

  lemma SameExtensionText(kinds: seq<u16>, sigs: seq<u16>, kinds': seq<u16>, sigs': seq<u16>)
    requires ExtensionText(Sort(Hexes(kinds)), sigs) == ExtensionText(Sort(Hexes(kinds')), sigs')
    ensures multiset(kinds) == multiset(kinds') && sigs == sigs'
  {
    SortedHaveNoBar(kinds);
    SortedHaveNoBar(kinds');
    SplitAtBar(Join(Sort(Hexes(kinds))), sigs != [], Join(Hexes(sigs)), Join(Sort(Hexes(kinds'))), sigs' != [], Join(Hexes(sigs')));
    SameSortedSameElements(kinds, kinds');
    HexesAreFour(sigs);
    HexesAreFour(sigs');
    if sigs != [] {
      JoinIsInjective(Hexes(sigs), Hexes(sigs'));
      HexesIsInjective(sigs, sigs');
    }
  }

  // ----- the same fingerprint -----

  function CipherText(f: Facts): string {
    Join(Sort(Hexes(f.ciphers)))
  }

  function KindText(f: Facts): string {
    ExtensionText(Sort(Hexes(Hashed(f.kinds))), f.sigAlgs)
  }

  /** The shortened hash tells the two texts apart, and has its full length on them. */
  predicate TellsApart(hash: string -> string, a: string, b: string) {
    |Sha12(hash, a)| == 12 && |Sha12(hash, b)| == 12 && (Sha12(hash, a) == Sha12(hash, b) ==> a == b)
  }

  /** What a fingerprint tells of the facts. */
  ghost predicate SameTold(f: Facts, g: Facts) {
    && Counted(f) == Counted(g)
    && multiset(f.ciphers) == multiset(g.ciphers)
    && multiset(Hashed(f.kinds)) == multiset(Hashed(g.kinds)) && f.sigAlgs == g.sigAlgs
  }

  lemma SplitThree(x: string, a: string, b: string, y: string, c: string, d: string)
    requires |x| == |y| && |a| == |c| && x + "_" + a + "_" + b == y + "_" + c + "_" + d
    ensures x == y && a == c && b == d
  {
    var s, t, n, m := x + "_" + a + "_" + b, y + "_" + c + "_" + d, |x|, |a|;
    assert s[..n] == x && t[..n] == y;
    assert s[n + 1..n + 1 + m] == a && t[n + 1..n + 1 + m] == c;
    assert s[n + m + 2..] == b && t[n + m + 2..] == d;
  }

  lemma SplitFingerprint(hash: string -> string, f: Facts, g: Facts)
    requires TellsApart(hash, CipherText(f), CipherText(g)) && TellsApart(hash, KindText(f), KindText(g))
    requires Fingerprint(hash, f) == Fingerprint(hash, g)
    ensures Counted(f) == Counted(g) && CipherText(f) == CipherText(g) && KindText(f) == KindText(g)
  {
    FirstTen(hash, f);
    FirstTen(hash, g);
    SplitHashes(hash, Counted(f), CipherText(f), KindText(f), Counted(g), CipherText(g), KindText(g));
  }

  lemma SplitHashes(hash: string -> string, x: string, a: string, b: string, y: string, c: string, d: string)
    requires |x| == |y| && TellsApart(hash, a, c) && TellsApart(hash, b, d)
    requires x + "_" + Sha12(hash, a) + "_" + Sha12(hash, b) == y + "_" + Sha12(hash, c) + "_" + Sha12(hash, d)
    ensures x == y && a == c && b == d
  {
    hide Sha12;
    SplitThree(x, Sha12(hash, a), Sha12(hash, b), y, Sha12(hash, c), Sha12(hash, d));
  }

  /**
   Exactly which hellos share a fingerprint, but for collisions of the hash: those with the same first ten characters, the
   same ciphers in any order, the same extensions other than server name and protocol names in any order, and the same
   signature algorithms in the same order.
   */
  lemma SameFingerprintExactly(hash: string -> string, f: Facts, g: Facts)
    requires TellsApart(hash, CipherText(f), CipherText(g)) && TellsApart(hash, KindText(f), KindText(g))
    ensures Fingerprint(hash, f) == Fingerprint(hash, g) <==> SameTold(f, g)
  {
    if Fingerprint(hash, f) == Fingerprint(hash, g) {
      SplitFingerprint(hash, f, g);
      SameSortedSameElements(f.ciphers, g.ciphers);
      SameExtensionText(Hashed(f.kinds), f.sigAlgs, Hashed(g.kinds), g.sigAlgs);
    }
    if SameTold(f, g) {
      EachKeepsElements(Hex4, f.ciphers, g.ciphers);
      EachKeepsElements(Hex4, Hashed(f.kinds), Hashed(g.kinds));
      SortIsCanonical(Hexes(f.ciphers), Hexes(g.ciphers));
      SortIsCanonical(Hexes(Hashed(f.kinds)), Hexes(Hashed(g.kinds)));
    }
  }
}
