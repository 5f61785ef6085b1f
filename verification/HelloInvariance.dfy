/**
 Permuting ciphers or extensions, and inserting or removing GREASE ciphers, extensions or supported versions,
 changes nothing that the parser returns.
 */
module HelloInvariance {
  import opened Basics
  import opened ClientHello
  import opened HelloMeaning
  import opened Ja4

  // ----- hellos that differ in order and GREASE only -----

  /** An extension without the GREASE versions in it. */
  function Strip(e: Extension): Extension {
    if e.Supported? then Supported(NonGrease(e.versions)) else e
  }

  /** The extensions that are not GREASE, stripped. */
  function Essence(es: seq<Extension>): seq<Extension> {
    if es == [] then []
    else
      var e := es[|es| - 1];
      Essence(es[..|es| - 1]) + (if IsGrease(KindOf(e)) then [] else [Strip(e)])
  }

  ghost predicate Alike(h: Hello, g: Hello) {
    && h.legacy == g.legacy
    && multiset(NonGrease(h.ciphers)) == multiset(NonGrease(g.ciphers))
    && multiset(Essence(h.exts)) == multiset(Essence(g.exts))
  }

  lemma {:induction false} EssenceHas(es: seq<Extension>, i: nat)
    requires i < |es| && !IsGrease(KindOf(es[i]))
    ensures Strip(es[i]) in Essence(es)
    decreases |es|
  {
    if i < |es| - 1 {
      EssenceHas(es[..|es| - 1], i);
    }
  }

  lemma {:induction false} EssenceFrom(es: seq<Extension>, x: Extension) returns (i: nat)
    requires x in Essence(es)
    ensures i < |es| && !IsGrease(KindOf(es[i])) && Strip(es[i]) == x
    decreases |es|
  {
    if x in Essence(es[..|es| - 1]) {
      i := EssenceFrom(es[..|es| - 1], x);
    } else {
      i := |es| - 1;
    }
  }

  /** What one of two alike hellos carries the other carries too. */
  lemma Counterpart(h: Hello, g: Hello, i: nat) returns (j: nat)
    requires Alike(h, g) && i < |h.exts| && !IsGrease(KindOf(h.exts[i]))
    ensures j < |g.exts| && Strip(g.exts[j]) == Strip(h.exts[i])
  {
    EssenceHas(h.exts, i);
    assert Strip(h.exts[i]) in multiset(Essence(g.exts));
    j := EssenceFrom(g.exts, Strip(h.exts[i]));
  }

  lemma {:induction false} BestIgnoresGrease(vs: seq<u16>)
    ensures Best(NonGrease(vs)) == Best(vs)
    decreases |vs|
  {
    if vs != [] {
      var rest, v := vs[..|vs| - 1], vs[|vs| - 1];
      BestIgnoresGrease(rest);
      if IsGrease(v) {
        assert NonGrease(vs) == NonGrease(rest);
      } else {
        var kept := NonGrease(vs);
        assert kept == NonGrease(rest) + [v] && kept[..|kept| - 1] == NonGrease(rest) && kept[|kept| - 1] == v;
      }
    }
  }

  // ----- the facts -----

  /** What two extensions that differ in GREASE only say of two hellos is the same. */
  lemma SameSaying(legacy: u16, f: Facts, f': Facts, e: Extension, e': Extension)
    requires Strip(e) == Strip(e') && Says(legacy, f, e) && Says(legacy, f', e')
    ensures e.Names? ==> f.sni == f'.sni
    ensures e.Protocols? ==> f.alpn == f'.alpn
    ensures e.Signatures? ==> f.sigAlgs == f'.sigAlgs
    ensures e.Supported? ==> f.version == f'.version
  {
    if e.Supported? {
      BestIgnoresGrease(e.versions);
      BestIgnoresGrease(e'.versions);
    }
  }

  /** Each extension of one hello tells the same of both. */
  lemma SaidOfBoth(h: Hello, g: Hello, f: Facts, f': Facts, i: nat)
    requires Alike(h, g) && Means(h, f) && Means(g, f') && i < |h.exts|
    ensures h.exts[i].Names? ==> f.sni == f'.sni
    ensures h.exts[i].Protocols? ==> f.alpn == f'.alpn
    ensures h.exts[i].Signatures? ==> f.sigAlgs == f'.sigAlgs
    ensures h.exts[i].Supported? ==> f.version == f'.version
  {
    if !h.exts[i].Other? {
      var j := Counterpart(h, g, i);
      assert SaysAt(h, f, i) && SaysAt(g, f', j);
      SameSaying(h.legacy, f, f', h.exts[i], g.exts[j]);
    }
  }

  lemma KindIsKept(h: Hello, g: Hello, kind: u16)
    requires Alike(h, g) && !IsGrease(kind) && Has(h.exts, kind)
    ensures Has(g.exts, kind)
  {
    var i :| 0 <= i < |h.exts| && KindOf(h.exts[i]) == kind;
    var j := Counterpart(h, g, i);
    assert KindOf(g.exts[j]) == kind;
  }

  lemma AlikeIsSymmetric(h: Hello, g: Hello)
    requires Alike(h, g)
    ensures Alike(g, h)
  {
  }

  /** An extension of a special kind is the typed one, since others may not use the kind. */
  lemma SpecialKind(h: Hello, kind: u16) returns (i: nat)
    requires Fits(h) && Has(h.exts, kind) && kind in {SNI, ALPN, SIG_ALGS, VERSIONS}
    ensures i < |h.exts| && KindOf(h.exts[i]) == kind && !h.exts[i].Other?
    ensures kind == SNI ==> h.exts[i].Names?
    ensures kind == ALPN ==> h.exts[i].Protocols?
    ensures kind == SIG_ALGS ==> h.exts[i].Signatures?
    ensures kind == VERSIONS ==> h.exts[i].Supported?
  {
    i :| 0 <= i < |h.exts| && KindOf(h.exts[i]) == kind;
    assert FitsExt(h.exts[i]);
  }

  /** What the two hellos say in the extension of a kind is the same. */
  predicate SameOf(kind: u16, f: Facts, f': Facts) {
    && (kind == SNI ==> f.sni == f'.sni)
    && (kind == ALPN ==> f.alpn == f'.alpn)
    && (kind == SIG_ALGS ==> f.sigAlgs == f'.sigAlgs)
    && (kind == VERSIONS ==> f.version == f'.version)
  }

  lemma SilentOfBoth(h: Hello, g: Hello, f: Facts, f': Facts, kind: u16)
    requires h.legacy == g.legacy && Means(h, f) && Means(g, f') && !Has(h.exts, kind) && !Has(g.exts, kind)
    ensures SameOf(kind, f, f')
  {
  }

  lemma PresentInBoth(h: Hello, g: Hello, f: Facts, f': Facts, kind: u16)
    requires Fits(h) && Alike(h, g) && Means(h, f) && Means(g, f') && kind in {SNI, ALPN, SIG_ALGS, VERSIONS} && Has(h.exts, kind)
    ensures SameOf(kind, f, f')
  {
    var i := SpecialKind(h, kind);
    SaidOfBoth(h, g, f, f', i);
  }

  lemma KindsAgree(h: Hello, g: Hello, kind: u16)
    requires Alike(h, g) && !IsGrease(kind)
    ensures Has(h.exts, kind) <==> Has(g.exts, kind)
  {
    AlikeIsSymmetric(h, g);
    if Has(h.exts, kind) {
      KindIsKept(h, g, kind);
    } else if Has(g.exts, kind) {
      KindIsKept(g, h, kind);
    }
  }

  lemma KindSaysTheSame(h: Hello, g: Hello, f: Facts, f': Facts, kind: u16)
    requires Fits(h) && Alike(h, g) && Means(h, f) && Means(g, f') && kind in {SNI, ALPN, SIG_ALGS, VERSIONS}
    ensures SameOf(kind, f, f')
  {
    hide Fits, Means, SameOf;
    KindsAgree(h, g, kind);
    if Has(h.exts, kind) {
      PresentInBoth(h, g, f, f', kind);
    } else {
      SilentOfBoth(h, g, f, f', kind);
    }
  }

  // ----- the lists -----

  lemma {:induction false} EssenceKinds(es: seq<Extension>)
    ensures NonGrease(KindsOf(es)) == Each(KindOf, Essence(es))
    decreases |es|
  {
    if es != [] {
      var rest, e := es[..|es| - 1], es[|es| - 1];
      EssenceKinds(rest);
      assert KindsOf(es)[..|KindsOf(es)| - 1] == KindsOf(rest);
      if IsGrease(KindOf(e)) {
        assert Essence(es) == Essence(rest);
      } else {
        assert Essence(es)[..|Essence(es)| - 1] == Essence(rest);
      }
    }
  }

  lemma AlikeKinds(h: Hello, g: Hello)
    requires Alike(h, g)
    ensures multiset(NonGrease(KindsOf(h.exts))) == multiset(NonGrease(KindsOf(g.exts)))
  {
    EssenceKinds(h.exts);
    EssenceKinds(g.exts);
    EachKeepsElements(KindOf, Essence(h.exts), Essence(g.exts));
  }

  lemma {:induction false} HashedKeepsElements(a: seq<u16>, v: u16)
    ensures multiset(Hashed(a))[v] == if v == SNI || v == ALPN then 0 else multiset(a)[v]
    decreases |a|
  {
    if a != [] {
      HashedKeepsElements(a[..|a| - 1], v);
      assert a == a[..|a| - 1] + [a[|a| - 1]];
    }
  }

  lemma SameHashed(a: seq<u16>, b: seq<u16>)
    requires multiset(a) == multiset(b)
    ensures multiset(Hashed(a)) == multiset(Hashed(b))
  {
    forall v: u16
      ensures multiset(Hashed(a))[v] == multiset(Hashed(b))[v]
    {
      HashedKeepsElements(a, v);
      HashedKeepsElements(b, v);
    }
  }

  /** Facts that differ in the order of their lists only. */
  ghost predicate SameFacts(f: Facts, f': Facts) {
    && SameOf(SNI, f, f') && SameOf(ALPN, f, f') && SameOf(SIG_ALGS, f, f') && SameOf(VERSIONS, f, f')
    && multiset(f.ciphers) == multiset(f'.ciphers) && multiset(f.kinds) == multiset(f'.kinds)
  }

  lemma SortedHexIsCanonical(a: seq<u16>, b: seq<u16>)
    requires multiset(a) == multiset(b)
    ensures Sort(Hexes(a)) == Sort(Hexes(b))
  {
    EachKeepsElements(Hex4, a, b);
    SortIsCanonical(Hexes(a), Hexes(b));
  }

  lemma SameCounted(f: Facts, f': Facts)
    requires SameFacts(f, f')
    ensures Counted(f) == Counted(f')
  {
    SameLength(f.ciphers, f'.ciphers);
    SameLength(f.kinds, f'.kinds);
  }

  lemma SameFingerprint(hash: string -> string, f: Facts, f': Facts)
    requires SameFacts(f, f')
    ensures Fingerprint(hash, f) == Fingerprint(hash, f')
  {
    SameCounted(f, f');
    SortedHexIsCanonical(f.ciphers, f'.ciphers);
    SameHashed(f.kinds, f'.kinds);
    SortedHexIsCanonical(Hashed(f.kinds), Hashed(f'.kinds));
  }

  lemma MeaningsAgree(h: Hello, g: Hello, f: Facts, f': Facts)
    requires Fits(h) && Alike(h, g) && Means(h, f) && Means(g, f')
    ensures SameFacts(f, f')
  {
    KindSaysTheSame(h, g, f, f', SNI);
    KindSaysTheSame(h, g, f, f', ALPN);
    KindSaysTheSame(h, g, f, f', SIG_ALGS);
    KindSaysTheSame(h, g, f, f', VERSIONS);
    AlikeKinds(h, g);
  }

  // ----- the parser -----

  /** A record of a hello, with whatever version and lengths its header claims. */
  ghost predicate IsRecordOf(record: seq<byte>, h: Hello) {
    exists v: seq<byte>, l: seq<byte>, n: seq<byte> :: |v| == 2 && |l| == 2 && |n| == 3 && Fits(h) && record == Serialize(h, v, l, n)
  }

  /** Parsing a serialized hello returns its server name, its first protocol and its version. */
  lemma ParsedInfo(hash: string -> string, h: Hello, record: seq<byte>)
    requires WellFormed(h) && IsRecordOf(record, h)
    ensures Read(record) == Some(FactsIn(h)) && Means(h, FactsIn(h))
    ensures Parse(hash, record) == Some(Info(FactsIn(h).sni, FactsIn(h).alpn, VersionString(FactsIn(h).version), Fingerprint(hash, FactsIn(h))))
  {
    var v: seq<byte>, l: seq<byte>, n: seq<byte> :| |v| == 2 && |l| == 2 && |n| == 3 && record == Serialize(h, v, l, n);
    ParsingReturnsTheMeaning(h, v, l, n);
  }

  /** The order of ciphers and extensions and any GREASE among ciphers, extensions and versions leave the result unchanged, fingerprint included. */
  lemma OrderAndGreaseDoNotMatter(hash: string -> string, h: Hello, g: Hello, record: seq<byte>, other: seq<byte>)
    requires WellFormed(h) && WellFormed(g) && Alike(h, g) && IsRecordOf(record, h) && IsRecordOf(other, g)
    ensures Parse(hash, record).Some? && Parse(hash, record) == Parse(hash, other)
  {
    ParsedInfo(hash, h, record);
    ParsedInfo(hash, g, other);
    MeaningsAgree(h, g, FactsIn(h), FactsIn(g));
    SameFingerprint(hash, FactsIn(h), FactsIn(g));
  }

  // ----- what makes hellos alike -----

  lemma {:induction false} NonGreaseKeepsElements(vs: seq<u16>, v: u16)
    ensures multiset(NonGrease(vs))[v] == if IsGrease(v) then 0 else multiset(vs)[v]
    decreases |vs|
  {
    if vs != [] {
      NonGreaseKeepsElements(vs[..|vs| - 1], v);
      assert vs == vs[..|vs| - 1] + [vs[|vs| - 1]];
    }
  }

  /** The extensions that are not GREASE. */
  function Real(es: seq<Extension>): seq<Extension> {
    if es == [] then [] else Real(es[..|es| - 1]) + (if IsGrease(KindOf(es[|es| - 1])) then [] else [es[|es| - 1]])
  }

  lemma {:induction false} RealKeepsElements(es: seq<Extension>, e: Extension)
    ensures multiset(Real(es))[e] == if IsGrease(KindOf(e)) then 0 else multiset(es)[e]
    decreases |es|
  {
    if es != [] {
      RealKeepsElements(es[..|es| - 1], e);
      assert es == es[..|es| - 1] + [es[|es| - 1]];
    }
  }

  lemma {:induction false} EssenceIsStripped(es: seq<Extension>)
    ensures Essence(es) == Each(Strip, Real(es))
    decreases |es|
  {
    if es != [] {
      EssenceIsStripped(es[..|es| - 1]);
      if IsGrease(KindOf(es[|es| - 1])) {
        assert Real(es) == Real(es[..|es| - 1]);
      } else {
        assert Real(es)[..|Real(es)| - 1] == Real(es[..|es| - 1]);
      }
    }
  }

  /** Permuting the ciphers and the extensions. */
  lemma PermutedIsAlike(h: Hello, g: Hello)
    requires h.legacy == g.legacy && multiset(h.ciphers) == multiset(g.ciphers) && multiset(h.exts) == multiset(g.exts)
    ensures Alike(h, g)
  {
    forall v: u16
      ensures multiset(NonGrease(h.ciphers))[v] == multiset(NonGrease(g.ciphers))[v]
    {
      NonGreaseKeepsElements(h.ciphers, v);
      NonGreaseKeepsElements(g.ciphers, v);
    }
    forall e
      ensures multiset(Real(h.exts))[e] == multiset(Real(g.exts))[e]
    {
      RealKeepsElements(h.exts, e);
      RealKeepsElements(g.exts, e);
    }
    EssenceIsStripped(h.exts);
    EssenceIsStripped(g.exts);
    assert multiset(Real(h.exts)) == multiset(Real(g.exts));
    EachKeepsElements(Strip, Real(h.exts), Real(g.exts));
  }

  lemma {:induction false} NonGreaseConcat(a: seq<u16>, b: seq<u16>)
    ensures NonGrease(a + b) == NonGrease(a) + NonGrease(b)
    decreases |b|
  {
    if b == [] {
      assert a + b == a;
    } else {
      NonGreaseConcat(a, b[..|b| - 1]);
      assert (a + b)[..|a + b| - 1] == a + b[..|b| - 1];
    }
  }

  lemma {:induction false} EssenceConcat(a: seq<Extension>, b: seq<Extension>)
    ensures Essence(a + b) == Essence(a) + Essence(b)
    decreases |b|
  {
    if b == [] {
      assert a + b == a;
    } else {
      EssenceConcat(a, b[..|b| - 1]);
      assert (a + b)[..|a + b| - 1] == a + b[..|b| - 1];
    }
  }

  lemma OneGreaseWord(a: seq<u16>, v: u16, b: seq<u16>)
    requires IsGrease(v)
    ensures NonGrease(a + [v] + b) == NonGrease(a + b)
  {
    NonGreaseConcat(a + [v], b);
    NonGreaseConcat(a, [v]);
    NonGreaseConcat(a, b);
    assert [v][..0] == [];
    assert NonGrease([v]) == [];
  }

  lemma OneMoreExtension(a: seq<Extension>, e: Extension, b: seq<Extension>)
    ensures Essence(a + [e] + b) == Essence(a) + (if IsGrease(KindOf(e)) then [] else [Strip(e)]) + Essence(b)
  {
    EssenceConcat(a + [e], b);
    EssenceConcat(a, [e]);
    assert [e][..0] == [];
  }

  /** Inserting a GREASE cipher anywhere. */
  lemma GreaseCipherIsAlike(h: Hello, i: nat, v: u16)
    requires i <= |h.ciphers| && IsGrease(v)
    ensures Alike(h, h.(ciphers := h.ciphers[..i] + [v] + h.ciphers[i..]))
  {
    OneGreaseWord(h.ciphers[..i], v, h.ciphers[i..]);
    assert h.ciphers[..i] + h.ciphers[i..] == h.ciphers;
  }

  /** Inserting a GREASE extension anywhere. */
  lemma GreaseExtensionIsAlike(h: Hello, i: nat, e: Extension)
    requires i <= |h.exts| && IsGrease(KindOf(e))
    ensures Alike(h, h.(exts := h.exts[..i] + [e] + h.exts[i..]))
  {
    OneMoreExtension(h.exts[..i], e, h.exts[i..]);
    EssenceConcat(h.exts[..i], h.exts[i..]);
    assert h.exts[..i] + h.exts[i..] == h.exts;
  }

  lemma SameEssence(a: seq<Extension>, x: Extension, e: Extension, b: seq<Extension>)
    requires KindOf(e) == KindOf(x) && Strip(e) == Strip(x)
    ensures Essence(a + [e] + b) == Essence(a + [x] + b)
  {
    OneMoreExtension(a, e, b);
    OneMoreExtension(a, x, b);
  }

  /** Inserting a GREASE version anywhere in the supported versions. */
  lemma GreaseVersionIsAlike(h: Hello, i: nat, k: nat, v: u16)
    requires i < |h.exts| && h.exts[i].Supported? && k <= |h.exts[i].versions| && IsGrease(v)
    ensures var vs := h.exts[i].versions; Alike(h, h.(exts := h.exts[..i] + [Supported(vs[..k] + [v] + vs[k..])] + h.exts[i + 1..]))
  {
    var vs := h.exts[i].versions;
    OneGreaseWord(vs[..k], v, vs[k..]);
    assert vs[..k] + vs[k..] == vs;
    SameEssence(h.exts[..i], h.exts[i], Supported(vs[..k] + [v] + vs[k..]), h.exts[i + 1..]);
    assert h.exts[..i] + [h.exts[i]] + h.exts[i + 1..] == h.exts;
  }
}
