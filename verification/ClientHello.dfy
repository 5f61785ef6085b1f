/**
 The ClientHello parser of the public edge (internal/edge/clienthello.go): straight-line checks as functions,
 the walks over ciphers, extensions, names and versions as loops proved against recursive definitions.
 */
module ClientHello {
  import opened Basics

  type byte = x: int | 0 <= x < 256

  type u16 = x: int | 0 <= x < 65536

  const SNI: u16 := 0x0000
  const ALPN: u16 := 0x0010
  const SIG_ALGS: u16 := 0x000d
  const VERSIONS: u16 := 0x002b

  function Word(hi: byte, lo: byte): u16 {
    hi * 256 + lo
  }

  /** A GREASE value of RFC 8701: both bytes the same, ending in the digit a. */
  predicate IsGrease(v: u16) {
    (v / 256) % 16 == 10 && (v % 256) % 16 == 10 && v / 256 == v % 256
  }

  /** The source's test on the bits of the value picks the same sixteen values. */
  lemma GreaseBits(v: bv16)
    ensures ((v & 0x0f0f) == 0x0a0a && (v >> 8) == (v & 0xff)) <==>
            v in {0x0a0a, 0x1a1a, 0x2a2a, 0x3a3a, 0x4a4a, 0x5a5a, 0x6a6a, 0x7a7a, 0x8a8a, 0x9a9a, 0xaaaa, 0xbaba, 0xcaca, 0xdada, 0xeaea, 0xfafa}
  {
  }

  lemma GreaseValues(v: u16)
    ensures IsGrease(v) <==> v in {0x0a0a, 0x1a1a, 0x2a2a, 0x3a3a, 0x4a4a, 0x5a5a, 0x6a6a, 0x7a7a, 0x8a8a, 0x9a9a, 0xaaaa, 0xbaba, 0xcaca, 0xdada, 0xeaea, 0xfafa}
  {
    var h := v / 256;
    assert v == h * 256 + v % 256;
    assert IsGrease(v) ==> v == 257 * h && h == 16 * (h / 16) + 10;
  }

  // ----- the fixed part -----

  /** What the fixed part leaves to walk over: the cipher suites and the extensions, each as bytes. */
  datatype Raw = Raw(legacy: u16, ciphers: seq<byte>, exts: seq<byte>)

  /** Bytes that begin with a length of one byte: what the length covers, and the rest. */
  function Short(b: seq<byte>): Option<(seq<byte>, seq<byte>)> {
    if |b| < 1 || |b| - 1 < b[0] then None else Some((b[1..1 + b[0]], b[1 + b[0]..]))
  }

  /** Bytes that begin with a length of two bytes. */
  function Long(b: seq<byte>): Option<(seq<byte>, seq<byte>)> {
    if |b| < 2 || |b| - 2 < Word(b[0], b[1]) then None
    else Some((b[2..2 + Word(b[0], b[1])], b[2 + Word(b[0], b[1])..]))
  }

  /** Everything up to the compression methods; an absent extension block is an empty one. */
  function Sections(record: seq<byte>): Option<Raw> {
    if |record| < 5 || record[0] != 0x16 then None
    else
      var hs := record[5..];
      if |hs| < 4 || hs[0] != 0x01 then None
      else
        var b := hs[4..];
        if |b| < 34 then None
        else
          var session := Short(b[34..]);
          if session.None? then None
          else
            var ciphers := Long(session.value.1);
            if ciphers.None? || |ciphers.value.0| % 2 != 0 then None
            else
              var compression := Short(ciphers.value.1);
              if compression.None? then None
              else Extensions(Word(b[0], b[1]), ciphers.value.0, compression.value.1)
  }

  function Extensions(legacy: u16, ciphers: seq<byte>, b: seq<byte>): Option<Raw> {
    if |b| < 2 then Some(Raw(legacy, ciphers, []))
    else if Long(b).None? then None
    else Some(Raw(legacy, ciphers, Long(b).value.0))
  }

  // ----- walks -----

  /** The 16-bit values in a run of bytes; an odd byte at the end is ignored. */
  function Words(b: seq<byte>): seq<u16> {
    if |b| < 2 then [] else [Word(b[0], b[1])] + Words(b[2..])
  }

  function NonGrease(vs: seq<u16>): seq<u16> {
    if vs == [] then [] else NonGrease(vs[..|vs| - 1]) + (if IsGrease(vs[|vs| - 1]) then [] else [vs[|vs| - 1]])
  }

  datatype Ext = Ext(kind: u16, data: seq<byte>)

  /** The extensions in a run of bytes, up to the first that is cut short. */
  function Exts(b: seq<byte>): seq<Ext>
    decreases |b|
  {
    if |b| < 4 || |b| - 4 < Word(b[2], b[3]) then []
    else [Ext(Word(b[0], b[1]), b[4..4 + Word(b[2], b[3])])] + Exts(b[4 + Word(b[2], b[3])..])
  }

  /** The data of the last extension of a kind. */
  function DataOf(es: seq<Ext>, kind: u16): Option<seq<byte>> {
    if es == [] then None
    else if es[|es| - 1].kind == kind then Some(es[|es| - 1].data)
    else DataOf(es[..|es| - 1], kind)
  }

  function Kinds(es: seq<Ext>): seq<u16> {
    if es == [] then [] else Kinds(es[..|es| - 1]) + [es[|es| - 1].kind]
  }

  /** The first complete host name in the entries of a server name list. */
  function HostIn(list: seq<byte>): seq<byte>
    decreases |list|
  {
    if |list| < 3 || |list| < 3 + Word(list[1], list[2]) then []
    else if list[0] == 0 then list[3..3 + Word(list[1], list[2])]
    else HostIn(list[3 + Word(list[1], list[2])..])
  }

  function ServerName(data: seq<byte>): seq<byte> {
    if |data| < 2 then [] else HostIn(data[2..])
  }

  function FirstProtocol(data: seq<byte>): seq<byte> {
    if |data| < 3 || Short(data[2..]).None? then [] else Short(data[2..]).value.0
  }

  function WordList(data: seq<byte>): seq<u16> {
    if Long(data).None? then [] else Words(Long(data).value.0)
  }

  /** The largest value that is not GREASE, 0 when there is none. */
  function Best(vs: seq<u16>): u16 {
    if vs == [] then 0
    else
      var m, v := Best(vs[..|vs| - 1]), vs[|vs| - 1];
      if IsGrease(v) || v <= m then m else v
  }

  function BestVersion(data: seq<byte>): u16 {
    if Short(data).None? then 0 else Best(Words(Short(data).value.0))
  }

  function PickVersion(legacy: u16, supported: u16): u16 {
    if supported != 0 then supported else legacy
  }

  /** What the parser reads off a hello, before it is put into words. */
  datatype Facts = Facts(sni: seq<byte>, alpn: seq<byte>, version: u16, ciphers: seq<u16>, kinds: seq<u16>, sigAlgs: seq<u16>)

  function Of<T>(data: Option<seq<byte>>, f: seq<byte> -> T, missing: T): T {
    if data.None? then missing else f(data.value)
  }

  function FactsOf(raw: Raw): Facts {
    var es := Exts(raw.exts);
    Facts(Of(DataOf(es, SNI), ServerName, []), Of(DataOf(es, ALPN), FirstProtocol, []),
          PickVersion(raw.legacy, Of(DataOf(es, VERSIONS), BestVersion, 0)),
          NonGrease(Words(raw.ciphers)), NonGrease(Kinds(es)), Of(DataOf(es, SIG_ALGS), WordList, []))
  }

  /** parseClientHello up to the fingerprint: None is the error. */
  function Read(record: seq<byte>): Option<Facts> {
    if Sections(record).None? then None else Some(FactsOf(Sections(record).value))
  }

  // ----- the loops -----

  lemma WordsAt(b: seq<byte>, i: nat)
    requires i % 2 == 0 && i + 1 < |b|
    ensures Words(b[..i + 2]) == Words(b[..i]) + [Word(b[i], b[i + 1])]
    decreases i
  {
    if i == 0 {
      assert b[..2][2..] == [];
    } else {
      WordsAt(b[2..], i - 2);
      assert b[..i + 2][2..] == b[2..][..i] && b[..i][2..] == b[2..][..i - 2];
    }
  }

  lemma OddByteIsIgnored(b: seq<byte>, i: nat)
    requires i % 2 == 0 && i <= |b| <= i + 1
    ensures Words(b[..i]) == Words(b)
    decreases i
  {
    if i > 0 {
      OddByteIsIgnored(b[2..], i - 2);
      assert b[..i][2..] == b[2..][..i - 2];
    }
  }

  method WordsOf(b: seq<byte>) returns (vs: seq<u16>)
    ensures vs == Words(b)
  {
    vs := [];
    var i := 0;
    while i + 1 < |b|
      invariant i % 2 == 0 && i <= |b| && vs == Words(b[..i])
    {
      WordsAt(b, i);
      vs := vs + [Word(b[i], b[i + 1])];
      i := i + 2;
    }
    OddByteIsIgnored(b, i);
  }

  method CiphersOf(b: seq<byte>) returns (ciphers: seq<u16>)
    ensures ciphers == NonGrease(Words(b))
  {
    ciphers := [];
    var i := 0;
    while i + 1 < |b|
      invariant i % 2 == 0 && i <= |b| && ciphers == NonGrease(Words(b[..i]))
    {
      WordsAt(b, i);
      assert Words(b[..i + 2])[..|Words(b[..i + 2])| - 1] == Words(b[..i]);
      var v := Word(b[i], b[i + 1]);
      if !IsGrease(v) {
        ciphers := ciphers + [v];
      }
      i := i + 2;
    }
    OddByteIsIgnored(b, i);
  }

  method BestOf(data: seq<byte>) returns (best: u16)
    ensures best == BestVersion(data)
  {
    if |data| < 1 || |data| - 1 < data[0] {
      return 0;
    }
    var body := data[1..1 + data[0]];
    best := 0;
    var i := 0;
    while i + 1 < |body|
      invariant i % 2 == 0 && i <= |body| && best == Best(Words(body[..i]))
    {
      WordsAt(body, i);
      assert Words(body[..i + 2])[..|Words(body[..i + 2])| - 1] == Words(body[..i]);
      var v := Word(body[i], body[i + 1]);
      if !IsGrease(v) && v > best {
        best := v;
      }
      i := i + 2;
    }
    OddByteIsIgnored(body, i);
  }

  method HostOf(data: seq<byte>) returns (name: seq<byte>)
    ensures name == ServerName(data)
  {
    if |data| < 2 {
      return [];
    }
    var list := data[2..];
    while |list| >= 3
      invariant HostIn(list) == HostIn(data[2..])
      decreases |list|
    {
      var n: int := Word(list[1], list[2]);
      if list[0] == 0 && |list| >= 3 + n {
        return list[3..3 + n];
      }
      if |list| < 3 + n {
        return [];
      }
      list := list[3 + n..];
    }
    return [];
  }

  /** What the walk over the extensions gathers. */
  datatype Gathered = Gathered(sni: Option<seq<byte>>, alpn: Option<seq<byte>>, versions: Option<seq<byte>>, sigAlgs: Option<seq<byte>>, kinds: seq<u16>)

  function Gather(es: seq<Ext>): Gathered {
    Gathered(DataOf(es, SNI), DataOf(es, ALPN), DataOf(es, VERSIONS), DataOf(es, SIG_ALGS), NonGrease(Kinds(es)))
  }

  lemma GatherOne(es: seq<Ext>, e: Ext)
    ensures var g, g' := Gather(es), Gather(es + [e]);
            && g'.sni == (if e.kind == SNI then Some(e.data) else g.sni) && g'.alpn == (if e.kind == ALPN then Some(e.data) else g.alpn)
            && g'.versions == (if e.kind == VERSIONS then Some(e.data) else g.versions) && g'.sigAlgs == (if e.kind == SIG_ALGS then Some(e.data) else g.sigAlgs)
            && g'.kinds == g.kinds + (if IsGrease(e.kind) then [] else [e.kind])
  {
    assert (es + [e])[..|es|] == es;
    assert (Kinds(es) + [e.kind])[..|Kinds(es)|] == Kinds(es);
  }

  /** The walk over the extensions: later data of a kind replaces earlier, GREASE kinds are not listed. */
  method GatherExts(b: seq<byte>) returns (g: Gathered)
    ensures g == Gather(Exts(b))
  {
    g := Gathered(None, None, None, None, []);
    var ext := b;
    ghost var es: seq<Ext> := [];
    while |ext| >= 4
      invariant g == Gather(es) && Exts(b) == es + Exts(ext)
      decreases |ext|
    {
      var kind: u16, n: int := Word(ext[0], ext[1]), Word(ext[2], ext[3]);
      if |ext| - 4 < n {
        assert es + [] == es;
        return;
      }
      var data := ext[4..4 + n];
      GatherOne(es, Ext(kind, data));
      assert es + Exts(ext) == (es + [Ext(kind, data)]) + Exts(ext[4 + n..]);
      es := es + [Ext(kind, data)];
      if !IsGrease(kind) {
        g := g.(kinds := g.kinds + [kind]);
      }
      if kind == SNI {
        g := g.(sni := Some(data));
      } else if kind == ALPN {
        g := g.(alpn := Some(data));
      } else if kind == SIG_ALGS {
        g := g.(sigAlgs := Some(data));
      } else if kind == VERSIONS {
        g := g.(versions := Some(data));
      }
      ext := ext[4 + n..];
    }
    assert es + [] == es;
  }

  /** parseClientHello up to the fingerprint. */
  method ReadHello(record: seq<byte>) returns (r: Option<Facts>)
    ensures r == Read(record)
  {
    var s := Sections(record);
    if s.None? {
      return None;
    }
    var raw := s.value;
    var ciphers := CiphersOf(raw.ciphers);
    var g := GatherExts(raw.exts);
    var sni: seq<byte>, best: u16, sigAlgs: seq<u16> := [], 0, [];
    if g.sni.Some? {
      sni := HostOf(g.sni.value);
    }
    if g.versions.Some? {
      best := BestOf(g.versions.value);
    }
    if g.sigAlgs.Some? && Long(g.sigAlgs.value).Some? {
      sigAlgs := WordsOf(Long(g.sigAlgs.value).value.0);
    }
    var alpn := if g.alpn.Some? then FirstProtocol(g.alpn.value) else [];
    r := Some(Facts(sni, alpn, PickVersion(raw.legacy, best), ciphers, g.kinds, sigAlgs));
  }
}
