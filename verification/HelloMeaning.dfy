/**
 What a well-formed ClientHello means, and that the parser reads exactly that off its serialization: sections
 4.1.2 and 4.2 of RFC 8446, section 3 of RFC 6066 (server name), section 3.1 of RFC 7301 (protocol names),
 section 2 of RFC 8701 (GREASE).
 */
module HelloMeaning {
  import opened Basics
  import opened ClientHello

  datatype Entry = Entry(nameType: byte, name: seq<byte>)

  datatype Extension =
    | Names(entries: seq<Entry>)
    | Protocols(names: seq<seq<byte>>)
    | Signatures(algs: seq<u16>)
    | Supported(versions: seq<u16>)
    | Other(otherKind: u16, data: seq<byte>)

  datatype Hello = Hello(legacy: u16, random: seq<byte>, session: seq<byte>, ciphers: seq<u16>, compression: seq<byte>, exts: seq<Extension>)

  // ----- serialization -----

  function Bytes2(v: u16): seq<byte> {
    [v / 256, v % 256]
  }

  function WithShort(b: seq<byte>): seq<byte>
    requires |b| < 256
  {
    [|b|] + b
  }

  function WithLong(b: seq<byte>): seq<byte>
    requires |b| < 65536
  {
    Bytes2(|b|) + b
  }

  function WordBytes(vs: seq<u16>): (b: seq<byte>)
    ensures |b| == 2 * |vs|
  {
    if vs == [] then [] else Bytes2(vs[0]) + WordBytes(vs[1..])
  }

  function EntryBytes(es: seq<Entry>): seq<byte>
    requires forall i :: 0 <= i < |es| ==> |es[i].name| < 65536
  {
    if es == [] then [] else [es[0].nameType] + WithLong(es[0].name) + EntryBytes(es[1..])
  }

  function ProtocolBytes(names: seq<seq<byte>>): seq<byte>
    requires forall i :: 0 <= i < |names| ==> |names[i]| < 256
  {
    if names == [] then [] else WithShort(names[0]) + ProtocolBytes(names[1..])
  }

  function KindOf(e: Extension): u16 {
    match e
    case Names(_) => SNI
    case Protocols(_) => ALPN
    case Signatures(_) => SIG_ALGS
    case Supported(_) => VERSIONS
    case Other(kind, _) => kind
  }

  ghost predicate FitsExt(e: Extension) {
    match e
    case Names(es) => (forall i :: 0 <= i < |es| ==> |es[i].name| < 65536) && |EntryBytes(es)| < 65534
    case Protocols(ps) => (forall i :: 0 <= i < |ps| ==> 0 < |ps[i]| < 256) && |ProtocolBytes(ps)| < 65534
    case Signatures(vs) => |vs| < 32767
    case Supported(vs) => |vs| < 128
    case Other(kind, data) => |data| < 65536 && kind != SNI && kind != ALPN && kind != SIG_ALGS && kind != VERSIONS
  }

  ghost function DataBytes(e: Extension): (d: seq<byte>)
    requires FitsExt(e)
    ensures |d| < 65536
  {
    match e
    case Names(es) => WithLong(EntryBytes(es))
    case Protocols(ps) => WithLong(ProtocolBytes(ps))
    case Signatures(vs) => WithLong(WordBytes(vs))
    case Supported(vs) => WithShort(WordBytes(vs))
    case Other(_, data) => data
  }

  ghost function ExtBytes(es: seq<Extension>): seq<byte>
    requires forall i :: 0 <= i < |es| ==> FitsExt(es[i])
  {
    if es == [] then [] else Bytes2(KindOf(es[0])) + WithLong(DataBytes(es[0])) + ExtBytes(es[1..])
  }

  /** The sizes the wire format allows. */
  ghost predicate Fits(h: Hello) {
    && |h.random| == 32 && |h.session| < 256 && |h.ciphers| < 32768 && |h.compression| < 256
    && (forall i :: 0 <= i < |h.exts| ==> FitsExt(h.exts[i]))
    && |ExtBytes(h.exts)| < 65536
  }

  /** The body of the hello after the random, from its parts; without extensions the block is left out. */
  function Tail(session: seq<byte>, ciphers: seq<byte>, compression: seq<byte>, exts: seq<byte>): seq<byte>
    requires |session| < 256 && |ciphers| < 65536 && |compression| < 256 && |exts| < 65536
  {
    WithShort(session) + (WithLong(ciphers) + (WithShort(compression) + (if exts == [] then [] else WithLong(exts))))
  }

  /** A handshake record around the hello; the parser does not read the record's version and the two lengths. */
  ghost function Serialize(h: Hello, recordVersion: seq<byte>, recordLength: seq<byte>, bodyLength: seq<byte>): seq<byte>
    requires Fits(h) && |recordVersion| == 2 && |recordLength| == 2 && |bodyLength| == 3
  {
    var header := [0x16] + recordVersion + recordLength;
    var start := [0x01] + bodyLength;
    header + (start + (Bytes2(h.legacy) + h.random + Tail(h.session, WordBytes(h.ciphers), h.compression, ExtBytes(h.exts))))
  }

  // ----- reading it back -----

  lemma ShortReads(b: seq<byte>, rest: seq<byte>)
    requires |b| < 256
    ensures Short(WithShort(b) + rest) == Some((b, rest))
  {
    var s := WithShort(b) + rest;
    assert s[1..1 + s[0]] == b && s[1 + s[0]..] == rest;
  }

  lemma LongReads(b: seq<byte>, rest: seq<byte>)
    requires |b| < 65536
    ensures Long(WithLong(b) + rest) == Some((b, rest))
  {
    var s := WithLong(b) + rest;
    assert s[2..2 + Word(s[0], s[1])] == b && s[2 + Word(s[0], s[1])..] == rest;
  }

  lemma {:induction false} WordsRead(vs: seq<u16>)
    ensures Words(WordBytes(vs)) == vs
    decreases |vs|
  {
    if vs != [] {
      WordsRead(vs[1..]);
      assert WordBytes(vs)[2..] == WordBytes(vs[1..]);
    }
  }

  ghost function Wires(es: seq<Extension>): (ws: seq<Ext>)
    requires forall i :: 0 <= i < |es| ==> FitsExt(es[i])
    ensures |ws| == |es| && forall i :: 0 <= i < |es| ==> ws[i] == Ext(KindOf(es[i]), DataBytes(es[i]))
  {
    seq(|es|, i requires 0 <= i < |es| => Ext(KindOf(es[i]), DataBytes(es[i])))
  }

  lemma ExtReads(kind: u16, data: seq<byte>, rest: seq<byte>)
    requires |data| < 65536
    ensures Exts(Bytes2(kind) + WithLong(data) + rest) == [Ext(kind, data)] + Exts(rest)
  {
    var b := Bytes2(kind) + WithLong(data) + rest;
    assert b[..4] == Bytes2(kind) + Bytes2(|data|) && b[4..4 + |data|] == data && b[4 + |data|..] == rest;
    assert b[0] == b[..4][0] && b[1] == b[..4][1] && b[2] == b[..4][2] && b[3] == b[..4][3];
  }

  lemma {:induction false} ExtsRead(es: seq<Extension>)
    requires forall i :: 0 <= i < |es| ==> FitsExt(es[i])
    ensures Exts(ExtBytes(es)) == Wires(es)
    decreases |es|
  {
    if es != [] {
      var rest := es[1..];
      ExtsRead(rest);
      ExtReads(KindOf(es[0]), DataBytes(es[0]), ExtBytes(rest));
      assert Wires(es) == [Ext(KindOf(es[0]), DataBytes(es[0]))] + Wires(rest);
    }
  }

  lemma TailReads(legacy: u16, session: seq<byte>, ciphers: seq<byte>, compression: seq<byte>, exts: seq<byte>)
    requires |session| < 256 && |ciphers| < 65536 && |compression| < 256 && |exts| < 65536
    ensures var tail := Tail(session, ciphers, compression, exts);
            && Short(tail).Some? && Long(Short(tail).value.1).Some? && Long(Short(tail).value.1).value.0 == ciphers
            && var rest := Long(Short(tail).value.1).value.1;
               Short(rest).Some? && Extensions(legacy, ciphers, Short(rest).value.1) == Some(Raw(legacy, ciphers, exts))
  {
    var block := if exts == [] then [] else WithLong(exts);
    ShortReads(session, WithLong(ciphers) + (WithShort(compression) + block));
    LongReads(ciphers, WithShort(compression) + block);
    ShortReads(compression, block);
    LongReads(exts, []);
    assert WithLong(exts) + [] == WithLong(exts);
  }

  /** The fixed part of a record, whatever follows it. */
  lemma FixedPart(header: seq<byte>, start: seq<byte>, legacy: u16, random: seq<byte>, tail: seq<byte>)
    requires |header| == 5 && |start| == 4 && |random| == 32
    ensures var record := header + (start + (Bytes2(legacy) + random + tail));
            && record[0] == header[0] && record[5..][0] == start[0]
            && var b := record[5..][4..]; |b| >= 34 && Word(b[0], b[1]) == legacy && b[34..] == tail
  {
    var body := Bytes2(legacy) + random + tail;
    var record := header + (start + body);
    assert record[5..] == start + body && (start + body)[4..] == body;
    assert body[34..] == tail && body[..2] == Bytes2(legacy);
    assert body[0] == body[..2][0] && body[1] == body[..2][1];
  }

  lemma SectionsFrom(record: seq<byte>, legacy: u16, session: seq<byte>, ciphers: seq<byte>, compression: seq<byte>, exts: seq<byte>)
    requires |session| < 256 && |ciphers| < 65536 && |compression| < 256 && |exts| < 65536 && |ciphers| % 2 == 0
    requires |record| >= 43 && record[0] == 0x16 && record[5..][0] == 0x01
    requires var b := record[5..][4..]; Word(b[0], b[1]) == legacy && b[34..] == Tail(session, ciphers, compression, exts)
    ensures Sections(record) == Some(Raw(legacy, ciphers, exts))
  {
    TailReads(legacy, session, ciphers, compression, exts);
  }

  lemma SectionsRead(h: Hello, v: seq<byte>, l: seq<byte>, n: seq<byte>)
    requires Fits(h) && |v| == 2 && |l| == 2 && |n| == 3
    ensures Sections(Serialize(h, v, l, n)) == Some(Raw(h.legacy, WordBytes(h.ciphers), ExtBytes(h.exts)))
  {
    var header, start := [0x16] + v + l, [0x01] + n;
    assert |header| == 5 && header[0] == 0x16 && |start| == 4 && start[0] == 0x01;
    RecordReads(header, start, h.legacy, h.random, h.session, WordBytes(h.ciphers), h.compression, ExtBytes(h.exts));
  }

  lemma RecordReads(header: seq<byte>, start: seq<byte>, legacy: u16, random: seq<byte>, session: seq<byte>, ciphers: seq<byte>, compression: seq<byte>, exts: seq<byte>)
    requires |header| == 5 && header[0] == 0x16 && |start| == 4 && start[0] == 0x01 && |random| == 32
    requires |session| < 256 && |ciphers| < 65536 && |compression| < 256 && |exts| < 65536 && |ciphers| % 2 == 0
    ensures Sections(header + (start + (Bytes2(legacy) + random + Tail(session, ciphers, compression, exts)))) == Some(Raw(legacy, ciphers, exts))
  {
    var tail := Tail(session, ciphers, compression, exts);
    FixedPart(header, start, legacy, random, tail);
    SectionsFrom(header + (start + (Bytes2(legacy) + random + tail)), legacy, session, ciphers, compression, exts);
  }

  // ----- what the extensions say -----

  /** The name of the first host_name entry. */
  function FirstHost(es: seq<Entry>): seq<byte> {
    if es == [] then [] else if es[0].nameType == 0 then es[0].name else FirstHost(es[1..])
  }

  lemma EntryReads(nameType: byte, name: seq<byte>, rest: seq<byte>)
    requires |name| < 65536
    ensures HostIn([nameType] + WithLong(name) + rest) == if nameType == 0 then name else HostIn(rest)
  {
    var b := [nameType] + WithLong(name) + rest;
    assert b[..3] == [nameType] + Bytes2(|name|) && b[3..3 + |name|] == name && b[3 + |name|..] == rest;
    assert b[0] == b[..3][0] && b[1] == b[..3][1] && b[2] == b[..3][2];
  }

  lemma {:induction false} HostReads(es: seq<Entry>)
    requires forall i :: 0 <= i < |es| ==> |es[i].name| < 65536
    ensures HostIn(EntryBytes(es)) == FirstHost(es)
    decreases |es|
  {
    if es != [] {
      HostReads(es[1..]);
      EntryReads(es[0].nameType, es[0].name, EntryBytes(es[1..]));
    }
  }

  lemma ProtocolReads(names: seq<seq<byte>>)
    requires FitsExt(Protocols(names))
    ensures FirstProtocol(DataBytes(Protocols(names))) == if names == [] then [] else names[0]
  {
    var d := DataBytes(Protocols(names));
    assert d[2..] == ProtocolBytes(names);
    if names != [] {
      ShortReads(names[0], ProtocolBytes(names[1..]));
    }
  }

  lemma NamesRead(es: seq<Entry>)
    requires FitsExt(Names(es))
    ensures ServerName(DataBytes(Names(es))) == FirstHost(es)
  {
    assert DataBytes(Names(es))[2..] == EntryBytes(es);
    HostReads(es);
  }

  lemma SignaturesRead(vs: seq<u16>)
    requires FitsExt(Signatures(vs))
    ensures WordList(DataBytes(Signatures(vs))) == vs
  {
    LongReads(WordBytes(vs), []);
    assert WithLong(WordBytes(vs)) + [] == WithLong(WordBytes(vs));
    WordsRead(vs);
  }

  lemma SupportedReads(vs: seq<u16>)
    requires FitsExt(Supported(vs))
    ensures BestVersion(DataBytes(Supported(vs))) == Best(vs)
  {
    ShortReads(WordBytes(vs), []);
    assert WithShort(WordBytes(vs)) + [] == WithShort(WordBytes(vs));
    WordsRead(vs);
  }

  /** The chosen version is the largest listed one that is not GREASE, or 0 when none is listed. */
  lemma {:induction false} BestIsTheLargest(vs: seq<u16>)
    ensures Best(vs) == 0 || (Best(vs) in vs && !IsGrease(Best(vs)))
    ensures forall v :: v in vs && !IsGrease(v) ==> v <= Best(vs)
    decreases |vs|
  {
    if vs != [] {
      var rest := vs[..|vs| - 1];
      BestIsTheLargest(rest);
      assert vs == rest + [vs[|vs| - 1]];
    }
  }

  /** No extension type twice, section 4.2 of RFC 8446; GREASE types are not extension types. */
  ghost predicate Unique(es: seq<Extension>) {
    forall i, j :: 0 <= i < j < |es| && !IsGrease(KindOf(es[i])) ==> KindOf(es[i]) != KindOf(es[j])
  }

  lemma {:induction false} OnlyData(ws: seq<Ext>, i: nat)
    requires i < |ws| && forall j :: 0 <= j < |ws| && j != i ==> ws[j].kind != ws[i].kind
    ensures DataOf(ws, ws[i].kind) == Some(ws[i].data)
    decreases |ws|
  {
    if i < |ws| - 1 {
      OnlyData(ws[..|ws| - 1], i);
    }
  }

  lemma {:induction false} NoData(ws: seq<Ext>, kind: u16)
    requires forall j :: 0 <= j < |ws| ==> ws[j].kind != kind
    ensures DataOf(ws, kind) == None
    decreases |ws|
  {
    if ws != [] {
      NoData(ws[..|ws| - 1], kind);
    }
  }

  ghost predicate WellFormed(h: Hello) {
    Fits(h) && Unique(h.exts)
  }

  ghost predicate Has(es: seq<Extension>, kind: u16) {
    exists i :: 0 <= i < |es| && KindOf(es[i]) == kind
  }

  /** What one extension contributes to the facts. */
  ghost predicate Says(legacy: u16, f: Facts, e: Extension) {
    match e
    case Names(es) => f.sni == FirstHost(es)
    case Protocols(ps) => f.alpn == if ps == [] then [] else ps[0]
    case Signatures(vs) => f.sigAlgs == vs
    case Supported(vs) => f.version == PickVersion(legacy, Best(vs))
    case Other(_, _) => true
  }

  ghost predicate SaysAt(h: Hello, f: Facts, i: nat) {
    i < |h.exts| && Says(h.legacy, f, h.exts[i])
  }

  /** The meaning of a hello: what its extensions say, and what holds when one is absent. */
  ghost predicate Means(h: Hello, f: Facts) {
    && (forall i :: 0 <= i < |h.exts| ==> SaysAt(h, f, i))
    && (!Has(h.exts, SNI) ==> f.sni == []) && (!Has(h.exts, ALPN) ==> f.alpn == []) && (!Has(h.exts, SIG_ALGS) ==> f.sigAlgs == [])
    && (!Has(h.exts, VERSIONS) ==> f.version == h.legacy)
    && f.ciphers == NonGrease(h.ciphers) && f.kinds == NonGrease(KindsOf(h.exts))
  }

  function KindsOf(es: seq<Extension>): seq<u16> {
    if es == [] then [] else KindsOf(es[..|es| - 1]) + [KindOf(es[|es| - 1])]
  }

  lemma {:induction false} KindsAreKept(es: seq<Extension>, ws: seq<Ext>)
    requires |ws| == |es| && forall i :: 0 <= i < |es| ==> ws[i].kind == KindOf(es[i])
    ensures Kinds(ws) == KindsOf(es)
    decreases |es|
  {
    if es != [] {
      KindsAreKept(es[..|es| - 1], ws[..|ws| - 1]);
    }
  }

  /** The facts of a hello's own parts. */
  ghost function FactsIn(h: Hello): Facts
    requires Fits(h)
  {
    FactsOf(Raw(h.legacy, WordBytes(h.ciphers), ExtBytes(h.exts)))
  }

  lemma DataIsFound(h: Hello, i: nat)
    requires WellFormed(h) && i < |h.exts| && !IsGrease(KindOf(h.exts[i]))
    ensures DataOf(Exts(ExtBytes(h.exts)), KindOf(h.exts[i])) == Some(DataBytes(h.exts[i]))
  {
    ExtsRead(h.exts);
    var ws := Wires(h.exts);
    forall j | 0 <= j < |ws| && j != i
      ensures ws[j].kind != ws[i].kind
    {
      assert KindOf(h.exts[j]) != KindOf(h.exts[i]);
    }
    OnlyData(ws, i);
  }

  lemma ExtensionSays(h: Hello, i: nat)
    requires WellFormed(h) && i < |h.exts|
    ensures Says(h.legacy, FactsIn(h), h.exts[i])
  {
    match h.exts[i]
    case Names(es) =>
      DataIsFound(h, i);
      NamesRead(es);
    case Protocols(ps) =>
      DataIsFound(h, i);
      ProtocolReads(ps);
    case Signatures(vs) =>
      DataIsFound(h, i);
      SignaturesRead(vs);
    case Supported(vs) =>
      DataIsFound(h, i);
      SupportedReads(vs);
    case Other(_, _) =>
  }

  lemma AbsentSays(h: Hello, kind: u16)
    requires Fits(h) && !Has(h.exts, kind)
    ensures DataOf(Exts(ExtBytes(h.exts)), kind) == None
  {
    ExtsRead(h.exts);
    forall j | 0 <= j < |Wires(h.exts)|
      ensures Wires(h.exts)[j].kind != kind
    {
      assert KindOf(h.exts[j]) != kind;
    }
    NoData(Wires(h.exts), kind);
  }

  lemma FactsAreTheMeaning(h: Hello)
    requires WellFormed(h)
    ensures Means(h, FactsIn(h))
  {
    forall i | 0 <= i < |h.exts|
      ensures SaysAt(h, FactsIn(h), i)
    {
      ExtensionSays(h, i);
    }
    if !Has(h.exts, SNI) {
      AbsentSays(h, SNI);
    }
    if !Has(h.exts, ALPN) {
      AbsentSays(h, ALPN);
    }
    if !Has(h.exts, SIG_ALGS) {
      AbsentSays(h, SIG_ALGS);
    }
    if !Has(h.exts, VERSIONS) {
      AbsentSays(h, VERSIONS);
    }
    WordsRead(h.ciphers);
    ExtsRead(h.exts);
    KindsAreKept(h.exts, Wires(h.exts));
  }

  /** Parsing the serialization of a well-formed hello returns its meaning. */
  lemma ParsingReturnsTheMeaning(h: Hello, v: seq<byte>, l: seq<byte>, n: seq<byte>)
    requires WellFormed(h) && |v| == 2 && |l| == 2 && |n| == 3
    ensures var r := Read(Serialize(h, v, l, n)); r.Some? && r.value == FactsIn(h) && Means(h, r.value)
  {
    SectionsRead(h, v, l, n);
    FactsAreTheMeaning(h);
  }
}
