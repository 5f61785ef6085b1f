/**
 Which records the ClientHello parser accepts: exactly those that are put together from a handshake header, a hello header
 and the sections of a hello with their lengths, and it reads exactly these sections off them. Everything else is an error.
 */
module HelloShape {
  import opened Basics
  import opened ClientHello
  import opened HelloMeaning

  /** The parts of a record; `rest` is what follows the compression methods. */
  datatype Parts = Parts(header: seq<byte>, start: seq<byte>, legacy: u16, random: seq<byte>, session: seq<byte>,
                         ciphers: seq<byte>, compression: seq<byte>, rest: seq<byte>)

  predicate Sized(p: Parts) {
    && |p.header| == 5 && p.header[0] == 0x16 && |p.start| == 4 && p.start[0] == 0x01 && |p.random| == 32
    && |p.session| < 256 && |p.ciphers| < 65536 && |p.ciphers| % 2 == 0 && |p.compression| < 256
  }

  /** What follows the compression methods: at most one byte, or a block of extensions and anything after it. */
  predicate IsRest(rest: seq<byte>, exts: seq<byte>) {
    if |rest| < 2 then exts == []
    else |exts| < 65536 && |rest| >= 2 + |exts| && rest[..2] == Bytes2(|exts|) && rest[2..2 + |exts|] == exts
  }

  function Assembled(p: Parts): seq<byte>
    requires Sized(p)
  {
    p.header + (p.start + (Bytes2(p.legacy) + p.random + (WithShort(p.session) + (WithLong(p.ciphers) + (WithShort(p.compression) + p.rest)))))
  }

  lemma WordOfBytes(hi: byte, lo: byte)
    ensures Bytes2(Word(hi, lo)) == [hi, lo]
  {
  }

  lemma ShortSplits(b: seq<byte>)
    requires Short(b).Some?
    ensures var (x, rest) := Short(b).value; |x| < 256 && b == WithShort(x) + rest
  {
  }

  lemma LongSplits(b: seq<byte>)
    requires Long(b).Some?
    ensures var (x, rest) := Long(b).value; |x| < 65536 && b == WithLong(x) + rest
  {
    WordOfBytes(b[0], b[1]);
  }

  lemma RestReads(legacy: u16, ciphers: seq<byte>, rest: seq<byte>, exts: seq<byte>)
    ensures Extensions(legacy, ciphers, rest) == Some(Raw(legacy, ciphers, exts)) <==> IsRest(rest, exts)
  {
    if |rest| >= 2 {
      WordOfBytes(rest[0], rest[1]);
      assert rest[..2] == [rest[0], rest[1]];
      if IsRest(rest, exts) {
        assert Bytes2(|exts|)[0] == rest[0] && Bytes2(|exts|)[1] == rest[1];
        assert Word(rest[0], rest[1]) == |exts|;
      }
    }
  }

  /** Every record put together from parts is accepted, and read as these parts. */
  lemma AssembledIsRead(p: Parts, exts: seq<byte>)
    requires Sized(p) && IsRest(p.rest, exts)
    ensures Sections(Assembled(p)) == Some(Raw(p.legacy, p.ciphers, exts))
  {
    var after := WithShort(p.compression) + p.rest;
    var tail := WithShort(p.session) + (WithLong(p.ciphers) + after);
    FixedPart(p.header, p.start, p.legacy, p.random, tail);
    ShortReads(p.session, WithLong(p.ciphers) + after);
    LongReads(p.ciphers, after);
    ShortReads(p.compression, p.rest);
    RestReads(p.legacy, p.ciphers, p.rest, exts);
  }

  lemma BodySplits(record: seq<byte>)
    requires |record| >= 43
    ensures var b := record[5..][4..];
            record == record[..5] + (record[5..9] + (Bytes2(Word(b[0], b[1])) + b[2..34] + b[34..]))
  {
    var b := record[5..][4..];
    WordOfBytes(b[0], b[1]);
    assert b == [b[0], b[1]] + b[2..34] + b[34..];
    assert record[5..] == record[5..9] + b;
  }

  /** Every record that is accepted is put together from the parts that were read. */
  lemma ReadIsAssembled(record: seq<byte>) returns (p: Parts)
    requires Sections(record).Some?
    ensures Sized(p) && record == Assembled(p)
    ensures Sections(record).value == Raw(p.legacy, p.ciphers, Sections(record).value.exts) && IsRest(p.rest, Sections(record).value.exts)
  {
    var b := record[5..][4..];
    var session := Short(b[34..]).value;
    var ciphers := Long(session.1).value;
    var compression := Short(ciphers.1).value;
    ShortSplits(b[34..]);
    LongSplits(session.1);
    ShortSplits(ciphers.1);
    BodySplits(record);
    p := Parts(record[..5], record[5..9], Word(b[0], b[1]), b[2..34], session.0, ciphers.0, compression.0, compression.1);
    RestReads(p.legacy, p.ciphers, p.rest, Sections(record).value.exts);
  }

  /** A record has the shape of a hello with these sections. */
  ghost predicate IsHello(record: seq<byte>, legacy: u16, ciphers: seq<byte>, exts: seq<byte>) {
    exists p :: Sized(p) && record == Assembled(p) && p.legacy == legacy && p.ciphers == ciphers && IsRest(p.rest, exts)
  }

  /**
   The parser accepts a record, and reads version, ciphers and extensions off it, if and only if the record is put together
   from them; a record that has no such shape, cut short anywhere or with a length that is too large, is an error.
   */
  lemma AcceptedExactly(record: seq<byte>, legacy: u16, ciphers: seq<byte>, exts: seq<byte>)
    ensures Sections(record) == Some(Raw(legacy, ciphers, exts)) <==> IsHello(record, legacy, ciphers, exts)
    ensures Read(record).None? <==> forall v, cs, es :: !IsHello(record, v, cs, es)
  {
    if Sections(record).Some? {
      var p := ReadIsAssembled(record);
      var raw := Sections(record).value;
      assert IsHello(record, raw.legacy, raw.ciphers, raw.exts);
    }
    forall v, cs, es | IsHello(record, v, cs, es)
      ensures Sections(record) == Some(Raw(v, cs, es))
    {
      var p :| Sized(p) && record == Assembled(p) && p.legacy == v && p.ciphers == cs && IsRest(p.rest, es);
      AssembledIsRead(p, es);
    }
  }
}
