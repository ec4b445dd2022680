/**
 * What the bytes on the wire are, in the numbers of the standards: the header, the option
 * header and the payload marker (section 3 of RFC 7252), the option values and the table of
 * options (sections 3.2 and 5.10), the block option (section 2.2 of RFC 7959), and which
 * packets are accepted.
 */
module Wire {
  import opened Basics
  import opened Options
  import opened StableSort
  import opened Messages
  import opened Codec
  import opened Blocks

  // ----- Values -----

  function BigEndian(b: Bytes): nat {
    if b == [] then 0 else BigEndian(b[..|b| - 1]) * 256 + b[|b| - 1]
  }

  lemma BigEndianOneMore(b: Bytes, x: byte)
    ensures BigEndian(b + [x]) == BigEndian(b) * 256 + x
  {
    assert (b + [x])[..|b|] == b;
  }

  lemma ShortBigEndian(b: Bytes)
    ensures |b| == 1 ==> BigEndian(b) == b[0]
    ensures |b| == 2 ==> BigEndian(b) == b[0] as int * 256 + b[1]
    ensures |b| == 3 ==> BigEndian(b) == b[0] as int * 65536 + b[1] as int * 256 + b[2]
    ensures |b| == 4 ==> BigEndian(b) == b[0] as int * 16777216 + b[1] as int * 65536 + b[2] as int * 256 + b[3]
  {
    if 1 <= |b| <= 4 {
      ShortBigEndian(b[..|b| - 1]);
    }
  }

  /** Integers are written and read with the most significant byte first. */
  lemma IntegersAreBigEndian(b: Bytes, v: uint32)
    requires |b| <= 4
    ensures DecodeInt(b) == BigEndian(b)
    ensures BigEndian(EncodeInt(v)) == v
  {
    ShortBigEndian(b);
    ShortBigEndian(EncodeInt(v));
  }

  /** An integer of any Go type is written as the 32 bits of its two's complement. */
  lemma IntegersWrap(kind: IntKind, n: int)
    ensures (n - BigEndian(ToBytes(Number(kind, n)))) % 0x1_0000_0000 == 0
    ensures BigEndian(ToBytes(Number(kind, n))) < 0x1_0000_0000
  {
    hide EncodeInt, BigEndian;
    IntegersAreBigEndian([], ToUint32(n));
    assert n == n / 0x1_0000_0000 * 0x1_0000_0000 + n % 0x1_0000_0000;
  }

  function PowerOfTwo(n: nat): nat {
    if n == 0 then 1 else 2 * PowerOfTwo(n - 1)
  }

  /** A block option is its number, the More bit and the exponent of its size over 16, in 20, one and three bits. */
  lemma BlockOnTheWire(b: Block)
    requires b.num < 0x10_0000 && LegalSize(b.size)
    ensures var v := BigEndian(EncodeBlock(b));
            v / 16 == b.num && (v / 8 % 2 == 1 <==> b.more) && b.size == 16 * PowerOfTwo(v % 8)
    ensures |EncodeBlock(b)| == if b.num < 8 then 1 else if b.num < 4096 then 2 else 3
  {
    hide LegalSize, SizeBits;
    EncodedValue(b);
    LastByteFields(b);
    SizeIsPower(b.size);
    LowFour(b.num, b.more, SizeBits(b.size));
  }

  lemma LowFour(num: nat, more: bool, szx: nat)
    requires szx < 8
    ensures var v := num * 16 + (if more then 8 else 0) + szx;
            v / 16 == num && (v / 8 % 2 == 1 <==> more) && v % 8 == szx
  {
    var low := (if more then 1 else 0);
    assert num * 16 + low * 8 + szx == (num * 2 + low) * 8 + szx;
  }

  lemma BlockBytes(b: Block)
    ensures BigEndian(EncodeBlock(b)) == HighPart(b.num) * 256 + LastByte(b)
  {
    hide LastByte, BigEndian;
    ShortBigEndian(EncodeBlock(b));
  }

  lemma EncodedValue(b: Block)
    requires b.num < 0x10_0000
    ensures BigEndian(EncodeBlock(b)) == b.num * 16 + (if b.more then 8 else 0) + SizeBits(b.size)
  {
    hide SizeBits, BigEndian, HighPart, EncodeBlock;
    BlockBytes(b);
    HighPartDigits(b.num);
  }

  lemma SizeIsPower(size: nat)
    ensures SizeBits(size) < 8
    ensures LegalSize(size) ==> size == 16 * PowerOfTwo(SizeBits(size))
  {
    Powers();
  }

  lemma Powers()
    ensures PowerOfTwo(0) == 1 && PowerOfTwo(1) == 2 && PowerOfTwo(2) == 4 && PowerOfTwo(3) == 8
    ensures PowerOfTwo(4) == 16 && PowerOfTwo(5) == 32 && PowerOfTwo(6) == 64 && PowerOfTwo(7) == 128
  {
    assert PowerOfTwo(3) == 8;
    assert PowerOfTwo(6) == 64;
  }

  // ----- The table of options -----

  /** Which strings arrive as they are, by option number. */
  lemma StringsArrive(id: byte, s: Bytes)
    ensures Delivered(Opt(id, Text(s))) == Some(Opt(id, Text(s))) <==>
              || ((id == 8 || id == 11 || id == 15 || id == 20) && |s| <= 255)
              || ((id == 3 || id == 39) && 1 <= |s| <= 255)
              || (id == 35 && 1 <= |s| <= 1034)
  {
  }

  /** Which byte strings do. */
  lemma BlobsArrive(id: byte, b: Bytes)
    ensures Delivered(Opt(id, Blob(b))) == Some(Opt(id, Blob(b))) <==>
              || (id == 1 && |b| <= 8)
              || (id == 4 && 1 <= |b| <= 8)
              || (id == 5 && b == [])
              || ((id == 23 || id == 27) && |b| <= 3)
  {
  }

  lemma EncodedLength(n: uint32)
    ensures |EncodeInt(n)| <= 2 <==> n < 0x1_0000
    ensures |EncodeInt(n)| <= 3 <==> n < 0x100_0000
  {
  }

  /** Which integers do, media types under 12 and 17. */
  lemma IntegersArrive(id: byte, n: uint32)
    ensures var kind := if id == 12 || id == 17 then GoMediaType else GoUint32;
            Delivered(Opt(id, Number(kind, n))) == Some(Opt(id, Number(kind, n))) <==>
              || ((id == 7 || id == 12 || id == 17) && n < 0x1_0000)
              || (id == 6 && n < 0x100_0000)
              || id == 14 || id == 28 || id == 60
  {
    hide EncodeInt, DecodeInt;
    EncodedLength(n);
    IntRoundTrip(n);
    assert ToUint32(n) == n;
  }

  // ----- The layout of a message -----

  lemma HeaderOnTheWire(m: Msg)
    requires m.mtype <= 3 && |m.token| <= 8
    ensures var data := Encode(m);
            && |data| >= 4 + |m.token|
            && data[0] == 64 + 16 * m.mtype + |m.token| && data[1] == m.code
            && data[2] as int * 256 + data[3] == m.mid && data[4..4 + |m.token|] == m.token
            && (m.opts == [] && m.payload == [] ==> |data| == 4 + |m.token|)
  {
    hide Encode, EncodeHeader;
    HeaderThenBody(m);
    HeaderRoundTrip(m, EncodeBody(m));
  }

  /** A payload is what follows a byte of ones, and that byte is there only with a payload. */
  lemma PayloadOnTheWire(m: Msg)
    ensures m.payload != [] ==> Encode(m) == Encode(m.(payload := [])) + [0xff] + m.payload
  {
    SortIsStable(m.opts);
    var front := EncodeHeader(m) + EncodeOptions(0, Sort(m.opts));
    assert EncodeHeader(m.(payload := [])) == EncodeHeader(m);
    assert front + [] == front;
    hide EncodeHeader, EncodeOptions, Sort;
    assert front + ([PAYLOAD_MARKER] + m.payload) == front + [PAYLOAD_MARKER] + m.payload;
  }

  /** How the standard reads a number from a nibble and the extension that goes with it. */
  predicate Extends(nibble: nat, ext: Bytes, v: nat) {
    || (nibble < 13 && ext == [] && v == nibble)
    || (nibble == 13 && |ext| == 1 && v == 13 + ext[0] as int)
    || (nibble == 14 && |ext| == 2 && v == 269 + ext[0] as int * 256 + ext[1])
  }

  lemma ExtensionOnTheWire(v: nat)
    requires v <= 65804
    ensures Extends(Nibble(v), Extension(v), v)
  {
  }

  /** An option: two nibbles, their extensions, the value. */
  lemma OptionOnTheWire(prev: byte, id: byte, raw: Bytes) returns (delta: Bytes, length: Bytes)
    requires prev <= id && |raw| <= 65804
    ensures var r := EncodeRaw(prev, id, raw);
            && Extends(r[0] / 16, delta, id - prev) && Extends(r[0] % 16, length, |raw|)
            && r == [r[0]] + delta + length + raw
  {
    delta, length := Extension(id - prev), Extension(|raw|);
    ExtensionOnTheWire(id - prev);
    ExtensionOnTheWire(|raw|);
    NibblesOf(Nibble(id - prev), Nibble(|raw|));
    assert EncodeRaw(prev, id, raw)[0] == Nibble(id - prev) * 16 + Nibble(|raw|);
  }

  /** The response to the first example of RFC 7252, appendix A: 2.05 with "22.3 C". */
  lemma ResponseFromTheStandard()
    ensures Encode(Msg(2, 69, 0x7d34, [], [0x32, 0x32, 0x2e, 0x33, 0x20, 0x43], [], 0, 0, 0, []))
         == [0x60, 0x45, 0x7d, 0x34, 0xff, 0x32, 0x32, 0x2e, 0x33, 0x20, 0x43]
  {
    var m := Msg(2, 69, 0x7d34, [], [0x32, 0x32, 0x2e, 0x33, 0x20, 0x43], [], 0, 0, 0, []);
    PayloadOnTheWire(m);
    var bare := m.(payload := []);
    HeaderOnTheWire(bare);
    hide Encode;
    assert Encode(bare) == [0x60, 0x45, 0x7d, 0x34];
  }

  // ----- Which packets are accepted -----

  function ExtensionLength(nibble: nat): nat {
    if nibble == 13 then 1 else if nibble == 14 then 2 else 0
  }

  /** The number a nibble and the bytes after it stand for. */
  function Extended(nibble: nat, b: Bytes): nat
    requires ExtensionLength(nibble) <= |b|
  {
    if nibble == 13 then 13 + b[0] as int else if nibble == 14 then 269 + b[0] as int * 256 + b[1] else nibble
  }

  /** The option that begins with a byte `first` and goes on in `b`: its value is `b[value..end]`. */
  datatype Extent = Extent(value: nat, end: nat)

  function ExtentOf(first: byte, b: Bytes): (x: Option<Extent>)
    ensures x.Some? ==> x.value.value <= x.value.end <= |b|
  {
    var hi, lo := first / 16, first % 16;
    var value := ExtensionLength(hi) + ExtensionLength(lo);
    if hi == 15 || lo == 15 || value > |b| then None
    else
      var end := value + Extended(lo, b[ExtensionLength(hi)..]);
      if end > |b| then None else Some(Extent(value, end))
  }

  /** Options that are all there, up to the end or to a byte of ones. */
  predicate Readable(b: Bytes)
    decreases |b|
  {
    b == [] || b[0] == 0xff ||
    match ExtentOf(b[0], b[1..])
    case None => false
    case Some(x) => Readable(b[1..][x.end..])
  }

  lemma ExtensionIsRead(nibble: nat, b: Bytes)
    requires nibble < 15
    ensures ParseExt(nibble, b).Ok? <==> ExtensionLength(nibble) <= |b|
    ensures ParseExt(nibble, b).Ok? ==> ParseExt(nibble, b).value == (Extended(nibble, b), b[ExtensionLength(nibble)..])
  {
  }

  /** One option is read if and only if neither nibble is 15 and all of it is there; then just that much is taken. */
  lemma OneIsRead(prev: byte, b: Bytes)
    requires b != [] && b[0] != 0xff
    ensures match ExtentOf(b[0], b[1..])
            case None => ParseOne(prev, b).Err?
            case Some(x) =>
              && x.value <= x.end <= |b[1..]| && ExtensionLength(b[0] / 16) <= |b[1..]|
              && ParseOne(prev, b) == Ok(RawOption((prev + Extended(b[0] / 16, b[1..])) % 256,
                                                   b[1..][x.value..x.end], b[1..][x.end..]))
  {
    if b[0] / 16 != 15 && b[0] % 16 != 15 {
      BodyIsRead(prev, b[0] / 16, b[0] % 16, b[1..]);
      hide ParseBody, Extended, ExtensionLength;
    }
  }

  lemma BodyIsRead(prev: byte, hi: nat, lo: nat, b: Bytes)
    requires hi < 15 && lo < 15
    ensures var e := ExtensionLength(hi);
            var value := e + ExtensionLength(lo);
            if value > |b| then ParseBody(prev, hi, lo, b).Err?
            else
              var end := value + Extended(lo, b[e..]);
              if end > |b| then ParseBody(prev, hi, lo, b).Err?
              else ParseBody(prev, hi, lo, b) == Ok(RawOption((prev + Extended(hi, b)) % 256, b[value..end], b[end..]))
  {
    hide ParseExt, ExtensionLength, Extended;
    ExtensionIsRead(hi, b);
    var e, f := ExtensionLength(hi), ExtensionLength(lo);
    if e <= |b| {
      ExtensionIsRead(lo, b[e..]);
      if f <= |b[e..]| {
        ValueIsRead((prev + Extended(hi, b)) % 256, Extended(lo, b[e..]), b, e, f);
      }
    }
  }

  lemma ValueIsRead(id: byte, length: nat, b: Bytes, e: nat, f: nat)
    requires e + f <= |b|
    ensures TakeValue(id, length, b[e..][f..])
         == if e + f + length > |b| then Err(Truncated) else Ok(RawOption(id, b[e + f..e + f + length], b[e + f + length..]))
  {
    assert b[e..][f..] == b[e + f..];
    if e + f + length <= |b| {
      assert b[e + f..][..length] == b[e + f..e + f + length] && b[e + f..][length..] == b[e + f + length..];
    }
  }

  lemma {:induction false} ReadableIsParsed(prev: byte, b: Bytes)
    ensures ParseOptions(prev, b).payload.Ok? <==> Readable(b)
    decreases |b|
  {
    if b != [] && b[0] != 0xff {
      OneIsRead(prev, b);
      if ParseOne(prev, b).Ok? {
        var one := ParseOne(prev, b).value;
        ReadableIsParsed(one.id, one.rest);
      }
      hide ParseOne, ParseOptionValue;
    }
  }

  /** A packet is accepted if and only if it has version 1, a token length up to 8 and options that are all there. */
  lemma AcceptedExactly(data: Bytes)
    ensures Parse(data).Ok? <==>
              && |data| >= 4 && data[0] / 64 == 1 && data[0] % 16 <= 8 && 4 + data[0] % 16 <= |data|
              && Readable(data[4 + data[0] % 16..])
  {
    if |data| >= 4 && 4 + data[0] % 16 <= |data| {
      ReadableIsParsed(0, data[4 + data[0] % 16..]);
    }
  }
}
