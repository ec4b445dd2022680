/**
 * The wire format (message_parse.go, message_options.go:110-190): the printer, the parser,
 * and the theorems that tie them together. Sections 3, 3.1 and 3.2 of RFC 7252.
 */
module Codec {
  import opened Basics
  import opened Options
  import opened StableSort
  import opened Messages

  const EXT_BYTE_CODE := 13
  const EXT_BYTE_ADDEND := 13
  const EXT_WORD_CODE := 14
  const EXT_WORD_ADDEND := 269
  const EXT_ERROR := 15
  const PAYLOAD_MARKER: byte := 0xff

  /** The longest option value whose length the two-byte extension can carry. */
  const MAX_OPTION_LENGTH := 65804

  // ----- Printer -----

  /** First byte: version 1, the low four bits of the type shifted in, the low four of the token length. */
  function FirstByte(mtype: byte, tokenLen: nat): byte {
    var t := mtype % 16;
    (if t / 4 % 2 == 1 then t else t + 4) * 16 + tokenLen % 16
  }

  /** The nibble `extendOpt` returns. */
  function Nibble(v: nat): byte {
    if v < EXT_BYTE_ADDEND then v
    else if v < EXT_WORD_ADDEND then EXT_BYTE_CODE
    else EXT_WORD_CODE
  }

  /** The bytes `writeExt` appends for it; the word form keeps the low 16 bits. */
  function Extension(v: nat): Bytes {
    if v < EXT_BYTE_ADDEND then []
    else if v < EXT_WORD_ADDEND then [v - EXT_BYTE_ADDEND]
    else PutUint16((v - EXT_WORD_ADDEND) % 0x1_0000)
  }

  /** `writeOptHeader`. */
  function OptionHeader(delta: nat, length: nat): Bytes {
    [Nibble(delta) * 16 + Nibble(length)] + Extension(delta) + Extension(length)
  }

  ghost predicate SortedFrom(prev: byte, opts: seq<Opt>) {
    Sorted(opts) && forall o <- opts :: prev <= o.id
  }

  /** The header and raw value of the option numbered `id` after the option numbered `prev`. */
  function EncodeRaw(prev: byte, id: byte, raw: Bytes): (r: Bytes)
    requires prev <= id
    ensures r != []
  {
    OptionHeader(id - prev, |raw|) + raw
  }

  function EncodeOptions(prev: byte, opts: seq<Opt>): Bytes
    requires SortedFrom(prev, opts)
    decreases |opts|
  {
    if opts == [] then []
    else EncodeRaw(prev, opts[0].id, ToBytes(opts[0].value)) + EncodeOptions(opts[0].id, opts[1..])
  }

  function EncodeHeader(m: Msg): Bytes {
    [FirstByte(m.mtype, |m.token|), m.code] + PutUint16(m.mid) + m.token
  }

  function EncodePayload(payload: Bytes): Bytes {
    if payload == [] then [] else [PAYLOAD_MARKER] + payload
  }

  /** `marshalBinary` as a value. */
  function Encode(m: Msg): Bytes {
    SortIsStable(m.opts);
    EncodeHeader(m) + EncodeOptions(0, Sort(m.opts)) + EncodePayload(m.payload)
  }

  // ----- Parser -----

  datatype ParseError = ShortPacket | InvalidVersion | InvalidTokenLen | Truncated | UnexpectedMarker

  /** `parseExtOpt` on nibble `opt`: the full number and the input left over. */
  function ParseExt(opt: nat, b: Bytes): (r: Result<(nat, Bytes), ParseError>)
    requires opt < EXT_ERROR
    ensures r.Ok? ==> |r.value.1| <= |b|
  {
    if opt == EXT_BYTE_CODE then
      if |b| < 1 then Err(Truncated) else Ok((b[0] + EXT_BYTE_ADDEND, b[1..]))
    else if opt == EXT_WORD_CODE then
      if |b| < 2 then Err(Truncated) else Ok((GetUint16(b[0], b[1]) + EXT_WORD_ADDEND, b[2..]))
    else Ok((opt, b))
  }

  /** One option taken off the input: its number modulo 256, its raw value, the rest. */
  datatype RawOption = RawOption(id: byte, raw: Bytes, rest: Bytes)

  function TakeValue(id: byte, length: nat, b: Bytes): (r: Result<RawOption, ParseError>)
    ensures r.Ok? ==> |r.value.rest| <= |b|
  {
    if |b| < length then Err(Truncated) else Ok(RawOption(id, b[..length], b[length..]))
  }

  /** The extensions and the value that follow a header byte with these two nibbles. */
  function ParseBody(prev: byte, deltaNibble: nat, lengthNibble: nat, b: Bytes): (r: Result<RawOption, ParseError>)
    requires deltaNibble < EXT_ERROR && lengthNibble < EXT_ERROR
    ensures r.Ok? ==> |r.value.rest| <= |b|
  {
    match ParseExt(deltaNibble, b)
    case Err(e) => Err(e)
    case Ok((delta, b1)) =>
      match ParseExt(lengthNibble, b1)
      case Err(e) => Err(e)
      case Ok((length, b2)) => TakeValue((prev + delta) % 0x100, length, b2)
  }

  function ParseOne(prev: byte, b: Bytes): (r: Result<RawOption, ParseError>)
    requires b != [] && b[0] != PAYLOAD_MARKER
    ensures r.Ok? ==> |r.value.rest| < |b|
  {
    if b[0] / 16 == EXT_ERROR || b[0] % 16 == EXT_ERROR then Err(UnexpectedMarker)
    else ParseBody(prev, b[0] / 16, b[0] % 16, b[1..])
  }

  /** The options appended before the loop stopped, and how it stopped. */
  datatype ParsedOptions = ParsedOptions(opts: seq<Opt>, payload: Result<Bytes, ParseError>)

  /** The option loop of `unmarshalBinary`; unknown or ill-sized options leave no trace. */
  function ParseOptions(prev: byte, b: Bytes): ParsedOptions
    decreases |b|
  {
    if b == [] then ParsedOptions([], Ok([]))
    else if b[0] == PAYLOAD_MARKER then ParsedOptions([], Ok(b[1..]))
    else match ParseOne(prev, b)
      case Err(e) => ParsedOptions([], Err(e))
      case Ok(one) =>
        var rest := ParseOptions(one.id, one.rest);
        match ParseOptionValue(one.id, one.raw)
        case None => rest
        case Some(v) => ParsedOptions([Opt(one.id, v)] + rest.opts, rest.payload)
  }

  /** `parseMessage`: `unmarshalBinary` into a zero message. */
  function Parse(data: Bytes): Result<Msg, ParseError> {
    if |data| < 4 then Err(ShortPacket)
    else if data[0] / 64 != 1 then Err(InvalidVersion)
    else
      var tokenLen := data[0] % 16;
      if tokenLen > 8 then Err(InvalidTokenLen)
      else if |data| < 4 + tokenLen then Err(Truncated)
      else
        var p := ParseOptions(0, data[4 + tokenLen..]);
        match p.payload
        case Err(e) => Err(e)
        case Ok(payload) =>
          Ok(Msg(data[0] / 16 % 4, data[1], GetUint16(data[2], data[3]), data[4..4 + tokenLen],
                 payload, p.opts, |data|, 0, 0, []))
  }

  // ----- Round trip -----

  /** What a list of options becomes on the other side of the wire. */
  function DeliveredAll(opts: seq<Opt>): seq<Opt> {
    if opts == [] then []
    else match Delivered(opts[0])
      case None => DeliveredAll(opts[1..])
      case Some(o) => [o] + DeliveredAll(opts[1..])
  }

  function CanonicalAll(opts: seq<Opt>): (r: seq<Opt>)
    ensures |r| == |opts| && forall i :: 0 <= i < |opts| ==> r[i] == Canonical(opts[i])
  {
    if opts == [] then [] else [Canonical(opts[0])] + CanonicalAll(opts[1..])
  }

  /** Every value is short enough for the length extension. */
  ghost predicate Encodable(opts: seq<Opt>) {
    forall o <- opts :: |ToBytes(o.value)| <= MAX_OPTION_LENGTH
  }

  ghost predicate AllLegal(opts: seq<Opt>) {
    forall o <- opts :: Legal(o)
  }

  lemma ExtensionRoundTrip(v: nat, rest: Bytes)
    requires v <= MAX_OPTION_LENGTH
    ensures ParseExt(Nibble(v), Extension(v) + rest) == Ok((v, rest))
  {
    assert (Extension(v) + rest)[|Extension(v)|..] == rest;
    if v >= EXT_WORD_ADDEND {
      GetPut(v - EXT_WORD_ADDEND);
      assert (v - EXT_WORD_ADDEND) % 0x1_0000 == v - EXT_WORD_ADDEND;
    }
  }

  lemma BodyRoundTrip(prev: byte, delta: nat, raw: Bytes, tail: Bytes)
    requires delta <= MAX_OPTION_LENGTH && |raw| <= MAX_OPTION_LENGTH
    ensures ParseBody(prev, Nibble(delta), Nibble(|raw|), Extension(delta) + (Extension(|raw|) + (raw + tail)))
         == Ok(RawOption((prev + delta) % 0x100, raw, tail))
  {
    var b2 := raw + tail;
    ExtensionRoundTrip(delta, Extension(|raw|) + b2);
    ExtensionRoundTrip(|raw|, b2);
    assert b2[..|raw|] == raw && b2[|raw|..] == tail;
  }

  lemma Regroup(a: Bytes, b: Bytes, c: Bytes, d: Bytes, e: Bytes)
    ensures a + b + c + d + e == a + (b + (c + (d + e)))
  {
  }

  lemma NibblesOf(hi: nat, lo: nat)
    requires hi < 15 && lo < 15
    ensures (hi * 16 + lo) / 16 == hi && (hi * 16 + lo) % 16 == lo
  {
  }

  lemma ParseOneAt(prev: byte, hi: nat, lo: nat, first: byte, rest: Bytes)
    requires hi < 15 && lo < 15 && first == hi * 16 + lo
    ensures first != PAYLOAD_MARKER
    ensures ParseOne(prev, [first] + rest) == ParseBody(prev, hi, lo, rest)
  {
    NibblesOf(hi, lo);
    assert ([first] + rest)[1..] == rest;
  }

  lemma EncodeRawShape(prev: byte, id: byte, raw: Bytes, tail: Bytes)
    requires prev <= id
    ensures EncodeRaw(prev, id, raw) + tail
         == [Nibble(id - prev) * 16 + Nibble(|raw|)]
            + (Extension(id - prev) + (Extension(|raw|) + (raw + tail)))
  {
    Regroup([Nibble(id - prev) * 16 + Nibble(|raw|)], Extension(id - prev), Extension(|raw|), raw, tail);
  }

  lemma HeaderAndBody(prev: byte, delta: nat, first: byte, raw: Bytes, tail: Bytes, b: Bytes)
    requires delta <= MAX_OPTION_LENGTH && |raw| <= MAX_OPTION_LENGTH
    requires first == Nibble(delta) * 16 + Nibble(|raw|)
    requires b == [first] + (Extension(delta) + (Extension(|raw|) + (raw + tail)))
    ensures b != [] && b[0] != PAYLOAD_MARKER
    ensures ParseOne(prev, b) == Ok(RawOption((prev + delta) % 0x100, raw, tail))
  {
    ParseOneAt(prev, Nibble(delta), Nibble(|raw|), first, Extension(delta) + (Extension(|raw|) + (raw + tail)));
    BodyRoundTrip(prev, delta, raw, tail);
  }

  /** Whatever the printer writes for an option, the parser takes off again. */
  lemma OneRoundTrip(prev: byte, id: byte, raw: Bytes, tail: Bytes)
    requires prev <= id && |raw| <= MAX_OPTION_LENGTH
    ensures (EncodeRaw(prev, id, raw) + tail)[0] != PAYLOAD_MARKER
    ensures ParseOne(prev, EncodeRaw(prev, id, raw) + tail) == Ok(RawOption(id, raw, tail))
  {
    EncodeRawShape(prev, id, raw, tail);
    var b := EncodeRaw(prev, id, raw) + tail;
    HeaderAndBody(prev, id - prev, Nibble(id - prev) * 16 + Nibble(|raw|), raw, tail, b);
    assert (prev + (id - prev)) % 0x100 == id;
  }

  /** For any encodable sorted list, parsing the printed options gives what each one delivers. */
  lemma {:induction false} OptionsRoundTrip(prev: byte, opts: seq<Opt>, payload: Bytes)
    requires SortedFrom(prev, opts) && Encodable(opts)
    ensures ParseOptions(prev, EncodeOptions(prev, opts) + EncodePayload(payload))
         == ParsedOptions(DeliveredAll(opts), Ok(payload))
    decreases |opts|
  {
    if opts == [] {
      assert EncodeOptions(prev, opts) + EncodePayload(payload) == EncodePayload(payload);
    } else {
      var raw := ToBytes(opts[0].value);
      var tail := EncodeOptions(opts[0].id, opts[1..]) + EncodePayload(payload);
      assert EncodeOptions(prev, opts) + EncodePayload(payload) == EncodeRaw(prev, opts[0].id, raw) + tail;
      OneRoundTrip(prev, opts[0].id, raw, tail);
      OptionsRoundTrip(opts[0].id, opts[1..], payload);
    }
  }

  /** A header with any body after it is read back field by field. */
  lemma HeaderRoundTrip(m: Msg, body: Bytes)
    requires m.mtype <= 3 && |m.token| <= 8
    ensures var data := EncodeHeader(m) + body;
            && |data| == 4 + |m.token| + |body|
            && data[0] / 64 == 1 && data[0] / 16 % 4 == m.mtype && data[0] % 16 == |m.token|
            && data[1] == m.code && GetUint16(data[2], data[3]) == m.mid
            && data[4..4 + |m.token|] == m.token && data[4 + |m.token|..] == body
  {
    var data := EncodeHeader(m) + body;
    GetPut(m.mid);
    var b0 := FirstByte(m.mtype, |m.token|);
    assert b0 == (4 + m.mtype) * 16 + |m.token|;
    assert data[0] == b0;
    assert data[2..4] == PutUint16(m.mid);
    assert data[2] == data[2..4][0] && data[3] == data[2..4][1];
  }

  /** Whatever the body, a packet that is accepted at all is read under the code and token it was written with. */
  lemma HeaderIsRead(m: Msg, body: Bytes)
    requires m.mtype <= 3 && |m.token| <= 8 && Parse(EncodeHeader(m) + body).Ok?
    ensures var p := Parse(EncodeHeader(m) + body).value; p.code == m.code && p.token == m.token
  {
    HeaderRoundTrip(m, body);
    hide EncodeHeader, ParseOptions;
  }

  /** Everything after the header. */
  function EncodeBody(m: Msg): Bytes {
    SortIsStable(m.opts);
    EncodeOptions(0, Sort(m.opts)) + EncodePayload(m.payload)
  }

  lemma HeaderThenBody(m: Msg)
    ensures Encode(m) == EncodeHeader(m) + EncodeBody(m)
  {
    SortIsStable(m.opts);
    Associate(EncodeHeader(m), EncodeOptions(0, Sort(m.opts)), EncodePayload(m.payload));
    hide EncodeHeader, EncodeOptions, EncodePayload, Sort;
  }

  lemma Associate(a: Bytes, b: Bytes, c: Bytes)
    ensures a + b + c == a + (b + c)
  {
  }

  /** The parts of a message that travel; the others are set by the receiver. */
  function OnWire(m: Msg, size: nat): Msg {
    m.(packetSize := size, blockSize := 0, maxSize := 0, addr := [])
  }

  /**
   * The most general form of the round trip: any message with a 2-bit type, a token of at
   * most 8 bytes and encodable options arrives with its header, token and payload intact and
   * with its options stably sorted, each one replaced by what it delivers, if anything.
   */
  lemma DeliveryTheorem(m: Msg)
    requires m.mtype <= 3 && |m.token| <= 8 && Encodable(m.opts)
    ensures Parse(Encode(m)) == Ok(OnWire(m.(opts := DeliveredAll(Sort(m.opts))), |Encode(m)|))
  {
    SortIsStable(m.opts);
    SortMembers(m.opts);
    HeaderThenBody(m);
    HeaderRoundTrip(m, EncodeBody(m));
    OptionsRoundTrip(0, Sort(m.opts), m.payload);
  }

  lemma DeliveredAllLegal(opts: seq<Opt>)
    ensures AllLegal(opts) ==> DeliveredAll(opts) == CanonicalAll(opts)
    ensures AllLegal(DeliveredAll(opts))
    ensures CanonicalAll(DeliveredAll(opts)) == DeliveredAll(opts)
    ensures Encodable(opts) || !AllLegal(opts)
  {
    if opts != [] {
      DeliveredIffLegal(opts[0]);
      DeliveredAllLegal(opts[1..]);
      assert AllLegal(opts) <==> Legal(opts[0]) && AllLegal(opts[1..]);
    }
  }

  /** 2-bit type, token of at most 8 bytes, options known, well typed and of legal length. */
  ghost predicate WellFormed(m: Msg) {
    m.mtype <= 3 && |m.token| <= 8 && AllLegal(m.opts)
  }

  /** The message a receiver should see: options stably sorted, integers canonical. */
  function Normal(m: Msg): Msg {
    OnWire(m.(opts := CanonicalAll(Sort(m.opts))), |Encode(m)|)
  }

  /** Whatever is parsed has a 2-bit type, a short token and legal, canonical options. */
  lemma {:induction false} ParsedOptionsAreLegal(prev: byte, b: Bytes)
    ensures var opts := ParseOptions(prev, b).opts; AllLegal(opts) && CanonicalAll(opts) == opts
    decreases |b|
  {
    if b != [] && b[0] != PAYLOAD_MARKER && ParseOne(prev, b).Ok? {
      var one := ParseOne(prev, b).value;
      ParsedOptionsAreLegal(one.id, one.rest);
      if ParseOptionValue(one.id, one.raw).Some? {
        ParsedIsLegal(one.id, one.raw);
      }
    }
  }

  lemma ParsedIsWellFormed(data: Bytes)
    requires Parse(data).Ok?
    ensures WellFormed(Parse(data).value)
    ensures CanonicalAll(Parse(data).value.opts) == Parse(data).value.opts
    ensures Parse(data).value.packetSize == |data|
  {
    ParsedOptionsAreLegal(0, data[4 + data[0] % 16..]);
  }

  /**
   * The round trip is exact: the receiver sees the normal form of the message if and only
   * if the message is well formed.
   */
  lemma RoundTrip(m: Msg)
    ensures Parse(Encode(m)) == Ok(Normal(m)) <==> WellFormed(m)
  {
    SortMembers(m.opts);
    if WellFormed(m) {
      DeliveredAllLegal(Sort(m.opts));
      DeliveredAllLegal(m.opts);
      DeliveryTheorem(m);
    } else if Parse(Encode(m)) == Ok(Normal(m)) {
      ParsedIsWellFormed(Encode(m));
      forall o <- m.opts
        ensures Legal(o)
      {
        assert o in Sort(m.opts);
        var i :| 0 <= i < |Sort(m.opts)| && Sort(m.opts)[i] == o;
        assert Canonical(o) in Normal(m).opts;
        CanonicalKeepsBytes(o);
      }
    }
  }

  // ----- Normal form -----

  lemma CanonicalAllSorted(prev: byte, opts: seq<Opt>)
    requires SortedFrom(prev, opts)
    ensures SortedFrom(prev, CanonicalAll(opts))
  {
    assert forall i :: 0 <= i < |opts| ==> CanonicalAll(opts)[i].id == opts[i].id;
    forall o <- CanonicalAll(opts)
      ensures prev <= o.id
    {
      var i :| 0 <= i < |opts| && CanonicalAll(opts)[i] == o;
      assert opts[i] in opts;
    }
  }

  lemma {:induction false} CanonicalAllEncodes(prev: byte, opts: seq<Opt>)
    requires SortedFrom(prev, opts) && SortedFrom(prev, CanonicalAll(opts))
    ensures EncodeOptions(prev, CanonicalAll(opts)) == EncodeOptions(prev, opts)
    decreases |opts|
  {
    if opts != [] {
      CanonicalAllSorted(opts[0].id, opts[1..]);
      CanonicalAllEncodes(opts[0].id, opts[1..]);
      CanonicalKeepsBytes(opts[0]);
      assert CanonicalAll(opts)[1..] == CanonicalAll(opts[1..]);
    }
  }

  /** The bytes depend on the options only up to stable sorting and canonical form. */
  lemma EncodeOfNormal(m: Msg)
    ensures Encode(m.(opts := Sort(m.opts))) == Encode(m)
    ensures Encode(Normal(m)) == Encode(m)
  {
    SortIsStable(m.opts);
    SortIdempotent(m.opts);
    CanonicalAllSorted(0, Sort(m.opts));
    CanonicalAllEncodes(0, Sort(m.opts));
    SortIdempotent(CanonicalAll(Sort(m.opts)));
  }

  /**
   * Every accepted packet has a normal form: printing what was parsed and parsing again
   * gives the same message with its options stably sorted, and printing that changes nothing.
   */
  lemma NormalForm(data: Bytes)
    requires Parse(data).Ok?
    ensures var m := Parse(data).value;
            var data' := Encode(m);
            && Parse(data') == Ok(m.(opts := Sort(m.opts), packetSize := |data'|))
            && Encode(Parse(data').value) == data'
  {
    var m := Parse(data).value;
    ParsedIsWellFormed(data);
    RoundTrip(m);
    EncodeOfNormal(m);
    SortMembers(m.opts);
    forall i | 0 <= i < |Sort(m.opts)|
      ensures Canonical(Sort(m.opts)[i]) == Sort(m.opts)[i]
    {
      assert Sort(m.opts)[i] in m.opts;
      var j :| 0 <= j < |m.opts| && m.opts[j] == Sort(m.opts)[i];
      assert CanonicalAll(m.opts)[j] == m.opts[j];
    }
    assert CanonicalAll(Sort(m.opts)) == Sort(m.opts);
  }

  /** Number 60 followed by a delta of 197: the second number is 257 modulo 256. */
  lemma WrappedOptions()
    ensures var b: Bytes := [0xd0, 47, 0xd0, 184];
            ParseOptions(0, b) == ParsedOptions([Opt(SIZE1, Number(GoUint32, 0)), Opt(IF_MATCH, Blob([]))], Ok([]))
  {
    var b: Bytes := [0xd0, 47, 0xd0, 184];
    var c: Bytes := [0xd0, 184];
    assert b[1..] == [47, 0xd0, 184] && b[1..][1..] == c;
    assert c[1..] == [184] && c[1..][1..] == [];
    assert c[..0] == [] && c[0..] == c;
    assert ParseOne(0, b) == Ok(RawOption(60, [], c));
    assert ParseOne(60, c) == Ok(RawOption(1, [], []));
    assert ParseOptions(1, []) == ParsedOptions([], Ok([]));
    assert ParseOptions(60, c) == ParsedOptions([Opt(IF_MATCH, Blob([]))], Ok([]));
  }

  /** Some accepted packet has unsorted options: its second number wraps past 255. */
  lemma WrappedNumberIsUnsorted()
    ensures var data: Bytes := [0x40, 1, 0, 0, 0xd0, 47, 0xd0, 184];
            && Parse(data).Ok?
            && Parse(data).value.opts == [Opt(SIZE1, Number(GoUint32, 0)), Opt(IF_MATCH, Blob([]))]
            && !Sorted(Parse(data).value.opts)
  {
    hide ParseOptions, ParseOne, ParseOptionValue, Encode, Sort;
    WrappedOptions();
    var data: Bytes := [0x40, 1, 0, 0, 0xd0, 47, 0xd0, 184];
    assert data[0] == 0x40 && data[0] % 16 == 0 && data[0] / 64 == 1;
    assert data[4..4] == [] && data[4..] == [0xd0, 47, 0xd0, 184];
    var opts := [Opt(SIZE1, Number(GoUint32, 0)), Opt(IF_MATCH, Blob([]))];
    assert opts[0].id > opts[1].id;
  }

  /** No number on the way through the input is below the one before it. */
  ghost predicate Rising(prev: byte, b: Bytes)
    decreases |b|
  {
    b != [] && b[0] != PAYLOAD_MARKER && ParseOne(prev, b).Ok? ==>
      var one := ParseOne(prev, b).value;
      prev <= one.id && Rising(one.id, one.rest)
  }

  /** Every option on the way is in the table and of legal length, so that it leaves a trace. */
  ghost predicate AllKept(prev: byte, b: Bytes)
    decreases |b|
  {
    b != [] && b[0] != PAYLOAD_MARKER && ParseOne(prev, b).Ok? ==>
      var one := ParseOne(prev, b).value;
      ParseOptionValue(one.id, one.raw).Some? && AllKept(one.id, one.rest)
  }

  lemma {:induction false} RisingIsSorted(prev: byte, b: Bytes)
    ensures Rising(prev, b) ==> SortedFrom(prev, ParseOptions(prev, b).opts)
    ensures AllKept(prev, b) && SortedFrom(prev, ParseOptions(prev, b).opts) ==> Rising(prev, b)
    decreases |b|
  {
    if b != [] && b[0] != PAYLOAD_MARKER && ParseOne(prev, b).Ok? {
      var one := ParseOne(prev, b).value;
      var rest := ParseOptions(one.id, one.rest).opts;
      RisingIsSorted(one.id, one.rest);
      SortedOneMore(prev, one.id, ParseOptionValue(one.id, one.raw), rest);
      hide ParseOne, ParseOptionValue, SortedFrom;
    }
  }

  /** An option in front of a list, if there is one. */
  lemma SortedOneMore(prev: byte, id: byte, v: Option<Value>, rest: seq<Opt>)
    ensures v.Some? ==> (SortedFrom(prev, [Opt(id, v.value)] + rest) <==> prev <= id && SortedFrom(id, rest))
    ensures prev <= id && SortedFrom(id, rest) ==> SortedFrom(prev, rest)
  {
    if v.Some? {
      SortedCons(Opt(id, v.value), rest);
      assert ([Opt(id, v.value)] + rest)[0] == Opt(id, v.value);
    }
  }

  lemma SortedCons(o: Opt, rest: seq<Opt>)
    ensures Sorted([o] + rest) <==> SortedFrom(o.id, rest)
    ensures forall x :: x in [o] + rest <==> x == o || x in rest
  {
    var all := [o] + rest;
    assert all[0] == o && forall i :: 0 <= i < |rest| ==> all[i + 1] == rest[i];
    if Sorted(all) {
      forall x <- rest
        ensures o.id <= x.id
      {
        var i :| 0 <= i < |rest| && rest[i] == x;
        assert all[0].id <= all[i + 1].id;
      }
    }
  }

  /**
   * The options of an accepted packet are sorted if no number falls back on the way through it;
   * and if every option on the way is one that is kept, only if.
   */
  lemma ParsedIsSortedIfRising(data: Bytes)
    requires Parse(data).Ok?
    ensures var b := data[4 + data[0] % 16..];
            && (Rising(0, b) ==> Sorted(Parse(data).value.opts))
            && (AllKept(0, b) ==> (Sorted(Parse(data).value.opts) <==> Rising(0, b)))
  {
    RisingIsSorted(0, data[4 + data[0] % 16..]);
    hide ParseOptions, Rising, AllKept;
  }

  const TEMPERATURE: Bytes := [0x74, 0x65, 0x6d, 0x70, 0x65, 0x72, 0x61, 0x74, 0x75, 0x72, 0x65]

  /** The first example of RFC 7252, appendix A: a confirmable GET for "temperature". */
  lemma RequestFromTheStandard()
    ensures Encode(Msg(CONFIRMABLE, 1, 0x7d34, [], [], [Opt(URI_PATH, Text(TEMPERATURE))], 0, 0, 0, []))
         == [0x40, 0x01, 0x7d, 0x34, 0xbb] + TEMPERATURE
  {
    var opts := [Opt(URI_PATH, Text(TEMPERATURE))];
    assert opts[1..] == [];
    assert Sort(opts) == opts;
    SortIsStable(opts);
    assert EncodeOptions(URI_PATH, []) == [];
    assert EncodeOptions(0, opts) == [0xbb] + TEMPERATURE;
  }

  // ----- What the wire keeps -----

  lemma OnlyCanonicalAll(opts: seq<Opt>, id: byte)
    ensures Only(CanonicalAll(opts), id) == CanonicalAll(Only(opts, id))
  {
    if opts != [] {
      assert CanonicalAll(opts)[1..] == CanonicalAll(opts[1..]);
    }
  }

  lemma CanonicalAllFixed(opts: seq<Opt>)
    requires forall o <- opts :: !o.value.Number?
    ensures CanonicalAll(opts) == opts
  {
  }

  /** String and opaque options arrive unchanged and in order, so every reader of them agrees. */
  lemma WireKeepsOptions(m: Msg, id: byte)
    requires WellFormed(m) && !Def(id).format.FormatUint?
    ensures Only(Normal(m).opts, id) == Only(m.opts, id)
    ensures First(Normal(m).opts, id) == First(m.opts, id)
  {
    SortIsStable(m.opts);
    OnlyCanonicalAll(Sort(m.opts), id);
    assert Only(Sort(m.opts), id) == Only(m.opts, id);
    OnlyMember(m.opts, id);
    CanonicalAllFixed(Only(m.opts, id));
    FirstIsFirstOnly(m.opts, id);
    FirstIsFirstOnly(Normal(m).opts, id);
  }
}
