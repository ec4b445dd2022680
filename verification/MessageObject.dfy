/**
 * The mutable `Message` (message.go, message_parse.go): the methods that sort, print and
 * parse in place, each proved against the value-level codec.
 */
module MessageObject {
  import opened Basics
  import opened Options
  import opened StableSort
  import opened Messages
  import opened Codec
  import opened Paths
  import opened Blocks

  /** The length `PacketSize` stands for: the recorded one, else the length on the wire. */
  function PacketLength(m: Msg): nat {
    if m.packetSize != 0 then m.packetSize else |Encode(m)|
  }

  /** `RequiresBlockwise` as a value. */
  predicate NeedsBlocks(m: Msg) {
    if m.maxSize > 0 then PacketLength(m) > m.maxSize
    else m.blockSize > 0 && |m.payload| > m.blockSize
  }

  /** The message after `RequiresBlockwise`: measuring a local message sorts its options. */
  function Measured(m: Msg): Msg {
    if m.maxSize > 0 && m.packetSize == 0 then m.(opts := Sort(m.opts)) else m
  }

  /** A configured maximum is exceeded by a local message exactly when its encoding exceeds it. */
  lemma NeedsBlocksMeansTooLong(m: Msg)
    requires m.packetSize == 0 && m.maxSize > 0
    ensures NeedsBlocks(m) <==> |Encode(m)| > m.maxSize
    ensures NeedsBlocks(m.(opts := Sort(m.opts))) <==> NeedsBlocks(m)
  {
    EncodeOfNormal(m);
  }

  /**
   * With a maximum the packet has to be no longer than it, counted as it was received or as it
   * would be sent; without one the payload has to fit the block size, if there is any.
   */
  predicate FitsInOne(m: Msg) {
    && (m.maxSize == 0 && m.blockSize > 0 ==> |m.payload| <= m.blockSize)
    && (m.maxSize > 0 && m.packetSize > 0 ==> m.packetSize <= m.maxSize)
    && (m.maxSize > 0 && m.packetSize == 0 ==> |Encode(m)| <= m.maxSize)
  }

  lemma BlocksUnlessItFits(m: Msg)
    ensures NeedsBlocks(m) <==> !FitsInOne(m)
  {
    hide Encode;
  }

  /** `make([]byte, n)`. */
  function Zeros(n: nat): (r: Bytes)
    ensures |r| == n
  {
    if n == 0 then [] else [0] + Zeros(n - 1)
  }

  /**
   * The fields `unmarshalBinary` leaves behind, on success and on each error; options are
   * appended to the ones already there.
   */
  function ParseInto(m: Msg, data: Bytes): (Msg, Option<ParseError>) {
    var m0 := m.(packetSize := |data|);
    if |data| < 4 then (m0, Some(ShortPacket))
    else if data[0] / 64 != 1 then (m0, Some(InvalidVersion))
    else
      var m1 := m0.(mtype := data[0] / 16 % 4);
      var tokenLen := data[0] % 16;
      if tokenLen > 8 then (m1, Some(InvalidTokenLen))
      else
        var m2 := m1.(code := data[1], mid := GetUint16(data[2], data[3]));
        if |data| < 4 + tokenLen then
          ((if tokenLen > 0 then m2.(token := Zeros(tokenLen)) else m2), Some(Truncated))
        else
          var m3 := if tokenLen > 0 then m2.(token := data[4..4 + tokenLen]) else m2;
          var p := ParseOptions(0, data[4 + tokenLen..]);
          var m4 := m3.(opts := m.opts + p.opts);
          match p.payload
          case Err(e) => (m4, Some(e))
          case Ok(payload) => (m4.(payload := payload), None)
  }

  const ZERO_MESSAGE := Msg(0, 0, 0, [], [], [], 0, 0, 0, [])

  /** On a zero message this is the parser. */
  lemma ParseIntoZero(data: Bytes)
    ensures match Parse(data)
            case Ok(m) => ParseInto(ZERO_MESSAGE, data) == (m, None)
            case Err(e) => ParseInto(ZERO_MESSAGE, data).1 == Some(e)
  {
    var opts := if |data| >= 4 && 4 + data[0] % 16 <= |data| then ParseOptions(0, data[4 + data[0] % 16..]).opts else [];
    assert [] + opts == opts;
    assert |data| >= 4 ==> data[4..4] == [];
  }

  /** One turn of the printing loop. */
  lemma EncodeStep(buf: Bytes, prev: byte, s: seq<Opt>)
    requires SortedFrom(prev, s) && s != []
    ensures SortedFrom(s[0].id, s[1..])
    ensures buf + EncodeOptions(prev, s)
         == buf + EncodeRaw(prev, s[0].id, ToBytes(s[0].value)) + EncodeOptions(s[0].id, s[1..])
  {
    hide EncodeRaw;
    assert forall o <- s[1..] :: s[0].id <= o.id;
    Append3(buf, EncodeRaw(prev, s[0].id, ToBytes(s[0].value)), EncodeOptions(s[0].id, s[1..]));
  }

  lemma Append3(a: Bytes, b: Bytes, c: Bytes)
    ensures a + (b + c) == a + b + c
  {
  }

  /** One turn of the parsing loop. */
  lemma ParseStep(acc: seq<Opt>, prev: byte, b: Bytes)
    requires b != [] && b[0] != PAYLOAD_MARKER && ParseOne(prev, b).Ok?
    ensures var one := ParseOne(prev, b).value;
            var rest := ParseOptions(one.id, one.rest);
            var v := ParseOptionValue(one.id, one.raw);
            && ParseOptions(prev, b).payload == rest.payload
            && acc + ParseOptions(prev, b).opts
               == (if v.Some? then acc + [Opt(one.id, v.value)] else acc) + rest.opts
  {
    hide ParseOne, ParseOptionValue;
    var one := ParseOne(prev, b).value;
    var v := ParseOptionValue(one.id, one.raw);
    var rest := ParseOptions(one.id, one.rest);
    if v.Some? {
      assert ParseOptions(prev, b) == ParsedOptions([Opt(one.id, v.value)] + rest.opts, rest.payload);
      AppendOpts(acc, [Opt(one.id, v.value)], rest.opts);
    } else {
      assert ParseOptions(prev, b) == rest;
    }
    hide ParseOptions;
  }

  lemma AppendOpts(a: seq<Opt>, b: seq<Opt>, c: seq<Opt>)
    ensures a + (b + c) == a + b + c
  {
  }

  /** One turn of the loop that appends strings. */
  lemma TextStep(acc: seq<Opt>, id: byte, parts: seq<Bytes>)
    requires parts != []
    ensures acc + TextOptions(id, parts) == acc + [Opt(id, Text(parts[0]))] + TextOptions(id, parts[1..])
  {
  }

  /** Strings that replace the old values of an option are read back in order. */
  lemma StringsRead(opts: seq<Opt>, id: byte, vals: seq<Bytes>)
    ensures Texts(Only(Minus(opts, id) + TextOptions(id, vals), id)) == vals
  {
    OnlyConcat(Minus(opts, id), TextOptions(id, vals), id);
    OnlyMinus(opts, id, id);
    OnlyTextOptions(id, vals);
    assert [] + TextOptions(id, vals) == TextOptions(id, vals);
  }

  class Message {
    var mtype: byte
    var code: byte
    var messageId: uint16
    var token: Bytes
    var payload: Bytes
    var opts: seq<Opt>
    var packetSize: nat
    var blockSize: nat
    var maxMessageSize: nat
    var remoteAddr: Bytes

    constructor ()
      ensures Value() == ZERO_MESSAGE
    {
      mtype, code, messageId, token, payload, opts := 0, 0, 0, [], [], [];
      packetSize, blockSize, maxMessageSize, remoteAddr := 0, 0, 0, [];
    }

    function Value(): Msg
      reads this
    {
      Msg(mtype, code, messageId, token, payload, opts, packetSize, blockSize, maxMessageSize, remoteAddr)
    }

    method SortOptions()
      modifies this`opts
      ensures opts == Sort(old(opts))
    {
      var a := new Opt[|opts|](i requires 0 <= i < |opts| reads this => opts[i]);
      assert a[..] == opts;
      SortInPlace(a);
      opts := a[..];
    }

    /** Writes the sorted options after `buf`, one header and value at a time. */
    method AppendOptions(header: Bytes) returns (buf: Bytes)
      requires Sorted(opts)
      ensures buf == header + EncodeOptions(0, opts)
    {
      buf := header;
      var prev: byte := 0;
      var i := 0;
      assert opts[i..] == opts;
      while i < |opts|
        invariant 0 <= i <= |opts|
        invariant SortedFrom(prev, opts[i..])
        invariant buf + EncodeOptions(prev, opts[i..]) == header + EncodeOptions(0, opts)
      {
        var o := opts[i];
        var b := ToBytes(o.value);
        EncodeStep(buf, prev, opts[i..]);
        assert opts[i..][1..] == opts[i + 1..] && opts[i..][0] == o;
        buf := buf + EncodeRaw(prev, o.id, b);
        prev := o.id;
        i := i + 1;
      }
    }

    /** `marshalBinary`: sorts the options in place and returns the encoding. */
    method MarshalBinary() returns (data: Bytes)
      modifies this`opts
      ensures opts == Sort(old(opts))
      ensures data == Encode(old(Value())) == Encode(Value())
    {
      EncodeOfNormal(Value());
      SortIsStable(opts);
      SortOptions();
      data := AppendOptions([FirstByte(mtype, |token|), code] + PutUint16(messageId) + token);
      if |payload| > 0 {
        data := data + [PAYLOAD_MARKER];
      }
      data := data + payload;
    }

    /** `headerSize`: everything before the payload, counted by printing it. */
    method HeaderSize() returns (n: nat)
      modifies this`opts
      ensures opts == Sort(old(opts))
      ensures n + |payload| == |Encode(old(Value()))|
    {
      SortIsStable(opts);
      SortOptions();
      var buf := AppendOptions([FirstByte(mtype, |token|), code] + PutUint16(messageId) + token);
      if |payload| > 0 {
        buf := buf + [PAYLOAD_MARKER];
      }
      n := |buf|;
    }

    method PacketSize() returns (n: nat)
      modifies this`opts
      ensures n == PacketLength(old(Value()))
      ensures opts == if packetSize == 0 then Sort(old(opts)) else old(opts)
    {
      if packetSize != 0 {
        n := packetSize;
      } else {
        n := HeaderSize();
        n := n + |payload|;
      }
    }

    method RequiresBlockwise() returns (r: bool)
      modifies this`opts
      ensures r == NeedsBlocks(old(Value()))
      ensures Value() == Measured(old(Value()))
      ensures packetSize == 0 && maxMessageSize > 0 ==> (r <==> |Encode(old(Value()))| > maxMessageSize)
    {
      if maxMessageSize > 0 {
        var n := PacketSize();
        return n > maxMessageSize;
      }
      if blockSize > 0 {
        return |payload| > blockSize;
      }
      return false;
    }

    /** `unmarshalBinary`: consumes `data` from the front, filling the fields as it goes. */
    method UnmarshalBinary(data: Bytes) returns (err: Option<ParseError>)
      modifies this
      ensures (Value(), err) == ParseInto(old(Value()), data)
    {
      hide ParseOptions, GetUint16, Zeros;
      packetSize := |data|;
      if |data| < 4 {
        return Some(ShortPacket);
      }
      if data[0] / 64 != 1 {
        return Some(InvalidVersion);
      }
      mtype := data[0] / 16 % 4;
      var tokenLen := data[0] % 16;
      if tokenLen > 8 {
        return Some(InvalidTokenLen);
      }
      code := data[1];
      messageId := GetUint16(data[2], data[3]);
      if tokenLen > 0 {
        token := Zeros(tokenLen);
      }
      if |data| < 4 + tokenLen {
        return Some(Truncated);
      }
      ghost var zeroed := token;
      token := data[4..4 + tokenLen] + token[tokenLen..];
      assert token == if tokenLen > 0 then data[4..4 + tokenLen] else zeroed;
      var b := data[4 + tokenLen..];
      err := ConsumeOptions(b);
    }

    /** The head of the option loop: one header and value taken off the input. */
    static method TakeOption(prev: byte, input: Bytes) returns (r: Result<RawOption, ParseError>)
      requires input != [] && input[0] != PAYLOAD_MARKER
      ensures r == ParseOne(prev, input)
    {
      var b := input;
      var delta, length := b[0] / 16, b[0] % 16;
      if delta == EXT_ERROR || length == EXT_ERROR {
        return Err(UnexpectedMarker);
      }
      b := b[1..];
      match ParseExt(delta, b) {
        case Err(e) => return Err(e);
        case Ok((d, rest)) => delta, b := d, rest;
      }
      match ParseExt(length, b) {
        case Err(e) => return Err(e);
        case Ok((l, rest)) => length, b := l, rest;
      }
      if |b| < length {
        return Err(Truncated);
      }
      return Ok(RawOption((prev + delta) % 0x100, b[..length], b[length..]));
    }

    /** The option loop: `b` shrinks at every turn and never runs past its end. */
    method ConsumeOptions(input: Bytes) returns (err: Option<ParseError>)
      modifies this`opts, this`payload
      ensures opts == old(opts) + ParseOptions(0, input).opts
      ensures match ParseOptions(0, input).payload
              case Ok(p) => err == None && payload == p
              case Err(e) => err == Some(e) && payload == old(payload)
    {
      var b := input;
      var prev: byte := 0;
      while |b| > 0
        invariant payload == old(payload)
        invariant old(opts) + ParseOptions(0, input).opts == opts + ParseOptions(prev, b).opts
        invariant ParseOptions(0, input).payload == ParseOptions(prev, b).payload
        decreases |b|
      {
        if b[0] == PAYLOAD_MARKER {
          b := b[1..];
          payload := b;
          return None;
        }
        var taken := TakeOption(prev, b);
        if taken.Err? {
          return Some(taken.error);
        }
        ParseStep(opts, prev, b);
        var opval := ParseOptionValue(taken.value.id, taken.value.raw);
        prev, b := taken.value.id, taken.value.rest;
        if opval.Some? {
          opts := opts + [Opt(prev, opval.value)];
        }
      }
      payload := b;
      return None;
    }

    /** `RemoveOption`, with the loop of `Minus`. */
    method RemoveOption(id: byte)
      modifies this`opts
      ensures opts == Minus(old(opts), id)
    {
      var rv: seq<Opt> := [];
      var i := 0;
      while i < |opts|
        invariant 0 <= i <= |opts|
        invariant opts == old(opts)
        invariant rv + Minus(opts[i..], id) == Minus(opts, id)
      {
        assert opts[i..][1..] == opts[i + 1..];
        if opts[i].id != id {
          rv := rv + [opts[i]];
        }
        i := i + 1;
      }
      opts := rv;
    }

    /** `WithOption` with a single value. */
    method WithOption(id: byte, v: Options.Value, replace: bool)
      modifies this`opts
      ensures opts == if replace then With(old(opts), id, v) else old(opts) + [Opt(id, v)]
    {
      if replace {
        RemoveOption(id);
      }
      opts := opts + [Opt(id, v)];
    }

    /** `WithOption` with a slice of strings: one option for each. */
    method WithStrings(id: byte, vals: seq<Bytes>, replace: bool)
      modifies this`opts
      ensures opts == (if replace then Minus(old(opts), id) else old(opts)) + TextOptions(id, vals)
      ensures replace ==> Texts(Only(opts, id)) == vals
    {
      ghost var was := opts;
      if replace {
        RemoveOption(id);
      }
      ghost var base := opts;
      var i := 0;
      while i < |vals|
        invariant 0 <= i <= |vals|
        invariant opts + TextOptions(id, vals[i..]) == base + TextOptions(id, vals)
      {
        TextStep(opts, id, vals[i..]);
        assert vals[i..][1..] == vals[i + 1..];
        opts := opts + [Opt(id, Text(vals[i]))];
        i := i + 1;
      }
      if replace { StringsRead(was, id, vals); }
    }

    /** `WithBlock1`: a nil block removes the option. */
    method SetBlock1(b: Option<Block>)
      modifies this`opts
      ensures Value() == WithBlock1(old(Value()), b)
    {
      match b {
        case None => RemoveOption(BLOCK1);
        case Some(block) => WithOption(BLOCK1, Blob(EncodeBlock(block)), true);
      }
    }

    method SetBlock2(b: Option<Block>)
      modifies this`opts
      ensures Value() == WithBlock2(old(Value()), b)
    {
      match b {
        case None => RemoveOption(BLOCK2);
        case Some(block) => WithOption(BLOCK2, Blob(EncodeBlock(block)), true);
      }
    }

    static method DropSlashes(path: Bytes) returns (s: Bytes)
      requires path != []
      ensures s == StripSlashes(path)
    {
      s := path;
      while s[0] == SLASH && |s| > 1
        invariant s != [] && StripSlashes(s) == StripSlashes(path)
        decreases |s|
      {
        s := s[1..];
      }
    }

    /** `WithPathString`: strip leading slashes, split, replace the Uri-Path options. */
    method SetPathString(path: Bytes)
      modifies this`opts
      ensures Value() == WithPathString(old(Value()), path)
      ensures path != [] ==> PathString(Value()) == StripSlashes(path)
    {
      if |path| == 0 {
        return;
      }
      PathReadsBack(Value(), path);
      var s := DropSlashes(path);
      WithStrings(URI_PATH, Split(s), true);
    }
  }
}
