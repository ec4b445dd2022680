/**
 * Option values and the option table (message_options.go): integer encoding, the
 * conversion of a typed value to bytes, and its inverse driven by the table.
 */
module Options {
  import opened Basics

  const IF_MATCH: byte := 1
  const URI_HOST: byte := 3
  const ETAG: byte := 4
  const IF_NONE_MATCH: byte := 5
  const OBSERVE: byte := 6
  const URI_PORT: byte := 7
  const LOCATION_PATH: byte := 8
  const URI_PATH: byte := 11
  const CONTENT_FORMAT: byte := 12
  const MAX_AGE: byte := 14
  const URI_QUERY: byte := 15
  const ACCEPT: byte := 17
  const LOCATION_QUERY: byte := 20
  const BLOCK2: byte := 23
  const BLOCK1: byte := 27
  const SIZE2: byte := 28
  const PROXY_URI: byte := 35
  const PROXY_SCHEME: byte := 39
  const SIZE1: byte := 60

  datatype Format = FormatUnknown | FormatEmpty | FormatOpaque | FormatUint | FormatString

  datatype OptionDef = OptionDef(format: Format, minLen: nat, maxLen: nat)

  /** The table `optionDefs`; every number without an entry is unknown. */
  function Def(id: byte): (def: OptionDef)
    ensures def.format.FormatUint? ==> def.minLen == 0 && 1 <= def.maxLen <= 4
    ensures def.maxLen <= 1034
  {
    if id == IF_MATCH then OptionDef(FormatOpaque, 0, 8)
    else if id == URI_HOST then OptionDef(FormatString, 1, 255)
    else if id == ETAG then OptionDef(FormatOpaque, 1, 8)
    else if id == IF_NONE_MATCH then OptionDef(FormatEmpty, 0, 0)
    else if id == OBSERVE then OptionDef(FormatUint, 0, 3)
    else if id == URI_PORT then OptionDef(FormatUint, 0, 2)
    else if id == LOCATION_PATH then OptionDef(FormatString, 0, 255)
    else if id == URI_PATH then OptionDef(FormatString, 0, 255)
    else if id == CONTENT_FORMAT then OptionDef(FormatUint, 0, 2)
    else if id == MAX_AGE then OptionDef(FormatUint, 0, 4)
    else if id == URI_QUERY then OptionDef(FormatString, 0, 255)
    else if id == ACCEPT then OptionDef(FormatUint, 0, 2)
    else if id == LOCATION_QUERY then OptionDef(FormatString, 0, 255)
    else if id == PROXY_URI then OptionDef(FormatString, 1, 1034)
    else if id == PROXY_SCHEME then OptionDef(FormatString, 1, 255)
    else if id == SIZE1 then OptionDef(FormatUint, 0, 4)
    else if id == SIZE2 then OptionDef(FormatUint, 0, 4)
    else if id == BLOCK1 then OptionDef(FormatOpaque, 0, 3)
    else if id == BLOCK2 then OptionDef(FormatOpaque, 0, 3)
    else OptionDef(FormatUnknown, 0, 0)
  }

  /** The Go integer types `toBytes` accepts. */
  datatype IntKind = GoMediaType | GoInt | GoUint16 | GoInt32 | GoUint | GoUint32

  datatype Value =
    | Text(text: Bytes)
    | Blob(blob: Bytes)
    | Number(kind: IntKind, n: int)

  datatype Opt = Opt(id: byte, value: Value)

  /** The conversion `uint32(i)`: two's complement truncation to 32 bits. */
  function ToUint32(n: int): uint32 {
    n % 0x1_0000_0000
  }

  /** `encodeInt`: one to four big-endian bytes; zero takes one byte, not none. */
  function EncodeInt(v: uint32): (r: Bytes)
    ensures 1 <= |r| <= 4
  {
    if v < 0x100 then [v]
    else if v < 0x1_0000 then PutUint16(v)
    else if v < 0x100_0000 then [v / 0x1_0000] + PutUint16(v % 0x1_0000)
    else PutUint16(v / 0x1_0000) + PutUint16(v % 0x1_0000)
  }

  /** `decodeInt`: right-aligned into four bytes, so at most four may be given. */
  function DecodeInt(b: Bytes): uint32
    requires |b| <= 4
  {
    if |b| == 0 then 0
    else if |b| == 1 then b[0]
    else if |b| == 2 then GetUint16(b[0], b[1])
    else if |b| == 3 then b[0] as int * 0x1_0000 + GetUint16(b[1], b[2])
    else GetUint16(b[0], b[1]) * 0x1_0000 + GetUint16(b[2], b[3])
  }

  /** Integers are read back as they were written. */
  lemma IntRoundTrip(v: uint32)
    ensures DecodeInt(EncodeInt(v)) == v
  {
    GetPut(v % 0x1_0000);
    if v >= 0x100_0000 {
      GetPut(v / 0x1_0000);
    }
  }

  /** No non-empty byte string decodes to the same number and is shorter. */
  lemma EncodeIntIsShortest(b: Bytes)
    requires 1 <= |b| <= 4
    ensures |EncodeInt(DecodeInt(b))| <= |b|
    ensures b[0] != 0 || |b| == 1 ==> EncodeInt(DecodeInt(b)) == b
  {
    if |b| == 2 {
      PutGet(b[0], b[1]);
    } else if |b| == 3 {
      TopAndLow(b[0], GetUint16(b[1], b[2]));
      PutGet(b[1], b[2]);
    } else if |b| == 4 {
      TopAndLow(GetUint16(b[0], b[1]), GetUint16(b[2], b[3]));
      PutGet(b[0], b[1]);
      PutGet(b[2], b[3]);
    }
  }

  lemma TopAndLow(top: nat, low: uint16)
    ensures (top * 0x1_0000 + low) / 0x1_0000 == top && (top * 0x1_0000 + low) % 0x1_0000 == low
  {
  }

  /** `option.toBytes`. */
  function ToBytes(v: Value): Bytes {
    match v
    case Text(s) => s
    case Blob(b) => b
    case Number(_, n) => EncodeInt(ToUint32(n))
  }

  /** Whether integers of option `id` are parsed as media types. */
  predicate IsMediaType(id: byte) {
    id == CONTENT_FORMAT || id == ACCEPT
  }

  /** The body of `parseOptionValue` for a given table entry. */
  function ParseAs(def: OptionDef, media: bool, buf: Bytes): Option<Value>
    requires def.format.FormatUint? ==> def.maxLen <= 4
  {
    if def.format.FormatUnknown? || |buf| < def.minLen || |buf| > def.maxLen then None
    else match def.format
      case FormatUint => Some(Number(if media then GoMediaType else GoUint32, DecodeInt(buf)))
      case FormatString => Some(Text(buf))
      case _ => Some(Blob(buf))
  }

  /** `parseOptionValue`: unknown options and illegal lengths are dropped, not errors. */
  function ParseOptionValue(id: byte, buf: Bytes): Option<Value> {
    ParseAs(Def(id), IsMediaType(id), buf)
  }

  /** The value's Go type is the one the format calls for, and its bytes have a legal length. */
  predicate Fits(def: OptionDef, v: Value) {
    && (match def.format
        case FormatUnknown => false
        case FormatUint => v.Number?
        case FormatString => v.Text?
        case _ => v.Blob?)
    && def.minLen <= |ToBytes(v)| <= def.maxLen
  }

  /** In the table, well typed and of legal length. */
  predicate Legal(o: Opt) {
    Fits(Def(o.id), o.value)
  }

  /** Integers become the 32-bit value of the type the parser produces; the rest is kept. */
  function CanonicalValue(media: bool, v: Value): Value {
    match v
    case Number(_, n) => Number(if media then GoMediaType else GoUint32, ToUint32(n))
    case _ => v
  }

  function Canonical(o: Opt): Opt {
    Opt(o.id, CanonicalValue(IsMediaType(o.id), o.value))
  }

  /** What the parser makes of the bytes written for one option. */
  function Delivered(o: Opt): Option<Opt> {
    match ParseOptionValue(o.id, ToBytes(o.value))
    case None => None
    case Some(v) => Some(Opt(o.id, v))
  }

  lemma CanonicalValueKeepsBytes(def: OptionDef, media: bool, v: Value)
    ensures ToBytes(CanonicalValue(media, v)) == ToBytes(v)
    ensures CanonicalValue(media, CanonicalValue(media, v)) == CanonicalValue(media, v)
    ensures Fits(def, CanonicalValue(media, v)) <==> Fits(def, v)
  {
    assert v.Number? ==> ToUint32(ToUint32(v.n)) == ToUint32(v.n);
  }

  /** Canonical form keeps the number, the bytes and legality. */
  lemma CanonicalKeepsBytes(o: Opt)
    ensures Canonical(o).id == o.id
    ensures ToBytes(Canonical(o).value) == ToBytes(o.value)
    ensures Legal(Canonical(o)) <==> Legal(o)
    ensures Canonical(Canonical(o)) == Canonical(o)
  {
    CanonicalValueKeepsBytes(Def(o.id), IsMediaType(o.id), o.value);
  }

  lemma ToUint32Fixed(n: uint32)
    ensures ToUint32(n) == n
  {
  }

  /** Re-encoding a parsed integer takes no more bytes than it had, or one if it had none. */
  lemma EncodedLengthShrinks(b: Bytes, kind: IntKind)
    requires |b| <= 4
    ensures var v := Number(kind, DecodeInt(b)); 1 <= |ToBytes(v)| <= if |b| == 0 then 1 else |b|
    ensures ToUint32(DecodeInt(b)) == DecodeInt(b)
  {
    ToUint32Fixed(DecodeInt(b));
    if |b| == 0 {
      assert DecodeInt(b) == 0;
    } else {
      EncodeIntIsShortest(b);
    }
  }

  lemma ParsedAsFits(def: OptionDef, media: bool, buf: Bytes)
    requires def.format.FormatUint? ==> def.minLen == 0 && 1 <= def.maxLen <= 4
    requires ParseAs(def, media, buf).Some?
    ensures var v := ParseAs(def, media, buf).value; Fits(def, v) && CanonicalValue(media, v) == v
  {
    if def.format.FormatUint? {
      EncodedLengthShrinks(buf, if media then GoMediaType else GoUint32);
    }
  }

  /** Whatever the parser produces is legal and already canonical. */
  lemma ParsedIsLegal(id: byte, buf: Bytes)
    requires ParseOptionValue(id, buf).Some?
    ensures var o := Opt(id, ParseOptionValue(id, buf).value); Legal(o) && Canonical(o) == o
  {
    ParsedAsFits(Def(id), IsMediaType(id), buf);
  }

  lemma FittingIsParsed(def: OptionDef, media: bool, v: Value)
    requires def.format.FormatUint? ==> def.maxLen <= 4
    requires Fits(def, v)
    ensures ParseAs(def, media, ToBytes(v)) == Some(CanonicalValue(media, v))
  {
    if v.Number? {
      IntRoundTrip(ToUint32(v.n));
    }
  }

  /** An option survives the wire in canonical form exactly when it is legal. */
  lemma DeliveredIffLegal(o: Opt)
    ensures Delivered(o) == Some(Canonical(o)) <==> Legal(o)
    ensures Delivered(o).Some? ==> Legal(Delivered(o).value) && Canonical(Delivered(o).value) == Delivered(o).value
  {
    if Delivered(o).Some? {
      ParsedIsLegal(o.id, ToBytes(o.value));
    }
    if Legal(o) {
      FittingIsParsed(Def(o.id), IsMediaType(o.id), o.value);
    } else {
      CanonicalKeepsBytes(o);
    }
  }
}
