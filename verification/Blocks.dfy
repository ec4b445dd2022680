/** The Block1 and Block2 option values (blockwise.go:9-120; section 2.2 of RFC 7959). */
module Blocks {
  import opened Basics
  import opened Options
  import opened StableSort
  import opened Messages
  import opened Codec

  const MAX_BLOCKS := 0x10_0000

  /** `BlockMetadata`. */
  datatype Block = Block(num: nat, more: bool, size: nat)

  /** `math.Pow(2, 4 + szx)` for the three size bits. */
  function SizeOf(szx: nat): nat
    requires szx < 8
  {
    [16, 32, 64, 128, 256, 512, 1024, 2048][szx]
  }

  /** The switch at the head of `Encode`: any size without a case is written as 16. */
  function SizeBits(size: nat): nat {
    if size == 32 then 1 else if size == 64 then 2 else if size == 128 then 3
    else if size == 256 then 4 else if size == 512 then 5 else if size == 1024 then 6
    else if size == 2048 then 7 else 0
  }

  predicate LegalSize(size: nat) {
    size == 16 || SizeBits(size) != 0
  }

  /** `BlockMetadata.Encode`: one byte up to number 7, two below 4096, else three. */
  function EncodeBlock(b: Block): (r: Bytes)
    ensures 1 <= |r| <= 3
  {
    var last := LastByte(b);
    if b.num <= 7 then [last]
    else if b.num < 4096 then [b.num / 16 % 0x100, last]
    else [b.num / 4096 % 0x100, b.num / 16 % 0x100, last]
  }

  /** `blockDecode` on a byte slice: one to three bytes, anything else is an error. */
  function DecodeBlock(buf: Bytes): (r: Option<Block>)
    ensures r.Some? <==> 1 <= |buf| <= 3
    ensures r.Some? ==> LegalSize(r.value.size) && r.value.num < MAX_BLOCKS
  {
    if |buf| == 1 then Some(BlockOf(0, buf[0]))
    else if |buf| == 2 then Some(BlockOf(buf[0], buf[1]))
    else if |buf| == 3 then Some(BlockOf(buf[0] as int * 0x100 + buf[1], buf[2]))
    else None
  }

  function BlockOf(high: nat, last: byte): Block {
    Block(high * 16 + last / 16, last / 8 % 2 == 1, SizeOf(last % 8))
  }

  function LastByte(b: Block): byte {
    b.num % 16 * 16 + (if b.more then 8 else 0) + SizeBits(b.size)
  }

  /** The three fields packed into the last byte come apart again. */
  lemma LastByteFields(b: Block)
    ensures LastByte(b) / 16 == b.num % 16
    ensures LastByte(b) / 8 % 2 == if b.more then 1 else 0
    ensures LastByte(b) % 8 == SizeBits(b.size)
  {
    var low := (if b.more then 8 else 0) + SizeBits(b.size);
    assert LastByte(b) == b.num % 16 * 16 + low;
    assert LastByte(b) == (b.num % 16 * 2 + if b.more then 1 else 0) * 8 + SizeBits(b.size);
  }

  lemma TwoDigits(n: nat)
    ensures n % MAX_BLOCKS == n / 16 % 0x1_0000 * 16 + n % 16
  {
    assert n / 16 == n / 16 / 0x1_0000 * 0x1_0000 + n / 16 % 0x1_0000;
  }

  /** The 20 low bits of a number, cut into a byte, a byte and a nibble. */
  lemma NumberDigits(n: nat)
    ensures (n / 4096 % 0x100 * 0x100 + n / 16 % 0x100) * 16 + n % 16 == n % MAX_BLOCKS
  {
    TwoDigits(n);
    var h := n / 16;
    assert n / 4096 == h / 0x100;
    assert h % 0x1_0000 == h / 0x100 % 0x100 * 0x100 + h % 0x100;
  }

  /** The part of the number in front of the last byte, as far as it is written. */
  function HighPart(n: nat): nat {
    if n <= 7 then 0
    else if n < 4096 then n / 16 % 0x100
    else n / 4096 % 0x100 * 0x100 + n / 16 % 0x100
  }

  lemma EncodedParts(b: Block)
    ensures DecodeBlock(EncodeBlock(b)) == Some(BlockOf(HighPart(b.num), LastByte(b)))
  {
  }

  lemma HighPartDigits(n: nat)
    ensures HighPart(n) * 16 + n % 16 == n % MAX_BLOCKS
  {
    NumberDigits(n);
    if n < 4096 {
      assert n % MAX_BLOCKS == n && n / 16 % 0x100 == n / 16;
    }
  }

  /** Number, size and More flag come back exactly when the number is below 2^20 and the size is legal. */
  lemma BlockRoundTrip(b: Block)
    ensures DecodeBlock(EncodeBlock(b)).Some?
    ensures DecodeBlock(EncodeBlock(b)).value
         == Block(b.num % MAX_BLOCKS, b.more, if LegalSize(b.size) then b.size else 16)
    ensures DecodeBlock(EncodeBlock(b)) == Some(b) <==> b.num < MAX_BLOCKS && LegalSize(b.size)
  {
    EncodedParts(b);
    LastByteFields(b);
    HighPartDigits(b.num);
    assert SizeOf(SizeBits(b.size)) == if LegalSize(b.size) then b.size else 16;
  }

  /** Re-encoding a decoded value keeps its meaning, even when it changes its length. */
  lemma ReencodeKeepsMeaning(buf: Bytes)
    requires 1 <= |buf| <= 3
    ensures DecodeBlock(EncodeBlock(DecodeBlock(buf).value)) == DecodeBlock(buf)
  {
    BlockRoundTrip(DecodeBlock(buf).value);
  }

  /** `GetBlock1` and `GetBlock2`: the first option of that number, if it holds bytes that decode. */
  function GetBlock(opts: seq<Opt>, id: byte): Option<Block> {
    match First(opts, id)
    case Some(Blob(buf)) => DecodeBlock(buf)
    case _ => None
  }

  function GetBlock1(m: Msg): Option<Block> { GetBlock(m.opts, BLOCK1) }

  function GetBlock2(m: Msg): Option<Block> { GetBlock(m.opts, BLOCK2) }

  /** `WithBlock1`; `None` is the nil pointer, which removes the option. */
  function WithBlock1(m: Msg, b: Option<Block>): Msg {
    m.(opts := WithBlock(m.opts, BLOCK1, b))
  }

  function WithBlock2(m: Msg, b: Option<Block>): Msg {
    m.(opts := WithBlock(m.opts, BLOCK2, b))
  }

  function WithBlock(opts: seq<Opt>, id: byte, b: Option<Block>): seq<Opt> {
    match b
    case None => Minus(opts, id)
    case Some(block) => With(opts, id, Blob(EncodeBlock(block)))
  }

  function WithSize1(m: Msg, size: int): Msg {
    m.(opts := With(m.opts, SIZE1, Number(GoInt, size)))
  }

  function WithSize2(m: Msg, size: int): Msg {
    m.(opts := With(m.opts, SIZE2, Number(GoInt, size)))
  }

  /** A block that survives `Encode`. */
  predicate Encodes(b: Option<Block>) {
    b.Some? ==> b.value.num < MAX_BLOCKS && LegalSize(b.value.size)
  }

  /** Setting a block option is read back, and no other option moves. */
  lemma WithBlockReads(opts: seq<Opt>, id: byte, b: Option<Block>)
    ensures Encodes(b) ==> GetBlock(WithBlock(opts, id, b), id) == b
    ensures forall x: byte :: x != id ==> Only(WithBlock(opts, id, b), x) == Only(opts, x)
  {
    if b.Some? {
      BlockRoundTrip(b.value);
      WithReplaces(opts, id, Blob(EncodeBlock(b.value)));
    } else {
      WithReplaces(opts, id, Blob([]));
    }
  }

  lemma SameOnlySameBlock(a: seq<Opt>, b: seq<Opt>, id: byte)
    requires Only(a, id) == Only(b, id)
    ensures GetBlock(a, id) == GetBlock(b, id)
  {
    FirstIsFirstOnly(a, id);
    FirstIsFirstOnly(b, id);
  }

  lemma WithBlockLegal(opts: seq<Opt>, id: byte, b: Option<Block>)
    requires (id == BLOCK1 || id == BLOCK2) && AllLegal(opts)
    ensures AllLegal(WithBlock(opts, id, b))
  {
    MinusMembers(opts, id);
  }

  /** The blocks a well-formed message carries are the blocks its receiver reads. */
  lemma WireKeepsBlocks(m: Msg)
    requires WellFormed(m)
    ensures GetBlock1(Normal(m)) == GetBlock1(m) && GetBlock2(Normal(m)) == GetBlock2(m)
  {
    WireKeepsOptions(m, BLOCK1);
    WireKeepsOptions(m, BLOCK2);
  }

  /** `Encode` filling its byte buffer in place. */
  method EncodeInPlace(b: Block) returns (buf: array<byte>)
    ensures fresh(buf) && buf[..] == EncodeBlock(b)
  {
    var sz := SizeBits(b.size);
    if b.num <= 7 {
      buf := new byte[1];
      buf[0] := b.num * 16 % 0x100;
    } else if b.num < 4096 {
      buf := new byte[2];
      buf[1] := b.num * 16 % 0x100;
      buf[0] := b.num / 16 % 0x100;
    } else {
      buf := new byte[3];
      buf[2] := b.num * 16 % 0x100;
      buf[1] := b.num / 16 % 0x100;
      buf[0] := b.num / 4096 % 0x100;
    }
    assert b.num * 16 % 0x100 == b.num % 16 * 16;
    buf[buf.Length - 1] := buf[buf.Length - 1] + (if b.more then 8 else 0) + sz;
  }
}
