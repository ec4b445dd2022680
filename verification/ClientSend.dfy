/**
 * The client's `Send` (send.go:17-109): the Block1 loop that splits a payload and follows a
 * responder that shrinks the block size, and the Block2 loop that puts a response together.
 * What the network returns is an arbitrary list, one result for each message sent; past its
 * end every send times out. Sections 2.3 to 2.5 of RFC 7959.
 */
module ClientSend {
  import opened Basics
  import opened Options
  import opened Messages
  import opened Blocks
  import opened MessageObject
  import opened BlockCache

  /** What one `s.send` returns: an error, nothing (no reply expected), or a reply. */
  datatype SendResult = Failed | NoReply | Got(rsp: Msg)

  /**
   * How `Send` ends. `Panic` is a nil dereference or a slice out of range, which the source
   * does not guard against.
   */
  datatype Outcome =
    | Done(rsp: Option<Msg>)
    | TransportError
    | NotContinue
    | MissingBlock1
    | Panic

  /** The outcome, the messages sent, the message as left behind, and the unused results. */
  datatype Progress = Progress(outcome: Outcome, sent: seq<Msg>, msg: Msg, rest: seq<SendResult>)

  function Prepend(m: Msg, p: Progress): Progress {
    p.(sent := [m] + p.sent)
  }

  function After(sent: seq<Msg>, p: Progress): Progress {
    p.(sent := sent + p.sent)
  }

  lemma OneMoreSent(sent: seq<Msg>, m: Msg, p: Progress)
    ensures After(sent, Prepend(m, p)) == After(sent + [m], p)
  {
    assert sent + ([m] + p.sent) == sent + [m] + p.sent;
  }

  // ----- Upload -----

  predicate MoreChunks(data: Bytes, num: nat, size: nat) {
    num * size + size < |data|
  }

  /** The message for chunk `num`; Size1 is set once, with the first chunk, and then stays. */
  function ChunkMessage(msg: Msg, data: Bytes, num: nat, size: nat): Msg
    requires num * size <= |data|
  {
    var m := WithBlock1(msg.(payload := Slice(data, num, size)), Some(Block(num, MoreChunks(data, num, size), size)));
    if num == 0 then WithSize1(m, |data|) else m
  }

  /**
   * The number of the next chunk: one after the chunk just finished, counted in units of the
   * size the responder asks for.
   */
  function NextNum(num: nat, size: nat, echo: Block): nat
    requires echo.size > 0
  {
    if size > echo.size then (size / echo.size) * (echo.num + 1) else echo.num + 1
  }

  function UploadLoop(msg: Msg, data: Bytes, num: nat, size: nat, results: seq<SendResult>): Progress
    decreases |results|
  {
    if num * size > |data| then Progress(Panic, [], msg, results)
    else
      var more := MoreChunks(data, num, size);
      var m := ChunkMessage(msg, data, num, size);
      if results == [] || results[0].Failed? then Progress(TransportError, [m], m, if results == [] then [] else results[1..])
      else if results[0].NoReply? then Progress(Panic, [m], m, results[1..])
      else
        var rsp := results[0].rsp;
        if more && rsp.code != CODE_CONTINUE then Progress(NotContinue, [m], m, results[1..])
        else match GetBlock1(rsp)
          case None => Progress(MissingBlock1, [m], m, results[1..])
          case Some(echo) =>
            if !more then Progress(Done(Some(rsp)), [m], m, results[1..])
            else Prepend(m, UploadLoop(m, data, NextNum(num, size, echo), echo.size, results[1..]))
  }

  // ----- Download -----

  function FetchMessage(msg: Msg, block: nat, size: nat): Msg {
    WithBlock2(msg, Some(Block(block, false, size)))
  }

  function FetchLoop(msg: Msg, data: Bytes, block: nat, size: nat, results: seq<SendResult>): Progress
    decreases |results|
  {
    var m := FetchMessage(msg, block, size);
    if results == [] || results[0].Failed? then Progress(TransportError, [m], m, if results == [] then [] else results[1..])
    else if results[0].NoReply? then Progress(Panic, [m], m, results[1..])
    else
      var rsp := results[0].rsp;
      var data' := data + rsp.payload;
      match GetBlock2(rsp)
      case None => Progress(Panic, [m], m, results[1..])
      case Some(b) =>
        if !b.more then Progress(Done(Some(rsp.(payload := data'))), [m], m, results[1..])
        else Prepend(m, FetchLoop(m, data', block + 1, b.size, results[1..]))
  }

  // ----- The whole of Send -----

  function FirstPhase(msg: Msg, results: seq<SendResult>): Progress {
    if NeedsBlocks(msg) then UploadLoop(Measured(msg), msg.payload, 0, msg.blockSize, results)
    else
      var m := Measured(msg);
      if results == [] || results[0].Failed? then Progress(TransportError, [m], m, if results == [] then [] else results[1..])
      else Progress(Done(if results[0].Got? then Some(results[0].rsp) else None), [m], m, results[1..])
  }

  function SendAll(msg: Msg, results: seq<SendResult>): Progress {
    var p := FirstPhase(msg, results);
    if !p.outcome.Done? || p.outcome.rsp.None? then p
    else
      var rsp := p.outcome.rsp.value;
      match GetBlock2(rsp)
      case None => p
      case Some(b) =>
        if !b.more then p
        else
          var q := FetchLoop(WithBlock1(p.msg, None).(payload := []), rsp.payload, 1, b.size, p.rest);
          q.(sent := p.sent + q.sent)
  }

  /** One result taken off the network for a message sent. */
  method Transmit(results: seq<SendResult>) returns (r: SendResult, rest: seq<SendResult>)
    ensures results == [] ==> r == Failed && rest == []
    ensures results != [] ==> r == results[0] && rest == results[1..]
  {
    if results == [] {
      return Failed, [];
    }
    return results[0], results[1..];
  }

  /** The head of the chunk loop: cut out the chunk and mark it; `None` is the slice out of range. */
  method PrepareChunk(msg: Msg, data: Bytes, blockNum: nat, blockSize: nat) returns (m: Option<Msg>, more: bool)
    ensures if blockNum * blockSize > |data| then m == None
            else m == Some(ChunkMessage(msg, data, blockNum, blockSize)) && more == MoreChunks(data, blockNum, blockSize)
  {
    hide EncodeBlock, With, Minus;
    var offset := blockNum * blockSize;
    var dataLen: int := blockSize;
    more := true;
    if offset + blockSize >= |data| {
      dataLen := |data| - offset;
      more := false;
    }
    if dataLen < 0 {
      return None, more;
    }
    var chunk := msg.(payload := data[offset..offset + dataLen]);
    chunk := WithBlock1(chunk, Some(Block(blockNum, more, blockSize)));
    if blockNum == 0 {
      chunk := WithSize1(chunk, |data|);
    }
    m := Some(chunk);
  }

  /** The foot of the loop: follow the responder's block size and move on to the next chunk. */
  method MoveOn(num: nat, size: nat, echo: Block) returns (blockNum: nat)
    requires echo.size > 0
    ensures blockNum == NextNum(num, size, echo)
  {
    var finished: int;
    if size > echo.size {
      finished := (size / echo.size) * (echo.num + 1) - 1;
    } else {
      finished := echo.num;
    }
    blockNum := finished + 1;
  }

  /** The chunk loop of `Send`, with its running block number and size. */
  method SendChunks(request: Msg, blockSize0: nat, results: seq<SendResult>)
    returns (outcome: Outcome, sent: seq<Msg>, msg: Msg, rest: seq<SendResult>)
    ensures Progress(outcome, sent, msg, rest) == UploadLoop(request, request.payload, 0, blockSize0, results)
  {
    hide ChunkMessage, NextNum, MoreChunks, EncodeBlock;
    var data := request.payload;
    var blockNum, blockSize := 0, blockSize0;
    sent, msg, rest := [], request, results;
    while true
      invariant blockNum >= 0 && blockSize >= 0
      invariant UploadLoop(request, data, 0, blockSize0, results)
             == After(sent, UploadLoop(msg, data, blockNum, blockSize, rest))
      decreases |rest|
    {
      var chunk, more := PrepareChunk(msg, data, blockNum, blockSize);
      if chunk == None {
        return Panic, sent, msg, rest;
      }
      msg := chunk.value;
      var r;
      r, rest := Transmit(rest);
      sent := sent + [msg];
      if r.Failed? {
        return TransportError, sent, msg, rest;
      }
      if r.NoReply? {
        return Panic, sent, msg, rest;
      }
      if more && r.rsp.code != CODE_CONTINUE {
        return NotContinue, sent, msg, rest;
      }
      var block1 := GetBlock1(r.rsp);
      if block1 == None {
        return MissingBlock1, sent, msg, rest;
      }
      if !more {
        return Done(Some(r.rsp)), sent, msg, rest;
      }
      blockNum := MoveOn(blockNum, blockSize, block1.value);
      blockSize := block1.value.size;
      OneMoreSent(sent[..|sent| - 1], msg, UploadLoop(msg, data, blockNum, blockSize, rest));
      hide UploadLoop, After, Prepend;
    }
  }

  /** The loop of `Send` that asks for the remaining blocks of a response. */
  method FetchBlocks(request: Msg, first: Msg, size: nat, results: seq<SendResult>)
    returns (outcome: Outcome, sent: seq<Msg>, msg: Msg, rest: seq<SendResult>)
    ensures Progress(outcome, sent, msg, rest) == FetchLoop(request, first.payload, 1, size, results)
  {
    hide WithBlock, GetBlock;
    var data := first.payload;
    var block, blockSize := 1, size;
    sent, msg, rest := [], request, results;
    while true
      invariant block >= 0
      invariant FetchLoop(request, first.payload, 1, size, results)
             == After(sent, FetchLoop(msg, data, block, blockSize, rest))
      decreases |rest|
    {
      msg := WithBlock2(msg, Some(Block(block, false, blockSize)));
      var r;
      r, rest := Transmit(rest);
      sent := sent + [msg];
      if r.Failed? {
        return TransportError, sent, msg, rest;
      }
      if r.NoReply? {
        return Panic, sent, msg, rest;
      }
      data := data + r.rsp.payload;
      block := block + 1;
      var block2 := GetBlock2(r.rsp);
      if block2 == None {
        return Panic, sent, msg, rest;
      }
      if !block2.value.more {
        return Done(Some(r.rsp.(payload := data))), sent, msg, rest;
      }
      blockSize := block2.value.size;
    }
  }

  /** `Send`. */
  method Send(request: Msg, results: seq<SendResult>)
    returns (outcome: Outcome, sent: seq<Msg>, msg: Msg, rest: seq<SendResult>)
    ensures Progress(outcome, sent, msg, rest) == SendAll(request, results)
  {
    msg := Measured(request);
    if NeedsBlocks(request) {
      outcome, sent, msg, rest := SendChunks(msg, request.blockSize, results);
      if !outcome.Done? {
        return;
      }
    } else {
      var r;
      r, rest := Transmit(results);
      sent := [msg];
      if r.Failed? {
        return TransportError, sent, msg, rest;
      }
      outcome := Done(if r.Got? then Some(r.rsp) else None);
    }
    if outcome.rsp.Some? {
      var rsp := outcome.rsp.value;
      var block2 := GetBlock2(rsp);
      if block2.Some? && block2.value.more {
        msg := WithBlock1(msg, None);
        msg := msg.(payload := []);
        var before := sent;
        outcome, sent, msg, rest := FetchBlocks(msg, rsp, block2.value.size, rest);
        sent := before + sent;
      }
    }
  }

  // ----- Tiling -----

  /** The reply echoes the number and its size divides the one it answers. */
  predicate Cooperative(num: nat, size: nat, echo: Block) {
    echo.num == num && echo.size > 0 && size % echo.size == 0
  }

  /**
   * A responder that echoes the number leads to the byte after the chunk if and only if its
   * size divides the current one: growing the size, or shrinking it unevenly, leaves a gap.
   */
  lemma NextChunkIsAdjacent(num: nat, size: nat, echo: Block)
    requires size >= 1 && echo.size >= 1 && echo.num == num
    ensures NextNum(num, size, echo) * echo.size == num * size + size <==> size % echo.size == 0
  {
    var s, n := echo.size, num + 1;
    Successor(num, size);
    if size > s {
      ShrinkGap(n, size, s);
      MulZero(n, size % s);
    } else if size < s {
      assert size % s == size;
      GrowGap(n, size, s);
    }
  }

  lemma Successor(n: nat, s: nat)
    ensures (n + 1) * s == n * s + s
  {
  }

  lemma GrowGap(n: nat, size: nat, s: nat)
    requires n >= 1 && size < s
    ensures n * s > n * size
  {
  }

  /** What `n` blocks of `size` lose when counted in whole blocks of `s`. */
  lemma ShrinkGap(n: nat, size: nat, s: nat)
    requires s >= 1
    ensures n * size == (size / s) * n * s + n * (size % s)
  {
    var q, r := size / s, size % s;
    assert size == q * s + r;
    assert n * size == n * (q * s) + n * r;
    MulSwap(n, q, s);
  }

  lemma MulSwap(n: nat, q: nat, s: nat)
    ensures n * (q * s) == q * n * s
  {
  }

  lemma MulZero(n: nat, r: int)
    requires n >= 1
    ensures n * r == 0 <==> r == 0
  {
  }

  /** As long as chunks remain, the reply is a Continue from a cooperative responder. */
  ghost predicate CooperativeRun(data: Bytes, num: nat, size: nat, results: seq<SendResult>)
    decreases |results|
  {
    results != [] && results[0].Got? && MoreChunks(data, num, size) ==>
      && results[0].rsp.code == CODE_CONTINUE
      && GetBlock1(results[0].rsp).Some?
      && (var echo := GetBlock1(results[0].rsp).value;
          Cooperative(num, size, echo) && CooperativeRun(data, NextNum(num, size, echo), echo.size, results[1..]))
  }

  function Payloads(sent: seq<Msg>): Bytes {
    if sent == [] then [] else sent[0].payload + Payloads(sent[1..])
  }

  /** Message `i` says where it belongs: its number times its size is the total length before it. */
  ghost predicate Positioned(sent: seq<Msg>, offset: nat) {
    sent != [] ==>
      && (GetBlock1(sent[0]).Some? && GetBlock1(sent[0]).value.num * GetBlock1(sent[0]).value.size == offset)
      && Positioned(sent[1..], offset + |sent[0].payload|)
  }

  /** More is set on every message but one that ends at the end of the payload. */
  ghost predicate MoreUntilEnd(sent: seq<Msg>, offset: nat, total: nat) {
    sent != [] ==>
      && GetBlock1(sent[0]).Some?
      && (GetBlock1(sent[0]).value.more <==> offset + |sent[0].payload| < total)
      && MoreUntilEnd(sent[1..], offset + |sent[0].payload|, total)
  }

  /** The size a peer reads from a block of size `size`. */
  function NamedSize(size: nat): (r: nat)
    ensures r >= 16
  {
    if LegalSize(size) then size else 16
  }

  /** A chunk names its More flag, its number modulo 2^20 and its size, or 16 if that is not legal. */
  lemma ChunkBlock(msg: Msg, data: Bytes, num: nat, size: nat)
    requires num * size <= |data|
    ensures GetBlock1(ChunkMessage(msg, data, num, size))
         == Some(Block(num % MAX_BLOCKS, MoreChunks(data, num, size), NamedSize(size)))
    ensures ChunkMessage(msg, data, num, size).payload == Slice(data, num, size)
  {
    var block := Block(num, MoreChunks(data, num, size), size);
    BlockRoundTrip(block);
    WithReplaces(msg.opts, BLOCK1, Blob(EncodeBlock(block)));
    var opts := WithBlock(msg.opts, BLOCK1, Some(block));
    WithReplaces(opts, SIZE1, Number(GoInt, |data|));
    SameOnlySameBlock(With(opts, SIZE1, Number(GoInt, |data|)), opts, BLOCK1);
  }

  lemma MulMono(a: nat, b: nat, c: nat, d: nat)
    requires a <= b && c <= d
    ensures a * c <= b * d
  {
    assert a * c <= b * c;
    assert b * c <= b * d;
  }

  /** Whether the loop goes on after the first result. */
  predicate GoesOn(data: Bytes, num: nat, size: nat, results: seq<SendResult>) {
    results != [] && results[0].Got? && MoreChunks(data, num, size)
  }

  /** Where the loop can be: at a chunk that has bytes to send, or at the first one. */
  predicate AtChunk(data: Bytes, num: nat, size: nat) {
    LegalSize(size) && num * size <= |data| && (num * size < |data| || num == 0)
  }

  /** A number that was echoed fits 20 bits. */
  lemma EchoFits(rsp: Msg)
    requires GetBlock1(rsp).Some?
    ensures GetBlock1(rsp).value.num < MAX_BLOCKS && LegalSize(GetBlock1(rsp).value.size)
  {
  }

  lemma LegalIsLarge(size: nat)
    requires LegalSize(size)
    ensures size >= 16
  {
  }

  /** One turn of the loop against a cooperative responder. */
  lemma ChunkStep(msg: Msg, data: Bytes, num: nat, size: nat, results: seq<SendResult>)
    requires AtChunk(data, num, size) && CooperativeRun(data, num, size, results)
    ensures var m := ChunkMessage(msg, data, num, size);
            var p := UploadLoop(msg, data, num, size, results);
            && num * size + |m.payload| <= |data|
            && m.payload == data[num * size..num * size + |m.payload|]
            && GetBlock1(m) == Some(Block(num % MAX_BLOCKS, MoreChunks(data, num, size), size))
            && (MoreChunks(data, num, size) <==> num * size + |m.payload| < |data|)
            && if GoesOn(data, num, size, results) then
                 num < MAX_BLOCKS && GetBlock1(results[0].rsp).Some? &&
                 var echo := GetBlock1(results[0].rsp).value;
                 var next := NextNum(num, size, echo);
                 && next * echo.size == num * size + |m.payload| && |m.payload| >= 16
                 && AtChunk(data, next, echo.size)
                 && CooperativeRun(data, next, echo.size, results[1..])
                 && p == Prepend(m, UploadLoop(m, data, next, echo.size, results[1..]))
               else p.sent == [m] && p.outcome != NotContinue
                    && (p.outcome.Done? ==> !MoreChunks(data, num, size))
  {
    LegalIsLarge(size);
    ChunkBlock(msg, data, num, size);
    SlicesTile(data, num, size);
    if GoesOn(data, num, size, results) {
      var echo := GetBlock1(results[0].rsp).value;
      EchoFits(results[0].rsp);
      NextChunkIsAdjacent(num, size, echo);
      assert |Slice(data, num, size)| == size;
    }
    hide ChunkMessage, EncodeBlock, GetBlock, SizeBits, LegalSize, NextNum;
  }

  lemma Pieces(data: Bytes, i: nat, j: nat, k: nat)
    requires i <= j <= k <= |data|
    ensures data[i..j] + data[j..k] == data[i..k]
  {
  }

  /** The messages sent are adjacent pieces of the payload from `offset`, all of it if finished. */
  ghost predicate Tiles(p: Progress, data: Bytes, offset: nat) {
    var end := offset + |Payloads(p.sent)|;
    && end <= |data| && Payloads(p.sent) == data[offset..end]
    && (p.outcome.Done? ==> end == |data|)
  }

  /**
   * Tiling under renegotiation: against a cooperative responder the chunks sent are adjacent
   * pieces of the payload, and a finished upload has sent all of it.
   */
  lemma {:induction false} ChunksTile(msg: Msg, data: Bytes, num: nat, size: nat, results: seq<SendResult>)
    requires AtChunk(data, num, size) && CooperativeRun(data, num, size, results)
    ensures Tiles(UploadLoop(msg, data, num, size, results), data, num * size)
    decreases |results|
  {
    hide UploadLoop, ChunkMessage, CooperativeRun, AtChunk, Tiles, GetBlock1;
    ChunkStep(msg, data, num, size, results);
    var m := ChunkMessage(msg, data, num, size);
    var offset := num * size;
    if GoesOn(data, num, size, results) {
      var echo := GetBlock1(results[0].rsp).value;
      var num' := NextNum(num, size, echo);
      ChunksTile(m, data, num', echo.size, results[1..]);
      OneMoreTile(m, UploadLoop(m, data, num', echo.size, results[1..]), data, offset);
    } else {
      LastTile(m, UploadLoop(msg, data, num, size, results), data, offset);
    }
  }

  lemma OneMoreTile(m: Msg, q: Progress, data: Bytes, offset: nat)
    requires offset + |m.payload| <= |data| && m.payload == data[offset..offset + |m.payload|]
    requires Tiles(q, data, offset + |m.payload|)
    ensures Tiles(Prepend(m, q), data, offset)
  {
    var next := offset + |m.payload|;
    assert Prepend(m, q).sent[1..] == q.sent;
    Pieces(data, offset, next, next + |Payloads(q.sent)|);
  }

  lemma LastTile(m: Msg, p: Progress, data: Bytes, offset: nat)
    requires offset + |m.payload| <= |data| && m.payload == data[offset..offset + |m.payload|]
    requires p.sent == [m] && (p.outcome.Done? ==> offset + |m.payload| == |data|)
    ensures Tiles(p, data, offset)
  {
    assert p.sent[1..] == [];
  }

  /** The number of the last chunk sent. */
  function LastNumber(data: Bytes, num: nat, size: nat, results: seq<SendResult>): nat
    decreases |results|
  {
    if GoesOn(data, num, size, results) && GetBlock1(results[0].rsp).Some? then
      var echo := GetBlock1(results[0].rsp).value;
      LastNumber(data, NextNum(num, size, echo), echo.size, results[1..])
    else num
  }

  /**
   * Labels: More is clear only on a chunk that reaches the end, and each chunk says where it
   * belongs if and only if the number of the last one fits 20 bits.
   */
  lemma {:induction false} ChunksAreLabelled(msg: Msg, data: Bytes, num: nat, size: nat, results: seq<SendResult>)
    requires AtChunk(data, num, size) && CooperativeRun(data, num, size, results)
    ensures MoreUntilEnd(UploadLoop(msg, data, num, size, results).sent, num * size, |data|)
    ensures Positioned(UploadLoop(msg, data, num, size, results).sent, num * size)
            <==> LastNumber(data, num, size, results) < MAX_BLOCKS
    decreases |results|
  {
    hide UploadLoop, ChunkMessage, CooperativeRun, GetBlock1;
    ChunkStep(msg, data, num, size, results);
    var m := ChunkMessage(msg, data, num, size);
    var p := UploadLoop(msg, data, num, size, results);
    LabelFits(num, size);
    hide AtChunk;
    if GoesOn(data, num, size, results) {
      var echo := GetBlock1(results[0].rsp).value;
      var num' := NextNum(num, size, echo);
      ChunksAreLabelled(m, data, num', echo.size, results[1..]);
      assert p.sent[1..] == UploadLoop(m, data, num', echo.size, results[1..]).sent;
    } else {
      assert p.sent[1..] == [];
    }
  }

  lemma LabelFits(num: nat, size: nat)
    requires LegalSize(size)
    ensures num % MAX_BLOCKS * size == num * size <==> num < MAX_BLOCKS
  {
    if num >= MAX_BLOCKS {
      GrowGap(size, num % MAX_BLOCKS, num);
    }
  }

  /** Every reply carries a Block1 option and none is missing. */
  ghost predicate AllReplied(results: seq<SendResult>) {
    forall r <- results :: r.Got? && GetBlock1(r.rsp).Some?
  }

  /**
   * The loop ends: every chunk that is followed by another takes at least 16 bytes off what is
   * left, and with a reply to each chunk the upload finishes.
   */
  lemma {:induction false} UploadTerminates(msg: Msg, data: Bytes, num: nat, size: nat, results: seq<SendResult>)
    requires AtChunk(data, num, size) && CooperativeRun(data, num, size, results)
    ensures (|UploadLoop(msg, data, num, size, results).sent| - 1) * 16 <= |data| - num * size
    ensures |results| * 16 > |data| - num * size && AllReplied(results)
            ==> UploadLoop(msg, data, num, size, results).outcome.Done?
    decreases |results|
  {
    ChunkStep(msg, data, num, size, results);
    var m := ChunkMessage(msg, data, num, size);
    if GoesOn(data, num, size, results) {
      hide UploadLoop, ChunkMessage, CooperativeRun, AtChunk;
      var echo := GetBlock1(results[0].rsp).value;
      UploadTerminates(m, data, NextNum(num, size, echo), echo.size, results[1..]);
      assert forall r <- results[1..] :: r in results;
    } else if results != [] {
      assert results[0] in results;
    }
  }

  // ----- Reassembly -----

  /**
   * Each request gets its own reply: the server decodes the Block2 option it carries and
   * serves that block of the cached response.
   */
  ghost predicate OwnReplies(cached: Msg, msg: Msg, block: nat, size: nat, results: seq<SendResult>)
    decreases |results|
  {
    results != [] ==>
      var m := FetchMessage(msg, block, size);
      var asked := GetBlock2(m);
      && asked.Some?
      && asked.value.num * asked.value.size <= |cached.payload|
      && results[0] == Got(Serve(cached, m, asked.value.num, asked.value.size))
      && (MoreAfter(cached.payload, asked.value.num, asked.value.size) ==>
            OwnReplies(cached, m, block + 1, asked.value.size, results[1..]))
  }

  /** `n` is the length divided by the size, rounded up. */
  predicate BlockCount(total: nat, size: nat, n: nat) {
    n >= 1 && (n - 1) * size < total <= n * size
  }

  lemma MoreMeansNotLast(total: nat, size: nat, n: nat, block: nat)
    requires BlockCount(total, size, n) && block < n
    ensures block * size < total
    ensures block * size + size < total <==> block + 1 < n
  {
    Successor(block, size);
    MulMono(block, n - 1, size, size);
    if block + 1 < n {
      MulMono(block + 1, n - 1, size, size);
    }
  }

  /** The loop finished with this payload after this many requests. */
  predicate Fetched(p: Progress, payload: Bytes, requests: int) {
    p.outcome.Done? && p.outcome.rsp.Some? && p.outcome.rsp.value.payload == payload && |p.sent| == requests
  }

  /** The number that is asked for: `EncodeBlock` keeps its low 20 bits. */
  lemma FetchBlock(msg: Msg, block: nat, size: nat)
    requires LegalSize(size)
    ensures GetBlock2(FetchMessage(msg, block, size)) == Some(Block(block % MAX_BLOCKS, false, size))
  {
    hide EncodeBlock, DecodeBlock;
    BlockRoundTrip(Block(block, false, size));
    WithReplaces(msg.opts, BLOCK2, Blob(EncodeBlock(Block(block, false, size))));
  }

  /** One turn of the download loop when the request gets its own reply. */
  lemma FetchStep(cached: Msg, msg: Msg, data: Bytes, block: nat, size: nat, results: seq<SendResult>)
    requires LegalSize(size) && block % MAX_BLOCKS * size <= |cached.payload|
    requires results != [] && OwnReplies(cached, msg, block, size, results)
    ensures var m := FetchMessage(msg, block, size);
            var p := FetchLoop(msg, data, block, size, results);
            var asked := block % MAX_BLOCKS;
            var data' := data + Slice(cached.payload, asked, size);
            if MoreAfter(cached.payload, asked, size) then
              && OwnReplies(cached, m, block + 1, size, results[1..])
              && p == Prepend(m, FetchLoop(m, data', block + 1, size, results[1..]))
            else Fetched(p, data', 1)
  {
    hide Serve, EncodeBlock, With, Minus;
    FetchBlock(msg, block, size);
    ServedBlock(cached, FetchMessage(msg, block, size), block % MAX_BLOCKS, size);
  }

  /** What is left from a block on. */
  function Rest(data: Bytes, num: nat, size: nat): Bytes
    requires num * size <= |data|
  {
    data[num * size..]
  }

  /** The next block and what is left after it. */
  lemma RestSplits(data: Bytes, payload: Bytes, num: nat, size: nat)
    requires num * size < |payload|
    ensures !MoreAfter(payload, num, size) ==> Slice(payload, num, size) == Rest(payload, num, size)
    ensures MoreAfter(payload, num, size) ==>
              && (num + 1) * size <= |payload|
              && data + Slice(payload, num, size) + Rest(payload, num + 1, size) == data + Rest(payload, num, size)
  {
    Successor(num, size);
    if MoreAfter(payload, num, size) {
      assert Slice(payload, num, size) + Rest(payload, num + 1, size) == Rest(payload, num, size);
    }
  }

  /**
   * The download loop against the cache: with a reply of its own for each request, it appends
   * exactly the rest of the cached payload and stops after exactly the blocks that are left.
   */
  lemma {:induction false} FetchesTheRest(cached: Msg, msg: Msg, data: Bytes, block: nat, size: nat, n: nat,
                                          results: seq<SendResult>)
    requires LegalSize(size) && n <= MAX_BLOCKS
    requires BlockCount(|cached.payload|, size, n) && block < n && block * size <= |cached.payload|
    requires OwnReplies(cached, msg, block, size, results) && |results| >= n - block
    ensures Fetched(FetchLoop(msg, data, block, size, results), data + Rest(cached.payload, block, size), n - block)
    decreases |results|
  {
    hide FetchLoop, OwnReplies, FetchMessage, Slice, Rest, BlockCount;
    var payload := cached.payload;
    MoreMeansNotLast(|payload|, size, n, block);
    FetchStep(cached, msg, data, block, size, results);
    RestSplits(data, payload, block, size);
    if MoreAfter(payload, block, size) {
      var m := FetchMessage(msg, block, size);
      FetchesTheRest(cached, m, data + Slice(payload, block, size), block + 1, size, n, results[1..]);
    }
  }

  /**
   * With more than 2^20 blocks the loop never ends: from block 2^20 on it asks for an earlier
   * block again, and every reply has More set.
   */
  lemma {:induction false} TooManyNeverEnds(cached: Msg, msg: Msg, data: Bytes, block: nat, size: nat, n: nat,
                                            results: seq<SendResult>)
    requires LegalSize(size) && BlockCount(|cached.payload|, size, n) && n > MAX_BLOCKS
    requires OwnReplies(cached, msg, block, size, results)
    ensures !FetchLoop(msg, data, block, size, results).outcome.Done?
    decreases |results|
  {
    if results != [] {
      hide FetchLoop, OwnReplies, FetchMessage;
      var asked := block % MAX_BLOCKS;
      MoreMeansNotLast(|cached.payload|, size, n, asked);
      FetchStep(cached, msg, data, block, size, results);
      var data' := data + Slice(cached.payload, asked, size);
      Successor(asked, size);
      TooManyNeverEnds(cached, FetchMessage(msg, block, size), data', block + 1, size, n, results[1..]);
    }
  }

  /** The first block tells the client the size to go on with: 16 if the real one cannot be written. */
  lemma FirstBlock(cached: Msg, req: Msg, size: nat)
    requires 0 < size < |cached.payload|
    ensures Serve(cached, req, 0, size).payload == cached.payload[..size]
    ensures GetBlock2(Serve(cached, req, 0, size)) == Some(Block(0, true, NamedSize(size)))
  {
    var block := Block(0, true, size);
    BlockRoundTrip(block);
    var opts := With(cached.opts, SIZE2, Number(GoInt, |cached.payload|));
    WithReplaces(opts, BLOCK2, Blob(EncodeBlock(block)));
  }

  /**
   * Block2 download: the first block of a cached response has More set and names the size to
   * go on with; the loop then ends with the cached payload after ceil(length / size) - 1 further
   * requests, also when the length is a multiple of the size, if and only if the size is one
   * `Encode` can write and there are at most 2^20 blocks.
   */
  lemma DownloadIsExact(cached: Msg, req: Msg, msg: Msg, size: nat, n: nat, results: seq<SendResult>)
    requires 0 < size < |cached.payload|
    requires BlockCount(|cached.payload|, NamedSize(size), n)
    requires OwnReplies(cached, msg, 1, NamedSize(size), results) && |results| >= n - 1
    ensures GetBlock2(Serve(cached, req, 0, size)) == Some(Block(0, true, NamedSize(size)))
    ensures Fetched(FetchLoop(msg, Serve(cached, req, 0, size).payload, 1, NamedSize(size), results), cached.payload, n - 1)
            <==> LegalSize(size) && n <= MAX_BLOCKS
  {
    FirstBlock(cached, req, size);
    var first := cached.payload[..size];
    hide FetchLoop, OwnReplies, Serve, BlockCount, NamedSize, LegalSize, Fetched;
    if n == 1 {
      OneBlockIsNotExact(cached, msg, size, results);
    } else if n > MAX_BLOCKS {
      LegalName(size);
      TooManyNeverEnds(cached, msg, first, 1, NamedSize(size), n, results);
      NotFetched(FetchLoop(msg, first, 1, NamedSize(size), results), cached.payload, n - 1);
    } else {
      FewBlocksAreExact(cached, msg, size, n, results);
    }
  }

  lemma LegalName(size: nat)
    ensures LegalSize(NamedSize(size))
  {
  }

  lemma NotFetched(p: Progress, payload: Bytes, requests: int)
    requires !p.outcome.Done?
    ensures !Fetched(p, payload, requests)
  {
  }

  /** More than one block is sent although one of the size named would do: the size is not legal. */
  lemma OneBlockIsNotExact(cached: Msg, msg: Msg, size: nat, results: seq<SendResult>)
    requires 0 < size < |cached.payload| && BlockCount(|cached.payload|, NamedSize(size), 1)
    ensures !LegalSize(size)
    ensures !Fetched(FetchLoop(msg, cached.payload[..size], 1, NamedSize(size), results), cached.payload, 0)
  {
    assert FetchLoop(msg, cached.payload[..size], 1, NamedSize(size), results).sent != [];
  }

  /** The first block, and then what the download loop appends. */
  lemma FewBlocksAreExact(cached: Msg, msg: Msg, size: nat, n: nat, results: seq<SendResult>)
    requires 0 < size < |cached.payload| && BlockCount(|cached.payload|, NamedSize(size), n) && 1 < n <= MAX_BLOCKS
    requires OwnReplies(cached, msg, 1, NamedSize(size), results) && |results| >= n - 1
    ensures Fetched(FetchLoop(msg, cached.payload[..size], 1, NamedSize(size), results), cached.payload, n - 1) <==> LegalSize(size)
  {
    var payload, named := cached.payload, NamedSize(size);
    MoreMeansNotLast(|payload|, named, n, 1);
    assert LegalSize(named) && (named == size <==> LegalSize(size));
    assert Rest(payload, 1, named) == payload[named..];
    hide FetchLoop, OwnReplies, BlockCount, LegalSize, NamedSize, Rest, MoreAfter, Slice;
    FetchesTheRest(cached, msg, payload[..size], 1, named, n, results);
    if named == size {
      assert payload[..size] + payload[size..] == payload;
    } else {
      assert |payload[..size] + payload[named..]| == size + |payload| - named;
    }
  }

  /**
   * The whole of `Send`: if the reply to the request, or to the last chunk of an upload, is the
   * first block of a cached response, and each further request gets its own reply, `Send`
   * returns the cached payload after ceil(length / size) - 1 further requests if and only if
   * the size is one `Encode` can write and there are at most 2^20 blocks.
   */
  lemma SendReturnsWhole(msg: Msg, results: seq<SendResult>, cached: Msg, req: Msg, size: nat, n: nat)
    requires FirstPhase(msg, results).outcome == Done(Some(Serve(cached, req, 0, size)))
    requires 0 < size < |cached.payload|
    requires BlockCount(|cached.payload|, NamedSize(size), n)
    requires var p := FirstPhase(msg, results);
             |p.rest| >= n - 1
             && OwnReplies(cached, WithBlock1(p.msg, None).(payload := []), 1, NamedSize(size), p.rest)
    ensures Fetched(SendAll(msg, results), cached.payload, |FirstPhase(msg, results).sent| + n - 1)
            <==> LegalSize(size) && n <= MAX_BLOCKS
  {
    hide FirstPhase, FetchLoop, OwnReplies, Serve, WithBlock1, GetBlock2, SendAll, Fetched, After, BlockCount, NamedSize, LegalSize;
    var p := FirstPhase(msg, results);
    var next := WithBlock1(p.msg, None).(payload := []);
    var first := Serve(cached, req, 0, size);
    DownloadIsExact(cached, req, next, size, n, p.rest);
    SendGoesOn(msg, results, first, Block(0, true, NamedSize(size)));
    FetchedAfter(p.sent, FetchLoop(next, first.payload, 1, NamedSize(size), p.rest), cached.payload, n - 1);
  }

  /** After a first block with More set, `Send` goes on in the download loop. */
  lemma SendGoesOn(msg: Msg, results: seq<SendResult>, rsp: Msg, b: Block)
    requires FirstPhase(msg, results).outcome == Done(Some(rsp)) && GetBlock2(rsp) == Some(b) && b.more
    ensures var p := FirstPhase(msg, results);
            SendAll(msg, results)
            == After(p.sent, FetchLoop(WithBlock1(p.msg, None).(payload := []), rsp.payload, 1, b.size, p.rest))
  {
    hide FirstPhase, FetchLoop, WithBlock1, GetBlock2;
  }

  lemma FetchedAfter(sent: seq<Msg>, p: Progress, payload: Bytes, requests: int)
    ensures Fetched(After(sent, p), payload, |sent| + requests) <==> Fetched(p, payload, requests)
  {
  }

  /** In particular for a request that needs no upload. */
  lemma RequestReturnsWhole(msg: Msg, cached: Msg, size: nat, n: nat, rest: seq<SendResult>)
    requires !NeedsBlocks(msg) && 0 < size < |cached.payload|
    requires BlockCount(|cached.payload|, NamedSize(size), n) && |rest| >= n - 1
    requires OwnReplies(cached, WithBlock1(Measured(msg), None).(payload := []), 1, NamedSize(size), rest)
    ensures Fetched(SendAll(msg, [Got(Serve(cached, Measured(msg), 0, size))] + rest), cached.payload, n)
            <==> LegalSize(size) && n <= MAX_BLOCKS
  {
    var results := [Got(Serve(cached, Measured(msg), 0, size))] + rest;
    assert results[1..] == rest;
    SendReturnsWhole(msg, results, cached, Measured(msg), size, n);
    hide SendAll, OwnReplies, Serve;
  }
}
