/**
 * What `Send` (send.go:17-109) puts on the network: the request as it was given, its chunks or
 * the requests for the rest of the response, and what it makes of the replies.
 */
module Requests {
  import opened Basics
  import opened Options
  import opened StableSort
  import opened Messages
  import opened Codec
  import opened Blocks
  import opened MessageObject
  import opened BlockCache
  import opened ClientSend

  /** The same header, and the same options but for blocks and the total size. */
  ghost predicate SameRequest(m: Msg, msg: Msg) {
    && m.mtype == msg.mtype && m.code == msg.code && m.token == msg.token && m.mid == msg.mid
    && forall id: byte :: id != BLOCK1 && id != BLOCK2 && id != SIZE1 ==> Only(m.opts, id) == Only(msg.opts, id)
  }

  ghost predicate SameBlocks(m: Msg, msg: Msg) {
    Only(m.opts, BLOCK1) == Only(msg.opts, BLOCK1) && Only(m.opts, BLOCK2) == Only(msg.opts, BLOCK2)
    && Only(m.opts, SIZE1) == Only(msg.opts, SIZE1)
  }

  lemma MeasuredIsSame(msg: Msg)
    ensures var m := Measured(msg);
            && m == msg.(opts := m.opts) && SameRequest(m, msg) && SameBlocks(m, msg)
            && (msg.maxSize == 0 ==> m == msg)
  {
    SortIsStable(msg.opts);
  }

  // ----- A request that fits -----

  /** There is nothing more to ask for. */
  predicate IsComplete(rsp: Msg) {
    GetBlock2(rsp).Some? ==> !GetBlock2(rsp).value.more
  }

  /**
   * A request that fits goes out as it was given, options reordered at most; if the reply is
   * complete, or there is none, that is all that is sent and the reply is the result.
   */
  lemma WholeRequest(msg: Msg, results: seq<SendResult>)
    requires FitsInOne(msg)
    ensures var p := SendAll(msg, results);
            && p.sent != []
            && p.sent[0] == msg.(opts := p.sent[0].opts) && SameRequest(p.sent[0], msg) && SameBlocks(p.sent[0], msg)
            && (msg.maxSize == 0 ==> p.sent[0] == msg)
            && (results == [] || results[0].Failed? ==> |p.sent| == 1 && p.outcome == TransportError)
            && (results != [] && results[0].NoReply? ==> |p.sent| == 1 && p.outcome == Done(None))
            && (results != [] && results[0].Got? && IsComplete(results[0].rsp) ==>
                  |p.sent| == 1 && p.outcome == Done(Some(results[0].rsp)) && p.rest == results[1..])
  {
    hide NeedsBlocks, FitsInOne, GetBlock, FetchLoop, WithBlock1, Measured, SameRequest, SameBlocks;
    BlocksUnlessItFits(msg);
    MeasuredIsSame(msg);
  }

  // ----- A request that does not -----

  /** A chunk is the request with its slice, its Block1 and, with the first one, the total size. */
  lemma ChunkIsRequest(msg: Msg, data: Bytes, num: nat, size: nat)
    requires num * size <= |data|
    ensures var c := ChunkMessage(msg, data, num, size);
            && SameRequest(c, msg) && Only(c.opts, BLOCK2) == Only(msg.opts, BLOCK2)
            && Only(c.opts, SIZE1) == if num == 0 then [Opt(SIZE1, Number(GoInt, |data|))] else Only(msg.opts, SIZE1)
  {
    hide EncodeBlock;
    var block := Blob(EncodeBlock(Block(num, MoreChunks(data, num, size), size)));
    WithReplaces(msg.opts, BLOCK1, block);
    WithReplaces(With(msg.opts, BLOCK1, block), SIZE1, Number(GoInt, |data|));
  }

  /** A request that does not fit starts with the first `blockSize` bytes, as block 0. */
  lemma FirstChunk(msg: Msg, results: seq<SendResult>)
    requires !FitsInOne(msg)
    ensures var p, total := SendAll(msg, results), |msg.payload|;
            && p.sent != []
            && var c := p.sent[0];
               && SameRequest(c, msg) && Only(c.opts, BLOCK2) == Only(msg.opts, BLOCK2)
               && Only(c.opts, SIZE1) == [Opt(SIZE1, Number(GoInt, total))]
               && c.payload == msg.payload[..Min(msg.blockSize, total)]
               && GetBlock1(c) == Some(Block(0, msg.blockSize < total, NamedSize(msg.blockSize)))
  {
    hide NeedsBlocks, FitsInOne, FetchLoop, WithBlock1, Measured, ChunkMessage, SameRequest, GetBlock, NamedSize;
    BlocksUnlessItFits(msg);
    MeasuredIsSame(msg);
    var m := Measured(msg);
    ChunkIsRequest(m, msg.payload, 0, msg.blockSize);
    ChunkBlock(m, msg.payload, 0, msg.blockSize);
    SameTwice(ChunkMessage(m, msg.payload, 0, msg.blockSize), m, msg);
    FirstOfUpload(m, msg.payload, msg.blockSize, results);
  }

  lemma SameTwice(a: Msg, b: Msg, c: Msg)
    requires SameRequest(a, b) && SameRequest(b, c)
    ensures SameRequest(a, c)
  {
  }

  lemma FirstOfUpload(m: Msg, data: Bytes, size: nat, results: seq<SendResult>)
    ensures var p := UploadLoop(m, data, 0, size, results);
            p.sent != [] && p.sent[0] == ChunkMessage(m, data, 0, size)
  {
    hide ChunkMessage, GetBlock, NextNum;
  }

  lemma {:induction false} UploadKeepsRequest(msg: Msg, data: Bytes, num: nat, size: nat, results: seq<SendResult>)
    ensures var p := UploadLoop(msg, data, num, size, results);
            && (forall m <- p.sent :: SameRequest(m, msg)) && SameRequest(p.msg, msg)
            && |p.sent| <= |results| + 1 && (p.outcome.Done? ==> |p.sent| <= |results| && p.rest == results[|p.sent|..])
    decreases |results|
  {
    if num * size <= |data| {
      hide ChunkMessage, GetBlock, NextNum, SameRequest;
      var m := ChunkMessage(msg, data, num, size);
      ChunkIsRequest(msg, data, num, size);
      if results != [] && results[0].Got? && GetBlock1(results[0].rsp).Some? {
        var echo := GetBlock1(results[0].rsp).value;
        EchoFits(results[0].rsp);
        var next := NextNum(num, size, echo);
        var q := UploadLoop(m, data, next, echo.size, results[1..]);
        UploadKeepsRequest(m, data, next, echo.size, results[1..]);
        forall x | x in q.sent || x == q.msg
          ensures SameRequest(x, msg)
        {
          SameTwice(x, m, msg);
        }
      }
    } else {
      assert SameRequest(msg, msg);
    }
  }

  /** A finished upload had a Continue with Block1 for every chunk but the last, and ends with the reply to that. */
  lemma {:induction false} UploadWasContinued(msg: Msg, data: Bytes, num: nat, size: nat, results: seq<SendResult>)
    ensures var p := UploadLoop(msg, data, num, size, results);
            p.outcome.Done? ==>
              var n := |p.sent|;
              && 1 <= n <= |results|
              && (forall i | 0 <= i < n :: results[i].Got? && GetBlock1(results[i].rsp).Some?)
              && (forall i | 0 <= i < n - 1 :: results[i].rsp.code == 95)
              && p.outcome == Done(Some(results[n - 1].rsp))
    decreases |results|
  {
    hide ChunkMessage, GetBlock, NextNum, MoreChunks;
    if num * size <= |data| && results != [] && results[0].Got? && GetBlock1(results[0].rsp).Some? && MoreChunks(data, num, size) {
      var echo := GetBlock1(results[0].rsp).value;
      EchoFits(results[0].rsp);
      var m, next := ChunkMessage(msg, data, num, size), NextNum(num, size, echo);
      UploadWasContinued(m, data, next, echo.size, results[1..]);
    }
  }

  // ----- The rest of the response -----

  /** The size a further request names: that of the block before it. */
  function AskedSize(size: nat, results: seq<SendResult>, i: nat): nat
    requires i <= |results|
  {
    if i == 0 then size
    else if results[i - 1].Got? && GetBlock2(results[i - 1].rsp).Some? then GetBlock2(results[i - 1].rsp).value.size
    else 0
  }

  lemma FetchIsRequest(msg: Msg, block: nat, size: nat)
    ensures var m := FetchMessage(msg, block, size);
            && SameRequest(m, msg) && m.payload == msg.payload
            && Only(m.opts, BLOCK1) == Only(msg.opts, BLOCK1) && Only(m.opts, SIZE1) == Only(msg.opts, SIZE1)
            && GetBlock2(m) == Some(Block(block % 0x10_0000, false, NamedSize(size)))
  {
    hide EncodeBlock, DecodeBlock;
    BlockRoundTrip(Block(block, false, size));
    WithReplaces(msg.opts, BLOCK2, Blob(EncodeBlock(Block(block, false, size))));
  }

  /** Request `i` of the second phase. */
  ghost predicate AsksFor(m: Msg, msg: Msg, num: nat, size: nat) {
    && SameRequest(m, msg) && m.payload == msg.payload
    && Only(m.opts, BLOCK1) == Only(msg.opts, BLOCK1) && Only(m.opts, SIZE1) == Only(msg.opts, SIZE1)
    && GetBlock2(m) == Some(Block(num % 0x10_0000, false, NamedSize(size)))
  }

  /** The requests ask for one block after another, each at the size of the block before it. */
  ghost predicate AskInOrder(sent: seq<Msg>, msg: Msg, block: nat, size: nat, results: seq<SendResult>) {
    |sent| <= |results| + 1 && forall i | 0 <= i < |sent| :: AsksFor(sent[i], msg, block + i, AskedSize(size, results, i))
  }

  lemma AsksTwice(x: Msg, m: Msg, msg: Msg, block: nat, size: nat, num: nat, sz: nat)
    requires AsksFor(m, msg, block, size) && AsksFor(x, m, num, sz)
    ensures AsksFor(x, msg, num, sz)
  {
  }

  lemma AskOneMore(m: Msg, sent: seq<Msg>, msg: Msg, block: nat, size: nat, size': nat, results: seq<SendResult>)
    requires results != [] && size' == AskedSize(size, results, 1)
    requires AsksFor(m, msg, block, size) && AskInOrder(sent, m, block + 1, size', results[1..])
    ensures AskInOrder([m] + sent, msg, block, size, results)
  {
    hide AsksFor, GetBlock;
    forall i | 0 < i < |sent| + 1
      ensures AsksFor(sent[i - 1], msg, block + i, AskedSize(size, results, i))
    {
      var sz := AskedSize(size', results[1..], i - 1);
      assert AsksFor(sent[i - 1], m, block + 1 + (i - 1), sz);
      AsksTwice(sent[i - 1], m, msg, block, size, block + i, sz);
    }
  }

  lemma AskOnce(m: Msg, msg: Msg, block: nat, size: nat, results: seq<SendResult>)
    requires AsksFor(m, msg, block, size)
    ensures AskInOrder([m], msg, block, size, results)
  {
    hide AsksFor;
  }

  lemma {:induction false} FetchAsksInOrder(msg: Msg, data: Bytes, block: nat, size: nat, results: seq<SendResult>)
    ensures var p := FetchLoop(msg, data, block, size, results);
            AskInOrder(p.sent, msg, block, size, results) && SameRequest(p.msg, msg)
    decreases |results|
  {
    hide FetchMessage, GetBlock, AsksFor, AskInOrder, SameRequest;
    var m := FetchMessage(msg, block, size);
    FirstAsks(msg, block, size);
    AskOnce(m, msg, block, size, results);
    if results != [] && results[0].Got? && GetBlock2(results[0].rsp).Some? && GetBlock2(results[0].rsp).value.more {
      var b := GetBlock2(results[0].rsp).value;
      var q := FetchLoop(m, data + results[0].rsp.payload, block + 1, b.size, results[1..]);
      FetchAsksInOrder(m, data + results[0].rsp.payload, block + 1, b.size, results[1..]);
      AskOneMore(m, q.sent, msg, block, size, b.size, results);
      SameTwice(q.msg, m, msg);
    }
  }

  lemma FirstAsks(msg: Msg, block: nat, size: nat)
    ensures AsksFor(FetchMessage(msg, block, size), msg, block, size) && SameRequest(FetchMessage(msg, block, size), msg)
  {
    FetchIsRequest(msg, block, size);
    hide FetchMessage;
  }

  /** A finished download ends with the last reply, with what was received before put in front of its payload. */
  lemma {:induction false} FetchEndsWithLastReply(msg: Msg, data: Bytes, block: nat, size: nat, results: seq<SendResult>)
    ensures var p := FetchLoop(msg, data, block, size, results);
            p.outcome.Done? ==>
              var n := |p.sent|;
              && 1 <= n <= |results| && (forall i | 0 <= i < n :: results[i].Got? && GetBlock2(results[i].rsp).Some?)
              && (forall i | 0 <= i < n :: GetBlock2(results[i].rsp).value.more <==> i < n - 1)
              && p.outcome.rsp.Some?
              && p.outcome.rsp.value == results[n - 1].rsp.(payload := data + Payloads(results[..n]))
    decreases |results|
  {
    hide FetchMessage, GetBlock;
    if results != [] && results[0].Got? && GetBlock2(results[0].rsp).Some? {
      var b, rest := GetBlock2(results[0].rsp).value, results[1..];
      var data' := data + results[0].rsp.payload;
      if b.more {
        var q := FetchLoop(FetchMessage(msg, block, size), data', block + 1, b.size, rest);
        FetchEndsWithLastReply(FetchMessage(msg, block, size), data', block + 1, b.size, rest);
        if q.outcome.Done? {
          assert results[..|q.sent| + 1][1..] == rest[..|q.sent|];
          assert data' + Payloads(rest[..|q.sent|]) == data + Payloads(results[..|q.sent| + 1]);
        }
      } else {
        assert results[..1][1..] == [];
        assert data + (results[0].rsp.payload + []) == data';
      }
    }
  }

  function Payloads(results: seq<SendResult>): Bytes {
    if results == [] then []
    else (if results[0].Got? then results[0].rsp.payload else []) + Payloads(results[1..])
  }

  // ----- The whole of Send -----

  lemma FirstPhaseKeepsRequest(msg: Msg, results: seq<SendResult>)
    ensures var p := FirstPhase(msg, results);
            && (forall m <- p.sent :: SameRequest(m, msg)) && SameRequest(p.msg, msg)
  {
    hide NeedsBlocks, UploadLoop, Measured, SameRequest;
    MeasuredIsSame(msg);
    if NeedsBlocks(msg) {
      var p := UploadLoop(Measured(msg), msg.payload, 0, msg.blockSize, results);
      UploadKeepsRequest(Measured(msg), msg.payload, 0, msg.blockSize, results);
      forall m | m in p.sent || m == p.msg
        ensures SameRequest(m, msg)
      {
        SameTwice(m, Measured(msg), msg);
      }
    }
  }

  /** Whatever the replies, every message sent has the request's header and its other options. */
  lemma SendKeepsRequest(msg: Msg, results: seq<SendResult>)
    ensures forall m <- SendAll(msg, results).sent :: SameRequest(m, msg)
  {
    hide FirstPhase, GetBlock, FetchLoop, SameRequest, AsksFor;
    FirstPhaseKeepsRequest(msg, results);
    var p := FirstPhase(msg, results);
    if p.outcome.Done? && p.outcome.rsp.Some? && !IsComplete(p.outcome.rsp.value) {
      var rsp := p.outcome.rsp.value;
      var next := WithBlock1(p.msg, None).(payload := []);
      var q := FetchLoop(next, rsp.payload, 1, GetBlock2(rsp).value.size, p.rest);
      WithoutBlock1(p.msg);
      FetchAsksInOrder(next, rsp.payload, 1, GetBlock2(rsp).value.size, p.rest);
      forall i | 0 <= i < |q.sent|
        ensures SameRequest(q.sent[i], msg)
      {
        AskerIsSame(q.sent[i], next, 1 + i, AskedSize(GetBlock2(rsp).value.size, p.rest, i));
        SameTwice(q.sent[i], next, p.msg);
        SameTwice(q.sent[i], p.msg, msg);
      }
    }
  }

  lemma WithoutBlock1(msg: Msg)
    ensures var next := WithBlock1(msg, None).(payload := []);
            SameRequest(next, msg) && Only(next.opts, BLOCK1) == [] && next.payload == []
  {
    WithReplaces(msg.opts, BLOCK1, Blob([]));
    OnlyMinus(msg.opts, BLOCK1, BLOCK1);
  }

  lemma AskerIsSame(m: Msg, msg: Msg, num: nat, size: nat)
    requires AsksFor(m, msg, num, size)
    ensures SameRequest(m, msg) && m.payload == msg.payload && Only(m.opts, BLOCK1) == Only(msg.opts, BLOCK1)
    ensures GetBlock2(m) == Some(Block(num % 0x10_0000, false, NamedSize(size)))
  {
  }

  /**
   * If the response comes in blocks, `Send` goes on with requests without a payload and without
   * Block1 for block 1, 2, 3 and so on, each at the size of the block before it.
   */
  lemma RestIsAskedFor(msg: Msg, results: seq<SendResult>, rsp: Msg)
    requires FirstPhase(msg, results).outcome == Done(Some(rsp)) && !IsComplete(rsp)
    ensures var p, all := FirstPhase(msg, results), SendAll(msg, results).sent;
            && |all| >= |p.sent| && all[..|p.sent|] == p.sent
            && forall i | |p.sent| <= i < |all| ::
                 var k := i - |p.sent|;
                 && all[i].payload == [] && Only(all[i].opts, BLOCK1) == [] && k <= |p.rest|
                 && GetBlock2(all[i])
                    == Some(Block((1 + k) % 0x10_0000, false, NamedSize(AskedSize(GetBlock2(rsp).value.size, p.rest, k))))
  {
    hide FirstPhase, GetBlock, FetchLoop, SameRequest, AsksFor, NamedSize, AskedSize;
    var p, size := FirstPhase(msg, results), GetBlock2(rsp).value.size;
    var next := WithBlock1(p.msg, None).(payload := []);
    WithoutBlock1(p.msg);
    FetchAsksInOrder(next, rsp.payload, 1, size, p.rest);
    var q := FetchLoop(next, rsp.payload, 1, size, p.rest);
    forall k | 0 <= k < |q.sent|
      ensures q.sent[k].payload == [] && Only(q.sent[k].opts, BLOCK1) == []
      ensures GetBlock2(q.sent[k]) == Some(Block((1 + k) % 0x10_0000, false, NamedSize(AskedSize(size, p.rest, k))))
    {
      AskerIsSame(q.sent[k], next, 1 + k, AskedSize(size, p.rest, k));
    }
  }
}
