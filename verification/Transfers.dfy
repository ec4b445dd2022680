/**
 * One block-wise upload seen from its client: the chunk loop of `Send` (send.go:30-105) as a
 * machine that moves on one reply at a time, and what its messages look like when they arrive.
 */
module Transfers {
  import opened Basics
  import opened Options
  import opened StableSort
  import opened Messages
  import opened Codec
  import opened Paths
  import opened Blocks
  import opened BlockCache
  import opened MessageObject
  import Handler
  import HandlerFrame
  import ClientSend

  /** An upload: the client's address as the server sees it, the message given to `Send`, the block size. */
  datatype Transfer = Transfer(addr: Bytes, base: Msg, size: nat)

  function Data(t: Transfer): Bytes { t.base.payload }

  /** The number of the final chunk. */
  function LastNum(t: Transfer): nat {
    if |Data(t)| == 0 || t.size == 0 then 0 else (|Data(t)| - 1) / t.size
  }

  function Key(t: Transfer): Bytes {
    Handler.BlockKey(t.base.(addr := t.addr))
  }

  /** A confirmable request that the codec can carry. */
  ghost predicate Sound(t: Transfer) {
    t.base.mtype == CONFIRMABLE && IsRequest(t.base) && WellFormed(t.base)
  }

  /** ... and a legal block size. */
  ghost predicate Proper(t: Transfer) {
    Sound(t) && LegalSize(t.size)
  }

  lemma SizeIsPositive(t: Transfer)
    requires Proper(t)
    ensures t.size > 0
  {
  }

  /** The chunks up to the final one lie within the data, and only the final one has More clear. */
  lemma ChunkNumbers(t: Transfer, num: nat)
    requires Proper(t) && num <= LastNum(t)
    ensures num * t.size <= |Data(t)|
    ensures ClientSend.MoreChunks(Data(t), num, t.size) <==> num < LastNum(t)
    ensures num < LastNum(t) ==> (num + 1) * t.size <= |Data(t)|
  {
    SizeIsPositive(t);
    hide Proper;
    if |Data(t)| > 0 {
      var n := |Data(t)| - 1;
      var q := n / t.size;
      assert n == q * t.size + n % t.size;
      Monotone(num, q, t.size);
      if num < q { Monotone(num + 1, q, t.size); }
      assert (num + 1) * t.size == num * t.size + t.size;
    } else {
      assert num * t.size == 0;
    }
  }

  lemma Monotone(a: nat, b: nat, s: nat)
    requires a <= b
    ensures a * s <= b * s
  {
  }

  // ----- The client's machine -----

  /**
   * `Ready` to send chunk `num`, `Waiting` for the reply to it; then `Asking` for block `block`
   * of the response, `Fetching` it; or `Stopped`, with a result or an error.
   */
  datatype Phase =
    | Ready(num: nat, size: nat, msg: Msg)
    | Waiting(num: nat, size: nat, msg: Msg)
    | Asking(block: nat, size: nat, msg: Msg)
    | Fetching(block: nat, msg: Msg)
    | Stopped

  function Begin(t: Transfer): Phase {
    Ready(0, t.size, Measured(t.base))
  }

  /** The reply to the final chunk. */
  function AfterUpload(msg: Msg, rsp: Msg): Phase {
    match GetBlock2(rsp)
    case None => Stopped
    case Some(b) => if b.more then Asking(1, b.size, WithBlock1(msg, None).(payload := [])) else Stopped
  }

  function OnReply(t: Transfer, num: nat, size: nat, msg: Msg, rsp: Msg): Phase {
    var more := ClientSend.MoreChunks(Data(t), num, size);
    if more && rsp.code != CODE_CONTINUE then Stopped
    else match GetBlock1(rsp)
      case None => Stopped
      case Some(echo) => if more then Ready(ClientSend.NextNum(num, size, echo), echo.size, msg) else AfterUpload(msg, rsp)
  }

  function OnBlock(block: nat, msg: Msg, rsp: Msg): Phase {
    match GetBlock2(rsp)
    case None => Stopped
    case Some(b) => if b.more then Asking(block + 1, b.size, msg) else Stopped
  }

  /** The machine is the loop of `Send`: one reply moves it exactly as it moves the loop. */
  lemma MachineIsSend(t: Transfer, num: nat, size: nat, msg: Msg, rsp: Msg, rest: seq<ClientSend.SendResult>)
    requires num * size <= |Data(t)|
    ensures var m := ClientSend.ChunkMessage(msg, Data(t), num, size);
            var p := ClientSend.UploadLoop(msg, Data(t), num, size, [ClientSend.Got(rsp)] + rest);
            var next := OnReply(t, num, size, m, rsp);
            && (next.Ready? ==>
                  p == ClientSend.Prepend(m, ClientSend.UploadLoop(next.msg, Data(t), next.num, next.size, rest)))
            && (next.Asking? ==> p.outcome == ClientSend.Done(Some(rsp)))
            && (!next.Ready? ==> p.sent == [m] && p.rest == rest)
  {
    assert ([ClientSend.Got(rsp)] + rest)[1..] == rest;
    hide ClientSend.ChunkMessage, GetBlock, ClientSend.NextNum;
  }

  /** So is the second phase: one reply moves it exactly as it moves the loop that asks for blocks. */
  lemma MachineIsFetch(block: nat, size: nat, msg: Msg, data: Bytes, rsp: Msg, rest: seq<ClientSend.SendResult>)
    ensures var m := ClientSend.FetchMessage(msg, block, size);
            var p := ClientSend.FetchLoop(msg, data, block, size, [ClientSend.Got(rsp)] + rest);
            var next := OnBlock(block, m, rsp);
            && (next.Asking? ==>
                  p == ClientSend.Prepend(m, ClientSend.FetchLoop(next.msg, data + rsp.payload, next.block, next.size, rest)))
            && (!next.Asking? ==> p.sent == [m] && p.rest == rest)
            && (p.outcome.Done? && !next.Asking? ==> p.outcome == ClientSend.Done(Some(rsp.(payload := data + rsp.payload))))
  {
    assert ([ClientSend.Got(rsp)] + rest)[1..] == rest;
    hide ClientSend.FetchMessage, GetBlock;
  }

  /** And the machine enters the second phase exactly when `Send` does, at the same block. */
  lemma MachineStartsFetch(msg: Msg, results: seq<ClientSend.SendResult>, rsp: Msg)
    requires ClientSend.FirstPhase(msg, results).outcome == ClientSend.Done(Some(rsp))
    ensures var p := ClientSend.FirstPhase(msg, results);
            var next := AfterUpload(p.msg, rsp);
            ClientSend.SendAll(msg, results)
            == if next.Asking?
               then ClientSend.After(p.sent, ClientSend.FetchLoop(next.msg, rsp.payload, next.block, next.size, p.rest))
               else p
  {
    if AfterUpload(ClientSend.FirstPhase(msg, results).msg, rsp).Asking? {
      ClientSend.SendGoesOn(msg, results, rsp, GetBlock2(rsp).value);
    }
    hide ClientSend.FirstPhase, ClientSend.FetchLoop, WithBlock1, GetBlock;
  }

  /** An echoed Continue leads to the next chunk at the same size. */
  lemma ContinueMovesOn(t: Transfer, num: nat, msg: Msg, rsp: Msg)
    requires Proper(t) && num < LastNum(t)
    requires rsp.code == CODE_CONTINUE && GetBlock1(rsp) == Some(Block(num, true, t.size))
    ensures OnReply(t, num, t.size, msg, rsp) == Ready(num + 1, t.size, msg)
  {
    ChunkNumbers(t, num);
    hide LastNum, Proper, GetBlock1, ClientSend.MoreChunks;
  }

  // ----- What arrives -----

  /** A datagram from `from` as the receiver reads it. */
  function Arrived(m: Msg, from: Bytes): Option<Msg> {
    match Parse(Encode(m))
    case Err(_) => None
    case Ok(p) => Some(p.(addr := from))
  }

  /** A message the client may be working on: the one given to `Send` but for its body and block options. */
  ghost predicate Derived(t: Transfer, m: Msg) {
    && m.mtype == t.base.mtype && m.code == t.base.code && m.token == t.base.token && AllLegal(m.opts)
    && Only(m.opts, URI_PATH) == Only(t.base.opts, URI_PATH)
    && Only(m.opts, URI_QUERY) == Only(t.base.opts, URI_QUERY)
  }

  /** ... with no Block1 option, as in the requests for the rest of the response. */
  ghost predicate Unblocked(t: Transfer, m: Msg) {
    Derived(t, m) && Only(m.opts, BLOCK1) == []
  }

  /** The server's view of something the client sent. */
  ghost predicate IsFrom(t: Transfer, m: Msg) {
    && m.addr == t.addr && m.mtype == CONFIRMABLE && IsRequest(m) && m.token == t.base.token && |m.token| <= 8
    && Handler.BlockKey(m) == Key(t)
  }

  ghost predicate IsChunk(t: Transfer, num: nat, m: Msg)
    requires num * t.size <= |Data(t)|
  {
    && IsFrom(t, m) && m.payload == Slice(Data(t), num, t.size)
    && GetBlock1(m) == Some(Block(num, ClientSend.MoreChunks(Data(t), num, t.size), t.size))
  }

  ghost predicate IsFetch(t: Transfer, m: Msg) {
    IsFrom(t, m) && GetBlock1(m) == None
  }

  lemma BaseIsDerived(t: Transfer)
    requires Sound(t)
    ensures Derived(t, Measured(t.base))
  {
    SortIsStable(t.base.opts);
    SortMembers(t.base.opts);
  }

  lemma WithSizeLegal(opts: seq<Opt>, size: nat)
    requires AllLegal(opts)
    ensures AllLegal(With(opts, SIZE1, Number(GoInt, size)))
  {
    MinusMembers(opts, SIZE1);
  }

  /** A chunk of the upload: its number is written modulo 2^20, its size as 16 if it is not legal. */
  lemma ChunkIsDerived(t: Transfer, m: Msg, num: nat, size: nat)
    requires Sound(t) && Derived(t, m) && num * size <= |Data(t)|
    ensures var c := ClientSend.ChunkMessage(m, Data(t), num, size);
            && Derived(t, c) && c.payload == Slice(Data(t), num, size)
            && GetBlock1(c) == Some(Block(num % MAX_BLOCKS, ClientSend.MoreChunks(Data(t), num, size), ClientSend.NamedSize(size)))
            && Only(c.opts, BLOCK2) == Only(m.opts, BLOCK2)
  {
    ClientSend.ChunkBlock(m, Data(t), num, size);
    var block := Some(Block(num, ClientSend.MoreChunks(Data(t), num, size), size));
    WithBlockReads(m.opts, BLOCK1, block);
    WithBlockLegal(m.opts, BLOCK1, block);
    var opts := WithBlock(m.opts, BLOCK1, block);
    WithReplaces(opts, SIZE1, Number(GoInt, |Data(t)|));
    WithSizeLegal(opts, |Data(t)|);
  }

  /** Dropping Block1 leaves a message for the second phase, and so does asking for a block. */
  lemma FetchIsUnblocked(t: Transfer, m: Msg, block: nat, size: nat)
    requires Derived(t, m)
    ensures Unblocked(t, WithBlock1(m, None).(payload := []))
    ensures Unblocked(t, m) ==> Unblocked(t, ClientSend.FetchMessage(m, block, size))
  {
    WithReplaces(m.opts, BLOCK1, Blob([]));
    OnlyMinus(m.opts, BLOCK1, BLOCK1);
    WithBlockLegal(m.opts, BLOCK1, None);
    WithBlockReads(m.opts, BLOCK2, Some(Block(block, false, size)));
    WithBlockLegal(m.opts, BLOCK2, Some(Block(block, false, size)));
  }

  /** Whatever the client sends arrives under the transfer's key and token, with its blocks. */
  lemma DerivedArrives(t: Transfer, m: Msg, mid: uint16)
    requires Sound(t) && Derived(t, m)
    ensures var a := Arrived(m.(mid := mid), t.addr);
            && a.Some? && IsFrom(t, a.value) && a.value.mid == mid && a.value.code == t.base.code && a.value.payload == m.payload
            && GetBlock1(a.value) == GetBlock1(m) && GetBlock2(a.value) == GetBlock2(m)
  {
    var sent := m.(mid := mid);
    RoundTrip(sent);
    WireKeepsBlocks(sent);
    WireKeepsOptions(sent, URI_PATH);
    WireKeepsOptions(sent, URI_QUERY);
    hide Encode, Parse, GetBlock, Only, Texts, Join, AllLegal;
  }

  lemma ChunkArrives(t: Transfer, m: Msg, num: nat, mid: uint16)
    requires Proper(t) && Derived(t, m) && num < MAX_BLOCKS && num * t.size <= |Data(t)|
    ensures var c := ClientSend.ChunkMessage(m, Data(t), num, t.size);
            var a := Arrived(c.(mid := mid), t.addr);
            Derived(t, c) && a.Some? && IsChunk(t, num, a.value) && a.value.mid == mid
  {
    assert num % MAX_BLOCKS == num && ClientSend.NamedSize(t.size) == t.size;
    hide Sound, Derived, Arrived, ClientSend.ChunkMessage, ClientSend.MoreChunks, GetBlock, Slice;
    ChunkIsDerived(t, m, num, t.size);
    DerivedArrives(t, ClientSend.ChunkMessage(m, Data(t), num, t.size), mid);
  }

  /** What the server reads of a chunk of any size. */
  lemma ChunkReads(t: Transfer, m: Msg, num: nat, size: nat, mid: uint16) returns (a: Msg)
    requires Sound(t) && Derived(t, m) && Only(m.opts, BLOCK2) == [] && num * size <= |Data(t)|
    ensures Arrived(ClientSend.ChunkMessage(m, Data(t), num, size).(mid := mid), t.addr) == Some(a)
    ensures IsFrom(t, a) && a.code == t.base.code && a.mid == mid && a.payload == Slice(Data(t), num, size)
    ensures GetBlock1(a) == Some(Block(num % MAX_BLOCKS, ClientSend.MoreChunks(Data(t), num, size), ClientSend.NamedSize(size)))
    ensures GetBlock2(a) == None
  {
    var c := ClientSend.ChunkMessage(m, Data(t), num, size);
    ChunkIsDerived(t, m, num, size);
    FirstIsFirstOnly(c.opts, BLOCK2);
    DerivedArrives(t, c, mid);
    a := Arrived(c.(mid := mid), t.addr).value;
    hide Sound, Derived, Arrived, IsFrom, ClientSend.ChunkMessage, ClientSend.MoreChunks, GetBlock1, Only, Slice;
  }

  lemma FetchArrives(t: Transfer, m: Msg, block: nat, size: nat, mid: uint16)
    requires Sound(t) && Unblocked(t, m)
    ensures var f := ClientSend.FetchMessage(m, block, size);
            var a := Arrived(f.(mid := mid), t.addr);
            Unblocked(t, f) && a.Some? && IsFetch(t, a.value) && a.value.mid == mid
  {
    FetchIsUnblocked(t, m, block, size);
    var f := ClientSend.FetchMessage(m, block, size);
    DerivedArrives(t, f, mid);
    FirstIsFirstOnly(f.opts, BLOCK1);
    hide Derived, Arrived, ClientSend.FetchMessage;
  }

  /** A reply with a 2-bit type and a short token is read, if at all, under the same code and token. */
  lemma ReplyHeaderArrives(m: Msg, from: Bytes)
    requires m.mtype <= 3 && |m.token| <= 8 && Arrived(m, from).Some?
    ensures Arrived(m, from).value.code == m.code && Arrived(m, from).value.token == m.token
  {
    HeaderThenBody(m);
    HeaderIsRead(m, EncodeBody(m));
    hide Encode, EncodeHeader, EncodeBody, Parse;
  }

  /** The server's Continue arrives with the block it acknowledges, its failure with none. */
  lemma ServerReplyArrives(req: Msg, from: Bytes)
    requires |req.token| <= 8 && GetBlock1(req).Some?
    ensures var a := Arrived(HandlerFrame.ContinueFor(req), from);
            a.Some? && a.value.code == CODE_CONTINUE && GetBlock1(a.value) == GetBlock1(req) && GetBlock2(a.value) == None
    ensures var a := Arrived(HandlerFrame.FailureFor(req), from);
            a.Some? && a.value.code != CODE_CONTINUE && GetBlock1(a.value) == None && GetBlock2(a.value) == None
  {
    var yes, no := HandlerFrame.ContinueFor(req), HandlerFrame.FailureFor(req);
    WithBlockReads([], BLOCK1, GetBlock1(req));
    WithBlockLegal([], BLOCK1, GetBlock1(req));
    FirstIsFirstOnly(yes.opts, BLOCK2);
    RoundTrip(yes);
    RoundTrip(no);
    WireKeepsBlocks(yes);
    WireKeepsBlocks(no);
    hide Encode, Parse, DecodeBlock, EncodeBlock, First, With;
  }
}
