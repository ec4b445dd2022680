/**
 * What the peer gets from `handleMessage` (handler.go:20-218, handler_confirmable.go,
 * handler_notify.go, blockwise.go:150-182): the callback's answer whole or its first block,
 * further blocks, and the server's own answers.
 */
module Responses {
  import opened Basics
  import opened Options
  import opened StableSort
  import opened Messages
  import opened Codec
  import opened Paths
  import opened Blocks
  import opened MessageObject
  import opened BlockCache
  import opened Handler
  import Dedup
  import Pending

  // ----- The callback's answer -----

  /** The callback's answer with the request's Block1 option echoed in it. */
  function Echoed(rsp: Msg, block1: Option<Block>): Msg {
    if block1.Some? then WithBlock1(rsp, block1) else rsp
  }

  /** An acknowledgement for a non-confirmable request is sent as a non-confirmable message. */
  function SentType(req: Msg, rsp: Msg): byte {
    if req.mtype == 1 && rsp.mtype == 2 then 1 else rsp.mtype
  }

  /** The header and the options of the answer, but for the block options and sizes. */
  ghost predicate SameHead(out: Msg, rsp: Msg) {
    && out.code == rsp.code
    && forall id: byte :: id != BLOCK1 && id != BLOCK2 && id != SIZE2 ==> Only(out.opts, id) == Only(rsp.opts, id)
  }

  /** The Block1 option of the answer: the one echoed, else the callback's own. */
  ghost predicate EchoesBlock1(out: Msg, rsp: Msg, block1: Option<Block>) {
    if block1.None? then Only(out.opts, BLOCK1) == Only(rsp.opts, BLOCK1)
    else Only(out.opts, BLOCK1) == [Opt(BLOCK1, Blob(EncodeBlock(block1.value)))] && (Encodes(block1) ==> GetBlock1(out) == block1)
  }

  lemma EchoedOptions(rsp: Msg, block1: Option<Block>)
    ensures var m := Echoed(rsp, block1);
            && m == rsp.(opts := m.opts) && EchoesBlock1(m, rsp, block1)
            && forall id: byte :: id != BLOCK1 ==> Only(m.opts, id) == Only(rsp.opts, id)
  {
    hide EncodeBlock, DecodeBlock;
    if block1.Some? {
      WithReplaces(rsp.opts, BLOCK1, Blob(EncodeBlock(block1.value)));
      WithBlockReads(rsp.opts, BLOCK1, block1);
    }
  }

  lemma MeasuredOptions(m: Msg)
    ensures Measured(m) == m.(opts := Measured(m).opts)
    ensures forall id: byte :: Only(Measured(m).opts, id) == Only(m.opts, id)
  {
    SortIsStable(m.opts);
  }

  lemma TypeKeepsLength(m: Msg, t: byte)
    ensures |Encode(m.(mtype := t))| == |Encode(m)|
  {
    SortIsStable(m.opts);
  }

  /** The message that is measured is too long exactly if the answer does not fit. */
  lemma FitsIsMeasured(rsp: Msg, block1: Option<Block>, t: byte)
    ensures NeedsBlocks(Echoed(rsp.(mtype := t), block1)) <==> !FitsInOne(Echoed(rsp, block1))
  {
    EchoedOptions(rsp, block1);
    EchoedOptions(rsp.(mtype := t), block1);
    assert Echoed(rsp.(mtype := t), block1) == Echoed(rsp, block1).(mtype := t);
    TypeKeepsLength(Echoed(rsp, block1), t);
    BlocksUnlessItFits(Echoed(rsp, block1).(mtype := t));
    hide Encode, Echoed, NeedsBlocks;
  }

  /** The answer as it is sent if it fits: as the callback gave it, with Block1 echoed, and saved for duplicates. */
  ghost predicate SentWhole(st: State, call: Call, rsp: Msg, st': State, out: Msg) {
    && out.mtype == SentType(call.req, rsp) && out.token == rsp.token && out.mid == rsp.mid && out.payload == rsp.payload
    && SameHead(out, rsp) && EchoesBlock1(out, rsp, call.block1)
    && Only(out.opts, BLOCK2) == Only(rsp.opts, BLOCK2) && Only(out.opts, SIZE2) == Only(rsp.opts, SIZE2)
    && st' == SaveAnswer(st, call.entry, out)
  }

  /** The block size for an answer that does not fit: its own, else the request's, else the configured one. */
  function AnswerBlockSize(call: Call, rsp: Msg, cfg: Config): nat {
    if rsp.blockSize > 0 then rsp.blockSize else if call.req.blockSize > 0 then call.req.blockSize else cfg.defaultBlock
  }

  /** The message is block `num` of a payload, marked with its number and size and with More if bytes remain. */
  ghost predicate CarriesBlock(out: Msg, payload: Bytes, num: nat, size: nat) {
    && num * size <= |payload|
    && out.payload == payload[num * size..Min(num * size + size, |payload|)]
    && (num < 0x10_0000 && LegalSize(size) ==> GetBlock2(out) == Some(Block(num, num * size + size < |payload|, size)))
  }

  /** ... as block `num` of it, with all of it cached under the request's key. */
  ghost predicate SentInBlocks(st: State, call: Call, rsp: Msg, num: nat, size: nat, now: int, cfg: Config, st': State, out: Msg) {
    var key := BlockKey(call.req);
    && out.mtype == SentType(call.req, rsp) && out.token == call.req.token && out.mid == call.req.mid
    && CarriesBlock(out, rsp.payload, num, size) && SameHead(out, rsp)
    && (if num == 0 then EchoesBlock1(out, rsp, call.block1) && Only(out.opts, SIZE2) == [Opt(SIZE2, Number(GoInt, |rsp.payload|))]
        else Only(out.opts, BLOCK1) == [])
    && key in st'.cache && st'.cache - {key} == st.cache - {key}
    && st'.cache[key].rsp.payload == rsp.payload && SameHead(st'.cache[key].rsp, rsp)
    && st'.cache[key].last == 0 && st'.cache[key].expires == now + cfg.blockTimeout
    && st' == SaveAnswer(st.(cache := st'.cache), call.entry, out)
  }

  lemma FinishWhole(st: State, call: Call, rsp: Msg, now: int, cfg: Config)
    requires !NeedsBlocks(Echoed(rsp, call.block1))
    ensures var (st', out) := Finish(st, call, Some(rsp), now, cfg);
            && out.Some? && out.value == rsp.(opts := out.value.opts) && EchoesBlock1(out.value, rsp, call.block1)
            && (forall id: byte :: id != BLOCK1 ==> Only(out.value.opts, id) == Only(rsp.opts, id))
            && st' == SaveAnswer(st, call.entry, out.value)
  {
    hide NeedsBlocks, WithBlock1, SaveAnswer, StoreAndServe;
    var marked := Echoed(rsp, call.block1);
    EchoedOptions(rsp, call.block1);
    MeasuredOptions(marked);
    SameOnlySameBlock(Measured(marked).opts, marked.opts, BLOCK1);
    hide Measured;
  }

  /** An answer that fits is sent as the callback gave it. */
  lemma WholeAnswer(st: State, call: Call, rsp: Msg, now: int, cfg: Config)
    requires FitsInOne(Echoed(rsp, call.block1))
    ensures var (st', out) := Complete(st, call, Some(rsp), now, cfg);
            out.Some? && SentWhole(st, call, rsp, st', out.value)
  {
    hide Finish, FitsInOne, NeedsBlocks, SaveAnswer, Echoed;
    var t := SentType(call.req, rsp);
    FitsIsMeasured(rsp, call.block1, t);
    FinishWhole(st, call, rsp.(mtype := t), now, cfg);
    assert rsp.mtype == t ==> rsp.(mtype := t) == rsp;
  }

  /** What storing an answer and serving one block of it gives. */
  lemma StoredAndServed(st: State, call: Call, m: Msg, size: nat, now: int, cfg: Config)
    ensures var num := if call.block2.Some? then call.block2.value.num else 0;
            var (st', out) := StoreAndServe(st, call, m, size, now, cfg);
            var key := BlockKey(call.req);
            && st'.cache == st.cache[key := CacheEntry(m, 0, now + cfg.blockTimeout)] && st' == st.(cache := st'.cache)
            && out == if num * size <= |m.payload| then Serve(m, call.req, num, size)
                      else MakeReply(call.req, CODE_INTERNAL_SERVER_ERROR, [])
  {
    hide BlockKey, Serve;
  }

  lemma ServedAnswer(m: Msg, req: Msg, num: nat, size: nat)
    requires num * size <= |m.payload|
    ensures var out := Serve(m, req, num, size);
            && out.mtype == m.mtype && out.token == req.token && out.mid == req.mid
            && CarriesBlock(out, m.payload, num, size) && SameHead(out, m)
            && Only(out.opts, BLOCK1) == (if num == 0 then Only(m.opts, BLOCK1) else [])
            && (num == 0 ==> Only(out.opts, SIZE2) == [Opt(SIZE2, Number(GoInt, |m.payload|))])
  {
    ServedOptions(m, req, num, size);
    if num < 0x10_0000 && LegalSize(size) { ServedBlock(m, req, num, size); }
    hide WithBlock1, WithBlock2, WithSize2, GetBlock2;
  }

  /** The tail of `handleMessage` for an answer that is too long. */
  lemma FinishInBlocks(st: State, call: Call, rsp: Msg, now: int, cfg: Config)
    requires NeedsBlocks(Echoed(rsp, call.block1))
    ensures var m := Measured(Echoed(rsp, call.block1));
            var (st1, served) := StoreAndServe(st, call, m, AnswerBlockSize(call, rsp, cfg), now, cfg);
            Finish(st, call, Some(rsp), now, cfg) == (SaveAnswer(st1, call.entry, served), Some(served))
  {
    hide NeedsBlocks, WithBlock1, SaveAnswer, StoreAndServe, Measured;
  }

  /** A cached answer is the callback's, but for Block1. */
  lemma CachedAnswer(rsp: Msg, block1: Option<Block>)
    ensures var m := Measured(Echoed(rsp, block1));
            && m == rsp.(opts := m.opts) && SameHead(m, rsp) && EchoesBlock1(m, rsp, block1)
  {
    var marked := Echoed(rsp, block1);
    EchoedOptions(rsp, block1);
    MeasuredOptions(marked);
    SameOnlySameBlock(Measured(marked).opts, marked.opts, BLOCK1);
    hide Measured, Echoed;
  }

  /** From the served block over the cached answer to the callback's. */
  lemma HeadCarries(out: Msg, m: Msg, sent: Msg, rsp: Msg, block1: Option<Block>)
    requires SameHead(out, m) && SameHead(m, sent) && EchoesBlock1(m, sent, block1) && sent == rsp.(mtype := sent.mtype)
    ensures SameHead(m, rsp) && SameHead(out, rsp)
    ensures Only(out.opts, BLOCK1) == Only(m.opts, BLOCK1) ==> EchoesBlock1(out, rsp, block1)
  {
    if Only(out.opts, BLOCK1) == Only(m.opts, BLOCK1) { SameOnlySameBlock(out.opts, m.opts, BLOCK1); }
  }

  /** An answer that does not fit is cached whole, and its first block is sent, or the one asked for. */
  lemma AnswerInBlocks(st: State, call: Call, rsp: Msg, now: int, cfg: Config)
    requires !FitsInOne(Echoed(rsp, call.block1))
    ensures var num := if call.block2.Some? then call.block2.value.num else 0;
            var size := AnswerBlockSize(call, rsp, cfg);
            var (st', out) := Complete(st, call, Some(rsp), now, cfg);
            && out.Some?
            && if num * size <= |rsp.payload| then SentInBlocks(st, call, rsp, num, size, now, cfg, st', out.value)
               else out.value.code == 160 && out.value.token == call.req.token && out.value.mid == call.req.mid && out.value.payload == []
  {
    hide Finish, FitsInOne, NeedsBlocks, Echoed, Measured, StoreAndServe, Serve, BlockKey, LegalSize, EchoesBlock1, SameHead;
    var num := if call.block2.Some? then call.block2.value.num else 0;
    var sent := rsp.(mtype := SentType(call.req, rsp));
    assert rsp.mtype == sent.mtype ==> sent == rsp;
    FitsIsMeasured(rsp, call.block1, sent.mtype);
    FinishInBlocks(st, call, sent, now, cfg);
    var m := Measured(Echoed(sent, call.block1));
    CachedAnswer(sent, call.block1);
    StoredAndServed(st, call, m, AnswerBlockSize(call, rsp, cfg), now, cfg);
    if num * AnswerBlockSize(call, rsp, cfg) <= |rsp.payload| {
      ServedAnswer(m, call.req, num, AnswerBlockSize(call, rsp, cfg));
      var out := Serve(m, call.req, num, AnswerBlockSize(call, rsp, cfg));
      HeadCarries(out, m, sent, rsp, call.block1);
      var key, e := BlockKey(call.req), CacheEntry(m, 0, now + cfg.blockTimeout);
      assert st.cache[key := e] - {key} == st.cache - {key};
    }
  }

  // ----- What a new message gets -----

  /** A confirmable or non-confirmable message with a request code that is no duplicate. */
  ghost predicate IsNewRequest(st: State, req: Msg) {
    (req.mtype == 0 || req.mtype == 1) && req.code < 10 && !Dedup.Recorded(st.dedup, req.addr, req.mid)
  }

  /** The server after the message has been recorded. */
  function Recorded(st: State, req: Msg, now: int, cfg: Config): State {
    st.(dedup := Dedup.Deduplicate(st.dedup, req.addr, req.mid, now, cfg.expiration).0)
  }

  /** The request as the callback sees it: the block size comes from Block1. */
  function AsSeen(req: Msg): Msg {
    if GetBlock1(req).Some? then req.(blockSize := GetBlock1(req).value.size) else req
  }

  function CallOf(st: State, req: Msg): Call {
    Call(AsSeen(req), Some(|st.dedup.entries|), GetBlock1(req), None)
  }

  /** Neither part of an upload of several blocks nor a request for a block. */
  predicate IsOneBlock(req: Msg) {
    GetBlock2(req) == None && (GetBlock1(req).Some? ==> GetBlock1(req).value.num == 0 && !GetBlock1(req).value.more)
  }

  lemma NewRequestBegins(st: State, req: Msg, now: int, cfg: Config)
    requires IsNewRequest(st, req) && IsOneBlock(req) && req.code != 0
    ensures var st1, call := Recorded(st, req, now, cfg), CallOf(st, req);
            var (st2, rsp) := Complete(st1, call, Some(MakeReply(AsSeen(req), CODE_NOT_FOUND, [])), now, cfg);
            Handler.Begin(st, req, now, cfg)
            == if cfg.routed(AsSeen(req)) then Begun(st1, Invoke(call), None)
               else Begun(st2, if rsp.Some? then Answer(rsp.value) else Silent, None)
  {
    hide GetBlock, MakeReply, Complete, BlockKey, Dedup.Recorded;
  }

  /**
   * A new request with a route: the callback sees it, and its answer is sent as it is if it
   * fits and else begun with its first block; no answer, no response.
   */
  lemma RoutedRequest(st: State, req: Msg, now: int, cfg: Config, app: Msg -> Option<Msg>)
    requires IsNewRequest(st, req) && IsOneBlock(req) && req.code != 0 && cfg.routed(AsSeen(req))
    ensures var h, answer := Handle(st, req, now, cfg, app), app(AsSeen(req));
            var st1, call := Recorded(st, req, now, cfg), CallOf(st, req);
            && h.seen == Some(AsSeen(req)) && h.sent == None && (h.rsp.Some? <==> answer.Some?)
            && (answer.Some? ==>
                  if FitsInOne(Echoed(answer.value, GetBlock1(req))) then SentWhole(st1, call, answer.value, h.st, h.rsp.value)
                  else SentInBlocks(st1, call, answer.value, 0, AnswerBlockSize(call, answer.value, cfg), now, cfg, h.st, h.rsp.value))
  {
    hide Handler.Begin, Complete, GetBlock, FitsInOne, SentWhole, SentInBlocks, Recorded, IsNewRequest;
    NewRequestBegins(st, req, now, cfg);
    var st1, call, answer := Recorded(st, req, now, cfg), CallOf(st, req), app(AsSeen(req));
    if answer.Some? {
      if FitsInOne(Echoed(answer.value, call.block1)) {
        WholeAnswer(st1, call, answer.value, now, cfg);
      } else {
        AnswerInBlocks(st1, call, answer.value, now, cfg);
      }
    } else {
      NoAnswer(st1, call, now, cfg);
    }
  }

  lemma NoAnswer(st: State, call: Call, now: int, cfg: Config)
    ensures Complete(st, call, None, now, cfg) == (st, None)
  {
  }

  /** A new request without a route gets 4.04. */
  lemma UnroutedRequest(st: State, req: Msg, now: int, cfg: Config, app: Msg -> Option<Msg>)
    requires IsNewRequest(st, req) && IsOneBlock(req) && req.code != 0 && !cfg.routed(AsSeen(req))
    ensures var h := Handle(st, req, now, cfg, app);
            && h.seen == None && h.rsp.Some?
            && h.rsp.value.mtype == (if req.mtype == 0 then 2 else 1) && h.rsp.value.code == 132
            && h.rsp.value.token == req.token && h.rsp.value.mid == req.mid && h.rsp.value.payload == []
  {
    hide Handler.Begin, Complete, GetBlock, Recorded, Encode;
    NewRequestBegins(st, req, now, cfg);
    WholeAnswer(Recorded(st, req, now, cfg), CallOf(st, req), MakeReply(AsSeen(req), CODE_NOT_FOUND, []), now, cfg);
  }

  /** An empty message that asks for an answer gets a reset with its Message ID. */
  lemma Ping(st: State, req: Msg, now: int, cfg: Config, app: Msg -> Option<Msg>)
    requires IsNewRequest(st, req) && GetBlock1(req) == None && GetBlock2(req) == None && req.code == 0
    ensures var h := Handle(st, req, now, cfg, app);
            && h.seen == None && h.rsp.Some?
            && h.rsp.value == Msg(3, 0, req.mid, req.token, [], [], 0, 0, 0, [])
  {
    hide GetBlock, BlockKey, SaveAnswer, Dedup.Recorded;
  }

  /** A reset is not answered and changes nothing. */
  lemma ResetIsIgnored(st: State, req: Msg, now: int, cfg: Config, app: Msg -> Option<Msg>)
    requires req.mtype == 3
    ensures Handle(st, req, now, cfg, app) == Handled(st, None, None, None)
  {
  }

  /** The block is the first one, or follows the last one stored for the request. */
  predicate ContinuesUpload(st: State, req: Msg, num: nat) {
    num == 0 || (BlockKey(req) in st.cache && num == st.cache[BlockKey(req)].last + 1)
  }

  /**
   * A block of an upload that is followed by another gets 2.31 with its own Block1 if it starts
   * or continues the upload and 5.00 if not; the callback does not see it.
   */
  lemma UploadedBlock(st: State, req: Msg, b: Block, now: int, cfg: Config, app: Msg -> Option<Msg>) returns (out: Msg)
    requires IsNewRequest(st, req) && GetBlock1(req) == Some(b) && b.more
    ensures Handle(st, req, now, cfg, app).seen == None && Handle(st, req, now, cfg, app).rsp == Some(out)
    ensures out.mtype == 2 && out.token == req.token && out.mid == req.mid && out.payload == []
    ensures if ContinuesUpload(st, req, b.num) then out.code == 95 && GetBlock1(out) == Some(b) else out.code == 160 && out.opts == []
  {
    hide BlockKey, SaveAnswer, Dedup.Recorded, EncodeBlock, DecodeBlock;
    out := Handle(st, req, now, cfg, app).rsp.value;
    BlockOneOfRequest(req);
    WithBlockReads([], BLOCK1, Some(b));
    hide GetBlock;
  }

  lemma BlockOneOfRequest(req: Msg)
    requires GetBlock1(req).Some?
    ensures GetBlock1(req).value.num < 0x10_0000 && LegalSize(GetBlock1(req).value.size)
  {
  }

  /** The last block of an upload of which nothing is cached gets 5.00. */
  lemma LostUpload(st: State, req: Msg, now: int, cfg: Config, app: Msg -> Option<Msg>)
    requires IsNewRequest(st, req) && GetBlock1(req).Some? && !GetBlock1(req).value.more && GetBlock1(req).value.num > 0
    requires BlockKey(req) !in st.cache
    ensures var h := Handle(st, req, now, cfg, app);
            h.seen == None && h.rsp == Some(Msg(2, 160, req.mid, req.token, [], [], 0, req.blockSize, 0, []))
  {
    hide BlockKey, SaveAnswer, Dedup.Recorded, GetBlock;
  }

  /** The block asked for lies within what is cached for the request. */
  predicate IsCached(st: State, req: Msg, cached: Msg, b: Block) {
    && GetBlock1(req) == None && GetBlock2(req) == Some(b)
    && BlockKey(req) in st.cache && st.cache[BlockKey(req)].rsp == cached && b.num * b.size <= |cached.payload|
  }

  /**
   * A request for a block of a cached response is answered from the cache, whose entry starts
   * its timeout afresh; the callback does not see it.
   */
  lemma Continuation(st: State, req: Msg, cached: Msg, b: Block, now: int, cfg: Config, app: Msg -> Option<Msg>) returns (out: Msg)
    requires IsNewRequest(st, req) && IsCached(st, req, cached, b)
    ensures Handle(st, req, now, cfg, app).seen == None && Handle(st, req, now, cfg, app).rsp == Some(out)
    ensures out.mtype == cached.mtype && out.token == req.token && out.mid == req.mid
    ensures var e := st.cache[BlockKey(req)].(expires := now + cfg.blockTimeout);
            Handle(st, req, now, cfg, app).st.cache == st.cache[BlockKey(req) := e]
    ensures CarriesBlock(out, cached.payload, b.num, b.size) && b.num < 0x10_0000 && LegalSize(b.size)
    ensures SameHead(out, cached) && Only(out.opts, BLOCK1) == (if b.num == 0 then Only(cached.opts, BLOCK1) else [])
  {
    hide BlockKey, GetBlock, Serve, SaveAnswer, SameHead;
    BlockOfRequest(req);
    out := Serve(cached, req, b.num, b.size);
    ContinuationIsServed(st, req, cached, b, now, cfg);
    ServedAnswer(cached, req, b.num, b.size);
  }

  lemma BlockOfRequest(req: Msg)
    requires GetBlock2(req).Some?
    ensures GetBlock2(req).value.num < 0x10_0000 && LegalSize(GetBlock2(req).value.size)
  {
  }

  lemma ContinuationIsServed(st: State, req: Msg, cached: Msg, b: Block, now: int, cfg: Config)
    requires IsNewRequest(st, req) && IsCached(st, req, cached, b)
    ensures Handler.Begin(st, req, now, cfg).out == Answer(Serve(cached, req, b.num, b.size))
    ensures var e := st.cache[BlockKey(req)].(expires := now + cfg.blockTimeout);
            Handler.Begin(st, req, now, cfg).st.cache == st.cache[BlockKey(req) := e]
  {
    hide BlockKey, GetBlock, Serve, Dedup.Recorded;
  }

  // ----- Responses to the server's own requests -----

  /** A confirmable response with an observation is acknowledged if somebody waits for it and reset if not. */
  lemma ObservedResponse(st: State, req: Msg, now: int, cfg: Config, app: Msg -> Option<Msg>)
    requires req.mtype == 0 && req.code >= 10 && !Dedup.Recorded(st.dedup, req.addr, req.mid)
    requires GetBlock1(req) == None && GetBlock2(req) == None && First(req.opts, OBSERVE).Some?
    ensures var h := Handle(st, req, now, cfg, app);
            && h.seen == None && h.sent == None
            && h.rsp == Some(if Pending.IsAwaited(st.pending, req) then Msg(2, 0, req.mid, [], [], [], 0, 0, 0, [])
                             else Msg(3, req.code, req.mid, req.token, [], [], 0, 0, 0, []))
            && (if Pending.IsAwaited(st.pending, req) then Pending.ReferencesUsed(st.pending, h.st.pending, req) else h.st.pending == st.pending)
  {
    hide GetBlock, BlockKey, Dedup.Recorded, Pending.HandleAcknowledgement;
    Pending.AwaitedIsFound(st.pending, req);
  }

  /**
   * The first block of a confirmable separate response is acknowledged at once by an empty
   * message, under a new Message ID if its own is 0; then it is handled like any response, with
   * a reset if nobody waits for it.
   */
  lemma SeparateResponseInBlocks(st: State, req: Msg, now: int, cfg: Config, app: Msg -> Option<Msg>)
    requires req.mtype == 0 && req.code >= 10 && !Dedup.Recorded(st.dedup, req.addr, req.mid)
    requires GetBlock1(req) == None && First(req.opts, OBSERVE) == None
    requires GetBlock2(req).Some? && GetBlock2(req).value.more && GetBlock2(req).value.num == 0
    ensures var h := Handle(st, req, now, cfg, app);
            && h.seen == None && h.sent.Some? && h.rsp.Some?
            && h.sent.value.mtype == 2 && h.sent.value.code == 0 && h.sent.value.token == [] && h.sent.value.payload == []
            && h.sent.value.mid == (if req.mid != 0 then req.mid else st.pending.nextMid)
            && h.rsp.value.mid == req.mid && h.rsp.value.payload == []
            && (if Pending.IsAwaited(st.pending, req) then h.rsp.value.mtype == 2 && h.rsp.value.code == 0 && h.rsp.value.token == []
                else h.rsp.value.mtype == 3 && h.rsp.value.code == req.code && h.rsp.value.token == req.token)
  {
    hide GetBlock, BlockKey, Dedup.Recorded, Pending.HandleAcknowledgement;
    var st1 := AcknowledgeEarly(st, req).0;
    Pending.AwaitedIsFound(st1.pending, req.(blockSize := GetBlock2(req).value.size));
  }

  /** An acknowledgement somebody waits for goes to that sender, whatever blocks it carries, and is not answered. */
  lemma AwaitedAcknowledgement(st: State, req: Msg, now: int, cfg: Config, app: Msg -> Option<Msg>)
    requires req.mtype == 2 && (req.code >= 10 || GetBlock1(req) == None) && Pending.IsAwaited(st.pending, req)
    ensures var h := Handle(st, req, now, cfg, app);
            && h.seen == None && h.rsp == None && h.sent == None
            && h.st == st.(pending := Pending.HandleAcknowledgement(st.pending, req).0)
            && Pending.ReferencesUsed(st.pending, h.st.pending, req)
  {
    hide GetBlock, BlockKey, Pending.HandleAcknowledgement;
    Pending.AwaitedIsFound(st.pending, req);
  }

  /**
   * A further block of a separate response goes to the sender who waits for it, with its block
   * size; a confirmable one is then acknowledged, and a non-confirmable one nobody waits for is
   * reset.
   */
  lemma LaterBlock(st: State, req: Msg, b: Block, now: int, cfg: Config, app: Msg -> Option<Msg>)
    requires (req.mtype == 0 || req.mtype == 1) && req.code >= 10 && !Dedup.Recorded(st.dedup, req.addr, req.mid)
    requires GetBlock1(req) == None && GetBlock2(req) == Some(b) && !(b.more && b.num == 0) && First(req.opts, OBSERVE) == None
    ensures var h, awaited := Handle(st, req, now, cfg, app), Pending.IsAwaited(st.pending, req);
            && h.seen == None && h.sent == None
            && h.st.pending == Pending.HandleAcknowledgement(st.pending, req.(blockSize := b.size)).0
            && (if awaited then Pending.ReferencesUsed(st.pending, h.st.pending, req) else h.st.pending == st.pending)
            && (h.rsp.Some? <==> (req.mtype == 0 <==> awaited))
            && (h.rsp.Some? && awaited ==> h.rsp.value.mtype == 2 && h.rsp.value.code == 0 && h.rsp.value.token == [])
            && (h.rsp.Some? && !awaited ==> h.rsp.value.mtype == 3 && h.rsp.value.token == req.token)
            && (h.rsp.Some? ==> h.rsp.value.mid == req.mid && h.rsp.value.payload == [])
  {
    hide GetBlock, BlockKey, Dedup.Recorded, Pending.HandleAcknowledgement;
    Pending.AwaitedIsFound(st.pending, req.(blockSize := b.size));
  }

  // ----- The key of the block cache -----

  /** Requests that agree in all but one of address, code, path and query have different keys. */
  lemma KeyTellsApart(a: Msg, b: Msg)
    requires BlockKey(a) == BlockKey(b)
    ensures a.code == b.code && PathString(a) == PathString(b) && QueryString(a) == QueryString(b) ==> a.addr == b.addr
    ensures a.addr == b.addr ==> a.code == b.code
    ensures a.addr == b.addr && QueryString(a) == QueryString(b) ==> PathString(a) == PathString(b)
    ensures a.addr == b.addr && PathString(a) == PathString(b) ==> QueryString(a) == QueryString(b)
  {
    hide PathString, QueryString;
    KeyParts(a.addr, [a.code], PathString(a), QueryString(a), b.addr, [b.code], PathString(b), QueryString(b));
  }

  lemma KeyParts(a: Bytes, c: Bytes, p: Bytes, q: Bytes, a': Bytes, c': Bytes, p': Bytes, q': Bytes)
    requires a + c + p + q == a' + c' + p' + q' && |c| == |c'| == 1
    ensures c == c' && p == p' && q == q' ==> a == a'
    ensures a == a' ==> c == c'
    ensures a == a' && q == q' ==> p == p'
    ensures a == a' && p == p' ==> q == q'
  {
    if c == c' && p == p' && q == q' { SameEnd(a + c + p, a' + c' + p', q); SameEnd(a + c, a' + c', p); SameEnd(a, a', c); }
    if a == a' {
      assert c[0] == (a + c + p + q)[|a|] && c'[0] == (a' + c' + p' + q')[|a|];
      assert c == c';
      if q == q' { SameEnd(a + c + p, a' + c' + p', q); SameStart(a + c, p, p'); }
      if p == p' { SameStart(a + c + p, q, q'); }
    }
  }

  lemma SameEnd(x: Bytes, y: Bytes, z: Bytes)
    requires x + z == y + z
    ensures x == y
  {
    assert |x| == |y|;
    assert x == (x + z)[..|x|] && y == (y + z)[..|y|];
  }

  lemma SameStart(z: Bytes, x: Bytes, y: Bytes)
    requires z + x == z + y
    ensures x == y
  {
    assert x == (z + x)[|z|..] && y == (z + y)[|z|..];
  }
}
