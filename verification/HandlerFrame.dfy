/**
 * What handling one message may touch (handler.go): its own block key, its own dedup entry,
 * and replies under its own token. Runs with many clients are reasoned about through this.
 */
module HandlerFrame {
  import opened Basics
  import opened Options
  import opened Messages
  import opened Codec
  import opened Blocks
  import opened MessageObject
  import Pending
  import opened BlockCache
  import opened Handler

  /** A type that fits the two bits of the wire. */
  predicate Typed(m: Msg) {
    m.mtype <= RESET
  }

  predicate CacheTyped(c: Cache) {
    forall k <- c :: Typed(c[k].rsp)
  }

  /** The caches agree everywhere but at `key`. */
  ghost predicate SameElsewhere(c: Cache, c': Cache, key: Bytes) {
    forall k: Bytes :: k != key ==> (k in c <==> k in c') && (k in c ==> c'[k] == c[k])
  }

  /** A reply under the request's own token, or an empty one under none. */
  predicate ReplyTo(rsp: Msg, req: Msg) {
    Typed(rsp) && (rsp.token == req.token || (rsp.code == CODE_EMPTY && rsp.token == []))
  }

  /** The handler's own replies carry the request's Message ID as well. */
  predicate Answers(rsp: Msg, req: Msg) {
    ReplyTo(rsp, req) && rsp.mid == req.mid
  }

  /** A call handed to the callback is the request, but for the payload and the block size. */
  ghost predicate CallFor(call: Call, req: Msg, entry: Option<nat>) {
    && call.req == req.(payload := call.req.payload, blockSize := call.req.blockSize)
    && call.entry == entry && call.block1 == GetBlock1(req)
    && (req.mtype == CONFIRMABLE || req.mtype == NON_CONFIRMABLE)
  }

  /** The footprint of a step that handles `req`, with its dedup entry already made. */
  ghost predicate Framed(st: State, req: Msg, entry: Option<nat>, b: Begun) {
    && SameElsewhere(st.cache, b.st.cache, BlockKey(req)) && CacheTyped(b.st.cache)
    && b.st.dedup == (if b.out.Answer? then SaveAnswer(st, entry, b.out.rsp) else st).dedup
    && (b.out.Answer? ==> Answers(b.out.rsp, req))
    && (b.out.Invoke? ==> CallFor(b.out.call, req, entry))
    && (b.sent.Some? ==> ReplyTo(b.sent.value, req))
  }

  lemma KeyIgnoresBody(req: Msg, payload: Bytes, size: nat)
    ensures BlockKey(req.(payload := payload, blockSize := size)) == BlockKey(req)
  {
  }

  lemma ServeKeepsFrame(c: Cache, key: Bytes, req: Msg, num: nat, sz: nat, now: int, timeout: int)
    requires CacheTyped(c)
    ensures var (c', m) := GetBlockAt(c, key, req, num, sz, now, timeout);
            SameElsewhere(c, c', key) && CacheTyped(c') && (m.Some? ==> Answers(m.value, req))
  {
  }

  lemma StoreFrame(st: State, call: Call, rsp: Msg, size: nat, now: int, cfg: Config)
    requires CacheTyped(st.cache) && ReplyTo(rsp, call.req)
    ensures var (st', final) := StoreAndServe(st, call, rsp, size, now, cfg);
            && SameElsewhere(st.cache, st'.cache, BlockKey(call.req)) && CacheTyped(st'.cache)
            && st'.dedup == st.dedup && Answers(final, call.req)
  {
    hide BlockKey, Serve;
    var key := BlockKey(call.req);
    var num := if call.block2.Some? then call.block2.value.num else 0;
    var stored := Put(st.cache, key, rsp, now, cfg.blockTimeout);
    ServeKeepsFrame(stored, key, call.req, num, size, now, cfg.blockTimeout);
  }

  /** The same footprint for the part after the callback. */
  ghost predicate Finished(st: State, call: Call, st': State, rsp: Option<Msg>) {
    && SameElsewhere(st.cache, st'.cache, BlockKey(call.req)) && CacheTyped(st'.cache)
    && st'.dedup == (if rsp.Some? then SaveAnswer(st, call.entry, rsp.value) else st).dedup
    && (rsp.Some? ==> ReplyTo(rsp.value, call.req))
  }

  lemma SavedFinished(st: State, call: Call, st': State, rsp: Msg)
    requires SameElsewhere(st.cache, st'.cache, BlockKey(call.req)) && CacheTyped(st'.cache)
    requires st'.dedup == st.dedup && ReplyTo(rsp, call.req)
    ensures Finished(st, call, SaveAnswer(st', call.entry, rsp), Some(rsp))
  {
    hide BlockKey;
  }

  /** The tail of `handleMessage` answers under the request's token, and stores only under its key. */
  lemma FinishFrame(st: State, call: Call, answer: Option<Msg>, now: int, cfg: Config)
    requires CacheTyped(st.cache) && (answer.Some? ==> ReplyTo(answer.value, call.req))
    ensures Finished(st, call, Finish(st, call, answer, now, cfg).0, Finish(st, call, answer, now, cfg).1)
    ensures var rsp := Finish(st, call, answer, now, cfg).1;
            rsp.Some? ==> answer.Some? && (answer.value.mid == call.req.mid ==> rsp.value.mid == call.req.mid)
  {
    if answer.Some? {
      var rsp := answer.value;
      var marked := if call.block1.Some? then WithBlock1(rsp, call.block1) else rsp;
      var echoed := Measured(marked);
      assert ReplyTo(echoed, call.req) && echoed.mid == rsp.mid;
      StoreFrame(st, call, echoed, ReplyBlockSize(call, rsp, cfg), now, cfg);
      var (st', final) := StoreAndServe(st, call, echoed, ReplyBlockSize(call, rsp, cfg), now, cfg);
      SavedFinished(st, call, st, echoed);
      SavedFinished(st, call, st', final);
      hide BlockKey, NeedsBlocks, WithBlock1, StoreAndServe, Measured, SaveAnswer, Finished, ReplyTo, ReplyBlockSize;
    }
  }

  /** The callback's answer, like any other, is sent and stored under the request's token and key. */
  lemma CompleteFrame(st: State, call: Call, answer: Option<Msg>, now: int, cfg: Config)
    requires CacheTyped(st.cache) && (answer.Some? ==> ReplyTo(answer.value, call.req))
    ensures Finished(st, call, Complete(st, call, answer, now, cfg).0, Complete(st, call, answer, now, cfg).1)
    ensures var rsp := Complete(st, call, answer, now, cfg).1;
            rsp.Some? ==> answer.Some? && (answer.value.mid == call.req.mid ==> rsp.value.mid == call.req.mid)
  {
    FinishFrame(st, call, answer, now, cfg);
    if answer.Some? {
      FinishFrame(st, call, Some(answer.value.(mtype := NON_CONFIRMABLE)), now, cfg);
    }
    hide Finish, Finished;
  }

  lemma FinishedIsFramed(st: State, call: Call, st': State, rsp: Option<Msg>)
    requires Finished(st, call, st', rsp) && (rsp.Some? ==> rsp.value.mid == call.req.mid)
    ensures Framed(st, call.req, call.entry, Begun(st', if rsp.Some? then Answer(rsp.value) else Silent, None))
  {
    hide BlockKey, SameElsewhere, CacheTyped, ReplyTo, SaveAnswer;
  }

  lemma FinishNowFrame(st: State, call: Call, answer: Option<Msg>, now: int, cfg: Config)
    requires CacheTyped(st.cache) && (answer.Some? ==> Answers(answer.value, call.req))
    ensures Framed(st, call.req, call.entry, FinishNow(st, call, answer, now, cfg))
  {
    FinishFrame(st, call, answer, now, cfg);
    var (st', rsp) := Finish(st, call, answer, now, cfg);
    FinishedIsFramed(st, call, st', rsp);
    hide Finish, Framed, Finished;
  }

  /** A footprint after a step that changed the cache under the same key only, and maybe the pending maps. */
  lemma FramedFrom(st: State, mid: State, req: Msg, entry: Option<nat>, b: Begun)
    requires Framed(mid, req, entry, b)
    requires mid.dedup == st.dedup && SameElsewhere(st.cache, mid.cache, BlockKey(req))
    ensures Framed(st, req, entry, b)
  {
    hide BlockKey, CacheTyped, ReplyTo, CallFor;
  }

  /** The footprint does not depend on the payload or the block size. */
  lemma FramedIgnoresBody(st: State, req: Msg, payload: Bytes, size: nat, entry: Option<nat>, b: Begun)
    requires Framed(st, req.(payload := payload, blockSize := size), entry, b)
    ensures Framed(st, req, entry, b)
  {
    KeyIgnoresBody(req, payload, size);
    hide BlockKey, SameElsewhere, CacheTyped, SaveAnswer;
  }

  lemma InvokeFrame(st: State, call: Call)
    requires CacheTyped(st.cache) && call.block1 == GetBlock1(call.req)
    requires call.req.mtype == CONFIRMABLE || call.req.mtype == NON_CONFIRMABLE
    ensures Framed(st, call.req, call.entry, Begun(st, Invoke(call), None))
  {
    hide BlockKey, GetBlock1;
  }

  lemma NotifyFrame(st: State, call: Call, now: int, cfg: Config)
    requires CacheTyped(st.cache) && Typed(call.req)
    ensures var (st', rsp) := Notify(st, call.req); Framed(st, call.req, call.entry, FinishNow(st', call, rsp, now, cfg))
  {
    var (st', rsp) := Notify(st, call.req);
    FinishNowFrame(st', call, rsp, now, cfg);
    FramedFrom(st, st', call.req, call.entry, FinishNow(st', call, rsp, now, cfg));
    hide Framed, FinishNow;
  }

  lemma AcknowledgedFrame(st: State, call: Call, early: Option<Msg>, now: int, cfg: Config)
    requires CacheTyped(st.cache) && (early.Some? ==> Answers(early.value, call.req))
    ensures var req := call.req;
            var (p, found) := Pending.HandleAcknowledgement(st.pending, req);
            var rsp := if found then Some(MakeReply(req, CODE_EMPTY, []).(blockSize := 0)) else early;
            Framed(st, req, call.entry, FinishNow(st.(pending := p), call, rsp, now, cfg))
  {
    var (p, found) := Pending.HandleAcknowledgement(st.pending, call.req);
    var rsp := if found then Some(MakeReply(call.req, CODE_EMPTY, []).(blockSize := 0)) else early;
    FinishNowFrame(st.(pending := p), call, rsp, now, cfg);
    FramedFrom(st, st.(pending := p), call.req, call.entry, FinishNow(st.(pending := p), call, rsp, now, cfg));
    hide Framed, FinishNow;
  }

  /** What the switch does with a call made for `req`. */
  lemma SwitchFrame(st: State, call: Call, early: Option<Msg>, now: int, cfg: Config)
    requires CacheTyped(st.cache) && call.block1 == GetBlock1(call.req) && Typed(call.req)
    requires early.Some? ==> Answers(early.value, call.req)
    ensures Framed(st, call.req, call.entry, Switch(st, call, early, now, cfg))
  {
    var req := call.req;
    var missing := Some(MakeReply(req, CODE_NOT_FOUND, []));
    FinishNowFrame(st, call, Some(ResetFor(req)), now, cfg);
    CompleteFrame(st, call, missing, now, cfg);
    FinishedIsFramed(st, call, Complete(st, call, missing, now, cfg).0, Complete(st, call, missing, now, cfg).1);
    AcknowledgedFrame(st, call, early, now, cfg);
    NotifyFrame(st, call, now, cfg);
    if req.mtype == CONFIRMABLE || req.mtype == NON_CONFIRMABLE { InvokeFrame(st, call); }
    hide Framed, Finished, FinishNow, Complete, Notify, ResetFor, MakeReply, Pending.HandleAcknowledgement, First, GetBlock1;
  }

  lemma ReplyFrame(st: State, c: Cache, req: Msg, entry: Option<nat>, rsp: Msg)
    requires SameElsewhere(st.cache, c, BlockKey(req)) && CacheTyped(c) && Answers(rsp, req)
    ensures Framed(st, req, entry, Reply(st.(cache := c), entry, rsp))
  {
    hide BlockKey, SameElsewhere, CacheTyped, ReplyTo;
  }

  /** The three ways into the switch: the block size is set first, and an early acknowledgement may go out. */
  lemma SizedSwitchFrame(st: State, mid: State, req: Msg, size: nat, entry: Option<nat>, block2: Option<Block>, early: Option<Msg>,
                         sent: Option<Msg>, now: int, cfg: Config)
    requires CacheTyped(st.cache) && Typed(req) && (early.Some? ==> Answers(early.value, req))
    requires mid == st.(pending := mid.pending) && (sent.Some? ==> ReplyTo(sent.value, req))
    ensures var call := Call(req.(blockSize := size), entry, GetBlock1(req), block2);
            var b := Switch(mid, call, early, now, cfg);
            b.sent == None && Framed(st, req, entry, b) && Framed(st, req, entry, b.(sent := sent))
            && (b.out.Invoke? ==> b.out.call == call)
  {
    var call := Call(req.(blockSize := size), entry, GetBlock1(req), block2);
    SwitchFrame(mid, call, early, now, cfg);
    var b := Switch(mid, call, early, now, cfg);
    SwitchKeepsCall(mid, call, early, now, cfg);
    FramedFrom(st, mid, call.req, entry, b);
    FramedIgnoresBody(st, req, req.payload, size, entry, b);
    hide BlockKey, SameElsewhere, CacheTyped, CallFor, Switch, GetBlock1, SaveAnswer;
  }

  lemma SwitchKeepsCall(st: State, call: Call, early: Option<Msg>, now: int, cfg: Config)
    ensures var b := Switch(st, call, early, now, cfg); b.sent == None && (b.out.Invoke? ==> b.out.call == call)
  {
    hide Complete, Finish, Notify, ResetFor, MakeReply, Pending.HandleAcknowledgement, First;
  }

  /** From the acknowledgement check on: the footprint, and the callback sees the payload as it is by now. */
  lemma AfterBlock1Frame(st: State, req: Msg, entry: Option<nat>, now: int, cfg: Config)
    requires CacheTyped(st.cache) && Typed(req)
    ensures var b := AfterBlock1(st, req, entry, GetBlock1(req), now, cfg);
            Framed(st, req, entry, b) && (b.out.Invoke? ==> b.out.call.req.payload == req.payload)
  {
    var block1, block2 := GetBlock1(req), GetBlock2(req);
    var (p, found) := if req.mtype == ACKNOWLEDGEMENT then Pending.HandleAcknowledgement(st.pending, req) else (st.pending, false);
    if found {
      assert Framed(st, req, entry, Begun(st.(pending := p), Silent, None));
    } else if block2.None? {
      SizedSwitchFrame(st, st, req, if block1.Some? then block1.value.size else req.blockSize, entry, None, None, None, now, cfg);
    } else {
      var num, size := block2.value.num, block2.value.size;
      var (cache, served) := GetBlockAt(st.cache, BlockKey(req), req, num, size, now, cfg.blockTimeout);
      ServeKeepsFrame(st.cache, BlockKey(req), req, num, size, now, cfg.blockTimeout);
      if served.Some? { ReplyFrame(st, cache, req, entry, served.value); }
      SizedSwitchFrame(st, st, req, size, entry, block2, None, None, now, cfg);
      var (st', ack) := AcknowledgeEarly(st, req);
      SizedSwitchFrame(st, st', req, size, entry, Some(block2.value.(more := false)), Some(ResetFor(req)), Some(ack), now, cfg);
    }
    hide Framed, Switch, GetBlockAt, AcknowledgeEarly, ResetFor, Pending.HandleAcknowledgement, GetBlock1, GetBlock2, BlockKey, Reply;
  }

  /** The reply to a block that was stored. */
  function ContinueFor(req: Msg): Msg {
    WithBlock1(MakeReply(req, CODE_CONTINUE, []), GetBlock1(req))
  }

  /** The reply to a block that could not be. */
  function FailureFor(req: Msg): Msg {
    MakeReply(req, CODE_INTERNAL_SERVER_ERROR, [])
  }

  predicate IsUpload(req: Msg) {
    IsRequest(req) && GetBlock1(req).Some? && !(GetBlock1(req).value.num == 0 && !GetBlock1(req).value.more)
  }

  /** The last block of an upload, put behind what is cached. */
  lemma LastBlockFrame(st: State, req: Msg, entry: Option<nat>, now: int, cfg: Config)
    requires CacheTyped(st.cache) && Typed(req) && BlockKey(req) in st.cache
    ensures var key := BlockKey(req);
            var (cache, whole) := GetWhole(st.cache, key, req, now, cfg.blockTimeout);
            var b := AfterBlock1(st.(cache := cache), req.(payload := whole.value), entry, GetBlock1(req), now, cfg);
            Framed(st, req, entry, b) && (b.out.Invoke? ==> b.out.call.req.payload == st.cache[key].rsp.payload + req.payload)
  {
    var (cache, whole) := GetWhole(st.cache, BlockKey(req), req, now, cfg.blockTimeout);
    var mid, joined := st.(cache := cache), req.(payload := whole.value);
    assert BlockKey(joined) == BlockKey(req) && GetBlock1(joined) == GetBlock1(req);
    hide BlockKey, GetBlock1, AfterBlock1;
    AfterBlock1Frame(mid, joined, entry, now, cfg);
    FramedFrom(st, mid, joined, entry, AfterBlock1(mid, joined, entry, GetBlock1(req), now, cfg));
    FramedIgnoresBody(st, req, whole.value, req.blockSize, entry, AfterBlock1(mid, joined, entry, GetBlock1(req), now, cfg));
    hide Framed;
  }

  /** A message that is not a duplicate touches its own key, its own dedup entry and its own token only. */
  lemma DispatchFrame(st: State, req: Msg, entry: Option<nat>, now: int, cfg: Config)
    requires CacheTyped(st.cache) && Typed(req)
    ensures Framed(st, req, entry, Dispatch(st, req, entry, now, cfg))
  {
    var key, timeout := BlockKey(req), cfg.blockTimeout;
    assert Answers(ContinueFor(req), req) && Answers(FailureFor(req), req);
    assert SameElsewhere(st.cache, st.cache, key);
    if IsUpload(req) {
      var b := GetBlock1(req).value;
      if b.num == 0 {
        ReplyFrame(st, Put(st.cache, key, req, now, timeout), req, entry, ContinueFor(req));
      } else if b.more {
        var (cache, ok) := Append(st.cache, key, req.payload, b.num, now, timeout);
        assert SameElsewhere(st.cache, cache, key) && CacheTyped(cache);
        ReplyFrame(st, cache, req, entry, if ok then ContinueFor(req) else FailureFor(req));
      } else if key in st.cache {
        LastBlockFrame(st, req, entry, now, cfg);
      } else {
        ReplyFrame(st, st.cache, req, entry, FailureFor(req));
      }
    } else {
      AfterBlock1Frame(st, req, entry, now, cfg);
    }
    hide Framed, AfterBlock1, GetBlock1, BlockKey, MakeReply, WithBlock1, SameElsewhere, ReplyTo, CacheTyped, Put, Append;
  }

  /**
   * The Block1 branch: block 0 starts the cached upload, a middle block extends it if it is the
   * next one, and the callback is given exactly what is cached followed by the last block.
   */
  lemma DispatchBlock(st: State, req: Msg, entry: Option<nat>, now: int, cfg: Config)
    requires CacheTyped(st.cache) && Typed(req) && IsRequest(req) && GetBlock1(req).Some?
    ensures var d := Dispatch(st, req, entry, now, cfg);
            var b := GetBlock1(req).value;
            var key := BlockKey(req);
            if b.more && b.num == 0 then
              d.sent == None && d.out == Answer(ContinueFor(req)) && d.st.cache == Put(st.cache, key, req, now, cfg.blockTimeout)
            else if b.more then
              var (cache, ok) := Append(st.cache, key, req.payload, b.num, now, cfg.blockTimeout);
              d.sent == None && d.out == Answer(if ok then ContinueFor(req) else FailureFor(req)) && d.st.cache == cache
            else if b.num == 0 then
              d.out.Invoke? ==> d.out.call.req.payload == req.payload
            else
              d.out.Invoke? ==> key in st.cache && d.out.call.req.payload == st.cache[key].rsp.payload + req.payload
  {
    var b := GetBlock1(req).value;
    if !b.more {
      if b.num == 0 {
        AfterBlock1Frame(st, req, entry, now, cfg);
      } else if BlockKey(req) in st.cache {
        LastBlockFrame(st, req, entry, now, cfg);
      }
    }
    hide Framed, AfterBlock1, GetBlock1, BlockKey, MakeReply, WithBlock1, Put, Append, SaveAnswer;
  }
}
