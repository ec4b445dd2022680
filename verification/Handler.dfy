/**
 * `handleMessage` (handler.go) as a function on the server's state, cut where the route
 * callback runs: `Begin` goes up to the callback, `Complete` takes over when it returns, so
 * that other messages can be handled in between. No observation is registered.
 */
module Handler {
  import opened Basics
  import opened Options
  import opened StableSort
  import opened Messages
  import opened Codec
  import opened Paths
  import opened Blocks
  import opened MessageObject
  import Dedup
  import Pending
  import opened BlockCache

  datatype State = State(dedup: Dedup.Table, cache: Cache, pending: Pending.State)

  /** Timeouts, the default block size, and whether `matchRoutes` finds a callback for a request. */
  datatype Config = Config(expiration: int, blockTimeout: int, defaultBlock: nat, routed: Msg -> bool)

  /** `getBlockKey`; the code stands for its name. */
  function BlockKey(m: Msg): Bytes {
    m.addr + [m.code] + PathString(m) + QueryString(m)
  }

  /** A request handed to the callback, with what the rest of `handleMessage` still needs. */
  datatype Call = Call(req: Msg, entry: Option<nat>, block1: Option<Block>, block2: Option<Block>)

  datatype Outcome = Silent | Answer(rsp: Msg) | Invoke(call: Call)

  /** `sent` is the empty acknowledgement sent ahead of a block-wise separate response. */
  datatype Begun = Begun(st: State, out: Outcome, sent: Option<Msg>)

  /** The deferred `dedup.save(rsp)`. */
  function SaveAnswer(st: State, entry: Option<nat>, rsp: Msg): State {
    if entry.Some? && entry.value < |st.dedup.entries|
    then st.(dedup := Dedup.Save(st.dedup, entry.value, rsp))
    else st
  }

  function Reply(st: State, entry: Option<nat>, rsp: Msg): Begun {
    Begun(SaveAnswer(st, entry, rsp), Answer(rsp), None)
  }

  function ResetFor(req: Msg): Msg {
    Msg(RESET, req.code, req.mid, req.token, [], [], 0, 0, 0, [])
  }

  // ----- After the callback -----

  function ReplyBlockSize(call: Call, rsp: Msg, cfg: Config): nat {
    if rsp.blockSize != 0 then rsp.blockSize
    else if call.req.blockSize != 0 then call.req.blockSize
    else cfg.defaultBlock
  }

  /** A response that is too large is stored under the request's key and served block by block. */
  function StoreAndServe(st: State, call: Call, rsp: Msg, size: nat, now: int, cfg: Config): (State, Msg) {
    var key := BlockKey(call.req);
    var num := if call.block2.Some? then call.block2.value.num else 0;
    var stored := Put(st.cache, key, rsp, now, cfg.blockTimeout);
    var (cache, block) := GetBlockAt(stored, key, call.req, num, size, now, cfg.blockTimeout);
    (st.(cache := cache), if block.Some? then block.value else MakeReply(call.req, CODE_INTERNAL_SERVER_ERROR, []))
  }

  /**
   * The tail of `handleMessage`: echo Block1, and if the response is too large, store it and
   * send the requested block of it instead.
   */
  function Finish(st: State, call: Call, answer: Option<Msg>, now: int, cfg: Config): (State, Option<Msg>) {
    match answer
    case None => (st, None)
    case Some(rsp) =>
      var marked := if call.block1.Some? then WithBlock1(rsp, call.block1) else rsp;
      var echoed := Measured(marked);
      if !NeedsBlocks(marked) then (SaveAnswer(st, call.entry, echoed), Some(echoed))
      else
        var (st', final) := StoreAndServe(st, call, echoed, ReplyBlockSize(call, rsp, cfg), now, cfg);
        (SaveAnswer(st', call.entry, final), Some(final))
  }

  /** The callback returned `answer`; an acknowledgement for a non-confirmable request is sent as one. */
  function Complete(st: State, call: Call, answer: Option<Msg>, now: int, cfg: Config): (State, Option<Msg>) {
    if call.req.mtype == NON_CONFIRMABLE && answer.Some? && answer.value.mtype == ACKNOWLEDGEMENT
    then Finish(st, call, Some(answer.value.(mtype := NON_CONFIRMABLE)), now, cfg)
    else Finish(st, call, answer, now, cfg)
  }

  function FinishNow(st: State, call: Call, answer: Option<Msg>, now: int, cfg: Config): Begun {
    var (st', rsp) := Finish(st, call, answer, now, cfg);
    Begun(st', if rsp.Some? then Answer(rsp.value) else Silent, None)
  }

  // ----- Up to the callback -----

  /** `handleNotify` when no observation matches the token. */
  function Notify(st: State, req: Msg): (State, Option<Msg>) {
    var (p, found) := Pending.HandleAcknowledgement(st.pending, req);
    (st.(pending := p),
     if !found then Some(ResetFor(req))
     else if req.mtype == CONFIRMABLE then Some(Msg(ACKNOWLEDGEMENT, CODE_EMPTY, req.mid, [], [], [], 0, 0, 0, []))
     else None)
  }

  /** The switch on the message type; `early` is the response left by the block-wise special case. */
  function Switch(st: State, call: Call, early: Option<Msg>, now: int, cfg: Config): Begun {
    var req := call.req;
    if (req.mtype == CONFIRMABLE || req.mtype == NON_CONFIRMABLE) && IsRequest(req) then
      if req.code == CODE_EMPTY then FinishNow(st, call, Some(ResetFor(req)), now, cfg)
      else if cfg.routed(req) then Begun(st, Invoke(call), None)
      else
        var (st', rsp) := Complete(st, call, Some(MakeReply(req, CODE_NOT_FOUND, [])), now, cfg);
        Begun(st', if rsp.Some? then Answer(rsp.value) else Silent, None)
    else if req.mtype == CONFIRMABLE && First(req.opts, OBSERVE).None? then
      var (p, found) := Pending.HandleAcknowledgement(st.pending, req);
      var rsp := if found then Some(MakeReply(req, CODE_EMPTY, []).(blockSize := 0)) else early;
      FinishNow(st.(pending := p), call, rsp, now, cfg)
    else if req.mtype <= ACKNOWLEDGEMENT then
      var (st', rsp) := Notify(st, req);
      FinishNow(st', call, rsp, now, cfg)
    else FinishNow(st, call, Some(ResetFor(req)), now, cfg)
  }

  /** The empty acknowledgement is sent through `send`, which numbers it only if its Message ID is 0. */
  function AcknowledgeEarly(st: State, req: Msg): (State, Msg) {
    var ack := MakeReply(req, CODE_EMPTY, []);
    if ack.mid != 0 then (st, ack)
    else
      var (p, id) := Pending.NextMsgId(st.pending);
      (st.(pending := p), ack.(mid := id))
  }

  /** From the acknowledgement check to the Block2 branch. */
  function AfterBlock1(st: State, req: Msg, entry: Option<nat>, block1: Option<Block>, now: int, cfg: Config): Begun {
    var (p, found) := if req.mtype == ACKNOWLEDGEMENT then Pending.HandleAcknowledgement(st.pending, req) else (st.pending, false);
    if found then Begun(st.(pending := p), Silent, None)
    else
      var block2 := GetBlock2(req);
      if block2.None? then
        var sized := if block1.Some? then req.(blockSize := block1.value.size) else req;
        Switch(st, Call(sized, entry, block1, None), None, now, cfg)
      else if IsRequest(req) then
        var (cache, served) := GetBlockAt(st.cache, BlockKey(req), req, block2.value.num, block2.value.size, now, cfg.blockTimeout);
        if served.Some? then Reply(st.(cache := cache), entry, served.value)
        else Switch(st, Call(req.(blockSize := block2.value.size), entry, block1, block2), None, now, cfg)
      else if block2.value.more && block2.value.num == 0 then
        var (st', ack) := AcknowledgeEarly(st, req);
        var call := Call(req.(blockSize := block2.value.size), entry, block1, Some(block2.value.(more := false)));
        Switch(st', call, Some(ResetFor(req)), now, cfg).(sent := Some(ack))
      else Switch(st, Call(req.(blockSize := block2.value.size), entry, block1, block2), None, now, cfg)
  }

  /** The Block1 branch: start an upload, extend it, or put the last block behind what is cached. */
  function Dispatch(st: State, req: Msg, entry: Option<nat>, now: int, cfg: Config): Begun {
    var block1 := GetBlock1(req);
    if block1.None? || !IsRequest(req) || (block1.value.num == 0 && !block1.value.more) then
      AfterBlock1(st, req, entry, block1, now, cfg)
    else
      var key := BlockKey(req);
      var continue_ := WithBlock1(MakeReply(req, CODE_CONTINUE, []), block1);
      var failure := MakeReply(req, CODE_INTERNAL_SERVER_ERROR, []);
      if block1.value.num == 0 then
        Reply(st.(cache := Put(st.cache, key, req, now, cfg.blockTimeout)), entry, continue_)
      else if !block1.value.more then
        var (cache, whole) := GetWhole(st.cache, key, req, now, cfg.blockTimeout);
        if whole.None? then Reply(st, entry, failure)
        else AfterBlock1(st.(cache := cache), req.(payload := whole.value), entry, block1, now, cfg)
      else
        var (cache, ok) := Append(st.cache, key, req.payload, block1.value.num, now, cfg.blockTimeout);
        Reply(st.(cache := cache), entry, if ok then continue_ else failure)
  }

  predicate Deduplicated(req: Msg) {
    req.mtype == CONFIRMABLE || req.mtype == NON_CONFIRMABLE
  }

  /** `handleMessage` up to the callback. */
  function Begin(st: State, req: Msg, now: int, cfg: Config): Begun {
    if req.mtype == RESET then Begun(st, Silent, None)
    else if !Deduplicated(req) then Dispatch(st, req, None, now, cfg)
    else
      var (dedup, i, isNew) := Dedup.Deduplicate(st.dedup, req.addr, req.mid, now, cfg.expiration);
      if isNew then Dispatch(st.(dedup := dedup), req, Some(i), now, cfg)
      else if i < |dedup.entries| && dedup.entries[i].rsp.Some? && !dedup.entries[i].pending
      then Begun(st, Answer(dedup.entries[i].rsp.value), None)
      else Begun(st, Silent, None)
  }

  /** The whole of `handleMessage` for a callback that returns `app(req)` at once. */
  datatype Handled = Handled(st: State, rsp: Option<Msg>, seen: Option<Msg>, sent: Option<Msg>)

  /** What happens next after `b`, with the callback answering at once. */
  function Conclude(b: Begun, now: int, cfg: Config, app: Msg -> Option<Msg>): Handled {
    match b.out
    case Silent => Handled(b.st, None, None, b.sent)
    case Answer(rsp) => Handled(b.st, Some(rsp), None, b.sent)
    case Invoke(call) =>
      var (st', rsp) := Complete(b.st, call, app(call.req), now, cfg);
      Handled(st', rsp, Some(call.req), b.sent)
  }

  function Handle(st: State, req: Msg, now: int, cfg: Config, app: Msg -> Option<Msg>): Handled {
    Conclude(Begin(st, req, now, cfg), now, cfg, app)
  }

  // ----- Duplicates -----

  /**
   * A recognised duplicate touches nothing: not the dedup table, the block cache, the pending
   * maps or the callback. It is ignored while the answer is pending and gets that answer after.
   */
  lemma DuplicateChangesNothing(st: State, req: Msg, now: int, cfg: Config, app: Msg -> Option<Msg>)
    requires Dedup.Valid(st.dedup) && Deduplicated(req) && Dedup.Recorded(st.dedup, req.addr, req.mid)
    ensures var e := st.dedup.entries[st.dedup.endpoints[req.addr][req.mid]];
            Handle(st, req, now, cfg, app) == Handled(st, e.rsp, None, None)
  {
  }

  /** A saved answer after it has been marshalled `n` times: each time its options are sorted in place. */
  function Marshalled(rsp: Msg, n: nat): Msg
    decreases n
  {
    if n == 0 then rsp else Marshalled(rsp.(opts := Sort(rsp.opts)), n - 1)
  }

  /** However often an answer is replayed, it goes out as the same bytes. */
  lemma {:induction false} ReplayedBytes(rsp: Msg, n: nat)
    ensures Encode(Marshalled(rsp, n)) == Encode(rsp)
    decreases n
  {
    if n > 0 {
      EncodeOfNormal(rsp);
      ReplayedBytes(rsp.(opts := Sort(rsp.opts)), n - 1);
    }
    hide Encode;
  }
}
