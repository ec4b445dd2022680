/**
 * The mutable `Server`: every method updates its fields as the source does and is proved
 * against the function of the same step (dedup.go, handle_ack.go, blockwise.go, handler.go).
 */
module ServerObject {
  import opened Basics
  import opened Options
  import opened Messages
  import opened Codec
  import opened Blocks
  import opened MessageObject
  import Dedup
  import Pending
  import opened BlockCache
  import opened Handler

  /** The dedup table during a watcher pass that has still to look at the endpoints in `todo`. */
  ghost function SweptSoFar(t: Dedup.Table, todo: set<Bytes>, now: int): Dedup.Table {
    t.(endpoints := map a | a in t.endpoints && !(a in t.deleteAfter && a !in todo && t.deleteAfter[a] < now) :: t.endpoints[a],
       deleteAfter := map a | a in t.deleteAfter && (a in todo || t.deleteAfter[a] >= now) :: t.deleteAfter[a])
  }

  lemma SweepOne(t: Dedup.Table, todo: set<Bytes>, addr: Bytes, now: int)
    requires addr in todo && todo <= t.deleteAfter.Keys
    ensures var d := SweptSoFar(t, todo, now);
            && addr in d.deleteAfter && d.deleteAfter[addr] == t.deleteAfter[addr]
            && SweptSoFar(t, todo - {addr}, now)
               == if t.deleteAfter[addr] < now then d.(endpoints := d.endpoints - {addr}, deleteAfter := d.deleteAfter - {addr})
                  else d
  {
  }

  class Server {
    const cfg: Config
    var dedup: Dedup.Table
    var blockCache: Cache
    var pending: Pending.State

    constructor (cfg: Config, firstMid: uint16)
      ensures this.cfg == cfg
      ensures Now() == State(Dedup.EMPTY_TABLE, map[], Pending.Initial(firstMid))
    {
      this.cfg := cfg;
      dedup := Dedup.EMPTY_TABLE;
      blockCache := map[];
      pending := Pending.Initial(firstMid);
    }

    function Now(): State
      reads this
    {
      State(dedup, blockCache, pending)
    }

    // ----- dedup.go -----

    method Deduplicate(req: Msg, receivedAt: int) returns (entry: nat, isNew: bool)
      modifies this`dedup
      ensures (dedup, entry, isNew) == Dedup.Deduplicate(old(dedup), req.addr, req.mid, receivedAt, cfg.expiration)
    {
      var ep := if req.addr in dedup.endpoints then dedup.endpoints[req.addr] else map[];
      if req.mid in ep {
        return ep[req.mid], false;
      }
      entry := |dedup.entries|;
      dedup := dedup.(deleteAfter := dedup.deleteAfter[req.addr := receivedAt + cfg.expiration],
                      entries := dedup.entries + [Dedup.Entry(true, None)]);
      ep := ep[req.mid := entry];
      dedup := dedup.(endpoints := dedup.endpoints[req.addr := ep]);
      isNew := true;
    }

    method SaveEntry(entry: Option<nat>, rsp: Msg)
      modifies this`dedup
      ensures Now() == SaveAnswer(old(Now()), entry, rsp)
    {
      if entry.Some? && entry.value < |dedup.entries| {
        dedup := Dedup.Save(dedup, entry.value, rsp);
      }
    }

    /** One pass of `dedupWatcher`, endpoint by endpoint. */
    method WatchDedup(now: int)
      modifies this`dedup
      ensures dedup == Dedup.Sweep(old(dedup), now)
    {
      ghost var was := dedup;
      var todo := dedup.deleteAfter.Keys;
      while todo != {}
        invariant todo <= was.deleteAfter.Keys
        invariant dedup == SweptSoFar(was, todo, now)
        decreases |todo|
      {
        var addr :| addr in todo;
        SweepOne(was, todo, addr, now);
        if dedup.deleteAfter[addr] < now {
          dedup := dedup.(endpoints := dedup.endpoints - {addr}, deleteAfter := dedup.deleteAfter - {addr});
        }
        todo := todo - {addr};
      }
    }

    // ----- handle_ack.go -----

    method PendingSave(token: Bytes, random: Bytes) returns (entry: nat)
      modifies this`pending
      ensures (pending, entry) == Pending.PendingSave(old(pending), token, random)
    {
      var tok := token;
      if |tok| == 0 {
        tok := random;
      }
      entry := |pending.entries|;
      var mid := pending.nextMid;
      pending := pending.(nextMid := (mid + 1) % Pending.MID_SPACE, issued := pending.issued + [mid],
                          entries := pending.entries + [Pending.PendingEntry(tok, mid, None)]);
      pending := pending.(byToken := pending.byToken[tok := entry]);
      pending := pending.(byMid := pending.byMid[mid := entry]);
    }

    method GetNextMsgId() returns (id: uint16)
      modifies this`pending
      ensures (pending, id) == Pending.NextMsgId(old(pending))
    {
      id := pending.nextMid;
      pending := pending.(nextMid := (id + 1) % Pending.MID_SPACE, issued := pending.issued + [id]);
    }

    method HandleAcknowledgement(req: Msg) returns (found: bool)
      modifies this`pending
      ensures (pending, found) == Pending.HandleAcknowledgement(old(pending), req)
    {
      if req.code == CODE_EMPTY {
        found := req.mid in pending.byMid;
        if found {
          var pe := pending.byMid[req.mid];
          pending := pending.(byMid := pending.byMid - {req.mid});
          pending := Pending.Offer(pending, pe, req);
        }
        return;
      }
      found := req.token in pending.byToken;
      if found {
        var pe := pending.byToken[req.token];
        pending := pending.(byToken := pending.byToken - {req.token});
        pending := pending.(byMid := pending.byMid - {req.mid});
        pending := Pending.Offer(pending, pe, req);
      }
    }

    // ----- blockwise.go -----

    method BlockCachePut(m: Msg, key: Bytes, now: int)
      modifies this`blockCache
      ensures blockCache == Put(old(blockCache), key, m, now, cfg.blockTimeout)
    {
      blockCache := blockCache[key := CacheEntry(m, 0, now + cfg.blockTimeout)];
    }

    method BlockCacheAppend(req: Msg, num: nat, now: int) returns (ok: bool)
      modifies this`blockCache
      ensures (blockCache, ok) == Append(old(blockCache), BlockKey(req), req.payload, num, now, cfg.blockTimeout)
    {
      var key := BlockKey(req);
      if key !in blockCache {
        return false;
      }
      var bce := blockCache[key];
      if num != bce.last + 1 {
        return false;
      }
      bce := bce.(last := num);
      bce := bce.(expires := now + cfg.blockTimeout);
      bce := bce.(rsp := bce.rsp.(payload := bce.rsp.payload + req.payload));
      blockCache := blockCache[key := bce];
      return true;
    }

    method BlockCacheGet(req: Msg, num: nat, sz: nat, now: int) returns (rsp: Option<Msg>)
      modifies this`blockCache
      ensures (blockCache, rsp) == GetBlockAt(old(blockCache), BlockKey(req), req, num, sz, now, cfg.blockTimeout)
    {
      var key := BlockKey(req);
      if key !in blockCache {
        return None;
      }
      var bce := blockCache[key];
      var offset := num * sz;
      if offset > |bce.rsp.payload| {
        return None;
      }
      var newRsp := bce.rsp;
      var blockSize, more := 0, false;
      if offset + sz >= |bce.rsp.payload| {
        blockSize := |bce.rsp.payload| - offset;
      } else {
        blockSize := sz;
        more := true;
      }
      blockCache := Touch(blockCache, key, now, cfg.blockTimeout);
      newRsp := newRsp.(payload := bce.rsp.payload[offset..offset + blockSize]);
      if num == 0 {
        newRsp := WithSize2(newRsp, |bce.rsp.payload|);
      }
      newRsp := WithBlock2(newRsp, Some(Block(num, more, sz)));
      if num > 0 {
        newRsp := WithBlock1(newRsp, None);
      }
      newRsp := newRsp.(blockSize := 0, maxSize := 0, addr := []);
      newRsp := newRsp.(token := req.token);
      newRsp := newRsp.(mid := req.mid);
      return Some(newRsp);
    }

    /** One pass of `expireBlocks`: collect the stale keys, then delete them. */
    method ExpireBlocks(now: int)
      modifies this`blockCache
      ensures blockCache == Expire(old(blockCache), now)
    {
      var toDel: seq<Bytes> := [];
      var todo := blockCache.Keys;
      while todo != {}
        invariant todo <= blockCache.Keys
        invariant forall k :: k in toDel <==> k in blockCache && k !in todo && blockCache[k].expires < now
        decreases |todo|
      {
        var key :| key in todo;
        if blockCache[key].expires < now {
          toDel := toDel + [key];
        }
        todo := todo - {key};
      }
      ghost var was := blockCache;
      var i := 0;
      while i < |toDel|
        invariant 0 <= i <= |toDel|
        invariant blockCache == map k | k in was && k !in toDel[..i] :: was[k]
      {
        assert toDel[..i + 1] == toDel[..i] + [toDel[i]];
        blockCache := blockCache - {toDel[i]};
        i := i + 1;
      }
      assert toDel[..i] == toDel;
    }

    // ----- handler.go -----

    /** The tail: echo Block1, store and slice a response that is too large, save it for duplicates. */
    method FinishReply(call: Call, answer: Option<Msg>, now: int) returns (rsp: Option<Msg>)
      modifies this`dedup, this`blockCache
      ensures (Now(), rsp) == Finish(old(Now()), call, answer, now, cfg)
    {
      rsp := answer;
      if rsp == None {
        return;
      }
      var m := rsp.value;
      var bs := cfg.defaultBlock;
      if m.blockSize != 0 {
        bs := m.blockSize;
      } else if call.req.blockSize != 0 {
        bs := call.req.blockSize;
      }
      if call.block1.Some? {
        m := WithBlock1(m, call.block1);
      }
      var needed := NeedsBlocks(m);
      m := Measured(m);
      rsp := Some(m);
      if needed {
        var block2 := if call.block2.None? then Block(0, true, bs) else Block(call.block2.value.num, true, bs);
        BlockCachePut(m, BlockKey(call.req), now);
        rsp := BlockCacheGet(call.req, block2.num, bs, now);
        if rsp == None {
          rsp := Some(MakeReply(call.req, CODE_INTERNAL_SERVER_ERROR, []));
        }
      }
      SaveEntry(call.entry, rsp.value);
    }

    /** The switch on the message type, including the callback `app`. */
    method Respond(call: Call, early: Option<Msg>, now: int, app: Msg -> Option<Msg>)
      returns (rsp: Option<Msg>, seen: Option<Msg>)
      modifies this`dedup, this`blockCache, this`pending
      ensures Handled(Now(), rsp, seen, None) == Conclude(Switch(old(Now()), call, early, now, cfg), now, cfg, app)
    {
      var req := call.req;
      seen := None;
      if (req.mtype == CONFIRMABLE || req.mtype == NON_CONFIRMABLE) && IsRequest(req) {
        if req.code == CODE_EMPTY {
          rsp := FinishReply(call, Some(ResetFor(req)), now);
          return;
        }
        if cfg.routed(req) {
          seen := Some(req);
          rsp := app(req);
        } else {
          rsp := Some(MakeReply(req, CODE_NOT_FOUND, []));
        }
        if req.mtype == NON_CONFIRMABLE && rsp.Some? && rsp.value.mtype == ACKNOWLEDGEMENT {
          rsp := Some(rsp.value.(mtype := NON_CONFIRMABLE));
        }
        rsp := FinishReply(call, rsp, now);
        return;
      }
      rsp := early;
      if req.mtype == CONFIRMABLE && First(req.opts, OBSERVE).None? {
        var found := HandleAcknowledgement(req);
        if found {
          rsp := Some(MakeReply(req, CODE_EMPTY, []).(blockSize := 0));
        }
      } else if req.mtype <= ACKNOWLEDGEMENT {
        var found := HandleAcknowledgement(req);
        rsp := if !found then Some(ResetFor(req))
               else if req.mtype == CONFIRMABLE then Some(Msg(ACKNOWLEDGEMENT, CODE_EMPTY, req.mid, [], [], [], 0, 0, 0, []))
               else None;
      } else {
        rsp := Some(ResetFor(req));
      }
      rsp := FinishReply(call, rsp, now);
    }

    /** From the acknowledgement check on. */
    method AcknowledgeAndRespond(req: Msg, entry: Option<nat>, block1: Option<Block>, now: int, app: Msg -> Option<Msg>)
      returns (rsp: Option<Msg>, seen: Option<Msg>, sent: Option<Msg>)
      modifies this`dedup, this`blockCache, this`pending
      ensures Handled(Now(), rsp, seen, sent) == Conclude(AfterBlock1(old(Now()), req, entry, block1, now, cfg), now, cfg, app)
    {
      hide Switch, BlockKey, MakeReply, SaveAnswer, Complete, GetBlock, Serve;
      rsp, seen, sent := None, None, None;
      if req.mtype == ACKNOWLEDGEMENT {
        var found := HandleAcknowledgement(req);
        if found {
          return;
        }
      }
      var block2 := GetBlock2(req);
      var early: Option<Msg> := None;
      if block2.Some? {
        if IsRequest(req) {
          rsp := BlockCacheGet(req, block2.value.num, block2.value.size, now);
          if rsp.Some? {
            SaveEntry(entry, rsp.value);
            return;
          }
        } else if block2.value.more && block2.value.num == 0 {
          var ack := MakeReply(req, CODE_EMPTY, []);
          if ack.mid == 0 {
            var id := GetNextMsgId();
            ack := ack.(mid := id);
          }
          sent := Some(ack);
          early := Some(ResetFor(req));
          block2 := Some(block2.value.(more := false));
        }
      }
      var sized := req;
      if block2.Some? {
        sized := req.(blockSize := block2.value.size);
      } else if block1.Some? {
        sized := req.(blockSize := block1.value.size);
      }
      rsp, seen := Respond(Call(sized, entry, block1, block2), early, now, app);
    }

    /** `handleMessage`, with a callback that returns `app(req)`. */
    method HandleMessage(req: Msg, now: int, app: Msg -> Option<Msg>)
      returns (rsp: Option<Msg>, seen: Option<Msg>, sent: Option<Msg>)
      modifies this`dedup, this`blockCache, this`pending
      ensures Handled(Now(), rsp, seen, sent) == Handle(old(Now()), req, now, cfg, app)
    {
      rsp, seen, sent := None, None, None;
      if req.mtype == RESET {
        return;
      }
      var entry: Option<nat> := None;
      if req.mtype == CONFIRMABLE || req.mtype == NON_CONFIRMABLE {
        var i, isNew := Deduplicate(req, now);
        if !isNew {
          if i < |dedup.entries| && !dedup.entries[i].pending {
            rsp := dedup.entries[i].rsp;
          }
          return;
        }
        entry := Some(i);
      }
      rsp, seen, sent := UploadAndRespond(req, entry, now, app);
    }

    /** The Block1 branch. */
    method UploadAndRespond(request: Msg, entry: Option<nat>, now: int, app: Msg -> Option<Msg>)
      returns (rsp: Option<Msg>, seen: Option<Msg>, sent: Option<Msg>)
      modifies this`dedup, this`blockCache, this`pending
      ensures Handled(Now(), rsp, seen, sent) == Conclude(Dispatch(old(Now()), request, entry, now, cfg), now, cfg, app)
    {
      rsp, seen, sent := None, None, None;
      var req := request;
      var block1 := GetBlock1(req);
      if block1.Some? && IsRequest(req) {
        var b := block1.value;
        if b.num == 0 && !b.more {
        } else if b.num == 0 {
          rsp := Some(WithBlock1(MakeReply(req, CODE_CONTINUE, []), block1));
          BlockCachePut(req, BlockKey(req), now);
          SaveEntry(entry, rsp.value);
          return;
        } else if !b.more {
          var key := BlockKey(req);
          if key !in blockCache {
            rsp := Some(MakeReply(req, CODE_INTERNAL_SERVER_ERROR, []));
            SaveEntry(entry, rsp.value);
            return;
          }
          blockCache := Touch(blockCache, key, now, cfg.blockTimeout);
          req := req.(payload := blockCache[key].rsp.payload + req.payload);
        } else {
          var ok := BlockCacheAppend(req, b.num, now);
          rsp := Some(if ok then WithBlock1(MakeReply(req, CODE_CONTINUE, []), block1)
                      else MakeReply(req, CODE_INTERNAL_SERVER_ERROR, []));
          SaveEntry(entry, rsp.value);
          return;
        }
      }
      rsp, seen, sent := AcknowledgeAndRespond(req, entry, block1, now, app);
    }
  }
}
