/**
 * Exactly when `handleMessage` (handler.go:42-103, 149-162) hands a block-wise request to the
 * route callback, and what the callback then sees.
 */
module Invocation {
  import opened Basics
  import opened Options
  import opened Messages
  import opened Blocks
  import opened BlockCache
  import opened Handler
  import Dedup
  import Pending

  /** A confirmable request with a method. */
  predicate IsCall(req: Msg) {
    req.mtype == CONFIRMABLE && IsRequest(req) && req.code != CODE_EMPTY
  }

  /** The request as the callback sees it once its last block has come in. */
  function Assembled(st: State, req: Msg): Msg
    requires GetBlock1(req).Some?
  {
    var b, key := GetBlock1(req).value, BlockKey(req);
    var whole := if b.num == 0 || key !in st.cache then req.payload else st.cache[key].rsp.payload + req.payload;
    req.(payload := whole, blockSize := b.size)
  }

  /**
   * The last block of an upload reaches the callback if and only if its address and Message ID
   * are not recorded, what came before it is still cached, and there is a route: nothing else
   * stands between a repeated last block and a second invocation.
   */
  lemma LastBlockInvokes(st: State, req: Msg, now: int, cfg: Config)
    requires IsCall(req) && GetBlock1(req).Some? && !GetBlock1(req).value.more && GetBlock2(req) == None
    ensures var b := Begin(st, req, now, cfg);
            && (b.out.Invoke? <==>
                  && !Dedup.Recorded(st.dedup, req.addr, req.mid)
                  && (GetBlock1(req).value.num == 0 || BlockKey(req) in st.cache)
                  && cfg.routed(Assembled(st, req)))
            && (b.out.Invoke? ==> b.out.call.req == Assembled(st, req))
  {
    var key := BlockKey(req);
    var joined := Assembled(st, req);
    assert GetBlock2(req.(payload := joined.payload)) == None;
    hide BlockKey, GetBlock1, GetBlock2, MakeReply, WithBlock1, SaveAnswer, Complete;
  }

  /**
   * A request for a further block of a response that is no longer cached, or too short, goes to
   * the callback as if it were a new request.
   */
  lemma ContinuationFallsThrough(st: State, req: Msg, now: int, cfg: Config)
    requires IsCall(req) && GetBlock1(req) == None && GetBlock2(req).Some?
    ensures var b := Begin(st, req, now, cfg);
            var block2 := GetBlock2(req).value;
            var seen := req.(blockSize := block2.size);
            && (b.out.Invoke? <==>
                  && !Dedup.Recorded(st.dedup, req.addr, req.mid)
                  && (BlockKey(req) !in st.cache || block2.num * block2.size > |st.cache[BlockKey(req)].rsp.payload|)
                  && cfg.routed(seen))
            && (b.out.Invoke? ==> b.out.call.req == seen)
  {
    hide BlockKey, GetBlock1, GetBlock2, MakeReply, Serve, SaveAnswer, Complete;
  }

  /** Once an endpoint is forgotten, a one-block request delivered again reaches the callback again. */
  lemma ForgottenRequestIsRepeated(st: State, req: Msg, at: int, swept: int, again: int, cfg: Config)
    requires Dedup.Valid(st.dedup) && IsCall(req) && GetBlock1(req) == None && GetBlock2(req) == None && cfg.routed(req)
    requires !Dedup.Recorded(st.dedup, req.addr, req.mid) && swept > at + cfg.expiration
    ensures var first := Begin(st, req, at, cfg);
            var forgotten := first.st.(dedup := Dedup.Sweep(first.st.dedup, swept));
            && first.out.Invoke? && first.out.call.req == req
            && Begin(first.st, req, again, cfg).out == Silent
            && Begin(forgotten, req, again, cfg).out.Invoke? && Begin(forgotten, req, again, cfg).out.call.req == req
  {
    Dedup.DeduplicateKeepsValid(st.dedup, req.addr, req.mid, at, cfg.expiration);
    var t := Dedup.Deduplicate(st.dedup, req.addr, req.mid, at, cfg.expiration).0;
    Dedup.SweepForgets(t, req.addr, req.mid, swept);
    hide BlockKey, GetBlock1, GetBlock2, MakeReply, SaveAnswer, Complete, Dedup.Sweep;
  }

  /** A response or an acknowledgement that carries no block and no observation. */
  predicate IsPlainResponse(req: Msg) {
    && (req.mtype == ACKNOWLEDGEMENT || (!IsRequest(req) && (req.mtype == CONFIRMABLE || req.mtype == NON_CONFIRMABLE)))
    && GetBlock1(req) == None && GetBlock2(req) == None && First(req.opts, OBSERVE) == None
  }

  /**
   * Responses go to the sender they are for, once: a new one is matched against the pending
   * maps and nothing else is touched. A confirmable one that matches is acknowledged by an
   * empty message with its Message ID; a confirmable one that does not match is not answered;
   * any other one is rejected with a reset if and only if nobody waits for it.
   */
  lemma ResponseIsCorrelated(st: State, req: Msg, now: int, cfg: Config)
    requires IsPlainResponse(req) && !(Deduplicated(req) && Dedup.Recorded(st.dedup, req.addr, req.mid))
    ensures var (p, found) := Pending.HandleAcknowledgement(st.pending, req);
            var b := Begin(st, req, now, cfg);
            && b.st.pending == p && b.st.cache == st.cache && b.sent == None
            && (found <==> Pending.IsAwaited(st.pending, req)) && (found ==> Pending.ReferencesUsed(st.pending, p, req))
            && (!found ==> p == st.pending)
            && (b.out.Silent? || b.out.Answer?)
            && (b.out.Answer? <==> (req.mtype == CONFIRMABLE <==> found))
            && (b.out.Answer? ==> b.out.rsp.mid == req.mid && b.out.rsp.payload == [])
            && (b.out.Answer? && found ==> b.out.rsp.mtype == ACKNOWLEDGEMENT && b.out.rsp.code == CODE_EMPTY && b.out.rsp.token == [])
            && (b.out.Answer? && !found ==> b.out.rsp.mtype == RESET && b.out.rsp.token == req.token)
  {
    hide BlockKey, GetBlock1, GetBlock2, Pending.HandleAcknowledgement, StoreAndServe;
    Pending.AwaitedIsFound(st.pending, req);
  }
}
