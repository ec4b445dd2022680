/**
 * What becomes of an upload when its numbers run out: a Message ID is used again after 65536
 * chunks (send.go:111-117), a block number after 2^20 (blockwise.go:76-120).
 */
module Overlong {
  import opened Basics
  import opened Options
  import opened StableSort
  import opened Messages
  import opened Blocks
  import opened BlockCache
  import opened Handler
  import opened HandlerFrame
  import opened Transfers
  import opened Invocation
  import Uploads
  import Dedup
  import ClientSend

  /**
   * A chunk sent under a Message ID that is still recorded with the Continue for an earlier
   * chunk is not looked at: the server answers that Continue again, and the client goes back to
   * the chunk after it. The final chunk ends the upload with that Continue as its result.
   */
  lemma UsedIdGoesBack(t: Transfer, m: Msg, num: nat, mid: uint16, st: State, first: Msg, j: nat, now: int, cfg: Config) returns (a: Msg)
    requires Proper(t) && Derived(t, m) && Only(m.opts, BLOCK2) == [] && num * t.size <= |Data(t)|
    requires |first.token| <= 8 && GetBlock1(first) == Some(Block(j, true, t.size))
    requires Dedup.Valid(st.dedup) && Dedup.Recorded(st.dedup, t.addr, mid)
    requires st.dedup.entries[st.dedup.endpoints[t.addr][mid]].rsp == Some(ContinueFor(first))
    ensures var c := ClientSend.ChunkMessage(m, Data(t), num, t.size);
            var b, r := Handler.Begin(st, a, now, cfg), Arrived(ContinueFor(first), []);
            && Arrived(c.(mid := mid), t.addr) == Some(a)
            && b == Begun(st, Answer(ContinueFor(first)), None) && r.Some?
            && OnReply(t, num, t.size, c, r.value)
               == if ClientSend.MoreChunks(Data(t), num, t.size) then Ready(j + 1, t.size, c) else Stopped
  {
    hide Sound, Derived, Arrived, ContinueFor, GetBlock, Only, ClientSend.ChunkMessage, ClientSend.MoreChunks, Dispatch, Key, BlockKey;
    a := ChunkReads(t, m, num, t.size, mid);
    ServerReplyArrives(first, []);
  }

  /** Chunk 2^20 arrives as block 0. */
  lemma WrappedChunkArrives(t: Transfer, m: Msg, mid: uint16) returns (a: Msg)
    requires Proper(t) && Derived(t, m) && Only(m.opts, BLOCK2) == [] && LastNum(t) >= MAX_BLOCKS
    ensures MAX_BLOCKS * t.size <= |Data(t)|
    ensures Arrived(ClientSend.ChunkMessage(m, Data(t), MAX_BLOCKS, t.size).(mid := mid), t.addr) == Some(a)
    ensures IsFrom(t, a) && a.mid == mid && a.code == t.base.code && a.payload == Slice(Data(t), MAX_BLOCKS, t.size)
    ensures GetBlock1(a) == Some(Block(0, LastNum(t) > MAX_BLOCKS, t.size)) && GetBlock2(a) == None
  {
    ChunkNumbers(t, MAX_BLOCKS);
    a := ChunkReads(t, m, MAX_BLOCKS, t.size, mid);
    hide Sound, LastNum, Derived, Arrived, IsFrom, ClientSend.ChunkMessage, GetBlock1, GetBlock2, Only, ClientSend.MoreChunks;
  }

  /**
   * If chunk 2^20 is the final one it looks like an upload of one block: the callback is given
   * that chunk alone, whatever is cached.
   */
  lemma LastChunkAlone(t: Transfer, m: Msg, mid: uint16, st: State, now: int, cfg: Config) returns (a: Msg)
    requires Proper(t) && Derived(t, m) && Only(m.opts, BLOCK2) == [] && t.base.code != CODE_EMPTY
    requires LastNum(t) == MAX_BLOCKS && !Dedup.Recorded(st.dedup, t.addr, mid)
    ensures MAX_BLOCKS * t.size <= |Data(t)|
    ensures Arrived(ClientSend.ChunkMessage(m, Data(t), MAX_BLOCKS, t.size).(mid := mid), t.addr) == Some(a)
    ensures var b := Handler.Begin(st, a, now, cfg);
            && (b.out.Invoke? <==> cfg.routed(a.(blockSize := t.size)))
            && (b.out.Invoke? ==> b.out.call.req.payload == Slice(Data(t), MAX_BLOCKS, t.size))
    ensures Slice(Data(t), MAX_BLOCKS, t.size) != Data(t)
  {
    a := WrappedChunkArrives(t, m, mid);
    LastBlockInvokes(st, a, now, cfg);
    SizeIsPositive(t);
    hide Proper, LastNum, Derived, Arrived, ClientSend.ChunkMessage, GetBlock1, GetBlock2, Only, Handler.Begin, BlockKey;
  }

  /** If there are more, the server starts the upload again with it, and so does the client, at chunk 1. */
  lemma UploadStartsAgain(t: Transfer, m: Msg, mid: uint16, st: State, now: int, cfg: Config) returns (a: Msg)
    requires Proper(t) && Derived(t, m) && Only(m.opts, BLOCK2) == []
    requires LastNum(t) > MAX_BLOCKS && !Dedup.Recorded(st.dedup, t.addr, mid)
    ensures MAX_BLOCKS * t.size <= |Data(t)|
    ensures var c := ClientSend.ChunkMessage(m, Data(t), MAX_BLOCKS, t.size);
            var b, r := Handler.Begin(st, a, now, cfg), Arrived(ContinueFor(a), []);
            && Arrived(c.(mid := mid), t.addr) == Some(a)
            && b.out == Answer(ContinueFor(a)) && b.st.cache == Put(st.cache, Key(t), a, now, cfg.blockTimeout)
            && r.Some? && OnReply(t, MAX_BLOCKS, t.size, c, r.value) == Ready(1, t.size, c)
  {
    a := WrappedChunkArrives(t, m, mid);
    Uploads.BeginIsDispatch(st, a, now, cfg);
    StartsUpload(st.(dedup := Uploads.Noted(st.dedup, a, now, cfg)), a, Uploads.EntryOf(st.dedup, a), now, cfg);
    ServerReplyArrives(a, []);
    ChunkNumbers(t, MAX_BLOCKS);
    SizeIsPositive(t);
    hide Proper, LastNum, Derived, Arrived, ClientSend.ChunkMessage, GetBlock1, GetBlock2, Only, Handler.Begin, Dispatch, BlockKey, Uploads.Noted, ContinueFor, ClientSend.MoreChunks;
  }

  lemma StartsUpload(st: State, req: Msg, entry: Option<nat>, now: int, cfg: Config)
    requires IsRequest(req) && GetBlock1(req).Some? && GetBlock1(req).value.num == 0 && GetBlock1(req).value.more
    ensures var d := Dispatch(st, req, entry, now, cfg);
            d.out == Answer(ContinueFor(req)) && d.st.cache == Put(st.cache, BlockKey(req), req, now, cfg.blockTimeout)
  {
    hide GetBlock1, BlockKey, AfterBlock1, MakeReply, WithBlock1;
  }
}
