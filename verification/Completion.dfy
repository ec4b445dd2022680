/**
 * The other half of upload safety: when the network behaves and nothing expires, the upload
 * does reach its callback. The run is built chunk by chunk (send.go:30-70, handler.go:58-88).
 */
module Completion {
  import opened Basics
  import opened Options
  import opened StableSort
  import opened Messages
  import opened Codec
  import opened Blocks
  import opened Handler
  import opened HandlerFrame
  import opened Transfers
  import opened Uploads
  import opened Invocation
  import Dedup
  import ClientSend

  /** An upload with a method, no Block2 option of its own and a route. */
  ghost predicate Routed(s: Setup, k: Bytes)
    requires k in s.transfers
  {
    && ProperSetup(s) && s.transfers[k].base.code != CODE_EMPTY && Only(s.transfers[k].base.opts, BLOCK2) == []
    && forall m :: BlockKey(m) == k ==> s.cfg.routed(m)
  }

  /** ... and no more chunks than Message IDs. */
  ghost predicate Deliverable(s: Setup, k: Bytes)
    requires k in s.transfers
  {
    Routed(s, k) && LastNum(s.transfers[k]) < 0x1_0000
  }

  ghost predicate RecordedBelow(t: Dedup.Table, n: nat) {
    forall a, m: uint16 :: Dedup.Recorded(t, a, m) ==> m < n
  }

  /** No Message ID from `num` on is recorded, the callback has not run, block `num - 1` is the last one stored. */
  ghost predicate UpTo(s: Setup, w: World, k: Bytes, num: nat) {
    && k in s.transfers && Deliverable(s, k) && Inv(s, w) && num <= LastNum(s.transfers[k])
    && num < 0x1_0000 && RecordedBelow(w.server.dedup, num)
    && w.seen == [] && k in w.clients
    && (num > 0 ==> k in w.server.cache && w.server.cache[k].last == num - 1)
  }

  lemma BelowGrows(t: Dedup.Table, n: nat)
    requires RecordedBelow(t, n)
    ensures RecordedBelow(t, n + 1)
  {
  }

  /** The client is about to send chunk `num`, and everything before it has been stored. */
  ghost predicate OnCourse(s: Setup, w: World, k: Bytes, num: nat) {
    && UpTo(s, w, k, num)
    && w.clients[k].Ready? && w.clients[k].num == num && w.clients[k].size == s.transfers[k].size
    && Only(w.clients[k].msg.opts, BLOCK2) == []
  }

  /** Chunk `num` is in flight as `f` and the client waits for the reply to it. */
  ghost predicate InFlight(t: Transfer, w: World, k: Bytes, num: nat, f: Flight) {
    && k in w.clients && w.clients[k].Waiting? && w.clients[k].num == num && w.clients[k].size == t.size
    && Only(w.clients[k].msg.opts, BLOCK2) == []
    && f in w.flights && f.origin == Chunk(k, num) && f.msg.addr == t.addr && f.msg.mid == num
    && IsFrom(t, f.msg) && f.msg.code == t.base.code && GetBlock2(f.msg) == None
  }

  ghost predicate OnItsWay(s: Setup, w: World, k: Bytes, num: nat, f: Flight) {
    UpTo(s, w, k, num) && InFlight(s.transfers[k], w, k, num, f)
  }

  lemma RunOne(s: Setup, w: World, step: Step, rest: seq<Step>)
    requires Allowed(s, w, step)
    ensures Run(s, w, [step] + rest) == Run(s, Next(s, w, step), rest)
  {
    assert ([step] + rest)[1..] == rest;
    hide Allowed, Next;
  }

  /** Sending the next chunk, under its own number as Message ID. */
  lemma ChunkGoesOut(s: Setup, w: World, k: Bytes, num: nat) returns (f: Flight)
    requires OnCourse(s, w, k, num)
    ensures Allowed(s, w, SendChunk(k, num))
    ensures OnItsWay(s, ChunkSent(s.transfers[k], w, k, num), k, num, f)
  {
    var t := s.transfers[k];
    SetupHas(s, k);
    assert ClientOk(s, w, k) && FinalOk(s, w, k);
    hide Deliverable, Proper, Inv, LastNum;
    ChunkNumbers(t, num);
    var w' := ChunkSent(t, w, k, num);
    f := ChunkIsInFlight(s, w, k, num);
    hide RecordedBelow, ClientOk, FinalOk, InFlight;
    SendChunkKeepsInv(s, w, k, num);
    hide Sendable;
    UpToKept(s, w, w', k, num);
  }

  lemma ChunkIsInFlight(s: Setup, w: World, k: Bytes, num: nat) returns (f: Flight)
    requires k in s.transfers && Proper(s.transfers[k]) && num <= LastNum(s.transfers[k]) && num < 0x1_0000
    requires Sendable(s.transfers[k], w, k) && ClientOk(s, w, k) && FinalOk(s, w, k)
    requires w.clients[k].num == num && w.clients[k].size == s.transfers[k].size
    requires Only(w.clients[k].msg.opts, BLOCK2) == []
    ensures InFlight(s.transfers[k], ChunkSent(s.transfers[k], w, k, num), k, num, f)
  {
    var t, p := s.transfers[k], w.clients[k];
    ChunkIsDerived(t, p.msg, num, t.size);
    f := ChunkSentOk(s, w, k, num);
    var a := ChunkReads(t, p.msg, num, t.size, num);
    hide Proper, LastNum, FlightOk, FinalOk, Derived, IsFrom, Arrived, GetBlock, Only, ClientSend.ChunkMessage;
  }

  lemma UpToKept(s: Setup, w: World, w': World, k: Bytes, num: nat)
    requires UpTo(s, w, k, num) && Inv(s, w') && w'.server == w.server && w'.seen == w.seen && k in w'.clients
    ensures UpTo(s, w', k, num)
  {
    hide Inv, Deliverable, LastNum, Dedup.Recorded;
  }

  lemma DeliveredRecords(s: Setup, w: World, f: Flight, now: int)
    requires ServerInv(s, w) && Typed(f.msg) && Deduplicated(f.msg) && !IsDuplicate(w.server.dedup, f.msg)
    ensures forall n: nat :: RecordedBelow(w.server.dedup, n) && f.msg.mid < n ==>
              RecordedBelow(Uploads.Delivered(s.cfg, w, f, now).server.dedup, n)
  {
    BeginIsDispatch(w.server, f.msg, now, s.cfg);
    NotedPairs(w.server.dedup, f.msg, now, s.cfg);
    var st := w.server.(dedup := Noted(w.server.dedup, f.msg, now, s.cfg));
    DispatchFrame(st, f.msg, EntryOf(w.server.dedup, f.msg), now, s.cfg);
    hide Handler.Begin, Dispatch, Noted, Posted, CacheTyped, SameElsewhere, ReplyTo, CallFor, Dedup.Valid;
  }

  /** Nothing has been recorded for the chunk in flight. */
  lemma ChunkIsNew(s: Setup, w: World, k: Bytes, num: nat, f: Flight)
    requires OnItsWay(s, w, k, num, f)
    ensures Arrives(s, w, f, k) && !IsDuplicate(w.server.dedup, f.msg) && Typed(f.msg) && Deduplicated(f.msg) && |f.msg.token| <= 8
  {
    hide ProperSetup, Proper, LastNum, CacheOk, SeenOk, FinalOk, FlightOk, CacheTyped, Key, BlockKey;
    assert FlightOk(s, w, f);
    TakenOnce(s, w, f, k);
    assert Proper(s.transfers[k]) && Key(s.transfers[k]) == k by { SetupHas(s, k); }
  }

  lemma SetupHas(s: Setup, k: Bytes)
    requires k in s.transfers && Deliverable(s, k)
    ensures Proper(s.transfers[k]) && Key(s.transfers[k]) == k
  {
  }

  /** Chunk `num` is stored and its client still waits. */
  ghost predicate IsStored(s: Setup, w: World, k: Bytes, num: nat) {
    && k in s.transfers && Deliverable(s, k) && Inv(s, w) && num < LastNum(s.transfers[k])
    && RecordedBelow(w.server.dedup, num + 1)
    && w.seen == [] && k in w.server.cache && w.server.cache[k].last == num
    && k in w.clients && w.clients[k].Waiting? && w.clients[k].num == num && w.clients[k].size == s.transfers[k].size
    && Only(w.clients[k].msg.opts, BLOCK2) == []
  }

  /** A chunk before the final one is stored, and the Continue for it posted. */
  lemma ChunkComesIn(s: Setup, w: World, k: Bytes, num: nat, f: Flight)
    requires OnItsWay(s, w, k, num, f) && num < LastNum(s.transfers[k])
    ensures var w' := Uploads.Delivered(s.cfg, w, f, 0);
            IsStored(s, w', k, num) && Posted(f.msg.addr, Some(ContinueFor(f.msg))) <= w'.replies
  {
    var w' := Uploads.Delivered(s.cfg, w, f, 0);
    ChunkIsNew(s, w, k, num, f);
    BelowGrows(w.server.dedup, num);
    assert ServerInv(s, w);
    hide Inv, ServerInv, Deliverable, IsFrom;
    DeliveredRecords(s, w, f, 0);
    DeliverKeepsInv(s, w, f, 0);
    ChunkEffect(s, w, k, num, f);
    hide Arrives, Posted, ContinueFor, Uploads.Delivered, LastNum, RecordedBelow, IsDuplicate, Deduplicated, Typed;
  }

  lemma ChunkEffect(s: Setup, w: World, k: Bytes, num: nat, f: Flight)
    requires k in s.transfers && Arrives(s, w, f, k) && f.origin == Chunk(k, num) && num < LastNum(s.transfers[k])
    requires num > 0 ==> k in w.server.cache && w.server.cache[k].last == num - 1
    ensures var w' := Uploads.Delivered(s.cfg, w, f, 0);
            && w'.seen == w.seen && w'.clients == w.clients && w'.flights == w.flights
            && k in w'.server.cache && w'.server.cache[k].last == num
            && Posted(f.msg.addr, Some(ContinueFor(f.msg))) <= w'.replies
  {
    ChunkDispatched(s, w, f, k, 0);
    hide Arrives, Posted, ContinueFor, FailureFor, LastNum, Handler.Begin;
  }

  /** The client takes the Continue for its chunk and moves on to the next one. */
  lemma ContinueIsAccepted(s: Setup, w: World, k: Bytes, num: nat, f: Flight, w1: World) returns (r: Reply)
    requires OnItsWay(s, w, k, num, f) && num < LastNum(s.transfers[k])
    requires w1 == Uploads.Delivered(s.cfg, w, f, 0)
    ensures Allowed(s, w1, Accept(k, r)) && OnCourse(s, Next(s, w1, Accept(k, r)), k, num + 1)
  {
    ChunkComesIn(s, w, k, num, f);
    ChunkIsNew(s, w, k, num, f);
    ContinueReads(s, w, f, k, num);
    r := Reply(f.msg.addr, Arrived(ContinueFor(f.msg), []).value);
    NextOnCourse(s, w1, k, num, r);
    hide Arrives, Arrived, ContinueFor, LastNum, IsFrom, GetBlock1, Uploads.Delivered, UpTo, Posted, OnCourse, IsStored, Allowed;
  }

  lemma NextOnCourse(s: Setup, w: World, k: Bytes, num: nat, r: Reply)
    requires IsStored(s, w, k, num)
    requires r in w.replies && r.to == s.transfers[k].addr && r.msg.token == s.transfers[k].base.token
    requires r.msg.code == CODE_CONTINUE && GetBlock1(r.msg) == Some(Block(num, true, s.transfers[k].size))
    ensures Allowed(s, w, Accept(k, r)) && OnCourse(s, Next(s, w, Accept(k, r)), k, num + 1)
  {
    SetupHas(s, k);
    hide Deliverable, Proper, LastNum, GetBlock1, Inv, RecordedBelow;
    AcceptMoves(s, w, k, num, r);
    var w' := w.(clients := w.clients[k := Ready(num + 1, s.transfers[k].size, w.clients[k].msg)]);
    hide Allowed, Next;
    StepKeepsInv(s, w, Accept(k, r));
    StoredToCourse(s, w, w', k, num);
    hide IsStored, OnCourse;
  }

  lemma StoredToCourse(s: Setup, w: World, w': World, k: Bytes, num: nat)
    requires IsStored(s, w, k, num) && Inv(s, w')
    requires w' == w.(clients := w.clients[k := Ready(num + 1, s.transfers[k].size, w.clients[k].msg)])
    ensures OnCourse(s, w', k, num + 1)
  {
    assert LastNum(s.transfers[k]) < 0x1_0000;
    hide Deliverable, LastNum, Inv, RecordedBelow;
  }

  /** A Continue for the chunk waited for, echoing its block, leads to the next chunk at the same size. */
  lemma AcceptMoves(s: Setup, w: World, k: Bytes, num: nat, r: Reply)
    requires k in s.transfers && Proper(s.transfers[k]) && num < LastNum(s.transfers[k])
    requires k in w.clients && w.clients[k].Waiting? && w.clients[k].num == num && w.clients[k].size == s.transfers[k].size
    requires r in w.replies && r.to == s.transfers[k].addr && r.msg.token == s.transfers[k].base.token
    requires r.msg.code == CODE_CONTINUE && GetBlock1(r.msg) == Some(Block(num, true, s.transfers[k].size))
    ensures Allowed(s, w, Accept(k, r))
    ensures Next(s, w, Accept(k, r)) == w.(clients := w.clients[k := Ready(num + 1, s.transfers[k].size, w.clients[k].msg)])
  {
    ContinueMovesOn(s.transfers[k], num, w.clients[k].msg, r.msg);
    hide LastNum, Proper, GetBlock1, OnReply;
  }

  lemma ContinueReads(s: Setup, w: World, f: Flight, k: Bytes, num: nat)
    requires k in s.transfers && Arrives(s, w, f, k) && f.origin == Chunk(k, num) && num < LastNum(s.transfers[k])
    ensures var t, a := s.transfers[k], Arrived(ContinueFor(f.msg), []);
            && a.Some? && a.value.code == CODE_CONTINUE && a.value.token == t.base.token
            && GetBlock1(a.value) == Some(Block(num, true, t.size))
            && Posted(f.msg.addr, Some(ContinueFor(f.msg))) == {Reply(f.msg.addr, a.value)}
  {
    ChunkNumbers(s.transfers[k], num);
    ServerReplyArrives(f.msg, []);
    ReplyHeaderArrives(ContinueFor(f.msg), []);
    hide Arrived, LastNum, Proper, GetBlock1, CacheOk, SeenOk, FinalOk, CacheTyped, ClientSend.MoreChunks, Key, BlockKey;
  }

  /** The final chunk brings the whole payload to the callback. */
  lemma FinalComesIn(s: Setup, w: World, k: Bytes, num: nat, f: Flight)
    requires OnItsWay(s, w, k, num, f) && num == LastNum(s.transfers[k])
    ensures Sightings(Uploads.Delivered(s.cfg, w, f, 0).seen, k) == [Data(s.transfers[k])]
  {
    ChunkIsNew(s, w, k, num, f);
    NewDelivered(s, w, f, 0);
    FinalDelivered(s, w, f, k, 0);
    var b := Handler.Begin(w.server, f.msg, 0, s.cfg);
    FinalReads(s, w, f, k, num);
    assert Assembled(w.server, f.msg).addr == f.msg.addr && BlockKey(Assembled(w.server, f.msg)) == k by {
      KeyIgnoresBody(f.msg, Assembled(w.server, f.msg).payload, Assembled(w.server, f.msg).blockSize);
    }
    LastBlockInvokes(w.server, f.msg, 0, s.cfg);
    SightingsStep(w.seen, b.out.call, k);
    hide Handler.Begin, ProperSetup, Proper, Inv, LastNum, Arrives, BlockKey, GetBlock1, Assembled;
  }

  lemma FinalReads(s: Setup, w: World, f: Flight, k: Bytes, num: nat)
    requires k in s.transfers && Arrives(s, w, f, k) && f.origin == Chunk(k, num) && num == LastNum(s.transfers[k])
    ensures BlockKey(f.msg) == k && GetBlock1(f.msg) == Some(Block(num, false, s.transfers[k].size))
    ensures IsRequest(f.msg) && f.msg.mtype == CONFIRMABLE
  {
    ChunkNumbers(s.transfers[k], num);
    hide LastNum, Proper, GetBlock1, CacheOk, SeenOk, FinalOk, CacheTyped, ClientSend.MoreChunks, BlockKey, Key;
  }

  /** From chunk `num` on, sending, delivering and accepting each chunk in turn completes the upload. */
  lemma {:induction false} RestCompletes(s: Setup, w: World, k: Bytes, num: nat) returns (steps: seq<Step>)
    requires OnCourse(s, w, k, num)
    ensures Sightings(Run(s, w, steps).seen, k) == [Data(s.transfers[k])]
    decreases LastNum(s.transfers[k]) - num
  {
    var f := ChunkGoesOut(s, w, k, num);
    var w1 := ChunkSent(s.transfers[k], w, k, num);
    var w2 := Uploads.Delivered(s.cfg, w1, f, 0);
    var rest: seq<Step> := [];
    if num == LastNum(s.transfers[k]) {
      FinalComesIn(s, w1, k, num, f);
    } else {
      var r := ContinueIsAccepted(s, w1, k, num, f, w2);
      var later := RestCompletes(s, Next(s, w2, Accept(k, r)), k, num + 1);
      rest := [Accept(k, r)] + later;
      RunOne(s, w2, Accept(k, r), later);
    }
    steps := [SendChunk(k, num)] + ([Deliver(f, 0)] + rest);
    assert f in w1.flights;
    hide OnCourse, OnItsWay, Uploads.Delivered, ChunkSent, LastNum;
    RunRound(s, w, k, num, f, rest);
  }

  lemma RunRound(s: Setup, w: World, k: Bytes, mid: uint16, f: Flight, rest: seq<Step>)
    requires Allowed(s, w, SendChunk(k, mid)) && f in ChunkSent(s.transfers[k], w, k, mid).flights
    ensures Run(s, w, [SendChunk(k, mid)] + ([Deliver(f, 0)] + rest))
         == Run(s, Uploads.Delivered(s.cfg, ChunkSent(s.transfers[k], w, k, mid), f, 0), rest)
  {
    RunOne(s, w, SendChunk(k, mid), [Deliver(f, 0)] + rest);
    RunOne(s, ChunkSent(s.transfers[k], w, k, mid), Deliver(f, 0), rest);
    hide Run, Uploads.Delivered, ChunkSent;
  }

  /**
   * Completeness: if the network loses nothing and nothing expires, the callback sees the whole
   * payload, so the safety theorem is not about runs in which nothing happens.
   */
  lemma UploadCompletes(s: Setup, start: uint16, k: Bytes) returns (steps: seq<Step>)
    requires k in s.transfers && Deliverable(s, k)
    ensures Sightings(Run(s, Initial(s, start), steps).seen, k) == [s.transfers[k].base.payload]
  {
    var w := Initial(s, start);
    InitialOnCourse(s, start, k);
    hide Deliverable, OnCourse, Run, Initial;
    steps := RestCompletes(s, w, k, 0);
  }

  /**
   * The exact condition while the server forgets no endpoint of an upload: some run brings the
   * whole payload to the callback if and only if there are no more chunks than Message IDs.
   */
  lemma CompletesExactly(s: Setup, start: uint16, k: Bytes)
    requires k in s.transfers && Routed(s, k)
    ensures (exists steps :: Sightings(Run(s, Initial(s, start), steps).seen, k) == [s.transfers[k].base.payload])
       <==> LastNum(s.transfers[k]) < 0x1_0000
  {
    if LastNum(s.transfers[k]) < 0x1_0000 {
      var steps := UploadCompletes(s, start, k);
    } else {
      assert ProperSetup(s);
      hide ProperSetup, Run, Initial, LastNum;
      forall steps
        ensures Sightings(Run(s, Initial(s, start), steps).seen, k) == []
      {
        OverlongIsNeverSeen(s, start, steps, k);
      }
    }
  }

  lemma InitialOnCourse(s: Setup, start: uint16, k: Bytes)
    requires k in s.transfers && Deliverable(s, k)
    ensures OnCourse(s, Initial(s, start), k, 0)
  {
    var w := Initial(s, start);
    InitialInv(s, start);
    SortIsStable(s.transfers[k].base.opts);
    assert forall a, m: uint16 :: !Dedup.Recorded(w.server.dedup, a, m);
    assert RecordedBelow(w.server.dedup, 0);
    hide Inv, Deliverable, RecordedBelow, LastNum, Only;
  }
}
