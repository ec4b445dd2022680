/**
 * Block-wise uploads over whole runs: any number of clients in `Send` (send.go:30-105), a
 * network that loses, duplicates and reorders, other traffic, and the server of handler.go
 * with its callbacks returning at any later time. Sections 2.3 and 2.4 of RFC 7959.
 */
module Uploads {
  import opened Basics
  import opened Messages
  import opened Codec
  import opened Blocks
  import opened BlockCache
  import opened Handler
  import opened HandlerFrame
  import opened Transfers
  import Dedup
  import Pending
  import ClientSend

  /** The uploads to be made, by block key, and the server's configuration. */
  datatype Setup = Setup(transfers: map<Bytes, Transfer>, cfg: Config)

  /** Distinct uploads have distinct block keys, and tokens that differ if they come from one address. */
  ghost predicate ProperSetup(s: Setup) {
    && (forall k <- s.transfers :: Proper(s.transfers[k]) && Key(s.transfers[k]) == k)
    && (forall k <- s.transfers, k' <- s.transfers ::
          s.transfers[k].addr == s.transfers[k'].addr && s.transfers[k].base.token == s.transfers[k'].base.token ==> k == k')
  }

  /** Why a packet was sent; the server does not look at it. */
  datatype Origin = Chunk(key: Bytes, num: nat) | Fetch(key: Bytes) | Foreign

  datatype Flight = Flight(origin: Origin, msg: Msg)

  /** A reply on its way, as its receiver reads it. */
  datatype Reply = Reply(to: Bytes, msg: Msg)

  /**
   * Packets and replies stay in flight for ever: losing one is not delivering it. `calls` are
   * the callbacks that have not returned. `seen`, `taken`, `firsts` and `finals` record history:
   * every callback invocation, the chunks the server did not take for duplicates, and the
   * Message IDs given to first and final chunks.
   */
  datatype World = World(
    server: State,
    flights: set<Flight>,
    replies: set<Reply>,
    calls: set<Call>,
    seen: seq<Call>,
    clients: map<Bytes, Phase>,
    taken: set<Flight>,
    firsts: map<Bytes, uint16>,
    finals: map<Bytes, uint16>)

  function Initial(s: Setup, start: uint16): World {
    World(State(Dedup.EMPTY_TABLE, map[], Pending.Initial(start)), {}, {}, {}, [],
          map k | k in s.transfers :: Transfers.Begin(s.transfers[k]), {}, map[], map[])
  }

  datatype Step =
    | SendChunk(key: Bytes, mid: uint16)
    | SendFetch(key: Bytes, mid: uint16)
    | Accept(key: Bytes, reply: Reply)
    | GiveUp(key: Bytes)
    | Inject(from: Bytes, data: Bytes)
    | Deliver(flight: Flight, now: int)
    | Return(call: Call, answer: Option<Msg>, now: int)
    | ExpireBlocks(now: int)
    | WatchDedup(now: int)

  /** The message has the block key of upload `k`, or comes from its client under its token. */
  predicate Concerns(s: Setup, m: Msg, k: Bytes)
    requires k in s.transfers
  {
    BlockKey(m) == k || (m.addr == s.transfers[k].addr && m.token == s.transfers[k].base.token)
  }

  /** Not part of any upload: another key, and another token if from an uploader's address. */
  ghost predicate IsForeign(s: Setup, m: Msg) {
    Typed(m) && |m.token| <= 8 && forall k <- s.transfers :: !Concerns(s, m, k)
  }

  function Flown(origin: Origin, arrived: Option<Msg>): set<Flight> {
    if arrived.Some? then {Flight(origin, arrived.value)} else {}
  }

  function Posted(to: Bytes, rsp: Option<Msg>): set<Reply> {
    if rsp.Some? && Arrived(rsp.value, []).Some? then {Reply(to, Arrived(rsp.value, []).value)} else {}
  }

  /** The client is at the head of its loop and the slice it takes is within the data. */
  predicate Sendable(t: Transfer, w: World, k: Bytes) {
    k in w.clients && w.clients[k].Ready? && w.clients[k].num * w.clients[k].size <= |Data(t)|
  }

  /** The message the client sends next. */
  function NextChunk(t: Transfer, w: World, k: Bytes): Msg
    requires Sendable(t, w, k)
  {
    ClientSend.ChunkMessage(w.clients[k].msg, Data(t), w.clients[k].num, w.clients[k].size)
  }

  /**
   * What may happen. Any packet or reply may be delivered at any time, any number of times, and
   * anybody may use any Message ID, also one that is still in use.
   */
  ghost predicate Allowed(s: Setup, w: World, step: Step) {
    match step
    case SendChunk(k, mid) => k in s.transfers && Sendable(s.transfers[k], w, k)
    case SendFetch(k, mid) => k in s.transfers && k in w.clients && w.clients[k].Asking?
    case Accept(k, r) =>
      && k in s.transfers && k in w.clients && (w.clients[k].Waiting? || w.clients[k].Fetching?)
      && r in w.replies && r.to == s.transfers[k].addr
      && r.msg.token == s.transfers[k].base.token && r.msg.code != CODE_EMPTY
    case GiveUp(k) => k in s.transfers && k in w.clients
    case Inject(from, data) => Parse(data).Ok? && IsForeign(s, Parse(data).value.(addr := from))
    case Deliver(f, now) => f in w.flights
    case Return(call, answer, now) => call in w.calls && (answer.Some? ==> ReplyTo(answer.value, call.req))
    case ExpireBlocks(now) => true
    case WatchDedup(now) =>
      // The endpoints of uploads do not expire during the run.
      forall k <- s.transfers :: s.transfers[k].addr in w.server.dedup.deleteAfter
        ==> w.server.dedup.deleteAfter[s.transfers[k].addr] >= now
  }

  function ChunkSent(t: Transfer, w: World, k: Bytes, mid: uint16): World
    requires Sendable(t, w, k)
  {
    var p := w.clients[k];
    var m := NextChunk(t, w, k);
    w.(clients := w.clients[k := Waiting(p.num, p.size, m)],
       flights := w.flights + Flown(Chunk(k, p.num), Arrived(m.(mid := mid), t.addr)),
       firsts := if p.num == 0 then w.firsts[k := mid] else w.firsts,
       finals := if ClientSend.MoreChunks(Data(t), p.num, p.size) then w.finals else w.finals[k := mid])
  }

  function FetchSent(t: Transfer, w: World, k: Bytes, mid: uint16): World
    requires k in w.clients && w.clients[k].Asking?
  {
    var p := w.clients[k];
    var m := ClientSend.FetchMessage(p.msg, p.block, p.size);
    w.(clients := w.clients[k := Fetching(p.block, m)],
       flights := w.flights + Flown(Fetch(k), Arrived(m.(mid := mid), t.addr)))
  }

  function NextPhase(t: Transfer, p: Phase, rsp: Msg): Phase {
    match p
    case Waiting(num, size, m) => OnReply(t, num, size, m, rsp)
    case Fetching(block, m) => OnBlock(block, m, rsp)
    case _ => p
  }

  function Delivered(cfg: Config, w: World, f: Flight, now: int): World {
    var b := Handler.Begin(w.server, f.msg, now, cfg);
    w.(server := b.st,
       replies := w.replies + Posted(f.msg.addr, b.sent) + Posted(f.msg.addr, if b.out.Answer? then Some(b.out.rsp) else None),
       calls := if b.out.Invoke? then w.calls + {b.out.call} else w.calls,
       taken := if f.origin.Chunk? && !IsDuplicate(w.server.dedup, f.msg) then w.taken + {f} else w.taken,
       seen := if b.out.Invoke? then w.seen + [b.out.call] else w.seen)
  }

  function Returned(cfg: Config, w: World, call: Call, answer: Option<Msg>, now: int): World {
    var (st, rsp) := Complete(w.server, call, answer, now, cfg);
    w.(server := st, replies := w.replies + Posted(call.req.addr, rsp), calls := w.calls - {call})
  }

  ghost function Next(s: Setup, w: World, step: Step): World
    requires Allowed(s, w, step)
  {
    match step
    case SendChunk(k, mid) => ChunkSent(s.transfers[k], w, k, mid)
    case SendFetch(k, mid) => FetchSent(s.transfers[k], w, k, mid)
    case Accept(k, r) => w.(clients := w.clients[k := NextPhase(s.transfers[k], w.clients[k], r.msg)])
    case GiveUp(k) => w.(clients := w.clients[k := Stopped])
    case Inject(from, data) => w.(flights := w.flights + {Flight(Foreign, Parse(data).value.(addr := from))})
    case Deliver(f, now) => Delivered(s.cfg, w, f, now)
    case Return(call, answer, now) => Returned(s.cfg, w, call, answer, now)
    case ExpireBlocks(now) => w.(server := w.server.(cache := Expire(w.server.cache, now)))
    case WatchDedup(now) => w.(server := w.server.(dedup := Dedup.Sweep(w.server.dedup, now)))
  }

  /** Steps that are not allowed do not happen. */
  ghost function Run(s: Setup, w: World, steps: seq<Step>): World
    decreases |steps|
  {
    if steps == [] then w
    else Run(s, if Allowed(s, w, steps[0]) then Next(s, w, steps[0]) else w, steps[1..])
  }

  /** The payloads of the invocations under key `k` that carried a Block1 option. */
  function Sightings(seen: seq<Call>, k: Bytes): seq<Bytes> {
    if seen == [] then []
    else
      var call := seen[|seen| - 1];
      Sightings(seen[..|seen| - 1], k) + if BlockKey(call.req) == k && call.block1.Some? then [call.req.payload] else []
  }

  // ----- The invariant -----

  /** The server has taken in chunk `num`. */
  ghost predicate Taken(taken: set<Flight>, k: Bytes, num: nat) {
    exists f <- taken :: f.origin == Chunk(k, num)
  }

  ghost predicate Received(s: Setup, w: World, k: Bytes)
    requires k in s.transfers
  {
    Taken(w.taken, k, LastNum(s.transfers[k]))
  }

  ghost predicate Started(s: Setup, w: World, k: Bytes)
    requires k in s.transfers
  {
    Taken(w.taken, k, 0)
  }

  /** Block `j` has been stored: what is cached, if anything still is, goes at least that far. */
  ghost predicate Reached(s: Setup, w: World, k: Bytes, j: nat)
    requires k in s.transfers
  {
    Started(s, w, k) && (k in w.server.cache ==> w.server.cache[k].last >= j)
  }

  ghost predicate FlightOk(s: Setup, w: World, f: Flight) {
    match f.origin
    case Chunk(k, num) =>
      && k in s.transfers && num <= LastNum(s.transfers[k]) && num * s.transfers[k].size <= |Data(s.transfers[k])|
      && IsChunk(s.transfers[k], num, f.msg) && (num > 0 ==> Taken(w.taken, k, num - 1))
      && (num == 0 ==> k in w.firsts && w.firsts[k] == f.msg.mid)
      && (num == LastNum(s.transfers[k]) ==> k in w.finals && w.finals[k] == f.msg.mid)
    case Fetch(k) => k in s.transfers && IsFetch(s.transfers[k], f.msg) && Received(s, w, k)
    case Foreign => IsForeign(s, f.msg)
  }

  /** Every chunk taken in has used up a Message ID of its own, which is still recorded. */
  ghost predicate TakenOk(s: Setup, w: World) {
    && (forall f <- w.taken :: f in w.flights && f.origin.Chunk? && Dedup.Recorded(w.server.dedup, f.msg.addr, f.msg.mid))
    && (forall f <- w.taken, g <- w.taken :: f.msg.addr == g.msg.addr && f.msg.mid == g.msg.mid ==> f == g)
    && (forall k <- s.transfers :: Received(s, w, k) ==> k in w.finals)
  }

  /** Until the final chunk is in, the client is never ahead of what the server has stored. */
  ghost predicate ClientOk(s: Setup, w: World, k: Bytes)
    requires k in s.transfers
  {
    var t := s.transfers[k];
    k in w.clients &&
    match w.clients[k]
    case Ready(num, size, msg) =>
      && Derived(t, msg) && size == t.size && num <= LastNum(t) && k !in w.finals
      && (if num == 0 then k !in w.firsts else Reached(s, w, k, num - 1) && Taken(w.taken, k, num - 1))
    case Waiting(num, size, msg) =>
      && Derived(t, msg) && size == t.size && num <= LastNum(t) && (num < LastNum(t) ==> k !in w.finals)
    case Asking(block, size, msg) => Unblocked(t, msg) && Received(s, w, k)
    case Fetching(block, msg) => Unblocked(t, msg) && Received(s, w, k)
    case Stopped => true
  }

  ghost predicate FinalOk(s: Setup, w: World, k: Bytes)
    requires k in s.transfers
  {
    var last := LastNum(s.transfers[k]);
    k in w.finals && !Received(s, w, k) && last > 0 ==> Reached(s, w, k, last - 1)
  }

  /** A cached upload is the prefix of `last + 1` blocks. */
  ghost predicate CacheOk(s: Setup, w: World, k: Bytes)
    requires k in s.transfers
  {
    var t := s.transfers[k];
    !Received(s, w, k) && k in w.server.cache ==>
      var e := w.server.cache[k];
      && Started(s, w, k) && e.last < LastNum(t) && (e.last + 1) * t.size <= |Data(t)|
      && e.rsp.payload == Data(t)[..(e.last + 1) * t.size]
  }

  /** Before the final chunk is in, a client hears failures, or Continue for a block that is stored. */
  ghost predicate HonestReply(s: Setup, w: World, k: Bytes, m: Msg)
    requires k in s.transfers
  {
    var t := s.transfers[k];
    && GetBlock2(m) == None
    && if m.code == CODE_CONTINUE then
         && GetBlock1(m).Some? && GetBlock1(m).value.more && GetBlock1(m).value.size == t.size
         && GetBlock1(m).value.num < LastNum(t) && Reached(s, w, k, GetBlock1(m).value.num)
         && Taken(w.taken, k, GetBlock1(m).value.num)
       else GetBlock1(m) == None
  }

  ghost predicate ReplyOk(s: Setup, w: World, k: Bytes, r: Reply)
    requires k in s.transfers
  {
    var t := s.transfers[k];
    (r.to == t.addr && r.msg.token == t.base.token && r.msg.code != CODE_EMPTY && !Received(s, w, k)) ==>
      HonestReply(s, w, k, r.msg)
  }

  ghost predicate OwnEntry(t: Dedup.Table, i: nat, addr: Bytes) {
    && i < |t.entries|
    && forall a, m :: Dedup.Recorded(t, a, m) && t.endpoints[a][m] == i ==> a == addr
  }

  /** A callback under way is not part of an upload still going on, and its dedup entry is its own. */
  ghost predicate CallOk(s: Setup, w: World, call: Call) {
    var dedup := w.server.dedup;
    && Typed(call.req) && |call.req.token| <= 8
    && (forall k <- s.transfers :: Concerns(s, call.req, k) ==> Received(s, w, k))
    && (call.entry.Some? ==> OwnEntry(dedup, call.entry.value, call.req.addr))
  }

  /** A saved answer has been sent before. */
  ghost predicate SavedSent(t: Dedup.Table, replies: set<Reply>) {
    forall a, m :: Dedup.Recorded(t, a, m) && t.endpoints[a][m] < |t.entries| ==>
      Posted(a, t.entries[t.endpoints[a][m]].rsp) <= replies
  }

  ghost predicate SeenOk(s: Setup, w: World, k: Bytes)
    requires k in s.transfers
  {
    Sightings(w.seen, k) == [] || (Received(s, w, k) && Sightings(w.seen, k) == [Data(s.transfers[k])])
  }

  ghost predicate ClientInv(s: Setup, w: World) {
    && (forall f <- w.flights :: FlightOk(s, w, f))
    && (forall k <- s.transfers :: ClientOk(s, w, k) && FinalOk(s, w, k))
  }

  ghost predicate ServerInv(s: Setup, w: World) {
    && Dedup.Valid(w.server.dedup) && CacheTyped(w.server.cache) && SavedSent(w.server.dedup, w.replies)
    && (forall call <- w.calls :: CallOk(s, w, call))
    && (forall k <- s.transfers :: CacheOk(s, w, k) && SeenOk(s, w, k))
    && (forall k <- s.transfers, r <- w.replies :: ReplyOk(s, w, k, r))
  }

  ghost predicate Inv(s: Setup, w: World) {
    ProperSetup(s) && ClientInv(s, w) && ServerInv(s, w) && TakenOk(s, w)
  }

  lemma InitialServerInv(s: Setup, start: uint16)
    ensures ServerInv(s, Initial(s, start))
  {
    hide LastNum, Sightings;
    var w := Initial(s, start);
    assert forall a, m :: !Dedup.Recorded(w.server.dedup, a, m);
    hide Dedup.Recorded;
    forall k <- s.transfers
      ensures CacheOk(s, w, k) && SeenOk(s, w, k)
    {
      NothingSeen(k);
    }
  }

  lemma NothingSeen(k: Bytes)
    ensures Sightings([], k) == []
  {
  }

  lemma InitialInv(s: Setup, start: uint16)
    requires ProperSetup(s)
    ensures Inv(s, Initial(s, start))
  {
    var w := Initial(s, start);
    InitialServerInv(s, start);
    forall k <- s.transfers
      ensures ClientOk(s, w, k) && FinalOk(s, w, k)
    {
      InitialClientOk(s, start, k);
    }
    InitialTakenOk(s, start);
    hide ServerInv, ClientOk, FinalOk, ProperSetup, TakenOk;
  }

  lemma InitialTakenOk(s: Setup, start: uint16)
    ensures TakenOk(s, Initial(s, start))
  {
    hide LastNum;
  }

  lemma InitialClientOk(s: Setup, start: uint16, k: Bytes)
    requires k in s.transfers && Proper(s.transfers[k])
    ensures ClientOk(s, Initial(s, start), k) && FinalOk(s, Initial(s, start), k)
  {
    BaseIsDerived(s.transfers[k]);
    hide Derived, Proper, Dedup.Recorded;
  }

  // ----- What grows -----

  /** What the server has taken in of upload `k` is kept, and what it has stored is kept while it matters. */
  ghost predicate Grows(s: Setup, w: World, w': World, k: Bytes)
    requires k in s.transfers
  {
    && w.taken <= w'.taken
    && (Received(s, w, k) ==> Received(s, w', k))
    && (Started(s, w, k) ==> Started(s, w', k))
    && (!Received(s, w', k) ==> forall j: nat :: Reached(s, w, k, j) ==> Reached(s, w', k, j))
  }

  lemma ReplyGrows(s: Setup, w: World, w': World, k: Bytes, r: Reply)
    requires k in s.transfers && Grows(s, w, w', k) && ReplyOk(s, w, k, r)
    ensures ReplyOk(s, w', k, r)
  {
    hide Received, Started, Reached, GetBlock1, GetBlock2, LastNum;
  }

  lemma CallGrows(s: Setup, w: World, w': World, call: Call)
    requires forall k <- s.transfers :: Grows(s, w, w', k)
    requires CallOk(s, w, call) && w'.server.dedup == w.server.dedup
    ensures CallOk(s, w', call)
  {
    hide Received, Started, Reached, Concerns, OwnEntry;
  }

  lemma FlightGrows(s: Setup, w: World, w': World, f: Flight)
    requires FlightOk(s, w, f)
    requires forall k <- s.transfers :: Grows(s, w, w', k)
    requires f.origin.Chunk? && f.origin.num == 0 ==>
               (f.origin.key in w.firsts ==> f.origin.key in w'.firsts && w'.firsts[f.origin.key] == w.firsts[f.origin.key])
    requires f.origin.Chunk? && f.origin.key in s.transfers && f.origin.num == LastNum(s.transfers[f.origin.key]) ==>
               (f.origin.key in w.finals ==> f.origin.key in w'.finals && w'.finals[f.origin.key] == w.finals[f.origin.key])
    ensures FlightOk(s, w', f)
  {
    hide Received, Started, Reached, IsChunk, IsFetch, IsForeign, LastNum;
  }

  lemma ClientGrows(s: Setup, w: World, w': World, k: Bytes)
    requires k in s.transfers && Grows(s, w, w', k) && ClientOk(s, w, k) && FinalOk(s, w, k)
    requires k in w'.clients && w'.clients[k] == w.clients[k]
    requires k in w.firsts <==> k in w'.firsts
    requires k in w.finals <==> k in w'.finals
    requires Received(s, w', k) ==> k in w'.finals
    ensures ClientOk(s, w', k) && FinalOk(s, w', k)
  {
    hide Received, Started, Reached, Derived, Unblocked, LastNum;
  }

  /** With the same chunks taken in and none of their Message IDs forgotten. */
  lemma TakenKept(s: Setup, w: World, w': World)
    requires TakenOk(s, w) && w'.taken == w.taken && w.flights <= w'.flights && Extends(w.finals, w'.finals)
    requires forall f <- w.taken :: Dedup.Recorded(w'.server.dedup, f.msg.addr, f.msg.mid)
    ensures TakenOk(s, w')
  {
    hide Taken, LastNum, Dedup.Recorded;
  }

  lemma StoredGrows(s: Setup, w: World, w': World, k: Bytes)
    requires k in s.transfers && Grows(s, w, w', k)
    requires w'.server.cache == w.server.cache && w'.seen == w.seen && CacheOk(s, w, k) && SeenOk(s, w, k)
    ensures CacheOk(s, w', k) && SeenOk(s, w', k)
  {
    hide Received, Started, Reached, LastNum;
  }

  /** Nothing but history changed for the server, and it only grew. */
  lemma HistoryGrows(s: Setup, w: World, w': World)
    requires ServerInv(s, w) && w'.server == w.server && w'.calls == w.calls && w'.seen == w.seen && w'.replies == w.replies
    requires forall k <- s.transfers :: Grows(s, w, w', k)
    ensures ServerInv(s, w')
  {
    hide CallOk, CacheOk, SeenOk, ReplyOk, Grows, Dedup.Valid, CacheTyped;
    forall call <- w'.calls
      ensures CallOk(s, w', call)
    {
      CallGrows(s, w, w', call);
    }
    forall k <- s.transfers
      ensures CacheOk(s, w', k) && SeenOk(s, w', k)
    {
      StoredGrows(s, w, w', k);
    }
    forall k <- s.transfers, r <- w'.replies
      ensures ReplyOk(s, w', k, r)
    {
      ReplyGrows(s, w, w', k, r);
    }
  }

  // ----- Steps of the clients -----

  ghost predicate Extends(m: map<Bytes, uint16>, m': map<Bytes, uint16>) {
    forall k <- m :: k in m' && m'[k] == m[k]
  }

  lemma SameReached(s: Setup, w: World, w': World, k: Bytes, j: nat)
    requires k in s.transfers && Reached(s, w, k, j) && w'.server == w.server && w'.taken == w.taken
    ensures Reached(s, w', k, j)
  {
    hide Taken;
  }

  /** With the server untouched, history that only gets longer is growth. */
  lemma SameServerGrows(s: Setup, w: World, w': World, k: Bytes)
    requires k in s.transfers && w'.server == w.server && w'.taken == w.taken
    ensures Grows(s, w, w', k)
  {
    hide Taken;
  }

  ghost predicate SameBut(m: map<Bytes, uint16>, m': map<Bytes, uint16>, key: Bytes) {
    forall k :: k != key ==> (k in m <==> k in m')
  }

  lemma NewKeyExtends(m: map<Bytes, uint16>, key: Bytes, mid: uint16)
    ensures Extends(m, m) && SameBut(m, m, key) && SameBut(m, m[key := mid], key)
    ensures key !in m ==> Extends(m, m[key := mid])
  {
  }

  /** First and final chunks are sent once. */
  lemma ChunkSentHistory(s: Setup, w: World, k: Bytes, mid: uint16)
    requires k in s.transfers && Proper(s.transfers[k]) && Sendable(s.transfers[k], w, k) && ClientOk(s, w, k)
    ensures var w' := ChunkSent(s.transfers[k], w, k, mid);
            var num := w.clients[k].num;
            && Extends(w.firsts, w'.firsts) && Extends(w.finals, w'.finals)
            && (num == 0 ==> k in w'.firsts && w'.firsts[k] == mid)
            && (if num == LastNum(s.transfers[k]) then k in w'.finals && w'.finals[k] == mid else k !in w'.finals)
            && SameBut(w.firsts, w'.firsts, k) && SameBut(w.finals, w'.finals, k)
  {
    ChunkNumbers(s.transfers[k], w.clients[k].num);
    NewKeyExtends(w.firsts, k, mid);
    NewKeyExtends(w.finals, k, mid);
    hide Proper, Derived, LastNum, Reached, Taken, NextChunk, ClientSend.MoreChunks, Arrived, Received, Extends, SameBut;
  }

  /** The new packet is the chunk it should be. */
  lemma ChunkFlown(s: Setup, w: World, k: Bytes, mid: uint16) returns (f: Flight)
    requires k in s.transfers && Proper(s.transfers[k]) && Sendable(s.transfers[k], w, k)
    requires ClientOk(s, w, k) && w.clients[k].num < MAX_BLOCKS
    ensures var w' := ChunkSent(s.transfers[k], w, k, mid);
            && w'.flights == w.flights + {f} && f.origin == Chunk(k, w.clients[k].num)
            && Arrived(NextChunk(s.transfers[k], w, k).(mid := mid), s.transfers[k].addr) == Some(f.msg)
            && f.msg.addr == s.transfers[k].addr && f.msg.mid == mid
            && FlightOk(s, w', f) && Derived(s.transfers[k], NextChunk(s.transfers[k], w, k))
  {
    var t, p := s.transfers[k], w.clients[k];
    var w' := ChunkSent(t, w, k, mid);
    ChunkSentHistory(s, w, k, mid);
    ChunkArrives(t, p.msg, p.num, mid);
    f := Flight(Chunk(k, p.num), Arrived(NextChunk(t, w, k).(mid := mid), t.addr).value);
    hide Proper, Derived, LastNum, Reached, Taken, ClientSend.ChunkMessage, ClientSend.MoreChunks, Arrived, Received, Extends;
    assert f.msg.addr == t.addr;
    hide IsChunk;
  }

  /** ... and the client waits for the reply to it. */
  lemma ChunkSentOk(s: Setup, w: World, k: Bytes, mid: uint16) returns (f: Flight)
    requires k in s.transfers && Proper(s.transfers[k]) && Sendable(s.transfers[k], w, k)
    requires ClientOk(s, w, k) && FinalOk(s, w, k) && w.clients[k].num < MAX_BLOCKS
    ensures var w' := ChunkSent(s.transfers[k], w, k, mid);
            && w'.flights == w.flights + {f} && f.origin == Chunk(k, w.clients[k].num)
            && Arrived(NextChunk(s.transfers[k], w, k).(mid := mid), s.transfers[k].addr) == Some(f.msg)
            && f.msg.addr == s.transfers[k].addr && f.msg.mid == mid
            && FlightOk(s, w', f) && ClientOk(s, w', k) && FinalOk(s, w', k)
  {
    var t, p := s.transfers[k], w.clients[k];
    var w' := ChunkSent(t, w, k, mid);
    f := ChunkFlown(s, w, k, mid);
    ChunkSentHistory(s, w, k, mid);
    if p.num > 0 { SameReached(s, w, w', k, p.num - 1); }
    hide Proper, Derived, LastNum, Reached, Taken, FlightOk, NextChunk, Arrived, Received, Extends, SameBut;
  }

  /** The other clients and the packets in flight do not notice. */
  lemma OthersKept(s: Setup, w: World, w': World, key: Bytes)
    requires ProperSetup(s) && ClientInv(s, w) && (forall k <- s.transfers :: Grows(s, w, w', k))
    requires forall k <- s.transfers :: Received(s, w', k) ==> k in w'.finals
    requires Extends(w.firsts, w'.firsts) && Extends(w.finals, w'.finals)
    requires SameBut(w.firsts, w'.firsts, key) && SameBut(w.finals, w'.finals, key)
    requires forall k :: k != key && k in w.clients ==> k in w'.clients && w'.clients[k] == w.clients[k]
    ensures forall k <- s.transfers :: k != key ==> ClientOk(s, w', k) && FinalOk(s, w', k)
    ensures forall f <- w.flights :: FlightOk(s, w', f)
  {
    hide Grows, FinalOk, FlightOk, Received;
    forall k <- s.transfers | k != key
      ensures ClientOk(s, w', k) && FinalOk(s, w', k)
    {
      ClientGrows(s, w, w', k);
    }
    forall f <- w.flights
      ensures FlightOk(s, w', f)
    {
      FlightGrows(s, w, w', f);
    }
  }

  /** A step of one client, with at most the packet `sent` joining those in flight. */
  lemma ClientMoves(s: Setup, w: World, w': World, key: Bytes, sent: set<Flight>)
    requires Inv(s, w)
    requires w' == w.(clients := w'.clients, flights := w.flights + sent, firsts := w'.firsts, finals := w'.finals)
    requires Extends(w.firsts, w'.firsts) && Extends(w.finals, w'.finals)
    requires SameBut(w.firsts, w'.firsts, key) && SameBut(w.finals, w'.finals, key)
    requires forall k :: k != key && k in w.clients ==> k in w'.clients && w'.clients[k] == w.clients[k]
    requires key in s.transfers ==> ClientOk(s, w', key) && FinalOk(s, w', key)
    requires forall f <- sent :: FlightOk(s, w', f)
    ensures Inv(s, w')
  {
    forall k <- s.transfers
      ensures Grows(s, w, w', k)
    {
      SameServerGrows(s, w, w', k);
    }
    TakenKept(s, w, w');
    hide ClientOk, FinalOk, FlightOk, ServerInv, TakenOk, Extends, SameBut, Grows, Taken;
    OthersKept(s, w, w', key);
    HistoryGrows(s, w, w');
  }

  /** Some chunk before `num` was taken in under this Message ID. */
  ghost predicate TakenUnder(w: World, k: Bytes, num: nat, mid: uint16) {
    exists f <- w.taken :: f.origin.Chunk? && f.origin.key == k && f.origin.num < num && f.msg.mid == mid
  }

  lemma MidIsNew(s: Setup, w: World, k: Bytes, f: Flight)
    requires TakenOk(s, w) && (forall g <- w.flights :: FlightOk(s, w, g))
    requires f in w.taken && f.origin.Chunk? && f.origin.key == k
    ensures !TakenUnder(w, k, f.origin.num, f.msg.mid)
  {
    forall g <- w.taken | g.origin.Chunk? && g.origin.key == k && g.msg.mid == f.msg.mid
      ensures g == f
    {
      assert FlightOk(s, w, f) && FlightOk(s, w, g);
      hide BlockKey, Key, LastNum, GetBlock1, ClientSend.MoreChunks, Received, Taken;
    }
  }

  lemma TakenUnderGrows(w: World, k: Bytes, num: nat, f: Flight)
    requires f in w.taken && f.origin == Chunk(k, num)
    ensures TakenUnder(w, k, num + 1, f.msg.mid)
    ensures forall mid: uint16 :: TakenUnder(w, k, num, mid) ==> TakenUnder(w, k, num + 1, mid)
  {
  }

  /** The packet of a chunk taken in; the chunk before it was taken in as well. */
  lemma TakenFlight(s: Setup, w: World, k: Bytes, num: nat) returns (f: Flight)
    requires k in s.transfers && ClientInv(s, w) && TakenOk(s, w) && Taken(w.taken, k, num)
    ensures f in w.taken && f.origin == Chunk(k, num)
    ensures num > 0 ==> Taken(w.taken, k, num - 1)
    ensures !TakenUnder(w, k, num, f.msg.mid)
  {
    f :| f in w.taken && f.origin == Chunk(k, num);
    MidIsNew(s, w, k, f);
    assert FlightOk(s, w, f);
    hide IsChunk, LastNum, ClientOk, FinalOk, TakenUnder, Received;
  }

  /** The Message IDs the first `num` chunks were taken in under: each used up its own. */
  lemma {:induction false} MidsTaken(s: Setup, w: World, k: Bytes, num: nat) returns (mids: set<uint16>)
    requires k in s.transfers && ClientInv(s, w) && TakenOk(s, w)
    requires num > 0 ==> Taken(w.taken, k, num - 1)
    ensures |mids| == num && forall mid <- mids :: TakenUnder(w, k, num, mid)
  {
    hide ClientInv, TakenOk, Taken, TakenUnder;
    mids := {};
    if num > 0 {
      var f := TakenFlight(s, w, k, num - 1);
      mids := MidsTaken(s, w, k, num - 1);
      TakenUnderGrows(w, k, num - 1, f);
      mids := mids + {f.msg.mid};
    }
  }

  lemma {:induction false} FitsBelow(xs: set<uint16>, n: nat)
    requires forall x <- xs :: x < n
    ensures |xs| <= n
  {
    if n > 0 {
      FitsBelow(xs - {n - 1}, n - 1);
    }
  }

  /** As long as the server forgets none of them, it takes in no chunk after number 65535. */
  lemma TakenFitsMids(s: Setup, w: World, k: Bytes, num: nat)
    requires k in s.transfers && ClientInv(s, w) && TakenOk(s, w) && Taken(w.taken, k, num)
    ensures num < 0x1_0000
  {
    hide ClientInv, TakenOk, Taken, TakenUnder;
    var mids := MidsTaken(s, w, k, num + 1);
    FitsBelow(mids, 0x1_0000);
  }

  lemma FewChunks(s: Setup, w: World, k: Bytes)
    requires k in s.transfers && ClientInv(s, w) && TakenOk(s, w) && w.clients[k].Ready?
    ensures w.clients[k].num <= 0x1_0000
  {
    assert ClientOk(s, w, k);
    hide ClientInv, TakenOk, Taken, Derived, LastNum, Reached;
    var num := w.clients[k].num;
    if num > 0 { TakenFitsMids(s, w, k, num - 1); }
  }

  lemma SendChunkKeepsInv(s: Setup, w: World, key: Bytes, mid: uint16)
    requires Inv(s, w) && key in s.transfers && Sendable(s.transfers[key], w, key)
    ensures Inv(s, ChunkSent(s.transfers[key], w, key, mid))
  {
    hide ClientOk, FinalOk, FlightOk, ServerInv, TakenOk, Extends;
    FewChunks(s, w, key);
    var f := ChunkSentOk(s, w, key, mid);
    ChunkSentHistory(s, w, key, mid);
    ClientMoves(s, w, ChunkSent(s.transfers[key], w, key, mid), key, {f});
  }

  lemma FetchSentOk(s: Setup, w: World, k: Bytes, mid: uint16) returns (f: Flight)
    requires k in s.transfers && Proper(s.transfers[k]) && k in w.clients && w.clients[k].Asking?
    requires ClientOk(s, w, k) && FinalOk(s, w, k)
    ensures var w' := FetchSent(s.transfers[k], w, k, mid);
            && w'.flights == w.flights + {f}
            && f.msg.addr == s.transfers[k].addr && f.msg.mid == mid
            && FlightOk(s, w', f) && ClientOk(s, w', k) && FinalOk(s, w', k)
  {
    var t, p := s.transfers[k], w.clients[k];
    FetchArrives(t, p.msg, p.block, p.size, mid);
    f := Flight(Fetch(k), Arrived(ClientSend.FetchMessage(p.msg, p.block, p.size).(mid := mid), t.addr).value);
    hide Proper, Derived, LastNum, Arrived, ClientSend.FetchMessage, Unblocked;
    assert f.msg.addr == t.addr;
    hide IsFetch;
  }

  lemma SendFetchKeepsInv(s: Setup, w: World, key: Bytes, mid: uint16)
    requires Inv(s, w) && key in s.transfers && key in w.clients && w.clients[key].Asking?
    ensures Inv(s, FetchSent(s.transfers[key], w, key, mid))
  {
    hide ClientOk, FinalOk, FlightOk, ServerInv, TakenOk;
    var f := FetchSentOk(s, w, key, mid);
    ClientMoves(s, w, FetchSent(s.transfers[key], w, key, mid), key, {f});
  }

  lemma InjectKeepsInv(s: Setup, w: World, m: Msg)
    requires Inv(s, w) && IsForeign(s, m)
    ensures Inv(s, w.(flights := w.flights + {Flight(Foreign, m)}))
  {
    var f := Flight(Foreign, m);
    var w' := w.(flights := w.flights + {f});
    assert FlightOk(s, w', f);
    forall k <- s.transfers
      ensures ClientOk(s, w', k) && FinalOk(s, w', k)
    {
      SameServerGrows(s, w, w', k);
      ClientGrows(s, w, w', k);
    }
    hide ClientOk, FinalOk, FlightOk, ServerInv, TakenOk, IsForeign;
    ClientMoves(s, w, w', [], {f});
  }

  /** A client that moves to a phase that is right for it. */
  lemma PhaseKeepsInv(s: Setup, w: World, key: Bytes, p: Phase)
    requires Inv(s, w) && key in s.transfers && ClientOk(s, w.(clients := w.clients[key := p]), key)
    ensures Inv(s, w.(clients := w.clients[key := p]))
  {
    var w' := w.(clients := w.clients[key := p]);
    hide Taken;
    assert FinalOk(s, w, key) ==> FinalOk(s, w', key);
    hide ClientOk, FinalOk, FlightOk, ServerInv, TakenOk;
    assert w.flights + {} == w.flights;
    ClientMoves(s, w, w', key, {});
  }

  /**
   * Accepting any reply under the client's token, however old, leaves the client where it may
   * be: until the final chunk is in, the replies are honest, so the next chunk is one the server
   * can already have the predecessor of.
   */
  lemma AcceptKeepsPlace(s: Setup, w: World, key: Bytes, r: Reply)
    requires key in s.transfers && Proper(s.transfers[key]) && ClientOk(s, w, key) && ReplyOk(s, w, key, r)
    requires Received(s, w, key) ==> key in w.finals
    requires w.clients[key].Waiting? || w.clients[key].Fetching?
    requires r.to == s.transfers[key].addr && r.msg.token == s.transfers[key].base.token && r.msg.code != CODE_EMPTY
    ensures ClientOk(s, w.(clients := w.clients[key := NextPhase(s.transfers[key], w.clients[key], r.msg)]), key)
  {
    var t, p := s.transfers[key], w.clients[key];
    if p.Waiting? {
      ChunkNumbers(t, p.num);
      FetchIsUnblocked(t, p.msg, 0, 0);
    }
    hide Proper, Derived, Unblocked, LastNum, Reached, Started, Taken, Received, ClientSend.MoreChunks, GetBlock1, GetBlock2, WithBlock1;
  }

  // ----- Steps of the server -----

  /** Nothing recorded is forgotten. */
  ghost predicate Remembers(d: Dedup.Table, d': Dedup.Table) {
    forall a, m :: Dedup.Recorded(d, a, m) ==> Dedup.Recorded(d', a, m)
  }

  predicate Addressed(r: Reply, req: Msg) {
    r.to == req.addr && (r.msg.token == req.token || r.msg.code == CODE_EMPTY)
  }

  /** The outside of a server step that handles `req`. */
  ghost predicate Handles(w: World, w': World, req: Msg) {
    && w' == w.(server := w'.server, replies := w'.replies, calls := w'.calls, seen := w'.seen, taken := w'.taken)
    && w.taken <= w'.taken
    && SameElsewhere(w.server.cache, w'.server.cache, BlockKey(req))
    && Remembers(w.server.dedup, w'.server.dedup)
    && (forall r <- w'.replies :: r in w.replies || Addressed(r, req))
    && (w'.seen == w.seen || exists call :: w'.seen == w.seen + [call] && BlockKey(call.req) == BlockKey(req))
  }

  lemma PostedIsAddressed(req: Msg, rsp: Option<Msg>)
    requires |req.token| <= 8 && (rsp.Some? ==> ReplyTo(rsp.value, req))
    ensures forall r <- Posted(req.addr, rsp) :: Addressed(r, req)
  {
    if rsp.Some? && Arrived(rsp.value, []).Some? {
      ReplyHeaderArrives(rsp.value, []);
    }
    hide Arrived;
  }

  lemma SightingsStep(seen: seq<Call>, call: Call, k: Bytes)
    ensures Sightings(seen + [call], k)
         == Sightings(seen, k) + if BlockKey(call.req) == k && call.block1.Some? then [call.req.payload] else []
  {
    assert (seen + [call])[..|seen|] == seen;
  }

  /** An upload the message does not concern goes on as before. */
  lemma UnconcernedKept(s: Setup, w: World, w': World, req: Msg, k: Bytes)
    requires k in s.transfers && !Concerns(s, req, k) && Handles(w, w', req)
    requires CacheOk(s, w, k) && SeenOk(s, w, k) && forall r <- w.replies :: ReplyOk(s, w, k, r)
    ensures Grows(s, w, w', k) && CacheOk(s, w', k) && SeenOk(s, w', k)
    ensures forall r <- w'.replies :: ReplyOk(s, w', k, r)
  {
    if w'.seen != w.seen {
      var call :| w'.seen == w.seen + [call] && BlockKey(call.req) == BlockKey(req);
      SightingsStep(w.seen, call, k);
    }
    hide LastNum, Sightings, BlockKey, GetBlock1, GetBlock2;
    assert Grows(s, w, w', k);
    forall r <- w'.replies
      ensures ReplyOk(s, w', k, r)
    {
      if r in w.replies { ReplyGrows(s, w, w', k, r); }
    }
  }

  /** An upload whose final chunk is in needs nothing more than that its callback is not called again. */
  lemma ReceivedKept(s: Setup, w: World, w': World, req: Msg, k: Bytes)
    requires k in s.transfers && Received(s, w', k) && Handles(w, w', req) && SeenOk(s, w', k)
    ensures Grows(s, w, w', k) && CacheOk(s, w', k)
    ensures forall r <- w'.replies :: ReplyOk(s, w', k, r)
  {
    hide LastNum, Sightings, BlockKey, GetBlock1, GetBlock2;
  }

  /** A server step keeps the invariant if it does so for the uploads it concerns and for its own books. */
  lemma ServerMoves(s: Setup, w: World, w': World, req: Msg)
    requires Inv(s, w) && Handles(w, w', req)
    requires forall k <- s.transfers :: Concerns(s, req, k) ==>
               Grows(s, w, w', k) && CacheOk(s, w', k) && SeenOk(s, w', k) && forall r <- w'.replies :: ReplyOk(s, w', k, r)
    requires Dedup.Valid(w'.server.dedup) && CacheTyped(w'.server.cache) && SavedSent(w'.server.dedup, w'.replies)
    requires (forall call <- w'.calls :: CallOk(s, w', call)) && TakenOk(s, w')
    ensures Inv(s, w')
  {
    assert forall k <- s.transfers :: ClientOk(s, w, k) ==> k in w.clients;
    hide Received, Concerns, CallOk, Grows, CacheOk, SeenOk, ReplyOk, ClientOk, FinalOk, FlightOk, SavedSent, CacheTyped, Dedup.Valid;
    forall k <- s.transfers
      ensures Grows(s, w, w', k) && CacheOk(s, w', k) && SeenOk(s, w', k) && forall r <- w'.replies :: ReplyOk(s, w', k, r)
    {
      if !Concerns(s, req, k) { UnconcernedKept(s, w, w', req, k); }
    }
    forall k <- s.transfers
      ensures ClientOk(s, w', k) && FinalOk(s, w', k)
    {
      ClientGrows(s, w, w', k);
    }
    forall f <- w'.flights
      ensures FlightOk(s, w', f)
    {
      FlightGrows(s, w, w', f);
    }
  }

  // ----- A callback returns -----

  /** Saving an answer that is sent to the entry's own address keeps the books. */
  lemma SaveKeepsBooks(t: Dedup.Table, i: nat, rsp: Msg, addr: Bytes, replies: set<Reply>)
    requires Dedup.Valid(t) && OwnEntry(t, i, addr) && SavedSent(t, replies)
    ensures var t' := Dedup.Save(t, i, rsp);
            && Dedup.Valid(t') && Remembers(t, t') && SavedSent(t', replies + Posted(addr, Some(rsp)))
            && (forall j: nat, a :: OwnEntry(t, j, a) ==> OwnEntry(t', j, a))
  {
    Dedup.SaveKeepsValid(t, i, rsp);
    hide Posted, Dedup.Valid;
  }

  lemma CallKept(s: Setup, w: World, w': World, call: Call)
    requires CallOk(s, w, call) && Remembers(w.server.dedup, w'.server.dedup) && w.taken <= w'.taken
    requires call.entry.Some? ==> OwnEntry(w'.server.dedup, call.entry.value, call.req.addr)
    ensures CallOk(s, w', call)
  {
    hide Concerns, OwnEntry, LastNum;
  }

  lemma ReturnKeepsInv(s: Setup, w: World, call: Call, answer: Option<Msg>, now: int)
    requires Inv(s, w) && call in w.calls && (answer.Some? ==> ReplyTo(answer.value, call.req))
    ensures Inv(s, Returned(s.cfg, w, call, answer, now))
  {
    assert CallOk(s, w, call);
    var w' := Returned(s.cfg, w, call, answer, now);
    var (st, rsp) := Complete(w.server, call, answer, now, s.cfg);
    CompleteFrame(w.server, call, answer, now, s.cfg);
    PostedIsAddressed(call.req, rsp);
    if rsp.Some? && call.entry.Some? {
      SaveKeepsBooks(w.server.dedup, call.entry.value, rsp.value, call.req.addr, w.replies);
    }
    hide Complete, CacheTyped, SameElsewhere, ReplyTo, Dedup.Valid, Dedup.Save, Posted, Arrived, Concerns, ClientInv, SeenOk;
    assert Handles(w, w', call.req);
    forall k <- s.transfers | Concerns(s, call.req, k)
      ensures Grows(s, w, w', k) && CacheOk(s, w', k) && SeenOk(s, w', k) && forall r <- w'.replies :: ReplyOk(s, w', k, r)
    {
      assert Received(s, w', k);
      assert SeenOk(s, w', k);
      ReceivedKept(s, w, w', call.req, k);
    }
    forall c <- w'.calls
      ensures CallOk(s, w', c)
    {
      CallKept(s, w, w', c);
    }
    TakenKept(s, w, w');
    ServerMoves(s, w, w', call.req);
  }

  // ----- A packet is delivered -----

  /** The dedup table once `req` has been looked up. */
  function Noted(t: Dedup.Table, req: Msg, now: int, cfg: Config): Dedup.Table {
    if Deduplicated(req) then Dedup.Deduplicate(t, req.addr, req.mid, now, cfg.expiration).0 else t
  }

  predicate IsDuplicate(t: Dedup.Table, req: Msg) {
    Deduplicated(req) && Dedup.Recorded(t, req.addr, req.mid)
  }

  function EntryOf(t: Dedup.Table, req: Msg): Option<nat> {
    if Deduplicated(req) then Some(|t.entries|) else None
  }

  lemma NotedKeepsBooks(t: Dedup.Table, req: Msg, now: int, cfg: Config, replies: set<Reply>)
    requires Dedup.Valid(t) && SavedSent(t, replies) && !IsDuplicate(t, req)
    ensures var t' := Noted(t, req, now, cfg);
            && Dedup.Valid(t') && Remembers(t, t') && SavedSent(t', replies)
            && (Deduplicated(req) ==> Dedup.Recorded(t', req.addr, req.mid) && OwnEntry(t', |t.entries|, req.addr))
            && (forall j: nat, a :: OwnEntry(t, j, a) ==> OwnEntry(t', j, a))
  {
    if Deduplicated(req) {
      Dedup.DeduplicateKeepsValid(t, req.addr, req.mid, now, cfg.expiration);
      NotedPairs(t, req, now, cfg);
      hide Dedup.Deduplicate, Dedup.Recorded, Noted, Dedup.Valid;
    }
    hide Posted;
  }

  lemma NotedPairs(t: Dedup.Table, req: Msg, now: int, cfg: Config)
    requires Dedup.Valid(t) && Deduplicated(req) && !Dedup.Recorded(t, req.addr, req.mid)
    ensures var t' := Noted(t, req, now, cfg);
            && t'.entries == t.entries + [Dedup.Entry(true, None)]
            && Dedup.Recorded(t', req.addr, req.mid) && t'.endpoints[req.addr][req.mid] == |t.entries|
            && (forall a, m :: Dedup.Recorded(t', a, m) <==> Dedup.Recorded(t, a, m) || (a == req.addr && m == req.mid))
            && (forall a, m :: Dedup.Recorded(t, a, m) ==> t'.endpoints[a][m] == t.endpoints[a][m] < |t.entries|)
  {
    Dedup.NewPair(t, req.addr, req.mid, now, cfg.expiration);
    hide Dedup.Deduplicate, Dedup.Recorded;
  }

  /** A duplicate changes nothing at all. */
  lemma DuplicateDelivered(s: Setup, w: World, f: Flight, now: int)
    requires ServerInv(s, w) && IsDuplicate(w.server.dedup, f.msg)
    ensures Delivered(s.cfg, w, f, now) == w
  {
    hide CallOk, CacheOk, SeenOk, ReplyOk, CacheTyped;
    var t := w.server.dedup;
    var e := t.entries[t.endpoints[f.msg.addr][f.msg.mid]];
    Absorb(w.replies, Posted(f.msg.addr, None), Posted(f.msg.addr, e.rsp));
    Absorb(w.replies, Posted(f.msg.addr, None), Posted(f.msg.addr, None));
    hide Posted;
  }

  lemma Absorb(a: set<Reply>, b: set<Reply>, c: set<Reply>)
    requires b <= a && c <= a
    ensures a + b + c == a
  {
  }

  /** A packet in flight concerns only the upload it is part of. */
  lemma ConcernsOwn(s: Setup, w: World, f: Flight, k: Bytes)
    requires ProperSetup(s) && FlightOk(s, w, f) && k in s.transfers && Concerns(s, f.msg, k)
    ensures f.origin == Fetch(k) || (f.origin.Chunk? && f.origin.key == k)
    ensures IsFrom(s.transfers[k], f.msg)
  {
    hide Proper, BlockKey, LastNum, Received;
  }

  lemma BeginIsDispatch(st: State, req: Msg, now: int, cfg: Config)
    requires !IsDuplicate(st.dedup, req)
    ensures Handler.Begin(st, req, now, cfg)
         == if req.mtype == RESET then Begun(st, Silent, None)
            else Dispatch(st.(dedup := Noted(st.dedup, req, now, cfg)), req, EntryOf(st.dedup, req), now, cfg)
  {
    hide Dispatch;
  }

  /** The books after a packet that is not a duplicate. */
  ghost predicate BooksAfter(w: World, w': World, req: Msg) {
    var t, t' := w.server.dedup, w'.server.dedup;
    && Dedup.Valid(t') && SavedSent(t', w'.replies) && Remembers(t, t')
    && (Deduplicated(req) ==> Dedup.Recorded(t', req.addr, req.mid) && OwnEntry(t', |t.entries|, req.addr))
    && (forall j: nat, a :: OwnEntry(t, j, a) ==> OwnEntry(t', j, a))
  }

  lemma MoreReplies(t: Dedup.Table, replies: set<Reply>, more: set<Reply>)
    requires SavedSent(t, replies)
    ensures SavedSent(t, replies + more)
  {
    hide Posted;
  }

  /** What delivering a packet that is not a duplicate does to the books and to everything it does not concern. */
  lemma NewDelivered(s: Setup, w: World, f: Flight, now: int)
    requires ServerInv(s, w) && Typed(f.msg) && |f.msg.token| <= 8
    requires !IsDuplicate(w.server.dedup, f.msg) && f.msg.mtype != RESET
    ensures var w' := Delivered(s.cfg, w, f, now);
            var b := Handler.Begin(w.server, f.msg, now, s.cfg);
            && Handles(w, w', f.msg) && CacheTyped(w'.server.cache) && BooksAfter(w, w', f.msg)
            && (b.out.Invoke? ==> CallFor(b.out.call, f.msg, EntryOf(w.server.dedup, f.msg)))
  {
    var w', b, req := Delivered(s.cfg, w, f, now), Handler.Begin(w.server, f.msg, now, s.cfg), f.msg;
    BeginIsDispatch(w.server, req, now, s.cfg);
    var st := w.server.(dedup := Noted(w.server.dedup, req, now, s.cfg));
    DispatchFrame(st, req, EntryOf(w.server.dedup, req), now, s.cfg);
    PostedIsAddressed(req, b.sent);
    PostedIsAddressed(req, if b.out.Answer? then Some(b.out.rsp) else None);
    NotedKeepsBooks(w.server.dedup, req, now, s.cfg, w.replies);
    var replies := w.replies + Posted(req.addr, b.sent);
    MoreReplies(st.dedup, w.replies, Posted(req.addr, b.sent));
    if b.out.Answer? {
      if Deduplicated(req) { SaveKeepsBooks(st.dedup, |w.server.dedup.entries|, b.out.rsp, req.addr, replies); }
      MoreReplies(st.dedup, replies, Posted(req.addr, Some(b.out.rsp)));
    } else {
      MoreReplies(st.dedup, replies, Posted(req.addr, None));
    }
    if b.out.Invoke? { KeyIgnoresBody(req, b.out.call.req.payload, b.out.call.req.blockSize); }
    hide Dispatch, Handler.Begin, Noted, CacheTyped, SameElsewhere, Posted, BlockKey, SavedSent, OwnEntry, Dedup.Valid, Dedup.Save,
      Dedup.Recorded, ReplyTo, Typed, CallOk, CacheOk, SeenOk, ReplyOk;
  }

  // ----- What a chunk does for its own upload -----

  /** A new packet, just before it is handled: nothing has been recorded for it. */
  ghost predicate Arrives(s: Setup, w: World, f: Flight, k: Bytes)
    requires k in s.transfers
  {
    && Proper(s.transfers[k]) && Key(s.transfers[k]) == k && f in w.flights && FlightOk(s, w, f) && !IsDuplicate(w.server.dedup, f.msg)
    && CacheTyped(w.server.cache) && CacheOk(s, w, k) && SeenOk(s, w, k) && FinalOk(s, w, k)
    && (f.origin == Chunk(k, 0) ==> !Started(s, w, k)) && (f.origin == Chunk(k, LastNum(s.transfers[k])) ==> !Received(s, w, k))
  }

  /** The first and the final chunk are taken in once. */
  lemma TakenOnce(s: Setup, w: World, f: Flight, k: Bytes)
    requires k in s.transfers && (forall g <- w.flights :: FlightOk(s, w, g)) && TakenOk(s, w)
    requires f in w.flights && !IsDuplicate(w.server.dedup, f.msg)
    ensures f.origin == Chunk(k, 0) ==> !Started(s, w, k)
    ensures f.origin == Chunk(k, LastNum(s.transfers[k])) ==> !Received(s, w, k)
  {
    forall g <- w.taken | g.origin == f.origin && g.origin.Chunk? && g.origin.key == k
      ensures g.origin.num != 0 && g.origin.num != LastNum(s.transfers[k])
    {
      assert FlightOk(s, w, f) && FlightOk(s, w, g);
      hide BlockKey, Key, LastNum, GetBlock1, ClientSend.MoreChunks, Received, Taken;
    }
    hide FlightOk, LastNum, Dedup.Recorded;
  }

  /** A chunk taken in uses up its Message ID. */
  lemma TakenAfter(s: Setup, w: World, w': World, f: Flight)
    requires TakenOk(s, w) && f in w.flights && FlightOk(s, w, f) && !IsDuplicate(w.server.dedup, f.msg)
    requires w'.taken == (if f.origin.Chunk? then w.taken + {f} else w.taken) && w'.flights == w.flights && w'.finals == w.finals
    requires BooksAfter(w, w', f.msg)
    ensures TakenOk(s, w')
  {
    hide LastNum, Dedup.Recorded, SavedSent, OwnEntry, Dedup.Valid, BlockKey, Key, GetBlock1, ClientSend.MoreChunks, IsForeign, IsFetch;
    forall k <- s.transfers | Received(s, w', k)
      ensures k in w'.finals
    {
    }
    hide FlightOk, Received, Taken;
  }

  /** What `Dispatch` sees: the packet's blocks and an untouched cache. */
  lemma ChunkDispatched(s: Setup, w: World, f: Flight, k: Bytes, now: int)
    requires k in s.transfers && Arrives(s, w, f, k) && f.origin.Chunk? && f.origin.key == k
    ensures var t, num := s.transfers[k], f.origin.num;
            var b := Handler.Begin(w.server, f.msg, now, s.cfg);
            var cache := w.server.cache;
            if num < LastNum(t) && num == 0 then
              b.sent == None && b.out == Answer(ContinueFor(f.msg)) && b.st.cache == Put(cache, k, f.msg, now, s.cfg.blockTimeout)
            else if num < LastNum(t) then
              var (c, ok) := Append(cache, k, f.msg.payload, num, now, s.cfg.blockTimeout);
              b.sent == None && b.out == Answer(if ok then ContinueFor(f.msg) else FailureFor(f.msg)) && b.st.cache == c
            else if num == 0 then
              b.out.Invoke? ==> b.out.call.req.payload == f.msg.payload
            else
              b.out.Invoke? ==> k in cache && b.out.call.req.payload == cache[k].rsp.payload + f.msg.payload
  {
    var t := s.transfers[k];
    ChunkNumbers(t, f.origin.num);
    BeginIsDispatch(w.server, f.msg, now, s.cfg);
    var st := w.server.(dedup := Noted(w.server.dedup, f.msg, now, s.cfg));
    DispatchBlock(st, f.msg, EntryOf(w.server.dedup, f.msg), now, s.cfg);
    hide Handler.Begin, Dispatch, Noted, BlockKey, Key, GetBlock1, Put, Append, ContinueFor, FailureFor, Proper, LastNum, Received,
      CacheOk, SeenOk, FinalOk, CacheTyped, ClientSend.MoreChunks;
  }

  /** The last block joins the cached prefix to the whole payload. */
  lemma WholePayload(t: Transfer)
    requires Proper(t)
    ensures var n := LastNum(t);
            && n * t.size <= |Data(t)|
            && Slice(Data(t), n, t.size) == Data(t)[n * t.size..]
            && Data(t)[..n * t.size] + Slice(Data(t), n, t.size) == Data(t)
  {
    ChunkNumbers(t, LastNum(t));
    hide LastNum, Proper;
  }

  /** Delivering the final chunk: if the callback is invoked, it is with the whole payload. */
  lemma FinalDelivered(s: Setup, w: World, f: Flight, k: Bytes, now: int)
    requires k in s.transfers && Arrives(s, w, f, k) && f.origin == Chunk(k, LastNum(s.transfers[k]))
    ensures !Received(s, w, k)
    ensures var b := Handler.Begin(w.server, f.msg, now, s.cfg);
            b.out.Invoke? ==> b.out.call.req.payload == Data(s.transfers[k])
  {
    var t := s.transfers[k];
    ChunkDispatched(s, w, f, k, now);
    WholePayload(t);
    if LastNum(t) > 0 && k in w.server.cache {
      assert w.server.cache[k].last == LastNum(t) - 1;
    }
    hide Handler.Begin, Put, Append, ContinueFor, FailureFor, Proper, LastNum, Slice, BlockKey, GetBlock1;
  }

  /** Storing the first block of several. */
  lemma FirstStored(s: Setup, w: World, w': World, k: Bytes, m: Msg, now: int)
    requires k in s.transfers && Proper(s.transfers[k]) && LastNum(s.transfers[k]) > 0
    requires m.payload == Slice(Data(s.transfers[k]), 0, s.transfers[k].size)
    requires !Received(s, w, k) && !Started(s, w, k) && Started(s, w', k)
    requires w.taken <= w'.taken && w'.server.cache == Put(w.server.cache, k, m, now, s.cfg.blockTimeout)
    ensures Grows(s, w, w', k) && CacheOk(s, w', k) && Reached(s, w', k, 0)
  {
    ChunkNumbers(s.transfers[k], 0);
    hide Proper, LastNum, Received, Started;
  }

  /** Storing, or refusing, a block between the first and the final one. */
  lemma MiddleStored(s: Setup, w: World, w': World, k: Bytes, num: nat, m: Msg, now: int)
    requires k in s.transfers && Proper(s.transfers[k]) && CacheOk(s, w, k) && !Received(s, w, k)
    requires 0 < num < LastNum(s.transfers[k]) && num * s.transfers[k].size <= |Data(s.transfers[k])|
    requires m.payload == Slice(Data(s.transfers[k]), num, s.transfers[k].size)
    requires w.taken <= w'.taken
    requires w'.server.cache == Append(w.server.cache, k, m.payload, num, now, s.cfg.blockTimeout).0
    ensures Grows(s, w, w', k) && CacheOk(s, w', k)
    ensures Append(w.server.cache, k, m.payload, num, now, s.cfg.blockTimeout).1 ==> Reached(s, w', k, num)
  {
    var t := s.transfers[k];
    ChunkNumbers(t, num);
    SlicesTile(Data(t), num, t.size);
    assert (num + 1) * t.size == num * t.size + t.size;
    hide Proper, LastNum, Received, Started, Taken, Slice;
  }

  /** The reply to a block before the final one is honest. */
  lemma BlockReplyIsHonest(s: Setup, w: World, k: Bytes, num: nat, req: Msg, stored: bool)
    requires k in s.transfers && num < LastNum(s.transfers[k]) && |req.token| <= 8
    requires GetBlock1(req) == Some(Block(num, true, s.transfers[k].size)) && (stored ==> Reached(s, w, k, num) && Taken(w.taken, k, num))
    ensures forall r <- Posted(req.addr, Some(if stored then ContinueFor(req) else FailureFor(req))) :: ReplyOk(s, w, k, r)
  {
    ServerReplyArrives(req, []);
    hide LastNum, Reached, Received, ContinueFor, FailureFor, GetBlock1, GetBlock2, Arrived;
  }

  ghost predicate AllReplyOk(s: Setup, w: World, k: Bytes, replies: set<Reply>)
    requires k in s.transfers
  {
    forall r <- replies :: ReplyOk(s, w, k, r)
  }

  /** What the step has to keep for an upload that the message concerns. */
  ghost predicate KeptFor(s: Setup, w: World, w': World, k: Bytes)
    requires k in s.transfers
  {
    Grows(s, w, w', k) && CacheOk(s, w', k) && SeenOk(s, w', k) && AllReplyOk(s, w', k, w'.replies)
  }

  /** A chunk before the final one is stored or refused; either way the upload stays in step. */
  lemma MiddleDelivered(s: Setup, w: World, f: Flight, k: Bytes, now: int)
    requires k in s.transfers && Arrives(s, w, f, k) && f.origin.Chunk? && f.origin.key == k
    requires f.origin.num < LastNum(s.transfers[k]) && !Received(s, w, k) && AllReplyOk(s, w, k, w.replies)
    ensures KeptFor(s, w, Delivered(s.cfg, w, f, now), k)
  {
    var t, num, w' := s.transfers[k], f.origin.num, Delivered(s.cfg, w, f, now);
    var b := Handler.Begin(w.server, f.msg, now, s.cfg);
    ChunkDispatched(s, w, f, k, now);
    ChunkNumbers(t, num);
    hide Handler.Begin, Proper, LastNum, BlockKey, ContinueFor, FailureFor, ClientSend.MoreChunks, Dedup.Valid, SavedSent, CacheOk, OwnEntry,
      CacheTyped, Slice, Grows;
    if num == 0 {
      FirstStored(s, w, w', k, f.msg, now);
    } else {
      MiddleStored(s, w, w', k, num, f.msg, now);
    }
    var stored := num == 0 || Append(w.server.cache, k, f.msg.payload, num, now, s.cfg.blockTimeout).1;
    assert Taken(w'.taken, k, num);
    BlockReplyIsHonest(s, w', k, num, f.msg, stored);
    assert Posted(f.msg.addr, b.sent) == {};
    hide Posted;
    forall r <- w.replies
      ensures ReplyOk(s, w', k, r)
    {
      ReplyGrows(s, w, w', k, r);
    }
  }

  /** The callback is invoked for an upload at most when the final chunk comes in, and then with the whole payload. */
  lemma SightingsAfter(s: Setup, w: World, f: Flight, k: Bytes, now: int)
    requires k in s.transfers && Arrives(s, w, f, k) && IsFrom(s.transfers[k], f.msg)
    requires f.origin == Fetch(k) || (f.origin.Chunk? && f.origin.key == k)
    requires var b := Handler.Begin(w.server, f.msg, now, s.cfg);
             b.out.Invoke? ==> CallFor(b.out.call, f.msg, EntryOf(w.server.dedup, f.msg))
    ensures var w', final := Delivered(s.cfg, w, f, now), f.origin == Chunk(k, LastNum(s.transfers[k]));
            && (final ==> !Received(s, w, k))
            && (Sightings(w'.seen, k) == Sightings(w.seen, k)
                || (final && Sightings(w'.seen, k) == Sightings(w.seen, k) + [Data(s.transfers[k])]))
  {
    var b := Handler.Begin(w.server, f.msg, now, s.cfg);
    if b.out.Invoke? {
      SightingsStep(w.seen, b.out.call, k);
    }
    if f.origin.Chunk? {
      ChunkDispatched(s, w, f, k, now);
      if f.origin.num == LastNum(s.transfers[k]) { FinalDelivered(s, w, f, k, now); }
    }
    hide Handler.Begin, Proper, LastNum, BlockKey, Sightings, Append, Put, ContinueFor, FailureFor;
  }

  /** Delivering a new packet of an upload keeps that upload in step. */
  lemma OwnDelivered(s: Setup, w: World, f: Flight, k: Bytes, now: int)
    requires k in s.transfers && Arrives(s, w, f, k) && IsFrom(s.transfers[k], f.msg)
    requires f.origin == Fetch(k) || (f.origin.Chunk? && f.origin.key == k)
    requires AllReplyOk(s, w, k, w.replies)
    requires var b := Handler.Begin(w.server, f.msg, now, s.cfg);
             b.out.Invoke? ==> CallFor(b.out.call, f.msg, EntryOf(w.server.dedup, f.msg))
    requires var w' := Delivered(s.cfg, w, f, now); Handles(w, w', f.msg) && BooksAfter(w, w', f.msg)
    ensures KeptFor(s, w, Delivered(s.cfg, w, f, now), k)
    ensures Handler.Begin(w.server, f.msg, now, s.cfg).out.Invoke? ==> Received(s, Delivered(s.cfg, w, f, now), k)
  {
    var w' := Delivered(s.cfg, w, f, now);
    SightingsAfter(s, w, f, k, now);
    if f.origin.Chunk? { ChunkDispatched(s, w, f, k, now); }
    if f.origin.Chunk? && f.origin.num < LastNum(s.transfers[k]) && !Received(s, w, k) {
      MiddleDelivered(s, w, f, k, now);
    } else {
      hide Handler.Begin, Proper, LastNum, BlockKey, Sightings, Append, Put, ContinueFor, FailureFor, SavedSent, Dedup.Valid, OwnEntry;
      assert Received(s, w', k);
      assert SeenOk(s, w', k);
      ReceivedKept(s, w, w', f.msg, k);
    }
  }

  lemma FlightIsTyped(s: Setup, w: World, f: Flight)
    requires FlightOk(s, w, f)
    ensures Typed(f.msg) && |f.msg.token| <= 8
  {
    hide BlockKey, Key, Concerns, LastNum, Received, GetBlock1;
  }

  lemma DeliverNewKeepsInv(s: Setup, w: World, f: Flight, now: int)
    requires Inv(s, w) && f in w.flights && !IsDuplicate(w.server.dedup, f.msg) && f.msg.mtype != RESET
    ensures Inv(s, Delivered(s.cfg, w, f, now))
  {
    var w' := Delivered(s.cfg, w, f, now);
    var b := Handler.Begin(w.server, f.msg, now, s.cfg);
    FlightIsTyped(s, w, f);
    NewDelivered(s, w, f, now);
    TakenAfter(s, w, w', f);
    hide FlightOk, TakenOk, Proper, Handler.Begin, CacheTyped, Dedup.Valid, SavedSent, CallOk, CacheOk, SeenOk, ReplyOk, FinalOk, ClientOk,
      Handles, Concerns, IsFrom, Grows;
    forall k <- s.transfers | Concerns(s, f.msg, k)
      ensures KeptFor(s, w, w', k) && (b.out.Invoke? ==> Received(s, w', k))
    {
      ConcernsOwn(s, w, f, k);
      TakenOnce(s, w, f, k);
      OwnDelivered(s, w, f, k, now);
    }
    hide Received;
    forall call <- w'.calls
      ensures CallOk(s, w', call)
    {
      if call in w.calls {
        KeptCall(s, w, w', f.msg, call);
      } else {
        NewCallOk(s, w, w', f.msg, call);
      }
    }
    ServerMoves(s, w, w', f.msg);
  }

  lemma KeptCall(s: Setup, w: World, w': World, req: Msg, call: Call)
    requires CallOk(s, w, call) && BooksAfter(w, w', req) && w.taken <= w'.taken
    ensures CallOk(s, w', call)
  {
    hide OwnEntry, Dedup.Valid, SavedSent;
    CallKept(s, w, w', call);
  }

  lemma NewCallOk(s: Setup, w: World, w': World, req: Msg, call: Call)
    requires Typed(req) && |req.token| <= 8 && BooksAfter(w, w', req)
    requires CallFor(call, req, EntryOf(w.server.dedup, req))
    requires forall k <- s.transfers :: Concerns(s, req, k) ==> Received(s, w', k)
    ensures CallOk(s, w', call)
  {
    KeyIgnoresBody(req, call.req.payload, call.req.blockSize);
    hide OwnEntry, Dedup.Valid, SavedSent, Received, BlockKey, Remembers;
  }

  lemma DeliverKeepsInv(s: Setup, w: World, f: Flight, now: int)
    requires Inv(s, w) && f in w.flights
    ensures Inv(s, Delivered(s.cfg, w, f, now))
  {
    assert ServerInv(s, w);
    hide Inv, ServerInv;
    if IsDuplicate(w.server.dedup, f.msg) {
      DuplicateDelivered(s, w, f, now);
    } else if f.msg.mtype == RESET {
      BeginIsDispatch(w.server, f.msg, now, s.cfg);
      Absorb(w.replies, Posted(f.msg.addr, None), Posted(f.msg.addr, None));
    } else {
      DeliverNewKeepsInv(s, w, f, now);
    }
  }

  // ----- Time passes -----

  /** A step of the server that answers nobody. */
  lemma TimePasses(s: Setup, w: World, w': World)
    requires Inv(s, w) && w' == w.(server := w'.server)
    requires forall k <- s.transfers :: Grows(s, w, w', k) && CacheOk(s, w', k) && SeenOk(s, w', k)
    requires Dedup.Valid(w'.server.dedup) && CacheTyped(w'.server.cache) && SavedSent(w'.server.dedup, w.replies)
    requires forall j: nat, a :: OwnEntry(w.server.dedup, j, a) ==> OwnEntry(w'.server.dedup, j, a)
    requires forall f <- w.taken :: Dedup.Recorded(w'.server.dedup, f.msg.addr, f.msg.mid)
    ensures Inv(s, w')
  {
    TakenKept(s, w, w');
    assert forall k <- s.transfers :: ClientOk(s, w, k) ==> k in w.clients;
    hide Received, Grows, CacheOk, SeenOk, ReplyOk, ClientOk, FinalOk, FlightOk, SavedSent, CacheTyped, Dedup.Valid, OwnEntry;
    forall k <- s.transfers
      ensures ClientOk(s, w', k) && FinalOk(s, w', k)
    {
      ClientGrows(s, w, w', k);
    }
    forall f <- w'.flights
      ensures FlightOk(s, w', f)
    {
      FlightGrows(s, w, w', f);
    }
    forall k <- s.transfers, r <- w'.replies
      ensures ReplyOk(s, w', k, r)
    {
      ReplyGrows(s, w, w', k, r);
    }
    forall call <- w'.calls
      ensures CallOk(s, w', call)
    {
      CallPasses(s, w, w', call);
    }
  }

  lemma CallPasses(s: Setup, w: World, w': World, call: Call)
    requires CallOk(s, w, call) && forall k <- s.transfers :: Grows(s, w, w', k)
    requires call.entry.Some? ==> OwnEntry(w'.server.dedup, call.entry.value, call.req.addr)
    ensures CallOk(s, w', call)
  {
    hide Received, Started, Reached, Concerns, OwnEntry;
  }

  /** An entry of the block cache may expire at any time: the upload then fails instead of growing holes. */
  lemma ExpireKeepsInv(s: Setup, w: World, now: int)
    requires Inv(s, w)
    ensures Inv(s, w.(server := w.server.(cache := Expire(w.server.cache, now))))
  {
    var w' := w.(server := w.server.(cache := Expire(w.server.cache, now)));
    forall k <- s.transfers
      ensures Grows(s, w, w', k) && CacheOk(s, w', k) && SeenOk(s, w', k)
    {
      assert CacheOk(s, w, k) && SeenOk(s, w, k);
      ExpireGrows(s, w, now, k);
    }
    hide ClientInv, CallOk, CacheOk, SeenOk, ReplyOk, Grows, ProperSetup, Dedup.Valid, SavedSent, OwnEntry;
    TimePasses(s, w, w');
  }

  lemma ExpireGrows(s: Setup, w: World, now: int, k: Bytes)
    requires k in s.transfers && CacheOk(s, w, k) && SeenOk(s, w, k)
    ensures var w' := w.(server := w.server.(cache := Expire(w.server.cache, now)));
            Grows(s, w, w', k) && CacheOk(s, w', k) && SeenOk(s, w', k)
  {
    hide LastNum, Dedup.Recorded, Sightings;
  }

  lemma SweepKeepsBooks(t: Dedup.Table, now: int, replies: set<Reply>)
    requires Dedup.Valid(t) && SavedSent(t, replies)
    ensures var t' := Dedup.Sweep(t, now);
            && Dedup.Valid(t') && SavedSent(t', replies)
            && (forall j: nat, a :: OwnEntry(t, j, a) ==> OwnEntry(t', j, a))
            && (forall a, m :: Dedup.Recorded(t', a, m) <==> Dedup.Recorded(t, a, m) && t.deleteAfter[a] >= now)
  {
    Dedup.SweepKeepsValid(t, now);
    assert forall a, m :: Dedup.Recorded(Dedup.Sweep(t, now), a, m) ==> Dedup.Sweep(t, now).endpoints[a][m] == t.endpoints[a][m];
    hide Dedup.Valid, Dedup.Recorded, Posted;
  }

  /** A sweep that spares the uploads' endpoints. */
  lemma WatchKeepsInv(s: Setup, w: World, now: int)
    requires Inv(s, w)
    requires forall k <- s.transfers :: s.transfers[k].addr in w.server.dedup.deleteAfter
               ==> w.server.dedup.deleteAfter[s.transfers[k].addr] >= now
    ensures Inv(s, w.(server := w.server.(dedup := Dedup.Sweep(w.server.dedup, now))))
  {
    var w' := w.(server := w.server.(dedup := Dedup.Sweep(w.server.dedup, now)));
    SweepKeepsBooks(w.server.dedup, now, w.replies);
    forall k <- s.transfers
      ensures Grows(s, w, w', k) && CacheOk(s, w', k) && SeenOk(s, w', k)
    {
      assert CacheOk(s, w, k) && SeenOk(s, w, k);
      SweepGrows(s, w, now, k);
    }
    hide ClientInv, CallOk, CacheOk, SeenOk, ReplyOk, Grows, ProperSetup, Dedup.Valid, SavedSent, OwnEntry, Dedup.Sweep;
    TimePasses(s, w, w');
  }

  lemma SweepGrows(s: Setup, w: World, now: int, k: Bytes)
    requires k in s.transfers && CacheOk(s, w, k) && SeenOk(s, w, k) && Dedup.Valid(w.server.dedup)
    requires s.transfers[k].addr in w.server.dedup.deleteAfter ==> w.server.dedup.deleteAfter[s.transfers[k].addr] >= now
    ensures var w' := w.(server := w.server.(dedup := Dedup.Sweep(w.server.dedup, now)));
            Grows(s, w, w', k) && CacheOk(s, w', k) && SeenOk(s, w', k)
  {
    Dedup.SweepKeepsValid(w.server.dedup, now);
    hide LastNum, Dedup.Recorded, Sightings, Dedup.Sweep;
  }

  // ----- The theorem -----

  lemma AcceptKeepsInv(s: Setup, w: World, key: Bytes, r: Reply)
    requires Inv(s, w) && Allowed(s, w, Accept(key, r))
    ensures Inv(s, w.(clients := w.clients[key := NextPhase(s.transfers[key], w.clients[key], r.msg)]))
  {
    assert ReplyOk(s, w, key, r) && ClientOk(s, w, key) && Proper(s.transfers[key]);
    hide Proper, ReplyOk, ClientOk, FinalOk, FlightOk, ServerInv, NextPhase;
    AcceptKeepsPlace(s, w, key, r);
    PhaseKeepsInv(s, w, key, NextPhase(s.transfers[key], w.clients[key], r.msg));
  }

  lemma StepKeepsInv(s: Setup, w: World, step: Step)
    requires Inv(s, w) && Allowed(s, w, step)
    ensures Inv(s, Next(s, w, step))
  {
    hide Inv, IsForeign, ReplyTo, Proper;
    match step
    case SendChunk(k, mid) => SendChunkKeepsInv(s, w, k, mid);
    case SendFetch(k, mid) => SendFetchKeepsInv(s, w, k, mid);
    case Accept(k, r) => AcceptKeepsInv(s, w, k, r);
    case GiveUp(k) => PhaseKeepsInv(s, w, k, Stopped);
    case Inject(from, data) => InjectKeepsInv(s, w, Parse(data).value.(addr := from));
    case Deliver(f, now) => DeliverKeepsInv(s, w, f, now);
    case Return(call, answer, now) => ReturnKeepsInv(s, w, call, answer, now);
    case ExpireBlocks(now) => ExpireKeepsInv(s, w, now);
    case WatchDedup(now) => WatchKeepsInv(s, w, now);
  }

  lemma {:induction false} RunKeepsInv(s: Setup, w: World, steps: seq<Step>)
    requires Inv(s, w)
    ensures Inv(s, Run(s, w, steps))
    decreases |steps|
  {
    hide Inv, Allowed, Next;
    if steps != [] {
      if Allowed(s, w, steps[0]) {
        StepKeepsInv(s, w, steps[0]);
        RunKeepsInv(s, Next(s, w, steps[0]), steps[1..]);
      } else {
        RunKeepsInv(s, w, steps[1..]);
      }
    }
  }

  /**
   * Upload safety over every run: whatever the network loses, duplicates or reorders, whatever
   * Message IDs are used, whatever other clients do, whenever blocks expire and callbacks return,
   * the route callback sees an upload at most once, and then with exactly the payload given to
   * `Send`.
   */
  lemma UploadSafety(s: Setup, start: uint16, steps: seq<Step>, k: Bytes)
    requires ProperSetup(s) && k in s.transfers
    ensures var seen := Sightings(Run(s, Initial(s, start), steps).seen, k);
            seen == [] || seen == [s.transfers[k].base.payload]
  {
    InitialInv(s, start);
    RunKeepsInv(s, Initial(s, start), steps);
    assert SeenOk(s, Run(s, Initial(s, start), steps), k);
    hide ProperSetup, ClientInv, Run, Initial;
  }

  /**
   * An upload of more chunks than there are Message IDs never reaches the callback while the
   * server forgets none of them, whatever Message IDs the chunks are sent under.
   */
  lemma OverlongIsNeverSeen(s: Setup, start: uint16, steps: seq<Step>, k: Bytes)
    requires ProperSetup(s) && k in s.transfers && LastNum(s.transfers[k]) >= 0x1_0000
    ensures Sightings(Run(s, Initial(s, start), steps).seen, k) == []
  {
    InitialInv(s, start);
    RunKeepsInv(s, Initial(s, start), steps);
    hide Run, Initial;
    OverlongIsNotReceived(s, Run(s, Initial(s, start), steps), k);
  }

  lemma OverlongIsNotReceived(s: Setup, w: World, k: Bytes)
    requires Inv(s, w) && k in s.transfers && LastNum(s.transfers[k]) >= 0x1_0000
    ensures Sightings(w.seen, k) == []
  {
    assert SeenOk(s, w, k) && FinalOk(s, w, k);
    hide ProperSetup, ClientInv, ServerInv, LastNum, Taken, Reached, Sightings;
    if Received(s, w, k) { TakenFitsMids(s, w, k, LastNum(s.transfers[k])); }
  }

  /** Over every run, what is cached for an upload still going on is the prefix of `last + 1` blocks. */
  lemma CachedUploadIsPrefix(s: Setup, start: uint16, steps: seq<Step>, k: Bytes)
    requires ProperSetup(s) && k in s.transfers
    ensures CacheOk(s, Run(s, Initial(s, start), steps), k)
  {
    InitialInv(s, start);
    RunKeepsInv(s, Initial(s, start), steps);
    hide CacheOk, ProperSetup, ClientInv, Run, Initial;
  }
}
