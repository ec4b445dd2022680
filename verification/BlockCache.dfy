/**
 * The server's block cache (blockwise.go:122-195): uploads grow in it block by block,
 * large responses are served out of it. Sections 2.3 to 2.5 of RFC 7959.
 */
module BlockCache {
  import opened Basics
  import opened Options
  import opened StableSort
  import opened Messages
  import opened Blocks

  datatype CacheEntry = CacheEntry(rsp: Msg, last: nat, expires: int)

  type Cache = map<Bytes, CacheEntry>

  /** `blockCachePut`. */
  function Put(c: Cache, key: Bytes, m: Msg, now: int, timeout: int): Cache {
    c[key := CacheEntry(m, 0, now + timeout)]
  }

  /** `blockCacheAppend`: only the block after the last one is accepted. */
  function Append(c: Cache, key: Bytes, payload: Bytes, num: nat, now: int, timeout: int): (Cache, bool) {
    if key !in c || num != c[key].last + 1 then (c, false)
    else
      var e := c[key];
      (c[key := CacheEntry(e.rsp.(payload := e.rsp.payload + payload), num, now + timeout)], true)
  }

  function Touch(c: Cache, key: Bytes, now: int, timeout: int): Cache
    requires key in c
  {
    c[key := c[key].(expires := now + timeout)]
  }

  /** The payload bytes of block `num` at size `sz`. */
  function Slice(payload: Bytes, num: nat, sz: nat): Bytes
    requires num * sz <= |payload|
  {
    payload[num * sz..Min(num * sz + sz, |payload|)]
  }

  predicate MoreAfter(payload: Bytes, num: nat, sz: nat) {
    num * sz + sz < |payload|
  }

  /** The message `blockCacheGet` builds for block `num`. */
  function Serve(cached: Msg, req: Msg, num: nat, sz: nat): Msg
    requires num * sz <= |cached.payload|
  {
    var m := cached.(payload := Slice(cached.payload, num, sz));
    var m1 := if num == 0 then WithSize2(m, |cached.payload|) else m;
    var m2 := WithBlock2(m1, Some(Block(num, MoreAfter(cached.payload, num, sz), sz)));
    var m3 := if num > 0 then WithBlock1(m2, None) else m2;
    m3.(blockSize := 0, maxSize := 0, addr := [], token := req.token, mid := req.mid)
  }

  /** `blockCacheGet` for a block number; `None` is either of its two errors. */
  function GetBlockAt(c: Cache, key: Bytes, req: Msg, num: nat, sz: nat, now: int, timeout: int): (Cache, Option<Msg>) {
    if key !in c || num * sz > |c[key].rsp.payload| then (c, None)
    else (Touch(c, key, now, timeout), Some(Serve(c[key].rsp, req, num, sz)))
  }

  /** `blockCacheGet(req, -1, 0)`: everything cached followed by the request's own payload. */
  function GetWhole(c: Cache, key: Bytes, req: Msg, now: int, timeout: int): (Cache, Option<Bytes>) {
    if key !in c then (c, None)
    else (Touch(c, key, now, timeout), Some(c[key].rsp.payload + req.payload))
  }

  /** One pass of `expireBlocks`. */
  function Expire(c: Cache, now: int): Cache {
    map k | k in c && c[k].expires >= now :: c[k]
  }

  // ----- What serving blocks keeps and gives -----

  /** A request for a block, as the cache sees it. */
  datatype BlockRequest = BlockRequest(key: Bytes, req: Msg, num: nat, sz: nat, now: int)

  function ServeAll(c: Cache, requests: seq<BlockRequest>, timeout: int): Cache
    decreases |requests|
  {
    if requests == [] then c
    else
      var r := requests[0];
      ServeAll(GetBlockAt(c, r.key, r.req, r.num, r.sz, r.now, timeout).0, requests[1..], timeout)
  }

  /** Serving blocks in any order and any number of times changes no payload and no option. */
  lemma {:induction false} ServingKeepsContents(c: Cache, requests: seq<BlockRequest>, timeout: int)
    ensures var c' := ServeAll(c, requests, timeout);
            c'.Keys == c.Keys && forall k <- c :: c'[k].rsp == c[k].rsp && c'[k].last == c[k].last
    decreases |requests|
  {
    if requests != [] {
      var r := requests[0];
      ServingKeepsContents(GetBlockAt(c, r.key, r.req, r.num, r.sz, r.now, timeout).0, requests[1..], timeout);
    }
  }

  /** A served block carries its own number, its size, its slice, and More exactly if bytes remain. */
  lemma ServedBlock(cached: Msg, req: Msg, num: nat, sz: nat)
    requires num * sz <= |cached.payload| && num < MAX_BLOCKS && LegalSize(sz)
    ensures var m := Serve(cached, req, num, sz);
            && GetBlock2(m) == Some(Block(num, MoreAfter(cached.payload, num, sz), sz))
            && m.payload == Slice(cached.payload, num, sz)
            && m.token == req.token && m.mid == req.mid && m.code == cached.code && m.mtype == cached.mtype
            && (num > 0 ==> GetBlock1(m) == None)
            && (num == 0 ==> GetBlock1(m) == GetBlock1(cached))
  {
    var block := Some(Block(num, MoreAfter(cached.payload, num, sz), sz));
    var size2 := Number(GoInt, |cached.payload|);
    WithReplaces(cached.opts, SIZE2, size2);
    var opts := if num == 0 then With(cached.opts, SIZE2, size2) else cached.opts;
    WithBlockReads(opts, BLOCK2, block);
    SameOnlySameBlock(WithBlock(opts, BLOCK2, block), cached.opts, BLOCK1);
    if num > 0 {
      WithBlockReads(WithBlock(opts, BLOCK2, block), BLOCK1, None);
      SameOnlySameBlock(Serve(cached, req, num, sz).opts, WithBlock(opts, BLOCK2, block), BLOCK2);
    }
  }

  /** It carries the cached response's other options, and the total length with the first block. */
  lemma ServedOptions(cached: Msg, req: Msg, num: nat, sz: nat)
    requires num * sz <= |cached.payload|
    ensures var m := Serve(cached, req, num, sz);
            && (forall id: byte :: id != BLOCK1 && id != BLOCK2 && id != SIZE2 ==> Only(m.opts, id) == Only(cached.opts, id))
            && Only(m.opts, BLOCK1) == (if num == 0 then Only(cached.opts, BLOCK1) else [])
            && Only(m.opts, SIZE2) == (if num == 0 then [Opt(SIZE2, Number(GoInt, |cached.payload|))] else Only(cached.opts, SIZE2))
  {
    hide EncodeBlock;
    var block := Blob(EncodeBlock(Block(num, MoreAfter(cached.payload, num, sz), sz)));
    var size2 := Number(GoInt, |cached.payload|);
    WithReplaces(cached.opts, SIZE2, size2);
    var opts := if num == 0 then With(cached.opts, SIZE2, size2) else cached.opts;
    WithReplaces(opts, BLOCK2, block);
    WithReplaces(With(opts, BLOCK2, block), BLOCK1, Blob([]));
    OnlyMinus(With(opts, BLOCK2, block), BLOCK1, BLOCK1);
  }

  /** Consecutive blocks are consecutive bytes. */
  lemma SlicesTile(payload: Bytes, num: nat, sz: nat)
    requires num * sz <= |payload|
    ensures payload[..num * sz] + Slice(payload, num, sz) == payload[..Min((num + 1) * sz, |payload|)]
    ensures MoreAfter(payload, num, sz) ==> (num + 1) * sz < |payload|
    ensures !MoreAfter(payload, num, sz) ==> (num + 1) * sz >= |payload|
  {
    assert (num + 1) * sz == num * sz + sz;
  }

  // ----- How long an entry stays -----

  datatype Op =
    | PutOp(key: Bytes, m: Msg, now: int)
    | AppendOp(key: Bytes, payload: Bytes, num: nat, now: int)
    | GetOp(key: Bytes, req: Msg, num: nat, sz: nat, now: int)
    | GetWholeOp(key: Bytes, req: Msg, now: int)
    | ExpireOp(now: int)

  function Step(c: Cache, op: Op, timeout: int): Cache {
    match op
    case PutOp(key, m, now) => Put(c, key, m, now, timeout)
    case AppendOp(key, payload, num, now) => Append(c, key, payload, num, now, timeout).0
    case GetOp(key, req, num, sz, now) => GetBlockAt(c, key, req, num, sz, now, timeout).0
    case GetWholeOp(key, req, now) => GetWhole(c, key, req, now, timeout).0
    case ExpireOp(now) => Expire(c, now)
  }

  function Run(c: Cache, ops: seq<Op>, timeout: int): Cache
    decreases |ops|
  {
    if ops == [] then c else Run(Step(c, ops[0], timeout), ops[1..], timeout)
  }

  /** Nothing happens before `at`, and no pass of `expireBlocks` after the timeout that starts then. */
  predicate WithinTimeout(op: Op, at: int, timeout: int) {
    if op.ExpireOp? then op.now <= at + timeout else op.now >= at
  }

  /**
   * The inactivity timeout, over every run: an entry that was stored, extended or served at
   * `at` outlives every pass within the timeout, and the first pass after its time removes it.
   */
  lemma {:induction false} EntryLastsItsTimeout(c: Cache, ops: seq<Op>, key: Bytes, at: int, late: int, timeout: int)
    requires key in c && c[key].expires >= at + timeout
    requires forall op <- ops :: WithinTimeout(op, at, timeout)
    ensures var c' := Run(c, ops, timeout);
            && key in c' && c'[key].expires >= at + timeout
            && (key in Expire(c', late) <==> late <= c'[key].expires)
    decreases |ops|
  {
    if ops != [] {
      assert ops[0] in ops && forall op <- ops[1..] :: op in ops;
      EntryLastsItsTimeout(Step(c, ops[0], timeout), ops[1..], key, at, late, timeout);
    }
  }

  /** Storing, extending and serving all start such a timeout. */
  lemma UseStartsTimeout(c: Cache, key: Bytes, m: Msg, num: nat, sz: nat, now: int, timeout: int)
    ensures var put := Put(c, key, m, now, timeout); key in put && put[key].expires == now + timeout
    ensures var (c', ok) := Append(c, key, m.payload, num, now, timeout); ok ==> key in c' && c'[key].expires == now + timeout
    ensures var (c', rsp) := GetBlockAt(c, key, m, num, sz, now, timeout); rsp.Some? ==> key in c' && c'[key].expires == now + timeout
    ensures var (c', whole) := GetWhole(c, key, m, now, timeout); whole.Some? ==> key in c' && c'[key].expires == now + timeout
  {
    hide Serve;
  }
}
