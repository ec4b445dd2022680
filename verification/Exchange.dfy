/**
 * An upload of any block size whose chunks all arrive in order and are all answered (send.go:30-76,
 * handler.go:56-88, blockwise.go:128-148). Sizes that a block option cannot express are read as
 * 16, and block numbers are cut to 20 bits; this says exactly for which sizes and lengths the
 * callback still sees the whole payload.
 */
module Exchange {
  import opened Basics
  import opened Options
  import opened StableSort
  import opened Messages
  import opened Blocks
  import opened BlockCache
  import opened Handler
  import opened HandlerFrame
  import opened MessageObject
  import opened Transfers
  import ServerRuns
  import Dedup
  import ClientSend

  /** How a chunk is sent: a pass of the dedup watcher before it, its Message ID, and when it arrives. */
  datatype Turn = Turn(swept: int, mid: uint16, now: int)

  function Swept(st: State, turn: Turn): State {
    st.(dedup := Dedup.Sweep(st.dedup, turn.swept))
  }

  /**
   * What the callback sees of an upload that is at phase `p`. The exchange ends without one when
   * the turns run out, a chunk is taken for a duplicate or the client stops.
   */
  function Seen(t: Transfer, cfg: Config, st: State, p: Phase, turns: seq<Turn>): Option<Bytes>
    decreases |turns|
  {
    if turns == [] || !p.Ready? || p.num * p.size > |Data(t)| then None
    else if Dedup.Recorded(Swept(st, turns[0]).dedup, t.addr, turns[0].mid) then None
    else
      var c := ClientSend.ChunkMessage(p.msg, Data(t), p.num, p.size);
      match Arrived(c.(mid := turns[0].mid), t.addr)
      case None => None
      case Some(a) =>
        var b := Handler.Begin(Swept(st, turns[0]), a, turns[0].now, cfg);
        match b.out
        case Invoke(call) => Some(call.req.payload)
        case Silent => None
        case Answer(rsp) =>
          match Arrived(rsp, [])
          case None => None
          case Some(r) => Seen(t, cfg, b.st, OnReply(t, p.num, p.size, c, r), turns[1..])
  }

  /** A request with a method, no Block2 option of its own and a route. */
  ghost predicate Served(t: Transfer, cfg: Config) {
    && Sound(t) && t.base.code != CODE_EMPTY && Only(t.base.opts, BLOCK2) == []
    && forall m :: BlockKey(m) == Key(t) ==> cfg.routed(m)
  }

  ghost predicate Underway(t: Transfer, m: Msg) {
    Derived(t, m) && Only(m.opts, BLOCK2) == []
  }

  // ----- One chunk -----

  /** What the server does with a new chunk. */
  lemma ServerTakes(st: State, a: Msg, now: int, cfg: Config)
    requires a.mtype == CONFIRMABLE && IsRequest(a) && a.code != CODE_EMPTY && GetBlock1(a).Some? && GetBlock2(a) == None
    requires !Dedup.Recorded(st.dedup, a.addr, a.mid) && forall m :: BlockKey(m) == BlockKey(a) ==> cfg.routed(m)
    ensures var b, block, key := Handler.Begin(st, a, now, cfg), GetBlock1(a).value, BlockKey(a);
            if block.more && block.num == 0 then
              b.out == Answer(ContinueFor(a)) && b.st.cache == Put(st.cache, key, a, now, cfg.blockTimeout)
            else if block.more then
              var (cache, ok) := Append(st.cache, key, a.payload, block.num, now, cfg.blockTimeout);
              b.out == Answer(if ok then ContinueFor(a) else FailureFor(a)) && b.st.cache == cache
            else if block.num == 0 then
              b.out.Invoke? && b.out.call.req.payload == a.payload
            else if key in st.cache then
              b.out.Invoke? && b.out.call.req.payload == st.cache[key].rsp.payload + a.payload
            else
              b.out == Answer(FailureFor(a))
  {
    var size := GetBlock1(a).value.size;
    KeyIgnoresBody(a, a.payload, size);
    if BlockKey(a) in st.cache { KeyIgnoresBody(a, st.cache[BlockKey(a)].rsp.payload + a.payload, size); }
    hide BlockKey, GetBlock1, GetBlock2, MakeReply, WithBlock1, Dedup.Deduplicate, SaveAnswer, Complete;
  }

  lemma FirstUnderway(t: Transfer)
    requires Sound(t) && Only(t.base.opts, BLOCK2) == []
    ensures Underway(t, Measured(t.base))
  {
    BaseIsDerived(t);
    SortIsStable(t.base.opts);
  }

  /** The reply to a chunk that is followed by another takes the client to the next one, or stops it. */
  lemma ClientTakes(t: Transfer, num: nat, size: nat, c: Msg, a: Msg)
    requires |a.token| <= 8 && GetBlock1(a).Some?
    ensures var yes, no := Arrived(ContinueFor(a), []), Arrived(FailureFor(a), []);
            && yes.Some? && no.Some? && OnReply(t, num, size, c, no.value) == Stopped
            && (ClientSend.MoreChunks(Data(t), num, size) ==>
                  var echo := GetBlock1(a).value;
                  OnReply(t, num, size, c, yes.value) == Ready(ClientSend.NextNum(num, size, echo), echo.size, c))
  {
    ServerReplyArrives(a, []);
    hide Arrived, ContinueFor, FailureFor, GetBlock, ClientSend.MoreChunks, BlockKey;
  }

  // The functions below are total, so that they can be used without their arguments' bounds at hand.

  function ChunkOf(t: Transfer, m: Msg, num: nat, size: nat): Msg {
    if num * size <= |Data(t)| then ClientSend.ChunkMessage(m, Data(t), num, size) else m
  }

  function SliceOf(t: Transfer, num: nat, size: nat): Bytes {
    if num * size <= |Data(t)| then Slice(Data(t), num, size) else []
  }

  /** The data from chunk `num` on. */
  function RestOf(t: Transfer, num: nat, size: nat): Bytes {
    if num * size <= |Data(t)| then Data(t)[num * size..] else []
  }

  /** What is cached for the upload. */
  function Stored(t: Transfer, st: State): Bytes {
    if Key(t) in st.cache then st.cache[Key(t)].rsp.payload else []
  }

  predicate StoredLast(t: Transfer, st: State, num: nat) {
    Key(t) in st.cache && st.cache[Key(t)].last == num
  }

  /** What is cached once block `wire` has come in, if it is accepted. */
  function Joined(t: Transfer, st: State, wire: nat, slice: Bytes): Bytes {
    if wire == 0 then slice else Stored(t, st) + slice
  }

  /** Block 0 starts an upload, the block after the last one extends it. */
  predicate Fits(t: Transfer, st: State, wire: nat) {
    wire == 0 || StoredLast(t, st, wire - 1)
  }

  /** The chunk of the first turn is not taken for a duplicate. */
  ghost predicate IsNew(st: State, addr: Bytes, turns: seq<Turn>) {
    turns != [] && !Dedup.Recorded(Swept(st, turns[0]).dedup, addr, turns[0].mid)
  }

  /** The server after the chunk `c`. */
  function TurnState(t: Transfer, cfg: Config, st: State, c: Msg, turns: seq<Turn>): State {
    if turns == [] then st
    else match Arrived(c.(mid := turns[0].mid), t.addr)
      case Some(a) => Handler.Begin(Swept(st, turns[0]), a, turns[0].now, cfg).st
      case None => st
  }

  /** One turn of the exchange, by what the server makes of the chunk. */
  lemma SeenTurn(t: Transfer, cfg: Config, st: State, num: nat, size: nat, m: Msg, turns: seq<Turn>, a: Msg)
    requires IsNew(st, t.addr, turns) && num * size <= |Data(t)|
    requires Arrived(ClientSend.ChunkMessage(m, Data(t), num, size).(mid := turns[0].mid), t.addr) == Some(a)
    ensures var r, c := Seen(t, cfg, st, Ready(num, size, m), turns), ClientSend.ChunkMessage(m, Data(t), num, size);
            var b := Handler.Begin(Swept(st, turns[0]), a, turns[0].now, cfg);
            && (b.out.Invoke? ==> r == Some(b.out.call.req.payload))
            && (b.out.Answer? && Arrived(b.out.rsp, []).Some? ==>
                  r == Seen(t, cfg, b.st, OnReply(t, num, size, c, Arrived(b.out.rsp, []).value), turns[1..]))
  {
    hide Arrived, OnReply, Handler.Begin, Dedup.Recorded, ClientSend.ChunkMessage, Dedup.Sweep;
  }

  lemma NothingUnlessNew(t: Transfer, cfg: Config, st: State, p: Phase, turns: seq<Turn>)
    ensures !IsNew(st, t.addr, turns) ==> Seen(t, cfg, st, p, turns) == None
    ensures p == Stopped ==> Seen(t, cfg, st, p, turns) == None
    ensures IsNew(st, t.addr, turns) ==> turns != []
  {
    hide Dedup.Sweep, Dedup.Recorded, Arrived, Handler.Begin, OnReply, ClientSend.ChunkMessage;
  }

  /** One new chunk, on both sides. */
  lemma OneTurn(t: Transfer, cfg: Config, st: State, num: nat, size: nat, m: Msg, turns: seq<Turn>)
    requires Served(t, cfg) && Underway(t, m) && num * size <= |Data(t)| && IsNew(st, t.addr, turns)
    ensures var c := ChunkOf(t, m, num, size);
            var st', slice := TurnState(t, cfg, st, c, turns), SliceOf(t, num, size);
            var r, wire := Seen(t, cfg, st, Ready(num, size, m), turns), num % MAX_BLOCKS;
            && Underway(t, c) && (Dedup.Valid(st.dedup) ==> Dedup.Valid(st'.dedup))
            && if !ClientSend.MoreChunks(Data(t), num, size) then
                 r == if wire == 0 || Key(t) in st.cache then Some(Joined(t, st, wire, slice)) else None
               else if Fits(t, st, wire) then
                 var echo := Block(wire, true, ClientSend.NamedSize(size));
                 && StoredLast(t, st', wire) && Stored(t, st') == Joined(t, st, wire, slice)
                 && r == Seen(t, cfg, st', Ready(ClientSend.NextNum(num, size, echo), echo.size, c), turns[1..])
               else r == None
  {
    hide Seen, ClientSend.ChunkMessage, Arrived, Derived, OnReply, ContinueFor, FailureFor, GetBlock, Handler.Begin, Key, BlockKey, Only, Sound,
      Dedup.Valid, Dedup.Recorded, Dedup.Sweep, ClientSend.MoreChunks, ClientSend.NamedSize, ClientSend.NextNum, Slice;
    var turn := turns[0];
    var c := ClientSend.ChunkMessage(m, Data(t), num, size);
    var a := ChunkReads(t, m, num, size, turn.mid);
    ChunkIsDerived(t, m, num, size);
    var st1 := Swept(st, turn);
    IsCall(t, cfg, a);
    ServerTakes(st1, a, turn.now, cfg);
    ClientTakes(t, num, size, c, a);
    SeenTurn(t, cfg, st, num, size, m, turns, a);
    var st' := Handler.Begin(st1, a, turn.now, cfg).st;
    NothingUnlessNew(t, cfg, st', Stopped, turns[1..]);
    StillValid(st, turn, a, cfg);
  }

  lemma IsCall(t: Transfer, cfg: Config, a: Msg)
    requires Served(t, cfg) && IsFrom(t, a) && a.code == t.base.code
    ensures a.addr == t.addr && a.mtype == CONFIRMABLE && IsRequest(a) && a.code != CODE_EMPTY && BlockKey(a) == Key(t)
    ensures forall m :: BlockKey(m) == BlockKey(a) ==> cfg.routed(m)
  {
    hide BlockKey, Key;
  }

  lemma StillValid(st: State, turn: Turn, a: Msg, cfg: Config)
    requires !Dedup.Recorded(Swept(st, turn).dedup, a.addr, a.mid)
    ensures Dedup.Valid(st.dedup) ==> Dedup.Valid(Handler.Begin(Swept(st, turn), a, turn.now, cfg).st.dedup)
  {
    if Dedup.Valid(st.dedup) {
      Dedup.SweepKeepsValid(st.dedup, turn.swept);
      ServerRuns.NewArrival(Swept(st, turn), a, turn.now, cfg);
    }
    hide Handler.Begin, Dedup.Valid, Dedup.Recorded, Dedup.Sweep;
  }

  // ----- From the second chunk on -----

  /** A turn before which the uploader's endpoint is forgotten, so that any Message ID will do. */
  function NewTurn(st: State, addr: Bytes): Turn {
    Turn(if addr in st.dedup.deleteAfter then st.dedup.deleteAfter[addr] + 1 else 0, 0, 0)
  }

  lemma NewTurnIsNew(st: State, addr: Bytes, rest: seq<Turn>)
    requires Dedup.Valid(st.dedup)
    ensures IsNew(st, addr, [NewTurn(st, addr)] + rest)
  {
    Dedup.SweepKeepsValid(st.dedup, NewTurn(st, addr).swept);
    assert forall m :: Dedup.Recorded(st.dedup, addr, m) ==> addr in st.dedup.deleteAfter;
    hide Dedup.Sweep;
  }

  /** The client is at chunk `num` of a legal size, and the server has stored block `num - 1` last. */
  ghost predicate InStep(t: Transfer, cfg: Config, st: State, num: nat, size: nat, m: Msg) {
    && Served(t, cfg) && Underway(t, m) && LegalSize(size)
    && 1 <= num < MAX_BLOCKS && num * size <= |Data(t)| <= MAX_BLOCKS * size && StoredLast(t, st, num - 1)
  }

  lemma Smaller(num: nat, size: nat)
    requires num * size < MAX_BLOCKS * size
    ensures num < MAX_BLOCKS
  {
    if num >= MAX_BLOCKS { ClientSend.MulMono(MAX_BLOCKS, num, size, size); }
  }

  /** The data from a chunk on is the chunk and the data after it. */
  lemma RestSplits(t: Transfer, num: nat, size: nat)
    requires num * size <= |Data(t)|
    ensures var more := ClientSend.MoreChunks(Data(t), num, size);
            && (more ==> (num + 1) * size < |Data(t)|)
            && RestOf(t, num, size) == if more then SliceOf(t, num, size) + RestOf(t, num + 1, size) else SliceOf(t, num, size)
  {
    ClientSend.Successor(num, size);
  }

  lemma Associates(a: Bytes, b: Bytes, c: Bytes)
    ensures a + b + c == a + (b + c)
  {
  }

  /** A turn in step: the callback sees the whole, or the next turn is in step and the whole is the same. */
  lemma StepTurn(t: Transfer, cfg: Config, st: State, num: nat, size: nat, m: Msg, turns: seq<Turn>)
    requires InStep(t, cfg, st, num, size, m) && IsNew(st, t.addr, turns)
    ensures var c := ChunkOf(t, m, num, size);
            var st', whole := TurnState(t, cfg, st, c, turns), Stored(t, st) + RestOf(t, num, size);
            var r := Seen(t, cfg, st, Ready(num, size, m), turns);
            && (Dedup.Valid(st.dedup) ==> Dedup.Valid(st'.dedup))
            && if !ClientSend.MoreChunks(Data(t), num, size) then r == Some(whole)
               else
                 && InStep(t, cfg, st', num + 1, size, c) && Stored(t, st') + RestOf(t, num + 1, size) == whole
                 && r == Seen(t, cfg, st', Ready(num + 1, size, c), turns[1..])
  {
    hide Served, Underway, Seen, Key, TurnState, ChunkOf, SliceOf, RestOf, Stored, IsNew, Dedup.Valid, ClientSend.MoreChunks;
    OneTurn(t, cfg, st, num, size, m, turns);
    RestSplits(t, num, size);
    Associates(Stored(t, st), SliceOf(t, num, size), RestOf(t, num + 1, size));
    if ClientSend.MoreChunks(Data(t), num, size) { Smaller(num + 1, size); }
    assert num % MAX_BLOCKS == num;
  }

  /** Whatever the turns, the callback sees nothing or the whole. */
  lemma {:induction false} SeesTheWhole(t: Transfer, cfg: Config, st: State, num: nat, size: nat, m: Msg, turns: seq<Turn>)
    requires InStep(t, cfg, st, num, size, m)
    ensures Seen(t, cfg, st, Ready(num, size, m), turns) in {None, Some(Stored(t, st) + RestOf(t, num, size))}
    decreases |turns|
  {
    hide InStep, Seen, TurnState, IsNew, Dedup.Valid, ChunkOf, RestOf, Stored, ClientSend.MoreChunks;
    NothingUnlessNew(t, cfg, st, Ready(num, size, m), turns);
    if IsNew(st, t.addr, turns) {
      StepTurn(t, cfg, st, num, size, m, turns);
      if ClientSend.MoreChunks(Data(t), num, size) {
        var c := ChunkOf(t, m, num, size);
        SeesTheWhole(t, cfg, TurnState(t, cfg, st, c, turns), num + 1, size, c, turns[1..]);
      }
    }
  }

  /** With new turns it does see the whole. */
  lemma {:induction false} NewTurnsShowTheWhole(t: Transfer, cfg: Config, st: State, num: nat, size: nat, m: Msg) returns (turns: seq<Turn>)
    requires InStep(t, cfg, st, num, size, m) && Dedup.Valid(st.dedup)
    ensures Seen(t, cfg, st, Ready(num, size, m), turns) == Some(Stored(t, st) + RestOf(t, num, size))
    decreases |RestOf(t, num, size)|
  {
    hide InStep, Seen, NewTurn, IsNew, TurnState, Dedup.Valid, ChunkOf, RestOf, Stored, ClientSend.MoreChunks;
    var turn, c := NewTurn(st, t.addr), ChunkOf(t, m, num, size);
    turns := [turn] + [];
    NewTurnIsNew(st, t.addr, []);
    Shrinks(t, cfg, st, num, size, m);
    StepTurn(t, cfg, st, num, size, m, turns);
    if ClientSend.MoreChunks(Data(t), num, size) {
      var st' := TurnState(t, cfg, st, c, turns);
      var rest := NewTurnsShowTheWhole(t, cfg, st', num + 1, size, c);
      turns := [turn] + rest;
      NewTurnIsNew(st, t.addr, rest);
      StepTurn(t, cfg, st, num, size, m, turns);
      SameTurn(t, cfg, st, c, [turn] + [], turns);
      assert turns[1..] == rest;
    }
  }

  lemma SameTurn(t: Transfer, cfg: Config, st: State, c: Msg, turns: seq<Turn>, turns': seq<Turn>)
    requires turns != [] && turns' != [] && turns'[0] == turns[0]
    ensures TurnState(t, cfg, st, c, turns') == TurnState(t, cfg, st, c, turns)
  {
    hide Arrived, Handler.Begin, Swept;
  }

  lemma Shrinks(t: Transfer, cfg: Config, st: State, num: nat, size: nat, m: Msg)
    requires InStep(t, cfg, st, num, size, m)
    ensures ClientSend.MoreChunks(Data(t), num, size) ==> |RestOf(t, num + 1, size)| < |RestOf(t, num, size)|
  {
    ClientSend.Successor(num, size);
    hide Served, Underway, StoredLast;
  }

  /**
   * With more than 2^20 chunks the callback never sees as much as the payload: chunk 2^20 is
   * written as block 0, and is either handed over alone or starts the upload again.
   */
  lemma {:induction false} TooManyAreNeverWhole(t: Transfer, cfg: Config, st: State, num: nat, size: nat, m: Msg, turns: seq<Turn>)
    requires Served(t, cfg) && Underway(t, m) && LegalSize(size) && num <= MAX_BLOCKS && |Data(t)| > MAX_BLOCKS * size
    ensures Seen(t, cfg, st, Ready(num, size, m), turns) != Some(Data(t))
    decreases |turns|
  {
    hide Served, Underway, Seen, Key, TurnState, ChunkOf, SliceOf, Stored, StoredLast, IsNew, Dedup.Valid, LegalSize, Fits;
    ClientSend.MulMono(num, MAX_BLOCKS, size, size);
    ClientSend.MulMono(1, MAX_BLOCKS, size, size);
    NothingUnlessNew(t, cfg, st, Ready(num, size, m), turns);
    if IsNew(st, t.addr, turns) {
      OneTurn(t, cfg, st, num, size, m, turns);
      NamedLegal(size);
      SliceIsShort(t, num, size);
      var wire, c := num % MAX_BLOCKS, ChunkOf(t, m, num, size);
      if num < MAX_BLOCKS {
        ClientSend.MulMono(num + 1, MAX_BLOCKS, size, size);
        ClientSend.Successor(num, size);
      }
      if ClientSend.MoreChunks(Data(t), num, size) && Fits(t, st, wire) {
        TooManyAreNeverWhole(t, cfg, TurnState(t, cfg, st, c, turns), wire + 1, size, c, turns[1..]);
      }
    }
  }

  lemma NamedLegal(size: nat)
    ensures LegalSize(size) ==> size >= 16 && ClientSend.NamedSize(size) == size
    ensures !LegalSize(size) ==> ClientSend.NamedSize(size) == 16
  {
  }

  lemma SliceIsShort(t: Transfer, num: nat, size: nat)
    ensures |SliceOf(t, num, size)| <= size
  {
  }

  // ----- Exactly when the callback sees the whole payload -----

  /**
   * One chunk is enough, or the size is legal and the numbers fit 20 bits, or the second chunk,
   * of size 16, is the final one and starts where the first one ended.
   */
  predicate SizeWorks(length: nat, size: nat) {
    || length <= size
    || (LegalSize(size) && length <= MAX_BLOCKS * size)
    || (size % 16 == 0 && length <= size + 16 && size / 16 % MAX_BLOCKS != 0)
  }

  /** After the first of several chunks the client goes on at this number with the size it was named. */
  function SecondNum(size: nat): nat {
    if LegalSize(size) || size < 16 then 1 else size / 16
  }

  lemma FirstTurn(t: Transfer, cfg: Config, st: State, turns: seq<Turn>)
    requires Served(t, cfg) && IsNew(st, t.addr, turns)
    ensures var c := ChunkOf(t, Measured(t.base), 0, t.size);
            var st', named := TurnState(t, cfg, st, c, turns), ClientSend.NamedSize(t.size);
            var r := Seen(t, cfg, st, Transfers.Begin(t), turns);
            && Underway(t, c) && (Dedup.Valid(st.dedup) ==> Dedup.Valid(st'.dedup))
            && if |Data(t)| <= t.size then r == Some(Data(t))
               else
                 && StoredLast(t, st', 0) && Stored(t, st') == Data(t)[..t.size]
                 && r == Seen(t, cfg, st', Ready(SecondNum(t.size), named, c), turns[1..])
  {
    hide Underway, Seen, Key, TurnState, ChunkOf, Stored, StoredLast, IsNew, Dedup.Valid, ClientSend.NamedSize;
    FirstUnderway(t);
    OneTurn(t, cfg, st, 0, t.size, Measured(t.base), turns);
    NamedLegal(t.size);
    assert SliceOf(t, 0, t.size) == Data(t)[..Min(t.size, |Data(t)|)];
    assert Data(t)[..|Data(t)|] == Data(t);
  }

  /** The second chunk starts where the first one ended: the callback sees the whole payload or nothing. */
  lemma LegalWorks(t: Transfer, cfg: Config, st: State, m: Msg, turns: seq<Turn>)
    requires Served(t, cfg) && Underway(t, m) && LegalSize(t.size) && t.size < |Data(t)| <= MAX_BLOCKS * t.size
    requires StoredLast(t, st, 0) && Stored(t, st) == Data(t)[..t.size]
    ensures InStep(t, cfg, st, 1, t.size, m) && Stored(t, st) + RestOf(t, 1, t.size) == Data(t)
    ensures Seen(t, cfg, st, Ready(1, t.size, m), turns) in {None, Some(Data(t))}
  {
    hide Served, Underway, Seen, Stored, StoredLast, LegalSize;
    assert Data(t)[..t.size] + Data(t)[t.size..] == Data(t);
    SeesTheWhole(t, cfg, st, 1, t.size, m, turns);
  }

  /** The second chunk of an illegal size is of size 16. */
  lemma SecondTurn(t: Transfer, cfg: Config, st: State, m: Msg, turns: seq<Turn>)
    requires Served(t, cfg) && Underway(t, m) && !LegalSize(t.size) && t.size < |Data(t)|
    requires StoredLast(t, st, 0) && Stored(t, st) == Data(t)[..t.size]
    ensures var r := Seen(t, cfg, st, Ready(SecondNum(t.size), 16, m), turns);
            if SizeWorks(|Data(t)|, t.size) then r == if IsNew(st, t.addr, turns) then Some(Data(t)) else None
            else r != Some(Data(t))
  {
    hide Served, Underway, Seen, StoredLast, Stored, IsNew, LegalSize;
    var q := SecondNum(t.size);
    IllegalSize(t.size);
    NothingUnlessNew(t, cfg, st, Ready(q, 16, m), turns);
    if q * 16 > |Data(t)| {
      NothingBeyond(t, cfg, st, q, 16, m, turns);
    } else if IsNew(st, t.addr, turns) {
      if ClientSend.MoreChunks(Data(t), q, 16) {
        MoreIsNotWhole(t, cfg, st, m, turns);
      } else {
        SecondIsLast(t, cfg, st, m, turns);
      }
    }
  }

  lemma IllegalSize(size: nat)
    requires !LegalSize(size)
    ensures size != 16 && SecondNum(size) == (if size < 16 then 1 else size / 16)
  {
  }

  lemma NothingBeyond(t: Transfer, cfg: Config, st: State, num: nat, size: nat, m: Msg, turns: seq<Turn>)
    requires num * size > |Data(t)|
    ensures Seen(t, cfg, st, Ready(num, size, m), turns) == None
  {
  }

  /** The second chunk is the final one. */
  lemma SecondIsLast(t: Transfer, cfg: Config, st: State, m: Msg, turns: seq<Turn>)
    requires Served(t, cfg) && Underway(t, m) && !LegalSize(t.size) && t.size < |Data(t)| && IsNew(st, t.addr, turns)
    requires StoredLast(t, st, 0) && Stored(t, st) == Data(t)[..t.size]
    requires SecondNum(t.size) * 16 <= |Data(t)| && !ClientSend.MoreChunks(Data(t), SecondNum(t.size), 16)
    ensures var r := Seen(t, cfg, st, Ready(SecondNum(t.size), 16, m), turns);
            if SizeWorks(|Data(t)|, t.size) then r == Some(Data(t)) else r != Some(Data(t))
  {
    hide Served, Underway, Seen, Stored, TurnState, IsNew, LegalSize, Key;
    var q := SecondNum(t.size);
    IllegalSize(t.size);
    OneTurn(t, cfg, st, q, 16, m, turns);
    RestSplits(t, q, 16);
    var joined := Data(t)[..t.size] + RestOf(t, q, 16);
    if t.size == q * 16 {
      assert joined == Data(t);
    } else {
      assert |joined| == |Data(t)| + t.size - q * 16;
    }
  }

  /** More chunks follow the second one: it is refused, or it does not fit. */
  lemma MoreIsNotWhole(t: Transfer, cfg: Config, st: State, m: Msg, turns: seq<Turn>)
    requires Served(t, cfg) && Underway(t, m) && !LegalSize(t.size) && t.size < |Data(t)| && IsNew(st, t.addr, turns)
    requires StoredLast(t, st, 0) && Stored(t, st) == Data(t)[..t.size]
    requires SecondNum(t.size) * 16 <= |Data(t)| && ClientSend.MoreChunks(Data(t), SecondNum(t.size), 16)
    ensures !SizeWorks(|Data(t)|, t.size)
    ensures Seen(t, cfg, st, Ready(SecondNum(t.size), 16, m), turns) != Some(Data(t))
  {
    hide Served, Underway, Seen, Stored, TurnState, IsNew, LegalSize, Key, ChunkOf;
    var q := SecondNum(t.size);
    var wire, c := q % MAX_BLOCKS, ChunkOf(t, m, q, 16);
    IllegalSize(t.size);
    NamedLegal(16);
    NothingUnlessNew(t, cfg, st, Stopped, turns);
    OneTurn(t, cfg, st, q, 16, m, turns);
    if Fits(t, st, wire) {
      var st' := TurnState(t, cfg, st, c, turns);
      assert LegalSize(16) by { SixteenIsLegal(); }
      if |Data(t)| > MAX_BLOCKS * 16 {
        TooManyAreNeverWhole(t, cfg, st', wire + 1, 16, c, turns[1..]);
      } else {
        SeesTheWhole(t, cfg, st', 2, 16, c, turns[1..]);
        assert |Stored(t, st') + RestOf(t, 2, 16)| == |Data(t)| + t.size - 16;
      }
    }
  }

  lemma SixteenIsLegal()
    ensures LegalSize(16)
  {
  }

  /**
   * Over every exchange the callback sees the whole payload or nothing if the size works, and
   * never the whole payload if it does not.
   */
  lemma WorksOrNever(t: Transfer, cfg: Config, st: State, turns: seq<Turn>)
    requires Served(t, cfg)
    ensures var r := Seen(t, cfg, st, Transfers.Begin(t), turns);
            if SizeWorks(|Data(t)|, t.size) then r in {None, Some(Data(t))} else r != Some(Data(t))
  {
    hide Served, Underway, Seen, Stored, StoredLast, TurnState, IsNew, LegalSize, Key, ChunkOf, SizeWorks, ClientSend.NamedSize, SecondNum;
    NothingUnlessNew(t, cfg, st, Transfers.Begin(t), turns);
    if IsNew(st, t.addr, turns) {
      FirstTurn(t, cfg, st, turns);
      NamedLegal(t.size);
      SizeCases(|Data(t)|, t.size);
      var c := ChunkOf(t, Measured(t.base), 0, t.size);
      var st' := TurnState(t, cfg, st, c, turns);
      if |Data(t)| > t.size {
        if !LegalSize(t.size) {
          SecondTurn(t, cfg, st', c, turns[1..]);
        } else if |Data(t)| <= MAX_BLOCKS * t.size {
          LegalWorks(t, cfg, st', c, turns[1..]);
        } else {
          TooManyAreNeverWhole(t, cfg, st', 1, t.size, c, turns[1..]);
        }
      }
    }
  }

  lemma SizeCases(length: nat, size: nat)
    ensures length <= size ==> SizeWorks(length, size)
    ensures LegalSize(size) ==> (SizeWorks(length, size) <==> length <= MAX_BLOCKS * size) && SecondNum(size) == 1
  {
  }

  /** If the size works, some exchange shows the callback the whole payload. */
  lemma WorkingSizeIsSeen(t: Transfer, cfg: Config, st: State) returns (turns: seq<Turn>)
    requires Served(t, cfg) && Dedup.Valid(st.dedup) && SizeWorks(|Data(t)|, t.size)
    ensures Seen(t, cfg, st, Transfers.Begin(t), turns) == Some(Data(t))
  {
    hide Served, Underway, Seen, Stored, StoredLast, TurnState, IsNew, LegalSize, Key, ChunkOf, SizeWorks, ClientSend.NamedSize, SecondNum, NewTurn, Dedup.Valid;
    var turn, c := NewTurn(st, t.addr), ChunkOf(t, Measured(t.base), 0, t.size);
    turns := [turn] + [];
    NewTurnIsNew(st, t.addr, []);
    FirstTurn(t, cfg, st, turns);
    NamedLegal(t.size);
    SizeCases(|Data(t)|, t.size);
    if |Data(t)| > t.size {
      var st' := TurnState(t, cfg, st, c, turns);
      var rest;
      if LegalSize(t.size) {
        LegalWorks(t, cfg, st', c, []);
        rest := NewTurnsShowTheWhole(t, cfg, st', 1, t.size, c);
      } else {
        rest := [NewTurn(st', t.addr)] + [];
        NewTurnIsNew(st', t.addr, []);
        SecondTurn(t, cfg, st', c, rest);
      }
      turns := [turn] + rest;
      NewTurnIsNew(st, t.addr, rest);
      FirstTurn(t, cfg, st, turns);
      SameTurn(t, cfg, st, c, [turn] + [], turns);
      assert turns[1..] == rest;
    }
  }

  /**
   * The exact condition on block size and length, for uploads of any number of chunks: if the
   * endpoint may be forgotten between two chunks, so that Message IDs can be used again, some
   * exchange shows the callback the whole payload if and only if the size works.
   */
  lemma WholeExactly(t: Transfer, cfg: Config, st: State)
    requires Served(t, cfg) && Dedup.Valid(st.dedup)
    ensures (exists turns :: Seen(t, cfg, st, Transfers.Begin(t), turns) == Some(Data(t))) <==> SizeWorks(|Data(t)|, t.size)
  {
    hide Served, Seen, SizeWorks;
    if SizeWorks(|Data(t)|, t.size) {
      var turns := WorkingSizeIsSeen(t, cfg, st);
    } else {
      forall turns
        ensures Seen(t, cfg, st, Transfers.Begin(t), turns) != Some(Data(t))
      {
        WorksOrNever(t, cfg, st, turns);
      }
    }
  }

  /**
   * In particular an upload of more chunks than there are Message IDs comes through once the
   * server has forgotten some of them, although it never does before (`Uploads.OverlongIsNeverSeen`).
   */
  lemma ForgottenIdsCarryOn(t: Transfer, cfg: Config, st: State) returns (turns: seq<Turn>)
    requires Served(t, cfg) && Dedup.Valid(st.dedup) && LegalSize(t.size) && 0x1_0000 <= LastNum(t) < MAX_BLOCKS
    ensures Seen(t, cfg, st, Transfers.Begin(t), turns) == Some(Data(t))
  {
    hide Served, Seen, SizeWorks, Dedup.Valid;
    FewChunksFit(t);
    SizeCases(|Data(t)|, t.size);
    turns := WorkingSizeIsSeen(t, cfg, st);
  }

  lemma FewChunksFit(t: Transfer)
    requires LegalSize(t.size) && LastNum(t) < MAX_BLOCKS
    ensures |Data(t)| <= MAX_BLOCKS * t.size
  {
    if |Data(t)| > 0 {
      var n := |Data(t)| - 1;
      assert n == n / t.size * t.size + n % t.size;
      ClientSend.Successor(LastNum(t), t.size);
      ClientSend.MulMono(LastNum(t) + 1, MAX_BLOCKS, t.size, t.size);
    }
  }

  /**
   * What goes wrong otherwise: with size 100, read as 16, the chunk after the first is number 6,
   * and the callback is given 114 bytes for a payload of 110.
   */
  lemma IllegalSizeOverlaps(t: Transfer, cfg: Config, st: State) returns (turns: seq<Turn>)
    requires Served(t, cfg) && Dedup.Valid(st.dedup) && t.size == 100 && |Data(t)| == 110
    ensures Seen(t, cfg, st, Transfers.Begin(t), turns) == Some(Data(t)[..100] + Data(t)[96..])
  {
    hide Served, Underway, Seen, TurnState, IsNew, Key, NewTurn, Dedup.Valid, ChunkOf, Stored;
    var turn, c := NewTurn(st, t.addr), ChunkOf(t, Measured(t.base), 0, t.size);
    turns := [turn] + [];
    NewTurnIsNew(st, t.addr, []);
    FirstTurn(t, cfg, st, turns);
    var st' := TurnState(t, cfg, st, c, turns);
    var rest := [NewTurn(st', t.addr)] + [];
    NewTurnIsNew(st', t.addr, []);
    OneTurn(t, cfg, st', 6, 16, c, rest);
    RestSplits(t, 6, 16);
    turns := [turn] + rest;
    NewTurnIsNew(st, t.addr, rest);
    FirstTurn(t, cfg, st, turns);
    SameTurn(t, cfg, st, c, [turn] + [], turns);
    assert turns[1..] == rest;
  }
}
