/**
 * The server over whole runs (handler.go:11-219, dedup.go:21-59): messages arrive, callbacks
 * return at any later time, watchers pass, the server sends messages of its own. What a client
 * that repeats itself can count on, whatever the messages and the callbacks' answers are
 * (section 4.5 of RFC 7252).
 */
module ServerRuns {
  import opened Basics
  import opened Messages
  import opened Blocks
  import opened MessageObject
  import opened BlockCache
  import opened Handler
  import Dedup
  import Pending

  /** `calls` are the callbacks that have not returned; `seen` records every invocation. */
  datatype World = World(st: State, calls: set<Call>, seen: seq<Call>)

  datatype Op =
    | Arrive(req: Msg, now: int)
    | Return(call: Call, answer: Option<Msg>, now: int)
    | ExpireBlocks(now: int)
    | WatchDedup(now: int)
    | Sending(op: Pending.Op)  // a send of the server's own, or what it does with the reply

  function Arrived(w: World, req: Msg, now: int, cfg: Config): World {
    var b := Begin(w.st, req, now, cfg);
    if b.out.Invoke? then World(b.st, w.calls + {b.out.call}, w.seen + [b.out.call]) else w.(st := b.st)
  }

  /** Only a callback that is running can return. */
  function Step(w: World, op: Op, cfg: Config): World {
    match op
    case Arrive(req, now) => Arrived(w, req, now, cfg)
    case Return(call, answer, now) =>
      if call in w.calls then w.(st := Complete(w.st, call, answer, now, cfg).0, calls := w.calls - {call}) else w
    case ExpireBlocks(now) => w.(st := w.st.(cache := Expire(w.st.cache, now)))
    case WatchDedup(now) => w.(st := w.st.(dedup := Dedup.Sweep(w.st.dedup, now)))
    case Sending(op) => w.(st := w.st.(pending := Pending.Step(w.st.pending, op)))
  }

  function Run(w: World, ops: seq<Op>, cfg: Config): World
    decreases |ops|
  {
    if ops == [] then w else Run(Step(w, ops[0], cfg), ops[1..], cfg)
  }

  function Idle(start: uint16): World {
    World(State(Dedup.EMPTY_TABLE, map[], Pending.Initial(start)), {}, [])
  }

  // ----- What one step does to the dedup table -----

  /** Only the message's own entry is written, with the answer given; a call owns that entry. */
  ghost predicate OwnEntryOnly(st: State, req: Msg, entry: Option<nat>, b: Begun) {
    && b.st.dedup == (if b.out.Answer? then SaveAnswer(st, entry, b.out.rsp) else st).dedup
    && (b.out.Invoke? ==>
          && b.out.call.entry == entry && Deduplicated(req)
          && b.out.call.req.addr == req.addr && b.out.call.req.mid == req.mid)
  }

  lemma FinishOwnEntry(st: State, call: Call, answer: Option<Msg>, now: int, cfg: Config)
    ensures var (st', rsp) := Finish(st, call, answer, now, cfg);
            st'.dedup == (if rsp.Some? then SaveAnswer(st, call.entry, rsp.value) else st).dedup
  {
    hide BlockKey, NeedsBlocks, WithBlock1, MakeReply, GetBlockAt, Measured;
  }

  lemma CompleteOwnEntry(st: State, call: Call, answer: Option<Msg>, now: int, cfg: Config)
    ensures var (st', rsp) := Complete(st, call, answer, now, cfg);
            st'.dedup == (if rsp.Some? then SaveAnswer(st, call.entry, rsp.value) else st).dedup
  {
    FinishOwnEntry(st, call, answer, now, cfg);
    if answer.Some? {
      FinishOwnEntry(st, call, Some(answer.value.(mtype := NON_CONFIRMABLE)), now, cfg);
    }
    hide Finish, SaveAnswer;
  }

  lemma FinishNowOwnEntry(st: State, mid: State, call: Call, answer: Option<Msg>, now: int, cfg: Config)
    requires mid.dedup == st.dedup
    ensures OwnEntryOnly(st, call.req, call.entry, FinishNow(mid, call, answer, now, cfg))
  {
    FinishOwnEntry(mid, call, answer, now, cfg);
    hide Finish;
  }

  lemma SwitchOwnEntry(st: State, call: Call, early: Option<Msg>, now: int, cfg: Config)
    ensures OwnEntryOnly(st, call.req, call.entry, Switch(st, call, early, now, cfg))
  {
    var req := call.req;
    var (p, found) := Pending.HandleAcknowledgement(st.pending, req);
    var rsp := if found then Some(MakeReply(req, CODE_EMPTY, []).(blockSize := 0)) else early;
    FinishNowOwnEntry(st, st, call, Some(ResetFor(req)), now, cfg);
    FinishNowOwnEntry(st, st.(pending := p), call, rsp, now, cfg);
    FinishNowOwnEntry(st, Notify(st, req).0, call, Notify(st, req).1, now, cfg);
    CompleteOwnEntry(st, call, Some(MakeReply(req, CODE_NOT_FOUND, [])), now, cfg);
    hide FinishNow, Complete, SaveAnswer, MakeReply, ResetFor, First, Pending.HandleAcknowledgement;
  }

  /** The footprint looks at the dedup table and at the message's type, address and Message ID only. */
  lemma OwnEntryFrom(st: State, mid: State, req: Msg, req': Msg, entry: Option<nat>, b: Begun, sent: Option<Msg>)
    requires OwnEntryOnly(mid, req', entry, b) && mid.dedup == st.dedup
    requires req'.mtype == req.mtype && req'.addr == req.addr && req'.mid == req.mid
    ensures OwnEntryOnly(st, req, entry, b.(sent := sent))
  {
    hide Dedup.Save;
  }

  lemma AfterBlock1OwnEntry(st: State, req: Msg, entry: Option<nat>, block1: Option<Block>, now: int, cfg: Config)
    ensures OwnEntryOnly(st, req, entry, AfterBlock1(st, req, entry, block1, now, cfg))
  {
    var (p, found) := if req.mtype == ACKNOWLEDGEMENT then Pending.HandleAcknowledgement(st.pending, req) else (st.pending, false);
    var block2 := GetBlock2(req);
    assert OwnEntryOnly(st, req, entry, Begun(st.(pending := p), Silent, None));
    if block2.None? {
      var sized := if block1.Some? then req.(blockSize := block1.value.size) else req;
      ToSwitch(st, st, req, Call(sized, entry, block1, None), None, None, now, cfg);
    } else {
      var sized := req.(blockSize := block2.value.size);
      var (cache, served) := GetBlockAt(st.cache, BlockKey(req), req, block2.value.num, block2.value.size, now, cfg.blockTimeout);
      assert served.Some? ==> OwnEntryOnly(st, req, entry, Reply(st.(cache := cache), entry, served.value));
      ToSwitch(st, st, req, Call(sized, entry, block1, block2), None, None, now, cfg);
      var (st', ack) := AcknowledgeEarly(st, req);
      var last := Some(block2.value.(more := false));
      ToSwitch(st, st', req, Call(sized, entry, block1, last), Some(ResetFor(req)), Some(ack), now, cfg);
    }
    hide OwnEntryOnly, Switch, GetBlockAt, AcknowledgeEarly, ResetFor, Pending.HandleAcknowledgement, GetBlock2, BlockKey, Reply;
  }

  lemma ToSwitch(st: State, mid: State, req: Msg, call: Call, early: Option<Msg>, sent: Option<Msg>, now: int, cfg: Config)
    requires mid.dedup == st.dedup && call.req == req.(blockSize := call.req.blockSize)
    ensures var b := Switch(mid, call, early, now, cfg);
            OwnEntryOnly(st, req, call.entry, b) && OwnEntryOnly(st, req, call.entry, b.(sent := sent))
  {
    var b := Switch(mid, call, early, now, cfg);
    SwitchOwnEntry(mid, call, early, now, cfg);
    OwnEntryFrom(st, mid, req, call.req, call.entry, b, b.sent);
    OwnEntryFrom(st, mid, req, call.req, call.entry, b, sent);
    assert b.(sent := b.sent) == b;
    hide OwnEntryOnly, Switch;
  }

  lemma DispatchOwnEntry(st: State, req: Msg, entry: Option<nat>, now: int, cfg: Config)
    ensures OwnEntryOnly(st, req, entry, Dispatch(st, req, entry, now, cfg))
  {
    var block1 := GetBlock1(req);
    var (cache, whole) := GetWhole(st.cache, BlockKey(req), req, now, cfg.blockTimeout);
    AfterBlock1OwnEntry(st, req, entry, block1, now, cfg);
    if whole.Some? {
      var mid, joined := st.(cache := cache), req.(payload := whole.value);
      var b := AfterBlock1(mid, joined, entry, block1, now, cfg);
      AfterBlock1OwnEntry(mid, joined, entry, block1, now, cfg);
      OwnEntryFrom(st, mid, req, joined, entry, b, b.sent);
      assert b.(sent := b.sent) == b;
    }
    hide AfterBlock1, GetBlock1, BlockKey, MakeReply, WithBlock1, Put, Append, GetWhole, Dedup.Save;
  }

  predicate IsDuplicate(w: World, req: Msg) {
    Deduplicated(req) && Dedup.Recorded(w.st.dedup, req.addr, req.mid)
  }

  /** A message that is not a duplicate, with its pair noted: what `handleMessage` writes for it. */
  lemma BeginOwnEntry(st: State, req: Msg, now: int, cfg: Config)
    requires !(Deduplicated(req) && Dedup.Recorded(st.dedup, req.addr, req.mid))
    ensures var t := st.dedup;
            var noted := if Deduplicated(req) then Dedup.Deduplicate(t, req.addr, req.mid, now, cfg.expiration).0 else t;
            var entry := if Deduplicated(req) then Some(|t.entries|) else None;
            OwnEntryOnly(st.(dedup := noted), req, entry, Begin(st, req, now, cfg))
  {
    var t := st.dedup;
    if Deduplicated(req) {
      DispatchOwnEntry(st.(dedup := Dedup.Deduplicate(t, req.addr, req.mid, now, cfg.expiration).0), req, Some(|t.entries|), now, cfg);
    } else {
      DispatchOwnEntry(st, req, None, now, cfg);
      assert OwnEntryOnly(st, req, None, Begun(st, Silent, None));
    }
    hide Dispatch, OwnEntryOnly;
  }

  /** A duplicate leaves the server as it is, and is answered with what is saved, if anything. */
  lemma DuplicateAnswered(w: World, req: Msg, now: int, cfg: Config)
    requires Dedup.Valid(w.st.dedup) && IsDuplicate(w, req)
    ensures var e := w.st.dedup.entries[w.st.dedup.endpoints[req.addr][req.mid]];
            Begin(w.st, req, now, cfg) == Begun(w.st, if e.rsp.Some? then Answer(e.rsp.value) else Silent, None)
  {
  }

  // ----- Who may write an entry -----

  /** Each running callback owns an entry of its own, still without an answer. */
  ghost predicate Owned(w: World) {
    && (forall c <- w.calls :: c.entry.Some? && c.entry.value < |w.st.dedup.entries| && w.st.dedup.entries[c.entry.value].pending)
    && (forall c <- w.calls, c' <- w.calls :: c.entry == c'.entry ==> c == c')
  }

  ghost predicate Inv(w: World) {
    Dedup.Valid(w.st.dedup) && Owned(w)
  }

  /** What a step may do to the entry a pair was recorded under: nothing, or give its owner's answer once. */
  ghost predicate EntryKept(w: World, w': World, i: nat) {
    && |w.st.dedup.entries| <= |w'.st.dedup.entries|
    && (i < |w.st.dedup.entries| && !w.st.dedup.entries[i].pending ==> w'.st.dedup.entries[i] == w.st.dedup.entries[i])
  }

  /** A message that is not a duplicate: old entries stay, and a call owns the new one, without an answer. */
  lemma NewArrival(st: State, req: Msg, now: int, cfg: Config)
    requires Dedup.Valid(st.dedup) && !(Deduplicated(req) && Dedup.Recorded(st.dedup, req.addr, req.mid))
    ensures var b, n := Begin(st, req, now, cfg), |st.dedup.entries|;
            && Dedup.Valid(b.st.dedup) && n <= |b.st.dedup.entries| && b.st.dedup.entries[..n] == st.dedup.entries
            && (b.out.Invoke? ==>
                  && b.out.call.entry == Some(n) && |b.st.dedup.entries| == n + 1 && b.st.dedup.entries[n].pending
                  && Deduplicated(req) && b.out.call.req.addr == req.addr && b.out.call.req.mid == req.mid)
  {
    var t, n := st.dedup, |st.dedup.entries|;
    var b := Begin(st, req, now, cfg);
    BeginOwnEntry(st, req, now, cfg);
    Dedup.DeduplicateKeepsValid(t, req.addr, req.mid, now, cfg.expiration);
    var noted := if Deduplicated(req) then Dedup.Deduplicate(t, req.addr, req.mid, now, cfg.expiration).0 else t;
    if b.out.Answer? && Deduplicated(req) { Dedup.SaveKeepsValid(noted, n, b.out.rsp); }
    hide Begin, Dedup.Deduplicate, Dedup.Valid, Dedup.Recorded;
  }

  lemma ArrivalKeepsInv(w: World, req: Msg, now: int, cfg: Config)
    requires Inv(w)
    ensures var w' := Arrived(w, req, now, cfg);
            Inv(w') && forall i: nat :: EntryKept(w, w', i)
  {
    if IsDuplicate(w, req) {
      DuplicateAnswered(w, req, now, cfg);
    } else {
      NewArrival(w.st, req, now, cfg);
      var t, t' := w.st.dedup, Begin(w.st, req, now, cfg).st.dedup;
      assert forall i :: 0 <= i < |t.entries| ==> t'.entries[..|t.entries|][i] == t.entries[i];
    }
    hide Begin, Dedup.Valid, IsDuplicate;
  }

  lemma ReturnKeepsInv(w: World, call: Call, answer: Option<Msg>, now: int, cfg: Config)
    requires Inv(w) && call in w.calls
    ensures var w' := Step(w, Return(call, answer, now), cfg);
            Inv(w') && forall i: nat :: EntryKept(w, w', i)
  {
    CompleteOwnEntry(w.st, call, answer, now, cfg);
    var rsp := Complete(w.st, call, answer, now, cfg).1;
    if rsp.Some? { Dedup.SaveKeepsValid(w.st.dedup, call.entry.value, rsp.value); }
    hide Complete, Dedup.Valid;
  }

  lemma StepKeepsInv(w: World, op: Op, cfg: Config)
    requires Inv(w)
    ensures Inv(Step(w, op, cfg)) && forall i: nat :: EntryKept(w, Step(w, op, cfg), i)
  {
    match op
    case Arrive(req, now) => ArrivalKeepsInv(w, req, now, cfg);
    case Return(call, answer, now) => if call in w.calls { ReturnKeepsInv(w, call, answer, now, cfg); }
    case ExpireBlocks(now) =>
    case WatchDedup(now) => Dedup.SweepKeepsValid(w.st.dedup, now);
    case Sending(_) =>
  }

  // ----- Inside the window -----

  /** Messages arrive no earlier than `first`, and no sweep comes after the window that starts then. */
  predicate WithinWindow(op: Op, first: int, cfg: Config) {
    match op
    case Arrive(_, now) => now >= first
    case WatchDedup(now) => now <= first + cfg.expiration
    case _ => true
  }

  /** The pair is recorded under entry `i` and may not be forgotten within the window. */
  ghost predicate Held(w: World, addr: Bytes, mid: uint16, i: nat, first: int, cfg: Config) {
    Dedup.Held(w.st.dedup, addr, mid, i, first, cfg.expiration)
  }

  /** How often the callback was given a message with this address and Message ID. */
  function Invocations(seen: seq<Call>, addr: Bytes, mid: uint16): nat {
    if seen == [] then 0
    else
      var req := seen[|seen| - 1].req;
      Invocations(seen[..|seen| - 1], addr, mid) + if req.addr == addr && req.mid == mid then 1 else 0
  }

  lemma OneMoreInvocation(seen: seq<Call>, call: Call, addr: Bytes, mid: uint16)
    ensures Invocations(seen + [call], addr, mid)
         == Invocations(seen, addr, mid) + if call.req.addr == addr && call.req.mid == mid then 1 else 0
  {
    assert (seen + [call])[..|seen|] == seen;
  }

  /** Saving does not touch what is recorded or until when. */
  lemma SaveHolds(t: Dedup.Table, j: nat, rsp: Msg, addr: Bytes, mid: uint16, i: nat, first: int, expiration: int)
    requires j < |t.entries| && Dedup.Held(t, addr, mid, i, first, expiration)
    ensures Dedup.Held(Dedup.Save(t, j, rsp), addr, mid, i, first, expiration)
  {
  }

  /** A pair that is held is neither forgotten nor handed to the callback again, whatever arrives. */
  lemma ArrivalHolds(w: World, req: Msg, now: int, addr: Bytes, mid: uint16, i: nat, first: int, cfg: Config)
    requires Inv(w) && Held(w, addr, mid, i, first, cfg) && now >= first
    ensures var w' := Arrived(w, req, now, cfg);
            Held(w', addr, mid, i, first, cfg) && Invocations(w'.seen, addr, mid) == Invocations(w.seen, addr, mid)
  {
    if IsDuplicate(w, req) {
      DuplicateAnswered(w, req, now, cfg);
    } else {
      var t, b := w.st.dedup, Begin(w.st, req, now, cfg);
      NewArrival(w.st, req, now, cfg);
      BeginOwnEntry(w.st, req, now, cfg);
      Dedup.ArrivalHolds(t, req.addr, req.mid, now, cfg.expiration, addr, mid, i, first);
      Dedup.DeduplicateKeepsValid(t, req.addr, req.mid, now, cfg.expiration);
      if Deduplicated(req) && b.out.Answer? {
        var noted := Dedup.Deduplicate(t, req.addr, req.mid, now, cfg.expiration).0;
        SaveHolds(noted, |t.entries|, b.out.rsp, addr, mid, i, first, cfg.expiration);
      }
      if b.out.Invoke? { OneMoreInvocation(w.seen, b.out.call, addr, mid); }
      hide Begin, Dedup.Deduplicate, Dedup.Valid, Owned, Dedup.Save;
    }
  }

  lemma StepHolds(w: World, op: Op, addr: Bytes, mid: uint16, i: nat, first: int, cfg: Config)
    requires Inv(w) && Held(w, addr, mid, i, first, cfg) && WithinWindow(op, first, cfg)
    ensures var w' := Step(w, op, cfg);
            Held(w', addr, mid, i, first, cfg) && Invocations(w'.seen, addr, mid) == Invocations(w.seen, addr, mid)
  {
    match op
    case Arrive(req, now) => ArrivalHolds(w, req, now, addr, mid, i, first, cfg);
    case Return(call, answer, now) =>
      if call in w.calls {
        CompleteOwnEntry(w.st, call, answer, now, cfg);
        var rsp := Complete(w.st, call, answer, now, cfg).1;
        if rsp.Some? { SaveHolds(w.st.dedup, call.entry.value, rsp.value, addr, mid, i, first, cfg.expiration); }
        hide Complete;
      }
    case ExpireBlocks(now) =>
    case WatchDedup(now) => Dedup.StepHolds(w.st.dedup, Dedup.Watch(now), addr, mid, i, first, cfg.expiration);
    case Sending(_) =>
  }

  /** Over every run inside the window the pair stays held, is not invoked again, and keeps an answer once it has one. */
  lemma {:induction false} RunHolds(w: World, ops: seq<Op>, addr: Bytes, mid: uint16, i: nat, first: int, cfg: Config)
    requires Inv(w) && Held(w, addr, mid, i, first, cfg) && forall op <- ops :: WithinWindow(op, first, cfg)
    ensures var w' := Run(w, ops, cfg);
            && Inv(w') && Held(w', addr, mid, i, first, cfg) && EntryKept(w, w', i)
            && Invocations(w'.seen, addr, mid) == Invocations(w.seen, addr, mid)
    decreases |ops|
  {
    hide Inv, Held, Step;
    if ops != [] {
      assert ops[0] in ops && forall op <- ops[1..] :: op in ops;
      StepKeepsInv(w, ops[0], cfg);
      assert EntryKept(w, Step(w, ops[0], cfg), i);
      StepHolds(w, ops[0], addr, mid, i, first, cfg);
      RunHolds(Step(w, ops[0], cfg), ops[1..], addr, mid, i, first, cfg);
    }
  }

  /** The invariant holds over every run. */
  lemma {:induction false} RunKeepsInv(w: World, ops: seq<Op>, cfg: Config)
    requires Inv(w)
    ensures Inv(Run(w, ops, cfg))
    decreases |ops|
  {
    hide Inv, Step;
    if ops != [] {
      StepKeepsInv(w, ops[0], cfg);
      RunKeepsInv(Step(w, ops[0], cfg), ops[1..], cfg);
    }
  }

  /** In every state that an idle server can reach, each running callback owns an unanswered entry of its own. */
  lemma ReachableInv(start: uint16, ops: seq<Op>, cfg: Config)
    ensures Inv(Run(Idle(start), ops, cfg))
  {
    RunKeepsInv(Idle(start), ops, cfg);
  }

  /** The first arrival of a message, and what it leaves. */
  lemma FirstArrival(w: World, req: Msg, first: int, cfg: Config)
    requires Inv(w) && Deduplicated(req) && !IsDuplicate(w, req)
    ensures var w', b := Arrived(w, req, first, cfg), Begin(w.st, req, first, cfg);
            var i := |w.st.dedup.entries|;
            && Inv(w') && Held(w', req.addr, req.mid, i, first, cfg) && i < |w'.st.dedup.entries|
            && (b.out.Invoke? ==> b.out.call.entry == Some(i) && b.out.call in w'.calls)
            && (b.out.Answer? ==> w'.st.dedup.entries[i] == Dedup.Entry(false, Some(b.out.rsp)))
            && Invocations(w'.seen, req.addr, req.mid) == Invocations(w.seen, req.addr, req.mid) + if b.out.Invoke? then 1 else 0
  {
    var t, b := w.st.dedup, Begin(w.st, req, first, cfg);
    ArrivalKeepsInv(w, req, first, cfg);
    NewArrival(w.st, req, first, cfg);
    BeginOwnEntry(w.st, req, first, cfg);
    Dedup.FirstArrivalHolds(t, req.addr, req.mid, first, cfg.expiration);
    Dedup.DeduplicateKeepsValid(t, req.addr, req.mid, first, cfg.expiration);
    var noted := Dedup.Deduplicate(t, req.addr, req.mid, first, cfg.expiration).0;
    if b.out.Answer? { SaveHolds(noted, |t.entries|, b.out.rsp, req.addr, req.mid, |t.entries|, first, cfg.expiration); }
    if b.out.Invoke? { OneMoreInvocation(w.seen, b.out.call, req.addr, req.mid); }
    hide Begin, Dedup.Deduplicate, Inv, Dedup.Held;
  }

  /**
   * At most once, over every run: from its first arrival on, no message with that address and
   * Message ID reaches the callback again inside the expiration window, whatever else arrives,
   * whatever the callbacks answer and however late.
   */
  lemma RequestReachesCallbackOnce(w: World, req: Msg, first: int, ops: seq<Op>, cfg: Config)
    requires Inv(w) && Deduplicated(req) && !IsDuplicate(w, req)
    requires forall op <- ops :: WithinWindow(op, first, cfg)
    ensures Invocations(Run(Arrived(w, req, first, cfg), ops, cfg).seen, req.addr, req.mid)
         == Invocations(w.seen, req.addr, req.mid) + if Begin(w.st, req, first, cfg).out.Invoke? then 1 else 0
  {
    FirstArrival(w, req, first, cfg);
    RunHolds(Arrived(w, req, first, cfg), ops, req.addr, req.mid, |w.st.dedup.entries|, first, cfg);
    hide Run, Arrived, Begin, Inv, Held;
  }

  /** The message repeats `req`, from the same address under the same Message ID. */
  predicate Repeats(dup: Msg, req: Msg) {
    Deduplicated(dup) && dup.addr == req.addr && dup.mid == req.mid
  }

  /** What a duplicate gets is what its entry holds. */
  lemma HeldIsAnswered(w: World, req: Msg, i: nat, first: int, dup: Msg, now: int, cfg: Config)
    requires Inv(w) && Held(w, req.addr, req.mid, i, first, cfg) && Repeats(dup, req)
    ensures i < |w.st.dedup.entries| && (w.st.dedup.entries[i].pending <==> w.st.dedup.entries[i].rsp == None)
    ensures Begin(w.st, dup, now, cfg)
         == Begun(w.st, if w.st.dedup.entries[i].rsp.Some? then Answer(w.st.dedup.entries[i].rsp.value) else Silent, None)
    ensures Arrived(w, dup, now, cfg) == w
  {
    DuplicateAnswered(w, dup, now, cfg);
    hide Begin, Owned;
  }

  /**
   * Replay, over every run: after the first arrival a duplicate changes nothing on the server;
   * and once a duplicate has been given an answer, every later one inside the window is given
   * that same answer.
   */
  lemma DuplicatesAgree(w: World, req: Msg, first: int, before: seq<Op>, after: seq<Op>,
                        dup: Msg, now: int, again: Msg, later: int, cfg: Config)
    requires Inv(w) && Deduplicated(req) && !IsDuplicate(w, req) && Repeats(dup, req) && Repeats(again, req)
    requires forall op <- before + after :: WithinWindow(op, first, cfg)
    ensures var w1 := Run(Arrived(w, req, first, cfg), before, cfg);
            var w2 := Run(w1, after, cfg);
            && Arrived(w1, dup, now, cfg) == w1 && Arrived(w2, again, later, cfg) == w2
            && (Begin(w1.st, dup, now, cfg).out.Answer? ==>
                  Begin(w2.st, again, later, cfg) == Begun(w2.st, Begin(w1.st, dup, now, cfg).out, None))
  {
    var w0, i := Arrived(w, req, first, cfg), |w.st.dedup.entries|;
    var w1 := Run(w0, before, cfg);
    var w2 := Run(w1, after, cfg);
    FirstArrival(w, req, first, cfg);
    assert forall op <- before :: op in before + after;
    assert forall op <- after :: op in before + after;
    RunHolds(w0, before, req.addr, req.mid, i, first, cfg);
    RunHolds(w1, after, req.addr, req.mid, i, first, cfg);
    HeldIsAnswered(w1, req, i, first, dup, now, cfg);
    HeldIsAnswered(w2, req, i, first, again, later, cfg);
    hide Run, Begin, Arrived, Inv, Held, WithinWindow, IsDuplicate;
  }

  /** While a callback runs its entry has no answer; when it returns one, that is what is saved. */
  lemma ReturnSaves(w: World, call: Call, i: nat, answer: Option<Msg>, at: int, cfg: Config)
    requires Inv(w) && call in w.calls && call.entry == Some(i)
    ensures i < |w.st.dedup.entries| && w.st.dedup.entries[i].pending
    ensures var rsp := Complete(w.st, call, answer, at, cfg).1;
            var w' := Step(w, Return(call, answer, at), cfg);
            rsp.Some? ==> i < |w'.st.dedup.entries| && w'.st.dedup.entries[i] == Dedup.Entry(false, rsp)
  {
    CompleteOwnEntry(w.st, call, answer, at, cfg);
    hide Complete, Dedup.Valid;
  }

  /**
   * What that answer is: nothing while the callback runs; then, inside the window, exactly the
   * response that `handleMessage` made of what the callback returned.
   */
  lemma CallbackAnswerIsReplayed(w: World, req: Msg, first: int, call: Call, before: seq<Op>, answer: Option<Msg>, at: int,
                                 after: seq<Op>, dup: Msg, again: int, cfg: Config)
    requires Inv(w) && Deduplicated(req) && !IsDuplicate(w, req) && Repeats(dup, req)
    requires Begin(w.st, req, first, cfg).out == Invoke(call)
    requires forall op <- before + after :: WithinWindow(op, first, cfg)
    requires call in Run(Arrived(w, req, first, cfg), before, cfg).calls
    ensures var w1 := Run(Arrived(w, req, first, cfg), before, cfg);
            var rsp := Complete(w1.st, call, answer, at, cfg).1;
            var w2 := Run(Step(w1, Return(call, answer, at), cfg), after, cfg);
            && Begin(w1.st, dup, again, cfg) == Begun(w1.st, Silent, None)
            && (rsp.Some? ==> Begin(w2.st, dup, again, cfg) == Begun(w2.st, Answer(rsp.value), None))
  {
    var w0, i := Arrived(w, req, first, cfg), |w.st.dedup.entries|;
    var w1 := Run(w0, before, cfg);
    var w1' := Step(w1, Return(call, answer, at), cfg);
    FirstArrival(w, req, first, cfg);
    assert forall op <- before :: op in before + after;
    assert forall op <- after :: op in before + after;
    RunHolds(w0, before, req.addr, req.mid, i, first, cfg);
    StepHolds(w1, Return(call, answer, at), req.addr, req.mid, i, first, cfg);
    StepKeepsInv(w1, Return(call, answer, at), cfg);
    RunHolds(w1', after, req.addr, req.mid, i, first, cfg);
    ReturnSaves(w1, call, i, answer, at, cfg);
    HeldIsAnswered(w1, req, i, first, dup, again, cfg);
    HeldIsAnswered(Run(w1', after, cfg), req, i, first, dup, again, cfg);
    hide Run, Begin, Complete, Arrived, Step, Inv, Held, WithinWindow, IsDuplicate;
  }

  /** A request answered without the callback, as a block of an upload is, is replayed as well. */
  lemma DirectAnswerIsReplayed(w: World, req: Msg, first: int, ops: seq<Op>, dup: Msg, again: int, cfg: Config)
    requires Inv(w) && Deduplicated(req) && !IsDuplicate(w, req) && Repeats(dup, req)
    requires Begin(w.st, req, first, cfg).out.Answer? && forall op <- ops :: WithinWindow(op, first, cfg)
    ensures var w' := Run(Arrived(w, req, first, cfg), ops, cfg);
            Begin(w'.st, dup, again, cfg) == Begun(w'.st, Begin(w.st, req, first, cfg).out, None)
  {
    FirstArrival(w, req, first, cfg);
    RunHolds(Arrived(w, req, first, cfg), ops, req.addr, req.mid, |w.st.dedup.entries|, first, cfg);
    HeldIsAnswered(Run(Arrived(w, req, first, cfg), ops, cfg), req, |w.st.dedup.entries|, first, dup, again, cfg);
    hide Run, Begin, Arrived, Inv, Held, WithinWindow, IsDuplicate;
  }
}
