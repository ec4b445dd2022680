/**
 * Request/reply correlation and Message ID allocation (handle_ack.go, send.go:111-117;
 * section 5.3.2 of RFC 7252). A pending entry is a channel of capacity one, shared by
 * reference; here a reference is an index into `entries`, which only grows.
 */
module Pending {
  import opened Basics
  import opened Messages

  const MID_SPACE := 0x1_0000

  /** The token and Message ID an entry was saved under, and what waits in its mailbox. */
  datatype PendingEntry = PendingEntry(token: Bytes, mid: uint16, mailbox: Option<Msg>)

  /** A message offered to an entry; `accepted` is false when the mailbox was full. */
  datatype Delivery = Delivery(entry: nat, msg: Msg, accepted: bool)

  /** `delivered` and `issued` record history; nothing reads them. */
  datatype State = State(
    byToken: map<Bytes, nat>,
    byMid: map<uint16, nat>,
    nextMid: uint16,
    entries: seq<PendingEntry>,
    delivered: seq<Delivery>,
    issued: seq<uint16>)

  function Initial(start: uint16): State {
    State(map[], map[], start, [], [], [])
  }

  /** `GetNextMsgId`: the counter wraps around at 2^16. */
  function NextMsgId(s: State): (State, uint16) {
    (s.(nextMid := (s.nextMid + 1) % MID_SPACE, issued := s.issued + [s.nextMid]), s.nextMid)
  }

  /** `pendingSave`: a message without a token gets the random one given. */
  function PendingSave(s: State, token: Bytes, random: Bytes): (State, nat) {
    var tok := if token == [] then random else token;
    var i := |s.entries|;
    (State(s.byToken[tok := i], s.byMid[s.nextMid := i], (s.nextMid + 1) % MID_SPACE,
           s.entries + [PendingEntry(tok, s.nextMid, None)], s.delivered, s.issued + [s.nextMid]),
     i)
  }

  /** The non-blocking send on an entry's channel. */
  function Offer(s: State, i: nat, m: Msg): State {
    if i >= |s.entries| then s
    else if s.entries[i].mailbox.None? then
      s.(entries := s.entries[i := s.entries[i].(mailbox := Some(m))], delivered := s.delivered + [Delivery(i, m, true)])
    else s.(delivered := s.delivered + [Delivery(i, m, false)])
  }

  /** `handleAcknowledgement`: empty messages match by Message ID, all others by token. */
  function HandleAcknowledgement(s: State, m: Msg): (State, bool) {
    if m.code == CODE_EMPTY then
      if m.mid in s.byMid then (Offer(s.(byMid := s.byMid - {m.mid}), s.byMid[m.mid], m), true)
      else (s, false)
    else
      if m.token in s.byToken then
        (Offer(s.(byToken := s.byToken - {m.token}, byMid := s.byMid - {m.mid}), s.byToken[m.token], m), true)
      else (s, false)
  }

  // ----- What one message does -----

  /** Somebody waits for the message: by Message ID if it is empty, else by token. */
  predicate IsAwaited(s: State, m: Msg) {
    if m.code == 0 then m.mid in s.byMid else m.token in s.byToken
  }

  /** The references the message uses up; a non-empty one takes that of its Message ID along. */
  predicate ReferencesUsed(s: State, s': State, m: Msg) {
    s'.byMid == s.byMid - {m.mid} && s'.byToken == if m.code == 0 then s.byToken else s.byToken - {m.token}
  }

  /** A message is found exactly if somebody waits for it, and then uses up its references; else nothing changes. */
  lemma AwaitedIsFound(s: State, m: Msg)
    ensures var (s', found) := HandleAcknowledgement(s, m);
            && (found <==> IsAwaited(s, m)) && (!found ==> s' == s)
            && (found ==> ReferencesUsed(s, s', m) && s'.nextMid == s.nextMid && |s'.entries| == |s.entries|)
  {
  }

  /** The waiting sender takes what is in its mailbox. */
  function Take(s: State, i: nat): State {
    if i < |s.entries| then s.(entries := s.entries[i := s.entries[i].(mailbox := None)]) else s
  }

  datatype Op =
    | SaveOp(token: Bytes, random: Bytes)
    | NextIdOp
    | AckOp(msg: Msg)
    | TakeOp(entry: nat)

  function Step(s: State, op: Op): State {
    match op
    case SaveOp(token, random) => PendingSave(s, token, random).0
    case NextIdOp => NextMsgId(s).0
    case AckOp(m) => HandleAcknowledgement(s, m).0
    case TakeOp(i) => Take(s, i)
  }

  function Run(s: State, ops: seq<Op>): State
    decreases |ops|
  {
    if ops == [] then s else Run(Step(s, ops[0]), ops[1..])
  }

  // ----- Invariant -----

  predicate TokenPointsAt(s: State, i: nat) {
    i < |s.entries| && s.entries[i].token in s.byToken && s.byToken[s.entries[i].token] == i
  }

  predicate MidPointsAt(s: State, i: nat) {
    i < |s.entries| && s.entries[i].mid in s.byMid && s.byMid[s.entries[i].mid] == i
  }

  /** A token refers to an entry saved under it, a Message ID to one saved under it. */
  ghost predicate References(s: State) {
    && (forall t <- s.byToken :: s.byToken[t] < |s.entries| && s.entries[s.byToken[t]].token == t)
    && (forall m <- s.byMid :: s.byMid[m] < |s.entries| && s.entries[s.byMid[m]].mid == m)
  }

  /** What reached an entry carries its token, or its Message ID if empty, and used up that reference. */
  ghost predicate Correlated(s: State) {
    forall k {:trigger s.delivered[k]} :: 0 <= k < |s.delivered| ==>
      var d := s.delivered[k];
      && d.entry < |s.entries|
      && (d.msg.code == CODE_EMPTY ==> d.msg.mid == s.entries[d.entry].mid && !MidPointsAt(s, d.entry))
      && (d.msg.code != CODE_EMPTY ==> d.msg.token == s.entries[d.entry].token && !TokenPointsAt(s, d.entry))
  }

  /** No entry is offered two empty messages, or two non-empty ones. */
  ghost predicate AtMostOneEach(s: State) {
    forall k, l :: 0 <= k < l < |s.delivered| && s.delivered[k].entry == s.delivered[l].entry ==>
      (s.delivered[k].msg.code == CODE_EMPTY) != (s.delivered[l].msg.code == CODE_EMPTY)
  }

  /** Allocation `k` was given the Message ID `start + k`, modulo 2^16. */
  ghost predicate Counting(s: State, start: uint16) {
    && (forall k :: 0 <= k < |s.issued| ==> s.issued[k] == (start + k) % MID_SPACE)
    && s.nextMid == (start + |s.issued|) % MID_SPACE
  }

  ghost predicate Inv(s: State, start: uint16) {
    References(s) && Correlated(s) && AtMostOneEach(s) && Counting(s, start)
  }

  /** The rule of section 5.3.2: same token, or same Message ID for an empty message. */
  predicate Matches(m: Msg, e: PendingEntry) {
    if m.code == CODE_EMPTY then m.mid == e.mid else m.token == e.token
  }

  lemma AllocateKeepsCounting(s: State, start: uint16)
    requires Counting(s, start)
    ensures Counting(NextMsgId(s).0, start)
  {
    assert (start + |s.issued| + 1) % MID_SPACE == (s.nextMid + 1) % MID_SPACE;
  }

  lemma SaveKeepsInv(s: State, start: uint16, token: Bytes, random: Bytes)
    requires Inv(s, start)
    ensures Inv(PendingSave(s, token, random).0, start)
  {
    AllocateKeepsCounting(s, start);
    var s' := PendingSave(s, token, random).0;
    forall k | 0 <= k < |s.delivered|
      ensures s'.entries[s.delivered[k].entry] == s.entries[s.delivered[k].entry]
      ensures TokenPointsAt(s', s.delivered[k].entry) ==> TokenPointsAt(s, s.delivered[k].entry)
      ensures MidPointsAt(s', s.delivered[k].entry) ==> MidPointsAt(s, s.delivered[k].entry)
    {
    }
  }

  lemma AckKeepsInv(s: State, start: uint16, m: Msg)
    requires Inv(s, start)
    ensures Inv(HandleAcknowledgement(s, m).0, start)
  {
    if m.code == CODE_EMPTY && m.mid in s.byMid {
      var i := s.byMid[m.mid];
      assert MidPointsAt(s, i);
      OfferKeepsInv(s, s.(byMid := s.byMid - {m.mid}), i, m, start);
    } else if m.code != CODE_EMPTY && m.token in s.byToken {
      var i := s.byToken[m.token];
      assert TokenPointsAt(s, i);
      OfferKeepsInv(s, s.(byToken := s.byToken - {m.token}, byMid := s.byMid - {m.mid}), i, m, start);
    }
  }

  /** The maps of `cut` are those of `s` with some references taken out. */
  ghost predicate Cut(s: State, cut: State) {
    && cut == s.(byToken := cut.byToken, byMid := cut.byMid)
    && (forall t <- cut.byToken :: t in s.byToken && cut.byToken[t] == s.byToken[t])
    && (forall k <- cut.byMid :: k in s.byMid && cut.byMid[k] == s.byMid[k])
  }

  /** What an offer leaves: the references of `cut`, the same keys, one delivery more. */
  lemma OfferEffect(s: State, cut: State, i: nat, m: Msg)
    requires Cut(s, cut) && i < |s.entries|
    ensures var s' := Offer(cut, i, m);
            && s'.byToken == cut.byToken && s'.byMid == cut.byMid && s'.nextMid == s.nextMid && s'.issued == s.issued
            && |s'.entries| == |s.entries|
            && (forall e :: 0 <= e < |s.entries| ==> s'.entries[e].token == s.entries[e].token && s'.entries[e].mid == s.entries[e].mid)
            && |s'.delivered| == |s.delivered| + 1 && s'.delivered[..|s.delivered|] == s.delivered
            && s'.delivered[|s.delivered|].entry == i && s'.delivered[|s.delivered|].msg == m
            && (forall e: nat :: TokenPointsAt(s', e) <==> TokenPointsAt(cut, e))
            && (forall e: nat :: MidPointsAt(s', e) <==> MidPointsAt(cut, e))
            && (forall e: nat :: TokenPointsAt(cut, e) ==> TokenPointsAt(s, e))
            && (forall e: nat :: MidPointsAt(cut, e) ==> MidPointsAt(s, e))
  {
  }

  /** With the reference that led to entry `i` taken out of the maps, the message may be offered to it. */
  lemma OfferKeepsInv(s: State, cut: State, i: nat, m: Msg, start: uint16)
    requires Inv(s, start) && Cut(s, cut)
    requires i < |s.entries| && Matches(m, s.entries[i])
    requires if m.code == CODE_EMPTY then MidPointsAt(s, i) && !MidPointsAt(cut, i)
             else TokenPointsAt(s, i) && !TokenPointsAt(cut, i)
    ensures Inv(Offer(cut, i, m), start)
  {
    var s' := Offer(cut, i, m);
    OfferEffect(s, cut, i, m);
    assert References(s');
    hide Offer, Cut, TokenPointsAt, MidPointsAt, References;
    assert forall k :: 0 <= k < |s.delivered| ==> s'.delivered[k] == s.delivered[k];
  }

  lemma {:induction false} RunKeepsInv(s: State, ops: seq<Op>, start: uint16)
    requires Inv(s, start)
    ensures Inv(Run(s, ops), start)
    decreases |ops|
  {
    if ops != [] {
      match ops[0] {
        case SaveOp(token, random) => SaveKeepsInv(s, start, token, random);
        case NextIdOp => AllocateKeepsCounting(s, start);
        case AckOp(m) => AckKeepsInv(s, start, m);
        case TakeOp(i) =>
      }
      RunKeepsInv(Step(s, ops[0]), ops[1..], start);
    }
  }

  /**
   * Over every run: an entry is referenced by at most one token and one Message ID, is
   * offered at most one non-empty message, carrying its token, and at most one empty one,
   * carrying its Message ID.
   */
  lemma Correlation(ops: seq<Op>, start: uint16)
    ensures var s := Run(Initial(start), ops);
            && (forall t, t' :: t in s.byToken && t' in s.byToken && s.byToken[t] == s.byToken[t'] ==> t == t')
            && (forall m, m' :: m in s.byMid && m' in s.byMid && s.byMid[m] == s.byMid[m'] ==> m == m')
            && (forall d <- s.delivered :: d.entry < |s.entries| && Matches(d.msg, s.entries[d.entry]))
            && AtMostOneEach(s)
  {
    RunKeepsInv(Initial(start), ops, start);
  }

  /**
   * Message IDs over every run, wrap-around included: two allocations collide exactly when
   * they are a multiple of 65536 apart, so any 65536 consecutive ones are distinct.
   */
  lemma MessageIdsAreFresh(ops: seq<Op>, start: uint16, k: nat, l: nat)
    requires k < l < |Run(Initial(start), ops).issued|
    ensures var ids := Run(Initial(start), ops).issued;
            ids[k] == ids[l] <==> (l - k) % MID_SPACE == 0
  {
    RunKeepsInv(Initial(start), ops, start);
    CongruentModulo(start + k, start + l);
  }

  lemma CongruentModulo(a: nat, b: nat)
    requires a <= b
    ensures a % MID_SPACE == b % MID_SPACE <==> (b - a) % MID_SPACE == 0
  {
    var q, q' := a / MID_SPACE, b / MID_SPACE;
    assert b - a == (q' - q) * MID_SPACE + (b % MID_SPACE - a % MID_SPACE);
  }

  /** Nothing is saved under the token, and no reply carries it. */
  predicate LeavesAlone(op: Op, token: Bytes) {
    match op
    case SaveOp(t, random) => (if t == [] then random else t) != token
    case AckOp(m) => m.code == CODE_EMPTY || m.token != token
    case _ => true
  }

  lemma StepKeepsToken(s: State, op: Op, i: nat)
    requires TokenPointsAt(s, i) && LeavesAlone(op, s.entries[i].token)
    ensures TokenPointsAt(Step(s, op), i) && Step(s, op).entries[i].token == s.entries[i].token
  {
  }

  /**
   * A reply finds its sender, over every run: as long as no other message uses its token, the
   * next reply under that token reaches the entry saved under it, and is kept if and only if
   * its mailbox is empty; a message already there stays.
   */
  lemma {:induction false} ReplyFindsSender(s: State, ops: seq<Op>, i: nat, reply: Msg)
    requires TokenPointsAt(s, i) && reply.token == s.entries[i].token && reply.code != CODE_EMPTY
    requires forall op <- ops :: LeavesAlone(op, reply.token)
    ensures var before := Run(s, ops);
            var (after, found) := HandleAcknowledgement(before, reply);
            && TokenPointsAt(before, i) && found && i < |after.entries|
            && after.entries[i].mailbox
               == (if before.entries[i].mailbox == None then Some(reply) else before.entries[i].mailbox)
            && !TokenPointsAt(after, i)
    decreases |ops|
  {
    if ops != [] {
      assert ops[0] in ops && forall op <- ops[1..] :: op in ops;
      StepKeepsToken(s, ops[0], i);
      ReplyFindsSender(Step(s, ops[0]), ops[1..], i, reply);
    }
  }

  /** How many Message IDs are given out before this one is next. */
  function Ahead(s: State, mid: uint16): nat {
    (mid + MID_SPACE - s.nextMid) % MID_SPACE
  }

  predicate Allocates(op: Op) {
    op.SaveOp? || op.NextIdOp?
  }

  function Allocations(ops: seq<Op>): nat {
    if ops == [] then 0 else (if Allocates(ops[0]) then 1 else 0) + Allocations(ops[1..])
  }

  lemma StepKeepsMid(s: State, op: Op, i: nat)
    requires MidPointsAt(s, i)
    requires var mid := s.entries[i].mid;
             && (op.AckOp? ==> op.msg.mid != mid)
             && (Allocates(op) ==> Ahead(s, mid) > 0)
    ensures var s', mid := Step(s, op), s.entries[i].mid;
            && MidPointsAt(s', i) && s'.entries[i].mid == mid
            && Ahead(s', mid) == Ahead(s, mid) - (if Allocates(op) then 1 else 0)
  {
  }

  /**
   * An empty message finds its sender, over every run: as long as no other message carries its
   * Message ID and the counter does not come round to it, the next empty message with that ID
   * reaches the entry saved under it. Also a non-empty message must not carry it: with a known
   * token it takes the reference of its Message ID, whoever that belongs to.
   */
  lemma {:induction false} EmptyFindsSender(s: State, ops: seq<Op>, i: nat, reply: Msg)
    requires MidPointsAt(s, i) && reply.mid == s.entries[i].mid && reply.code == CODE_EMPTY
    requires forall op <- ops :: op.AckOp? ==> op.msg.mid != reply.mid
    requires Allocations(ops) <= Ahead(s, reply.mid)
    ensures var before := Run(s, ops);
            var (after, found) := HandleAcknowledgement(before, reply);
            && MidPointsAt(before, i) && found && i < |after.entries|
            && after.entries[i].mailbox
               == (if before.entries[i].mailbox == None then Some(reply) else before.entries[i].mailbox)
            && !MidPointsAt(after, i)
    decreases |ops|
  {
    if ops != [] {
      assert ops[0] in ops && forall op <- ops[1..] :: op in ops;
      StepKeepsMid(s, ops[0], i);
      EmptyFindsSender(Step(s, ops[0]), ops[1..], i, reply);
    }
  }

  /**
   * Saving a message makes its token and Message ID lead to it, with an empty mailbox; 65535
   * further Message IDs are given out before its own comes round.
   */
  lemma SavedIsFound(s: State, token: Bytes, random: Bytes)
    ensures var (s', i) := PendingSave(s, token, random);
            && TokenPointsAt(s', i) && MidPointsAt(s', i)
            && s'.entries[i] == PendingEntry(if token == [] then random else token, s.nextMid, None)
            && Ahead(s', s.nextMid) == MID_SPACE - 1
  {
  }
}
