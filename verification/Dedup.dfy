/**
 * Message deduplication (dedup.go; section 4.5 of RFC 7252). Entries are shared by reference
 * in the source; here a reference is an index into `entries`, which only grows.
 */
module Dedup {
  import opened Basics
  import opened Messages

  datatype Entry = Entry(pending: bool, rsp: Option<Msg>)

  datatype Table = Table(
    endpoints: map<Bytes, map<uint16, nat>>,
    deleteAfter: map<Bytes, int>,
    entries: seq<Entry>)

  const EMPTY_TABLE := Table(map[], map[], [])

  /** The pair has been stored and not been deleted since. */
  predicate Recorded(t: Table, addr: Bytes, mid: uint16) {
    addr in t.endpoints && mid in t.endpoints[addr]
  }

  /** `deduplicate`: the entry, and whether the message is new. */
  function Deduplicate(t: Table, addr: Bytes, mid: uint16, receivedAt: int, expiration: int): (Table, nat, bool) {
    if Recorded(t, addr, mid) then (t, t.endpoints[addr][mid], false)
    else
      var ep := if addr in t.endpoints then t.endpoints[addr] else map[];
      (Table(t.endpoints[addr := ep[mid := |t.entries|]],
             t.deleteAfter[addr := receivedAt + expiration],
             t.entries + [Entry(true, None)]),
       |t.entries|, true)
  }

  /** `save`. */
  function Save(t: Table, i: nat, rsp: Msg): Table
    requires i < |t.entries|
  {
    t.(entries := t.entries[i := Entry(false, Some(rsp))])
  }

  /** One pass of `dedupWatcher`. */
  function Sweep(t: Table, now: int): Table {
    t.(endpoints := map a | a in t.endpoints && !(a in t.deleteAfter && t.deleteAfter[a] < now) :: t.endpoints[a],
       deleteAfter := map a | a in t.deleteAfter && t.deleteAfter[a] >= now :: t.deleteAfter[a])
  }

  /**
   * Every reference is good, no two pairs share an entry, an answered entry has its answer,
   * and every endpoint has a deletion time.
   */
  ghost predicate Valid(t: Table) {
    && (forall a, m :: Recorded(t, a, m) ==> t.endpoints[a][m] < |t.entries|)
    && (forall a, m, a', m' :: Recorded(t, a, m) && Recorded(t, a', m') && t.endpoints[a][m] == t.endpoints[a'][m']
          ==> a == a' && m == m')
    && (forall i :: 0 <= i < |t.entries| ==> (t.entries[i].pending <==> t.entries[i].rsp == None))
    && (forall a <- t.endpoints :: a in t.deleteAfter)
  }

  /** A new pair is recorded under a new entry; nothing else moves. */
  lemma NewPair(t: Table, addr: Bytes, mid: uint16, at: int, expiration: int)
    requires !Recorded(t, addr, mid)
    ensures var t' := Deduplicate(t, addr, mid, at, expiration).0;
            && t'.entries == t.entries + [Entry(true, None)]
            && Recorded(t', addr, mid) && t'.endpoints[addr][mid] == |t.entries|
            && (forall a, m :: Recorded(t', a, m) <==> Recorded(t, a, m) || (a == addr && m == mid))
            && (forall a, m :: Recorded(t, a, m) ==> t'.endpoints[a][m] == t.endpoints[a][m])
            && t'.endpoints.Keys == t.endpoints.Keys + {addr} && t'.deleteAfter == t.deleteAfter[addr := at + expiration]
  {
  }

  lemma DeduplicateKeepsValid(t: Table, addr: Bytes, mid: uint16, at: int, expiration: int)
    requires Valid(t)
    ensures var (t', i, isNew) := Deduplicate(t, addr, mid, at, expiration);
            && Valid(t') && i < |t'.entries| && Recorded(t', addr, mid) && t'.endpoints[addr][mid] == i
            && (isNew <==> !Recorded(t, addr, mid))
            && (isNew ==> i == |t.entries| && t'.entries == t.entries + [Entry(true, None)])
            && (!isNew ==> t' == t)
  {
    if !Recorded(t, addr, mid) {
      NewPair(t, addr, mid, at, expiration);
      hide Recorded;
    }
  }

  lemma SaveKeepsValid(t: Table, i: nat, rsp: Msg)
    requires Valid(t) && i < |t.entries|
    ensures Valid(Save(t, i, rsp))
  {
    forall a, m
      ensures Recorded(Save(t, i, rsp), a, m) <==> Recorded(t, a, m)
    {
    }
  }

  lemma SweepKeepsValid(t: Table, now: int)
    requires Valid(t)
    ensures Valid(Sweep(t, now))
    ensures forall a, m :: Recorded(Sweep(t, now), a, m) <==> Recorded(t, a, m) && t.deleteAfter[a] >= now
  {
    forall a, m
      ensures Recorded(Sweep(t, now), a, m) <==> Recorded(t, a, m) && t.deleteAfter[a] >= now
      ensures Recorded(Sweep(t, now), a, m) ==> Sweep(t, now).endpoints[a][m] == t.endpoints[a][m]
    {
    }
  }

  // ----- Runs -----

  datatype Op =
    | Arrive(addr: Bytes, mid: uint16, at: int)
    | Respond(entry: nat, rsp: Msg)
    | Watch(now: int)

  function Step(t: Table, op: Op, expiration: int): Table {
    match op
    case Arrive(addr, mid, at) => Deduplicate(t, addr, mid, at, expiration).0
    case Respond(i, rsp) => if i < |t.entries| then Save(t, i, rsp) else t
    case Watch(now) => Sweep(t, now)
  }

  function Run(t: Table, ops: seq<Op>, expiration: int): Table
    decreases |ops|
  {
    if ops == [] then t else Run(Step(t, ops[0], expiration), ops[1..], expiration)
  }

  /** No message arrives before `first`, and no sweep happens after the window that starts then. */
  predicate WithinWindow(op: Op, first: int, expiration: int) {
    match op
    case Arrive(_, _, at) => at >= first
    case Respond(_, _) => true
    case Watch(now) => now <= first + expiration
  }

  /** The pair is recorded under entry `i` and its endpoint may not be deleted within the window. */
  ghost predicate Held(t: Table, addr: Bytes, mid: uint16, i: nat, first: int, expiration: int) {
    && Recorded(t, addr, mid) && t.endpoints[addr][mid] == i
    && addr in t.deleteAfter && t.deleteAfter[addr] >= first + expiration
  }

  lemma StepHolds(t: Table, op: Op, addr: Bytes, mid: uint16, i: nat, first: int, expiration: int)
    requires Valid(t) && Held(t, addr, mid, i, first, expiration) && WithinWindow(op, first, expiration)
    ensures var t' := Step(t, op, expiration);
            && Valid(t') && Held(t', addr, mid, i, first, expiration)
            && |t'.entries| >= |t.entries|
            && (!(op.Respond? && op.entry == i) ==> t'.entries[i] == t.entries[i])
  {
    match op
    case Arrive(a, m, at) =>
      DeduplicateKeepsValid(t, a, m, at, expiration);
      ArrivalHolds(t, a, m, at, expiration, addr, mid, i, first);
    case Respond(j, rsp) => if j < |t.entries| { SaveKeepsValid(t, j, rsp); }
    case Watch(now) => SweepKeepsValid(t, now);
  }

  lemma ArrivalHolds(t: Table, a: Bytes, m: uint16, at: int, expiration: int, addr: Bytes, mid: uint16, i: nat, first: int)
    requires Held(t, addr, mid, i, first, expiration) && at >= first
    ensures Held(Deduplicate(t, a, m, at, expiration).0, addr, mid, i, first, expiration)
  {
  }

  /**
   * At most once: from its first arrival at `first`, a pair stays recorded through any run
   * inside the expiration window, so every further arrival of it is told it is a duplicate
   * and is given the same entry.
   */
  lemma {:induction false} DuplicateIsRecognised(t: Table, ops: seq<Op>, addr: Bytes, mid: uint16, i: nat,
                                                 first: int, again: int, expiration: int)
    requires Valid(t) && Held(t, addr, mid, i, first, expiration)
    requires forall op <- ops :: WithinWindow(op, first, expiration)
    ensures var t' := Run(t, ops, expiration);
            Valid(t') && Held(t', addr, mid, i, first, expiration)
            && Deduplicate(t', addr, mid, again, expiration) == (t', i, false)
    decreases |ops|
  {
    if ops != [] {
      StepHolds(t, ops[0], addr, mid, i, first, expiration);
      DuplicateIsRecognised(Step(t, ops[0], expiration), ops[1..], addr, mid, i, first, again, expiration);
    }
  }

  /** The first arrival itself starts such a window. */
  lemma FirstArrivalHolds(t: Table, addr: Bytes, mid: uint16, first: int, expiration: int)
    requires Valid(t) && !Recorded(t, addr, mid)
    ensures var (t', i, isNew) := Deduplicate(t, addr, mid, first, expiration);
            isNew && Valid(t') && Held(t', addr, mid, i, first, expiration) && t'.entries[i].pending
  {
    DeduplicateKeepsValid(t, addr, mid, first, expiration);
  }

  /** Once answered, every duplicate inside the window finds that same answer. */
  lemma {:induction false} DuplicateGetsSameAnswer(t: Table, ops: seq<Op>, addr: Bytes, mid: uint16, i: nat, rsp: Msg,
                                                   first: int, again: int, expiration: int)
    requires Valid(t) && Held(t, addr, mid, i, first, expiration)
    requires t.entries[i] == Entry(false, Some(rsp))
    requires forall op <- ops :: WithinWindow(op, first, expiration)
    requires forall op <- ops :: op.Respond? ==> op.entry != i
    ensures var (t', j, isNew) := Deduplicate(Run(t, ops, expiration), addr, mid, again, expiration);
            !isNew && j == i && i < |t'.entries| && t'.entries[i] == Entry(false, Some(rsp))
    decreases |ops|
  {
    if ops != [] {
      StepHolds(t, ops[0], addr, mid, i, first, expiration);
      DuplicateGetsSameAnswer(Step(t, ops[0], expiration), ops[1..], addr, mid, i, rsp, first, again, expiration);
    }
  }

  /** The window is tight: a sweep after the deletion time forgets the endpoint. */
  lemma SweepForgets(t: Table, addr: Bytes, mid: uint16, now: int)
    requires Valid(t) && Recorded(t, addr, mid)
    ensures Recorded(Sweep(t, now), addr, mid) <==> now <= t.deleteAfter[addr]
  {
    SweepKeepsValid(t, now);
  }
}
