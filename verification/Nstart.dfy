/**
 * The limit on outstanding confirmable sends to one address (nstart.go, send.go:133-137;
 * section 4.7 of RFC 7252): a counting semaphore built on a mutex and a condition variable.
 * A step is one critical section, so goroutines interleave between any two of them; a waiter
 * is asleep until it is signalled and then has to get the lock again.
 */
module Nstart {
  import opened Basics

  type Address = Bytes
  type Thread = nat

  /** Where a goroutine is. `limit` is the `nStart` it passed. */
  datatype Pc =
    | Idle
    | Entering(addr: Address, limit: int)  // found the semaphore, about to lock it
    | Asleep(addr: Address, limit: int)    // in cond.Wait, not signalled
    | Woken(addr: Address, limit: int)     // signalled, has not got the lock back yet
    | Holding(addr: Address, limit: int)   // nstartInc has returned
    | Leaving(addr: Address, limit: int)   // nstartDec found the semaphore, about to lock it

  /** `nstartMap` with its counts, and the goroutines; a thread not listed is idle. */
  datatype System = System(counts: map<Address, int>, threads: map<Thread, Pc>)

  const INITIAL := System(map[], map[])

  function PcOf(s: System, t: Thread): Pc {
    if t in s.threads then s.threads[t] else Idle
  }

  datatype Step =
    | Enter(t: Thread, addr: Address, limit: int)
    | Acquire(t: Thread)
    | Exit(t: Thread)
    | Release(t: Thread, woken: Option<Thread>)

  ghost predicate SleepsOn(s: System, t: Thread, addr: Address) {
    PcOf(s, t).Asleep? && PcOf(s, t).addr == addr
  }

  /** `Signal` wakes one sleeper of the semaphore if there is any; which one is left open. */
  ghost predicate Enabled(s: System, step: Step) {
    match step
    case Enter(t, _, _) => PcOf(s, t).Idle?
    case Acquire(t) => (PcOf(s, t).Entering? || PcOf(s, t).Woken?) && PcOf(s, t).addr in s.counts
    case Exit(t) => PcOf(s, t).Holding?
    case Release(t, woken) =>
      && PcOf(s, t).Leaving? && PcOf(s, t).addr in s.counts
      && match woken
         case Some(w) => SleepsOn(s, w, PcOf(s, t).addr)
         case None => forall w <- s.threads :: !SleepsOn(s, w, PcOf(s, t).addr)
  }

  function Move(s: System, t: Thread, pc: Pc): System {
    s.(threads := s.threads[t := pc])
  }

  function Count(s: System, addr: Address, n: int): System {
    s.(counts := s.counts[addr := n])
  }

  /** The look-up in `nstartInc`: no limit, an existing semaphore, or a new one with count 1. */
  function DoEnter(s: System, t: Thread, addr: Address, limit: int): System {
    if limit <= 0 then Move(s, t, Holding(addr, limit))
    else if addr in s.counts then Move(s, t, Entering(addr, limit))
    else Move(Count(s, addr, 1), t, Holding(addr, limit))
  }

  /** With the semaphore's lock held: wait if the limit is reached, else count and return. */
  function DoAcquire(s: System, t: Thread): System
    requires (PcOf(s, t).Entering? || PcOf(s, t).Woken?) && PcOf(s, t).addr in s.counts
  {
    var pc := PcOf(s, t);
    if s.counts[pc.addr] >= pc.limit then Move(s, t, Asleep(pc.addr, pc.limit))
    else Move(Count(s, pc.addr, s.counts[pc.addr] + 1), t, Holding(pc.addr, pc.limit))
  }

  /** The look-up in `nstartDec`, which does not ask whether a limit was in force. */
  function DoExit(s: System, t: Thread): System
    requires PcOf(s, t).Holding?
  {
    var pc := PcOf(s, t);
    Move(s, t, if pc.addr in s.counts then Leaving(pc.addr, pc.limit) else Idle)
  }

  /** With the lock held: count down and signal. */
  function DoRelease(s: System, t: Thread, woken: Option<Thread>): System
    requires PcOf(s, t).Leaving? && PcOf(s, t).addr in s.counts
    requires woken.Some? ==> PcOf(s, woken.value).Asleep?
  {
    var addr := PcOf(s, t).addr;
    var s1 := Move(Count(s, addr, s.counts[addr] - 1), t, Idle);
    if woken.None? then s1 else Move(s1, woken.value, Woken(addr, PcOf(s, woken.value).limit))
  }

  ghost function Apply(s: System, step: Step): System
    requires Enabled(s, step)
  {
    match step
    case Enter(t, addr, limit) => DoEnter(s, t, addr, limit)
    case Acquire(t) => DoAcquire(s, t)
    case Exit(t) => DoExit(s, t)
    case Release(t, woken) => DoRelease(s, t, woken)
  }

  /** The steps can be taken one after the other from `s`. */
  ghost predicate IsRun(s: System, steps: seq<Step>)
    decreases |steps|
  {
    steps != [] ==> Enabled(s, steps[0]) && IsRun(Apply(s, steps[0]), steps[1..])
  }

  ghost function After(s: System, steps: seq<Step>): System
    requires IsRun(s, steps)
    decreases |steps|
  {
    if steps == [] then s else After(Apply(s, steps[0]), steps[1..])
  }

  // ----- Who is where -----

  /** The sends between the return of `nstartInc` and the decrement in `nstartDec`. */
  predicate Holds(pc: Pc, addr: Address) {
    (pc.Holding? || pc.Leaving?) && pc.addr == addr
  }

  function Holders(s: System, addr: Address): set<Thread> {
    set t | t in s.threads && Holds(s.threads[t], addr)
  }

  function Sleepers(s: System, addr: Address): set<Thread> {
    set t | t in s.threads && s.threads[t].Asleep? && s.threads[t].addr == addr
  }

  function Wakers(s: System, addr: Address): set<Thread> {
    set t | t in s.threads && s.threads[t].Woken? && s.threads[t].addr == addr
  }

  /** Moving one thread moves it in or out of each set and nothing else. */
  lemma MoveMembers(s: System, t: Thread, pc: Pc, addr: Address)
    ensures var s' := Move(s, t, pc);
            && Holders(s', addr) == (if Holds(pc, addr) then Holders(s, addr) + {t} else Holders(s, addr) - {t})
            && Sleepers(s', addr) == (if pc.Asleep? && pc.addr == addr then Sleepers(s, addr) + {t} else Sleepers(s, addr) - {t})
            && Wakers(s', addr) == (if pc.Woken? && pc.addr == addr then Wakers(s, addr) + {t} else Wakers(s, addr) - {t})
  {
  }

  /** How the sizes of the three sets change when one thread moves. */
  lemma MoveSizes(s: System, t: Thread, pc: Pc, addr: Address)
    ensures var s' := Move(s, t, pc);
            var was := PcOf(s, t);
            && |Holders(s', addr)| == |Holders(s, addr)| + Bit(Holds(pc, addr)) - Bit(Holds(was, addr))
            && |Wakers(s', addr)| == |Wakers(s, addr)| + Bit(pc.Woken? && pc.addr == addr) - Bit(was.Woken? && was.addr == addr)
  {
    MoveMembers(s, t, pc, addr);
    OneMoreOrLess(Holders(s, addr), t);
    OneMoreOrLess(Wakers(s, addr), t);
    assert t in Holders(s, addr) <==> Holds(PcOf(s, t), addr);
    assert t in Wakers(s, addr) <==> PcOf(s, t).Woken? && PcOf(s, t).addr == addr;
  }

  lemma OneMoreOrLess(a: set<Thread>, t: Thread)
    ensures |a + {t}| == |a| + Bit(t !in a) && |a - {t}| == |a| - Bit(t in a)
  {
    if t in a {
      assert a + {t} == a;
    } else {
      assert a - {t} == a;
    }
  }

  function Bit(b: bool): int {
    if b then 1 else 0
  }

  /** A send at this address, before, while or after it holds a slot. */
  predicate At(pc: Pc, addr: Address) {
    !pc.Idle? && pc.addr == addr
  }

  ghost function AddressOf(s: System, step: Step): Address
    requires Enabled(s, step)
  {
    if step.Enter? then step.addr else PcOf(s, step.t).addr
  }

  /** The three sets after a step on `addr` are those before it for any other address. */
  lemma MoveElsewhere(s: System, counts: map<Address, int>, t: Thread, pc: Pc, a: Address)
    requires !At(PcOf(s, t), a) && !At(pc, a)
    ensures var s' := Move(System(counts, s.threads), t, pc);
            Holders(s', a) == Holders(s, a) && Sleepers(s', a) == Sleepers(s, a) && Wakers(s', a) == Wakers(s, a)
  {
    MoveMembers(s, t, pc, a);
  }

  /** A step at one address changes nothing at another. */
  lemma OtherAddress(s: System, s': System, step: Step, a: Address)
    requires Enabled(s, step) && s' == Apply(s, step)
    requires AddressOf(s, step) != a
    ensures Holders(s', a) == Holders(s, a) && Sleepers(s', a) == Sleepers(s, a) && Wakers(s', a) == Wakers(s, a)
    ensures if a in s.counts then a in s'.counts && s'.counts[a] == s.counts[a] else a !in s'.counts
    ensures forall t <- s'.threads :: At(s'.threads[t], a) ==> t in s.threads && s'.threads[t] == s.threads[t]
  {
    hide Holders, Sleepers, Wakers;
    var pc := PcOf(s', step.t);
    match step
    case Release(t, Some(w)) =>
      MoveElsewhere(s, s'.counts, t, Idle, a);
      MoveElsewhere(Move(System(s'.counts, s.threads), t, Idle), s'.counts, w, Woken(PcOf(s, t).addr, PcOf(s, w).limit), a);
    case _ => MoveElsewhere(s, s'.counts, step.t, pc, a);
  }

  /** What a release changes at its own address. */
  lemma ReleaseCounts(s: System, t: Thread, woken: Option<Thread>)
    requires Enabled(s, Release(t, woken))
    ensures var s' := DoRelease(s, t, woken);
            var a := PcOf(s, t).addr;
            && |Holders(s', a)| == |Holders(s, a)| - 1
            && |Wakers(s', a)| == |Wakers(s, a)| + Bit(woken.Some?)
            && s'.counts[a] == s.counts[a] - 1
  {
    var a := PcOf(s, t).addr;
    var s1 := Count(s, a, s.counts[a] - 1);
    assert Holders(s1, a) == Holders(s, a) && Wakers(s1, a) == Wakers(s, a);
    MoveSizes(s1, t, Idle, a);
    if woken.Some? {
      MoveSizes(Move(s1, t, Idle), woken.value, Woken(a, PcOf(s, woken.value).limit), a);
    }
  }

  // ----- The bound -----

  /** Every limit passed for the address is positive and at most `n`; others are free. */
  ghost predicate LimitsWithin(steps: seq<Step>, addr: Address, n: int) {
    forall step <- steps :: step.Enter? && step.addr == addr ==> 0 < step.limit <= n
  }

  ghost predicate Placed(s: System, addr: Address, n: int) {
    forall t <- s.threads :: At(s.threads[t], addr) ==> addr in s.counts && 0 < s.threads[t].limit <= n
  }

  /** The count of the semaphore is the number of its holders, and never above the largest limit. */
  ghost predicate Counted(s: System, addr: Address, n: int) {
    addr in s.counts ==> s.counts[addr] == |Holders(s, addr)| && s.counts[addr] <= n
  }

  ghost predicate Bounded(s: System, addr: Address, n: int) {
    Placed(s, addr, n) && Counted(s, addr, n)
  }

  lemma PlacedMeansNoStrangers(s: System, addr: Address, n: int)
    requires Placed(s, addr, n) && addr !in s.counts
    ensures Holders(s, addr) == {}
  {
  }

  lemma BoundedEnter(s: System, t: Thread, addr: Address, limit: int, n: int)
    requires Bounded(s, addr, n) && PcOf(s, t).Idle? && 0 < limit <= n
    ensures Bounded(DoEnter(s, t, addr, limit), addr, n)
  {
    if addr in s.counts {
      MoveSizes(s, t, Entering(addr, limit), addr);
    } else {
      PlacedMeansNoStrangers(s, addr, n);
      var s1 := Count(s, addr, 1);
      assert Holders(s1, addr) == Holders(s, addr);
      MoveSizes(s1, t, Holding(addr, limit), addr);
    }
  }

  lemma BoundedAcquire(s: System, t: Thread, n: int)
    requires Enabled(s, Acquire(t)) && Bounded(s, PcOf(s, t).addr, n)
    ensures Bounded(DoAcquire(s, t), PcOf(s, t).addr, n)
  {
    var pc := PcOf(s, t);
    var addr := pc.addr;
    if s.counts[addr] >= pc.limit {
      MoveSizes(s, t, Asleep(addr, pc.limit), addr);
    } else {
      var s1 := Count(s, addr, s.counts[addr] + 1);
      assert Holders(s1, addr) == Holders(s, addr);
      MoveSizes(s1, t, Holding(addr, pc.limit), addr);
    }
  }

  lemma BoundedStep(s: System, step: Step, addr: Address, n: int)
    requires Bounded(s, addr, n) && Enabled(s, step)
    requires step.Enter? && step.addr == addr ==> 0 < step.limit <= n
    ensures Bounded(Apply(s, step), addr, n)
    ensures s.counts.Keys <= Apply(s, step).counts.Keys
  {
    if AddressOf(s, step) != addr {
      OtherAddress(s, Apply(s, step), step, addr);
    } else {
      match step
      case Enter(t, _, limit) => BoundedEnter(s, t, addr, limit, n);
      case Acquire(t) => BoundedAcquire(s, t, n);
      case Exit(t) => MoveSizes(s, t, Leaving(addr, PcOf(s, t).limit), addr);
      case Release(t, woken) => ReleaseCounts(s, t, woken);
    }
  }

  lemma {:induction false} BoundedRun(s: System, steps: seq<Step>, addr: Address, n: int)
    requires Bounded(s, addr, n) && IsRun(s, steps) && LimitsWithin(steps, addr, n)
    ensures Bounded(After(s, steps), addr, n)
    ensures s.counts.Keys <= After(s, steps).counts.Keys
    decreases |steps|
  {
    if steps != [] {
      assert steps[0] in steps && forall step <- steps[1..] :: step in steps;
      BoundedStep(s, steps[0], addr, n);
      BoundedRun(Apply(s, steps[0]), steps[1..], addr, n);
    }
  }

  /**
   * The bound, over every interleaving and whatever happens at other addresses: if the limits
   * passed for an address are positive and at most `n`, its count is the number of sends in
   * progress, and that is at most `n`.
   */
  lemma OutstandingIsBounded(steps: seq<Step>, addr: Address, n: nat)
    requires IsRun(INITIAL, steps) && LimitsWithin(steps, addr, n)
    ensures var s := After(INITIAL, steps);
            && |Holders(s, addr)| == (if addr in s.counts then s.counts[addr] else 0)
            && |Holders(s, addr)| <= n
  {
    BoundedRun(INITIAL, steps, addr, n);
    var s := After(INITIAL, steps);
    if addr !in s.counts {
      PlacedMeansNoStrangers(s, addr, n);
    }
  }

  // ----- No lost wakeup -----

  /** Every send to the address that has a limit has the same one. */
  ghost predicate OneLimit(steps: seq<Step>, addr: Address, n: int) {
    forall step <- steps :: step.Enter? && step.addr == addr ==> step.limit <= 0 || step.limit == n
  }

  predicate Waits(pc: Pc, addr: Address) {
    (pc.Entering? || pc.Asleep? || pc.Woken?) && pc.addr == addr
  }

  ghost predicate SameLimit(s: System, addr: Address, n: int) {
    forall t <- s.threads :: Waits(s.threads[t], addr) ==> addr in s.counts && s.threads[t].limit == n
  }

  /** If a waiter is asleep, the slots taken and the waiters woken together use up the limit. */
  ghost predicate NoLostWakeup(s: System, addr: Address, n: int) {
    addr in s.counts && Sleepers(s, addr) != {} ==> s.counts[addr] + |Wakers(s, addr)| >= n
  }

  ghost predicate Live(s: System, addr: Address, n: int) {
    SameLimit(s, addr, n) && NoLostWakeup(s, addr, n)
  }

  lemma SameLimitStep(s: System, step: Step, addr: Address, n: int)
    requires SameLimit(s, addr, n) && Enabled(s, step)
    requires step.Enter? && step.addr == addr ==> step.limit <= 0 || step.limit == n
    ensures SameLimit(Apply(s, step), addr, n)
  {
  }

  lemma WakeupStep(s: System, step: Step, addr: Address, n: int)
    requires Live(s, addr, n) && Enabled(s, step)
    requires step.Enter? && step.addr == addr ==> step.limit <= 0 || step.limit == n
    ensures Live(Apply(s, step), addr, n)
  {
    SameLimitStep(s, step, addr, n);
    if AddressOf(s, step) != addr {
      OtherAddress(s, Apply(s, step), step, addr);
    } else {
      match step
      case Enter(t, _, limit) => EnterWakeup(s, t, addr, limit, n);
      case Acquire(t) => AcquireWakeup(s, t, n);
      case Exit(t) =>
        var pc := PcOf(Apply(s, step), t);
        MoveSizes(s, t, pc, addr);
        MoveMembers(s, t, pc, addr);
      case Release(t, woken) => ReleaseWakeup(s, t, woken, n);
    }
  }

  lemma EnterWakeup(s: System, t: Thread, addr: Address, limit: int, n: int)
    requires Live(s, addr, n) && PcOf(s, t).Idle? && (limit <= 0 || limit == n)
    ensures NoLostWakeup(DoEnter(s, t, addr, limit), addr, n)
  {
    var s' := DoEnter(s, t, addr, limit);
    var s1 := System(s'.counts, s.threads);
    assert Sleepers(s1, addr) == Sleepers(s, addr) && Wakers(s1, addr) == Wakers(s, addr);
    MoveMembers(s1, t, PcOf(s', t), addr);
    MoveSizes(s1, t, PcOf(s', t), addr);
    if addr !in s.counts {
      assert Sleepers(s, addr) == {};
    }
  }

  lemma AcquireWakeup(s: System, t: Thread, n: int)
    requires Enabled(s, Acquire(t)) && Live(s, PcOf(s, t).addr, n)
    ensures NoLostWakeup(DoAcquire(s, t), PcOf(s, t).addr, n)
  {
    var pc := PcOf(s, t);
    var a := pc.addr;
    if s.counts[a] >= pc.limit {
      MoveSizes(s, t, Asleep(a, pc.limit), a);
    } else {
      var s1 := Count(s, a, s.counts[a] + 1);
      assert Wakers(s1, a) == Wakers(s, a) && Sleepers(s1, a) == Sleepers(s, a);
      MoveSizes(s1, t, Holding(a, pc.limit), a);
      MoveMembers(s1, t, Holding(a, pc.limit), a);
    }
  }

  lemma ReleaseWakeup(s: System, t: Thread, woken: Option<Thread>, n: int)
    requires Enabled(s, Release(t, woken)) && Live(s, PcOf(s, t).addr, n)
    ensures NoLostWakeup(DoRelease(s, t, woken), PcOf(s, t).addr, n)
  {
    var a := PcOf(s, t).addr;
    ReleaseCounts(s, t, woken);
    assert Sleepers(DoRelease(s, t, woken), a) <= Sleepers(s, a);
    if woken.Some? {
      assert woken.value in Sleepers(s, a);
    } else {
      assert Sleepers(s, a) == {};
    }
  }

  lemma {:induction false} WakeupRun(s: System, steps: seq<Step>, addr: Address, n: int)
    requires Live(s, addr, n) && IsRun(s, steps) && OneLimit(steps, addr, n)
    ensures Live(After(s, steps), addr, n)
    decreases |steps|
  {
    if steps != [] {
      assert steps[0] in steps && forall step <- steps[1..] :: step in steps;
      WakeupStep(s, steps[0], addr, n);
      WakeupRun(Apply(s, steps[0]), steps[1..], addr, n);
    }
  }

  /**
   * No lost wakeup, over every interleaving and whatever happens at other addresses: if the
   * sends to an address that have a limit have the same one, a free slot while some waiter
   * sleeps means that another waiter has already been woken for it.
   */
  lemma NoWakeupIsLost(steps: seq<Step>, addr: Address, n: int)
    requires IsRun(INITIAL, steps) && OneLimit(steps, addr, n)
    ensures var s := After(INITIAL, steps);
            Sleepers(s, addr) != {} ==> addr in s.counts && (s.counts[addr] < n ==> Wakers(s, addr) != {})
  {
    WakeupRun(INITIAL, steps, addr, n);
    var s := After(INITIAL, steps);
    if Sleepers(s, addr) != {} {
      var t :| t in Sleepers(s, addr);
      assert addr in s.counts;
      assert s.counts[addr] < n ==> |Wakers(s, addr)| > 0;
    }
  }

  // ----- Why the hypotheses are needed -----

  /** A run goes on with one more step. */
  lemma {:induction false} Snoc(s: System, steps: seq<Step>, step: Step)
    requires IsRun(s, steps) && Enabled(After(s, steps), step)
    ensures IsRun(s, steps + [step]) && After(s, steps + [step]) == Apply(After(s, steps), step)
    decreases |steps|
  {
    if steps == [] {
      assert [step][1..] == [];
    } else {
      assert (steps + [step])[1..] == steps[1..] + [step];
      Snoc(Apply(s, steps[0]), steps[1..], step);
    }
  }

  function HoldersUpTo(addr: Address, k: nat, n: int): (r: map<Thread, Pc>)
    ensures forall t: Thread :: t in r <==> 1 <= t <= k
    ensures forall t <- r :: r[t] == Holding(addr, n)
  {
    if k == 0 then map[] else HoldersUpTo(addr, k - 1, n)[k := Holding(addr, n)]
  }

  /** Threads 1 to `k` hold a slot each, under limit `n`. */
  function Filled(addr: Address, k: nat, n: int): System {
    System(map[addr := k], HoldersUpTo(addr, k, n))
  }

  /** All starts in `steps` are at `addr`, with one of two limits. */
  ghost predicate OnlyLimits(steps: seq<Step>, addr: Address, m: int, n: int) {
    forall step <- steps :: step.Enter? ==> step.addr == addr && (step.limit == m || step.limit == n)
  }

  lemma OnlyLimitsOneMore(steps: seq<Step>, step: Step, addr: Address, m: int, n: int)
    requires OnlyLimits(steps, addr, m, n)
    requires step.Enter? ==> step.addr == addr && (step.limit == m || step.limit == n)
    ensures OnlyLimits(steps + [step], addr, m, n)
  {
  }

  /** Sends under a limit of `n` take up to `n` slots. */
  lemma {:induction false} Fill(addr: Address, k: nat, m: int, n: int) returns (steps: seq<Step>)
    requires 1 <= k <= n
    ensures IsRun(INITIAL, steps) && OnlyLimits(steps, addr, m, n) && After(INITIAL, steps) == Filled(addr, k, n)
  {
    if k == 1 {
      assert DoEnter(INITIAL, 1, addr, n).threads == Filled(addr, 1, n).threads;
      Snoc(INITIAL, [], Enter(1, addr, n));
      assert [] + [Enter(1, addr, n)] == [Enter(1, addr, n)];
      steps := [Enter(1, addr, n)];
    } else {
      var init := Fill(addr, k - 1, m, n);
      hide IsRun, After, OnlyLimits, Enabled, Apply, Filled, Queued;
      OneMoreHolder(addr, k, n);
      steps := Take(INITIAL, init, Enter(k, addr, n), Queued(addr, k, n), addr, m, n);
      steps := Take(INITIAL, steps, Acquire(k), Filled(addr, k, n), addr, m, n);
    }
  }

  /** One more send has found the semaphore. */
  function Queued(addr: Address, k: nat, n: int): System
    requires k > 0
  {
    Move(Filled(addr, k - 1, n), k, Entering(addr, n))
  }

  lemma OneMoreHolder(addr: Address, k: nat, n: int)
    requires 1 < k <= n
    ensures Enabled(Filled(addr, k - 1, n), Enter(k, addr, n))
    ensures Apply(Filled(addr, k - 1, n), Enter(k, addr, n)) == Queued(addr, k, n)
    ensures Enabled(Queued(addr, k, n), Acquire(k))
    ensures Apply(Queued(addr, k, n), Acquire(k)) == Filled(addr, k, n)
  {
    assert DoAcquire(Queued(addr, k, n), k).threads == Filled(addr, k, n).threads;
  }

  /** One more step of a run, with where it leads. */
  lemma Take(s: System, steps: seq<Step>, step: Step, s': System, addr: Address, m: int, n: int) returns (r: seq<Step>)
    requires IsRun(s, steps) && OnlyLimits(steps, addr, m, n)
    requires Enabled(After(s, steps), step) && s' == Apply(After(s, steps), step)
    requires step.Enter? ==> step.addr == addr && (step.limit == m || step.limit == n)
    ensures IsRun(s, r) && OnlyLimits(r, addr, m, n) && After(s, r) == s'
  {
    Snoc(s, steps, step);
    OnlyLimitsOneMore(steps, step, addr, m, n);
    r := steps + [step];
  }

  /** A waiter sleeps although a slot is free for it, and nobody has been woken. */
  ghost predicate Stranded(s: System, t: Thread) {
    PcOf(s, t).Asleep? && PcOf(s, t).addr in s.counts
    && s.counts[PcOf(s, t).addr] < PcOf(s, t).limit && Wakers(s, PcOf(s, t).addr) == {}
  }

  /** A new waiter that finds its limit reached falls asleep. */
  lemma FallAsleep(s: System, steps: seq<Step>, t: Thread, limit: int, addr: Address, m: int, n: int) returns (r: seq<Step>, s': System)
    requires IsRun(INITIAL, steps) && OnlyLimits(steps, addr, m, n) && After(INITIAL, steps) == s
    requires t !in s.threads && addr in s.counts && 0 < limit <= s.counts[addr] && (limit == m || limit == n)
    ensures IsRun(INITIAL, r) && OnlyLimits(r, addr, m, n) && After(INITIAL, r) == s'
    ensures s' == s.(threads := s.threads[t := Asleep(addr, limit)])
  {
    var s1 := s.(threads := s.threads[t := Entering(addr, limit)]);
    s' := s.(threads := s.threads[t := Asleep(addr, limit)]);
    assert s'.threads == s1.threads[t := Asleep(addr, limit)];
    hide IsRun, After, OnlyLimits;
    r := Take(INITIAL, steps, Enter(t, addr, limit), s1, addr, m, n);
    r := Take(INITIAL, r, Acquire(t), s', addr, m, n);
  }

  /** A holder leaves and wakes a sleeper, if there is one. */
  lemma Leave(s: System, steps: seq<Step>, t: Thread, woken: Option<Thread>, addr: Address, m: int, n: int) returns (r: seq<Step>, s': System)
    requires IsRun(INITIAL, steps) && OnlyLimits(steps, addr, m, n) && After(INITIAL, steps) == s
    requires t in s.threads && s.threads[t].Holding? && s.threads[t].addr == addr && addr in s.counts
    requires match woken
             case Some(w) => w != t && SleepsOn(s, w, addr)
             case None => forall w <- s.threads :: !SleepsOn(s, w, addr)
    ensures IsRun(INITIAL, r) && OnlyLimits(r, addr, m, n) && After(INITIAL, r) == s'
    ensures s' == System(s.counts[addr := s.counts[addr] - 1],
                         if woken.Some? then s.threads[t := Idle][woken.value := Woken(addr, s.threads[woken.value].limit)]
                         else s.threads[t := Idle])
  {
    var s1 := s.(threads := s.threads[t := Leaving(addr, s.threads[t].limit)]);
    s' := System(s.counts[addr := s.counts[addr] - 1],
                 if woken.Some? then s.threads[t := Idle][woken.value := Woken(addr, s.threads[woken.value].limit)]
                 else s.threads[t := Idle]);
    assert s1.threads[t := Idle] == s.threads[t := Idle];
    hide IsRun, After, OnlyLimits;
    r := Take(INITIAL, steps, Exit(t), s1, addr, m, n);
    r := Take(INITIAL, r, Release(t, woken), s', addr, m, n);
  }

  /**
   * With any two limits for one address a wakeup can be lost: the signal goes to the waiter
   * with the smaller limit, which falls asleep again while the other could run.
   */
  lemma MixedLimitsLoseAWakeup(addr: Address, m: int, n: int) returns (steps: seq<Step>)
    requires 1 <= m < n
    ensures IsRun(INITIAL, steps) && OnlyLimits(steps, addr, m, n)
    ensures After(INITIAL, steps).counts == map[addr := n - 1] && Stranded(After(INITIAL, steps), n + 2)
  {
    hide IsRun, After, OnlyLimits;
    var low, high := n + 1, n + 2;
    var s := Filled(addr, n, n);
    steps := Fill(addr, n, m, n);
    steps, s := FallAsleep(s, steps, low, m, addr, m, n);
    steps, s := FallAsleep(s, steps, high, n, addr, m, n);
    steps, s := Leave(s, steps, 1, Some(low), addr, m, n);
    assert s.counts == map[addr := n - 1] && s.threads[low] == Woken(addr, m);
    var s' := s.(threads := s.threads[low := Asleep(addr, m)]);
    assert s'.threads[high] == Asleep(addr, n);
    assert forall t <- s'.threads :: !s'.threads[t].Woken?;
    steps := Take(INITIAL, steps, Acquire(low), s', addr, m, n);
  }

  /**
   * A send without a limit still counts down when it ends, so it can let one more send than
   * allowed through any limit.
   */
  lemma UnlimitedSendBreaksTheBound(addr: Address, u: int, n: int) returns (steps: seq<Step>)
    requires u <= 0 < n
    ensures IsRun(INITIAL, steps) && OnlyLimits(steps, addr, u, n)
    ensures var s := After(INITIAL, steps);
            |Holders(s, addr)| == n + 1 && forall t <- Holders(s, addr) :: s.threads[t].limit == n
  {
    hide IsRun, After, OnlyLimits, Holders;
    var free, late := n + 1, n + 2;
    var s := Filled(addr, n, n);
    steps := Fill(addr, n, u, n);
    var s1 := s.(threads := s.threads[free := Holding(addr, u)]);
    steps := Take(INITIAL, steps, Enter(free, addr, u), s1, addr, u, n);
    var s2;
    steps, s2 := Leave(s1, steps, free, None, addr, u, n);
    assert s2.threads == s.threads[free := Idle];
    var s3 := s2.(threads := s2.threads[late := Entering(addr, n)]);
    var s4 := System(map[addr := n], s2.threads[late := Holding(addr, n)]);
    assert s4.threads == s3.threads[late := Holding(addr, n)] && s4.counts == s3.counts[addr := n];
    steps := Take(INITIAL, steps, Enter(late, addr, n), s3, addr, u, n);
    steps := Take(INITIAL, steps, Acquire(late), s4, addr, u, n);
    ManyHolders(s4, addr, n);
  }

  lemma ManyHolders(s: System, addr: Address, n: nat)
    requires s.threads == HoldersUpTo(addr, n, n)[n + 1 := Idle][n + 2 := Holding(addr, n)]
    ensures |Holders(s, addr)| == n + 1 && forall t <- Holders(s, addr) :: s.threads[t].limit == n
  {
    var most := UpTo(n);
    assert Holders(s, addr) == most + {n + 2};
    hide Holders, UpTo;
  }

  function UpTo(n: nat): (r: set<Thread>)
    ensures |r| == n && forall t: Thread :: t in r <==> 1 <= t <= n
  {
    if n == 0 then {} else UpTo(n - 1) + {n}
  }

  // ----- Exactly when no wakeup is lost -----

  /** Each address is only ever given a limit that is allowed there. */
  ghost predicate LimitsFrom(steps: seq<Step>, allowed: Address -> set<int>) {
    forall step <- steps :: step.Enter? ==> step.limit in allowed(step.addr)
  }

  /** A run at one address with two limits that are allowed there. */
  lemma OnlyLimitsAllowed(steps: seq<Step>, allowed: Address -> set<int>, addr: Address, m: int, n: int)
    requires OnlyLimits(steps, addr, m, n) && m in allowed(addr) && n in allowed(addr)
    ensures LimitsFrom(steps, allowed)
  {
  }

  ghost function PositiveLimit(limits: set<int>): int {
    if x :| x in limits && x > 0 then x else 1
  }

  predicate Differ(allowed: Address -> set<int>, a: Address, x: int, y: int) {
    x in allowed(a) && y in allowed(a) && 0 < x < y
  }

  ghost predicate NobodyStranded(s: System) {
    forall t <- s.threads :: !Stranded(s, t)
  }

  /**
   * The exact condition: no waiter is ever stranded if and only if every address has at most
   * one positive limit.
   */
  lemma OneLimitIsExactlyEnough(allowed: Address -> set<int>)
    ensures (forall steps :: IsRun(INITIAL, steps) && LimitsFrom(steps, allowed) ==> NobodyStranded(After(INITIAL, steps)))
       <==> (forall a, x, y :: !Differ(allowed, a, x, y))
  {
    if forall a, x, y :: !Differ(allowed, a, x, y) {
      forall steps | IsRun(INITIAL, steps) && LimitsFrom(steps, allowed)
        ensures NobodyStranded(After(INITIAL, steps))
      {
        OneLimitIsEnough(allowed, steps);
      }
    } else {
      var a, x, y :| Differ(allowed, a, x, y);
      var steps := MixedLimitsLoseAWakeup(a, x, y);
      OnlyLimitsAllowed(steps, allowed, a, x, y);
    }
  }

  lemma OneLimitIsEnough(allowed: Address -> set<int>, steps: seq<Step>)
    requires forall a, x, y :: !Differ(allowed, a, x, y)
    requires IsRun(INITIAL, steps) && LimitsFrom(steps, allowed)
    ensures NobodyStranded(After(INITIAL, steps))
  {
    var s := After(INITIAL, steps);
    forall t <- s.threads
      ensures !Stranded(s, t)
    {
      if PcOf(s, t).Asleep? {
        var addr := PcOf(s, t).addr;
        var n := PositiveLimit(allowed(addr));
        OneLimitAllowed(allowed, steps, addr);
        WakeupRun(INITIAL, steps, addr, n);
        NoWakeupIsLost(steps, addr, n);
        assert t in Sleepers(s, addr);
      }
    }
  }

  lemma OneLimitAllowed(allowed: Address -> set<int>, steps: seq<Step>, addr: Address)
    requires forall a, x, y :: !Differ(allowed, a, x, y)
    requires LimitsFrom(steps, allowed)
    ensures OneLimit(steps, addr, PositiveLimit(allowed(addr)))
  {
    var n := PositiveLimit(allowed(addr));
    forall step <- steps | step.Enter? && step.addr == addr
      ensures step.limit <= 0 || step.limit == n
    {
      assert !Differ(allowed, addr, step.limit, n) && !Differ(allowed, addr, n, step.limit);
    }
  }

  // ----- Exactly when the bound holds -----

  /** The sends in progress that passed a limit. */
  function Limited(s: System, addr: Address): (r: set<Thread>)
    ensures r <= Holders(s, addr)
  {
    set t | t in Holders(s, addr) && s.threads[t].limit > 0
  }

  predicate AtMost(limits: set<int>, n: int) {
    forall x <- limits :: x <= n
  }

  /** Of the sends that passed a limit, no more are in progress than the largest limit allows. */
  ghost predicate KeepsLimits(s: System, allowed: Address -> set<int>) {
    forall a, n :: 1 <= n && AtMost(allowed(a), n) ==> |Limited(s, a)| <= n
  }

  predicate Mixed(allowed: Address -> set<int>, a: Address, x: int, u: int) {
    x in allowed(a) && u in allowed(a) && u <= 0 < x
  }

  /**
   * The exact condition: at no address are more limited sends in progress than its largest
   * limit allows if and only if no address has both a positive limit and a send without one.
   */
  lemma BoundHoldsExactly(allowed: Address -> set<int>)
    ensures (forall steps :: IsRun(INITIAL, steps) && LimitsFrom(steps, allowed) ==> KeepsLimits(After(INITIAL, steps), allowed))
       <==> (forall a, x, u :: !Mixed(allowed, a, x, u))
  {
    if forall a, x, u :: !Mixed(allowed, a, x, u) {
      forall steps | IsRun(INITIAL, steps) && LimitsFrom(steps, allowed)
        ensures KeepsLimits(After(INITIAL, steps), allowed)
      {
        UnmixedKeepsLimits(allowed, steps);
      }
    } else {
      var a, x, u :| Mixed(allowed, a, x, u);
      var n := Largest(allowed(a), x);
      var steps := UnlimitedSendBreaksTheBound(a, u, n);
      OnlyLimitsAllowed(steps, allowed, a, u, n);
      var s := After(INITIAL, steps);
      assert Limited(s, a) == Holders(s, a);
      assert AtMost(allowed(a), n) && !KeepsLimits(s, allowed);
    }
  }

  /** The largest element, which is at least `x`. */
  lemma {:induction false} Largest(limits: set<int>, x: int) returns (n: int)
    requires x in limits
    ensures n in limits && x <= n && AtMost(limits, n)
  {
    var rest := limits - {x};
    assert forall z <- limits :: z == x || z in rest;
    n := x;
    if y :| y in rest {
      n := Largest(rest, y);
      n := if n < x then x else n;
    }
  }

  lemma UnmixedKeepsLimits(allowed: Address -> set<int>, steps: seq<Step>)
    requires forall a, x, u :: !Mixed(allowed, a, x, u)
    requires IsRun(INITIAL, steps) && LimitsFrom(steps, allowed)
    ensures KeepsLimits(After(INITIAL, steps), allowed)
  {
    var s := After(INITIAL, steps);
    forall a, n | 1 <= n && AtMost(allowed(a), n)
      ensures |Limited(s, a)| <= n
    {
      UnmixedKeepsLimit(allowed, steps, a, n);
    }
  }

  lemma UnmixedKeepsLimit(allowed: Address -> set<int>, steps: seq<Step>, a: Address, n: int)
    requires forall a, x, u :: !Mixed(allowed, a, x, u)
    requires IsRun(INITIAL, steps) && LimitsFrom(steps, allowed)
    requires 1 <= n && AtMost(allowed(a), n)
    ensures |Limited(After(INITIAL, steps), a)| <= n
  {
    var s := After(INITIAL, steps);
    if x :| x in allowed(a) && x > 0 {
      forall step <- steps | step.Enter? && step.addr == a
        ensures 0 < step.limit <= n
      {
        assert !Mixed(allowed, a, x, step.limit);
      }
      OutstandingIsBounded(steps, a, n);
      SubsetSize(Limited(s, a), Holders(s, a));
    } else {
      NoLimitRun(INITIAL, steps, a);
    }
  }

  lemma {:induction false} SubsetSize(a: set<Thread>, b: set<Thread>)
    requires a <= b
    ensures |a| <= |b|
  {
    if t :| t in a {
      SubsetSize(a - {t}, b - {t});
    }
  }

  ghost predicate NoLimit(s: System, addr: Address) {
    forall t <- s.threads :: At(s.threads[t], addr) ==> s.threads[t].limit <= 0
  }

  /** No send passes a limit at an address where none is ever given. */
  lemma {:induction false} NoLimitRun(s: System, steps: seq<Step>, addr: Address)
    requires NoLimit(s, addr) && IsRun(s, steps)
    requires forall step <- steps :: step.Enter? && step.addr == addr ==> step.limit <= 0
    ensures NoLimit(After(s, steps), addr) && Limited(After(s, steps), addr) == {}
    decreases |steps|
  {
    if steps != [] {
      assert steps[0] in steps && forall step <- steps[1..] :: step in steps;
      NoLimitStep(s, steps[0], addr);
      NoLimitRun(Apply(s, steps[0]), steps[1..], addr);
    }
  }

  lemma NoLimitStep(s: System, step: Step, addr: Address)
    requires NoLimit(s, addr) && Enabled(s, step)
    requires step.Enter? && step.addr == addr ==> step.limit <= 0
    ensures NoLimit(Apply(s, step), addr)
  {
  }

  // ----- The functions themselves -----

  /** The semaphores and their goroutines, changed one critical section at a time. */
  class Semaphores {
    var counts: map<Address, int>
    var threads: map<Thread, Pc>

    constructor ()
      ensures Now() == INITIAL
    {
      counts, threads := map[], map[];
    }

    function Now(): System
      reads this
    {
      System(counts, threads)
    }

    /** `nstartInc` under `nstartMux`. */
    method LookUp(t: Thread, addr: Address, nStart: int)
      requires PcOf(Now(), t).Idle?
      modifies this
      ensures Enabled(old(Now()), Enter(t, addr, nStart)) && Now() == Apply(old(Now()), Enter(t, addr, nStart))
    {
      var pc := Holding(addr, nStart);
      if nStart > 0 {
        if addr in counts {
          pc := Entering(addr, nStart);
        } else {
          counts := counts[addr := 1];
        }
      }
      threads := threads[t := pc];
    }

    /** The loop of `nstartInc` under the semaphore's lock: one test, then sleep or return. */
    method TryAcquire(t: Thread) returns (acquired: bool)
      requires Enabled(Now(), Acquire(t))
      modifies this
      ensures Now() == Apply(old(Now()), Acquire(t))
      ensures acquired == PcOf(Now(), t).Holding?
    {
      var pc := threads[t];
      if counts[pc.addr] >= pc.limit {
        threads := threads[t := Asleep(pc.addr, pc.limit)];
        return false;
      }
      counts := counts[pc.addr := counts[pc.addr] + 1];
      threads := threads[t := Holding(pc.addr, pc.limit)];
      return true;
    }

    /** `nstartDec` under `nstartMux`. */
    method FindForRelease(t: Thread)
      requires PcOf(Now(), t).Holding?
      modifies this
      ensures Enabled(old(Now()), Exit(t)) && Now() == Apply(old(Now()), Exit(t))
    {
      var pc := threads[t];
      threads := threads[t := if pc.addr in counts then Leaving(pc.addr, pc.limit) else Idle];
    }

    /** `nstartDec` under the semaphore's lock: decrement and signal. */
    method ReleaseAndSignal(t: Thread) returns (woken: Option<Thread>)
      requires PcOf(Now(), t).Leaving? && PcOf(Now(), t).addr in counts
      modifies this
      ensures Enabled(old(Now()), Release(t, woken)) && Now() == Apply(old(Now()), Release(t, woken))
    {
      var addr := threads[t].addr;
      counts := counts[addr := counts[addr] - 1];
      var waiting := set w | w in threads && threads[w].Asleep? && threads[w].addr == addr;
      threads := threads[t := Idle];
      assert forall w <- old(threads) :: SleepsOn(old(Now()), w, addr) ==> w in waiting;
      if waiting == {} {
        return None;
      }
      var w :| w in waiting;
      threads := threads[w := Woken(addr, threads[w].limit)];
      return Some(w);
    }
  }
}
