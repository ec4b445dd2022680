/**
 * The retransmission loop of `send` (send.go:169-225) over exact time: how often a confirmable
 * message is sent and how long its sender waits (RFC 7252, sections 4.2 and 4.8.2).
 */
module Retransmit {
  import opened Basics
  import opened Messages

  type Delay = d: real | 0.0 <= d

  /** ACK_TIMEOUT, ACK_RANDOM_FACTOR and MAX_RETRANSMIT; -1 stands for no retransmissions. */
  datatype Settings = Settings(actTimeout: real, randomFactor: real, maxRetransmit: int)

  /** What RFC 7252, section 4.8 asks of the settings, for a loop that does run. */
  predicate Sound(s: Settings) {
    s.actTimeout >= 0.0 && s.randomFactor >= 1.0 && s.maxRetransmit >= 0
  }

  /** The first timeout, wherever the random number lands. */
  predicate Jittered(s: Settings, initial: real) {
    s.actTimeout <= initial <= s.actTimeout * s.randomFactor
  }

  datatype Arrival = Arrival(after: Delay, rsp: Msg)

  /** One turn of the loop as the outside sees it: the first message in the mailbox, and whether a resend can be written. */
  datatype Turn = Turn(arrival: Option<Arrival>, writeOk: bool)

  datatype Outcome = Answered(rsp: Msg) | TimedOut | WriteFailed

  /**
   * The loop's variables and its history: the limit of each turn so far, how long each really took,
   * the number of transmissions and when the latest was made.
   */
  datatype Progress = Progress(timeout: real, limits: seq<real>, waits: seq<real>, sends: nat, lastSent: real)

  datatype Report = Report(outcome: Outcome, end: Progress)

  function Power(n: nat): (r: nat)
    ensures r >= 1
  {
    if n == 0 then 1 else 2 * Power(n - 1)
  }

  function Sum(xs: seq<real>): real {
    if xs == [] then 0.0 else Sum(xs[..|xs| - 1]) + xs[|xs| - 1]
  }

  /** MAX_TRANSMIT_WAIT. The factor is truncated towards zero, so it is zero when there are no retransmissions. */
  function MaxWait(s: Settings): real {
    s.actTimeout * (if s.maxRetransmit < 0 then 0 else Power(s.maxRetransmit + 1) - 1) as real * s.randomFactor
  }

  /** MAX_TRANSMIT_SPAN: the time from the first transmission to the last. */
  function MaxSpan(s: Settings): real
    requires s.maxRetransmit >= 0
  {
    s.actTimeout * (Power(s.maxRetransmit) - 1) as real * s.randomFactor
  }

  /** A timer set to a negative duration fires at once. */
  function Expiry(limit: real): Delay {
    if limit < 0.0 then 0.0 else limit
  }

  predicate InTime(turn: Turn, limit: real) {
    turn.arrival.Some? && turn.arrival.value.after <= Expiry(limit)
  }

  /** A message that ends the exchange: anything but an empty acknowledgement of a request. */
  predicate Decisive(isRequest: bool, turn: Turn, limit: real) {
    InTime(turn, limit) && !(turn.arrival.value.rsp.code == CODE_EMPTY && isRequest)
  }

  function Start(initial: real): Progress {
    Progress(initial, [], [], 1, 0.0)
  }

  /** The last turn gets whatever is left of the longest wait. */
  function Limit(s: Settings, retry: nat, p: Progress): real {
    if retry == s.maxRetransmit then MaxWait(s) - Sum(p.waits) else p.timeout
  }

  function Waited(p: Progress, limit: real, time: real): Progress {
    p.(timeout := limit, limits := p.limits + [limit], waits := p.waits + [time])
  }

  function Resent(p: Progress): Progress {
    p.(timeout := p.timeout * 2.0, sends := p.sends + 1, lastSent := Sum(p.waits))
  }

  /** One turn: how the exchange ends, if it does, and the loop's variables after it. */
  function OneTurn(s: Settings, isRequest: bool, turn: Turn, retry: nat, p: Progress): (Option<Outcome>, Progress) {
    var limit := Limit(s, retry, p);
    var q := Waited(p, limit, if InTime(turn, limit) then turn.arrival.value.after else Expiry(limit));
    if Decisive(isRequest, turn, limit) then (Some(Answered(turn.arrival.value.rsp)), q)
    else if InTime(turn, limit) || retry >= s.maxRetransmit then (None, q)
    else (if turn.writeOk then None else Some(WriteFailed), Resent(q))
  }

  function Loop(s: Settings, isRequest: bool, turns: nat -> Turn, retry: nat, p: Progress): Report
    decreases s.maxRetransmit + 1 - retry
  {
    if retry > s.maxRetransmit then Report(TimedOut, p)
    else
      var (end, q) := OneTurn(s, isRequest, turns(retry), retry, p);
      if end.Some? then Report(end.value, q) else Loop(s, isRequest, turns, retry + 1, q)
  }

  /** What follows the first transmission. */
  function Await(s: Settings, isRequest: bool, initial: real, turns: nat -> Turn): Report {
    if s.maxRetransmit == -1 then
      var limit := MaxWait(s);
      if InTime(turns(0), limit) then
        Report(Answered(turns(0).arrival.value.rsp), Waited(Start(initial), limit, turns(0).arrival.value.after))
      else Report(TimedOut, Waited(Start(initial), limit, Expiry(limit)))
    else Loop(s, isRequest, turns, 0, Start(initial))
  }

  /** The wait that follows the first transmission, as the source writes it. */
  method AwaitReply(s: Settings, isRequest: bool, initial: real, turns: nat -> Turn)
    returns (outcome: Outcome, ghost end: Progress)
    ensures outcome == Await(s, isRequest, initial, turns).outcome && end == Await(s, isRequest, initial, turns).end
  {
    var maxWait := MaxWait(s);
    if s.maxRetransmit == -1 {
      ghost var start := Start(initial);
      if InTime(turns(0), maxWait) {
        return Answered(turns(0).arrival.value.rsp), Waited(start, maxWait, turns(0).arrival.value.after);
      }
      return TimedOut, Waited(start, maxWait, Expiry(maxWait));
    }
    outcome, end := RetryLoop(s, isRequest, maxWait, initial, turns);
  }

  method RetryLoop(s: Settings, isRequest: bool, maxWait: real, initial: real, turns: nat -> Turn)
    returns (outcome: Outcome, ghost end: Progress)
    requires maxWait == MaxWait(s)
    ensures outcome == Loop(s, isRequest, turns, 0, Start(initial)).outcome
    ensures end == Loop(s, isRequest, turns, 0, Start(initial)).end
  {
    var timeout, clock := initial, 0.0;
    var retryCount := 0;
    end := Start(initial);
    while retryCount <= s.maxRetransmit
      invariant retryCount >= 0 && end.timeout == timeout && Sum(end.waits) == clock
      invariant Loop(s, isRequest, turns, 0, Start(initial)) == Loop(s, isRequest, turns, retryCount, end)
      decreases s.maxRetransmit - retryCount
    {
      var stop: Option<Outcome>;
      stop, timeout, clock, end := TakeTurn(s, isRequest, turns(retryCount), retryCount, maxWait, timeout, clock, end);
      if stop.Some? {
        return stop.value, end;
      }
      retryCount := retryCount + 1;
    }
    return TimedOut, end;
  }

  /** The body of the loop. */
  method TakeTurn(s: Settings, isRequest: bool, turn: Turn, retryCount: nat, maxWait: real, timeout0: real, clock0: real, ghost p: Progress)
    returns (stop: Option<Outcome>, timeout: real, clock: real, ghost q: Progress)
    requires maxWait == MaxWait(s) && p.timeout == timeout0 && Sum(p.waits) == clock0
    ensures stop == OneTurn(s, isRequest, turn, retryCount, p).0 && q == OneTurn(s, isRequest, turn, retryCount, p).1
    ensures q.timeout == timeout && Sum(q.waits) == clock
  {
    timeout := timeout0;
    if retryCount == s.maxRetransmit {
      timeout := maxWait - clock0;
    }
    var got := InTime(turn, timeout);
    var time := if got then turn.arrival.value.after else Expiry(timeout);
    SumOneMore(p.waits, time);
    clock := clock0 + time;
    q := Waited(p, timeout, time);
    stop := None;
    if got {
      if turn.arrival.value.rsp.code != CODE_EMPTY || !isRequest {
        stop := Some(Answered(turn.arrival.value.rsp));
      }
    } else if retryCount < s.maxRetransmit {
      q := Resent(q);
      timeout := timeout * 2.0;
      if !turn.writeOk {
        stop := Some(WriteFailed);
      }
    }
  }

  lemma SumOneMore(xs: seq<real>, x: real)
    ensures Sum(xs + [x]) == Sum(xs) + x
  {
    assert (xs + [x])[..|xs + [x]| - 1] == xs;
  }

  // ----- Bounds over every run -----

  /** `x` after `n` doublings. */
  function Doubled(x: real, n: nat): real {
    if n == 0 then x else 2.0 * Doubled(x, n - 1)
  }

  lemma {:induction false} DoubledIsPower(x: real, n: nat)
    ensures Doubled(x, n) == x * Power(n) as real
  {
    if n > 0 { DoubledIsPower(x, n - 1); }
  }

  lemma {:induction false} DoubledGrows(x: real, y: real, m: nat, n: nat)
    requires 0.0 <= x <= y && m <= n
    ensures 0.0 <= Doubled(x, m) <= Doubled(x, n)
    ensures Doubled(x, n) - x <= Doubled(y, n) - y
    decreases n
  {
    if m < n {
      DoubledGrows(x, y, m, n - 1);
    } else if n > 0 {
      DoubledGrows(x, y, n - 1, n - 1);
    }
  }

  /** The longest first timeout. */
  function Longest(s: Settings): real {
    s.actTimeout * s.randomFactor
  }

  lemma LimitsAsDoublings(s: Settings)
    requires Sound(s)
    ensures MaxWait(s) == Doubled(Longest(s), s.maxRetransmit + 1) - Longest(s)
    ensures MaxSpan(s) == Doubled(Longest(s), s.maxRetransmit) - Longest(s)
  {
    DoubledIsPower(Longest(s), s.maxRetransmit + 1);
    DoubledIsPower(Longest(s), s.maxRetransmit);
  }

  /** Every wait so far was within its limit. */
  ghost predicate Timely(p: Progress) {
    |p.waits| == |p.limits| && forall i :: 0 <= i < |p.limits| ==> 0.0 <= p.waits[i] <= p.limits[i]
  }

  lemma OneMoreTimely(p: Progress, limit: real, time: real)
    requires Timely(p) && 0.0 <= time <= limit
    ensures Timely(Waited(p, limit, time))
  {
    hide Sum;
  }

  /** Before turn `retry`: timeouts and waits so far are within those of a silent run. */
  ghost predicate OnSchedule(s: Settings, initial: real, retry: nat, p: Progress) {
    && 0.0 <= p.timeout <= Doubled(initial, retry)
    && 0.0 <= Sum(p.waits) <= Doubled(initial, retry) - initial
    && p.sends <= retry + 1
    && 0.0 <= p.lastSent <= Doubled(initial, retry) - initial
    && |p.limits| == retry && Timely(p)
  }

  /** The schedule stays within the limits and leaves the last turn at least the next doubling of the first timeout. */
  lemma RoomForTheLastTurn(s: Settings, initial: real, retry: nat)
    requires Sound(s) && Jittered(s, initial) && retry <= s.maxRetransmit
    ensures 0.0 <= Doubled(initial, retry) - initial <= MaxSpan(s) <= MaxWait(s)
    ensures Doubled(initial, retry) + (Doubled(initial, retry) - initial) <= MaxWait(s)
  {
    LimitsAsDoublings(s);
    var n := s.maxRetransmit;
    DoubledGrows(initial, Longest(s), retry, n);
    DoubledGrows(initial, Longest(s), 0, retry);
    DoubledGrows(initial, Longest(s), n, n + 1);
    DoubledGrows(Longest(s), Longest(s), n, n + 1);
  }

  /** What holds of the loop's variables whenever it ends. */
  ghost predicate WithinLimits(s: Settings, p: Progress)
    requires Sound(s)
  {
    && p.sends <= s.maxRetransmit + 1
    && 0.0 <= Sum(p.waits) <= MaxWait(s)
    && 0.0 <= p.lastSent <= MaxSpan(s)
    && |p.limits| <= s.maxRetransmit + 1 && Timely(p)
  }

  lemma ScheduleIsWithin(s: Settings, initial: real, retry: nat, p: Progress)
    requires Sound(s) && Jittered(s, initial) && OnSchedule(s, initial, retry, p) && retry <= s.maxRetransmit
    ensures WithinLimits(s, p)
  {
    RoomForTheLastTurn(s, initial, retry);
    hide Doubled, MaxWait, MaxSpan, Sum, Jittered;
  }

  /** A turn before the last ... */
  lemma TurnOnSchedule(s: Settings, initial: real, retry: nat, p: Progress, time: real)
    requires 0.0 <= initial && OnSchedule(s, initial, retry, p) && 0.0 <= time <= p.timeout
    ensures OnSchedule(s, initial, retry + 1, Waited(p, p.timeout, time))
  {
    SumOneMore(p.waits, time);
    DoubledGrows(initial, initial, 0, retry);
    assert Doubled(initial, retry + 1) == 2.0 * Doubled(initial, retry);
    OneMoreTimely(p, p.timeout, time);
    hide Doubled, Sum, Timely;
  }

  /** ... that ends in a resend. */
  lemma ResendOnSchedule(s: Settings, initial: real, retry: nat, q: Progress)
    requires OnSchedule(s, initial, retry + 1, q) && q.timeout <= Doubled(initial, retry) && q.sends <= retry + 1
    ensures OnSchedule(s, initial, retry + 1, Resent(q))
  {
    assert Doubled(initial, retry + 1) == 2.0 * Doubled(initial, retry);
    assert Timely(Resent(q));
    hide Doubled, Sum, Timely;
  }

  lemma LastTurnHasTime(s: Settings, initial: real, p: Progress)
    requires Sound(s) && Jittered(s, initial) && OnSchedule(s, initial, s.maxRetransmit, p)
    ensures Doubled(initial, s.maxRetransmit) <= Limit(s, s.maxRetransmit, p)
    ensures 0.0 <= Limit(s, s.maxRetransmit, p)
  {
    RoomForTheLastTurn(s, initial, s.maxRetransmit);
    hide Doubled, MaxWait, MaxSpan, Sum, Jittered;
  }

  lemma LastTurn(s: Settings, initial: real, p: Progress, time: real)
    requires Sound(s) && Jittered(s, initial) && OnSchedule(s, initial, s.maxRetransmit, p)
    requires 0.0 <= time <= Limit(s, s.maxRetransmit, p)
    ensures WithinLimits(s, Waited(p, Limit(s, s.maxRetransmit, p), time))
  {
    hide Doubled, MaxWait, MaxSpan, Sum, Jittered;
    SumOneMore(p.waits, time);
    OneMoreTimely(p, Limit(s, s.maxRetransmit, p), time);
    hide Timely;
    RoomForTheLastTurn(s, initial, s.maxRetransmit);
  }

  lemma OneTurnIsBounded(s: Settings, isRequest: bool, initial: real, turn: Turn, retry: nat, p: Progress)
    requires Sound(s) && Jittered(s, initial) && retry <= s.maxRetransmit && OnSchedule(s, initial, retry, p)
    ensures WithinLimits(s, OneTurn(s, isRequest, turn, retry, p).1)
    ensures retry < s.maxRetransmit ==> OnSchedule(s, initial, retry + 1, OneTurn(s, isRequest, turn, retry, p).1)
  {
    var limit := Limit(s, retry, p);
    if retry == s.maxRetransmit { LastTurnHasTime(s, initial, p); }
    assert 0.0 <= limit;
    var time := if InTime(turn, limit) then turn.arrival.value.after else Expiry(limit);
    var q := Waited(p, limit, time);
    if retry == s.maxRetransmit {
      LastTurn(s, initial, p, time);
    } else {
      TurnOnSchedule(s, initial, retry, p, time);
      ResendOnSchedule(s, initial, retry, q);
      ScheduleIsWithin(s, initial, retry + 1, q);
      ScheduleIsWithin(s, initial, retry + 1, Resent(q));
    }
    hide OnSchedule, WithinLimits, Resent, Jittered, MaxWait;
  }

  lemma {:induction false} LoopIsBounded(s: Settings, isRequest: bool, initial: real, turns: nat -> Turn, retry: nat, p: Progress)
    requires Sound(s) && Jittered(s, initial) && retry <= s.maxRetransmit && OnSchedule(s, initial, retry, p)
    ensures WithinLimits(s, Loop(s, isRequest, turns, retry, p).end)
    decreases s.maxRetransmit - retry
  {
    hide OnSchedule, WithinLimits, OneTurn, Jittered;
    OneTurnIsBounded(s, isRequest, initial, turns(retry), retry, p);
    if retry < s.maxRetransmit {
      LoopIsBounded(s, isRequest, initial, turns, retry + 1, OneTurn(s, isRequest, turns(retry), retry, p).1);
    }
  }

  /**
   * Every run ends with at most MAX_RETRANSMIT + 1 transmissions, the last of them within
   * MAX_TRANSMIT_SPAN, and with a total wait of at most MAX_TRANSMIT_WAIT.
   */
  lemma EveryRunIsBounded(s: Settings, isRequest: bool, initial: real, turns: nat -> Turn)
    requires Sound(s) && Jittered(s, initial)
    ensures WithinLimits(s, Await(s, isRequest, initial, turns).end)
  {
    LoopIsBounded(s, isRequest, initial, turns, 0, Start(initial));
  }

  // ----- The silent run -----

  /** The first `n` waits of a sender that hears nothing: each twice the one before. */
  function Backoff(initial: real, n: nat): (r: seq<real>)
    ensures |r| == n
  {
    if n == 0 then [] else Backoff(initial, n - 1) + [Doubled(initial, n - 1)]
  }

  lemma {:induction false} BackoffSum(initial: real, n: nat)
    ensures Sum(Backoff(initial, n)) == Doubled(initial, n) - initial
  {
    if n > 0 {
      BackoffSum(initial, n - 1);
      SumOneMore(Backoff(initial, n - 1), Doubled(initial, n - 1));
    }
  }

  /** Nothing decisive arrives and every resend can be written. */
  ghost predicate Silence(turns: nat -> Turn) {
    forall i: nat :: turns(i).arrival == None && turns(i).writeOk
  }

  /** One silent turn before the last. */
  lemma SilentTurn(s: Settings, isRequest: bool, turns: nat -> Turn, retry: nat, p: Progress)
    requires Silence(turns) && retry < s.maxRetransmit && 0.0 <= p.timeout
    ensures Loop(s, isRequest, turns, retry, p) == Loop(s, isRequest, turns, retry + 1, Resent(Waited(p, p.timeout, p.timeout)))
  {
    hide Power, Sum;
  }

  /** The last silent turn uses up what is left of the longest wait. */
  lemma SilentEnd(s: Settings, isRequest: bool, turns: nat -> Turn, p: Progress)
    requires s.maxRetransmit >= 0 && Silence(turns) && Sum(p.waits) <= MaxWait(s)
    ensures var last := MaxWait(s) - Sum(p.waits);
            Loop(s, isRequest, turns, s.maxRetransmit, p) == Report(TimedOut, Waited(p, last, last))
  {
    hide MaxWait, Sum;
  }

  /** What is left for the last turn when every turn before it was silent. */
  function Leftover(s: Settings, initial: real): real
    requires s.maxRetransmit >= 0
  {
    MaxWait(s) - (Doubled(initial, s.maxRetransmit) - initial)
  }

  lemma {:induction false} SilentFrom(s: Settings, isRequest: bool, initial: real, turns: nat -> Turn, retry: nat, p: Progress)
    requires 0.0 <= initial && Silence(turns) && retry <= s.maxRetransmit && 0.0 <= Leftover(s, initial)
    requires p.timeout == Doubled(initial, retry) && p.waits == Backoff(initial, retry) && p.sends == retry + 1
    ensures var r := Loop(s, isRequest, turns, retry, p);
            && r.outcome == TimedOut && r.end.sends == s.maxRetransmit + 1
            && r.end.waits == Backoff(initial, s.maxRetransmit) + [Leftover(s, initial)]
    decreases s.maxRetransmit - retry
  {
    hide MaxWait, Sum, Loop, Silence;
    if retry < s.maxRetransmit {
      DoubledGrows(initial, initial, 0, retry);
      SilentTurn(s, isRequest, turns, retry, p);
      SilentFrom(s, isRequest, initial, turns, retry + 1, Resent(Waited(p, p.timeout, p.timeout)));
    } else {
      BackoffSum(initial, retry);
      SilentEnd(s, isRequest, turns, p);
    }
  }

  /**
   * A sender that hears nothing transmits MAX_RETRANSMIT + 1 times, doubling its wait each time;
   * the last wait is no shorter than the next doubling and makes the total exactly MAX_TRANSMIT_WAIT.
   */
  lemma SilentRun(s: Settings, isRequest: bool, initial: real, turns: nat -> Turn)
    requires Sound(s) && Jittered(s, initial) && Silence(turns)
    ensures var r := Await(s, isRequest, initial, turns);
            var n := s.maxRetransmit;
            && r.outcome == TimedOut && r.end.sends == n + 1
            && |r.end.waits| == n + 1 && r.end.waits[..n] == Backoff(initial, n)
            && r.end.waits[n] >= Doubled(initial, n)
            && Sum(r.end.waits) == MaxWait(s)
  {
    var n := s.maxRetransmit;
    RoomForTheLastTurn(s, initial, n);
    DoubledGrows(initial, initial, 0, n);
    BackoffSum(initial, n);
    SumOneMore(Backoff(initial, n), Leftover(s, initial));
    hide Jittered, MaxWait, Sum, Loop;
    SilentFrom(s, isRequest, initial, turns, 0, Start(initial));
  }

  // ----- What the outcome depends on -----

  /** How many of the turns tried ended in a resend. */
  function Resends(s: Settings, turns: nat -> Turn, limits: seq<real>): nat {
    if limits == [] then 0
    else
      var n := |limits| - 1;
      Resends(s, turns, limits[..n]) + if n < s.maxRetransmit && !InTime(turns(n), limits[n]) then 1 else 0
  }

  /** Turn `i` ended in a resend that could not be written. */
  predicate ResendFails(s: Settings, i: nat, turn: Turn, limit: real) {
    i < s.maxRetransmit && !InTime(turn, limit) && !turn.writeOk
  }

  /** The turns tried so far, with the limits they had, brought neither a decisive message nor a failing resend. */
  ghost predicate Fruitless(s: Settings, isRequest: bool, turns: nat -> Turn, limits: seq<real>) {
    forall i: nat :: i < |limits| ==> !Decisive(isRequest, turns(i), limits[i]) && !ResendFails(s, i, turns(i), limits[i])
  }

  /** The report follows from what the turns brought, up to the last one tried. */
  ghost predicate Explained(s: Settings, isRequest: bool, turns: nat -> Turn, r: Report)
    requires Sound(s)
  {
    var limits := r.end.limits;
    && 0 < |limits| <= s.maxRetransmit + 1
    && r.end.sends == 1 + Resends(s, turns, limits)
    && var n := |limits| - 1;
       Fruitless(s, isRequest, turns, limits[..n]) &&
       match r.outcome
       case Answered(rsp) => Decisive(isRequest, turns(n), limits[n]) && rsp == turns(n).arrival.value.rsp
       case WriteFailed => ResendFails(s, n, turns(n), limits[n])
       case TimedOut => n == s.maxRetransmit && Fruitless(s, isRequest, turns, limits)
  }

  lemma OneMoreTurn(s: Settings, turns: nat -> Turn, limits: seq<real>, limit: real)
    ensures (limits + [limit])[..|limits + [limit]| - 1] == limits
    ensures Resends(s, turns, limits + [limit]) == Resends(s, turns, limits)
         + if |limits| < s.maxRetransmit && !InTime(turns(|limits|), limit) then 1 else 0
  {
    assert (limits + [limit])[..|limits|] == limits;
  }

  /** The report of a turn that ends the loop. */
  lemma EndIsExplained(s: Settings, isRequest: bool, turns: nat -> Turn, retry: nat, p: Progress)
    requires Sound(s) && retry <= s.maxRetransmit && |p.limits| == retry
    requires Fruitless(s, isRequest, turns, p.limits) && p.sends == 1 + Resends(s, turns, p.limits)
    ensures var (end, q) := OneTurn(s, isRequest, turns(retry), retry, p);
            && |q.limits| == retry + 1 && q.sends == 1 + Resends(s, turns, q.limits)
            && (end.None? ==> Fruitless(s, isRequest, turns, q.limits))
            && (end.Some? ==> Explained(s, isRequest, turns, Report(end.value, q)))
            && (end.None? && retry == s.maxRetransmit ==> Explained(s, isRequest, turns, Report(TimedOut, q)))
  {
    hide Resends, MaxWait, Sum, Expiry;
    OneMoreTurn(s, turns, p.limits, Limit(s, retry, p));
  }

  lemma {:induction false} LoopIsExplained(s: Settings, isRequest: bool, turns: nat -> Turn, retry: nat, p: Progress)
    requires Sound(s) && retry <= s.maxRetransmit && |p.limits| == retry
    requires Fruitless(s, isRequest, turns, p.limits) && p.sends == 1 + Resends(s, turns, p.limits)
    ensures Explained(s, isRequest, turns, Loop(s, isRequest, turns, retry, p))
    decreases s.maxRetransmit - retry
  {
    hide Resends, OneTurn, Explained, Fruitless;
    EndIsExplained(s, isRequest, turns, retry, p);
    var (end, q) := OneTurn(s, isRequest, turns(retry), retry, p);
    if retry < s.maxRetransmit && end.None? {
      LoopIsExplained(s, isRequest, turns, retry + 1, q);
    }
  }

  /**
   * The sender returns the first decisive message that arrives within its turn's limit, gives up on
   * the first resend it cannot write, and times out exactly if all MAX_RETRANSMIT + 1 turns pass
   * without either. Each turn but the last that brings nothing costs one transmission.
   */
  lemma EveryRunIsExplained(s: Settings, isRequest: bool, initial: real, turns: nat -> Turn)
    requires Sound(s)
    ensures Explained(s, isRequest, turns, Await(s, isRequest, initial, turns))
  {
    LoopIsExplained(s, isRequest, turns, 0, Start(initial));
  }

  /** A first message in time after silent turns is returned, unless it is an empty acknowledgement of a request. */
  lemma {:induction false} FirstArrivalEnds(s: Settings, isRequest: bool, turns: nat -> Turn, retry: nat, i: nat, p: Progress)
    requires retry <= i < s.maxRetransmit && 0.0 <= p.timeout
    requires forall j | retry <= j < i :: turns(j).arrival == None && turns(j).writeOk
    requires turns(i).arrival.Some? && turns(i).arrival.value.after <= Doubled(p.timeout, i - retry)
    requires isRequest ==> turns(i).arrival.value.rsp.code != 0
    ensures var r := Loop(s, isRequest, turns, retry, p);
            r.outcome == Answered(turns(i).arrival.value.rsp) && r.end.sends == p.sends + (i - retry)
    decreases i - retry
  {
    hide MaxWait, Sum;
    if retry < i {
      DoubledOneMore(p.timeout, i - retry);
      FirstArrivalEnds(s, isRequest, turns, retry + 1, i, Resent(Waited(p, p.timeout, p.timeout)));
    }
  }

  lemma {:induction false} DoubledOneMore(x: real, n: nat)
    requires n > 0
    ensures Doubled(2.0 * x, n - 1) == Doubled(x, n)
  {
    if n > 1 { DoubledOneMore(x, n - 1); }
  }

  /**
   * Over every run: if the first turns bring nothing and turn `i`, before the last, brings a
   * message within the first timeout doubled `i` times, that message is returned after `i` + 1
   * transmissions. For a message that is not a request an empty acknowledgement will do.
   */
  lemma FirstMessageIsReturned(s: Settings, isRequest: bool, initial: real, turns: nat -> Turn, i: nat)
    requires Sound(s) && Jittered(s, initial) && i < s.maxRetransmit
    requires forall j | 0 <= j < i :: turns(j).arrival == None && turns(j).writeOk
    requires turns(i).arrival.Some? && turns(i).arrival.value.after <= Doubled(initial, i)
    requires isRequest ==> turns(i).arrival.value.rsp.code != 0
    ensures var r := Await(s, isRequest, initial, turns);
            r.outcome == Answered(turns(i).arrival.value.rsp) && r.end.sends == i + 1
  {
    FirstArrivalEnds(s, isRequest, turns, 0, i, Start(initial));
  }

  // ----- Where the code departs from the standard -----

  /** An empty acknowledgement of a request, in time for its turn. */
  predicate DelayedAck(turn: Turn, limit: real) {
    InTime(turn, limit) && turn.arrival.value.rsp.code == CODE_EMPTY
  }

  lemma {:induction false} LastLimit(s: Settings, isRequest: bool, turns: nat -> Turn, retry: nat, p: Progress)
    requires Sound(s) && retry <= s.maxRetransmit && |p.limits| == |p.waits| == retry
    ensures var r := Loop(s, isRequest, turns, retry, p);
            r.outcome == TimedOut ==>
              var n := s.maxRetransmit;
              && |r.end.limits| == |r.end.waits| == n + 1
              && r.end.limits[n] == MaxWait(s) - Sum(r.end.waits[..n])
              && r.end.waits[n] == if InTime(turns(n), r.end.limits[n]) then turns(n).arrival.value.after else Expiry(r.end.limits[n])
    decreases s.maxRetransmit - retry
  {
    hide MaxWait, Sum;
    var limit, turn := Limit(s, retry, p), turns(retry);
    var q := Waited(p, limit, if InTime(turn, limit) then turn.arrival.value.after else Expiry(limit));
    assert q.waits[..|q.waits| - 1] == p.waits;
    if retry < s.maxRetransmit && !Decisive(isRequest, turn, limit) && !ResendFails(s, retry, turn, limit) {
      LastLimit(s, isRequest, turns, retry + 1, if InTime(turn, limit) then q else Resent(q));
    }
  }

  /**
   * A run that times out has waited MAX_TRANSMIT_WAIT in full exactly if its last turn did not
   * bring a delayed acknowledgement before its limit: that acknowledgement ends the wait at once.
   */
  lemma TimeoutIsFullUnlessAcknowledged(s: Settings, isRequest: bool, initial: real, turns: nat -> Turn)
    requires Sound(s) && Jittered(s, initial) && Await(s, isRequest, initial, turns).outcome == TimedOut
    ensures var end := Await(s, isRequest, initial, turns).end;
            var n := s.maxRetransmit;
            && |end.limits| == n + 1
            && (Sum(end.waits) < MaxWait(s) <==> DelayedAck(turns(n), end.limits[n]) && turns(n).arrival.value.after < end.limits[n])
  {
    var end := Await(s, isRequest, initial, turns).end;
    LastLimit(s, isRequest, turns, 0, Start(initial));
    EveryRunIsBounded(s, isRequest, initial, turns);
    EveryRunIsExplained(s, isRequest, initial, turns);
    SumOneMore(end.waits[..s.maxRetransmit], end.waits[s.maxRetransmit]);
    assert end.waits == end.waits[..s.maxRetransmit] + [end.waits[s.maxRetransmit]];
  }

  /** Some turn after turn `i` ended in a resend. */
  ghost predicate ResentAfter(s: Settings, turns: nat -> Turn, limits: seq<real>, i: nat) {
    exists j :: i < j < |limits| && j < s.maxRetransmit && !InTime(turns(j), limits[j])
  }

  lemma {:induction false} ResendsAfter(s: Settings, turns: nat -> Turn, limits: seq<real>, i: nat)
    requires i < |limits|
    ensures Resends(s, turns, limits) >= Resends(s, turns, limits[..i + 1])
    ensures Resends(s, turns, limits) > Resends(s, turns, limits[..i + 1]) <==> ResentAfter(s, turns, limits, i)
    decreases |limits|
  {
    var n := |limits| - 1;
    if i == n {
      assert limits[..i + 1] == limits;
    } else {
      var init := limits[..n];
      assert init[..i + 1] == limits[..i + 1];
      ResendsAfter(s, turns, init, i);
      assert forall j :: 0 <= j < n ==> init[j] == limits[j];
      if ResentAfter(s, turns, init, i) {
        var j :| i < j < |init| && j < s.maxRetransmit && !InTime(turns(j), init[j]);
        assert !InTime(turns(j), limits[j]);
      }
    }
  }

  /**
   * Exactly when an acknowledged request is sent again: the acknowledgement in turn `i` uses up
   * its turn and does not end the exchange, and a transmission follows it if and only if some
   * later turn but the last brings nothing in time.
   */
  lemma AcknowledgedRequestIsResent(s: Settings, initial: real, turns: nat -> Turn, i: nat)
    requires Sound(s)
    requires i < |Await(s, true, initial, turns).end.limits|
    requires DelayedAck(turns(i), Await(s, true, initial, turns).end.limits[i])
    ensures var end := Await(s, true, initial, turns).end;
            && (i < s.maxRetransmit ==> i + 1 < |end.limits|)
            && (end.sends > 1 + Resends(s, turns, end.limits[..i + 1]) <==> ResentAfter(s, turns, end.limits, i))
  {
    EveryRunIsExplained(s, true, initial, turns);
    ResendsAfter(s, turns, Await(s, true, initial, turns).end.limits, i);
    hide Resends, Await, ResentAfter;
  }

  /** Without retransmissions the longest wait is zero: only a reply already in the mailbox is returned. */
  lemma WithoutRetransmissionsNoWait(s: Settings, isRequest: bool, initial: real, turns: nat -> Turn)
    requires s.maxRetransmit == -1
    ensures var r := Await(s, isRequest, initial, turns);
            var first := turns(0).arrival;
            && Sum(r.end.waits) == 0.0 && r.end.sends == 1
            && r.outcome == if first.Some? && first.value.after == 0.0 then Answered(first.value.rsp) else TimedOut
  {
    assert MaxWait(s) == 0.0;
    SumOneMore([], 0.0);
  }
}
