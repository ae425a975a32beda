/** token_bucket/token_bucket.h used by many threads: every load and every
    compare-exchange of the shared number is one step, in any interleaving. */
module TokenBucketRuns {
  import opened TokenBucket

  /** One call with its own clock reading, which need not be in order with others. */
  datatype Call = Consume(n: real, now: real) | GiveBack(n: real)

  /** Where a thread stands: before the test of consume, at the head of the
      exchange loop, or holding a value for the exchange to expect. */
  datatype Pc = Idle | Testing(call: Call) | Reading(call: Call) | Swapping(call: Call, seen: real)

  /** A finished call, as it is seen from outside. */
  datatype Event = Event(call: Call, granted: bool)

  datatype Machine = Machine(rate: real, burst: real, zero: real, threads: map<nat, Pc>, log: seq<Event>)

  /** What the scheduler may do. `fails` is a compare_exchange_weak that fails
      although the value is the expected one. */
  datatype Move = Begin(thread: nat, call: Call) | Run(thread: nat, fails: bool)

  ghost predicate Legal(m: Machine) { m.rate > 0.0 && m.burst > 0.0 }

  function PcOf(m: Machine, t: nat): Pc {
    if t in m.threads then m.threads[t] else Idle
  }

  function Goto(m: Machine, t: nat, pc: Pc): Machine {
    m.(threads := m.threads[t := pc])
  }

  function Finish(m: Machine, t: nat, call: Call, granted: bool): Machine {
    m.(threads := m.threads[t := Idle], log := m.log + [Event(call, granted)])
  }

  /** The value that a thread wants to store once it has read `seen`. */
  function Wanted(m: Machine, call: Call, seen: real): real
    requires m.rate > 0.0
  {
    match call
    case Consume(n, now) => now - (Tokens(seen, m.rate, m.burst, now) - n) / m.rate
    case GiveBack(n) => seen - n / m.rate
  }

  /** One step of one thread. Requests are positive. */
  function Next(m: Machine, move: Move): Machine
    requires m.rate > 0.0
  {
    match move
    case Begin(t, call) =>
      if PcOf(m, t) != Idle || call.n <= 0.0 then m
      else if call.Consume? then Goto(m, t, Testing(call)) else Goto(m, t, Reading(call))
    case Run(t, fails) =>
      match PcOf(m, t)
      case Idle => m
      case Testing(call) =>
        if call.Consume? && Tokens(m.zero, m.rate, m.burst, call.now) < 0.0 then Finish(m, t, call, false)
        else Goto(m, t, Reading(call))
      case Reading(call) =>
        if call.Consume? && Tokens(m.zero, m.rate, m.burst, call.now) < call.n then Finish(m, t, call, false)
        else Goto(m, t, Swapping(call, m.zero))
      case Swapping(call, seen) =>
        if !fails && m.zero == seen then Finish(m.(zero := Wanted(m, call, seen)), t, call, true)
        else if call.Consume? then Goto(m, t, Reading(call))
        else Goto(m, t, Swapping(call, m.zero))
  }

  function Schedule(m: Machine, moves: seq<Move>): (r: Machine)
    requires m.rate > 0.0
    ensures r.rate == m.rate && r.burst == m.burst
    decreases |moves|
  {
    if moves == [] then m else Next(Schedule(m, moves[..|moves| - 1]), moves[|moves| - 1])
  }

  // ---------------------------------------------------------------- linearization

  /** The reference: a call done in one piece on a bucket of one's own. */
  function Atomic(rate: real, burst: real, zero: real, call: Call): (real, bool)
    requires rate > 0.0
  {
    match call
    case GiveBack(n) => (zero - n / rate, true)
    case Consume(n, now) =>
      if Tokens(zero, rate, burst, now) < n then (zero, false) else (Spent(zero, rate, burst, now, n), true)
  }

  /** The bucket after the logged calls were done one by one, in log order. */
  function Replay(rate: real, burst: real, zero: real, log: seq<Event>): real
    requires rate > 0.0
    decreases |log|
  {
    if log == [] then zero
    else Atomic(rate, burst, Replay(rate, burst, zero, log[..|log| - 1]), log[|log| - 1].call).0
  }

  /** Call `k` of the log was answered as the reference answers it. */
  ghost predicate AnswersRight(rate: real, burst: real, zero: real, log: seq<Event>, k: nat)
    requires rate > 0.0
  {
    k < |log| && log[k].call.n > 0.0
    && log[k].granted == Atomic(rate, burst, Replay(rate, burst, zero, log[..k]), log[k].call).1
  }

  ghost predicate Linear(m: Machine, zero: real)
    requires m.rate > 0.0
  {
    && m.zero == Replay(m.rate, m.burst, zero, m.log)
    && forall k {:trigger AnswersRight(m.rate, m.burst, zero, m.log, k)} :: 0 <= k < |m.log| ==>
         AnswersRight(m.rate, m.burst, zero, m.log, k)
  }

  /** A thread that is at the exchange saw enough tokens in the value it expects. */
  ghost predicate Honest(m: Machine, t: nat) {
    match PcOf(m, t)
    case Idle => true
    case Testing(call) => call.Consume? && call.n > 0.0
    case Reading(call) => call.n > 0.0
    case Swapping(call, seen) => call.n > 0.0 && (call.Consume? ==> Tokens(seen, m.rate, m.burst, call.now) >= call.n)
  }

  ghost predicate Fine(m: Machine, zero: real) {
    Legal(m) && Linear(m, zero) && forall t: nat {:trigger Honest(m, t)} :: Honest(m, t)
  }

  lemma Logged(m: Machine, zero: real, e: Event, z: real, threads: map<nat, Pc>)
    requires Legal(m) && Linear(m, zero) && e.call.n > 0.0 && (z, e.granted) == Atomic(m.rate, m.burst, m.zero, e.call)
    ensures Linear(m.(zero := z, threads := threads, log := m.log + [e]), zero)
  {
    hide Atomic;
    var log := m.log + [e];
    assert log[..|m.log|] == m.log;
    forall k | 0 <= k < |log| ensures AnswersRight(m.rate, m.burst, zero, log, k) {
      if k < |m.log| {
        assert AnswersRight(m.rate, m.burst, zero, m.log, k);
        assert log[..k] == m.log[..k];
      }
    }
  }

  lemma NextIsFine(m: Machine, zero: real, move: Move)
    requires Fine(m, zero)
    ensures Fine(Next(m, move), zero)
  {
    hide Tokens, Spent, Linear, Replay;
    var n := Next(m, move);
    NextIsLinear(m, zero, move);
    assert Honest(m, move.thread);
    forall t: nat ensures Honest(n, t) { assert Honest(m, t); }
  }

  lemma NextIsLinear(m: Machine, zero: real, move: Move)
    requires Fine(m, zero)
    ensures Linear(Next(m, move), zero)
  {
    hide Replay;
    assert Honest(m, move.thread);
    if move.Run? {
      match PcOf(m, move.thread)
      case Idle =>
      case Testing(call) =>
        if Tokens(m.zero, m.rate, m.burst, call.now) < 0.0 {
          Logged(m, zero, Event(call, false), m.zero, m.threads[move.thread := Idle]);
        }
      case Reading(call) =>
        if call.Consume? && Tokens(m.zero, m.rate, m.burst, call.now) < call.n {
          Logged(m, zero, Event(call, false), m.zero, m.threads[move.thread := Idle]);
        }
      case Swapping(call, seen) =>
        if !move.fails && m.zero == seen {
          if call.Consume? { SpentIs(seen, m.rate, m.burst, call.now, call.n); }
          Logged(m, zero, Event(call, true), Wanted(m, call, seen), m.threads[move.thread := Idle]);
        }
    }
  }

  ghost predicate Fresh(m: Machine) {
    Legal(m) && m.threads == map[] && m.log == []
  }

  /** Every interleaving does what some one-at-a-time order of its calls does: the
      log is that order, with the same answers and the same bucket at its end. */
  lemma {:induction false} RunsAreLinear(m: Machine, moves: seq<Move>)
    requires Fresh(m)
    ensures Fine(Schedule(m, moves), m.zero)
    decreases |moves|
  {
    if moves != [] {
      RunsAreLinear(m, moves[..|moves| - 1]);
      NextIsFine(Schedule(m, moves[..|moves| - 1]), m.zero, moves[|moves| - 1]);
    }
  }

  /** What one logged call did to the bucket, in tokens at any time `at`: a consume was
      granted exactly when the bucket had as many, and then has so many fewer; a
      return adds its tokens, before the cut at the burst size. */
  ghost predicate TokensMoved(rate: real, burst: real, was: real, next: real, e: Event, at: real) {
    match e.call
    case Consume(n, now) =>
      var had := if (now - was) * rate < burst then (now - was) * rate else burst;
      && (e.granted <==> n <= had)
      && (if e.granted then (now - next) * rate == had - n else next == was)
    case GiveBack(n) => e.granted && (at - next) * rate == (at - was) * rate + n
  }

  lemma AtomicMoves(rate: real, burst: real, zero: real, call: Call, at: real)
    requires rate > 0.0
    ensures var (next, granted) := Atomic(rate, burst, zero, call);
      TokensMoved(rate, burst, zero, next, Event(call, granted), at)
  {
    hide Spent;
    match call
    case Consume(n, now) => TokensAfter(zero, rate, burst, now, n);
    case GiveBack(n) => Returns(zero, n, rate, at);
  }

  lemma LogMeans(m: Machine, moves: seq<Move>, k: nat, at: real)
    requires Fresh(m) && k < |Schedule(m, moves).log|
    ensures var log := Schedule(m, moves).log;
      TokensMoved(m.rate, m.burst, Replay(m.rate, m.burst, m.zero, log[..k]),
                  Replay(m.rate, m.burst, m.zero, log[..k + 1]), log[k], at)
  {
    hide Schedule, Next, Atomic, TokensMoved, Replay;
    RunsAreLinear(m, moves);
    var log := Schedule(m, moves).log;
    assert AnswersRight(m.rate, m.burst, m.zero, log, k);
    ReplayNext(m.rate, m.burst, m.zero, log, k);
    AtomicMoves(m.rate, m.burst, Replay(m.rate, m.burst, m.zero, log[..k]), log[k].call, at);
  }

  lemma ReplayNext(rate: real, burst: real, zero: real, log: seq<Event>, k: nat)
    requires rate > 0.0 && k < |log|
    ensures Replay(rate, burst, zero, log[..k + 1]) ==
      Atomic(rate, burst, Replay(rate, burst, zero, log[..k]), log[k].call).0
  {
    hide Atomic;
    assert log[..k + 1][..k] == log[..k];
  }

  lemma Returns(z: real, n: real, rate: real, now: real)
    requires rate > 0.0
    ensures (now - (z - n / rate)) * rate == (now - z) * rate + n
  {
    DivMul(n, rate);
  }

  // ---------------------------------------------------------------- progress

  /** The call that a thread is in. */
  function CallOf(pc: Pc): Call
    requires !pc.Idle?
  {
    match pc case Testing(c) => c case Reading(c) => c case Swapping(c, _) => c
  }

  /** Three undisturbed steps finish a call from wherever the thread stands. */
  lemma ThreeSteps(m: Machine, t: nat)
    requires Legal(m) && Honest(m, t) && !PcOf(m, t).Idle?
    ensures var r := Next(Next(Next(m, Run(t, false)), Run(t, false)), Run(t, false));
      var call := CallOf(PcOf(m, t));
      var (zero, granted) := Atomic(m.rate, m.burst, m.zero, call);
      && r.log == m.log + [Event(call, granted)] && r.zero == zero
      && PcOf(r, t).Idle? && forall u :: u != t ==> PcOf(r, u) == PcOf(m, u)
  {
    hide Tokens, Spent;
    var call := CallOf(PcOf(m, t));
    if call.Consume? { SpentIs(m.zero, m.rate, m.burst, call.now, call.n); }
    var m1 := Next(m, Run(t, false));
    var m2 := Next(m1, Run(t, false));
    if !PcOf(m1, t).Idle? {
      assert m1.zero == m.zero && m1.log == m.log;
      if !PcOf(m2, t).Idle? { assert PcOf(m2, t) == Swapping(call, m.zero); }
    }
  }

  /** In every reached machine a thread that is in a call, and then is not disturbed,
      finishes it in three steps, with the answer that the tokens of that moment give. */
  lemma NoThreadIsStuck(m: Machine, moves: seq<Move>, t: nat, at: real)
    requires Fresh(m) && !PcOf(Schedule(m, moves), t).Idle?
    ensures var b := Schedule(m, moves);
      var r := Schedule(b, [Run(t, false), Run(t, false), Run(t, false)]);
      && PcOf(r, t).Idle? && (forall u :: u != t ==> PcOf(r, u) == PcOf(b, u))
      && |r.log| == |b.log| + 1 && r.log[..|b.log|] == b.log
      && r.log[|b.log|].call == CallOf(PcOf(b, t))
      && TokensMoved(m.rate, m.burst, b.zero, r.zero, r.log[|b.log|], at)
  {
    hide Next, Spent, Schedule, PcOf, TokensMoved, Linear, Atomic;
    RunsAreLinear(m, moves);
    var b := Schedule(m, moves);
    assert Honest(b, t);
    ThreeMoves(b, Run(t, false), Run(t, false), Run(t, false));
    ThreeSteps(b, t);
    AtomicMoves(m.rate, m.burst, b.zero, CallOf(PcOf(b, t)), at);
  }

  /** A thread that nobody disturbs finishes its call, from whatever state of the
      bucket: a consume is granted exactly when the tokens are there. */
  lemma AloneConsumes(m: Machine, t: nat, n: real, now: real)
    requires Legal(m) && PcOf(m, t).Idle? && n > 0.0
    ensures var r := Schedule(m, [Begin(t, Consume(n, now)), Run(t, false), Run(t, false), Run(t, false)]);
      var e := Event(Consume(n, now), n <= (now - m.zero) * m.rate && n <= m.burst);
      && r.log == m.log + [e] && TokensMoved(m.rate, m.burst, m.zero, r.zero, e, now)
      && PcOf(r, t).Idle? && forall u :: u != t ==> PcOf(r, u) == PcOf(m, u)
  {
    hide Next, Spent, Schedule, TokensMoved;
    Alone(m, t, Consume(n, now), now);
  }

  /** A return always succeeds. */
  lemma AloneReturns(m: Machine, t: nat, n: real, at: real)
    requires Legal(m) && PcOf(m, t).Idle? && n > 0.0
    ensures var r := Schedule(m, [Begin(t, GiveBack(n)), Run(t, false), Run(t, false), Run(t, false)]);
      && r.log == m.log + [Event(GiveBack(n), true)] && r.zero == m.zero - n / m.rate
      && (at - r.zero) * m.rate == (at - m.zero) * m.rate + n
      && PcOf(r, t).Idle? && forall u :: u != t ==> PcOf(r, u) == PcOf(m, u)
  {
    hide Next, Schedule;
    Alone(m, t, GiveBack(n), at);
  }

  lemma Alone(m: Machine, t: nat, call: Call, at: real)
    requires Legal(m) && PcOf(m, t).Idle? && call.n > 0.0
    ensures var r := Schedule(m, [Begin(t, call), Run(t, false), Run(t, false), Run(t, false)]);
      var (zero, granted) := Atomic(m.rate, m.burst, m.zero, call);
      && r.log == m.log + [Event(call, granted)] && r.zero == zero
      && TokensMoved(m.rate, m.burst, m.zero, zero, Event(call, granted), at)
      && PcOf(r, t).Idle? && forall u :: u != t ==> PcOf(r, u) == PcOf(m, u)
  {
    hide Schedule, TokensMoved, Tokens, Spent, Atomic;
    FourMoves(m, Begin(t, call), Run(t, false), Run(t, false), Run(t, false));
    var m1 := Next(m, Begin(t, call));
    assert Honest(m1, t) && m1.zero == m.zero && m1.log == m.log;
    assert !PcOf(m1, t).Idle? && CallOf(PcOf(m1, t)) == call;
    BeginOthers(m, t, call);
    ThreeSteps(m1, t);
    AtomicMoves(m.rate, m.burst, m.zero, call, at);
  }

  lemma BeginOthers(m: Machine, t: nat, call: Call)
    requires Legal(m)
    ensures forall u :: u != t ==> PcOf(Next(m, Begin(t, call)), u) == PcOf(m, u)
  { }

  /** A thread leaves a call only by logging it, and stays in it until then. */
  lemma CallsAreLogged(m: Machine, t: nat, fails: bool)
    requires Legal(m) && !PcOf(m, t).Idle?
    ensures var (n, call) := (Next(m, Run(t, fails)), CallOf(PcOf(m, t)));
      if PcOf(n, t).Idle? then |n.log| == |m.log| + 1 && n.log[..|m.log|] == m.log && n.log[|m.log|].call == call
      else n.log == m.log && n.zero == m.zero && CallOf(PcOf(n, t)) == call
  {
    hide Tokens;
  }

  lemma OneMove(m: Machine, a: Move)
    requires m.rate > 0.0
    ensures Schedule(m, [a]) == Next(m, a)
  {
    hide Next;
    assert [a][..0] == [];
    assert Schedule(m, []) == m;
  }

  lemma LastMove(m: Machine, moves: seq<Move>, a: Move)
    requires m.rate > 0.0
    ensures Schedule(m, moves + [a]) == Next(Schedule(m, moves), a)
  {
    hide Next;
    assert (moves + [a])[..|moves|] == moves;
  }

  lemma ThreeMoves(m: Machine, a: Move, b: Move, c: Move)
    requires m.rate > 0.0
    ensures Schedule(m, [a, b, c]) == Next(Next(Next(m, a), b), c)
  {
    hide Next, Schedule;
    OneMove(m, a);
    assert [a, b, c] == [a, b] + [c] && [a, b] == [a] + [b];
    LastMove(m, [a], b);
    LastMove(m, [a, b], c);
  }

  lemma FourMoves(m: Machine, a: Move, b: Move, c: Move, d: Move)
    requires m.rate > 0.0
    ensures Schedule(m, [a, b, c, d]) == Next(Next(Next(Next(m, a), b), c), d)
  {
    hide Next, Schedule;
    ThreeMoves(m, a, b, c);
    assert [a, b, c, d] == [a, b, c] + [d];
    LastMove(m, [a, b, c], d);
  }

  /** In any reached machine an exchange that finds the value it expects, and does not
      fail spuriously, finishes the call, grants it, and had the tokens for it. */
  lemma ExchangeFinishes(m: Machine, moves: seq<Move>, t: nat)
    requires Fresh(m)
    requires var b := Schedule(m, moves); PcOf(b, t).Swapping? && PcOf(b, t).seen == b.zero
    ensures var b := Schedule(m, moves);
      var (call, c) := (PcOf(b, t).call, Next(b, Run(t, false)));
      && c.log == b.log + [Event(call, true)] && PcOf(c, t).Idle?
      && (match call
          case Consume(n, now) =>
            var had := if (now - b.zero) * m.rate < m.burst then (now - b.zero) * m.rate else m.burst;
            n <= had && (now - c.zero) * m.rate == had - n
          case GiveBack(n) => c.zero == b.zero - n / m.rate)
  {
    hide Schedule, Linear;
    RunsAreLinear(m, moves);
    var b := Schedule(m, moves);
    assert Honest(b, t);
    match PcOf(b, t).call
    case Consume(n, now) =>
      SpentIs(b.zero, m.rate, m.burst, now, n);
      TokensAfter(b.zero, m.rate, m.burst, now, n);
    case GiveBack(n) =>
  }

  ghost predicate GrantedSince(log: seq<Event>, from: nat) {
    exists k {:trigger log[k]} :: from <= k < |log| && log[k].granted
  }

  /** What one step of another thread leaves: the log grows, and the shared number is
      kept unless a call was granted. */
  lemma StepOfOther(m: Machine, move: Move, t: nat)
    requires m.rate > 0.0 && move.thread != t
    ensures var n := Next(m, move);
      && m.log <= n.log && PcOf(n, t) == PcOf(m, t)
      && (n.zero == m.zero || GrantedSince(n.log, |m.log|))
  {
    hide Tokens;
    var n := Next(m, move);
    if n.zero != m.zero { assert n.log[|m.log|].granted; }
  }

  lemma {:induction false} StepsOfOthers(m: Machine, moves: seq<Move>, i: nat, t: nat)
    requires m.rate > 0.0 && i <= |moves| && (forall k :: i <= k < |moves| ==> moves[k].thread != t)
    ensures var (a, b) := (Schedule(m, moves[..i]), Schedule(m, moves));
      && a.log <= b.log && PcOf(b, t) == PcOf(a, t)
      && (b.zero == a.zero || GrantedSince(b.log, |a.log|))
    decreases |moves|
  {
    hide Next, PcOf;
    if i == |moves| {
      assert moves[..i] == moves;
    } else {
      var n := |moves| - 1;
      var a, c, b := Schedule(m, moves[..i]), Schedule(m, moves[..n]), Schedule(m, moves);
      assert moves[..n][..i] == moves[..i];
      StepsOfOthers(m, moves[..n], i, t);
      StepOfOther(c, moves[n], t);
      if GrantedSince(c.log, |a.log|) {
        var k :| |a.log| <= k < |c.log| && c.log[k].granted;
        assert b.log[k].granted;
      } else if GrantedSince(b.log, |c.log|) {
        var k :| |c.log| <= k < |b.log| && b.log[k].granted;
        assert b.log[k].granted;
      }
    }
  }

  /** The exchange loops are lock-free: from a thread's read of the shared number, in
      step `i`, to its next step, either some call is granted or this step finishes
      the thread's own call. */
  lemma SomeCallFinishes(m: Machine, moves: seq<Move>, i: nat, t: nat)
    requires Legal(m) && i < |moves| && moves[i].Run? && moves[i].thread == t
    requires PcOf(Schedule(m, moves[..i + 1]), t).Swapping?
    requires forall k :: i < k < |moves| ==> moves[k].thread != t
    ensures var (a, b) := (Schedule(m, moves[..i + 1]), Schedule(m, moves));
      var c := Next(b, Run(t, false));
      && a.log <= b.log
      && (GrantedSince(b.log, |a.log|) || (c.log == b.log + [Event(PcOf(a, t).call, true)] && PcOf(c, t).Idle?))
  {
    hide GrantedSince, Next, Schedule, PcOf;
    assert moves[..i + 1] == moves[..i] + [moves[i]];
    LastMove(m, moves[..i], moves[i]);
    ReadIsCurrent(Schedule(m, moves[..i]), moves[i]);
    StepsOfOthers(m, moves, i + 1, t);
    var b := Schedule(m, moves);
    if PcOf(b, t).seen == b.zero { SwapFinishes(b, t); }
  }

  lemma SwapFinishes(m: Machine, t: nat)
    requires m.rate > 0.0 && PcOf(m, t).Swapping? && PcOf(m, t).seen == m.zero
    ensures var n := Next(m, Run(t, false));
      n.log == m.log + [Event(PcOf(m, t).call, true)] && PcOf(n, t).Idle?
  {
    hide Tokens;
  }

  lemma ReadIsCurrent(m: Machine, move: Move)
    requires m.rate > 0.0 && move.Run?
    ensures var n := Next(m, move);
      PcOf(n, move.thread).Swapping? ==> PcOf(n, move.thread).seen == n.zero && n.log == m.log
  {
    hide Tokens;
  }

  // ---------------------------------------------------------------- the rate bound

  /** Tokens handed out by a stretch of the log. */
  function Granted(log: seq<Event>): real
    decreases |log|
  {
    if log == [] then 0.0
    else
      var e := log[|log| - 1];
      Granted(log[..|log| - 1]) + if e.call.Consume? && e.granted then e.call.n else 0.0
  }

  /** Tokens given back by a stretch of the log. */
  function Returned(log: seq<Event>): real
    decreases |log|
  {
    if log == [] then 0.0
    else
      var e := log[|log| - 1];
      Returned(log[..|log| - 1]) + if e.call.GiveBack? then e.call.n else 0.0
  }

  /** Each logged call moves the bucket by at least what it takes. */
  lemma {:induction false} ReplayMoves(rate: real, burst: real, zero: real, log: seq<Event>, i: nat, j: nat)
    requires rate > 0.0 && i <= j <= |log|
    requires forall k {:trigger AnswersRight(rate, burst, zero, log, k)} :: 0 <= k < |log| ==>
      AnswersRight(rate, burst, zero, log, k)
    ensures Replay(rate, burst, zero, log[..j]) >= Replay(rate, burst, zero,
      log[..i]) + (Granted(log[i..j]) - Returned(log[i..j])) / rate
    decreases j - i
  {
    if i < j {
      ReplayMoves(rate, burst, zero, log, i, j - 1);
      assert AnswersRight(rate, burst, zero, log, j - 1);
      assert log[..j][..j - 1] == log[..j - 1] && log[i..j][..j - 1 - i] == log[i..j - 1];
      var e := log[j - 1];
      var d := Granted(log[i..j - 1]) - Returned(log[i..j - 1]);
      DivSplit(d, e.call.n, rate);
    } else {
      assert log[i..j] == [];
    }
  }

  /** The rate bound, for any schedule and any clocks: from one granted consume `i`
      to a later one `j`, no more tokens are handed out than one burst, the rate
      over the time between their clock readings, and what was given back. */
  lemma RateBound(m: Machine, moves: seq<Move>, i: nat, j: nat)
    requires Fresh(m)
    requires var log := Schedule(m, moves).log;
      i <= j < |log| && log[i].call.Consume? && log[i].granted && log[j].call.Consume? && log[j].granted
    ensures var log := Schedule(m, moves).log;
      Granted(log[i..j + 1]) <= m.burst + m.rate * (log[j].call.now - log[i].call.now) + Returned(log[i..j + 1])
  {
    hide Replay, Granted, Returned, AnswersRight, Next, Schedule;
    RunsAreLinear(m, moves);
    LogBound(m.rate, m.burst, m.zero, Schedule(m, moves).log, i, j);
  }

  lemma LogBound(rate: real, burst: real, zero: real, log: seq<Event>, i: nat, j: nat)
    requires rate > 0.0 && i <= j < |log|
    requires log[i].call.Consume? && log[i].granted && log[j].call.Consume? && log[j].granted
    requires forall k {:trigger AnswersRight(rate, burst, zero, log, k)} :: 0 <= k < |log| ==>
      AnswersRight(rate, burst, zero, log, k)
    ensures Granted(log[i..j + 1]) <= burst + rate * (log[j].call.now - log[i].call.now) + Returned(log[i..j + 1])
  {
    hide Replay, Granted, Returned, AnswersRight;
    assert AnswersRight(rate, burst, zero, log, i) && AnswersRight(rate, burst, zero, log, j);
    GrantedStep(rate, burst, zero, log, i);
    GrantedStep(rate, burst, zero, log, j);
    ReplayMoves(rate, burst, zero, log, i + 1, j + 1);
    SumSplit(log, i, j + 1);
    var n, rest := log[i].call.n, Granted(log[i + 1..j + 1]) - Returned(log[i + 1..j + 1]);
    var zi, zj := Replay(rate, burst, zero, log[..i + 1]), Replay(rate, burst, zero, log[..j + 1]);
    ChainBound(rest, n, rate, burst, log[i].call.now, zi, zj, log[j].call.now);
    assert Granted(log[i..j + 1]) - Returned(log[i..j + 1]) == n + rest;
  }

  lemma ChainBound(rest: real, n: real, rate: real, burst: real, now: real, zi: real, zj: real, end: real)
    requires rate > 0.0 && zi >= now - burst / rate + n / rate && zj >= zi + rest / rate && end >= zj
    ensures n + rest <= burst + rate * (end - now)
  {
    DivSplit(n, rest, rate);
    BoundFromZero(n + rest, rate, burst, now, zj, end);
  }

  /** A granted consume at place `k`: at least its tokens above the burst floor,
      and not into debt. */
  lemma GrantedStep(rate: real, burst: real, zero: real, log: seq<Event>, k: nat)
    requires rate > 0.0 && k < |log| && AnswersRight(rate, burst, zero, log, k) && log[k].call.Consume?
    requires log[k].granted
    ensures var z := Replay(rate, burst, zero, log[..k + 1]);
      log[k].call.now - burst / rate + log[k].call.n / rate <= z <= log[k].call.now
  {
    assert log[..k + 1][..k] == log[..k];
    var z := Replay(rate, burst, zero, log[..k]);
    TokensAfter(z, rate, burst, log[k].call.now, log[k].call.n);
    assert 0.0 * rate == 0.0;
    MulLess(log[k].call.now - Spent(z, rate, burst, log[k].call.now, log[k].call.n), 0.0, rate);
  }

  lemma {:induction false} SumSplit(log: seq<Event>, i: nat, j: nat)
    requires i < j <= |log|
    ensures Granted(log[i..j]) ==
      (if log[i].call.Consume? && log[i].granted then log[i].call.n else 0.0) + Granted(log[i + 1..j])
    ensures Returned(log[i..j]) == (if log[i].call.GiveBack? then log[i].call.n else 0.0) + Returned(log[i + 1..j])
    decreases j
  {
    assert log[i..j][..j - 1 - i] == log[i..j - 1];
    if i + 1 < j {
      SumSplit(log, i, j - 1);
      assert log[i + 1..j][..j - 2 - i] == log[i + 1..j - 1];
    } else {
      assert log[i..j - 1] == [] && log[i + 1..j] == [];
    }
  }
}
