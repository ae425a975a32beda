/** token_bucket/token_bucket.h used by one thread at a time: a bucket is one
    number, the time at which it was or will be empty. */
module TokenBucket {
  function Min(a: real, b: real): real { if b < a then b else a }

  function Max(a: real, b: real): real { if a < b then b else a }

  /** TokenBucketStorage::available: below zero when the bucket is in debt. */
  function Tokens(zero: real, rate: real, burst: real, now: real): real {
    Min((now - zero) * rate, burst)
  }

  /** The zero time of a bucket that had `zero` and gave `n` tokens away at `now`:
      a full bucket forgets how long it has been full. */
  function Spent(zero: real, rate: real, burst: real, now: real, n: real): real
    requires rate > 0.0
  {
    Max(zero, now - burst / rate) + n / rate
  }

  // ---------------------------------------------------------------- real arithmetic

  lemma DivMul(x: real, rate: real)
    requires rate > 0.0
    ensures x / rate * rate == x
  { }

  lemma MulLess(x: real, y: real, rate: real)
    requires rate > 0.0
    ensures x * rate < y * rate <==> x < y
  { }

  lemma DivSplit(x: real, y: real, rate: real)
    requires rate > 0.0
    ensures (x - y) / rate == x / rate - y / rate && (x + y) / rate == x / rate + y / rate
  { }

  /** The source's update agrees with the closed form. */
  lemma SpentIs(zero: real, rate: real, burst: real, now: real, n: real)
    requires rate > 0.0
    ensures now - (Tokens(zero, rate, burst, now) - n) / rate == Spent(zero, rate, burst, now, n)
  {
    var t := Tokens(zero, rate, burst, now);
    DivSplit(t, n, rate);
    DivMul(burst, rate);
    MulLess(burst / rate, now - zero, rate);
    DivMul((now - zero) * rate, rate);
    MulDiv(now - zero, rate);
  }

  lemma Returned(x: real, n: real, rate: real)
    requires rate > 0.0
    ensures (x + n / rate) * rate == x * rate + n
  {
    DivMul(n, rate);
  }

  lemma MulDiv(x: real, rate: real)
    requires rate > 0.0
    ensures x * rate / rate == x
  { }

  /** What is left after `n` tokens were given away. */
  lemma TokensAfter(zero: real, rate: real, burst: real, now: real, n: real)
    requires rate > 0.0
    ensures (now - Spent(zero, rate, burst, now, n)) * rate == Tokens(zero, rate, burst, now) - n
  {
    SpentIs(zero, rate, burst, now, n);
    DivMul(Tokens(zero, rate, burst, now) - n, rate);
  }

  // ---------------------------------------------------------------- the bucket

  /** std::optional<double>: refused, or granted after a wait. */
  datatype Nap = TooMany | Wait(seconds: real)

  class Bucket {
    var zeroTime: real
    var rate: real
    var burst: real

    ghost predicate Valid() reads this { rate > 0.0 && burst > 0.0 }

    constructor (genRate: real, burstSize: real, zero: real)
      requires genRate > 0.0 && burstSize > 0.0
      ensures Valid() && zeroTime == zero && rate == genRate && burst == burstSize
    {
      zeroTime, rate, burst := zero, genRate, burstSize;
    }

    /** available: a debt shows as zero. */
    method Available(now: real) returns (t: real)
      requires Valid()
      ensures t == Max(0.0, Tokens(zeroTime, rate, burst, now))
    {
      t := Max(0.0, Tokens(zeroTime, rate, burst, now));
    }

    /** TokenBucketStorage::consume; with one thread its exchange succeeds. */
    method Take(now: real, callback: real -> real) returns (consumed: real)
      requires Valid()
      modifies this`zeroTime
      ensures consumed == callback(Tokens(old(zeroTime), rate, burst, now))
      ensures zeroTime == if consumed == 0.0 then old(zeroTime) else Spent(old(zeroTime), rate, burst, now, consumed)
    {
      hide Spent, Tokens;
      var tokens := Tokens(zeroTime, rate, burst, now);
      consumed := callback(tokens);
      if consumed == 0.0 { return; }
      SpentIs(zeroTime, rate, burst, now, consumed);
      zeroTime := now - (tokens - consumed) / rate;
    }

    /** consume: all of `n` tokens or none. */
    method Consume(n: real, now: real) returns (ok: bool)
      requires Valid()
      modifies this`zeroTime
      ensures var t := Tokens(old(zeroTime), rate, burst, now); ok <==> t >= 0.0 && (n <= t || n == 0.0)
      ensures zeroTime == if ok && n != 0.0 then Spent(old(zeroTime), rate, burst, now, n) else old(zeroTime)
    {
      hide Spent, Tokens;
      if Tokens(zeroTime, rate, burst, now) < 0.0 { return false; }
      var consumed := Take(now, available => if available < n then 0.0 else n);
      ok := consumed == n;
    }

    /** consumeOrDrain: as many of `n` tokens as there are. */
    method ConsumeOrDrain(n: real, now: real) returns (consumed: real)
      requires Valid()
      modifies this`zeroTime
      ensures var t := Tokens(old(zeroTime), rate, burst, now); consumed == if t <= 0.0 then 0.0 else Min(t, n)
      ensures zeroTime == if consumed == 0.0 then old(zeroTime) else Spent(old(zeroTime), rate, burst, now, consumed)
    {
      hide Spent, Tokens;
      if Tokens(zeroTime, rate, burst, now) <= 0.0 { return 0.0; }
      consumed := Take(now, available => Min(available, n));
    }

    /** returnTokens, also with a negative count: at any time `n` tokens more have
        been earned, and a return fills the bucket by `n` up to the burst size. */
    method ReturnTokens(n: real)
      requires Valid()
      modifies this`zeroTime
      ensures zeroTime == old(zeroTime) - n / rate
      ensures forall now :: Tokens(zeroTime, rate, burst, now) == Min((now - old(zeroTime)) * rate + n, burst)
      ensures n >= 0.0 ==>
        forall now :: Tokens(zeroTime, rate, burst, now) == Min(Tokens(old(zeroTime), rate, burst, now) + n, burst)
    {
      zeroTime := zeroTime - n / rate;
      forall now ensures Tokens(zeroTime, rate, burst, now) == Min((now - old(zeroTime)) * rate + n, burst) {
        Returned(now - old(zeroTime), n, rate);
      }
    }

    /** consumeWithBorrowNonBlocking: at most two rounds of its loop move the zero
        time by exactly the tokens asked for, and the answer is the wait until
        they are earned. */
    method ConsumeWithBorrow(n: real, now: real) returns (nap: Nap, ghost rounds: nat)
      requires Valid()
      modifies this`zeroTime
      ensures n > burst ==> nap == TooMany && zeroTime == old(zeroTime)
      ensures n <= 0.0 ==> nap == Wait(0.0) && zeroTime == old(zeroTime)
      ensures 0.0 < n <= burst ==>
        && zeroTime == Spent(old(zeroTime), rate, burst, now, n)
        && nap == Wait(Max(0.0, zeroTime - now))
      ensures rounds <= 2
    {
      rounds := 0;
      if burst < n { return TooMany, rounds; }
      var left := n;
      while left > 0.0
        invariant rounds <= 2
        invariant rounds == 0 ==> left == n && zeroTime == old(zeroTime)
        invariant rounds == 1 ==> BorrowOnce(old(zeroTime), rate, burst, now, n, left, zeroTime)
        invariant rounds == 2 ==> false
        invariant rounds > 0 ==> n > 0.0 && left >= 0.0
        decreases 2 - rounds
      {
        var consumed := ConsumeOrDrain(left, now);
        rounds := rounds + 1;
        if consumed > 0.0 {
          FirstRound(old(zeroTime), rate, burst, now, n);
          left := left - consumed;
        } else {
          SecondRound(old(zeroTime), rate, burst, now, n, left, zeroTime, rounds == 1);
          ReturnTokens(-left);
          var debtPaid := zeroTime + 0.0 / rate;
          return Wait(Max(0.0, debtPaid - now)), rounds;
        }
      }
      if rounds == 1 { BorrowedNothing(old(zeroTime), rate, burst, now, n, zeroTime); }
      nap := Wait(0.0);
    }

    /** setCapacity. */
    method SetCapacity(tokens: real, now: real)
      requires Valid()
      modifies this`zeroTime
      ensures (now - zeroTime) * rate == tokens
      ensures tokens <= burst ==> Tokens(zeroTime, rate, burst, now) == tokens
    {
      zeroTime := now - tokens / rate;
      DivMul(tokens, rate);
    }

    /** reset: the tokens stay, cut at the new burst size; a debt is forgiven. */
    method Reset(genRate: real, burstSize: real, now: real)
      requires Valid() && genRate > 0.0 && burstSize > 0.0
      modifies this
      ensures Valid() && rate == genRate && burst == burstSize
      ensures Tokens(zeroTime, rate, burst, now) ==
        Min(Max(0.0, Tokens(old(zeroTime), old(rate), old(burst), now)), burstSize)
    {
      var availTokens := Available(now);
      rate := genRate;
      burst := burstSize;
      SetCapacity(availTokens, now);
    }
  }

  /** The state between the two rounds of a borrow. */
  ghost predicate BorrowOnce(zero: real, rate: real, burst: real, now: real, n: real, left: real, z: real)
    requires rate > 0.0
  {
    var t := Tokens(zero, rate, burst, now);
    t > 0.0 && left == n - Min(t, n) && z == Spent(zero, rate, burst, now, Min(t, n))
  }

  lemma FirstRound(zero: real, rate: real, burst: real, now: real, n: real)
    requires rate > 0.0 && burst > 0.0
    ensures var t := Tokens(zero, rate, burst, now);
      Tokens(zero, rate, burst, now) > 0.0 && t < n ==>
        Tokens(Spent(zero, rate, burst, now, t), rate, burst, now) == 0.0
  {
    TokensAfter(zero, rate, burst, now, Tokens(zero, rate, burst, now));
  }

  lemma SecondRound(zero: real, rate: real, burst: real, now: real, n: real, left: real, z: real, first: bool)
    requires rate > 0.0 && burst > 0.0 && n > 0.0
    requires first ==> left == n && z == zero && Tokens(zero, rate, burst, now) <= 0.0
    requires !first ==> BorrowOnce(zero, rate, burst, now, n, left, z) && left > 0.0
    ensures z - (-left) / rate == Spent(zero, rate, burst, now, n)
  {
    DivSplit(0.0, left, rate);
    if first {
      MulLess(0.0, now - zero, rate);
      DivMul(burst, rate);
      MulLess(0.0, burst / rate, rate);
    } else {
      DivSplit(n - left, left, rate);
    }
  }

  lemma BorrowedNothing(zero: real, rate: real, burst: real, now: real, n: real, z: real)
    requires rate > 0.0 && n > 0.0 && BorrowOnce(zero, rate, burst, now, n, 0.0, z)
    ensures z == Spent(zero, rate, burst, now, n) && z <= now
  {
    assert Min(Tokens(zero, rate, burst, now), n) == n;
    TokensAfter(zero, rate, burst, now, n);
    assert 0.0 <= (now - z) * rate;
    assert 0.0 * rate == 0.0;
    MulLess(now - z, 0.0, rate);
  }

  // ---------------------------------------------------------------- a run of borrows

  datatype Borrow = Borrow(n: real, now: real)

  /** The zero times after each borrow of a run that starts at `zero`. */
  function ZeroTimes(zero: real, rate: real, burst: real, calls: seq<Borrow>): (r: seq<real>)
    requires rate > 0.0
    ensures |r| == |calls|
    decreases |calls|
  {
    if calls == [] then []
    else
      var z := Spent(zero, rate, burst, calls[0].now, calls[0].n);
      [z] + ZeroTimes(z, rate, burst, calls[1..])
  }

  /** When call `k` may start: its clock plus the nap it was given. */
  function StartOf(zero: real, rate: real, burst: real, calls: seq<Borrow>, k: nat): real
    requires rate > 0.0 && k < |calls|
  {
    calls[k].now + Max(0.0, ZeroTimes(zero, rate, burst, calls)[k] - calls[k].now)
  }

  function Total(calls: seq<Borrow>): real
    decreases |calls|
  {
    if calls == [] then 0.0 else calls[0].n + Total(calls[1..])
  }

  ghost predicate AllPositive(calls: seq<Borrow>) { forall i :: 0 <= i < |calls| ==> calls[i].n > 0.0 }

  ghost predicate Ordered(calls: seq<Borrow>) { forall i, j :: 0 <= i < j < |calls| ==> calls[i].now <= calls[j].now }

  lemma DivPositive(n: real, rate: real)
    requires rate > 0.0 && n >= 0.0
    ensures n / rate >= 0.0
  { }

  /** With a clock that does not go back, reservations are served in order. */
  lemma {:induction false} StartsInOrder(zero: real, rate: real, burst: real, calls: seq<Borrow>, i: nat, j: nat)
    requires rate > 0.0 && i <= j < |calls| && AllPositive(calls) && Ordered(calls)
    ensures StartOf(zero, rate, burst, calls, i) <= StartOf(zero, rate, burst, calls, j)
    decreases |calls|
  {
    var z := Spent(zero, rate, burst, calls[0].now, calls[0].n);
    if i > 0 {
      StartsInOrder(z, rate, burst, calls[1..], i - 1, j - 1);
    } else if j > 0 {
      ZeroTimesGrow(z, rate, burst, calls[1..], j - 1);
    }
  }

  lemma {:induction false} ZeroTimesGrow(zero: real, rate: real, burst: real, calls: seq<Borrow>, k: nat)
    requires rate > 0.0 && k < |calls| && AllPositive(calls)
    ensures ZeroTimes(zero, rate, burst, calls)[k] >= zero
    decreases |calls|
  {
    var z := Spent(zero, rate, burst, calls[0].now, calls[0].n);
    DivPositive(calls[0].n, rate);
    if k > 0 { ZeroTimesGrow(z, rate, burst, calls[1..], k - 1); }
  }

  lemma {:induction false} ZeroTimesSum(zero: real, rate: real, burst: real, calls: seq<Borrow>, k: nat)
    requires rate > 0.0 && k < |calls|
    ensures ZeroTimes(zero, rate, burst, calls)[k] >= zero + Total(calls[..k + 1]) / rate
    decreases |calls|
  {
    var z := Spent(zero, rate, burst, calls[0].now, calls[0].n);
    assert calls[..k + 1][1..] == calls[1..][..k];
    DivSplit(calls[0].n, Total(calls[1..][..k]), rate);
    if k > 0 { ZeroTimesSum(z, rate, burst, calls[1..], k - 1); } else { assert calls[1..][..0] == []; }
  }

  lemma GrantsBounded(zero: real, rate: real, burst: real, calls: seq<Borrow>, k: nat)
    requires rate > 0.0 && k < |calls|
    ensures Total(calls[..k + 1]) <= burst + rate * (StartOf(zero, rate, burst, calls, k) - calls[0].now)
  {
    hide Spent;
    var floor := Max(zero, calls[0].now - burst / rate);
    FloorFirst(zero, rate, burst, calls);
    ZeroTimesSum(floor, rate, burst, calls, k);
    BoundFromZero(Total(calls[..k + 1]), rate, burst, calls[0].now, ZeroTimes(zero, rate, burst, calls)[k],
      StartOf(zero, rate, burst, calls, k));
  }

  /** Nobody gets ahead of the rate by borrowing: from the clock of any call `i`
      to the start of any later call `k`, a run hands out at most one burst more
      than the rate allows. */
  lemma {:induction false} WindowBounded(zero: real, rate: real, burst: real, calls: seq<Borrow>, i: nat, k: nat)
    requires rate > 0.0 && i <= k < |calls|
    ensures Total(calls[i..k + 1]) <= burst + rate * (StartOf(zero, rate, burst, calls, k) - calls[i].now)
    decreases i
  {
    if i == 0 {
      GrantsBounded(zero, rate, burst, calls, k);
      assert calls[0..k + 1] == calls[..k + 1];
    } else {
      WindowBounded(Spent(zero, rate, burst, calls[0].now, calls[0].n), rate, burst, calls[1..], i - 1, k - 1);
      assert calls[1..][i - 1..k] == calls[i..k + 1];
    }
  }

  /** How long the bucket was full before the first call does not matter. */
  lemma FloorFirst(zero: real, rate: real, burst: real, calls: seq<Borrow>)
    requires rate > 0.0 && calls != []
    ensures ZeroTimes(Max(zero, calls[0].now - burst / rate), rate, burst, calls) == ZeroTimes(zero, rate, burst, calls)
  {
    var floor := Max(zero, calls[0].now - burst / rate);
    assert Spent(floor, rate, burst, calls[0].now, calls[0].n) == Spent(zero, rate, burst, calls[0].now, calls[0].n);
  }

  lemma BoundFromZero(total: real, rate: real, burst: real, now: real, z: real, start: real)
    requires rate > 0.0 && z >= now - burst / rate + total / rate && start >= z
    ensures total <= burst + rate * (start - now)
  {
    DivSplit(total, burst, rate);
    DivMul(total - burst, rate);
    Scale((total - burst) / rate, start - now, rate);
  }

  lemma Scale(x: real, y: real, rate: real)
    requires rate > 0.0 && x <= y
    ensures x * rate <= rate * y
  { }
}
