/** The two lazily refilled token buckets: one per key (`RateLimiter`), and one shared by sleeping
    waiters (`AsyncTokenBucket`).  Time and tokens are real numbers. */
module TokenBucket {
  import opened Prelude

  datatype Bucket = Bucket(tokens: real, last: real)

  function MinReal(a: real, b: real): real {
    if a <= b then a else b
  }

  /** What a time span is worth. */
  function Gain(rate: real, since: real, now: real): real {
    (now - since) * rate
  }

  lemma GainAdds(rate: real, s: real, t: real, u: real)
    ensures Gain(rate, s, t) + Gain(rate, t, u) == Gain(rate, s, u)
  {
  }

  lemma GainGrows(rate: real, s: real, t: real)
    requires rate > 0.0 && s <= t
    ensures Gain(rate, s, t) >= 0.0 && Gain(rate, s, s) == 0.0
  {
  }

  /** The balance at `now`: what was left, plus the rate times the time since, capped. */
  function Refilled(b: Bucket, capacity: real, rate: real, now: real): real {
    MinReal(capacity, b.tokens + Gain(rate, b.last, now))
  }

  datatype Call = Call(at: real, cost: real)

  predicate Accepts(b: Bucket, capacity: real, rate: real, call: Call) {
    call.cost <= Refilled(b, capacity, rate, call.at)
  }

  /** One attempt: refill, then spend if there is enough. */
  function Attempt(b: Bucket, capacity: real, rate: real, call: Call): Bucket {
    var tokens := Refilled(b, capacity, rate, call.at);
    Bucket(if call.cost <= tokens then tokens - call.cost else tokens, call.at)
  }

  // ---------------------------------------------------------------- runs on one bucket

  function After(b: Bucket, capacity: real, rate: real, calls: seq<Call>): Bucket {
    if calls == [] then b else Attempt(After(b, capacity, rate, Front(calls)), capacity, rate, Last(calls))
  }

  /** The cost accepted from position `i` to the end. */
  function Spent(b: Bucket, capacity: real, rate: real, calls: seq<Call>, i: nat): real {
    if i >= |calls| then 0.0
    else Spent(b, capacity, rate, Front(calls), i) +
         if Accepts(After(b, capacity, rate, Front(calls)), capacity, rate, Last(calls)) then Last(calls).cost else 0.0
  }

  /** The clock is monotonic and costs are not negative. */
  predicate Ordered(start: real, calls: seq<Call>) {
    calls == [] ||
    (Ordered(start, Front(calls)) && Last(calls).cost >= 0.0
     && (if Front(calls) == [] then start else Last(Front(calls)).at) <= Last(calls).at)
  }

  lemma {:induction false} StaysBounded(b: Bucket, capacity: real, rate: real, calls: seq<Call>)
    requires 0.0 <= b.tokens && capacity > 0.0 && rate > 0.0 && Ordered(b.last, calls)
    ensures 0.0 <= After(b, capacity, rate, calls).tokens
    ensures calls != [] ==> After(b, capacity, rate, calls).tokens <= capacity
    ensures After(b, capacity, rate, calls).last == if calls == [] then b.last else Last(calls).at
  {
    if calls != [] {
      StaysBounded(b, capacity, rate, Front(calls));
      var before := After(b, capacity, rate, Front(calls));
      GainGrows(rate, before.last, Last(calls).at);
    }
  }

  /** An attempt moves tokens from the refilled balance to the accepted cost, and makes none. */
  lemma AttemptConserves(b: Bucket, capacity: real, rate: real, call: Call)
    ensures
      var spent := if Accepts(b, capacity, rate, call) then call.cost else 0.0;
      && spent + Attempt(b, capacity, rate, call).tokens == Refilled(b, capacity, rate, call.at)
      && Refilled(b, capacity, rate, call.at) <= capacity
      && Refilled(b, capacity, rate, call.at) <= b.tokens + Gain(rate, b.last, call.at)
  {
  }

  lemma {:induction false} LastTime(b: Bucket, capacity: real, rate: real, calls: seq<Call>)
    ensures After(b, capacity, rate, calls).last == if calls == [] then b.last else Last(calls).at
  {
  }

  /** The potential argument: what was spent since call `i` plus what is left is covered by one full
      bucket and the refill of the time since. */
  lemma {:induction false} SpentIsCovered(b: Bucket, capacity: real, rate: real, calls: seq<Call>, i: nat)
    requires i < |calls|
    ensures Spent(b, capacity, rate, calls, i) + After(b, capacity, rate, calls).tokens
            <= capacity + Gain(rate, calls[i].at, Last(calls).at)
  {
    var front := Front(calls);
    var before := After(b, capacity, rate, front);
    AttemptConserves(before, capacity, rate, Last(calls));
    if i < |front| {
      SpentIsCovered(b, capacity, rate, front, i);
      LastTime(b, capacity, rate, front);
      GainAdds(rate, calls[i].at, before.last, Last(calls).at);
    } else {
      assert Spent(b, capacity, rate, front, i) == 0.0;
      GainIsZero(rate, Last(calls).at);
    }
  }

  lemma GainIsZero(rate: real, t: real)
    ensures Gain(rate, t, t) == 0.0
  {
  }

  /** THE WINDOW BOUND.  In every run, the cost accepted between any two calls on one bucket is at
      most the capacity plus the rate times the time between them. */
  lemma WindowBound(b: Bucket, capacity: real, rate: real, calls: seq<Call>, i: nat)
    requires 0.0 <= b.tokens && capacity > 0.0 && rate > 0.0 && Ordered(b.last, calls) && i < |calls|
    ensures Spent(b, capacity, rate, calls, i) <= capacity + (Last(calls).at - calls[i].at) * rate
  {
    SpentIsCovered(b, capacity, rate, calls, i);
    StaysBounded(b, capacity, rate, calls);
  }

  // ---------------------------------------------------------------- lazy refill is continuous refill

  /** Refilling twice is refilling once over the whole time. */
  lemma RefillComposes(b: Bucket, capacity: real, rate: real, s: real, t: real)
    requires rate > 0.0 && b.last <= s <= t
    ensures Refilled(Bucket(Refilled(b, capacity, rate, s), s), capacity, rate, t) == Refilled(b, capacity, rate, t)
  {
    GainAdds(rate, b.last, s, t);
    GainGrows(rate, s, t);
  }

  /** Two buckets that no call from `now` on can tell apart. */
  predicate Alike(a: Bucket, b: Bucket, capacity: real, rate: real, now: real) {
    a.last <= now && b.last <= now && Refilled(a, capacity, rate, now) == Refilled(b, capacity, rate, now)
  }

  lemma AlikeLater(a: Bucket, b: Bucket, capacity: real, rate: real, s: real, t: real)
    requires rate > 0.0 && s <= t && Alike(a, b, capacity, rate, s)
    ensures Alike(a, b, capacity, rate, t)
  {
    RefillComposes(a, capacity, rate, s, t);
    RefillComposes(b, capacity, rate, s, t);
  }

  /** The calls whose position is marked. */
  function Kept(calls: seq<Call>, keep: seq<bool>): seq<Call>
    requires |calls| == |keep|
  {
    if calls == [] then []
    else if Last(keep) then Kept(Front(calls), Front(keep)) + [Last(calls)]
    else Kept(Front(calls), Front(keep))
  }

  /** Only denied calls are left out. */
  predicate DropsDenied(b: Bucket, capacity: real, rate: real, calls: seq<Call>, keep: seq<bool>)
    requires |calls| == |keep|
  {
    calls == [] ||
    (DropsDenied(b, capacity, rate, Front(calls), Front(keep)) &&
     (Last(keep) || !Accepts(After(b, capacity, rate, Front(calls)), capacity, rate, Last(calls))))
  }

  /** DENIED CALLS LEAVE NO TRACE.  Leaving any denied calls out of a run, the bucket is afterwards
      indistinguishable, so the decision on the next call is the same. */
  lemma {:induction false} DeniedCallsAreInvisible(b: Bucket, capacity: real, rate: real, calls: seq<Call>,
                                                   keep: seq<bool>, next: Call)
    requires rate > 0.0 && |calls| == |keep| && DropsDenied(b, capacity, rate, calls, keep)
    requires Ordered(b.last, calls + [next])
    ensures Alike(After(b, capacity, rate, calls), After(b, capacity, rate, Kept(calls, keep)), capacity, rate, next.at)
    ensures Accepts(After(b, capacity, rate, calls), capacity, rate, next)
       <==> Accepts(After(b, capacity, rate, Kept(calls, keep)), capacity, rate, next)
  {
    assert Front(calls + [next]) == calls;
    if calls != [] {
      var front, last := Front(calls), Last(calls);
      assert front + [last] == calls;
      DeniedCallsAreInvisible(b, capacity, rate, front, Front(keep), last);
      var full, thin := After(b, capacity, rate, front), After(b, capacity, rate, Kept(front, Front(keep)));
      var after := After(b, capacity, rate, calls);
      if Last(keep) {
        assert Front(Kept(calls, keep)) == Kept(front, Front(keep));
        assert After(b, capacity, rate, Kept(calls, keep)) == after;
      } else {
        assert Kept(calls, keep) == Kept(front, Front(keep));
        assert after == Bucket(Refilled(full, capacity, rate, last.at), last.at);
        RefillComposes(full, capacity, rate, last.at, next.at);
        AlikeLater(full, thin, capacity, rate, last.at, next.at);
      }
    }
  }

  /** A bucket seen for the first time decides like one that has been full since any earlier time. */
  lemma NewBucketIsFull(capacity: real, rate: real, since: real, call: Call)
    requires capacity > 0.0 && rate > 0.0 && since <= call.at
    ensures Attempt(Bucket(capacity, call.at), capacity, rate, call)
        == Attempt(Bucket(capacity, since), capacity, rate, call)
  {
    GainGrows(rate, since, call.at);
    GainIsZero(rate, call.at);
  }

  // ---------------------------------------------------------------- the per-key limiter

  /** The calls of one key. */
  function CallsOf(calls: seq<(string, Call)>, key: string): seq<Call> {
    if calls == [] then []
    else if Last(calls).0 == key then CallsOf(Front(calls), key) + [Last(calls).1]
    else CallsOf(Front(calls), key)
  }

  /** One limiter is independent buckets: in any run over many keys, the bucket of a key is where its
      own calls alone take it. */
  function AfterAll(buckets: map<string, Bucket>, capacity: real, rate: real, calls: seq<(string, Call)>)
    : map<string, Bucket>
  {
    if calls == [] then buckets
    else
      var before := AfterAll(buckets, capacity, rate, Front(calls));
      var (key, call) := Last(calls);
      var b := if key in before then before[key] else Bucket(capacity, call.at);
      before[key := Attempt(b, capacity, rate, call)]
  }

  /** The answers to the calls of a limiter that starts with no buckets. */
  function Answers(capacity: real, rate: real, calls: seq<(string, Call)>): seq<bool> {
    if calls == [] then []
    else
      var before := AfterAll(map[], capacity, rate, Front(calls));
      var (key, call) := Last(calls);
      var b := if key in before then before[key] else Bucket(capacity, call.at);
      Answers(capacity, rate, Front(calls)) + [Accepts(b, capacity, rate, call)]
  }

  lemma OneMoreAnswer(capacity: real, rate: real, calls: seq<(string, Call)>, key: string, call: Call)
    ensures
      var before := AfterAll(map[], capacity, rate, calls);
      var b := if key in before then before[key] else Bucket(capacity, call.at);
      && AfterAll(map[], capacity, rate, calls + [(key, call)]) == before[key := Attempt(b, capacity, rate, call)]
      && Answers(capacity, rate, calls + [(key, call)]) ==
         Answers(capacity, rate, calls) + [Accepts(b, capacity, rate, call)]
  {
    assert Front(calls + [(key, call)]) == calls;
  }

  class RateLimiter {
    const capacity: real
    const refillRate: real
    var buckets: map<string, Bucket>
    ghost var calls: seq<(string, Call)>
    ghost var answers: seq<bool>

    /** The buckets and the answers given are those of the calls since the start or the last reset. */
    ghost predicate Valid()
      reads this
    {
      buckets == AfterAll(map[], capacity, refillRate, calls) && answers == Answers(capacity, refillRate, calls)
    }

    constructor (capacity: int, refillSeconds: real)
      requires capacity > 0 && refillSeconds > 0.0
      ensures Valid() && calls == [] && buckets == map[]
      ensures this.capacity == capacity as real && this.refillRate == capacity as real / refillSeconds
    {
      this.capacity := capacity as real;
      this.refillRate := capacity as real / refillSeconds;
      buckets, calls, answers := map[], [], [];
    }

    /** The bucket a call at `now` sees: its own, or a full one. */
    function BucketOf(key: string, now: real): Bucket
      reads this
    {
      if key in buckets then buckets[key] else Bucket(capacity, now)
    }

    /** A refused call refills the bucket and spends nothing; other keys are not touched.  A key that is seen for
        the first time has the whole capacity. */
    method TryAcquire(key: string, cost: real, now: real) returns (ok: bool)
      requires Valid()
      modifies this
      ensures Valid() && calls == old(calls) + [(key, Call(now, cost))] && answers == old(answers) + [ok]
      ensures key in buckets && buckets == old(buckets)[key := buckets[key]]
      ensures key !in old(buckets) ==>
        (ok <==> cost <= capacity) && buckets[key] == Bucket(if ok then capacity - cost else capacity, now)
      ensures key in old(buckets) ==>
        && (ok <==> Accepts(old(buckets)[key], capacity, refillRate, Call(now, cost)))
        && buckets[key] == Attempt(old(buckets)[key], capacity, refillRate, Call(now, cost))
    {
      var b := BucketOf(key, now);
      GainIsZero(refillRate, now);
      OneMoreAnswer(capacity, refillRate, calls, key, Call(now, cost));
      calls := calls + [(key, Call(now, cost))];
      var tokens := MinReal(capacity, b.tokens + Gain(refillRate, b.last, now));
      if tokens < cost {
        buckets := buckets[key := Bucket(tokens, now)];
        answers := answers + [false];
        return false;
      }
      tokens := tokens - cost;
      buckets := buckets[key := Bucket(tokens, now)];
      answers := answers + [true];
      return true;
    }

    method Reset()
      modifies this
      ensures Valid() && buckets == map[] && calls == []
    {
      buckets, calls, answers := map[], [], [];
    }
  }

  lemma {:induction false} KeysAreIndependent(capacity: real, rate: real, calls: seq<(string, Call)>, key: string)
    requires CallsOf(calls, key) != []
    ensures key in AfterAll(map[], capacity, rate, calls)
    ensures AfterAll(map[], capacity, rate, calls)[key]
         == After(Bucket(capacity, CallsOf(calls, key)[0].at), capacity, rate, CallsOf(calls, key))
  {
    var mine := CallsOf(Front(calls), key);
    if Last(calls).0 == key {
      assert Front(mine + [Last(calls).1]) == mine;
      if mine == [] {
        KeyUnseen(capacity, rate, Front(calls), key);
        assert After(Bucket(capacity, Last(calls).1.at), capacity, rate, []) == Bucket(capacity, Last(calls).1.at);
      } else {
        KeysAreIndependent(capacity, rate, Front(calls), key);
      }
    } else {
      KeysAreIndependent(capacity, rate, Front(calls), key);
    }
  }

  lemma {:induction false} KeyUnseen(capacity: real, rate: real, calls: seq<(string, Call)>, key: string)
    requires CallsOf(calls, key) == []
    ensures key !in AfterAll(map[], capacity, rate, calls)
  {
    if calls != [] { KeyUnseen(capacity, rate, Front(calls), key); }
  }

  /** The cost of the calls of one key from position `i` on that were answered yes. */
  function Granted(calls: seq<(string, Call)>, answers: seq<bool>, key: string, i: nat): real
    requires |calls| == |answers|
  {
    if i >= |calls| then 0.0
    else Granted(Front(calls), Front(answers), key, i) +
         if Last(calls).0 == key && Last(answers) then Last(calls).1.cost else 0.0
  }

  lemma {:induction false} AnswersAll(capacity: real, rate: real, calls: seq<(string, Call)>)
    ensures |Answers(capacity, rate, calls)| == |calls|
  {
    if calls != [] { AnswersAll(capacity, rate, Front(calls)); }
  }

  lemma {:induction false} CallsOfPrefix(calls: seq<(string, Call)>, key: string, i: nat)
    requires i <= |calls|
    ensures CallsOf(calls[..i], key) <= CallsOf(calls, key)
    ensures i < |calls| && calls[i].0 == key ==>
              |CallsOf(calls[..i], key)| < |CallsOf(calls, key)|
              && CallsOf(calls, key)[|CallsOf(calls[..i], key)|] == calls[i].1
  {
    if i < |calls| {
      CallsOfPrefix(Front(calls), key, i);
      assert Front(calls)[..i] == calls[..i];
      if i == |calls| - 1 { assert Front(calls) == calls[..i]; }
    } else {
      assert calls[..i] == calls;
    }
  }

  /** The answer to a call is what the key's own bucket says, after the key's earlier calls. */
  lemma OwnAnswer(capacity: real, rate: real, calls: seq<(string, Call)>, key: string, mine: seq<Call>)
    requires calls != [] && Last(calls).0 == key && mine == CallsOf(calls, key)
    ensures mine != [] && Last(mine) == Last(calls).1 && Front(mine) == CallsOf(Front(calls), key)
    ensures Answers(capacity, rate, calls) == Answers(capacity, rate, Front(calls)) +
              [Accepts(After(Bucket(capacity, mine[0].at), capacity, rate, Front(mine)), capacity, rate, Last(mine))]
  {
    var front := CallsOf(Front(calls), key);
    assert Front(front + [Last(calls).1]) == front;
    if front == [] {
      KeyUnseen(capacity, rate, Front(calls), key);
      assert After(Bucket(capacity, mine[0].at), capacity, rate, []) == Bucket(capacity, mine[0].at);
    } else {
      KeysAreIndependent(capacity, rate, Front(calls), key);
      assert front[0] == mine[0];
    }
  }

  /** The same of a call for another key. */
  lemma OthersAnswer(capacity: real, rate: real, calls: seq<(string, Call)>)
    requires calls != []
    ensures |Answers(capacity, rate, calls)| == |calls|
    ensures Front(Answers(capacity, rate, calls)) == Answers(capacity, rate, Front(calls))
  {
    AnswersAll(capacity, rate, calls);
    AnswersAll(capacity, rate, Front(calls));
  }

  lemma GrantedAdds(calls: seq<(string, Call)>, answers: seq<bool>, key: string, i: nat)
    requires |calls| == |answers| && i < |calls|
    ensures Granted(calls, answers, key, i) == Granted(Front(calls), Front(answers), key, i) +
              if Last(calls).0 == key && Last(answers) then Last(calls).1.cost else 0.0
  {
  }

  lemma SpentAdds(b: Bucket, capacity: real, rate: real, calls: seq<Call>, i: nat)
    requires i < |calls|
    ensures Spent(b, capacity, rate, calls, i) == Spent(b, capacity, rate, Front(calls), i) +
              if Accepts(After(b, capacity, rate, Front(calls)), capacity, rate, Last(calls)) then Last(calls).cost
              else 0.0
  {
  }

  /** What a limiter granted one key is what that key's calls spend on a bucket of their own. */
  lemma {:induction false} GrantedIsSpent(capacity: real, rate: real, calls: seq<(string, Call)>, key: string, i: nat,
                                          mine: seq<Call>)
    requires i < |calls| && calls[i].0 == key && mine == CallsOf(calls, key)
    ensures |Answers(capacity, rate, calls)| == |calls| && mine != []
    ensures Granted(calls, Answers(capacity, rate, calls), key, i)
         == Spent(Bucket(capacity, mine[0].at), capacity, rate, mine, |CallsOf(calls[..i], key)|)
  {
    var m := |CallsOf(calls[..i], key)|;
    CallsOfPrefix(calls, key, i);
    OthersAnswer(capacity, rate, calls);
    GrantedAdds(calls, Answers(capacity, rate, calls), key, i);
    if Last(calls).0 == key {
      OwnAnswer(capacity, rate, calls, key, mine);
      SpentAdds(Bucket(capacity, mine[0].at), capacity, rate, mine, m);
    }
    if i < |calls| - 1 {
      assert Front(calls)[..i] == calls[..i];
      CallsOfPrefix(Front(calls), key, i);
      GrantedIsSpent(capacity, rate, Front(calls), key, i, CallsOf(Front(calls), key));
    } else {
      assert Front(calls) == calls[..i];
    }
  }

  /** THE LIMIT, of the limiter itself.  Whatever calls it has answered since it was made, for whatever keys, the
      cost it granted one key from any of the key's calls to its last is at most the capacity plus what the time
      between the two is worth. */
  lemma LimiterWindow(capacity: real, rate: real, calls: seq<(string, Call)>, key: string, i: nat, mine: seq<Call>)
    requires capacity > 0.0 && rate > 0.0 && i < |calls| && calls[i].0 == key
    requires mine == CallsOf(calls, key) && (mine != [] ==> Ordered(mine[0].at, mine))
    ensures |Answers(capacity, rate, calls)| == |calls| && mine != []
    ensures Granted(calls, Answers(capacity, rate, calls), key, i)
         <= capacity + Gain(rate, calls[i].1.at, Last(mine).at)
  {
    var m := |CallsOf(calls[..i], key)|;
    CallsOfPrefix(calls, key, i);
    GrantedIsSpent(capacity, rate, calls, key, i, mine);
    SpentIsCovered(Bucket(capacity, mine[0].at), capacity, rate, mine, m);
    StaysBounded(Bucket(capacity, mine[0].at), capacity, rate, mine);
  }

  // ---------------------------------------------------------------- the shared bucket with waiters

  /** How long a refused caller sleeps. */
  function WaitFor(b: Bucket, capacity: real, rate: real, call: Call): real
    requires rate > 0.0
  {
    (call.cost - Refilled(b, capacity, rate, call.at)) / rate
  }

  /** The computed sleep is exactly enough: if nobody else is granted anything meanwhile, the waiter's
      next turn succeeds at the end of it, and would not succeed any earlier. */
  lemma SleepIsExact(b: Bucket, capacity: real, rate: real, call: Call, later: real)
    requires rate > 0.0 && 0.0 < call.cost <= capacity && b.last <= call.at <= later
    requires !Accepts(b, capacity, rate, call)
    ensures Accepts(Attempt(b, capacity, rate, call), capacity, rate, Call(later, call.cost))
       <==> call.at + WaitFor(b, capacity, rate, call) <= later
  {
    var tokens := Refilled(b, capacity, rate, call.at);
    WaitIsWorth(call.cost - tokens, rate, call.at, later);
  }

  lemma WaitIsWorth(deficit: real, rate: real, s: real, t: real)
    requires rate > 0.0
    ensures deficit <= Gain(rate, s, t) <==> s + deficit / rate <= t
  {
    var wait := deficit / rate;
    assert wait * rate == deficit;
    var slack := t - s - wait;
    assert Gain(rate, s, t) == wait * rate + slack * rate;
    assert slack >= 0.0 ==> slack * rate >= 0.0;
    assert slack < 0.0 ==> slack * rate < 0.0;
  }

  function AllFalse(n: nat): (r: seq<bool>)
    ensures |r| == n
  {
    if n == 0 then [] else AllFalse(n - 1) + [false]
  }

  /** Every call of the run is refused. */
  predicate AllDenied(b: Bucket, capacity: real, rate: real, calls: seq<Call>) {
    calls == [] ||
    (AllDenied(b, capacity, rate, Front(calls))
        && !Accepts(After(b, capacity, rate, Front(calls)), capacity, rate, Last(calls)))
  }

  lemma {:induction false} KeepingNone(b: Bucket, capacity: real, rate: real, calls: seq<Call>)
    requires AllDenied(b, capacity, rate, calls)
    ensures DropsDenied(b, capacity, rate, calls, AllFalse(|calls|)) && Kept(calls, AllFalse(|calls|)) == []
  {
    if calls != [] {
      KeepingNone(b, capacity, rate, Front(calls));
      assert Front(AllFalse(|calls|)) == AllFalse(|calls| - 1);
    }
  }

  /** ONLY A GRANT CAN DELAY A WAITER.  Between a waiter's refusal and its next turn any number of other
      callers may take theirs; if none of them is granted anything, the waiter is granted on waking,
      whatever the others asked for and however they interleaved. */
  lemma OnlyAGrantDelaysAWaiter(b: Bucket, capacity: real, rate: real, call: Call, others: seq<Call>, again: Call)
    requires rate > 0.0 && 0.0 < call.cost <= capacity && b.last <= call.at
    requires !Accepts(b, capacity, rate, call)
    requires AllDenied(Attempt(b, capacity, rate, call), capacity, rate, others)
    requires Ordered(call.at, others + [again]) && call.at <= again.at && again.cost == call.cost
    ensures Accepts(After(Attempt(b, capacity, rate, call), capacity, rate, others), capacity, rate, again)
       <==> call.at + WaitFor(b, capacity, rate, call) <= again.at
  {
    var asleep := Attempt(b, capacity, rate, call);
    KeepingNone(asleep, capacity, rate, others);
    DeniedCallsAreInvisible(asleep, capacity, rate, others, AllFalse(|others|), again);
    SleepIsExact(b, capacity, rate, call, again.at);
  }

  datatype AcquireError = NotPositive | AboveCapacity

  lemma {:induction false} AfterConcat(b: Bucket, capacity: real, rate: real, x: seq<Call>, y: seq<Call>)
    ensures After(b, capacity, rate, x + y) == After(After(b, capacity, rate, x), capacity, rate, y)
  {
    if y == [] {
      assert x + y == x;
    } else {
      assert Front(x + y) == x + Front(y);
      AfterConcat(b, capacity, rate, x, Front(y));
    }
  }

  lemma {:induction false} OrderedConcat(start: real, x: seq<Call>, y: seq<Call>)
    requires Ordered(start, x + y)
    ensures Ordered(start, x) && Ordered(if x == [] then start else Last(x).at, y)
  {
    if y == [] {
      assert x + y == x;
    } else {
      assert Front(x + y) == x + Front(y);
      OrderedConcat(start, x, Front(y));
    }
  }

  /** Between two of its own turns a waiter sees the turns of others; then it wakes. */
  datatype Meanwhile = Meanwhile(others: seq<Call>, wakes: real)

  /** All turns in the order in which they take the lock. */
  function Schedule(n: real, rounds: seq<Meanwhile>): seq<Call> {
    if rounds == [] then [] else Schedule(n, Front(rounds)) + (Last(rounds).others + [Call(Last(rounds).wakes, n)])
  }

  /** The waiter's own turn after `rounds` and one more stretch of others is granted. */
  predicate GrantedAfter(b: Bucket, capacity: real, rate: real, n: real, rounds: seq<Meanwhile>, next: Meanwhile) {
    Accepts(After(b, capacity, rate, Schedule(n, rounds) + next.others), capacity, rate, Call(next.wakes, n))
  }

  predicate RefusedAt(b: Bucket, capacity: real, rate: real, n: real, rounds: seq<Meanwhile>, k: nat)
    requires k < |rounds|
  {
    !GrantedAfter(b, capacity, rate, n, rounds[..k], rounds[k])
  }

  /** After `k` rounds the waiter has been refused every time, and the bucket has seen every turn. */
  predicate Waited(b: Bucket, now: Bucket, capacity: real, rate: real, n: real, rounds: seq<Meanwhile>, k: nat)
    requires k <= |rounds|
  {
    && now == After(b, capacity, rate, Schedule(n, rounds[..k]))
    && forall i | 0 <= i < k :: RefusedAt(b, capacity, rate, n, rounds, i)
  }

  /** Turn `k` is the first that is granted. */
  predicate Served(b: Bucket, now: Bucket, capacity: real, rate: real, n: real, rounds: seq<Meanwhile>, k: nat)
    requires k < |rounds|
  {
    && now == After(b, capacity, rate, Schedule(n, rounds[..k + 1]))
    && !RefusedAt(b, capacity, rate, n, rounds, k)
    && forall i | 0 <= i < k :: RefusedAt(b, capacity, rate, n, rounds, i)
  }

  lemma {:induction false} ScheduleGrows(n: real, start: real, rounds: seq<Meanwhile>, k: nat)
    requires Ordered(start, Schedule(n, rounds)) && k <= |rounds|
    ensures Ordered(start, Schedule(n, rounds[..k]))
  {
    if k == |rounds| {
      assert rounds[..k] == rounds;
    } else {
      OrderedConcat(start, Schedule(n, Front(rounds)), Last(rounds).others + [Call(Last(rounds).wakes, n)]);
      ScheduleGrows(n, start, Front(rounds), k);
      assert Front(rounds)[..k] == rounds[..k];
    }
  }

  /** What one more round adds to the schedule, and that it is in order. */
  lemma ScheduleSplit(b: Bucket, capacity: real, rate: real, n: real, rounds: seq<Meanwhile>, k: nat)
    requires k < |rounds| && Ordered(b.last, Schedule(n, rounds))
    ensures
      var done, next := After(b, capacity, rate, Schedule(n, rounds[..k])), rounds[k];
      && Ordered(done.last, next.others)
      && After(done, capacity, rate, next.others).last <= next.wakes
      && After(done, capacity, rate, next.others) == After(b, capacity, rate, Schedule(n, rounds[..k]) + next.others)
      && After(b, capacity, rate, Schedule(n, rounds[..k + 1]))
         == Attempt(After(done, capacity, rate, next.others), capacity, rate, Call(next.wakes, n))
  {
    var sofar, next := Schedule(n, rounds[..k]), rounds[k];
    var call := Call(next.wakes, n);
    var done := After(b, capacity, rate, sofar);
    assert Front(rounds[..k + 1]) == rounds[..k];
    ScheduleGrows(n, b.last, rounds, k + 1);
    LastTime(b, capacity, rate, sofar);
    OrderedConcat(b.last, sofar, next.others + [call]);
    OrderedConcat(done.last, next.others, [call]);
    assert Front(next.others + [call]) == next.others;
    LastTime(done, capacity, rate, next.others);
    AfterConcat(b, capacity, rate, sofar, next.others);
    AfterConcat(b, capacity, rate, sofar, next.others + [call]);
  }

  predicate AllPositive(rounds: seq<Meanwhile>) {
    rounds == [] || (AllPositive(Front(rounds)) && PositiveCosts(Last(rounds).others))
  }

  predicate PositiveCosts(calls: seq<Call>) {
    calls == [] || (PositiveCosts(Front(calls)) && Last(calls).cost > 0.0)
  }

  lemma {:induction false} PositiveAt(rounds: seq<Meanwhile>, k: nat)
    requires AllPositive(rounds) && k < |rounds|
    ensures PositiveCosts(rounds[k].others)
  {
    if k < |rounds| - 1 { PositiveAt(Front(rounds), k); }
  }

  lemma {:induction false} PositivePrefix(calls: seq<Call>, k: nat)
    requires PositiveCosts(calls) && k < |calls|
    ensures calls[k].cost > 0.0
  {
    if k < |calls| - 1 { PositivePrefix(Front(calls), k); }
  }

  lemma {:induction false} OrderedPrefix(start: real, calls: seq<Call>, k: nat)
    requires Ordered(start, calls) && k < |calls|
    ensures (if k == 0 then start else calls[k - 1].at) <= calls[k].at
  {
    if k < |calls| - 1 { OrderedPrefix(start, Front(calls), k); }
  }

  class AsyncTokenBucket {
    const rate: real
    const capacity: real
    var bucket: Bucket

    ghost predicate Valid()
      reads this
    {
      rate > 0.0 && capacity >= 1.0 && 0.0 <= bucket.tokens <= capacity
    }

    constructor (ratePerSec: real, burst: int, now: real)
      requires ratePerSec > 0.0 && burst >= 1
      ensures Valid() && rate == ratePerSec && capacity == burst as real && bucket == Bucket(capacity, now)
    {
      rate := ratePerSec;
      capacity := burst as real;
      bucket := Bucket(burst as real, now);
    }

    /** The part of the loop that holds the lock: refill, then take the tokens or work out the sleep.
        The lock makes any interleaving of callers a sequence of these turns. */
    method Turn(n: real, now: real) returns (granted: bool, wait: real)
      requires Valid() && n > 0.0 && bucket.last <= now
      modifies this
      ensures Valid() && bucket == Attempt(old(bucket), capacity, rate, Call(now, n))
      ensures granted <==> Accepts(old(bucket), capacity, rate, Call(now, n))
      ensures wait == if granted then 0.0 else WaitFor(old(bucket), capacity, rate, Call(now, n))
    {
      var tokens := MinReal(capacity, bucket.tokens + Gain(rate, bucket.last, now));
      GainGrows(rate, bucket.last, now);
      if tokens >= n {
        bucket := Bucket(tokens - n, now);
        return true, 0.0;
      }
      bucket := Bucket(tokens, now);
      var deficit := n - tokens;
      return false, deficit / rate;
    }

    /** The turns that other callers take while this one is asleep. */
    method Others(calls: seq<Call>)
      requires Valid() && Ordered(bucket.last, calls) && PositiveCosts(calls)
      modifies this
      ensures Valid() && bucket == After(old(bucket), capacity, rate, calls)
    {
      ghost var first := bucket;
      var k := 0;
      while k < |calls|
        invariant 0 <= k <= |calls| && Valid()
        invariant bucket == After(first, capacity, rate, calls[..k])
      {
        OneMoreCall(first, capacity, rate, calls, k);
        OrderedPrefix(first.last, calls, k);
        PositivePrefix(calls, k);
        var granted, wait := Turn(calls[k].cost, calls[k].at);
        k := k + 1;
      }
      assert calls[..k] == calls;
    }

    /** One stretch of sleep, and the waiter's next turn. */
    method SleepAndTurn(n: real, rounds: seq<Meanwhile>, k: nat, ghost first: Bucket) returns (granted: bool)
      requires Valid() && 0.0 < n && k < |rounds| && AllPositive(rounds) && Ordered(first.last, Schedule(n, rounds))
      requires bucket == After(first, capacity, rate, Schedule(n, rounds[..k]))
      modifies this
      ensures Valid() && bucket == After(first, capacity, rate, Schedule(n, rounds[..k + 1]))
      ensures granted <==> !RefusedAt(first, capacity, rate, n, rounds, k)
    {
      ScheduleSplit(first, capacity, rate, n, rounds, k);
      PositiveAt(rounds, k);
      Others(rounds[k].others);
      var wait;
      granted, wait := Turn(n, rounds[k].wakes);
    }

    /** `acquire` among any other callers: it is granted at the first of its turns that the shared balance
        covers, having seen only refusals before, and every turn of every caller is one attempt on the one
        bucket.  `None`: still asleep after these rounds. */
    method AcquireAmong(n: real, rounds: seq<Meanwhile>) returns (r: Result<Option<nat>, AcquireError>)
      requires Valid() && (n > 0.0 ==> Ordered(bucket.last, Schedule(n, rounds))) && AllPositive(rounds)
      modifies this
      ensures Valid()
      ensures r.Failure? <==> n <= 0.0 || n > capacity
      ensures r.Failure? ==> r.error == (if n <= 0.0 then NotPositive else AboveCapacity) && bucket == old(bucket)
      ensures r.Success? ==>
        match r.value
        case None => Waited(old(bucket), bucket, capacity, rate, n, rounds, |rounds|)
        case Some(k) => k < |rounds| && Served(old(bucket), bucket, capacity, rate, n, rounds, k)
    {
      if n <= 0.0 {
        return Failure(NotPositive);
      }
      if n > capacity {
        return Failure(AboveCapacity);
      }
      ghost var first := bucket;
      var k := 0;
      while k < |rounds|
        invariant 0 <= k <= |rounds| && Valid()
        invariant Waited(first, bucket, capacity, rate, n, rounds, k)
      {
        var granted := SleepAndTurn(n, rounds, k, first);
        if granted {
          return Success(Some(k));
        }
        k := k + 1;
      }
      return Success(None);
    }

    /** `acquire` for a caller nobody interferes with, waking `oversleep` late: it is granted at its first
        or second turn, at once if the balance covers it and otherwise as soon as it does. */
    method Acquire(n: real, start: real, oversleep: real) returns (r: Result<real, AcquireError>)
      requires Valid() && bucket.last <= start && oversleep >= 0.0
      modifies this
      ensures Valid()
      ensures r.Failure? <==> n <= 0.0 || n > capacity
      ensures r.Failure? ==> r.error == (if n <= 0.0 then NotPositive else AboveCapacity) && bucket == old(bucket)
      ensures r.Success? ==>
        var call := Call(start, n);
        if Accepts(old(bucket), capacity, rate, call) then
          r.value == start && bucket == Attempt(old(bucket), capacity, rate, call)
        else
          && r.value == start + WaitFor(old(bucket), capacity, rate, call) + oversleep
          && bucket == After(old(bucket), capacity, rate, [call, Call(r.value, n)])
    {
      if n <= 0.0 {
        return Failure(NotPositive);
      }
      if n > capacity {
        return Failure(AboveCapacity);
      }
      var now := start;
      ghost var turns := 0;
      ghost var first := bucket;
      ghost var call := Call(start, n);
      while true
        invariant Valid() && turns <= 1
        invariant turns == 0 ==> now == start && bucket == first
        invariant turns == 1 ==>
          && !Accepts(first, capacity, rate, call)
          && bucket == Attempt(first, capacity, rate, call)
          && now == start + WaitFor(first, capacity, rate, call) + oversleep && start <= now
        decreases 1 - turns
      {
        var granted, wait := Turn(n, now);
        if turns == 1 {
          SleepIsExact(first, capacity, rate, call, now);
          TwoCalls(first, capacity, rate, call, Call(now, n));
        }
        if granted {
          return Success(now);
        }
        WaitIsPositive(first, capacity, rate, call);
        now := now + wait + oversleep;
        turns := turns + 1;
      }
    }
  }

  lemma OneMoreCall(b: Bucket, capacity: real, rate: real, calls: seq<Call>, k: nat)
    requires k < |calls|
    ensures After(b, capacity, rate, calls[..k + 1])
        == Attempt(After(b, capacity, rate, calls[..k]), capacity, rate, calls[k])
    ensures After(b, capacity, rate, calls[..k]).last == if k == 0 then b.last else calls[k - 1].at
  {
    assert Front(calls[..k + 1]) == calls[..k];
    LastTime(b, capacity, rate, calls[..k]);
  }

  lemma TwoCalls(b: Bucket, capacity: real, rate: real, c: Call, d: Call)
    ensures After(b, capacity, rate, [c, d]) == Attempt(Attempt(b, capacity, rate, c), capacity, rate, d)
  {
    assert Front([c, d]) == [c] && Front([c]) == [];
    assert After(b, capacity, rate, [c]) == Attempt(b, capacity, rate, c);
  }

  lemma WaitIsPositive(b: Bucket, capacity: real, rate: real, call: Call)
    requires rate > 0.0 && !Accepts(b, capacity, rate, call)
    ensures WaitFor(b, capacity, rate, call) > 0.0
  {
  }
}
