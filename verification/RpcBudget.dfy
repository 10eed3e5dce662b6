/**
 The request budget of svm-ingest/rpc-client.ts: the 429 backoff, under the rate limiter, and the getBlock
 retry loop. Answers of the network are a stream indexed by the number of posts made.
 */
module RpcBudget {
  import opened Common
  import opened RateLimit

  // ---------------------------------------------------------------- answers

  /**
   What the error text and code say: a rate limit, a missing block by text or by code; budget marks the
   exhausted-budget error.
   */
  datatype Failure = Failure(rate: bool, missText: bool, missCode: bool, budget: bool, other: bool)

  datatype Payload = Null | Block(id: nat) | Unmappable(failure: Failure)
  datatype Reply = Value(payload: Payload) | Fail(failure: Failure)

  predicate IsMissing(f: Failure) { f.missText || f.missCode }

  /** The budget error quotes the message of the last failure, not its code. */
  function Exhausted(f: Failure): Failure { Failure(f.rate, f.missText, false, true, false) }

  /** String(undefined), thrown when no attempt is allowed. */
  const NoAttempt := Failure(false, false, false, false, true)

  // ---------------------------------------------------------------- 429 backoff

  /** result, posts made so far and milliseconds slept. */
  datatype Outcome = Outcome(result: Reply, posts: nat, slept: nat)

  function Min(x: nat, y: nat): nat { if x < y then x else y }

  function Pow2(k: nat): nat { if k == 0 then 1 else 2 * Pow2(k - 1) }

  /** Delay before retry k (from 0), and the first k delays together. */
  function Delay(k: nat): nat { Min(500 * Pow2(k), 8000) }
  function Delays(k: nat): nat { if k == 0 then 0 else Delays(k - 1) + Delay(k - 1) }

  predicate RateLimited(r: Reply) { r.Fail? && r.failure.rate }

  /** Answers from the given post that are rate limits, at most max of them. */
  function LeadingLimits(reply: nat -> Reply, from: nat, max: nat): (k: nat)
    ensures k <= max
    ensures k < max ==> !RateLimited(reply(from + k))
    ensures forall i :: from <= i < from + k ==> RateLimited(reply(i))
    decreases max
  {
    if max == 0 || !RateLimited(reply(from)) then 0 else LeadingLimits(reply, from + 1, max - 1) + 1
  }

  /** The first answer that is no rate limit, or the budget error after maxAttempts rate limits in a row. */
  function Backoff(reply: nat -> Reply, from: nat, maxAttempts: int): Outcome {
    if maxAttempts <= 0 then Outcome(Fail(NoAttempt), from, 0)
    else
      var k := LeadingLimits(reply, from, maxAttempts);
      if k < maxAttempts then Outcome(reply(from + k), from + k + 1, Delays(k))
      else Outcome(Fail(Exhausted(reply(from + maxAttempts - 1).failure)), from + maxAttempts, Delays(maxAttempts - 1))
  }

  lemma {:induction false} DelayDoubles(k: nat)
    ensures Delay(k + 1) == Min(Delay(k) * 2, 8000)
  {
    assert Pow2(k + 1) == 2 * Pow2(k);
  }

  lemma {:induction false} LimitsAre(reply: nat -> Reply, from: nat, max: nat, k: nat)
    requires k <= max && (forall i :: from <= i < from + k ==> RateLimited(reply(i))) &&
      (k < max ==> !RateLimited(reply(from + k)))
    ensures LeadingLimits(reply, from, max) == k
    decreases k
  {
    if k > 0 {
      assert RateLimited(reply(from));
      LimitsAre(reply, from + 1, max - 1, k - 1);
    }
  }

  /** The loop: post, and on a rate limit sleep and double the delay up to the cap. */
  method With429Backoff(reply: nat -> Reply, from: nat, maxAttempts: int) returns (o: Outcome)
    ensures o == Backoff(reply, from, maxAttempts)
  {
    var delayMs, slept, attempt := 500, 0, 1;
    while attempt <= maxAttempts
      invariant 1 <= attempt && (maxAttempts >= 1 ==> attempt <= maxAttempts) && (maxAttempts < 1 ==> attempt == 1)
      invariant forall i :: from <= i < from + attempt - 1 ==> RateLimited(reply(i))
      invariant delayMs == Delay(attempt - 1) && slept == Delays(attempt - 1)
      decreases maxAttempts - attempt
    {
      var r := reply(from + attempt - 1);
      if r.Value? || !r.failure.rate {
        LimitsAre(reply, from, maxAttempts, attempt - 1);
        return Outcome(r, from + attempt, slept);
      }
      if attempt == maxAttempts {
        LimitsAre(reply, from, maxAttempts, attempt);
        return Outcome(Fail(Exhausted(r.failure)), from + attempt, slept);
      }
      DelayDoubles(attempt - 1);
      slept := slept + delayMs;
      delayMs := Min(delayMs * 2, 8000);
      attempt := attempt + 1;
    }
    return Outcome(Fail(NoAttempt), from, 0);
  }

  /** No answer of the network is itself a budget error. */
  ghost predicate Fresh(reply: nat -> Reply) {
    forall i ::
      !(reply(i).Fail? && reply(i).failure.budget) &&
      !(reply(i).Value? && reply(i).payload.Unmappable? && reply(i).payload.failure.budget)
  }

  /**
   The budget error comes exactly after maxAttempts rate limits in a row; otherwise the first other
   answer is passed on.
   */
  lemma BudgetErrorIff(reply: nat -> Reply, from: nat, maxAttempts: int)
    requires maxAttempts >= 1 && Fresh(reply)
    ensures var o := Backoff(reply, from, maxAttempts);
      && ((o.result.Fail? && o.result.failure.budget) <==> forall i ::
        from <= i < from + maxAttempts ==> RateLimited(reply(i)))
      && (o.result.Fail? && o.result.failure.budget ==>
        o.posts == from + maxAttempts && o.slept == Delays(maxAttempts - 1))
      && (!(o.result.Fail? && o.result.failure.budget) ==>
            from < o.posts <= from + maxAttempts && o.result == reply(o.posts - 1) && !RateLimited(o.result)
            && o.slept == Delays(o.posts - 1 - from)
            && forall i :: from <= i < o.posts - 1 ==> RateLimited(reply(i)))
  {
    var k := LeadingLimits(reply, from, maxAttempts);
    if k < maxAttempts { assert !RateLimited(reply(from + k)); }
  }

  lemma {:induction false} PowGrows(k: nat)
    ensures k >= 4 ==> Pow2(k) >= 16
    decreases k
  {
    if k > 4 { PowGrows(k - 1); } else if k == 4 { assert Pow2(3) == 8; }
  }

  /** Every delay is at least 500 and at most 8000, so n attempts sleep at most 8000 * (n - 1) milliseconds. */
  lemma {:induction false} DelaysBounded(k: nat)
    ensures 500 * k <= Delays(k) <= 8000 * k
    ensures k >= 4 ==> Delays(k) == 7500 + 8000 * (k - 4)
    decreases k
  {
    if k > 0 {
      DelaysBounded(k - 1);
      PowPositive(k - 1);
      PowGrows(k - 1);
      if k == 4 {
        assert Pow2(1) == 2 && Pow2(2) == 4 && Pow2(3) == 8;
        assert Delays(1) == 500 && Delays(2) == 1500 && Delays(3) == 3500;
      }
    }
  }

  lemma {:induction false} PowPositive(k: nat)
    ensures Pow2(k) >= 1
    decreases k
  {
    if k > 0 { PowPositive(k - 1); }
  }

  // ---------------------------------------------------------------- posts of successive calls

  /** When a call that started at `start` makes post k: each answer takes its time, each delay follows it. */
  function PostTime(start: real, latency: nat -> real, k: nat): real {
    if k == 0 then start else PostTime(start, latency, k - 1) + latency(k - 1) + Delay(k - 1) as real
  }

  ghost predicate Latencies(latency: nat -> real) {
    forall k :: latency(k) >= 0.0
  }

  /** The first post of the next call, entered at `now`, after a call that started at `start`. */
  function NextPost(interval: real, start: real, now: real): real { MaxReal(now, start + interval) }

  /** The posts of one call are at least half a second apart. */
  lemma {:induction false} PostsApart(start: real, latency: nat -> real, k: nat)
    requires Latencies(latency)
    ensures PostTime(start, latency, k) >= start + Delays(k) as real
    ensures PostTime(start, latency, k + 1) >= PostTime(start, latency, k) + 500.0
    decreases k
  {
    assert latency(k) >= 0.0;
    PowPositive(k);
    if k > 0 {
      PostsApart(start, latency, k - 1);
      assert latency(k - 1) >= 0.0;
    }
  }

  lemma {:induction false} PostsAtOnce(start: real, latency: nat -> real, k: nat)
    requires forall i :: latency(i) == 0.0
    ensures PostTime(start, latency, k) == start + Delays(k) as real
    decreases k
  {
    if k > 0 { PostsAtOnce(start, latency, k - 1); }
  }

  /** Whether the next call always posts an interval or more after the last of `n` posts of this one. */
  ghost predicate AlwaysSpaced(interval: real, n: nat)
    requires n >= 1
  {
    forall start: real, latency: nat -> real, now: real ::
      Latencies(latency) && now >= PostTime(start, latency, n - 1) + latency(n - 1) ==>
        PostTime(start, latency, n - 1) + interval <= NextPost(interval, start, now)
  }

  /**
   The limiter spaces the posts of serial callers exactly as long as no call is retried: the interval runs
   from the start of a call, so after a retry the next call may post at the moment of the last answer.
   */
  lemma PostsSpacedIff(interval: real, n: nat)
    requires interval > 0.0 && n >= 1
    ensures AlwaysSpaced(interval, n) <==> n == 1
    ensures n >= 2 && interval <= 500.0 ==>
      exists latency ::
        Latencies(latency) && NextPost(interval, 0.0, PostTime(0.0, latency, n - 1)) == PostTime(0.0, latency, n - 1)
  {
    if n >= 2 {
      var latency: nat -> real := _ => 0.0;
      PostsAtOnce(0.0, latency, n - 1);
      DelaysBounded(n - 1);
      var last := PostTime(0.0, latency, n - 1);
      assert last >= 500.0;
      assert !(last + interval <= NextPost(interval, 0.0, last));
      assert Latencies(latency) && last >= PostTime(0.0, latency, n - 1) + latency(n - 1);
    }
  }

  // ---------------------------------------------------------------- getBlock

  datatype BlockOutcome = Found(id: nat) | MissingBlock | Thrown(failure: Failure)

  /** One attempt: null and the missing-block errors are missing, also when the mapper throws them. */
  function Attempt(o: Outcome): BlockOutcome {
    match o.result
    case Value(Null) => MissingBlock
    case Value(Block(id)) => Found(id)
    case Value(Unmappable(f)) => if IsMissing(f) then MissingBlock else Thrown(f)
    case Fail(f) => if IsMissing(f) then MissingBlock else Thrown(f)
  }

  /** The answers of n attempts in a row, were they all made. */
  function Answers(reply: nat -> Reply, from: nat, maxAttempts: int, n: nat): (r: seq<BlockOutcome>)
    ensures |r| == n
    decreases n
  {
    if n == 0 then []
    else
      var o := Backoff(reply, from, maxAttempts);
      [Attempt(o)] + Answers(reply, o.posts, maxAttempts, n - 1)
  }

  /** Posts made after n attempts in a row. */
  function PostsAfter(reply: nat -> Reply, from: nat, maxAttempts: int, n: nat): nat
    decreases n
  {
    if n == 0 then from else PostsAfter(reply, Backoff(reply, from, maxAttempts).posts, maxAttempts, n - 1)
  }

  datatype BlockRun = BlockRun(outcome: BlockOutcome, posts: nat, calls: nat)

  /** One attempt, and the others while it is missing and attempts are left. */
  function BlockFrom(reply: nat -> Reply, from: nat, maxAttempts: int, left: nat): BlockRun
    decreases left
  {
    var o := Backoff(reply, from, maxAttempts);
    if Attempt(o) == MissingBlock && left > 0 then
      var rest := BlockFrom(reply, o.posts, maxAttempts, left - 1);
      rest.(calls := rest.calls + 1)
    else BlockRun(Attempt(o), o.posts, 1)
  }

  /** The retry loop of getBlock; with no attempt allowed the block counts as missing. */
  method GetBlock(reply: nat -> Reply, from: nat, missingBlockRetries: int, rateLimitMaxAttempts: int)
      returns (r: BlockRun)
    ensures r == if missingBlockRetries < 0 then BlockRun(MissingBlock, from, 0)
                 else BlockFrom(reply, from, rateLimitMaxAttempts, missingBlockRetries)
  {
    var posts, calls, attempt := from, 0, 0;
    ghost var all := if missingBlockRetries < 0 then BlockRun(MissingBlock, from, 0)
                     else BlockFrom(reply, from, rateLimitMaxAttempts, missingBlockRetries);
    while attempt <= missingBlockRetries
      invariant 0 <= calls == attempt
      invariant if attempt <= missingBlockRetries then
                  (var rest := BlockFrom(reply, posts, rateLimitMaxAttempts, missingBlockRetries - attempt);
                    all == rest.(calls := rest.calls + calls))
                else all == BlockRun(MissingBlock, posts, calls)
      decreases missingBlockRetries - attempt
    {
      calls := calls + 1;
      var o := With429Backoff(reply, posts, rateLimitMaxAttempts);
      posts := o.posts;
      var answer := Attempt(o);
      if answer != MissingBlock || attempt == missingBlockRetries { return BlockRun(answer, posts, calls); }
      attempt := attempt + 1;
    }
    return BlockRun(MissingBlock, posts, calls);
  }

  /** The run stopped at the first answer that is not missing, or at the last of them. */
  ghost predicate FirstAnswer(r: BlockRun, answers: seq<BlockOutcome>) {
    && 1 <= r.calls <= |answers| && r.outcome == answers[r.calls - 1]
    && (forall i :: 0 <= i < r.calls - 1 ==> answers[i] == MissingBlock)
    && (r.outcome == MissingBlock ==> r.calls == |answers|)
  }

  lemma OneMoreMissing(r: BlockRun, answers: seq<BlockOutcome>)
    requires FirstAnswer(r, answers)
    ensures FirstAnswer(r.(calls := r.calls + 1), [MissingBlock] + answers)
  {
  }

  /** The first attempt that is not missing decides, or the last one. */
  lemma {:induction false} FirstAnswerDecides(reply: nat -> Reply, from: nat, maxAttempts: int, left: nat)
    ensures FirstAnswer(BlockFrom(reply, from, maxAttempts, left), Answers(reply, from, maxAttempts, left + 1))
    decreases left
  {
    var o := Backoff(reply, from, maxAttempts);
    if Attempt(o) == MissingBlock && left > 0 {
      FirstAnswerDecides(reply, o.posts, maxAttempts, left - 1);
      OneMoreMissing(BlockFrom(reply, o.posts, maxAttempts, left - 1), Answers(reply, o.posts, maxAttempts, left));
    }
  }

  ghost predicate AllMissing(answers: seq<BlockOutcome>) {
    forall i :: 0 <= i < |answers| ==> answers[i] == MissingBlock
  }

  /** A block is reported missing exactly when every allowed attempt was. */
  lemma MissingIff(reply: nat -> Reply, from: nat, maxAttempts: int, left: nat)
    ensures BlockFrom(reply, from, maxAttempts, left).outcome == MissingBlock <==>
      AllMissing(Answers(reply, from, maxAttempts, left + 1))
  {
    FirstAnswerDecides(reply, from, maxAttempts, left);
  }

  // ---------------------------------------------------------------- getBlock, read off the replies

  /** Posts from the first to the last: all are rate limits but the last, unless the budget is used up. */
  ghost predicate OneBudgetOf(reply: nat -> Reply, first: nat, last: nat, maxAttempts: int) {
    && first <= last < first + maxAttempts
    && (forall j :: first <= j < last ==> reply(j).Fail? && reply(j).failure.rate)
    && (reply(last).Fail? && reply(last).failure.rate ==> last == first + maxAttempts - 1)
  }

  /** `ends` are the last posts of successive attempts, each of which begins after the one before. */
  ghost predicate Budgets(reply: nat -> Reply, from: nat, maxAttempts: int, ends: seq<nat>)
    decreases |ends|
  {
    ends == [] ||
      (OneBudgetOf(reply, from, ends[0], maxAttempts) && Budgets(reply, ends[0] + 1, maxAttempts, ends[1..]))
  }

  /**
   The last reply of an attempt says that the block is missing: null, or a failure whose text or code says so, in
   the answer or in mapping it. Of a rate limit only the text is kept, in the budget error.
   */
  predicate SaysMissing(r: Reply) {
    match r
    case Value(Null) => true
    case Value(Block(_)) => false
    case Value(Unmappable(f)) => f.missText || f.missCode
    case Fail(f) => f.missText || (f.missCode && !f.rate)
  }

  /** What getBlock answers when this reply decides. */
  ghost predicate Decides(r: Reply, o: BlockOutcome) {
    match r
    case Value(Null) => false
    case Value(Block(id)) => o == Found(id)
    case Value(Unmappable(f)) => o == Thrown(f)
    case Fail(f) =>
      o.Thrown? && (if f.rate then o.failure == Failure(true, false, false, true, false) else o.failure == f)
  }

  /** Every stream of replies splits into attempts, as many as wanted. */
  lemma {:induction false} BudgetsExist(reply: nat -> Reply, from: nat, maxAttempts: int, n: nat)
      returns (ends: seq<nat>)
    requires maxAttempts >= 1
    ensures |ends| == n && Budgets(reply, from, maxAttempts, ends)
    decreases n
  {
    if n == 0 {
      ends := [];
    } else {
      var last := BudgetEnds(reply, from, maxAttempts);
      var rest := BudgetsExist(reply, last + 1, maxAttempts, n - 1);
      ends := [last] + rest;
      assert ends[1..] == rest;
    }
  }

  lemma BudgetEnds(reply: nat -> Reply, first: nat, maxAttempts: int) returns (last: nat)
    requires maxAttempts >= 1
    ensures OneBudgetOf(reply, first, last, maxAttempts)
  {
    var k := LeadingLimits(reply, first, maxAttempts);
    last := if k < maxAttempts then first + k else first + maxAttempts - 1;
    forall j | first <= j < last ensures reply(j).Fail? && reply(j).failure.rate { assert RateLimited(reply(j)); }
  }

  lemma BudgetIsBackoff(reply: nat -> Reply, first: nat, last: nat, maxAttempts: int)
    requires maxAttempts >= 1 && OneBudgetOf(reply, first, last, maxAttempts)
    ensures var o := Backoff(reply, first, maxAttempts);
      && o.posts == last + 1
      && (Attempt(o) == MissingBlock <==> SaysMissing(reply(last)))
      && (!SaysMissing(reply(last)) ==> Decides(reply(last), Attempt(o)))
  {
    forall j | first <= j < last ensures RateLimited(reply(j)) {}
    if RateLimited(reply(last)) {
      LimitsAre(reply, first, maxAttempts, maxAttempts);
    } else {
      LimitsAre(reply, first, maxAttempts, last - first);
    }
  }

  /** The run stopped at the first of these replies that does not say missing, which decided, or at the last. */
  ghost predicate StopsAt(lasts: seq<Reply>, r: BlockRun) {
    && 1 <= r.calls <= |lasts|
    && (forall i :: 0 <= i < r.calls - 1 ==> SaysMissing(lasts[i]))
    && (r.outcome == MissingBlock ==> r.calls == |lasts| && SaysMissing(lasts[r.calls - 1]))
    && (r.outcome != MissingBlock ==> !SaysMissing(lasts[r.calls - 1]) && Decides(lasts[r.calls - 1], r.outcome))
  }

  function Lasts(reply: nat -> Reply, ends: seq<nat>): seq<Reply> {
    seq(|ends|, i requires 0 <= i < |ends| => reply(ends[i]))
  }

  lemma StopsLater(lasts: seq<Reply>, r: BlockRun)
    requires lasts != [] && SaysMissing(lasts[0]) && StopsAt(lasts[1..], r)
    ensures StopsAt(lasts, r.(calls := r.calls + 1))
  {
    assert forall i :: 1 <= i < |lasts| ==> lasts[i] == lasts[1..][i - 1];
  }

  lemma LastsRest(reply: nat -> Reply, ends: seq<nat>)
    requires ends != []
    ensures Lasts(reply, ends)[0] == reply(ends[0]) && Lasts(reply, ends)[1..] == Lasts(reply, ends[1..])
  {
  }

  lemma StopsNow(lasts: seq<Reply>, r: BlockRun)
    requires lasts != [] && r.calls == 1 && (SaysMissing(lasts[0]) ==> |lasts| == 1)
    requires r.outcome == MissingBlock <==> SaysMissing(lasts[0])
    requires !SaysMissing(lasts[0]) ==> Decides(lasts[0], r.outcome)
    ensures StopsAt(lasts, r)
  {
  }

  /** What one attempt makes of the run, given its last reply and the run of the attempts after it. */
  ghost predicate AttemptMakes(r: BlockRun, lastReply: Reply, last: nat, left: nat, later: BlockRun) {
    if SaysMissing(lastReply) && left > 0 then r == later.(calls := later.calls + 1)
    else
      && r.calls == 1 && r.posts == last + 1 && (r.outcome == MissingBlock <==> SaysMissing(lastReply))
      && (!SaysMissing(lastReply) ==> Decides(lastReply, r.outcome))
  }

  lemma OneAttempt(reply: nat -> Reply, from: nat, maxAttempts: int, left: nat, last: nat)
    requires maxAttempts >= 1 && OneBudgetOf(reply, from, last, maxAttempts)
    ensures AttemptMakes(BlockFrom(reply, from, maxAttempts, left), reply(last), last, left,
                         BlockFrom(reply, last + 1, maxAttempts, if left > 0 then left - 1 else 0))
  {
    BudgetIsBackoff(reply, from, last, maxAttempts);
  }

  /** The runs of the attempts that are left, from each attempt on. */
  ghost predicate Runs(lasts: seq<Reply>, ends: seq<nat>, runs: seq<BlockRun>) {
    && |lasts| == |ends| == |runs|
    && forall i :: 0 <= i < |runs| ==>
         AttemptMakes(runs[i], lasts[i], ends[i], |runs| - 1 - i, runs[if i + 1 < |runs| then i + 1 else i])
  }

  lemma {:induction false} RunsOf(reply: nat -> Reply, from: nat, maxAttempts: int, ends: seq<nat>)
      returns (runs: seq<BlockRun>)
    requires maxAttempts >= 1 && ends != [] && Budgets(reply, from, maxAttempts, ends)
    ensures Runs(Lasts(reply, ends), ends, runs) && runs[0] == BlockFrom(reply, from, maxAttempts, |ends| - 1)
    decreases |ends|
  {
    var r := BlockFrom(reply, from, maxAttempts, |ends| - 1);
    OneAttempt(reply, from, maxAttempts, |ends| - 1, ends[0]);
    if |ends| == 1 {
      runs := [r];
    } else {
      var rest := RunsOf(reply, ends[0] + 1, maxAttempts, ends[1..]);
      runs := [r] + rest;
      RunsCons(Lasts(reply, ends), ends, Lasts(reply, ends[1..]), ends[1..], r, rest);
    }
  }

  lemma RunsCons(lasts: seq<Reply>, ends: seq<nat>, lasts1: seq<Reply>, ends1: seq<nat>, r: BlockRun,
      rest: seq<BlockRun>)
    requires |lasts| == |ends| > 1 && lasts1 == lasts[1..] && ends1 == ends[1..] && Runs(lasts1, ends1, rest)
    requires AttemptMakes(r, lasts[0], ends[0], |rest|, rest[0])
    ensures Runs(lasts, ends, [r] + rest)
  {
    var runs := [r] + rest;
    forall i | 0 <= i < |runs|
      ensures AttemptMakes(runs[i], lasts[i], ends[i], |runs| - 1 - i, runs[if i + 1 < |runs| then i + 1 else i])
    {
      if i > 0 {
        assert AttemptMakes(rest[i - 1], lasts1[i - 1], ends1[i - 1], |rest| - i,
          rest[if i < |rest| then i else i - 1]);
      }
    }
  }

  lemma {:induction false} RunsStop(lasts: seq<Reply>, ends: seq<nat>, runs: seq<BlockRun>)
    requires Runs(lasts, ends, runs) && runs != []
    ensures StopsAt(lasts, runs[0]) && runs[0].posts == ends[runs[0].calls - 1] + 1
    decreases |runs|
  {
    assert AttemptMakes(runs[0], lasts[0], ends[0], |runs| - 1, runs[if 1 < |runs| then 1 else 0]);
    if SaysMissing(lasts[0]) && |runs| > 1 {
      RunsRest(lasts, ends, runs);
      RunsStop(lasts[1..], ends[1..], runs[1..]);
      StopsLater(lasts, runs[1]);
    } else {
      StopsNow(lasts, runs[0]);
    }
  }

  lemma RunsRest(lasts: seq<Reply>, ends: seq<nat>, runs: seq<BlockRun>)
    requires Runs(lasts, ends, runs) && |runs| > 1
    ensures Runs(lasts[1..], ends[1..], runs[1..])
  {
    var l, e, r := lasts[1..], ends[1..], runs[1..];
    forall i | 0 <= i < |r|
      ensures AttemptMakes(r[i], l[i], e[i], |r| - 1 - i, r[if i + 1 < |r| then i + 1 else i])
    {
      var k := i + 1;
      assert AttemptMakes(runs[k], lasts[k], ends[k], |runs| - 1 - k, runs[if k + 1 < |runs| then k + 1 else k]);
    }
  }

  /**
   getBlock on the replies alone. It reports missing exactly when the last reply of each of the allowed attempts
   says so; otherwise the first attempt whose last reply does not say so is its last, and that reply decides.
   */
  lemma GetBlockByReplies(reply: nat -> Reply, from: nat, maxAttempts: int, left: nat, ends: seq<nat>)
    requires maxAttempts >= 1 && |ends| == left + 1 && Budgets(reply, from, maxAttempts, ends)
    ensures var r := BlockFrom(reply, from, maxAttempts, left);
      && (r.outcome == MissingBlock <==> forall i :: 0 <= i <= left ==> SaysMissing(reply(ends[i])))
      && 1 <= r.calls <= left + 1 && r.posts == ends[r.calls - 1] + 1
      && (forall i :: 0 <= i < r.calls - 1 ==> SaysMissing(reply(ends[i])))
      && (r.outcome == MissingBlock ==> r.calls == left + 1)
      && (r.outcome != MissingBlock ==> Decides(reply(ends[r.calls - 1]), r.outcome))
  {
    var runs := RunsOf(reply, from, maxAttempts, ends);
    RunsStop(Lasts(reply, ends), ends, runs);
    assert forall i :: 0 <= i <= left ==> Lasts(reply, ends)[i] == reply(ends[i]);
  }

  /** With no post allowed nothing is asked, and an error that says nothing is thrown at once. */
  lemma NothingAsked(reply: nat -> Reply, from: nat, maxAttempts: int, left: nat)
    requires maxAttempts <= 0
    ensures BlockFrom(reply, from, maxAttempts, left) ==
      BlockRun(Thrown(Failure(false, false, false, false, true)), from, 1)
    ensures Backoff(reply, from, maxAttempts) == Outcome(Fail(Failure(false, false, false, false, true)), from, 0)
  {
  }

  lemma {:induction false} PostsAreCounted(reply: nat -> Reply, from: nat, maxAttempts: int, left: nat)
    ensures var r := BlockFrom(reply, from, maxAttempts, left);
      1 <= r.calls <= left + 1 && r.posts == PostsAfter(reply, from, maxAttempts, r.calls)
    decreases left
  {
    var o := Backoff(reply, from, maxAttempts);
    if Attempt(o) == MissingBlock && left > 0 { PostsAreCounted(reply, o.posts, maxAttempts, left - 1); }
  }

  function Times(n: nat, m: nat): nat { if n == 0 then 0 else Times(n - 1, m) + m }

  lemma {:induction false} TimesIsProduct(n: nat, m: nat)
    ensures Times(n, m) == n * m
    decreases n
  {
    if n > 0 {
      TimesIsProduct(n - 1, m);
      assert n * m == (n - 1) * m + m;
    }
  }

  lemma {:induction false} TimesGrows(n: nat, k: nat, m: nat)
    requires n <= k
    ensures Times(n, m) <= Times(k, m)
    decreases k
  {
    if n < k { TimesGrows(n, k - 1, m); }
  }

  /** An attempt makes at least one post and at most maxAttempts. */
  lemma {:induction false} PostsPerAttempt(reply: nat -> Reply, from: nat, maxAttempts: int, n: nat)
    requires maxAttempts >= 1
    ensures from + n <= PostsAfter(reply, from, maxAttempts, n) <= from + Times(n, maxAttempts)
    decreases n
  {
    if n > 0 {
      OneBudget(reply, from, maxAttempts);
      PostsPerAttempt(reply, Backoff(reply, from, maxAttempts).posts, maxAttempts, n - 1);
    }
  }

  lemma OneBudget(reply: nat -> Reply, from: nat, maxAttempts: int)
    requires maxAttempts >= 1
    ensures from < Backoff(reply, from, maxAttempts).posts <= from + maxAttempts
  {
  }

  /** getBlock makes at most (retries + 1) * maxAttempts posts. */
  lemma PostsAllowed(reply: nat -> Reply, from: nat, maxAttempts: int, retries: nat)
    requires maxAttempts >= 1
    ensures var r := BlockFrom(reply, from, maxAttempts, retries);
      from + r.calls <= r.posts <= from + (retries + 1) * maxAttempts
  {
    var r := BlockFrom(reply, from, maxAttempts, retries);
    PostsAreCounted(reply, from, maxAttempts, retries);
    PostsPerAttempt(reply, from, maxAttempts, r.calls);
    TimesGrows(r.calls, retries + 1, maxAttempts);
    TimesIsProduct(retries + 1, maxAttempts);
  }

  /**
   "Slot 429 was skipped" counts as a rate limit before it counts as missing: the slot is still reported
   missing, but only after every attempt has used its whole budget.
   */
  lemma {:induction false} Slot429CostsTheWholeBudget(reply: nat -> Reply, from: nat, maxAttempts: int, left: nat)
    requires maxAttempts >= 1 && forall i :: reply(i) == Fail(Failure(true, true, false, false, false))
    ensures BlockFrom(reply, from, maxAttempts, left) ==
      BlockRun(MissingBlock, from + Times(left + 1, maxAttempts), left + 1)
    decreases left
  {
    LimitsAre(reply, from, maxAttempts, maxAttempts);
    if left > 0 { Slot429CostsTheWholeBudget(reply, from + maxAttempts, maxAttempts, left - 1); }
  }
}
