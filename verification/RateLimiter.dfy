/** The per-device token bucket. */
module RateLimiter {
  import opened RealSums

  // ----- one bucket -----

  datatype BucketState = BucketState(tokens: real, lastRefill: real)

  function NewBucket(burst: int, now: real): BucketState {
    BucketState(burst as real, now)
  }

  /** tokens after gaining some, capped at burst, and after paying for one request if they suffice. */
  function Drained(burst: int, tokens: real, gained: real): (real, bool) {
    var level := Min(burst as real, tokens + gained);
    if level >= 1.0 then (level - 1.0, true) else (level, false)
  }

  /** The tokens that flow in over a stretch of time. */
  function Gain(elapsed: real, rate: real): real { elapsed * rate }

  function Consumed(burst: int, rate: real, s: BucketState, now: real): (BucketState, bool) {
    var (tokens, granted) := Drained(burst, s.tokens, Gain(now - s.lastRefill, rate));
    (BucketState(tokens, now), granted)
  }

  class Bucket {
    const burst: int
    const refillRate: real
    var tokens: real
    var lastRefill: real

    constructor (burst: int, refillRate: real, now: real)
      ensures this.burst == burst && this.refillRate == refillRate
      ensures State() == NewBucket(burst, now)
    {
      this.burst := burst;
      this.refillRate := refillRate;
      this.tokens := burst as real;
      this.lastRefill := now;
    }

    function State(): BucketState
      reads this
    {
      BucketState(tokens, lastRefill)
    }

    method Consume(now: real) returns (granted: bool)
      modifies this
      ensures (State(), granted) == Consumed(burst, refillRate, old(State()), now)
    {
      var elapsed := now - lastRefill;
      tokens := Min(burst as real, tokens + Gain(elapsed, refillRate));
      lastRefill := now;
      if tokens >= 1.0 {
        tokens := tokens - 1.0;
        return true;
      }
      return false;
    }
  }

  // ----- the limiter -----

  function Key(deviceId: string): string {
    if deviceId == "" then "__global__" else deviceId
  }

  datatype Limits = Limits(maxPerSec: real, burst: int, buckets: map<string, BucketState>)

  /** created is the clock when the bucket is made, should this call make it; now is the clock consume reads. */
  function Allowed(s: Limits, deviceId: string, created: real, now: real): (Limits, bool) {
    var key := Key(deviceId);
    var bucket := if key in s.buckets then s.buckets[key] else NewBucket(s.burst, created);
    var (bucket', granted) := Consumed(s.burst, s.maxPerSec, bucket, now);
    (s.(buckets := s.buckets[key := bucket']), granted)
  }

  class TokenBucketRateLimiter {
    var maxPerSec: real
    var burst: int
    var buckets: map<string, Bucket>

    constructor (maxPerSec: real, burst: int)
      ensures Valid() && Model() == Limits(maxPerSec, burst, map[])
    {
      this.maxPerSec := maxPerSec;
      this.burst := burst;
      this.buckets := map[];
    }

    /** Every device has a bucket object of its own, made with the limits in force. */
    ghost predicate Valid()
      reads this, buckets.Values
    {
      && (forall k | k in buckets :: buckets[k].burst == burst && buckets[k].refillRate == maxPerSec)
      && (forall k, l | k in buckets && l in buckets && k != l :: buckets[k] != buckets[l])
    }

    ghost function Model(): Limits
      reads this, buckets.Values
    {
      Limits(maxPerSec, burst, map k | k in buckets :: buckets[k].State())
    }

    method Allow(deviceId: string, created: real, now: real) returns (granted: bool)
      requires Valid()
      modifies this, buckets.Values
      ensures Valid() && fresh(buckets.Values - old(buckets.Values))
      ensures (Model(), granted) == Allowed(old(Model()), deviceId, created, now)
    {
      var key := if deviceId == "" then "__global__" else deviceId;
      AddBucket(key, created);
      ghost var before := Model().buckets;
      granted := buckets[key].Consume(now);
      assert (buckets[key].State(), granted) == Consumed(burst, maxPerSec, before[key], now);
      assert Model().buckets == before[key := buckets[key].State()];
      assert before[key := buckets[key].State()] == old(Model()).buckets[key := buckets[key].State()];
    }

    /** The first call of a device makes its bucket. */
    method AddBucket(key: string, created: real)
      requires Valid()
      modifies this
      ensures Valid() && key in buckets && maxPerSec == old(maxPerSec) && burst == old(burst)
      ensures if key in old(buckets) then buckets == old(buckets)
              else fresh(buckets[key]) && buckets == old(buckets)[key := buckets[key]]
      ensures Model() == old(Model()).(buckets :=
        if key in old(buckets) then old(Model()).buckets
            else old(Model()).buckets[key := NewBucket(old(burst), created)])
    {
      if key !in buckets {
        var bucket := new Bucket(burst, maxPerSec, created);
        ghost var before := Model().buckets;
        buckets := buckets[key := bucket];
        assert buckets[key] == bucket;
        assert Model().buckets == before[key := NewBucket(burst, created)];
      }
    }

    method UpdateLimits(maxPerSec: real, burst: int)
      modifies this
      ensures Valid() && Model() == Limits(maxPerSec, burst, map[])
    {
      this.maxPerSec := maxPerSec;
      this.burst := burst;
      this.buckets := map[];
    }
  }

  // ----- what a bucket grants -----

  function After(burst: int, rate: real, created: real, times: seq<real>): BucketState
    decreases |times|
  {
    if times == [] then NewBucket(burst, created)
    else Consumed(burst, rate, After(burst, rate, created, times[..|times| - 1]), times[|times| - 1]).0
  }

  function Answers(burst: int, rate: real, created: real, times: seq<real>): (answers: seq<bool>)
    ensures |answers| == |times|
    decreases |times|
  {
    if times == [] then []
    else
      var init := times[..|times| - 1];
      Answers(burst, rate, created, init)
      + [Consumed(burst, rate, After(burst, rate, created, init), times[|times| - 1]).1]
  }

  /** How many of the answers from index i on are grants. */
  function Grants(answers: seq<bool>, i: nat): nat
    decreases |answers|
  {
    if |answers| <= i then 0
    else Grants(answers[..|answers| - 1], i) + if answers[|answers| - 1] then 1 else 0
  }

  /** The most a window of this length may grant. */
  function Quota(burst: int, rate: real, length: real): real {
    burst as real + Gain(length, rate)
  }

  /** One more grant now keeps every window that ends now, from creation or an earlier call on, within its quota. */
  predicate Fits(burst: int, rate: real, created: real, times: seq<real>, answers: seq<bool>, now: real) {
    && (Grants(answers, 0) + 1) as real <= Quota(burst, rate, now - created)
    && (forall i | 0 <= i < |times| :: (Grants(answers, i) + 1) as real <= Quota(burst, rate, now - times[i]))
    && 1 <= burst
  }

  // ----- the same bucket on a clock that counts credit: all arithmetic is linear -----

  function Last(c0: real, c: seq<real>): real {
    if c == [] then c0 else c[|c| - 1]
  }

  function CreditAfter(burst: int, c0: real, c: seq<real>): real
    decreases |c|
  {
    if c == [] then burst as real
    else
      var init := c[..|c| - 1];
      Drained(burst, CreditAfter(burst, c0, init), c[|c| - 1] - Last(c0, init)).0
  }

  function CreditAnswers(burst: int, c0: real, c: seq<real>): (answers: seq<bool>)
    ensures |answers| == |c|
    decreases |c|
  {
    if c == [] then []
    else
      var init := c[..|c| - 1];
      CreditAnswers(burst, c0, init) + [Drained(burst, CreditAfter(burst, c0, init), c[|c| - 1] - Last(c0, init)).1]
  }

  /** How far a window that began at this credit is from its quota. */
  function Slack(burst: int, start: real, now: real, grants: nat): real {
    burst as real + (now - start) - grants as real
  }

  /** What is in the bucket is the slack of the tightest window. */
  predicate Tightest(burst: int, c0: real, c: seq<real>, answers: seq<bool>, tokens: real) {
    var now := Last(c0, c);
    && tokens <= Slack(burst, c0, now, Grants(answers, 0))
    && (forall i | 0 <= i < |c| :: tokens <= Slack(burst, c[i], now, Grants(answers, i)))
    && (tokens == Slack(burst, c0, now, Grants(answers, 0))
        || exists i :: 0 <= i < |c| && tokens == Slack(burst, c[i], now, Grants(answers, i)))
  }

  lemma GrantsSnoc(answers: seq<bool>, b: bool, i: nat)
    requires i <= |answers|
    ensures Grants(answers + [b], i) == Grants(answers, i) + if b then 1 else 0
  {
    assert (answers + [b])[..|answers|] == answers;
  }

  lemma TightestSnoc(burst: int, c0: real, c: seq<real>, answers: seq<bool>, tokens: real, now: real)
    requires |answers| == |c| && Tightest(burst, c0, c, answers, tokens)
    ensures var (tokens', granted) := Drained(burst, tokens, now - Last(c0, c));
      Tightest(burst, c0, c + [now], answers + [granted], tokens')
  {
    var (tokens', granted) := Drained(burst, tokens, now - Last(c0, c));
    var (n, c', answers') := (|c|, c + [now], answers + [granted]);
    forall i | 0 <= i <= n ensures Grants(answers', i) == Grants(answers, i) + if granted then 1 else 0 {
      GrantsSnoc(answers, granted, i);
    }
    assert c'[n] == now && Grants(answers, n) == 0;
    if i :| 0 <= i < n && tokens == Slack(burst, c[i], Last(c0, c), Grants(answers, i)) {
      assert c'[i] == c[i];
    }
  }

  lemma TightestStep(burst: int, c0: real, c: seq<real>)
    requires c != []
    requires var init := c[..|c| - 1];
      Tightest(burst, c0, init, CreditAnswers(burst, c0, init), CreditAfter(burst, c0, init))
    ensures Tightest(burst, c0, c, CreditAnswers(burst, c0, c), CreditAfter(burst, c0, c))
  {
    var init, now := c[..|c| - 1], c[|c| - 1];
    TightestSnoc(burst, c0, init, CreditAnswers(burst, c0, init), CreditAfter(burst, c0, init), now);
    CreditSnoc(burst, c0, init, now);
    assert init + [now] == c;
  }

  lemma {:induction false} CreditIsTightest(burst: int, c0: real, c: seq<real>)
    ensures Tightest(burst, c0, c, CreditAnswers(burst, c0, c), CreditAfter(burst, c0, c))
    decreases |c|
  {
    if c != [] {
      CreditIsTightest(burst, c0, c[..|c| - 1]);
      TightestStep(burst, c0, c);
    }
  }

  predicate CreditFits(burst: int, c0: real, c: seq<real>, answers: seq<bool>, now: real) {
    && Slack(burst, c0, now, Grants(answers, 0)) >= 1.0
    && (forall i | 0 <= i < |c| :: Slack(burst, c[i], now, Grants(answers, i)) >= 1.0)
    && 1 <= burst
  }

  lemma DrainedIffFits(burst: int, c0: real, c: seq<real>, answers: seq<bool>, now: real)
    requires answers == CreditAnswers(burst, c0, c)
    ensures Drained(burst, CreditAfter(burst, c0, c), now - Last(c0, c)).1 <==> CreditFits(burst, c0, c, answers, now)
  {
    CreditIsTightest(burst, c0, c);
  }

  // ----- from credit back to time -----

  function Credits(rate: real, times: seq<real>): (c: seq<real>)
    ensures |c| == |times|
    decreases |times|
  {
    if times == [] then [] else Credits(rate, times[..|times| - 1]) + [Credit(rate, times[|times| - 1])]
  }

  function Credit(rate: real, time: real): real {
    rate * time
  }

  lemma {:induction false} CreditAt(rate: real, times: seq<real>, i: nat)
    requires i < |times|
    ensures Credits(rate, times)[i] == Credit(rate, times[i])
    decreases |times|
  {
    if i < |times| - 1 {
      CreditAt(rate, times[..|times| - 1], i);
    }
  }

  lemma CreditGained(rate: real, s: real, t: real)
    ensures Gain(t - s, rate) == Credit(rate, t) - Credit(rate, s)
  {
  }

  /** The bucket's whole story so far, on both clocks. */
  predicate SameStory(burst: int, rate: real, created: real, times: seq<real>, s: BucketState, answers: seq<bool>) {
    && s.tokens == CreditAfter(burst, Credit(rate, created), Credits(rate, times))
    && Credit(rate, s.lastRefill) == Last(Credit(rate, created), Credits(rate, times))
    && answers == CreditAnswers(burst, Credit(rate, created), Credits(rate, times))
  }

  lemma CreditSnoc(burst: int, c0: real, c: seq<real>, now: real)
    ensures var drained := Drained(burst, CreditAfter(burst, c0, c), now - Last(c0, c));
      && CreditAfter(burst, c0, c + [now]) == drained.0
      && CreditAnswers(burst, c0, c + [now]) == CreditAnswers(burst, c0, c) + [drained.1]
      && Last(c0, c + [now]) == now
  {
    assert (c + [now])[..|c|] == c;
  }

  lemma StorySnocOnCredit(burst: int, rate: real, c0: real, c: seq<real>, s: BucketState, answers: seq<bool>,
                          now: real, credit: real)
    requires s.tokens == CreditAfter(burst, c0, c) && answers == CreditAnswers(burst, c0, c)
    requires Gain(now - s.lastRefill, rate) == credit - Last(c0, c)
    ensures var (s', granted) := Consumed(burst, rate, s, now);
      && s'.tokens == CreditAfter(burst, c0, c + [credit]) && s'.lastRefill == now
      && answers + [granted] == CreditAnswers(burst, c0, c + [credit])
      && Last(c0, c + [credit]) == credit
  {
    CreditSnoc(burst, c0, c, credit);
  }

  lemma CreditsSnoc(rate: real, times: seq<real>, now: real)
    ensures Credits(rate, times + [now]) == Credits(rate, times) + [Credit(rate, now)]
  {
    assert (times + [now])[..|times|] == times;
  }

  lemma StorySnoc(burst: int, rate: real, created: real, times: seq<real>, s: BucketState, answers: seq<bool>,
                  now: real)
    requires SameStory(burst, rate, created, times, s, answers)
    ensures var (s', granted) := Consumed(burst, rate, s, now);
      SameStory(burst, rate, created, times + [now], s', answers + [granted])
  {
    CreditsSnoc(rate, times, now);
    CreditGained(rate, s.lastRefill, now);
    StorySnocOnCredit(burst, rate, Credit(rate, created), Credits(rate, times), s, answers, now, Credit(rate, now));
  }

  lemma {:induction false} SameAsCredit(burst: int, rate: real, created: real, times: seq<real>)
    ensures SameStory(burst, rate, created, times, After(burst, rate, created, times),
                      Answers(burst, rate, created, times))
    decreases |times|
  {
    if times != [] {
      var init, now := times[..|times| - 1], times[|times| - 1];
      SameAsCredit(burst, rate, created, init);
      StorySnoc(burst, rate, created, init, After(burst, rate, created, init), Answers(burst, rate, created, init),
                now);
      assert init + [now] == times;
    }
  }

  lemma SlackIsQuota(burst: int, rate: real, start: real, now: real, grants: nat)
    ensures Slack(burst, Credit(rate, start), Credit(rate, now), grants) >= 1.0
       <==> (grants + 1) as real <= Quota(burst, rate, now - start)
  {
    CreditGained(rate, start, now);
  }

  lemma ConsumedIffCreditFits(burst: int, rate: real, c0: real, c: seq<real>, s: BucketState,
                              answers: seq<bool>, now: real, credit: real)
    requires s.tokens == CreditAfter(burst, c0, c) && answers == CreditAnswers(burst, c0, c)
    requires Gain(now - s.lastRefill, rate) == credit - Last(c0, c)
    ensures Consumed(burst, rate, s, now).1 <==> CreditFits(burst, c0, c, answers, credit)
  {
    DrainedIffFits(burst, c0, c, answers, credit);
  }

  lemma FitsOnBothClocks(burst: int, rate: real, created: real, past: seq<real>, answers: seq<bool>, now: real)
    ensures CreditFits(burst, Credit(rate, created), Credits(rate, past), answers, Credit(rate, now))
       <==> Fits(burst, rate, created, past, answers, now)
  {
    SlackIsQuota(burst, rate, created, now, Grants(answers, 0));
    forall i | 0 <= i < |past|
      ensures Slack(burst, Credits(rate, past)[i], Credit(rate, now), Grants(answers, i)) >= 1.0
         <==> (Grants(answers, i) + 1) as real <= Quota(burst, rate, now - past[i])
    {
      CreditAt(rate, past, i);
      SlackIsQuota(burst, rate, past[i], now, Grants(answers, i));
    }
  }

  lemma ConsumedIffFits(burst: int, rate: real, created: real, past: seq<real>, now: real)
    ensures Consumed(burst, rate, After(burst, rate, created, past), now).1
       <==> Fits(burst, rate, created, past, Answers(burst, rate, created, past), now)
  {
    var s, answers := After(burst, rate, created, past), Answers(burst, rate, created, past);
    SameAsCredit(burst, rate, created, past);
    CreditGained(rate, s.lastRefill, now);
    ConsumedIffCreditFits(burst, rate, Credit(rate, created), Credits(rate, past), s, answers, now, Credit(rate, now));
    FitsOnBothClocks(burst, rate, created, past, answers, now);
  }

  /** Sound and complete: a call is granted exactly when every window that ends in it stays within its quota. */
  lemma GrantedIffFits(burst: int, rate: real, created: real, times: seq<real>, j: nat)
    requires j < |times|
    ensures var past := times[..j];
      Answers(burst, rate, created, times)[j]
      <==> Fits(burst, rate, created, past, Answers(burst, rate, created, times)[..j], times[j])
  {
    AnswersPrefix(burst, rate, created, times, j);
    ConsumedIffFits(burst, rate, created, times[..j], times[j]);
  }

  lemma {:induction false} AnswersPrefix(burst: int, rate: real, created: real, times: seq<real>, j: nat)
    requires j < |times|
    ensures Answers(burst, rate, created, times)[..j] == Answers(burst, rate, created, times[..j])
    ensures Answers(burst, rate, created, times)[j]
         == Consumed(burst, rate, After(burst, rate, created, times[..j]), times[j]).1
    decreases |times|
  {
    var init := times[..|times| - 1];
    if j < |init| {
      AnswersPrefix(burst, rate, created, init, j);
      assert init[..j] == times[..j];
    }
  }

  /** Every window of calls that ends in call j has room for one more grant. */
  predicate WindowsFit(burst: int, rate: real, times: seq<real>, answers: seq<bool>, j: nat)
    requires j < |times| == |answers|
  {
    forall i | 0 <= i <= j :: (Grants(answers[..j], i) + 1) as real <= Quota(burst, rate, times[j] - times[i])
  }

  lemma GainMonotone(s: real, t: real, rate: real)
    requires s <= t && rate >= 0.0
    ensures Gain(s, rate) <= Gain(t, rate)
  {
    assert Gain(t, rate) - Gain(s, rate) == (t - s) * rate;
  }

  lemma GainNothing(rate: real)
    ensures Gain(0.0, rate) == 0.0
  {
  }

  /** With a refill rate that is not negative, the windows between calls decide alone. */
  lemma GrantedIffWindowsFit(burst: int, rate: real, created: real, times: seq<real>, j: nat)
    requires rate >= 0.0 && j < |times| && created <= times[0]
    ensures var answers := Answers(burst, rate, created, times);
      answers[j] <==> WindowsFit(burst, rate, times, answers, j)
  {
    var answers := Answers(burst, rate, created, times);
    GrantedIffFits(burst, rate, created, times, j);
    GainMonotone(times[j] - times[0], times[j] - created, rate);
    GainNothing(rate);
    assert Grants(answers[..j], j) == 0;
    assert times[..j] == times[..j] && forall i | 0 <= i < j :: times[..j][i] == times[i];
  }

  lemma {:induction false} GrantsSplit(answers: seq<bool>, j: nat, i: nat)
    requires i <= j < |answers| && answers[j]
    requires forall k | j < k < |answers| :: !answers[k]
    ensures Grants(answers, i) == Grants(answers[..j], i) + 1
    decreases |answers|
  {
    var init := answers[..|answers| - 1];
    if j < |init| {
      GrantsSplit(init, j, i);
      assert init[..j] == answers[..j];
    }
  }

  lemma {:induction false} LastGrant(answers: seq<bool>, i: nat) returns (j: nat)
    requires Grants(answers, i) > 0
    ensures i <= j < |answers| && answers[j] && forall k | j < k < |answers| :: !answers[k]
    decreases |answers|
  {
    if answers[|answers| - 1] {
      j := |answers| - 1;
    } else {
      j := LastGrant(answers[..|answers| - 1], i);
    }
  }

  /** No stretch of calls, wherever it begins and ends, is granted more than burst + rate * its length. */
  lemma NoWindowExceedsQuota(burst: int, rate: real, created: real, times: seq<real>, i: nat)
    requires rate >= 0.0 && i < |times| && created <= times[0]
    requires forall k, l | 0 <= k <= l < |times| :: times[k] <= times[l]
    ensures var grants := Grants(Answers(burst, rate, created, times), i);
      grants == 0 || grants as real <= Quota(burst, rate, times[|times| - 1] - times[i])
  {
    var answers := Answers(burst, rate, created, times);
    if Grants(answers, i) > 0 {
      var j := LastGrant(answers, i);
      GrantsSplit(answers, j, i);
      GrantedIffWindowsFit(burst, rate, created, times, j);
      GainMonotone(times[j] - times[i], times[|times| - 1] - times[i], rate);
    }
  }

  // ----- many devices -----

  datatype Call = Call(deviceId: string, created: real, now: real)

  /** What the limiter answers to a sequence of calls, and the state it ends in. */
  function Serve(s: Limits, calls: seq<Call>): (r: (Limits, seq<bool>))
    ensures |r.1| == |calls|
    decreases |calls|
  {
    if calls == [] then (s, [])
    else
      var (s', answers) := Serve(s, calls[..|calls| - 1]);
      var c := calls[|calls| - 1];
      var (s'', granted) := Allowed(s', c.deviceId, c.created, c.now);
      (s'', answers + [granted])
  }

  /** The answers to the calls of one bucket. */
  function AnswersTo(calls: seq<Call>, answers: seq<bool>, key: string): seq<bool>
    requires |calls| == |answers|
    decreases |calls|
  {
    if calls == [] then []
    else
      var (n, before) := (|calls| - 1, AnswersTo(calls[..|calls| - 1], answers[..|calls| - 1], key));
      if Key(calls[n].deviceId) == key then before + [answers[n]] else before
  }

  function TimesOf(calls: seq<Call>, key: string): seq<real>
    decreases |calls|
  {
    if calls == [] then []
    else
      var (n, before) := (|calls| - 1, TimesOf(calls[..|calls| - 1], key));
      if Key(calls[n].deviceId) == key then before + [calls[n].now] else before
  }

  /** When the bucket of this key was made: at the first of its calls. */
  function CreatedAt(calls: seq<Call>, key: string): real
    decreases |calls|
  {
    if calls == [] then 0.0
    else
      var (init, c) := (calls[..|calls| - 1], calls[|calls| - 1]);
      if TimesOf(init, key) == [] && Key(c.deviceId) == key then c.created else CreatedAt(init, key)
  }

  /** Devices do not feel each other: each is answered as by a bucket of its own that saw only its calls. */
  lemma {:induction false} DevicesAreIsolated(s: Limits, calls: seq<Call>, key: string)
    requires s.buckets == map[]
    ensures var ((s', answers), times) := (Serve(s, calls), TimesOf(calls, key));
      && s'.burst == s.burst && s'.maxPerSec == s.maxPerSec
      && AnswersTo(calls, answers, key) == Answers(s.burst, s.maxPerSec, CreatedAt(calls, key), times)
      && (key in s'.buckets <==> times != [])
      && (key in s'.buckets ==> s'.buckets[key] == After(s.burst, s.maxPerSec, CreatedAt(calls, key), times))
    decreases |calls|
  {
    if calls != [] {
      DevicesAreIsolated(s, calls[..|calls| - 1], key);
    }
  }

  /** Only the empty id shares a bucket with another id, namely with the id its calls are filed under. */
  lemma SharedBucketIff(d1: string, d2: string)
    ensures Key(d1) == Key(d2) <==> d1 == d2 || {d1, d2} == {"", "__global__"}
  {
  }
}
