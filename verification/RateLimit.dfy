/** The per-user token bucket: exact reals for the floats, clock readings as parameters. */
module RateLimit {

  datatype Bucket = Bucket(tokens: real, maxTokens: real, refillRate: real, lastRefill: real)

  ghost predicate Wf(b: Bucket) {
    0.0 <= b.tokens <= b.maxTokens && 0.0 <= b.refillRate
  }

  function Min(a: real, b: real): real {
    if a < b then a else b
  }

  function Max(a: real, b: real): real {
    if a < b then b else a
  }

  function Fresh(burst: nat, perSecond: real, now: real): Bucket {
    Bucket(burst as real, burst as real, perSecond, now)
  }

  /** The tokens that the clock earns from one reading to another. */
  function Earned(rate: real, from: real, to: real): real {
    (to - from) * rate
  }

  function Refill(b: Bucket, now: real): Bucket {
    if now - b.lastRefill > 0.0 then
      b.(tokens := Min(b.maxTokens, b.tokens + Earned(b.refillRate, b.lastRefill, now)), lastRefill := now)
    else b
  }

  /** One request against the refilled bucket: admitted iff a whole token is there. */
  predicate Admits(b: Bucket, now: real) {
    Refill(b, now).tokens >= 1.0
  }

  function Take(b: Bucket, now: real, admit: bool): Bucket {
    var r := Refill(b, now);
    if admit then r.(tokens := r.tokens - 1.0) else r
  }

  function After(b: Bucket, now: real): Bucket {
    Take(b, now, Admits(b, now))
  }

  /** The bucket after requests at `ts`, and the decision on each of them. */
  function State(b: Bucket, ts: seq<real>): Bucket {
    if ts == [] then b else After(State(b, ts[..|ts| - 1]), ts[|ts| - 1])
  }

  function Decisions(b: Bucket, ts: seq<real>): (d: seq<bool>)
    ensures |d| == |ts|
  {
    if ts == [] then []
    else
      var front := ts[..|ts| - 1];
      Decisions(b, front) + [Admits(State(b, front), ts[|ts| - 1])]
  }

  function Admitted(d: seq<bool>): nat {
    if d == [] then 0 else Admitted(d[..|d| - 1]) + if d[|d| - 1] then 1 else 0
  }

  lemma {:induction false} AdmittedCounts(d: seq<bool>)
    ensures Admitted(d) == multiset(d)[true]
  {
    if d != [] {
      assert d == d[..|d| - 1] + [d[|d| - 1]];
      AdmittedCounts(d[..|d| - 1]);
    }
  }

  /** The latest clock reading among `from` and `ts`. */
  function Latest(from: real, ts: seq<real>): real {
    if ts == [] then from else Max(Latest(from, ts[..|ts| - 1]), ts[|ts| - 1])
  }

  /** It is the highest of them. */
  lemma {:induction false} LatestIsHighest(from: real, ts: seq<real>)
    ensures from <= Latest(from, ts) && forall t :: t in ts ==> t <= Latest(from, ts)
    ensures Latest(from, ts) == from || Latest(from, ts) in ts
  {
    if ts != [] {
      assert ts == ts[..|ts| - 1] + [ts[|ts| - 1]];
      LatestIsHighest(from, ts[..|ts| - 1]);
    }
  }

  // ---------------------------------------------------------------- window bound

  lemma EarnedPositive(rate: real, from: real, to: real)
    requires 0.0 <= rate && from <= to
    ensures 0.0 <= Earned(rate, from, to)
  {
  }

  lemma EarnedAdds(rate: real, from: real, mid: real, to: real)
    ensures Earned(rate, from, mid) + Earned(rate, mid, to) == Earned(rate, from, to)
  {
    assert (mid - from) * rate + (to - mid) * rate == (to - from) * rate;
  }

  lemma AfterWf(b: Bucket, now: real)
    requires Wf(b)
    ensures Wf(Refill(b, now)) && Wf(After(b, now))
    ensures After(b, now).lastRefill == Max(b.lastRefill, now)
  {
    hide Earned;
    if now > b.lastRefill { EarnedPositive(b.refillRate, b.lastRefill, now); }
  }

  /** The level stays between empty and full, and the clock of the bucket is the
      latest reading seen, over every history of requests, backward readings included. */
  lemma {:induction false} LevelBounded(b: Bucket, ts: seq<real>)
    requires Wf(b)
    ensures Wf(State(b, ts))
    ensures State(b, ts).maxTokens == b.maxTokens && State(b, ts).refillRate == b.refillRate
    ensures State(b, ts).lastRefill == Latest(b.lastRefill, ts)
  {
    if ts != [] {
      var front := ts[..|ts| - 1];
      LevelBounded(b, front);
      AfterWf(State(b, front), ts[|ts| - 1]);
    }
  }

  /** Tokens in hand, less the tokens that the clock alone would have earned. */
  ghost function Credit(b: Bucket): real {
    b.tokens - Earned(b.refillRate, 0.0, b.lastRefill)
  }

  lemma PaidOnce(b: Bucket, now: real)
    requires Wf(b)
    ensures (if Admits(b, now) then 1.0 else 0.0) + Credit(After(b, now)) <= Credit(b)
  {
    hide Earned;
    EarnedAdds(b.refillRate, 0.0, b.lastRefill, now);
  }

  lemma AdmittedSnoc(d: seq<bool>, ok: bool)
    ensures Admitted(d + [ok]) == Admitted(d) + if ok then 1 else 0
  {
    assert (d + [ok])[..|d|] == d;
  }

  /** Every admission is paid for by credit. */
  lemma {:induction false} Paid(b: Bucket, ts: seq<real>)
    requires Wf(b)
    ensures Admitted(Decisions(b, ts)) as real + Credit(State(b, ts)) <= Credit(b)
  {
    if ts != [] {
      var front, now := ts[..|ts| - 1], ts[|ts| - 1];
      Paid(b, front);
      LevelBounded(b, front);
      AdmittedSnoc(Decisions(b, front), Admits(State(b, front), now));
      PaidOnce(State(b, front), now);
    }
  }

  lemma {:induction false} StateSplit(b: Bucket, xs: seq<real>, ys: seq<real>)
    ensures State(b, xs + ys) == State(State(b, xs), ys)
    ensures Decisions(b, xs + ys) == Decisions(b, xs) + Decisions(State(b, xs), ys)
  {
    if ys == [] {
      assert xs + ys == xs;
    } else {
      var front := ys[..|ys| - 1];
      assert (xs + ys)[..|xs + ys| - 1] == xs + front;
      StateSplit(b, xs, front);
    }
  }

  /** Splitting the first request off: the refill it causes is counted in the start level. */
  lemma RefillFirst(b: Bucket, ts: seq<real>)
    requires Wf(b) && ts != []
    ensures Decisions(b, ts) == Decisions(Refill(b, ts[0]), ts)
    decreases |ts|
  {
    var r := Refill(b, ts[0]);
    assert Refill(r, ts[0]) == r;
    assert ts == [ts[0]] + ts[1..];
    StateSplit(b, [ts[0]], ts[1..]);
    StateSplit(r, [ts[0]], ts[1..]);
    assert [ts[0]][..0] == [];
    assert State(b, [ts[0]]) == After(b, ts[0]) == After(r, ts[0]) == State(r, [ts[0]]);
    assert Decisions(b, [ts[0]]) == [Admits(b, ts[0])] == Decisions(r, [ts[0]]);
  }

  lemma LatestSplit(from: real, xs: seq<real>, ys: seq<real>)
    ensures Latest(from, xs + ys) == Latest(Latest(from, xs), ys)
  {
    if ys == [] {
      assert xs + ys == xs;
    } else {
      assert (xs + ys)[..|xs + ys| - 1] == xs + ys[..|ys| - 1];
      LatestSplit(from, xs, ys[..|ys| - 1]);
    }
  }

  /** `n` admissions fit in a burst and the refill between two clock readings. */
  ghost predicate WithinQuota(n: nat, burst: real, rate: real, from: real, to: real) {
    n as real <= burst + (to - from) * rate
  }

  lemma LatestFrom(high: real, low: real, ts: seq<real>)
    requires ts != [] && high == Max(low, ts[0])
    ensures Latest(high, ts) == Latest(low, ts)
    decreases |ts|
  {
    if |ts| > 1 {
      LatestFrom(high, low, ts[..|ts| - 1]);
    } else {
      assert ts[..0] == [];
    }
  }

  lemma QuotaEarned(n: nat, burst: real, rate: real, from: real, to: real)
    ensures WithinQuota(n, burst, rate, from, to) <==> n as real <= burst + Earned(rate, from, to)
  {
  }

  lemma Spend(b: Bucket, c: Bucket, n: nat)
    requires Wf(b) && Wf(c) && b.refillRate == c.refillRate
    requires n as real + Credit(c) <= Credit(b)
    ensures WithinQuota(n, b.maxTokens, b.refillRate, b.lastRefill, c.lastRefill)
  {
    hide Earned;
    EarnedAdds(b.refillRate, 0.0, b.lastRefill, c.lastRefill);
    QuotaEarned(n, b.maxTokens, b.refillRate, b.lastRefill, c.lastRefill);
  }

  /** The bound for a window that starts now. */
  lemma WindowFrom(at: Bucket, window: seq<real>)
    requires Wf(at) && window != []
    ensures WithinQuota(Admitted(Decisions(at, window)), at.maxTokens, at.refillRate,
                        Max(at.lastRefill, window[0]), Latest(at.lastRefill, window))
  {
    AfterWf(at, window[0]);
    RefillFirst(at, window);
    var start := Refill(at, window[0]);
    Paid(start, window);
    LevelBounded(start, window);
    LatestFrom(start.lastRefill, at.lastRefill, window);
    Spend(start, State(start, window), Admitted(Decisions(start, window)));
  }

  lemma DecisionsSlice(b: Bucket, ts: seq<real>, i: nat, j: nat)
    requires i <= j <= |ts|
    ensures Decisions(b, ts)[i..j] == Decisions(State(b, ts[..i]), ts[i..j])
  {
    assert ts == ts[..j] + ts[j..] && ts[..j] == ts[..i] + ts[i..j];
    StateSplit(b, ts[..j], ts[j..]);
    StateSplit(b, ts[..i], ts[i..j]);
  }

  lemma LatestSlice(from: real, ts: seq<real>, i: nat, j: nat)
    requires i < j <= |ts|
    ensures Latest(Latest(from, ts[..i]), ts[i..j]) == Latest(from, ts[..j])
    ensures Max(Latest(from, ts[..i]), ts[i..j][0]) == Latest(from, ts[..i + 1])
  {
    assert ts[..j] == ts[..i] + ts[i..j] && ts[..i + 1][..i] == ts[..i];
    LatestSplit(from, ts[..i], ts[i..j]);
  }

  /** The quota promise: whatever the history, requests i..j admit at most
      burst + rate * (time between them), time being the highest clock reading so far. */
  lemma WindowBound(b: Bucket, ts: seq<real>, i: nat, j: nat)
    requires Wf(b) && i < j <= |ts|
    ensures WithinQuota(Admitted(Decisions(b, ts)[i..j]), b.maxTokens, b.refillRate,
                        Latest(b.lastRefill, ts[..i + 1]), Latest(b.lastRefill, ts[..j]))
  {
    hide Latest;
    hide Decisions;
    hide Admitted;
    hide State;
    hide WithinQuota;
    LevelBounded(b, ts[..i]);
    DecisionsSlice(b, ts, i, j);
    WindowFrom(State(b, ts[..i]), ts[i..j]);
    LatestSlice(b.lastRefill, ts, i, j);
  }

  /** With a clock that never goes back, the highest reading is the current one. */
  lemma {:induction false} LatestOfSteady(from: real, ts: seq<real>)
    requires ts != [] && from <= ts[0]
    requires forall k, l :: 0 <= k < l < |ts| ==> ts[k] <= ts[l]
    ensures Latest(from, ts) == ts[|ts| - 1]
    decreases |ts|
  {
    if |ts| > 1 {
      LatestOfSteady(from, ts[..|ts| - 1]);
    } else {
      assert ts[..0] == [];
    }
  }

  /** The quota in elapsed time, for calls whose clock never goes back. */
  lemma SteadyWindowBound(b: Bucket, ts: seq<real>, i: nat, j: nat)
    requires Wf(b) && i < j <= |ts| && b.lastRefill <= ts[0]
    requires forall k, l :: 0 <= k < l < |ts| ==> ts[k] <= ts[l]
    ensures WithinQuota(Admitted(Decisions(b, ts)[i..j]), b.maxTokens, b.refillRate, ts[i], ts[j - 1])
  {
    WindowBound(b, ts, i, j);
    LatestOfSteady(b.lastRefill, ts[..j]);
    LatestOfSteady(b.lastRefill, ts[..i + 1]);
  }

  // ---------------------------------------------------------------- optimality

  ghost function Spent(b: Bucket, ts: seq<real>, pick: seq<bool>): Bucket
    requires |pick| == |ts|
  {
    if ts == [] then b
    else var n := |ts| - 1; Take(Spent(b, ts[..n], pick[..n]), ts[n], pick[n])
  }

  /** Admitting by the choices `pick` never takes a token that is not there. */
  ghost predicate Affordable(b: Bucket, ts: seq<real>, pick: seq<bool>)
    requires |pick| == |ts|
  {
    ts == [] ||
    var n := |ts| - 1;
    && Affordable(b, ts[..n], pick[..n])
    && (pick[n] ==> Refill(Spent(b, ts[..n], pick[..n]), ts[n]).tokens >= 1.0)
  }

  /** The limiter's own decisions are such a choice. */
  lemma {:induction false} OwnChoiceAffordable(b: Bucket, ts: seq<real>)
    ensures Affordable(b, ts, Decisions(b, ts)) && Spent(b, ts, Decisions(b, ts)) == State(b, ts)
  {
    if ts != [] {
      OwnChoiceAffordable(b, ts[..|ts| - 1]);
      assert Decisions(b, ts)[..|ts| - 1] == Decisions(b, ts[..|ts| - 1]);
    }
  }

  lemma GreedyStep(g: Bucket, p: Bucket, lead: int, now: real, pick: bool)
    requires g.lastRefill == p.lastRefill && g.maxTokens == p.maxTokens && g.refillRate == p.refillRate
    requires lead >= 0 && g.tokens + lead as real >= p.tokens
    requires pick ==> Refill(p, now).tokens >= 1.0
    ensures var lead' := lead + (if Admits(g, now) then 1 else 0) - (if pick then 1 else 0);
            lead' >= 0 && After(g, now).tokens + lead' as real >= Take(p, now, pick).tokens
  {
    hide Earned;
    assert Refill(g, now).tokens + lead as real >= Refill(p, now).tokens;
  }

  /** Greedy stays ahead: at least as many admissions, and what it is short in tokens it
      has already admitted more. */
  lemma {:induction false} GreedyAhead(b: Bucket, ts: seq<real>, pick: seq<bool>)
    requires |pick| == |ts| && Affordable(b, ts, pick)
    ensures var g, p := State(b, ts), Spent(b, ts, pick);
            && Admitted(Decisions(b, ts)) >= Admitted(pick)
            && g.tokens + Admitted(Decisions(b, ts)) as real >= p.tokens + Admitted(pick) as real
            && g.lastRefill == p.lastRefill && g.maxTokens == p.maxTokens && g.refillRate == p.refillRate
  {
    if ts != [] {
      var n := |ts| - 1;
      GreedyAhead(b, ts[..n], pick[..n]);
      var g, p := State(b, ts[..n]), Spent(b, ts[..n], pick[..n]);
      AdmittedSnoc(Decisions(b, ts[..n]), Admits(g, ts[n]));
      GreedyStep(g, p, Admitted(Decisions(b, ts[..n])) - Admitted(pick[..n]), ts[n], pick[n]);
    }
  }

  lemma AffordableAhead(b: Bucket, ts: seq<real>, pick: seq<bool>, k: nat)
    requires k <= |ts| == |pick| && Affordable(b, ts, pick)
    ensures Admitted(pick[..k]) <= Admitted(Decisions(b, ts)[..k])
    decreases |ts|
  {
    var n := |ts| - 1;
    if k == |ts| {
      assert pick[..k] == pick && Decisions(b, ts)[..k] == Decisions(b, ts);
      GreedyAhead(b, ts, pick);
    } else {
      AffordableAhead(b, ts[..n], pick[..n], k);
      assert pick[..n][..k] == pick[..k];
      assert Decisions(b, ts)[..n] == Decisions(b, ts[..n]);
      assert Decisions(b, ts)[..n][..k] == Decisions(b, ts)[..k];
    }
  }

  // ---------------------------------------------------------------- the quota, without the bucket

  /** The choices `pick` keep the quota: what is admitted up to any request fits the first level and
      the time since then, and what is admitted in any window fits a full bucket and its time. */
  ghost predicate Conforms(b: Bucket, ts: seq<real>, pick: seq<bool>)
    requires |pick| == |ts|
  {
    && (forall j: nat :: j <= |ts| ==>
          WithinQuota(Admitted(pick[..j]), b.tokens, b.refillRate, b.lastRefill, Latest(b.lastRefill, ts[..j])))
    && (forall i: nat, j: nat :: i < j <= |ts| ==>
          WithinQuota(Admitted(pick[i..j]), b.maxTokens, b.refillRate,
                      Latest(b.lastRefill, ts[..i + 1]), Latest(b.lastRefill, ts[..j])))
  }

  lemma {:induction false} SpentClock(b: Bucket, ts: seq<real>, pick: seq<bool>)
    requires |pick| == |ts|
    ensures var p := Spent(b, ts, pick);
            p.lastRefill == Latest(b.lastRefill, ts) && p.maxTokens == b.maxTokens && p.refillRate == b.refillRate
  {
    if ts != [] { SpentClock(b, ts[..|ts| - 1], pick[..|ts| - 1]); }
  }

  lemma EarnedNothing(rate: real, at: real)
    ensures Earned(rate, at, at) == 0.0
  {
  }

  /** What one request does to an account. */
  lemma TakeLevel(p: Bucket, now: real, pick: bool)
    ensures var cost, after := if pick then 1.0 else 0.0, Take(p, now, pick);
            && after.lastRefill == Max(p.lastRefill, now)
            && after.tokens + cost <= p.tokens + Earned(p.refillRate, p.lastRefill, after.lastRefill)
            && (p.tokens <= p.maxTokens ==> after.tokens + cost <= p.maxTokens)
            && (after.tokens + cost == p.tokens + Earned(p.refillRate, p.lastRefill, after.lastRefill)
                || after.tokens + cost == p.maxTokens)
  {
    EarnedNothing(p.refillRate, p.lastRefill);
    hide Earned;
  }

  lemma LastPick(pick: seq<bool>, i: nat)
    requires i < |pick|
    ensures var n := |pick| - 1;
            Admitted(pick[i..]) == (if i == n then 0 else Admitted(pick[..n][i..])) + if pick[n] then 1 else 0
  {
    var n := |pick| - 1;
    assert pick[i..] == pick[..n][i..] + [pick[n]];
    AdmittedSnoc(pick[..n][i..], pick[n]);
  }

  /** The account never holds more than the quota leaves, counted from the start or from any request. */
  lemma {:induction false} SpentAtMost(b: Bucket, ts: seq<real>, pick: seq<bool>, i: nat)
    requires |pick| == |ts| && b.tokens <= b.maxTokens && i <= |ts|
    ensures var p := Spent(b, ts, pick);
            && p.tokens <= p.maxTokens
            && p.tokens + Admitted(pick) as real <= b.tokens + Earned(b.refillRate, b.lastRefill, p.lastRefill)
            && (i < |ts| ==>
                  p.tokens + Admitted(pick[i..]) as real
                  <= b.maxTokens + Earned(b.refillRate, Latest(b.lastRefill, ts[..i + 1]), p.lastRefill))
    decreases |ts|
  {
    EarnedNothing(b.refillRate, Spent(b, ts, pick).lastRefill);
    hide Earned;
    if ts != [] {
      var n := |ts| - 1;
      var p, after := Spent(b, ts[..n], pick[..n]), Spent(b, ts, pick);
      SpentAtMost(b, ts[..n], pick[..n], if i <= n then i else n);
      SpentClock(b, ts[..n], pick[..n]);
      SpentClock(b, ts, pick);
      TakeLevel(p, ts[n], pick[n]);
      EarnedAdds(b.refillRate, b.lastRefill, p.lastRefill, after.lastRefill);
      if i < |ts| {
        LastPick(pick, i);
        assert ts[..n + 1] == ts;
        if i < n {
          assert ts[..n][..i + 1] == ts[..i + 1];
          EarnedAdds(b.refillRate, Latest(b.lastRefill, ts[..i + 1]), p.lastRefill, after.lastRefill);
        }
      }
    }
  }

  /** It does hold what the quota leaves, counted from the start or from some request. */
  lemma {:induction false} SpentReached(b: Bucket, ts: seq<real>, pick: seq<bool>) returns (i: nat)
    requires |pick| == |ts|
    ensures i <= |ts|
    ensures var p := Spent(b, ts, pick);
            if i < |ts| then
              p.tokens + Admitted(pick[i..]) as real
              == b.maxTokens + Earned(b.refillRate, Latest(b.lastRefill, ts[..i + 1]), p.lastRefill)
            else p.tokens + Admitted(pick) as real == b.tokens + Earned(b.refillRate, b.lastRefill, p.lastRefill)
    decreases |ts|
  {
    EarnedNothing(b.refillRate, Spent(b, ts, pick).lastRefill);
    hide Earned;
    if ts == [] {
      i := 0;
    } else {
      var n := |ts| - 1;
      var p, after := Spent(b, ts[..n], pick[..n]), Spent(b, ts, pick);
      var k := SpentReached(b, ts[..n], pick[..n]);
      SpentClock(b, ts[..n], pick[..n]);
      SpentClock(b, ts, pick);
      TakeLevel(p, ts[n], pick[n]);
      assert ts[..n + 1] == ts;
      var cost := if pick[n] then 1.0 else 0.0;
      if after.tokens + cost == p.maxTokens {
        i := n;
        LastPick(pick, n);
      } else if k < n {
        i := k;
        LastPick(pick, k);
        assert ts[..n][..k + 1] == ts[..k + 1];
        EarnedAdds(b.refillRate, Latest(b.lastRefill, ts[..k + 1]), p.lastRefill, after.lastRefill);
      } else {
        i := |ts|;
        EarnedAdds(b.refillRate, b.lastRefill, p.lastRefill, after.lastRefill);
      }
    }
  }

  lemma AffordablePrefix(b: Bucket, ts: seq<real>, pick: seq<bool>, j: nat)
    requires |pick| == |ts| && Affordable(b, ts, pick) && j <= |ts|
    ensures Affordable(b, ts[..j], pick[..j])
    decreases |ts|
  {
    if j == |ts| {
      assert ts[..j] == ts && pick[..j] == pick;
    } else {
      var n := |ts| - 1;
      AffordablePrefix(b, ts[..n], pick[..n], j);
      assert ts[..n][..j] == ts[..j] && pick[..n][..j] == pick[..j];
    }
  }

  lemma {:induction false} AffordableLevel(b: Bucket, ts: seq<real>, pick: seq<bool>)
    requires |pick| == |ts| && Affordable(b, ts, pick) && Wf(b)
    ensures 0.0 <= Spent(b, ts, pick).tokens
  {
    if ts != [] {
      var n := |ts| - 1;
      var p := Spent(b, ts[..n], pick[..n]);
      AffordableLevel(b, ts[..n], pick[..n]);
      SpentClock(b, ts[..n], pick[..n]);
      hide Earned;
      if p.lastRefill < ts[n] { EarnedPositive(p.refillRate, p.lastRefill, ts[n]); }
    }
  }

  lemma WindowConforms(b: Bucket, ts: seq<real>, pick: seq<bool>, i: nat, j: nat)
    requires |pick| == |ts| && Affordable(b, ts, pick) && Wf(b) && i <= j <= |ts|
    ensures WithinQuota(Admitted(pick[..j]), b.tokens, b.refillRate, b.lastRefill, Latest(b.lastRefill, ts[..j]))
    ensures i < j ==> WithinQuota(Admitted(pick[i..j]), b.maxTokens, b.refillRate,
                                  Latest(b.lastRefill, ts[..i + 1]), Latest(b.lastRefill, ts[..j]))
  {
    hide Earned;
    hide WithinQuota;
    AffordablePrefix(b, ts, pick, j);
    AffordableLevel(b, ts[..j], pick[..j]);
    SpentAtMost(b, ts[..j], pick[..j], i);
    SpentClock(b, ts[..j], pick[..j]);
    var to := Latest(b.lastRefill, ts[..j]);
    QuotaEarned(Admitted(pick[..j]), b.tokens, b.refillRate, b.lastRefill, to);
    if i < j {
      assert pick[..j][i..] == pick[i..j] && ts[..j][..i + 1] == ts[..i + 1];
      QuotaEarned(Admitted(pick[i..j]), b.maxTokens, b.refillRate, Latest(b.lastRefill, ts[..i + 1]), to);
    }
  }

  lemma AffordableConforms(b: Bucket, ts: seq<real>, pick: seq<bool>)
    requires |pick| == |ts| && Affordable(b, ts, pick) && Wf(b)
    ensures Conforms(b, ts, pick)
  {
    hide Earned;
    hide WithinQuota;
    hide Affordable;
    forall j: nat | j <= |ts|
      ensures WithinQuota(Admitted(pick[..j]), b.tokens, b.refillRate, b.lastRefill, Latest(b.lastRefill, ts[..j]))
    {
      WindowConforms(b, ts, pick, j, j);
    }
    forall i: nat, j: nat | i < j <= |ts|
      ensures WithinQuota(Admitted(pick[i..j]), b.maxTokens, b.refillRate,
                          Latest(b.lastRefill, ts[..i + 1]), Latest(b.lastRefill, ts[..j]))
    {
      WindowConforms(b, ts, pick, i, j);
    }
  }

  lemma ConformsFront(b: Bucket, ts: seq<real>, pick: seq<bool>)
    requires |pick| == |ts| > 0 && Conforms(b, ts, pick)
    ensures Conforms(b, ts[..|ts| - 1], pick[..|ts| - 1])
  {
    hide WithinQuota;
    var n := |ts| - 1;
    forall j: nat | j <= n ensures ts[..n][..j] == ts[..j] && pick[..n][..j] == pick[..j] {}
    forall i: nat, j: nat | i < j <= n
      ensures pick[..n][i..j] == pick[i..j] && ts[..n][..i + 1] == ts[..i + 1]
    {
    }
  }

  lemma LevelFound(b: Bucket, ts: seq<real>, pick: seq<bool>)
    requires |pick| == |ts| > 0 && Conforms(b, ts, pick)
    ensures Spent(b, ts, pick).tokens >= 0.0
  {
    hide Earned;
    var i := SpentReached(b, ts, pick);
    SpentClock(b, ts, pick);
    assert pick[..|ts|] == pick && ts[..|ts|] == ts;
    var to := Latest(b.lastRefill, ts);
    if i < |ts| {
      assert pick[i..|ts|] == pick[i..];
      QuotaEarned(Admitted(pick[i..]), b.maxTokens, b.refillRate, Latest(b.lastRefill, ts[..i + 1]), to);
    } else {
      QuotaEarned(Admitted(pick), b.tokens, b.refillRate, b.lastRefill, to);
    }
  }

  /** A choice that keeps the quota always finds its token in the account. */
  lemma {:induction false} ConformsAffordable(b: Bucket, ts: seq<real>, pick: seq<bool>)
    requires |pick| == |ts| && Conforms(b, ts, pick)
    ensures Affordable(b, ts, pick)
  {
    if ts != [] {
      var n := |ts| - 1;
      ConformsFront(b, ts, pick);
      ConformsAffordable(b, ts[..n], pick[..n]);
      if pick[n] { LevelFound(b, ts, pick); }
    }
  }

  /** The limiter keeps the quota, and nobody who keeps it ever gets ahead of the limiter, after any
      number of requests. */
  lemma GreedyOptimal(b: Bucket, ts: seq<real>, pick: seq<bool>, k: nat)
    requires Wf(b) && k <= |ts| == |pick| && Conforms(b, ts, pick)
    ensures Conforms(b, ts, Decisions(b, ts))
    ensures multiset(pick[..k])[true] <= multiset(Decisions(b, ts)[..k])[true]
  {
    hide Conforms;
    OwnChoiceAffordable(b, ts);
    AffordableConforms(b, ts, Decisions(b, ts));
    ConformsAffordable(b, ts, pick);
    AffordableAhead(b, ts, pick, k);
    AdmittedCounts(pick[..k]);
    AdmittedCounts(Decisions(b, ts)[..k]);
  }

  // ---------------------------------------------------------------- what is certainly admitted

  /** A request is admitted exactly when the tokens left and those earned since make a whole one. */
  lemma AdmitsExactly(b: Bucket, now: real)
    requires Wf(b) && b.maxTokens >= 1.0
    ensures Admits(b, now)
            <==> b.tokens + (if now > b.lastRefill then (now - b.lastRefill) * b.refillRate else 0.0) >= 1.0
  {
  }

  /** With `n` tokens in hand the next `n` requests are admitted, whenever they come. */
  lemma {:induction false} NextAdmitted(b: Bucket, ts: seq<real>)
    requires Wf(b) && |ts| as real <= b.tokens
    ensures forall ok :: ok in Decisions(b, ts) ==> ok
    ensures State(b, ts).tokens >= b.tokens - |ts| as real
  {
    if ts != [] {
      var front, now := ts[..|ts| - 1], ts[|ts| - 1];
      NextAdmitted(b, front);
      LevelBounded(b, front);
      var s := State(b, front);
      hide Earned;
      if s.lastRefill < now { EarnedPositive(s.refillRate, s.lastRefill, now); }
    }
  }

  /** The time from one clock reading to another is enough for `n` tokens. */
  ghost predicate LongEnough(n: nat, rate: real, from: real, to: real) {
    (to - from) * rate >= n as real
  }

  lemma Rested(s: Bucket, now: real, n: nat)
    requires Wf(s) && n > 0 && n as real <= s.maxTokens && LongEnough(n, s.refillRate, s.lastRefill, now)
    ensures Wf(Refill(s, now)) && Refill(s, now).tokens >= n as real
  {
    assert Earned(s.refillRate, s.lastRefill, now) >= n as real;
    EarnedNothing(s.refillRate, s.lastRefill);
    hide Earned;
    AfterWf(s, now);
    if now <= s.lastRefill {
      EarnedPositive(s.refillRate, now, s.lastRefill);
      EarnedAdds(s.refillRate, s.lastRefill, now, s.lastRefill);
    }
  }

  /** After any history, once the clock has passed the latest reading by the time that `n` tokens take,
      the next `n` requests are all admitted, if a bucket holds that many. */
  lemma RestRefills(b: Bucket, ts: seq<real>, more: seq<real>)
    requires Wf(b) && more != [] && |more| as real <= b.maxTokens
    requires LongEnough(|more|, b.refillRate, Latest(b.lastRefill, ts), more[0])
    ensures forall ok :: ok in Decisions(b, ts + more)[|ts|..] ==> ok
  {
    hide Decisions;
    hide State;
    hide Refill;
    hide LongEnough;
    LevelBounded(b, ts);
    StateSplit(b, ts, more);
    var s := State(b, ts);
    Rested(s, more[0], |more|);
    RefillFirst(s, more);
    NextAdmitted(Refill(s, more[0]), more);
  }

  // ---------------------------------------------------------------- one bucket per user

  /** One call of limiterMap.allow: `born` is the clock reading newLimiter takes if the
      user has no bucket yet, `now` the one passed to limiter.allow. */
  datatype Call = Call(user: int, born: real, now: real)

  type Buckets = map<int, Bucket>

  function BucketOf(m: Buckets, burst: nat, perSecond: real, c: Call): Bucket {
    if c.user in m then m[c.user] else Fresh(burst, perSecond, c.born)
  }

  function MapAfter(m: Buckets, burst: nat, perSecond: real, c: Call): Buckets {
    m[c.user := After(BucketOf(m, burst, perSecond, c), c.now)]
  }

  function MapState(burst: nat, perSecond: real, calls: seq<Call>): Buckets {
    if calls == [] then map[]
    else
      var n := |calls| - 1;
      MapAfter(MapState(burst, perSecond, calls[..n]), burst, perSecond, calls[n])
  }

  function MapAllows(burst: nat, perSecond: real, calls: seq<Call>): (d: seq<bool>)
    ensures |d| == |calls|
  {
    if calls == [] then []
    else
      var n := |calls| - 1;
      var m := MapState(burst, perSecond, calls[..n]);
      MapAllows(burst, perSecond, calls[..n])
      + [Admits(BucketOf(m, burst, perSecond, calls[n]), calls[n].now)]
  }

  function CallsOf(calls: seq<Call>, user: int): seq<Call> {
    if calls == [] then []
    else
      var n := |calls| - 1;
      CallsOf(calls[..n], user) + if calls[n].user == user then [calls[n]] else []
  }

  /** The decisions that went to one user. */
  function DecisionsOf(calls: seq<Call>, d: seq<bool>, user: int): seq<bool>
    requires |calls| == |d|
  {
    if calls == [] then []
    else
      var n := |calls| - 1;
      DecisionsOf(calls[..n], d[..n], user) + if calls[n].user == user then [d[n]] else []
  }

  function Times(calls: seq<Call>): seq<real> {
    seq(|calls|, i requires 0 <= i < |calls| => calls[i].now)
  }

  /** `m` and `got` are what a lone bucket makes of the calls `own`. */
  ghost predicate LikeLone(burst: nat, perSecond: real, own: seq<Call>, user: int, m: Buckets, got: seq<bool>) {
    if own == [] then user !in m && got == []
    else
      var lone := Fresh(burst, perSecond, own[0].born);
      user in m && m[user] == State(lone, Times(own)) && got == Decisions(lone, Times(own))
  }

  lemma LikeLoneStep(burst: nat, perSecond: real, own: seq<Call>, c: Call, m: Buckets, got: seq<bool>)
    requires LikeLone(burst, perSecond, own, c.user, m, got)
    ensures LikeLone(burst, perSecond, own + [c], c.user, MapAfter(m, burst, perSecond, c),
                     got + [Admits(BucketOf(m, burst, perSecond, c), c.now)])
  {
    var lone := Fresh(burst, perSecond, (own + [c])[0].born);
    assert Times(own + [c]) == Times(own) + [c.now];
    assert (Times(own) + [c.now])[..|own|] == Times(own);
  }

  lemma OneMoreCall(burst: nat, perSecond: real, calls: seq<Call>, c: Call)
    ensures var m := MapState(burst, perSecond, calls);
            && MapState(burst, perSecond, calls + [c]) == MapAfter(m, burst, perSecond, c)
            && MapAllows(burst, perSecond, calls + [c])
               == MapAllows(burst, perSecond, calls) + [Admits(BucketOf(m, burst, perSecond, c), c.now)]
  {
    assert (calls + [c])[..|calls|] == calls;
  }

  /** Users do not interfere: in any interleaving a user gets the decisions of a lone
      bucket, created at the user's first call and fed only that user's calls. */
  lemma {:induction false} UsersIndependent(burst: nat, perSecond: real, calls: seq<Call>, user: int)
    ensures LikeLone(burst, perSecond, CallsOf(calls, user), user, MapState(burst, perSecond, calls),
                     DecisionsOf(calls, MapAllows(burst, perSecond, calls), user))
  {
    if calls != [] {
      var front, c := calls[..|calls| - 1], calls[|calls| - 1];
      UsersIndependent(burst, perSecond, front, user);
      assert MapAllows(burst, perSecond, calls)[..|calls| - 1] == MapAllows(burst, perSecond, front);
      var m, got := MapState(burst, perSecond, front), DecisionsOf(front, MapAllows(burst, perSecond, front), user);
      assert MapState(burst, perSecond, calls) == MapAfter(m, burst, perSecond, c);
      if c.user == user {
        LikeLoneStep(burst, perSecond, CallsOf(front, user), c, m, got);
      } else {
        assert CallsOf(calls, user) == CallsOf(front, user);
        assert DecisionsOf(calls, MapAllows(burst, perSecond, calls), user) == got;
      }
    }
  }

  /** So the window bound holds for all tabs and channels of a user together. */
  lemma UserWindowBound(burst: nat, perSecond: real, calls: seq<Call>, user: int, i: nat, j: nat)
    requires 0.0 <= perSecond
    requires i < j <= |CallsOf(calls, user)|
    ensures var own := CallsOf(calls, user);
            var got := DecisionsOf(calls, MapAllows(burst, perSecond, calls), user);
            && |got| == |own|
            && WithinQuota(Admitted(got[i..j]), burst as real, perSecond,
                           Latest(own[0].born, Times(own)[..i + 1]), Latest(own[0].born, Times(own)[..j]))
  {
    var own := CallsOf(calls, user);
    UsersIndependent(burst, perSecond, calls, user);
    WindowBound(Fresh(burst, perSecond, own[0].born), Times(own), i, j);
  }

  /** And nobody who keeps the quota of a bucket that is full at the user's first call would have
      admitted more of the user's calls. */
  lemma UserOptimal(burst: nat, perSecond: real, calls: seq<Call>, user: int, pick: seq<bool>)
    requires 0.0 <= perSecond && |pick| == |CallsOf(calls, user)| > 0
    requires Conforms(Bucket(burst as real, burst as real, perSecond, CallsOf(calls, user)[0].born),
                      Times(CallsOf(calls, user)), pick)
    ensures multiset(pick)[true] <= multiset(DecisionsOf(calls, MapAllows(burst, perSecond, calls), user))[true]
  {
    hide Conforms;
    var own := CallsOf(calls, user);
    UsersIndependent(burst, perSecond, calls, user);
    GreedyOptimal(Fresh(burst, perSecond, own[0].born), Times(own), pick, |own|);
    var got := DecisionsOf(calls, MapAllows(burst, perSecond, calls), user);
    assert pick[..|own|] == pick && got[..|own|] == got;
  }

  // ---------------------------------------------------------------- the mutable objects

  class Limiter {
    var tokens: real
    const maxTokens: real
    const refillRate: real
    var lastRefill: real

    ghost function Abs(): Bucket
      reads this
    {
      Bucket(tokens, maxTokens, refillRate, lastRefill)
    }

    constructor (burst: nat, perSecond: real, now: real)
      ensures Abs() == Fresh(burst, perSecond, now)
    {
      tokens, maxTokens := burst as real, burst as real;
      refillRate, lastRefill := perSecond, now;
    }

    method Allow(now: real) returns (ok: bool)
      modifies this`tokens, this`lastRefill
      ensures ok == Admits(old(Abs()), now)
      ensures Abs() == After(old(Abs()), now)
      ensures Wf(old(Abs())) && maxTokens >= 1.0 ==>
                (ok <==> old(tokens) + (if now > old(lastRefill) then (now - old(lastRefill)) * refillRate else 0.0)
                         >= 1.0)
    {
      if Wf(Abs()) && maxTokens >= 1.0 { AdmitsExactly(Abs(), now); }
      var elapsed := now - lastRefill;
      if elapsed > 0.0 {
        tokens := Min(maxTokens, tokens + elapsed * refillRate);
        lastRefill := now;
      }
      if tokens < 1.0 {
        return false;
      }
      tokens := tokens - 1.0;
      return true;
    }
  }

  class LimiterMap {
    var byUser: map<int, Limiter>
    const burst: nat
    const perSecond: real
    ghost var calls: seq<Call>  // every call so far

    /** No two users share a bucket object, and the buckets are those of the call history. */
    ghost predicate Valid()
      reads this, byUser.Values
    {
      && (forall u, v :: u in byUser && v in byUser && byUser[u] == byUser[v] ==> u == v)
      && Abs() == MapState(burst, perSecond, calls)
    }

    ghost function Abs(): Buckets
      reads this, byUser.Values
    {
      map u | u in byUser :: byUser[u].Abs()
    }

    constructor (burst: nat, perSecond: real)
      ensures Valid() && calls == [] && this.burst == burst && this.perSecond == perSecond
    {
      byUser, calls := map[], [];
      this.burst, this.perSecond := burst, perSecond;
    }

    method Allow(c: Call) returns (ok: bool)
      requires Valid()
      modifies this`byUser, this`calls, byUser.Values
      ensures Valid()
      ensures forall l :: l in byUser.Values ==> l in old(byUser.Values) || fresh(l)
      ensures calls == old(calls) + [c]
      ensures MapAllows(burst, perSecond, calls) == MapAllows(burst, perSecond, old(calls)) + [ok]
    {
      hide MapState;
      hide MapAllows;
      hide Admits;
      hide After;
      OneMoreCall(burst, perSecond, calls, c);
      ghost var before := Abs();
      if c.user !in byUser {
        var l := new Limiter(burst, perSecond, c.born);
        byUser := byUser[c.user := l];
      }
      var l := byUser[c.user];
      assert l.Abs() == BucketOf(before, burst, perSecond, c);
      ok := l.Allow(c.now);
      assert forall u :: u in byUser && u != c.user ==> byUser[u] != l;
      assert Abs() == MapAfter(before, burst, perSecond, c);
      calls := calls + [c];
    }
  }

  /** NewService: an option that is not positive falls back to its default, so every
      bucket of the service starts well formed and can admit. */
  function ServiceLimits(rateBurst: int, ratePerSecond: real): (l: (nat, real))
    ensures l.0 >= 1 && l.1 > 0.0
    ensures (rateBurst > 0 ==> l.0 == rateBurst) && (ratePerSecond > 0.0 ==> l.1 == ratePerSecond)
    ensures (rateBurst <= 0 ==> l.0 == 5) && (ratePerSecond <= 0.0 ==> l.1 == 1.0)
    ensures forall now :: Wf(Fresh(l.0, l.1, now)) && Admits(Fresh(l.0, l.1, now), now)
  {
    (if rateBurst <= 0 then 5 else rateBurst, if ratePerSecond <= 0.0 then 1.0 else ratePerSecond)
  }
}
