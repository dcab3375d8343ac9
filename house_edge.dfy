/**
  The house-edge visualizer of
  `components/visualizations/house-edge-visualizer.tsx`.

  A house edge (0.5 to 15 per cent) and a number of bets (10 to 500) give the
  theoretical loss on 100-unit bets, one simulated run of bets with its
  running balance, and a histogram, in buckets of 500, of the final balances
  of a hundred further runs. The random draws are parameters.
 */
module HouseEdge {
  import opened Common

  /** `calculateExpectedLoss(bets, edge, betAmount = 100)` */
  function ExpectedLoss(bets: nat, edge: real, betAmount: real := 100.0): (loss: real)
    ensures edge >= 0.0 && betAmount >= 0.0 ==> loss >= 0.0
  {
    bets as real * betAmount * (edge / 100.0)
  }

  /** The theoretical loss grows by the same amount, `betAmount * edge / 100`, with every bet. */
  lemma ExpectedLossPerBet(bets: nat, edge: real, betAmount: real)
    ensures ExpectedLoss(bets + 1, edge, betAmount) == ExpectedLoss(bets, edge, betAmount) + betAmount * (edge / 100.0)
  {
    assert (bets + 1) as real * betAmount == bets as real * betAmount + betAmount;
  }

  /** One simulated bet: won when the draw exceeds `edge / 100`, paying `100 - edge`; otherwise the 100 staked is lost. */
  function BetResult(draw: real, edge: real): real
  {
    if draw > edge / 100.0 then 100.0 - edge else -100.0
  }

  datatype SimRecord = SimRecord(bet: nat, result: real, balance: real)

  /** Sum of the results of the bets drawn so far. */
  function Balance(draws: seq<real>, edge: real): real
  {
    if |draws| == 0 then 0.0
    else Balance(draws[..|draws| - 1], edge) + BetResult(draws[|draws| - 1], edge)
  }

  /** The records `generateSimulation` pushes for a sequence of draws. */
  function Simulation(draws: seq<real>, edge: real): (s: seq<SimRecord>)
    ensures |s| == |draws|
  {
    if |draws| == 0 then []
    else
      var n := |draws|;
      Simulation(draws[..n - 1], edge)
        + [SimRecord(n, BetResult(draws[n - 1], edge), Balance(draws, edge))]
  }

  /** Record `i` is bet `i + 1`, carries that bet's result, and the balance after it. */
  lemma {:induction false} SimulationAt(draws: seq<real>, edge: real, i: nat)
    requires i < |draws|
    ensures Simulation(draws, edge)[i]
            == SimRecord(i + 1, BetResult(draws[i], edge), Balance(draws[..i + 1], edge))
  {
    var n := |draws|;
    if i < n - 1 {
      SimulationAt(draws[..n - 1], edge, i);
      assert draws[..n - 1][..i + 1] == draws[..i + 1];
    } else {
      assert draws[..i + 1] == draws;
    }
  }

  /** Draws above a threshold. */
  function CountAbove(draws: seq<real>, threshold: real): (n: nat)
    ensures n <= |draws|
  {
    if |draws| == 0 then 0
    else CountAbove(draws[..|draws| - 1], threshold) + (if draws[|draws| - 1] > threshold then 1 else 0)
  }

  /** Bets won among the draws: those above `edge / 100`. */
  function Wins(draws: seq<real>, edge: real): (w: nat)
    ensures w <= |draws|
  {
    CountAbove(draws, edge / 100.0)
  }

  /** The balance after all bets: each win pays `100 - edge` and each loss costs 100. */
  lemma {:induction false} BalanceByWins(draws: seq<real>, edge: real)
    ensures Balance(draws, edge)
            == Wins(draws, edge) as real * (100.0 - edge) - (|draws| - Wins(draws, edge)) as real * 100.0
  {
    if |draws| > 0 {
      BalanceByWins(draws[..|draws| - 1], edge);
    }
  }

  /**
    `generateSimulation`: one pass over the bets keeping a running balance and
    pushing a record per bet; `draws[i]` stands for the `i`-th `Math.random()`.
   */
  method GenerateSimulation(betCount: nat, edge: real, draws: seq<real>) returns (results: seq<SimRecord>)
    requires |draws| == betCount
    ensures results == Simulation(draws, edge)
    ensures betCount > 0 ==> results[betCount - 1].balance == Balance(draws, edge)
  {
    results := [];
    var balance := 0.0;
    var i := 0;
    while i < betCount
      invariant 0 <= i <= betCount
      invariant results == Simulation(draws[..i], edge)
      invariant balance == Balance(draws[..i], edge)
    {
      var win := draws[i] > edge / 100.0;
      var betResult := if win then 100.0 - edge else -100.0;
      balance := balance + betResult;
      results := results + [SimRecord(i + 1, betResult, balance)];
      assert draws[..i + 1][..i] == draws[..i];
      i := i + 1;
    }
    assert draws[..betCount] == draws;
  }

  /** Mean result of one bet that wins with chance `winChance`. */
  function MeanResult(winChance: real, edge: real): real
  {
    winChance * (100.0 - edge) - (1.0 - winChance) * 100.0
  }

  /** A uniform draw from [0, 1) exceeds a threshold in [0, 1] with chance `1 - threshold`. */
  function ChanceAbove(threshold: real): real
    requires 0.0 <= threshold <= 1.0
  {
    1.0 - threshold
  }

  /**
    The mean of a bet that is won with chance `winChance` is that chance of
    `BetResult` above the threshold `edge / 100` and the rest of `BetResult`
    below it.
   */
  lemma MeanOfBet(winChance: real, edge: real, above: real, below: real)
    requires below <= edge / 100.0 < above
    ensures MeanResult(winChance, edge)
            == winChance * BetResult(above, edge) + (1.0 - winChance) * BetResult(below, edge)
  {
  }

  /**
    As written, a simulated bet wins unless the draw is below `edge / 100`.
    For a draw uniform on [0, 1) (`ChanceAbove`), its mean result across the
    slider's range is a gain of at least 55, while the theoretical line beside
    it shows a loss of `edge` per bet.
   */
  lemma SimulatedBetFavoursBettor(edge: real)
    requires 0.0 <= edge <= 15.0
    ensures MeanResult(ChanceAbove(edge / 100.0), edge)
            == ChanceAbove(edge / 100.0) * BetResult(1.0, edge) + (1.0 - ChanceAbove(edge / 100.0)) * BetResult(0.0, edge)
    ensures MeanResult(ChanceAbove(edge / 100.0), edge) == 100.0 - 3.0 * edge + edge * edge / 100.0
    ensures MeanResult(ChanceAbove(edge / 100.0), edge) >= 55.0
    ensures -ExpectedLoss(1, edge) <= 0.0
  {
    if edge < 100.0 {
      MeanOfBet(ChanceAbove(edge / 100.0), edge, 1.0, 0.0);
    }
    var m := MeanResult(ChanceAbove(edge / 100.0), edge);
    assert m == (1.0 - edge / 100.0) * (100.0 - edge) - edge;
    assert edge * edge / 100.0 >= 0.0;
  }

  /** `n` draws spread evenly over [0, 1): 0, 0.01, 0.02, and so on. */
  function Grid(n: nat): (g: seq<real>)
    ensures |g| == n
  {
    seq(n, i => i as real / 100.0)
  }

  /** Of the evenly spread draws, those above `t / 100` are the ones from `t + 1` on. */
  lemma {:induction false} GridAbove(n: nat, t: nat)
    ensures CountAbove(Grid(n), t as real / 100.0) == if n > t + 1 then n - t - 1 else 0
  {
    if n > 0 {
      assert Grid(n)[..n - 1] == Grid(n - 1);
      GridAbove(n - 1, t);
      assert Grid(n)[n - 1] == (n - 1) as real / 100.0;
      assert (n - 1) as real / 100.0 > t as real / 100.0 <==> n - 1 > t;
    }
  }

  /**
    As written, a run of 100 bets over draws spread evenly across [0, 1), at
    any whole-number edge on the slider, ends far ahead, while the theoretical
    line shows a loss of `100 * edge`.
   */
  lemma EvenlySpreadDrawsGain(edge: nat)
    requires edge <= 15
    ensures Balance(Grid(100), edge as real) == ((99 - edge) * (100 - edge) - (edge + 1) * 100) as real
    ensures Balance(Grid(100), edge as real) >= 5540.0
    ensures ExpectedLoss(100, edge as real) == 100.0 * edge as real
  {
    GridAbove(100, edge);
    BalanceByWins(Grid(100), edge as real);
    var w := 99 - edge;
    assert Wins(Grid(100), edge as real) == w;
    assert Balance(Grid(100), edge as real) == w as real * (100.0 - edge as real) - (edge + 1) as real * 100.0;
    assert (99 - edge) * (100 - edge) >= 84 * 85 by {
      assert 99 - edge >= 84 && 100 - edge >= 85;
    }
  }

  /**
    A bet as the comments describe it: an even chance, paid slightly under
    evens (`100 - edge`), so the house keeps an edge.
   */
  function IntendedBetResult(draw: real, edge: real): real
  {
    if draw > 0.5 then 100.0 - edge else -100.0
  }

  /** The mean of the intended bet, from its results above and below one half. */
  lemma MeanOfIntendedBet(edge: real, above: real, below: real)
    requires below <= 0.5 < above
    ensures MeanResult(ChanceAbove(0.5), edge)
            == 0.5 * IntendedBetResult(above, edge) + 0.5 * IntendedBetResult(below, edge)
  {
  }

  /**
    For a draw uniform on [0, 1), the intended bet loses half the edge on
    average: negative for every edge on the slider.
   */
  lemma IntendedBetFavoursHouse(edge: real)
    requires 0.5 <= edge <= 15.0
    ensures MeanResult(ChanceAbove(0.5), edge)
            == 0.5 * IntendedBetResult(1.0, edge) + 0.5 * IntendedBetResult(0.0, edge)
    ensures MeanResult(ChanceAbove(0.5), edge) == -edge / 2.0
    ensures MeanResult(ChanceAbove(0.5), edge) < 0.0
  {
    MeanOfIntendedBet(edge, 1.0, 0.0);
  }

  /** The running total of intended bets. */
  function IntendedBalance(draws: seq<real>, edge: real): real
  {
    if |draws| == 0 then 0.0
    else IntendedBalance(draws[..|draws| - 1], edge) + IntendedBetResult(draws[|draws| - 1], edge)
  }

  /** Each intended win pays `100 - edge` and each loss costs 100. */
  lemma {:induction false} IntendedBalanceByWins(draws: seq<real>, edge: real)
    ensures IntendedBalance(draws, edge)
            == CountAbove(draws, 0.5) as real * (100.0 - edge) - (|draws| - CountAbove(draws, 0.5)) as real * 100.0
  {
    if |draws| > 0 {
      IntendedBalanceByWins(draws[..|draws| - 1], edge);
    }
  }

  /**
    Over the same evenly spread draws, the intended bets end behind for every
    whole-number edge: 49 wins and 51 losses.
   */
  lemma EvenlySpreadIntendedLoses(edge: nat)
    requires edge <= 15
    ensures IntendedBalance(Grid(100), edge as real) == -200.0 - 49.0 * edge as real
    ensures IntendedBalance(Grid(100), edge as real) < 0.0
  {
    GridAbove(100, 50);
    assert 50 as real / 100.0 == 0.5;
    var w := CountAbove(Grid(100), 0.5);
    assert w == 49;
    IntendedBalanceByWins(Grid(100), edge as real);
    assert IntendedBalance(Grid(100), edge as real) == 49.0 * (100.0 - edge as real) - 51.0 * 100.0;
  }

  /** `bucketSize` */
  const BucketSize: int := 500

  /** `Math.floor(balance / bucketSize) * bucketSize`: the bucket's lower bound. */
  function BucketKey(balance: real): (k: int)
    ensures k % BucketSize == 0
    ensures k as real <= balance < k as real + BucketSize as real
  {
    var q := (balance / 500.0).Floor;
    assert q as real <= balance / 500.0 < q as real + 1.0;
    q * BucketSize
  }

  /** Final balances that fall in bucket `key`. */
  function InBucket(finals: seq<real>, key: int): (n: nat)
    ensures n <= |finals|
  {
    if |finals| == 0 then 0
    else InBucket(finals[..|finals| - 1], key) + (if BucketKey(finals[|finals| - 1]) == key then 1 else 0)
  }

  /** The counts `forEach` leaves in `buckets`. */
  function Buckets(finals: seq<real>): map<int, nat>
  {
    if |finals| == 0 then map[]
    else
      var before := Buckets(finals[..|finals| - 1]);
      var key := BucketKey(finals[|finals| - 1]);
      before[key := (if key in before then before[key] else 0) + 1]
  }

  /** A bucket exists exactly when a balance falls in it, and holds the number that do. */
  lemma {:induction false} BucketsCount(finals: seq<real>, key: int)
    ensures key in Buckets(finals) <==> InBucket(finals, key) > 0
    ensures key in Buckets(finals) ==> Buckets(finals)[key] == InBucket(finals, key)
  {
    if |finals| > 0 {
      BucketsCount(finals[..|finals| - 1], key);
    }
  }

  /** A balance counts towards its own bucket. */
  lemma {:induction false} InOwnBucket(finals: seq<real>, i: nat)
    requires i < |finals|
    ensures InBucket(finals, BucketKey(finals[i])) > 0
  {
    var n := |finals|;
    if i < n - 1 {
      assert finals[..n - 1][i] == finals[i];
      InOwnBucket(finals[..n - 1], i);
    }
  }

  /** Every final balance lands in a bucket: its own. */
  lemma FinalsCovered(finals: seq<real>)
    ensures forall i :: 0 <= i < |finals| ==> BucketKey(finals[i]) in Buckets(finals)
  {
    forall i | 0 <= i < |finals|
      ensures BucketKey(finals[i]) in Buckets(finals)
    {
      InOwnBucket(finals, i);
      BucketsCount(finals, BucketKey(finals[i]));
    }
  }

  /** The counts of the buckets listed in `keys`. */
  function CountSum(keys: seq<int>, buckets: map<int, nat>): nat
    requires forall i :: 0 <= i < |keys| ==> keys[i] in buckets
  {
    if |keys| == 0 then 0
    else buckets[keys[0]] + CountSum(keys[1..], buckets)
  }

  /** A bucket listed last adds its count. */
  lemma {:induction false} CountSumAppend(keys: seq<int>, k: int, buckets: map<int, nat>)
    requires forall i :: 0 <= i < |keys| ==> keys[i] in buckets
    requires k in buckets
    ensures CountSum(keys + [k], buckets) == CountSum(keys, buckets) + buckets[k]
  {
    if |keys| > 0 {
      assert (keys + [k])[1..] == keys[1..] + [k];
      CountSumAppend(keys[1..], k, buckets);
    }
  }

  /** Changing a bucket that is not listed does not change the sum. */
  lemma {:induction false} CountSumOther(keys: seq<int>, buckets: map<int, nat>, k: int, v: nat)
    requires forall i :: 0 <= i < |keys| ==> keys[i] in buckets
    requires k !in keys
    ensures CountSum(keys, buckets[k := v]) == CountSum(keys, buckets)
  {
    if |keys| > 0 {
      assert keys[0] in keys;
      CountSumOther(keys[1..], buckets, k, v);
    }
  }

  /** Changing a bucket listed once changes the sum by the same amount. */
  lemma {:induction false} CountSumUpdate(keys: seq<int>, buckets: map<int, nat>, k: int, v: nat)
    requires forall i :: 0 <= i < |keys| ==> keys[i] in buckets
    requires forall a, b :: 0 <= a < b < |keys| ==> keys[a] != keys[b]
    requires k in keys
    ensures CountSum(keys, buckets[k := v]) + buckets[k] == CountSum(keys, buckets) + v
  {
    if keys[0] == k {
      assert k !in keys[1..] by {
        forall j | 0 <= j < |keys[1..]|
          ensures keys[1..][j] != k
        {
          assert keys[j + 1] != keys[0];
        }
      }
      CountSumOther(keys[1..], buckets, k, v);
    } else {
      assert keys[0] in keys;
      CountSumUpdate(keys[1..], buckets, k, v);
    }
  }

  /** Counting one more balance updates its bucket only. */
  lemma BucketsStep(finals: seq<real>, i: nat)
    requires i < |finals|
    ensures var before := Buckets(finals[..i]);
            var key := BucketKey(finals[i]);
            Buckets(finals[..i + 1]) == before[key := (if key in before then before[key] else 0) + 1]
  {
    assert finals[..i + 1][..i] == finals[..i];
  }

  /** `keys` lists every bucket exactly once. */
  ghost predicate Listing(keys: seq<int>, buckets: map<int, nat>)
  {
    && (forall x :: x in buckets <==> x in keys)
    && (forall a, b :: 0 <= a < b < |keys| ==> keys[a] != keys[b])
    && (forall j :: 0 <= j < |keys| ==> keys[j] in buckets)
  }

  /**
    One step of the `forEach`: counting a balance in bucket `k` keeps the keys
    listed once each, matching the buckets, and adds 1 to the total.
   */
  lemma CountStep(keys: seq<int>, buckets: map<int, nat>, k: int)
    requires Listing(keys, buckets)
    ensures var nb := buckets[k := (if k in buckets then buckets[k] else 0) + 1];
            var nk := if k in buckets then keys else keys + [k];
            Listing(nk, nb) && CountSum(nk, nb) == CountSum(keys, buckets) + 1
  {
    if k !in buckets {
      CountSumOther(keys, buckets, k, 1);
      CountSumAppend(keys, k, buckets[k := 1]);
    } else {
      CountSumUpdate(keys, buckets, k, buckets[k] + 1);
    }
  }

  /**
    The `forEach` over the final balances, which also records the keys in the
    order they first appear.
   */
  method CountBuckets(finals: seq<real>) returns (buckets: map<int, nat>, keys: seq<int>)
    ensures buckets == Buckets(finals)
    ensures forall k :: k in buckets <==> k in keys
    ensures forall i, j :: 0 <= i < j < |keys| ==> keys[i] != keys[j]
    ensures forall i :: 0 <= i < |keys| ==> keys[i] in buckets
    ensures CountSum(keys, buckets) == |finals|
  {
    buckets := map[];
    keys := [];
    var i := 0;
    while i < |finals|
      invariant 0 <= i <= |finals|
      invariant buckets == Buckets(finals[..i])
      invariant Listing(keys, buckets)
      invariant CountSum(keys, buckets) == i
    {
      var bucketKey := BucketKey(finals[i]);
      BucketsStep(finals, i);
      CountStep(keys, buckets, bucketKey);
      if bucketKey !in buckets {
        keys := keys + [bucketKey];
      }
      buckets := buckets[bucketKey := (if bucketKey in buckets then buckets[bucketKey] else 0) + 1];
      i := i + 1;
    }
    assert finals[..|finals|] == finals;
  }

  /** Entries ordered by strictly increasing bucket. */
  predicate Ascending(s: seq<(int, nat)>)
  {
    forall i, j :: 0 <= i < j < |s| ==> s[i].0 < s[j].0
  }

  /** No bucket appears twice. */
  predicate DistinctKeys(s: seq<(int, nat)>)
  {
    forall i, j :: 0 <= i < j < |s| ==> s[i].0 != s[j].0
  }

  /** Places an entry among entries already in order. */
  function Insert(e: (int, nat), s: seq<(int, nat)>): seq<(int, nat)>
  {
    if |s| == 0 then [e]
    else if e.0 <= s[0].0 then [e] + s
    else [s[0]] + Insert(e, s[1..])
  }

  /** `.sort((a, b) => a.balance - b.balance)` */
  function SortByBalance(s: seq<(int, nat)>): seq<(int, nat)>
  {
    if |s| == 0 then [] else Insert(s[0], SortByBalance(s[1..]))
  }

  /** An entry below every entry of an ordered sequence can go in front of it. */
  lemma AscendingCons(x: (int, nat), r: seq<(int, nat)>)
    requires Ascending(r)
    requires forall y :: y in r ==> x.0 < y.0
    ensures Ascending([x] + r)
  {
    var t := [x] + r;
    forall i, j | 0 <= i < j < |t|
      ensures t[i].0 < t[j].0
    {
      assert t[j] == r[j - 1];
      if i > 0 {
        assert t[i] == r[i - 1];
      }
    }
  }

  /** An entry below the first of an ordered sequence is below all of them. */
  lemma BelowFirst(e: (int, nat), s: seq<(int, nat)>)
    requires Ascending(s) && |s| > 0 && e.0 < s[0].0
    ensures forall y :: y in s ==> e.0 < y.0
  {
    forall y | y in s
      ensures e.0 < y.0
    {
      var j :| 0 <= j < |s| && s[j] == y;
      if j > 0 {
        assert s[0].0 < s[j].0;
      }
    }
  }

  lemma {:induction false} InsertKeepsOrder(e: (int, nat), s: seq<(int, nat)>)
    requires Ascending(s)
    requires forall x :: x in s ==> x.0 != e.0
    ensures Ascending(Insert(e, s))
    ensures multiset(Insert(e, s)) == multiset(s) + multiset{e}
    decreases |s|, 1
  {
    if |s| == 0 {
    } else if e.0 <= s[0].0 {
      assert s[0] in s;
      BelowFirst(e, s);
      AscendingCons(e, s);
    } else {
      InsertAfterFirst(e, s);
    }
  }

  lemma {:induction false} InsertAfterFirst(e: (int, nat), s: seq<(int, nat)>)
    requires Ascending(s) && |s| > 0 && e.0 > s[0].0
    requires forall x :: x in s ==> x.0 != e.0
    ensures Ascending(Insert(e, s))
    ensures multiset(Insert(e, s)) == multiset(s) + multiset{e}
    decreases |s|, 0
  {
    var rest := s[1..];
    TailKeys(e, s);
    InsertKeepsOrder(e, rest);
    var r := Insert(e, rest);
    assert Insert(e, s) == [s[0]] + r;
    assert s == [s[0]] + rest;
    assert multiset(Insert(e, s)) == multiset{s[0]} + multiset(r);
    HeadBelowTail(s);
    AboveHead(s[0], e, rest, r);
    AscendingCons(s[0], r);
  }

  /** A bucket no entry has is a bucket no entry of the tail has. */
  lemma TailKeys(e: (int, nat), s: seq<(int, nat)>)
    requires |s| > 0
    requires forall x :: x in s ==> x.0 != e.0
    ensures forall x :: x in s[1..] ==> x.0 != e.0
  {
    forall x | x in s[1..]
      ensures x.0 != e.0
    {
      var j :| 0 <= j < |s[1..]| && s[1..][j] == x;
      assert s[j + 1] == x;
    }
  }

  /** The first entry of an ordered sequence is below all the others. */
  lemma HeadBelowTail(s: seq<(int, nat)>)
    requires Ascending(s) && |s| > 0
    ensures forall x :: x in s[1..] ==> s[0].0 < x.0
  {
    forall x | x in s[1..]
      ensures s[0].0 < x.0
    {
      var j :| 0 <= j < |s[1..]| && s[1..][j] == x;
      assert s[j + 1] == x;
    }
  }

  /** Inserting an entry above `h` among entries above `h` keeps them all above it. */
  lemma AboveHead(h: (int, nat), e: (int, nat), rest: seq<(int, nat)>, r: seq<(int, nat)>)
    requires forall x :: x in rest ==> h.0 < x.0
    requires h.0 < e.0
    requires multiset(r) == multiset(rest) + multiset{e}
    ensures forall x :: x in r ==> h.0 < x.0
  {
    forall x | x in r
      ensures h.0 < x.0
    {
      assert x in multiset(r);
      if x != e {
        assert x in multiset(rest);
      }
    }
  }

  /** With distinct buckets, no later entry shares the first entry's bucket. */
  lemma HeadKeyUnique(s: seq<(int, nat)>)
    requires DistinctKeys(s) && |s| > 0
    ensures forall x :: x in s[1..] ==> x.0 != s[0].0
  {
    forall x | x in s[1..]
      ensures x.0 != s[0].0
    {
      var j :| 0 <= j < |s[1..]| && s[1..][j] == x;
      assert s[j + 1] == x;
    }
  }

  /** A bucket absent from some entries is absent from any reordering of them. */
  lemma KeysAbsent(s: seq<(int, nat)>, t: seq<(int, nat)>, k: int)
    requires multiset(t) == multiset(s)
    requires forall x :: x in s ==> x.0 != k
    ensures forall x :: x in t ==> x.0 != k
  {
    forall x | x in t
      ensures x.0 != k
    {
      assert x in multiset(t);
      assert x in multiset(s);
    }
  }

  /** Sorting entries with distinct buckets puts them in strictly increasing order and keeps every entry. */
  lemma {:induction false} SortByBalanceCorrect(s: seq<(int, nat)>)
    requires DistinctKeys(s)
    ensures Ascending(SortByBalance(s))
    ensures multiset(SortByBalance(s)) == multiset(s)
  {
    if |s| > 0 {
      var rest := s[1..];
      SortByBalanceCorrect(rest);
      var sorted := SortByBalance(rest);
      HeadKeyUnique(s);
      KeysAbsent(rest, sorted, s[0].0);
      InsertKeepsOrder(s[0], sorted);
      assert s == [s[0]] + rest;
    }
  }

  /** The counts of all entries added up. */
  function SumCounts(s: seq<(int, nat)>): nat
  {
    if |s| == 0 then 0 else s[0].1 + SumCounts(s[1..])
  }

  /** Inserting an entry adds its count. */
  lemma {:induction false} InsertSum(e: (int, nat), s: seq<(int, nat)>)
    ensures SumCounts(Insert(e, s)) == e.1 + SumCounts(s)
  {
    if |s| == 0 {
    } else if e.0 <= s[0].0 {
      assert ([e] + s)[1..] == s;
    } else {
      assert ([s[0]] + Insert(e, s[1..]))[1..] == Insert(e, s[1..]);
      InsertSum(e, s[1..]);
    }
  }

  /** Sorting keeps the total of the counts. */
  lemma {:induction false} SortSum(s: seq<(int, nat)>)
    ensures SumCounts(SortByBalance(s)) == SumCounts(s)
  {
    if |s| > 0 {
      SortSum(s[1..]);
      InsertSum(s[0], SortByBalance(s[1..]));
    }
  }

  /** Each listed bucket paired with its count, in the order listed. */
  function Pairs(keys: seq<int>, buckets: map<int, nat>): (s: seq<(int, nat)>)
    requires forall i :: 0 <= i < |keys| ==> keys[i] in buckets
    ensures |s| == |keys|
    ensures forall i :: 0 <= i < |keys| ==> s[i] == (keys[i], buckets[keys[i]])
  {
    seq(|keys|, i requires 0 <= i < |keys| => (keys[i], buckets[keys[i]]))
  }

  /** The pairs add up to the counts of the listed buckets. */
  lemma {:induction false} PairsSum(keys: seq<int>, buckets: map<int, nat>)
    requires forall i :: 0 <= i < |keys| ==> keys[i] in buckets
    ensures SumCounts(Pairs(keys, buckets)) == CountSum(keys, buckets)
  {
    if |keys| > 0 {
      assert Pairs(keys, buckets)[1..] == Pairs(keys[1..], buckets);
      PairsSum(keys[1..], buckets);
    }
  }

  /** `Math.max(...counts)`; `None` for no entries, where `Math.max()` gives `-Infinity`. */
  function MaxCount(s: seq<(int, nat)>): (m: Option<nat>)
    ensures m.None? <==> |s| == 0
    ensures m.Some? ==> (forall i :: 0 <= i < |s| ==> s[i].1 <= m.value)
    ensures m.Some? ==> exists i :: 0 <= i < |s| && s[i].1 == m.value
  {
    if |s| == 0 then None
    else
      var rest := MaxCount(s[..|s| - 1]);
      var last := s[|s| - 1].1;
      if rest.Some? && rest.value >= last then rest else Some(last)
  }

  /**
    `renderDistributionChart`'s data: the buckets of the final balances of the
    further runs, ordered by balance, and the largest count.
   */
  method Distribution(finals: seq<real>) returns (entries: seq<(int, nat)>, maxCount: Option<nat>)
    ensures Ascending(entries)
    ensures forall e :: e in entries <==> e.0 in Buckets(finals) && e.1 == Buckets(finals)[e.0]
    ensures forall e :: e in entries ==> e.1 == InBucket(finals, e.0) > 0
    ensures SumCounts(entries) == |finals|
    ensures maxCount == MaxCount(entries)
  {
    var buckets, keys := CountBuckets(finals);
    var unsorted := Pairs(keys, buckets);
    assert DistinctKeys(unsorted);
    SortByBalanceCorrect(unsorted);
    entries := SortByBalance(unsorted);
    PairsSum(keys, buckets);
    SortSum(unsorted);
    forall e
      ensures e in entries <==> e.0 in buckets && e.1 == buckets[e.0]
    {
      calc {
        e in entries;
        e in multiset(entries);
        e in multiset(unsorted);
        e in unsorted;
      }
      if e.0 in buckets && e.1 == buckets[e.0] {
        var k := e.0;
        assert k in buckets;
        assert k in keys;
        var i :| 0 <= i < |keys| && keys[i] == e.0;
        assert unsorted[i] == e;
      }
    }
    forall e | e in entries
      ensures e.1 == InBucket(finals, e.0) > 0
    {
      BucketsCount(finals, e.0);
    }
    maxCount := MaxCount(entries);
  }
}
