/**
 * What the two uptime aggregations over the `container_status` index mean,
 * as functions of the events inside the time window, and the loop that folds
 * the duration buckets into a per-container map and a running total.
 */
module Uptime {
  import opened Outcomes
  import opened Text
  import opened ContainerModel

  // -------------------------------------------------------------- windows

  /** The events with `start <= timestamp <= end` (the `gte`/`lte` range query). */
  function Window(events: seq<StatusEvent>, start: int, end: int): (w: seq<StatusEvent>)
    ensures |w| <= |events|
    ensures forall e :: e in w ==> e in events && start <= e.timestamp <= end
  {
    if events == [] then []
    else (if start <= events[0].timestamp <= end then [events[0]] else []) + Window(events[1..], start, end)
  }

  /** The events whose status is exactly `running` (the `status.keyword` term). */
  function RunningOnly(events: seq<StatusEvent>): (r: seq<StatusEvent>)
    ensures |r| <= |events|
  {
    if events == [] then []
    else (if events[0].status == StatusRunning then [events[0]] else []) + RunningOnly(events[1..])
  }

  /** The container id of each event, in order. */
  function IdsOf(events: seq<StatusEvent>): (ids: seq<nat>)
    ensures |ids| == |events|
  {
    if events == [] then [] else [events[0].id] + IdsOf(events[1..])
  }

  // ------------------------------------------------------ terms grouping

  function Count(ids: seq<nat>, x: nat): nat
  {
    if ids == [] then 0 else (if ids[0] == x then 1 else 0) + Count(ids[1..], x)
  }

  function Remove(ids: seq<nat>, y: nat): (r: seq<nat>)
    ensures |r| == |ids| - Count(ids, y)
    ensures forall x :: x in r <==> x in ids && x != y
  {
    if ids == [] then []
    else (if ids[0] == y then [] else [ids[0]]) + Remove(ids[1..], y)
  }

  /** The distinct ids, in order of first appearance: one terms bucket each. */
  function Distinct(ids: seq<nat>): (d: seq<nat>)
    ensures forall x :: x in d <==> x in ids
    decreases |ids|
  {
    if ids == [] then [] else [ids[0]] + Distinct(Remove(ids[1..], ids[0]))
  }

  lemma {:induction false} RemoveCount(ids: seq<nat>, y: nat, x: nat)
    requires x != y
    ensures Count(Remove(ids, y), x) == Count(ids, x)
  {
    if ids != [] {
      RemoveCount(ids[1..], y, x);
      var head := if ids[0] == y then [] else [ids[0]];
      CountConcat(head, Remove(ids[1..], y), x);
    }
  }

  lemma {:induction false} CountConcat(a: seq<nat>, b: seq<nat>, x: nat)
    ensures Count(a + b, x) == Count(a, x) + Count(b, x)
  {
    if a != [] {
      CountConcat(a[1..], b, x);
      assert (a + b)[1..] == a[1..] + b;
    } else {
      assert a + b == b;
    }
  }

  /** No id has two buckets. */
  lemma {:induction false} DistinctHasNoDuplicates(ids: seq<nat>)
    ensures forall i, j :: 0 <= i < j < |Distinct(ids)| ==> Distinct(ids)[i] != Distinct(ids)[j]
    decreases |ids|
  {
    if ids != [] {
      var rest := Remove(ids[1..], ids[0]);
      DistinctHasNoDuplicates(rest);
      var d := Distinct(ids);
      assert d == [ids[0]] + Distinct(rest);
      forall i, j | 0 <= i < j < |d| ensures d[i] != d[j] {
        if i == 0 {
          assert d[j] in Distinct(rest);
        }
      }
    }
  }

  /** The sum of `Count(ids, x)` over the ids `xs`. */
  function SumCount(xs: seq<nat>, ids: seq<nat>): nat
  {
    if xs == [] then 0 else Count(ids, xs[0]) + SumCount(xs[1..], ids)
  }

  lemma {:induction false} SumCountCongruent(xs: seq<nat>, a: seq<nat>, b: seq<nat>)
    requires forall x :: x in xs ==> Count(a, x) == Count(b, x)
    ensures SumCount(xs, a) == SumCount(xs, b)
  {
    if xs != [] {
      SumCountCongruent(xs[1..], a, b);
    }
  }

  /** The buckets' counts add up to the number of events: every event lands in exactly one bucket. */
  lemma {:induction false} BucketsCoverEveryEvent(ids: seq<nat>)
    ensures SumCount(Distinct(ids), ids) == |ids|
    decreases |ids|
  {
    if ids != [] {
      var y := ids[0];
      var rest := Remove(ids[1..], y);
      BucketsCoverEveryEvent(rest);
      forall x | x in Distinct(rest) ensures Count(ids, x) == Count(rest, x) {
        RemoveCount(ids[1..], y, x);
      }
      SumCountCongruent(Distinct(rest), ids, rest);
      assert Distinct(ids) == [y] + Distinct(rest);
    }
  }

  // ---------------------------------------------------------- the ratio

  /** A container's share of `running` events among all of its events in the window. */
  function ContainerRatio(window: seq<StatusEvent>, x: nat): real
  {
    var all := Count(IdsOf(window), x);
    if all > 0 then (Count(IdsOf(RunningOnly(window)), x) as real) / (all as real) else 0.0
  }

  function SumRatios(xs: seq<nat>, window: seq<StatusEvent>): real
  {
    if xs == [] then 0.0 else ContainerRatio(window, xs[0]) + SumRatios(xs[1..], window)
  }

  /**
   * The `avg_bucket` over per-container `on_ratio` buckets: the unweighted mean
   * of the containers' ratios; None when no container has an event in the window.
   */
  function MeanUptimeRatio(window: seq<StatusEvent>): Option<real>
  {
    var xs := Distinct(IdsOf(window));
    if xs == [] then None else Some(SumRatios(xs, window) / (|xs| as real))
  }

  lemma {:induction false} RunningCountBounded(window: seq<StatusEvent>, x: nat)
    ensures Count(IdsOf(RunningOnly(window)), x) <= Count(IdsOf(window), x)
  {
    if window != [] {
      RunningCountBounded(window[1..], x);
      var head := if window[0].status == StatusRunning then [window[0]] else [];
      IdsOfConcat(head, RunningOnly(window[1..]));
      CountConcat(IdsOf(head), IdsOf(RunningOnly(window[1..])), x);
    }
  }

  lemma {:induction false} IdsOfConcat(a: seq<StatusEvent>, b: seq<StatusEvent>)
    ensures IdsOf(a + b) == IdsOf(a) + IdsOf(b)
  {
    if a != [] {
      IdsOfConcat(a[1..], b);
      assert (a + b)[1..] == a[1..] + b;
    } else {
      assert a + b == b;
    }
  }

  lemma ContainerRatioBounds(window: seq<StatusEvent>, x: nat)
    ensures 0.0 <= ContainerRatio(window, x) <= 1.0
  {
    RunningCountBounded(window, x);
    var all := Count(IdsOf(window), x);
    if all > 0 {
      QuotientBounds(Count(IdsOf(RunningOnly(window)), x) as real, all as real);
    }
  }

  lemma {:induction false} SumRatiosBounds(xs: seq<nat>, window: seq<StatusEvent>)
    ensures 0.0 <= SumRatios(xs, window) <= |xs| as real
  {
    if xs != [] {
      SumRatiosBounds(xs[1..], window);
      ContainerRatioBounds(window, xs[0]);
    }
  }

  /** The mean uptime ratio always lies in [0, 1]. */
  lemma MeanUptimeRatioBounds(window: seq<StatusEvent>)
    requires MeanUptimeRatio(window).Some?
    ensures 0.0 <= MeanUptimeRatio(window).value <= 1.0
  {
    var xs := Distinct(IdsOf(window));
    SumRatiosBounds(xs, window);
    QuotientBounds(SumRatios(xs, window), |xs| as real);
  }

  lemma QuotientBounds(sum: real, n: real)
    requires n > 0.0 && 0.0 <= sum <= n
    ensures 0.0 <= sum / n <= 1.0
  {
  }

  /** A window with at least one event has a mean ratio. */
  lemma MeanUptimeRatioDefined(window: seq<StatusEvent>)
    ensures MeanUptimeRatio(window).Some? <==> window != []
  {
    if window != [] {
      assert IdsOf(window)[0] in Distinct(IdsOf(window));
    }
  }

  // -------------------------------------------------------- the duration

  /** One terms bucket: a container id and its number of `running` events. */
  datatype Bucket = Bucket(key: nat, count: nat)

  function BucketsFor(xs: seq<nat>, ids: seq<nat>): (bs: seq<Bucket>)
    ensures |bs| == |xs|
    ensures forall j :: 0 <= j < |xs| ==> bs[j] == Bucket(xs[j], Count(ids, xs[j]))
  {
    if xs == [] then [] else [Bucket(xs[0], Count(ids, xs[0]))] + BucketsFor(xs[1..], ids)
  }

  /** The `containers` aggregation of the duration query: one bucket per container with running events. */
  function RunningBuckets(window: seq<StatusEvent>): seq<Bucket>
  {
    var ids := IdsOf(RunningOnly(window));
    BucketsFor(Distinct(ids), ids)
  }

  function SumCounts(bs: seq<Bucket>): nat
  {
    if bs == [] then 0 else SumCounts(bs[..|bs| - 1]) + bs[|bs| - 1].count
  }

  /** The per-container map the fold builds: later buckets overwrite earlier ones with the same key. */
  function PerMap(bs: seq<Bucket>): map<string, int>
  {
    if bs == [] then map[]
    else PerMap(bs[..|bs| - 1])[NatToString(bs[|bs| - 1].key) := bs[|bs| - 1].count * Minute]
  }

  predicate DistinctKeys(bs: seq<Bucket>)
  {
    forall i, j :: 0 <= i < j < |bs| ==> bs[i].key != bs[j].key
  }

  /** The loop over the buckets: `per[key] = count * minute; total += per[key]`. */
  method FoldBuckets(buckets: seq<Bucket>) returns (details: UptimeDetails)
    ensures details.totalUptime == SumCounts(buckets) * Minute
    ensures details.perContainerUptime == PerMap(buckets)
  {
    var per: map<string, int> := map[];
    var total := 0;
    var i := 0;
    while i < |buckets|
      invariant 0 <= i <= |buckets|
      invariant total == SumCounts(buckets[..i]) * Minute
      invariant per == PerMap(buckets[..i])
    {
      var b := buckets[i];
      var key := NatToString(b.key);
      var dur := b.count * Minute;
      assert buckets[..i + 1][..i] == buckets[..i];
      per := per[key := dur];
      total := total + dur;
      i := i + 1;
    }
    assert buckets[..i] == buckets;
    details := UptimeDetails(total, per);
  }

  /** Different containers get different decimal keys. */
  lemma NatToStringInjective(a: nat, b: nat)
    requires a != b
    ensures NatToString(a) != NatToString(b)
  {
    NatToStringValue(a);
    NatToStringValue(b);
  }

  /** The sum of a map's values. */
  ghost function MapSum(m: map<string, int>): int
    decreases |m|
  {
    if m == map[] then 0
    else
      var k :| k in m;
      m[k] + MapSum(m - {k})
  }

  /** Summing a map may start from any key. */
  lemma MapSumRemove(m: map<string, int>, k: string)
    requires k in m
    ensures MapSum(m) == m[k] + MapSum(m - {k})
    decreases |m|
  {
    var j :| j in m && MapSum(m) == m[j] + MapSum(m - {j});
    if j != k {
      MapSumRemove(m - {j}, k);
      MapSumRemove(m - {k}, j);
      assert m - {j} - {k} == m - {k} - {j};
    }
  }

  /**
   * With distinct bucket keys, every bucket has its own entry, holding its
   * count in minutes, and the entries add up to the fold's total.
   */
  lemma PerMapOfDistinctKeys(bs: seq<Bucket>)
    requires DistinctKeys(bs)
    ensures forall j :: 0 <= j < |bs| ==> NatToString(bs[j].key) in PerMap(bs)
    ensures |PerMap(bs)| == |bs|
    ensures forall j :: 0 <= j < |bs| ==> PerMap(bs)[NatToString(bs[j].key)] == bs[j].count * Minute
    ensures MapSum(PerMap(bs)) == SumCounts(bs) * Minute
  {
    PerMapEntries(bs);
    PerMapSizeAndSum(bs);
  }

  /** With distinct keys, no later bucket overwrites an earlier one's entry. */
  lemma {:induction false} PerMapEntries(bs: seq<Bucket>)
    requires DistinctKeys(bs)
    ensures forall j :: 0 <= j < |bs| ==>
      NatToString(bs[j].key) in PerMap(bs) && PerMap(bs)[NatToString(bs[j].key)] == bs[j].count * Minute
  {
    if bs != [] {
      var n := |bs| - 1;
      PerMapEntries(bs[..n]);
      forall j | 0 <= j < n
        ensures NatToString(bs[j].key) in PerMap(bs) && PerMap(bs)[NatToString(bs[j].key)] == bs[j].count * Minute
      {
        NatToStringInjective(bs[j].key, bs[n].key);
      }
    }
  }

  /** With distinct keys, every bucket adds one entry and its minutes to the map's sum. */
  lemma {:induction false} PerMapSizeAndSum(bs: seq<Bucket>)
    requires DistinctKeys(bs)
    ensures |PerMap(bs)| == |bs| && MapSum(PerMap(bs)) == SumCounts(bs) * Minute
  {
    if bs != [] {
      var n := |bs| - 1;
      var init := bs[..n];
      PerMapSizeAndSum(init);
      var key := NatToString(bs[n].key);
      KeyNotInPerMap(init, bs[n].key);
      var m := PerMap(bs);
      MapSumRemove(m, key);
      assert m - {key} == PerMap(init);
    }
  }

  /** A key no bucket carries has no entry in the per-container map. */
  lemma {:induction false} KeyNotInPerMap(bs: seq<Bucket>, x: nat)
    requires forall j :: 0 <= j < |bs| ==> bs[j].key != x
    ensures NatToString(x) !in PerMap(bs)
  {
    if bs != [] {
      var n := |bs| - 1;
      KeyNotInPerMap(bs[..n], x);
      NatToStringInjective(bs[n].key, x);
    }
  }

  /** Every running event in the window counts one minute towards the total. */
  lemma RunningBucketsTotal(window: seq<StatusEvent>)
    ensures SumCounts(RunningBuckets(window)) == |RunningOnly(window)|
  {
    var ids := IdsOf(RunningOnly(window));
    BucketsCoverEveryEvent(ids);
    SumCountsOfBuckets(Distinct(ids), ids);
  }

  lemma {:induction false} SumCountsOfBuckets(xs: seq<nat>, ids: seq<nat>)
    ensures SumCounts(BucketsFor(xs, ids)) == SumCount(xs, ids)
  {
    if xs != [] {
      SumCountsOfBuckets(xs[1..], ids);
      SumCountsCons(Bucket(xs[0], Count(ids, xs[0])), BucketsFor(xs[1..], ids));
    }
  }

  lemma {:induction false} SumCountsCons(b: Bucket, bs: seq<Bucket>)
    ensures SumCounts([b] + bs) == b.count + SumCounts(bs)
  {
    if bs != [] {
      var n := |bs| - 1;
      SumCountsCons(b, bs[..n]);
      assert ([b] + bs)[..n + 1] == [b] + bs[..n];
    }
  }

  /** The duration buckets have distinct keys. */
  lemma RunningBucketsDistinct(window: seq<StatusEvent>)
    ensures DistinctKeys(RunningBuckets(window))
  {
    DistinctHasNoDuplicates(IdsOf(RunningOnly(window)));
  }

  // ------------------------------------------- the bucket key as written

  /**
   * The bucket key is a JSON number, decoded as a float64 and formatted with
   * `%v`: the shortest `%g` form, which switches to exponent notation from one
   * million on. This is how the repository keys its per-container map; the
   * rest of the model keys it by the id's decimal text instead.
   */
  function FloatKeyText(n: nat): string
  {
    var digits := NatToString(n);
    if |digits| <= 6 then digits else ExponentForm(digits)
  }

  /** `d.ddde+XX` for the digits of a whole number of seven or more digits. */
  function ExponentForm(digits: string): (r: string)
    ensures !AllDigits(r)
  {
    var mantissa := MantissaText(StripTrailingZeros(digits));
    var exp := if |digits| > 0 then |digits| - 1 else 0;
    var r := mantissa + "e+" + (if exp < 10 then "0" else "") + NatToString(exp);
    assert r[|mantissa|] == 'e';
    r
  }

  function MantissaText(m: string): string
  {
    if |m| <= 1 then m else m[..1] + "." + m[1..]
  }

  function StripTrailingZeros(s: string): (r: string)
    ensures |r| <= |s|
  {
    if s != [] && s[|s| - 1] == '0' then StripTrailingZeros(s[..|s| - 1]) else s
  }

  function Pow10(k: nat): (p: nat)
    ensures p >= 1
  {
    if k == 0 then 1 else 10 * Pow10(k - 1)
  }

  /** The decimal text of n has at most k digits exactly when n is below 10^k. */
  lemma {:induction false} NatToStringLength(n: nat, k: nat)
    requires k >= 1
    ensures |NatToString(n)| <= k <==> n < Pow10(k)
  {
    if n >= 10 {
      if k >= 2 {
        NatToStringLength(n / 10, k - 1);
        assert n / 10 < Pow10(k - 1) <==> n < 10 * Pow10(k - 1);
      }
    } else {
      PowPositive(k);
    }
  }

  lemma {:induction false} PowPositive(k: nat)
    requires k >= 1
    ensures Pow10(k) >= 10
  {
    if k > 1 {
      PowPositive(k - 1);
    }
  }

  /** The key as written is the id's decimal text exactly for ids below one million. */
  lemma FloatKeyIsDecimalBelowOneMillion(n: nat)
    ensures FloatKeyText(n) == NatToString(n) <==> n < 1_000_000
  {
    NatToStringLength(n, 6);
    assert Pow10(6) == 1_000_000;
  }

  lemma OneMillionDigits()
    ensures NatToString(1_000_000) == "1000000"
  {
    var s1 := NatToString(1);
    assert s1 == "1";
    var s2 := NatToString(10);
    assert s2 == s1 + "0";
    var s3 := NatToString(100);
    assert s3 == s2 + "0";
    var s4 := NatToString(1000);
    assert s4 == s3 + "0";
    var s5 := NatToString(10000);
    assert s5 == s4 + "0";
    var s6 := NatToString(100000);
    assert s6 == s5 + "0";
    assert NatToString(1_000_000) == s6 + "0";
  }

  lemma {:induction false} StripZeros(k: nat)
    ensures StripTrailingZeros("1" + seq(k, _ => '0')) == "1"
  {
    if k > 0 {
      var s := "1" + seq(k, _ => '0');
      assert s[..|s| - 1] == "1" + seq(k - 1, _ => '0');
      StripZeros(k - 1);
    } else {
      assert "1" + seq(0, _ => '0') == "1";
    }
  }

  /** Container 1000000 has its uptime filed under "1e+06". */
  lemma FloatKeyOfOneMillion()
    ensures FloatKeyText(1_000_000) == "1e+06"
    ensures FloatKeyText(1_000_000) != NatToString(1_000_000)
  {
    FloatKeyIsDecimalBelowOneMillion(1_000_000);
    OneMillionDigits();
    StripZeros(6);
    assert "1" + seq(6, _ => '0') == "1000000";
    assert NatToString(6) == "6";
  }
}
