/** The gas price of the next DS block. */
module GasPricer {
  import opened Wrappers
  import opened Numbers

  /** The price is raised, lowered or kept depending on how full the last blocks were, relative to a historical
      mean, in checked 128-bit arithmetic. */
  datatype Params = Params(
    precision: nat, minPrice: nat, raiseLower: nat, raiseUpper: nat, drop: nat, tolerance: nat,
    congestionPercent: nat, lowPercent: nat, highPercent: nat, meanBlocks: nat)
  {
    function Floor(): nat { Max(precision, minPrice) }
    /** The lower ratio, unless it is set above the upper one. */
    function RaiseRatio(): nat { if raiseLower <= raiseUpper then raiseLower else raiseUpper / 2 }
    predicate Valid() { drop <= precision && tolerance <= precision && precision < MAX128 && minPrice < MAX128 }
  }

  datatype TxBlock = TxBlock(gasUsed: nat, gasLimit: nat)

  /** What a node sees: the prices of all DS blocks by number, the transaction blocks since the last
      one, and the prices proposed with DS solutions. */
  datatype View = View(prices: seq<nat>, txBlocks: seq<TxBlock>, proposals: seq<nat>) {
    predicate Valid() { prices != [] }
    predicate Fits() { forall i :: 0 <= i < |prices| ==> prices[i] < MAX128 }
    function Last(): nat
      requires prices != []
    {
      prices[|prices| - 1]
    }
  }

  /** A checked product followed by a checked division. */
  function Scale(value: nat, numerator: nat, denominator: nat): Option<nat> {
    if value * numerator >= MAX128 || denominator == 0 then None else Some(value * numerator / denominator)
  }

  // ---------- the historical mean

  datatype Acc = Acc(total: nat, count: nat) {
    /** A price that would overflow the total is skipped. */
    function Add(price: nat): Acc { if total + price < MAX128 then Acc(total + price, count + 1) else this }
  }

  /** The prices from the last block down to number `i`. */
  function Accumulate(prices: seq<nat>, i: nat): Acc
    requires i <= |prices|
    decreases |prices| - i
  {
    if i == |prices| then Acc(0, 0) else Accumulate(prices, i + 1).Add(prices[i])
  }

  /** The window's first block; block 0 never counts. */
  function WindowStart(p: Params, prices: seq<nat>): nat
    requires prices != []
  {
    var last := |prices| - 1;
    if last > p.meanBlocks then Max(last - p.meanBlocks, 1) else 1
  }

  function Mean(p: Params, v: View): nat
    requires v.Valid()
  {
    var acc := Accumulate(v.prices, Min(WindowStart(p, v.prices), |v.prices|));
    if acc.count == 0 then v.Last() else acc.total / acc.count
  }

  method GetHistoricalMeanGasPrice(p: Params, v: View) returns (mean: nat)
    requires v.Valid()
    ensures mean == Mean(p, v)
  {
    var last := |v.prices| - 1;
    var low := if last > p.meanBlocks then last - p.meanBlocks else 0;
    var acc := Acc(0, 0);
    var i := last;
    while i >= low && i != 0
      invariant 0 <= i <= last && (i + 1 >= low)
      invariant acc == Accumulate(v.prices, i + 1)
      decreases i
    {
      acc := acc.Add(v.prices[i]);
      i := i - 1;
    }
    if acc.count == 0 {
      return v.Last();
    }
    return acc.total / acc.count;
  }

  ghost predicate AllAtLeast(prices: seq<nat>, i: nat, bound: nat) {
    forall j :: i <= j < |prices| ==> prices[j] >= bound
  }

  ghost predicate AllAtMost(prices: seq<nat>, i: nat, bound: nat) {
    forall j :: i <= j < |prices| ==> prices[j] <= bound
  }

  lemma {:induction false} AccumulateBounds(prices: seq<nat>, i: nat, low: nat, high: nat)
    requires i <= |prices| && AllAtLeast(prices, i, low) && AllAtMost(prices, i, high)
    ensures var acc := Accumulate(prices, i);
            low * acc.count <= acc.total <= high * acc.count && acc.total < MAX128
    decreases |prices| - i
  {
    if i < |prices| {
      AccumulateBounds(prices, i + 1, low, high);
      var acc := Accumulate(prices, i + 1);
      assert low * (acc.count + 1) == low * acc.count + low;
      assert high * (acc.count + 1) == high * acc.count + high;
    }
  }

  // ---------- quotients

  lemma QuotientAtLeast(x: nat, d: nat, q: nat)
    requires d > 0 && q * d <= x
    ensures q <= x / d
  {
    var r := x / d;
    if r < q {
      MulLe(d, r + 1, q);
    }
  }

  lemma QuotientAtMost(x: nat, d: nat, q: nat)
    requires d > 0 && x <= q * d
    ensures x / d <= q
  {
    var r := x / d;
    if r > q {
      MulLe(d, q + 1, r);
    }
  }

  /** The mean lies between any bounds that all prices of the window, and the last one, respect. */
  lemma MeanBetween(p: Params, v: View, low: nat, high: nat)
    requires v.Valid() && low <= v.Last() <= high
    requires AllAtLeast(v.prices, WindowStart(p, v.prices), low) && AllAtMost(v.prices, WindowStart(p, v.prices), high)
    ensures low <= Mean(p, v) <= high
  {
    var start := Min(WindowStart(p, v.prices), |v.prices|);
    AccumulateBounds(v.prices, start, low, high);
    var acc := Accumulate(v.prices, start);
    if acc.count > 0 {
      QuotientAtLeast(acc.total, acc.count, low);
      QuotientAtMost(acc.total, acc.count, high);
    }
  }

  lemma {:induction false} AccumulateFits(prices: seq<nat>, i: nat)
    requires i <= |prices| && Sum(prices[i..]) < MAX128
    ensures Accumulate(prices, i) == Acc(Sum(prices[i..]), |prices| - i)
    decreases |prices| - i
  {
    if i < |prices| {
      assert prices[i..][1..] == prices[i + 1..];
      AccumulateFits(prices, i + 1);
    }
  }

  /** The last block and as many before it as configured, block 0 left out. */
  function Window(p: Params, v: View): seq<nat>
    requires v.Valid()
  {
    v.prices[|v.prices| - Min(p.meanBlocks + 1, |v.prices| - 1)..]
  }

  /** When the window's sum fits in 128 bits the mean is its rounded-down average; the last price stands in
      for an empty window. */
  lemma MeanIsAverage(p: Params, v: View)
    requires v.Valid() && Sum(Window(p, v)) < MAX128
    ensures Mean(p, v) == if Window(p, v) == [] then v.Last() else Sum(Window(p, v)) / |Window(p, v)|
  {
    assert Window(p, v) == v.prices[Min(WindowStart(p, v.prices), |v.prices|)..];
    AccumulateFits(v.prices, Min(WindowStart(p, v.prices), |v.prices|));
  }

  // ---------- the median of the proposals

  /** Insertion into an ordered multiset. */
  function Insert(xs: seq<nat>, x: nat): seq<nat> {
    if xs == [] || x < xs[0] then [x] + xs else [xs[0]] + Insert(xs[1..], x)
  }

  function Sorted(xs: seq<nat>, limit: nat): seq<nat> {
    if xs == [] then []
    else if xs[|xs| - 1] <= limit then Insert(Sorted(xs[..|xs| - 1], limit), xs[|xs| - 1])
    else Sorted(xs[..|xs| - 1], limit)
  }

  ghost predicate NonDecreasing(xs: seq<nat>) { forall i, j :: 0 <= i < j < |xs| ==> xs[i] <= xs[j] }

  function Within(xs: seq<nat>, limit: nat): seq<nat> {
    if xs == [] then []
    else Within(xs[..|xs| - 1], limit) + if xs[|xs| - 1] <= limit then [xs[|xs| - 1]] else []
  }

  lemma {:induction false} InsertAscending(xs: seq<nat>, x: nat, bound: nat)
    requires NonDecreasing(xs)
    ensures NonDecreasing(Insert(xs, x))
    ensures bound <= x && (xs != [] ==> bound <= xs[0]) ==> bound <= Insert(xs, x)[0]
  {
    if xs != [] && x >= xs[0] {
      InsertAscending(xs[1..], x, xs[0]);
      var rest := Insert(xs[1..], x);
      assert xs[0] <= rest[0];
      assert forall i :: 0 <= i < |rest| ==> rest[0] <= rest[i];
    }
  }

  lemma {:induction false} InsertMultiset(xs: seq<nat>, x: nat)
    ensures multiset(Insert(xs, x)) == multiset(xs) + multiset{x}
  {
    if xs != [] && x >= xs[0] {
      InsertMultiset(xs[1..], x);
      assert xs == [xs[0]] + xs[1..];
    }
  }

  /** The sorted list holds exactly the proposals within the limit. */
  lemma {:induction false} SortedOf(xs: seq<nat>, limit: nat)
    ensures NonDecreasing(Sorted(xs, limit)) && multiset(Sorted(xs, limit)) == multiset(Within(xs, limit))
  {
    if xs != [] {
      SortedOf(xs[..|xs| - 1], limit);
      if xs[|xs| - 1] <= limit {
        InsertAscending(Sorted(xs[..|xs| - 1], limit), xs[|xs| - 1], 0);
        InsertMultiset(Sorted(xs[..|xs| - 1], limit), xs[|xs| - 1]);
      }
    }
  }

  /** The middle one, or the mean of the two middle ones - whose sum may wrap around. */
  function Median(xs: seq<nat>): nat
    requires xs != []
  {
    var n := |xs|;
    if n % 2 == 0 then (xs[n / 2 - 1] + xs[n / 2]) % MAX128 / 2 else xs[n / 2]
  }

  // ---------- the three outcomes

  function UpperBound(p: Params, mean: nat): nat {
    Scale(mean, p.precision + p.raiseUpper, p.precision).GetOr(mean)
  }

  /** The ratio is divided before it is multiplied, so only whole multiples of the mean arise. */
  function WholeMultiple(p: Params, mean: nat): nat
    requires p.precision > 0
  {
    (p.precision + p.RaiseRatio()) / p.precision * mean
  }

  function LowerBound(p: Params, mean: nat): nat {
    if Scale(mean, p.precision + p.raiseUpper, p.precision).None? || p.precision == 0 then mean
    else WholeMultiple(p, mean)
  }

  function Increased(p: Params, v: View): nat
    requires v.Valid()
  {
    var mean := Mean(p, v);
    var proposals := Sorted(v.proposals, UpperBound(p, mean));
    if proposals == [] then mean
    else Max(Max(LowerBound(p, mean), Min(Median(proposals), UpperBound(p, mean))), p.Floor())
  }

  function Decreased(p: Params, v: View): nat
    requires v.Valid()
  {
    var mean := Mean(p, v);
    Max(p.Floor(), Scale(mean, Wrap128(p.precision - p.drop), p.precision).GetOr(mean))
  }

  function CountFull(p: Params, bs: seq<TxBlock>): nat {
    if bs == [] then 0
    else CountFull(p, bs[..|bs| - 1]) + if bs[|bs| - 1].gasUsed >= bs[|bs| - 1].gasLimit * p.congestionPercent / 100 then 1 else 0
  }

  function NewPrice(p: Params, v: View): nat
    requires v.Valid()
  {
    var full, total := CountFull(p, v.txBlocks), |v.txBlocks|;
    if full < total * p.lowPercent / 100 then Decreased(p, v)
    else if full > total * p.highPercent / 100 then Increased(p, v)
    else Max(v.Last(), p.Floor())
  }

  method RaiseBounds(p: Params, mean: nat) returns (lower: nat, upper: nat)
    ensures lower == LowerBound(p, mean) && upper == UpperBound(p, mean)
  {
    var scaled := Scale(mean, p.precision + p.raiseUpper, p.precision);
    if scaled.None? {
      return mean, mean;
    }
    upper := scaled.value;
    lower := WholeMultiple(p, mean);
  }

  method SortProposals(proposals: seq<nat>, upper: nat) returns (sorted: seq<nat>)
    ensures sorted == Sorted(proposals, upper)
  {
    sorted := [];
    var i := 0;
    while i < |proposals|
      invariant 0 <= i <= |proposals| && sorted == Sorted(proposals[..i], upper)
    {
      assert proposals[..i + 1][..i] == proposals[..i];
      if proposals[i] <= upper {
        sorted := Insert(sorted, proposals[i]);
      }
      i := i + 1;
    }
    assert proposals[..i] == proposals;
  }

  method GetIncreasedGasPrice(p: Params, v: View) returns (price: nat)
    requires v.Valid()
    ensures price == Increased(p, v)
  {
    var mean := GetHistoricalMeanGasPrice(p, v);
    var lower, upper := RaiseBounds(p, mean);
    var sorted := SortProposals(v.proposals, upper);
    if |sorted| == 0 {
      return mean;
    }
    return Max(Max(lower, Min(Median(sorted), upper)), Max(p.precision, p.minPrice));
  }

  method GetNewGasPrice(p: Params, v: View) returns (price: nat)
    requires v.Valid()
    ensures price == NewPrice(p, v)
  {
    var total, full := 0, 0;
    while total < |v.txBlocks|
      invariant 0 <= total <= |v.txBlocks| && full == CountFull(p, v.txBlocks[..total])
    {
      var b := v.txBlocks[total];
      assert v.txBlocks[..total + 1][..total] == v.txBlocks[..total];
      if b.gasUsed >= b.gasLimit * p.congestionPercent / 100 {
        full := full + 1;
      }
      total := total + 1;
    }
    assert v.txBlocks[..total] == v.txBlocks;
    if full < total * p.lowPercent / 100 {
      return Decreased(p, v);
    } else if full > total * p.highPercent / 100 {
      price := GetIncreasedGasPrice(p, v);
      return;
    }
    return Max(v.Last(), p.Floor());
  }

  /** Within the tolerance of one's own price; an overflowing bound is no bound. */
  predicate Accepts(p: Params, v: View, price: nat)
    requires v.Valid()
  {
    var mine := NewPrice(p, v);
    && price <= Scale(mine, p.precision + p.tolerance, p.precision).GetOr(price)
    && price >= Scale(mine, Wrap128(p.precision - p.tolerance), p.precision).GetOr(price)
  }

  // ---------- bounds

  lemma ScaleUp(value: nat, numerator: nat, denominator: nat)
    requires numerator >= denominator > 0
    ensures value * numerator / denominator >= value
  {
    MulLe(value, denominator, numerator);
    QuotientAtLeast(value * numerator, denominator, value);
  }

  lemma ScaleDown(value: nat, numerator: nat, denominator: nat)
    requires denominator > 0 && numerator <= denominator
    ensures value * numerator / denominator <= value
  {
    MulLe(value, numerator, denominator);
    QuotientAtMost(value * numerator, denominator, value);
  }

  /** Dividing first gives no more than dividing last. */
  lemma DivideFirst(value: nat, a: nat, b: nat, d: nat)
    requires d > 0 && a <= b
    ensures a / d * value <= value * b / d
  {
    var q := a / d;
    assert q * d <= a;
    MulLe(value, q * d, b);
    Reorder(q, value, d);
    QuotientAtLeast(value * b, d, q * value);
  }

  lemma Reorder(q: nat, value: nat, d: nat)
    ensures (q * value) * d == value * (q * d)
  {
  }

  lemma BoundsOrdered(p: Params, mean: nat)
    ensures mean <= LowerBound(p, mean) <= UpperBound(p, mean)
  {
    if mean * (p.precision + p.raiseUpper) < MAX128 && p.precision > 0 {
      var ratio := p.RaiseRatio();
      DivideFirst(mean, p.precision + ratio, p.precision + p.raiseUpper, p.precision);
      var k := (p.precision + ratio) / p.precision;
      QuotientAtLeast(p.precision + ratio, p.precision, 1);
      MulLe(mean, 1, k);
    }
  }

  /** An increase lies between the historical mean and the larger of floor and upper bound. */
  lemma IncreaseBounds(p: Params, v: View)
    requires v.Valid()
    ensures Mean(p, v) <= Increased(p, v) <= Max(p.Floor(), UpperBound(p, Mean(p, v)))
  {
    BoundsOrdered(p, Mean(p, v));
  }

  /** A decrease never exceeds the larger of floor and mean. */
  lemma DecreaseBounds(p: Params, v: View)
    requires v.Valid() && p.Valid()
    ensures p.Floor() <= Decreased(p, v) <= Max(p.Floor(), Mean(p, v))
  {
    Wrap128Fits(p.precision - p.drop);
    if p.precision > 0 {
      ScaleDown(Mean(p, v), p.precision - p.drop, p.precision);
    }
  }

  /** A node with the leader's view accepts the leader's price. */
  lemma OwnPriceAccepted(p: Params, v: View)
    requires v.Valid() && p.Valid()
    ensures Accepts(p, v, NewPrice(p, v))
  {
    Wrap128Fits(p.precision - p.tolerance);
    if p.precision > 0 {
      ScaleUp(NewPrice(p, v), p.precision + p.tolerance, p.precision);
      ScaleDown(NewPrice(p, v), p.precision - p.tolerance, p.precision);
    }
  }

  method VerifyGasPrice(p: Params, v: View, price: nat) returns (ok: bool)
    requires v.Valid()
    ensures ok <==> Accepts(p, v, price)
  {
    var mine := GetNewGasPrice(p, v);
    var upper := Scale(mine, p.precision + p.tolerance, p.precision);
    var lower := Scale(mine, Wrap128(p.precision - p.tolerance), p.precision);
    return (upper.None? || price <= upper.value) && (lower.None? || price >= lower.value);
  }

  // ---------- the price follows the load

  lemma BelowQuotient(x: nat, y: nat, d: nat)
    requires d > 0
    ensures x < y / d <==> d * (x + 1) <= y
  {
    QuotientLe(x + 1, y, d);
  }

  lemma QuotientLe(x: nat, y: nat, d: nat)
    requires d > 0
    ensures x <= y / d <==> x * d <= y
  {
    if x * d <= y {
      QuotientAtLeast(y, d, x);
    } else {
      QuotientBelow(x, y, d);
    }
  }

  lemma QuotientBelow(x: nat, y: nat, d: nat)
    requires d > 0 && y < x * d
    ensures y / d < x
  {
    var q := y / d;
    assert q * d <= y;
    if q >= x {
      MulLe(d, x, q);
    }
  }

  predicate Full(p: Params, b: TxBlock) { b.gasLimit * p.congestionPercent < 100 * (b.gasUsed + 1) }

  lemma FullIs(p: Params, b: TxBlock)
    ensures Full(p, b) <==> b.gasUsed >= b.gasLimit * p.congestionPercent / 100
  {
    BelowQuotient(b.gasUsed, b.gasLimit * p.congestionPercent, 100);
  }

  /** The blocks that count as full. */
  ghost function FullBlocks(p: Params, bs: seq<TxBlock>): set<nat> { set i | 0 <= i < |bs| && Full(p, bs[i]) }

  lemma {:induction false} CountFullIs(p: Params, bs: seq<TxBlock>)
    ensures CountFull(p, bs) == |FullBlocks(p, bs)|
  {
    if bs != [] {
      var n := |bs| - 1;
      CountFullIs(p, bs[..n]);
      var before := FullBlocks(p, bs[..n]);
      FullIs(p, bs[n]);
      assert FullBlocks(p, bs) == if Full(p, bs[n]) then before + {n} else before;
    }
  }

  /** Fewer full blocks than the lower share of all, or more than the higher share. */
  ghost predicate Quiet(p: Params, v: View) { 100 * (|FullBlocks(p, v.txBlocks)| + 1) <= |v.txBlocks| * p.lowPercent }

  ghost predicate Congested(p: Params, v: View) { 100 * |FullBlocks(p, v.txBlocks)| > |v.txBlocks| * p.highPercent }

  lemma LoadIs(p: Params, v: View)
    requires v.Valid()
    ensures NewPrice(p, v) ==
              if Quiet(p, v) then Decreased(p, v) else if Congested(p, v) then Increased(p, v) else Max(v.Last(), p.Floor())
  {
    CountFullIs(p, v.txBlocks);
    var full := CountFull(p, v.txBlocks);
    BelowQuotient(full, |v.txBlocks| * p.lowPercent, 100);
    QuotientLe(full, |v.txBlocks| * p.highPercent, 100);
  }

  /** The price follows the load. Few full blocks: it drops to the floor or to the mean reduced by the
      drop ratio, rounded down. Many: it is at least the mean and at most the larger of floor and upper bound.
      Otherwise it stays, but not below the floor. */
  lemma PriceFollowsLoad(p: Params, v: View)
    requires v.Valid() && p.Valid() && p.precision > 0
    ensures Quiet(p, v) ==> Lowered(p, Mean(p, v), NewPrice(p, v))
    ensures !Quiet(p, v) && Congested(p, v) ==> Mean(p, v) <= NewPrice(p, v) <= Max(p.Floor(), UpperBound(p, Mean(p, v)))
    ensures !Quiet(p, v) && !Congested(p, v) ==> NewPrice(p, v) == Max(v.Last(), p.Floor())
  {
    LoadIs(p, v);
    IncreaseBounds(p, v);
    LoweredIs(p, v);
  }

  /** The floor, or `mean` less the drop ratio, whichever is larger; the mean itself where the product overflows. */
  ghost predicate Lowered(p: Params, mean: nat, price: nat)
    requires p.Valid()
  {
    var product := mean * (p.precision - p.drop);
    && p.Floor() <= price
    && (product < MAX128 && price > p.Floor() ==> price * p.precision <= product)
    && (product < MAX128 ==> product < p.precision * (price + 1))
    && (product >= MAX128 ==> price == Max(p.Floor(), mean))
  }

  /** Which numbers a scaled value bounds, without the quotient. */
  lemma ScaleBounds(value: nat, numerator: nat, denominator: nat, x: nat)
    requires denominator > 0
    ensures var scaled, product := Scale(value, numerator, denominator), value * numerator;
            && (scaled.Some? <==> product < MAX128)
            && (scaled.Some? ==> (x <= scaled.value <==> x * denominator <= product))
            && (scaled.Some? ==> (x >= scaled.value <==> product < denominator * (x + 1)))
  {
    var product := value * numerator;
    QuotientLe(x, product, denominator);
    BelowQuotient(x, product, denominator);
  }

  lemma LoweredIs(p: Params, v: View)
    requires v.Valid() && p.Valid() && p.precision > 0
    ensures Lowered(p, Mean(p, v), Decreased(p, v))
  {
    var kept := p.precision - p.drop;
    Wrap128Fits(kept);
    ScaleBounds(Mean(p, v), kept, p.precision, Decreased(p, v));
  }

  /** A drop from above the floor is a real one. */
  lemma DropIsStrict(p: Params, v: View)
    requires v.Valid() && p.Valid() && p.precision > 0 && Quiet(p, v)
    requires p.drop > 0 && Mean(p, v) > p.Floor() && Mean(p, v) * (p.precision - p.drop) < MAX128
    ensures NewPrice(p, v) < Mean(p, v)
  {
    PriceFollowsLoad(p, v);
    var mean, price := Mean(p, v), NewPrice(p, v);
    if price >= mean {
      MulLe(p.precision, mean, price);
      LessThanWhole(mean, p.precision, p.drop);
    }
  }

  lemma LessThanWhole(value: nat, whole: nat, part: nat)
    requires 0 < part <= whole && value > 0
    ensures value * (whole - part) < value * whole
  {
    assert value * whole == value * (whole - part) + value * part;
    MulLe(part, 1, value);
  }

  // ---------- an increase follows the proposals

  /** How many proposals within the limit, by position, meet a condition. */
  ghost function Proposing(xs: seq<nat>, limit: nat, hit: nat -> bool): nat {
    |set i | 0 <= i < |xs| && xs[i] <= limit && hit(xs[i])|
  }

  function CountIf(ys: seq<nat>, hit: nat -> bool): nat {
    if ys == [] then 0 else (if hit(ys[0]) then 1 else 0) + CountIf(ys[1..], hit)
  }

  lemma {:induction false} CountInsert(ys: seq<nat>, y: nat, hit: nat -> bool)
    ensures CountIf(Insert(ys, y), hit) == CountIf(ys, hit) + if hit(y) then 1 else 0
  {
    if ys == [] || y < ys[0] {
      assert ([y] + ys)[1..] == ys;
    } else {
      CountInsert(ys[1..], y, hit);
      assert Insert(ys, y)[1..] == Insert(ys[1..], y);
    }
  }

  lemma {:induction false} ProposingIs(xs: seq<nat>, limit: nat, hit: nat -> bool)
    ensures Proposing(xs, limit, hit) == CountIf(Sorted(xs, limit), hit)
  {
    if xs != [] {
      var n := |xs| - 1;
      ProposingIs(xs[..n], limit, hit);
      CountInsert(Sorted(xs[..n], limit), xs[n], hit);
      var before := set i | 0 <= i < |xs[..n]| && xs[..n][i] <= limit && hit(xs[..n][i]);
      var after := set i | 0 <= i < |xs| && xs[i] <= limit && hit(xs[i]);
      assert after == if xs[n] <= limit && hit(xs[n]) then before + {n} else before;
    }
  }

  /** At most the first `k` entries, or at most those from `k` on, meet the condition. */
  lemma {:induction false} CountFront(ys: seq<nat>, k: nat, hit: nat -> bool)
    requires k <= |ys| && forall i :: k <= i < |ys| ==> !hit(ys[i])
    ensures CountIf(ys, hit) <= k
  {
    if ys != [] {
      if k == 0 {
        CountFront(ys[1..], 0, hit);
      } else {
        CountFront(ys[1..], k - 1, hit);
      }
    }
  }

  lemma {:induction false} CountBack(ys: seq<nat>, k: nat, hit: nat -> bool)
    requires k <= |ys| && forall i :: 0 <= i < k ==> !hit(ys[i])
    ensures CountIf(ys, hit) <= |ys| - k
  {
    if ys != [] {
      if k == 0 {
        CountBack(ys[1..], 0, hit);
      } else {
        CountBack(ys[1..], k - 1, hit);
      }
    }
  }

  lemma {:induction false} CountAll(ys: seq<nat>)
    ensures CountIf(ys, _ => true) == |ys|
  {
    if ys != [] {
      CountAll(ys[1..]);
    }
  }

  function LessThan(x: nat): nat -> bool { y => y < x }

  function MoreThan(x: nat): nat -> bool { y => y > x }

  /** Not more than half of the proposals within the limit are smaller, and not more than half larger. */
  ghost predicate InTheMiddle(xs: seq<nat>, limit: nat, x: nat) {
    var all := Proposing(xs, limit, _ => true);
    2 * Proposing(xs, limit, LessThan(x)) <= all && 2 * Proposing(xs, limit, MoreThan(x)) <= all
  }

  lemma MedianIsMiddle(xs: seq<nat>, limit: nat)
    requires Sorted(xs, limit) != [] && 2 * limit < MAX128
    ensures InTheMiddle(xs, limit, Median(Sorted(xs, limit)))
  {
    var ys := Sorted(xs, limit);
    var m := Median(ys);
    SortedOf(xs, limit);
    SortedWithin(xs, limit);
    ProposingIs(xs, limit, _ => true);
    CountAll(ys);
    ProposingIs(xs, limit, LessThan(m));
    ProposingIs(xs, limit, MoreThan(m));
    SplitsInHalf(ys, limit);
  }

  /** Half of a sorted list comes before its median, and half after it. */
  lemma SplitsInHalf(ys: seq<nat>, limit: nat)
    requires ys != [] && NonDecreasing(ys) && 2 * limit < MAX128 && forall i :: 0 <= i < |ys| ==> ys[i] <= limit
    ensures 2 * CountIf(ys, LessThan(Median(ys))) <= |ys| && 2 * CountIf(ys, MoreThan(Median(ys))) <= |ys|
  {
    var half := |ys| / 2;
    if |ys| % 2 == 0 {
      MiddleBetween(ys[half - 1], ys[half]);
      SplitsAt(ys, half, half, Median(ys));
    } else {
      SplitsAt(ys, half, half + 1, Median(ys));
    }
  }

  lemma SplitsAt(ys: seq<nat>, front: nat, back: nat, m: nat)
    requires NonDecreasing(ys) && front <= back <= |ys|
    requires forall i :: 0 <= i < back ==> ys[i] <= m
    requires forall i :: front <= i < |ys| ==> ys[i] >= m
    ensures CountIf(ys, LessThan(m)) <= front && CountIf(ys, MoreThan(m)) <= |ys| - back
  {
    CountFront(ys, front, LessThan(m));
    CountBack(ys, back, MoreThan(m));
  }

  lemma MiddleBetween(a: nat, b: nat)
    requires a <= b && a + b < MAX128
    ensures a <= (a + b) % MAX128 / 2 <= b
  {
    Wrap128Fits(a + b);
  }

  lemma {:induction false} SortedWithin(xs: seq<nat>, limit: nat)
    ensures forall i :: 0 <= i < |Sorted(xs, limit)| ==> Sorted(xs, limit)[i] <= limit
  {
    if xs != [] {
      SortedWithin(xs[..|xs| - 1], limit);
      InsertWithin(Sorted(xs[..|xs| - 1], limit), xs[|xs| - 1], limit);
    }
  }

  lemma {:induction false} InsertWithin(ys: seq<nat>, y: nat, limit: nat)
    requires forall i :: 0 <= i < |ys| ==> ys[i] <= limit
    ensures y <= limit ==> forall i :: 0 <= i < |Insert(ys, y)| ==> Insert(ys, y)[i] <= limit
  {
    if ys != [] && y >= ys[0] {
      InsertWithin(ys[1..], y, limit);
    }
  }

  /** When blocks are full, the new price is what the middle one of the proposals within the upper bound asks
      for, but neither below the lower bound nor below the floor; without such proposals it is the mean. */
  lemma IncreaseFollowsProposals(p: Params, v: View) returns (asked: nat)
    requires v.Valid() && !Quiet(p, v) && Congested(p, v) && 2 * UpperBound(p, Mean(p, v)) < MAX128
    ensures var upper := UpperBound(p, Mean(p, v));
            if Proposing(v.proposals, upper, _ => true) == 0 then NewPrice(p, v) == Mean(p, v)
            else
              && InTheMiddle(v.proposals, upper, asked)
              && NewPrice(p, v) == Max(Max(LowerBound(p, Mean(p, v)), Min(asked, upper)), p.Floor())
  {
    LoadIs(p, v);
    var upper := UpperBound(p, Mean(p, v));
    var ys := Sorted(v.proposals, upper);
    ProposingIs(v.proposals, upper, _ => true);
    CountAll(ys);
    asked := 0;
    if ys != [] {
      asked := Median(ys);
      MedianIsMiddle(v.proposals, upper);
    }
  }

  /** The bounds themselves: the mean raised by the upper ratio, rounded down, and the whole multiple of it that the
      lower ratio gives, or the mean twice where the product overflows. */
  lemma RaiseBoundsAre(p: Params, mean: nat) returns (k: nat)
    requires p.precision > 0
    ensures var product, upper := mean * (p.precision + p.raiseUpper), UpperBound(p, mean);
            if product < MAX128 then
              && upper * p.precision <= product < p.precision * (upper + 1)
              && LowerBound(p, mean) == k * mean
              && k * p.precision <= p.precision + (if p.raiseLower <= p.raiseUpper then p.raiseLower else p.raiseUpper / 2)
                 < p.precision * (k + 1)
            else
              upper == LowerBound(p, mean) == mean
  {
    var upper, ratio := UpperBound(p, mean), p.RaiseRatio();
    ScaleBounds(mean, p.precision + p.raiseUpper, p.precision, upper);
    k := (p.precision + ratio) / p.precision;
    QuotientLe(k, p.precision + ratio, p.precision);
    BelowQuotient(k, p.precision + ratio, p.precision);
  }

  // ---------- what a backup rejects

  /** A backup accepts exactly the prices within the tolerance of its own, rounded down at both ends; where a
      product overflows there is no bound on that side. */
  lemma AcceptsExactly(p: Params, v: View, price: nat)
    requires v.Valid() && p.Valid() && p.precision > 0
    ensures var mine := NewPrice(p, v);
            Accepts(p, v, price) <==>
              && (mine * (p.precision + p.tolerance) < MAX128 ==> price * p.precision <= mine * (p.precision + p.tolerance))
              && (mine * (p.precision - p.tolerance) < MAX128 ==> mine * (p.precision - p.tolerance) < p.precision * (price + 1))
  {
    var mine, less := NewPrice(p, v), p.precision - p.tolerance;
    Wrap128Fits(less);
    ScaleBounds(mine, p.precision + p.tolerance, p.precision, price);
    ScaleBounds(mine, less, p.precision, price);
  }

  // ---------- whole chains

  lemma NewPriceBounds(p: Params, v: View)
    requires v.Valid() && v.Fits() && p.Valid() && AllAtLeast(v.prices, 0, p.Floor())
    ensures p.Floor() <= NewPrice(p, v) < MAX128
  {
    MeanBetween(p, v, p.Floor(), MAX128 - 1);
    IncreaseBounds(p, v);
    DecreaseBounds(p, v);
    UpperFits(p, Mean(p, v));
  }

  lemma UpperFits(p: Params, mean: nat)
    requires mean < MAX128
    ensures UpperBound(p, mean) < MAX128
  {
    if mean * (p.precision + p.raiseUpper) < MAX128 && p.precision > 0 {
      var x := mean * (p.precision + p.raiseUpper);
      MulLe(x, 1, p.precision);
      QuotientAtMost(x, p.precision, x);
    }
  }

  /** What the leader of one DS block saw besides the chain itself. */
  datatype Epoch = Epoch(txBlocks: seq<TxBlock>, proposals: seq<nat>)

  /** A chain in which every price after the first is computed by its leader from all before it. */
  ghost predicate Chain(p: Params, prices: seq<nat>, epochs: seq<Epoch>)
    requires p.Valid()
  {
    && |prices| == |epochs| + 1 && p.Floor() <= prices[0] < MAX128
    && forall k :: 0 <= k < |epochs| ==>
         prices[k + 1] == NewPrice(p, View(prices[..k + 1], epochs[k].txBlocks, epochs[k].proposals))
  }

  /** Every price of such a chain is at least the floor, and fits in 128 bits. */
  lemma {:induction false} ChainStaysAboveFloor(p: Params, prices: seq<nat>, epochs: seq<Epoch>, k: nat)
    requires p.Valid() && Chain(p, prices, epochs) && k < |prices|
    ensures forall j :: 0 <= j <= k ==> p.Floor() <= prices[j] < MAX128
  {
    if k > 0 {
      ChainStaysAboveFloor(p, prices, epochs, k - 1);
      var v := View(prices[..k], epochs[k - 1].txBlocks, epochs[k - 1].proposals);
      assert prices[..(k - 1) + 1] == prices[..k];
      assert v.Fits() && AllAtLeast(v.prices, 0, p.Floor());
      NewPriceBounds(p, v);
    }
  }
}
