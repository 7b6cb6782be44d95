/** The log-linear latency histogram: bucket arithmetic, recording, merging and percentiles. */
module Histogram {

  import opened Sequences
  import opened Wrappers

  // ------------------------------------------------------------ buckets
  const SUB := 128
  const LINEAR := 256

  function BitLength(value: nat): nat {
    if value == 0 then 0 else 1 + BitLength(value / 2)
  }

  function ShiftRight(value: nat, bits: int): nat {
    if bits <= 0 then value else ShiftRight(value / 2, bits - 1)
  }

  function ShiftLeft(value: nat, bits: nat): nat {
    if bits == 0 then value else 2 * ShiftLeft(value, bits - 1)
  }

  lemma NineBits(value: nat)
    requires LINEAR <= value < 2 * LINEAR
    ensures BitLength(value) == 9
  {
    var a := value / 2;
    var b := a / 2;
    var c := b / 2;
    var d := c / 2;
    var e := d / 2;
    var f := e / 2;
    assert 4 <= f < 8 && f / 2 / 2 == 1 && BitLength(1) == 1 + BitLength(0);
    assert BitLength(f) == 3 && BitLength(e) == 4 && BitLength(d) == 5;
    assert BitLength(c) == 6 && BitLength(b) == 7 && BitLength(a) == 8;
  }

  /** Above the linear range the length is that of half the value, and one more. */
  lemma {:induction false} LongEnough(value: nat)
    requires LINEAR <= value
    ensures BitLength(value) >= 9
    ensures value >= 2 * LINEAR ==> BitLength(value) == 1 + BitLength(value / 2)
  {
    if value < 2 * LINEAR {
      NineBits(value);
    } else {
      LongEnough(value / 2);
    }
  }

  function Index(value: nat): nat {
    if value < LINEAR then value
    else
      LongEnough(value);
      var shift := BitLength(value) - 8;
      LINEAR + (shift - 1) * SUB + ShiftRight(value, shift) - SUB
  }

  function Low(index: nat): nat {
    if index < LINEAR then index
    else ShiftLeft((index - LINEAR) % SUB + SUB, (index - LINEAR) / SUB + 1)
  }

  function High(index: nat): int {
    if index < LINEAR then index
    else ShiftLeft((index - LINEAR) % SUB + SUB + 1, (index - LINEAR) / SUB + 1) - 1
  }

  lemma FirstRange(value: nat)
    requires LINEAR <= value < 2 * LINEAR
    ensures Index(value) == SUB + value / 2
  {
    NineBits(value);
    assert ShiftRight(value, 1) == ShiftRight(value / 2, 0) == value / 2;
  }

  /** Doubling a value moves it one power of two, that is SUB buckets, up. */
  lemma IndexDoubles(value: nat)
    requires 2 * LINEAR <= value
    ensures Index(value) == Index(value / 2) + SUB
  {
    LongEnough(value);
    LongEnough(value / 2);
    assert ShiftRight(value, BitLength(value) - 8) == ShiftRight(value / 2, BitLength(value / 2) - 8);
  }

  lemma FirstBounds(index: nat)
    requires LINEAR <= index < LINEAR + SUB
    ensures Low(index) == 2 * (index - SUB) && High(index) == Low(index) + 1
  {
    assert (index - LINEAR) / SUB == 0 && (index - LINEAR) % SUB == index - LINEAR;
    assert ShiftLeft(index - SUB, 1) == 2 * ShiftLeft(index - SUB, 0);
    assert ShiftLeft(index - SUB + 1, 1) == 2 * ShiftLeft(index - SUB + 1, 0);
  }

  lemma BoundsDouble(index: nat)
    requires LINEAR + SUB <= index
    ensures Low(index) == 2 * Low(index - SUB) && High(index) == 2 * High(index - SUB) + 1
  {
    assert (index - LINEAR) / SUB == (index - SUB - LINEAR) / SUB + 1;
    assert (index - LINEAR) % SUB == (index - SUB - LINEAR) % SUB;
  }

  /** Past the linear range a bucket is at most 1/128 as wide as the values in it are large. */
  lemma {:induction false} Width(index: nat)
    ensures Low(index) <= High(index)
    ensures index >= LINEAR ==> Low(index) >= LINEAR && SUB * (High(index) - Low(index) + 1) <= Low(index)
  {
    if index >= LINEAR + SUB {
      BoundsDouble(index);
      Width(index - SUB);
    } else if index >= LINEAR {
      FirstBounds(index);
    }
  }

  /** The buckets lie side by side. */
  lemma {:induction false} Adjacent(index: nat)
    ensures Low(0) == 0 && Low(index + 1) == High(index) + 1
  {
    if index >= LINEAR + SUB {
      BoundsDouble(index);
      BoundsDouble(index + 1);
      Adjacent(index - SUB);
    } else if index >= LINEAR {
      FirstBounds(index);
      if index + 1 < LINEAR + SUB {
        FirstBounds(index + 1);
      } else {
        BoundsDouble(index + 1);
        FirstBounds(index + 1 - SUB);
      }
    } else if index + 1 == LINEAR {
      FirstBounds(index + 1);
    }
  }

  lemma {:induction false} IndexAbove(value: nat)
    requires LINEAR <= value
    ensures Index(value) >= LINEAR
    ensures value >= 2 * LINEAR <==> Index(value) >= LINEAR + SUB
  {
    if value < 2 * LINEAR {
      FirstRange(value);
    } else {
      IndexDoubles(value);
      IndexAbove(value / 2);
    }
  }

  lemma InvertFirst(index: nat, value: nat)
    requires value < 2 * LINEAR && index < LINEAR + SUB
    ensures Index(value) == index <==> Low(index) <= value <= High(index)
  {
    if value >= LINEAR {
      FirstRange(value);
    }
    if index >= LINEAR {
      FirstBounds(index);
    }
  }

  lemma BoundsSides(index: nat)
    ensures index >= LINEAR + SUB ==> Low(index) >= 2 * LINEAR
    ensures index < LINEAR + SUB ==> High(index) < 2 * LINEAR
  {
    if index >= LINEAR + SUB {
      BoundsDouble(index);
      Width(index - SUB);
    } else if index >= LINEAR {
      FirstBounds(index);
    }
  }

  lemma IndexSides(value: nat)
    ensures value >= 2 * LINEAR <==> Index(value) >= LINEAR + SUB
  {
    if value >= LINEAR {
      IndexAbove(value);
    }
  }

  /** The bounds of a bucket are exactly the values that land in it. */
  lemma {:induction false} BoundsInvertIndex(index: nat, value: nat)
    ensures Index(value) == index <==> Low(index) <= value <= High(index)
    decreases value
  {
    BoundsSides(index);
    IndexSides(value);
    if index < LINEAR + SUB && value < 2 * LINEAR {
      InvertFirst(index, value);
    } else if index >= LINEAR + SUB && value >= 2 * LINEAR {
      BoundsInvertIndex(index - SUB, value / 2);
      BoundsDouble(index);
      IndexDoubles(value);
    }
  }

  lemma {:induction false} IndexMonotone(small: nat, large: nat)
    requires small <= large
    ensures Index(small) <= Index(large)
  {
    if large >= LINEAR {
      IndexAbove(large);
      if small >= LINEAR {
        IndexAbove(small);
        if small >= 2 * LINEAR {
          IndexDoubles(small);
          IndexDoubles(large);
          IndexMonotone(small / 2, large / 2);
        } else if large < 2 * LINEAR {
          FirstRange(small);
          FirstRange(large);
        }
      }
    }
  }

  /** The middle of a bucket is within 1/256 of every value in it. */
  lemma MiddleIsClose(value: nat, index: nat)
    requires Index(value) == index
    ensures Low(index) <= High(index)
    ensures Close((Low(index) + High(index)) / 2, value)
  {
    BoundsInvertIndex(index, value);
    Width(index);
  }

  ghost predicate Close(reported: int, exact: nat) {
    -(exact as int) <= 256 * (reported - exact) <= exact
  }

  // ----------------------------------------------------------- counting
  function Below(bound: nat): nat -> bool { (value: nat) => value < bound }

  function AtMost(bound: nat): nat -> bool { (value: nat) => value <= bound }

  function InBucket(index: nat): nat -> bool { (value: nat) => Index(value) == index }

  function UpToBucket(index: int): nat -> bool { (value: nat) => Index(value) <= index }

  function Count(values: seq<nat>, p: nat -> bool): nat {
    if values == [] then 0
    else Count(values[..|values| - 1], p) + if p(values[|values| - 1]) then 1 else 0
  }

  function Sum(values: seq<nat>): nat {
    if values == [] then 0 else Sum(values[..|values| - 1]) + values[|values| - 1]
  }

  function Repeat(value: nat, times: nat): (r: seq<nat>)
    ensures |r| == times && forall i :: 0 <= i < times ==> r[i] == value
  {
    seq(times, i => value)
  }

  lemma {:induction false} CountConcat(a: seq<nat>, b: seq<nat>, p: nat -> bool)
    ensures Count(a + b, p) == Count(a, p) + Count(b, p)
  {
    if b == [] {
      assert a + b == a;
    } else {
      assert (a + b)[..|a + b| - 1] == a + b[..|b| - 1];
      CountConcat(a, b[..|b| - 1], p);
    }
  }

  lemma {:induction false} SumConcat(a: seq<nat>, b: seq<nat>)
    ensures Sum(a + b) == Sum(a) + Sum(b)
  {
    if b == [] {
      assert a + b == a;
    } else {
      assert (a + b)[..|a + b| - 1] == a + b[..|b| - 1];
      SumConcat(a, b[..|b| - 1]);
    }
  }

  lemma {:induction false} CountRepeat(value: nat, times: nat, p: nat -> bool)
    ensures Count(Repeat(value, times), p) == if p(value) then times else 0
  {
    if times > 0 {
      assert Repeat(value, times)[..times - 1] == Repeat(value, times - 1);
      CountRepeat(value, times - 1, p);
    }
  }

  lemma {:induction false} SumRepeat(value: nat, times: nat)
    ensures Sum(Repeat(value, times)) == value * times
  {
    if times > 0 {
      assert Repeat(value, times)[..times - 1] == Repeat(value, times - 1);
      SumRepeat(value, times - 1);
    }
  }

  /** Values picked by p are at most those picked by q, and fewer if q picks one more. */
  lemma {:induction false} CountLess(values: seq<nat>, p: nat -> bool, q: nat -> bool)
    requires forall v :: v in values && p(v) ==> q(v)
    ensures Count(values, p) <= Count(values, q) <= |values|
  {
    if values != [] {
      var rest := values[..|values| - 1];
      assert forall v :: v in rest ==> v in values;
      assert values[|values| - 1] in values;
      CountLess(rest, p, q);
    }
  }

  lemma {:induction false} CountSplit(values: seq<nat>, p: nat -> bool, q: nat -> bool, both: nat -> bool)
    requires forall v :: v in values ==> (both(v) <==> p(v) || q(v)) && !(p(v) && q(v))
    ensures Count(values, both) == Count(values, p) + Count(values, q)
  {
    if values != [] {
      var rest := values[..|values| - 1];
      assert forall v :: v in rest ==> v in values;
      assert values[|values| - 1] in values;
      CountSplit(rest, p, q, both);
    }
  }

  lemma {:induction false} CountAll(values: seq<nat>, p: nat -> bool)
    requires forall v :: v in values ==> p(v)
    ensures Count(values, p) == |values|
  {
    if values != [] {
      var rest := values[..|values| - 1];
      assert forall v :: v in rest ==> v in values;
      assert values[|values| - 1] in values;
      CountAll(rest, p);
    }
  }

  lemma {:induction false} CountNone(values: seq<nat>, p: nat -> bool)
    ensures (forall v :: v in values ==> !p(v)) <==> Count(values, p) == 0
  {
    if values != [] {
      var rest := values[..|values| - 1];
      assert values == rest + [values[|values| - 1]];
      CountNone(rest, p);
    }
  }

  // --------------------------------------------------- order statistics
  /** The rank-th smallest of the values, counting from one. */
  ghost predicate IsRanked(values: seq<nat>, rank: nat, x: nat) {
    Count(values, Below(x)) < rank <= Count(values, AtMost(x))
  }

  /** x, and no other value, has the rank. */
  ghost predicate OnlyRanked(values: seq<nat>, rank: nat, x: nat) {
    IsRanked(values, rank, x) && forall y: nat :: IsRanked(values, rank, y) ==> y == x
  }

  lemma RankedIsMember(values: seq<nat>, rank: nat, x: nat)
    requires IsRanked(values, rank, x)
    ensures x in values
  {
    if x !in values {
      CountLess(values, AtMost(x), Below(x));
    }
  }

  /** Searching down from a bound finds the ranked value. */
  lemma {:induction false} RankedBelow(values: seq<nat>, rank: nat, bound: nat) returns (x: nat)
    requires 1 <= rank <= Count(values, AtMost(bound))
    ensures IsRanked(values, rank, x)
  {
    CountNone(values, Below(0));
    if bound == 0 || Count(values, Below(bound)) < rank {
      x := bound;
    } else {
      CountLess(values, Below(bound), AtMost(bound - 1));
      x := RankedBelow(values, rank, bound - 1);
    }
  }

  /** Every rank has exactly one value. */
  lemma RankedExists(values: seq<nat>, rank: nat) returns (x: nat)
    requires 1 <= rank <= |values|
    ensures OnlyRanked(values, rank, x)
  {
    var top := Greatest(values);
    CountAll(values, AtMost(top));
    x := RankedBelow(values, rank, top);
    forall y: nat | IsRanked(values, rank, y)
      ensures y == x
    {
      if y < x {
        CountLess(values, AtMost(y), Below(x));
      } else if x < y {
        CountLess(values, AtMost(x), Below(y));
      }
    }
  }

  function Greatest(values: seq<nat>): (top: nat)
    ensures forall v :: v in values ==> v <= top
  {
    if values == [] then 0
    else
      var rest := Greatest(values[..|values| - 1]);
      assert values == values[..|values| - 1] + [values[|values| - 1]];
      if rest < values[|values| - 1] then values[|values| - 1] else rest
  }

  /** The rank a percentile asks for: its share of the recordings rounded up, and at least one. */
  function Rank(count: nat, pct: real): int {
    var share := -((-(count as real * pct / 100.0)).Floor);
    if share < 1 then 1 else share
  }

  lemma RankInRange(count: nat, pct: real)
    requires 0.0 <= pct <= 100.0 && count > 0
    ensures 1 <= Rank(count, pct) <= count
  {
    assert count as real * pct <= count as real * 100.0;
  }

  /** At least pct percent of the recordings are at or below the ranked one, and fewer are below it. */
  lemma RankedCoversShare(values: seq<nat>, pct: real, x: nat)
    requires 0.0 <= pct <= 100.0 && values != []
    requires Rank(|values|, pct) >= 1 && IsRanked(values, Rank(|values|, pct), x)
    ensures 100.0 * Count(values, AtMost(x)) as real >= |values| as real * pct
    ensures Rank(|values|, pct) > 1 ==> 100.0 * Count(values, Below(x)) as real < |values| as real * pct
  {
    var exact := |values| as real * pct / 100.0;
    assert 100.0 * exact == |values| as real * pct;
  }

  // ---------------------------------------------------------- histogram
  function Get(counts: map<nat, nat>, index: nat): nat {
    if index in counts then counts[index] else 0
  }

  /** Each counter holds the number of values in its bucket. */
  ghost predicate Tallies(counts: map<nat, nat>, values: seq<nat>) {
    forall i: nat :: Get(counts, i) == Count(values, InBucket(i))
  }

  lemma TallyOne(counts: map<nat, nat>, values: seq<nat>, value: nat, times: nat)
    requires Tallies(counts, values)
    ensures Tallies(counts[Index(value) := Get(counts, Index(value)) + times], values + Repeat(value, times))
  {
    var index := Index(value);
    forall i: nat
      ensures Get(counts[index := Get(counts, index) + times], i) == Count(values + Repeat(value, times), InBucket(i))
    {
      CountConcat(values, Repeat(value, times), InBucket(i));
      CountRepeat(value, times, InBucket(i));
    }
  }

  lemma TallyBoth(mine: map<nat, nat>, theirs: map<nat, nat>, sum: map<nat, nat>, a: seq<nat>, b: seq<nat>)
    requires Tallies(mine, a) && Tallies(theirs, b)
    requires forall i: nat :: Get(sum, i) == Get(mine, i) + Get(theirs, i)
    ensures Tallies(sum, a + b)
  {
    forall i: nat
      ensures Get(sum, i) == Count(a + b, InBucket(i))
    {
      CountConcat(a, b, InBucket(i));
    }
  }

  method Insert(keys: seq<nat>, key: nat) returns (r: seq<nat>)
    requires Ascending(keys) && key !in keys
    ensures Ascending(r) && forall i: nat :: i in r <==> i in keys || i == key
  {
    var at := 0;
    while at < |keys| && keys[at] < key
      invariant 0 <= at <= |keys|
      invariant forall i :: 0 <= i < at ==> keys[i] < key
    {
      at := at + 1;
    }
    assert at < |keys| ==> keys[at] in keys;
    ghost var low, high := keys[..at], keys[at..];
    assert forall i :: 0 <= i < |high| ==> key < high[i];
    assert forall i :: i in keys <==> i in low || i in high by {
      assert keys == low + high;
    }
    r := keys[..at] + [key] + keys[at..];
  }

  method SortedKeys(counts: map<nat, nat>) returns (keys: seq<nat>)
    ensures Ascending(keys) && forall i: nat :: i in keys <==> i in counts
  {
    keys := [];
    var rest := counts.Keys;
    ghost var done: set<nat> := {};
    while rest != {}
      invariant done !! rest && done + rest == counts.Keys
      invariant Ascending(keys) && forall i: nat :: i in keys <==> i in done
      decreases rest
    {
      var key :| key in rest;
      keys := Insert(keys, key);
      rest, done := rest - {key}, done + {key};
    }
  }

  /** No counter lies strictly between the two. */
  ghost predicate Gap(counts: map<nat, nat>, before: int, next: int) {
    forall i: nat :: i in counts ==> i <= before || next <= i
  }

  lemma Counted(counts: map<nat, nat>, values: seq<nat>, v: nat)
    requires Tallies(counts, values) && v in values
    ensures Index(v) in counts
  {
    CountNone(values, InBucket(Index(v)));
    assert InBucket(Index(v))(v);
    assert Get(counts, Index(v)) > 0;
  }

  /** No value lies between two neighbouring counters, so their totals differ by the second. */
  lemma NextTotal(counts: map<nat, nat>, values: seq<nat>, before: int, next: nat)
    requires Tallies(counts, values) && before < next && next in counts && Gap(counts, before, next)
    ensures Count(values, UpToBucket(next)) == Count(values, UpToBucket(before)) + counts[next]
  {
    forall v | v in values
      ensures Index(v) in counts
    {
      Counted(counts, values, v);
    }
    CountSplit(values, UpToBucket(before), InBucket(next), UpToBucket(next));
    assert Get(counts, next) == Count(values, InBucket(next));
  }

  /** The bucket where the running total reaches the rank holds the ranked value. */
  lemma RankedBucket(counts: map<nat, nat>, values: seq<nat>, rank: nat, x: nat, before: int, index: nat)
    requires Tallies(counts, values) && Gap(counts, before, index)
    requires IsRanked(values, rank, x)
    requires Count(values, UpToBucket(before)) < rank <= Count(values, UpToBucket(index))
    ensures Index(x) == index
  {
    RankedIsMember(values, rank, x);
    Counted(counts, values, x);
    if Index(x) <= before {
      forall v | v in values && AtMost(x)(v)
        ensures UpToBucket(before)(v)
      {
        IndexMonotone(v, x);
      }
      CountLess(values, AtMost(x), UpToBucket(before));
    } else if index < Index(x) {
      forall v | v in values && UpToBucket(index)(v)
        ensures Below(x)(v)
      {
        if x <= v {
          IndexMonotone(x, v);
        }
      }
      CountLess(values, UpToBucket(index), Below(x));
    }
  }

  function Clamp(value: int, low: nat, high: nat): int {
    var raised := if value < low then low else value;
    if raised < high then raised else high
  }

  lemma ReportIsClose(counts: map<nat, nat>, values: seq<nat>, rank: nat, before: int, index: nat, min: nat, max: nat)
    requires Tallies(counts, values) && Gap(counts, before, index) && Within(values, min, max)
    requires Count(values, UpToBucket(before)) < rank <= Count(values, UpToBucket(index))
    ensures ReportsWithin(values, rank, Clamp((Low(index) + High(index)) / 2, min, max))
  {
    forall x: nat | IsRanked(values, rank, x)
      ensures Close(Clamp((Low(index) + High(index)) / 2, min, max), x)
    {
      RankedBucket(counts, values, rank, x, before, index);
      RankedIsMember(values, rank, x);
      MiddleIsClose(x, index);
    }
  }

  /** Within 1/256 of the ranked value. */
  ghost predicate ReportsWithin(values: seq<nat>, rank: nat, reported: int) {
    forall x: nat :: IsRanked(values, rank, x) ==> Close(reported, x)
  }

  /** The running total over every counter is everything recorded. */
  lemma AllSeen(counts: map<nat, nat>, values: seq<nat>, last: int)
    requires Tallies(counts, values) && forall i: nat :: i in counts ==> i <= last
    ensures Count(values, UpToBucket(last)) == |values|
  {
    forall v | v in values
      ensures UpToBucket(last)(v)
    {
      Counted(counts, values, v);
    }
    CountAll(values, UpToBucket(last));
  }

  ghost predicate Within(values: seq<nat>, min: nat, max: nat) {
    forall v :: v in values ==> min <= v <= max
  }

  ghost predicate Attained(values: seq<nat>, min: nat, max: nat) {
    if values == [] then max == 0 else min in values && max in values
  }

  function Smaller(a: nat, b: nat): nat { if a < b then a else b }

  function Larger(a: nat, b: nat): nat { if a < b then b else a }

  lemma ExtremesOfOne(values: seq<nat>, min: nat, max: nat, value: nat, times: nat)
    requires Within(values, min, max)
    ensures Within(values + Repeat(value, times), if values == [] then value
                   else Smaller(min, value), Larger(max, value))
    ensures Attained(values, min, max) && times > 0 ==>
      Attained(values + Repeat(value, times), if values == [] then value else Smaller(min, value), Larger(max, value))
  {
    if times > 0 {
      assert Repeat(value, times)[0] in values + Repeat(value, times);
    }
  }

  class LatencyHistogram {
    var counts: map<nat, nat>
    var count: nat
    var total: nat
    var min: nat
    var max: nat
    /** Everything recorded so far. */
    ghost var values: seq<nat>

    ghost predicate Valid()
      reads this
    {
      && Tallies(counts, values)
      && count == |values| && total == Sum(values)
      && Within(values, min, max)
    }

    /** The extremes were themselves recorded. */
    ghost predicate Sharp()
      reads this
    {
      Attained(values, min, max)
    }

    constructor ()
      ensures Valid() && Sharp() && values == []
    {
      counts, count, total, min, max, values := map[], 0, 0, 0, 0, [];
    }

    /** Records a value several times, a negative one as zero. */
    method Record(value: int, times: nat)
      requires Valid()
      modifies this
      ensures Valid() && values == old(values) + Repeat(if value < 0 then 0 else value, times)
      ensures old(Sharp()) && times > 0 ==> Sharp()
    {
      var clamped: nat := if value < 0 then 0 else value;
      ghost var more := Repeat(clamped, times);
      ExtremesOfOne(values, min, max, clamped, times);
      TallyOne(counts, values, clamped, times);
      SumConcat(values, more);
      SumRepeat(clamped, times);
      var index := Index(clamped);
      counts := counts[index := Get(counts, index) + times];
      if count == 0 || clamped < min {
        min := clamped;
      }
      if clamped > max {
        max := clamped;
      }
      count, total, values := count + times, total + clamped * times, values + more;
    }

    /** The result is the histogram of both recordings, whether or not the two are one object. */
    method Merge(other: LatencyHistogram)
      requires Valid() && other.Valid()
      modifies this
      ensures Valid() && values == old(values) + old(other.values)
      ensures old(Sharp()) && old(other.Sharp()) ==> Sharp()
    {
      if other.count == 0 {
        assert values + other.values == values;
        return;
      }
      ghost var theirs := other.values;
      var sums := AddCounts(counts, other.counts);
      TallyBoth(counts, other.counts, sums, values, theirs);
      SumConcat(values, theirs);
      counts := sums;
      min := if count == 0 || other.min < min then other.min else min;
      max := if max < other.max then other.max else max;
      count, total, values := count + other.count, total + other.total, values + theirs;
    }

    /** None for a percentile outside [0, 100]; otherwise within 1/256 of the exact one. */
    method Percentile(pct: real) returns (r: Option<int>)
      requires Valid()
      ensures r.None? <==> !(0.0 <= pct <= 100.0)
      ensures r.Some? && values == [] ==> r.value == 0
      ensures r.Some? && values != [] ==> 1 <= Rank(|values|, pct) <= |values|
      ensures r.Some? && values != [] ==>
        exists exact: nat :: OnlyRanked(values, Rank(|values|, pct), exact) && Close(r.value, exact)
    {
      if !(0.0 <= pct <= 100.0) {
        return None;
      }
      if count == 0 {
        return Some(0);
      }
      var rank := Rank(count, pct);
      RankInRange(count, pct);
      ghost var exact := RankedExists(values, rank);
      assert OnlyRanked(values, rank, exact);
      var keys := SortedKeys(counts);
      var seen, i := 0, 0;
      ghost var before: int := -1;
      CountNone(values, UpToBucket(-1));
      while i < |keys|
        invariant 0 <= i <= |keys| && before == (if i == 0 then -1 else keys[i - 1])
        invariant seen == Count(values, UpToBucket(before)) < rank
      {
        assert keys[i] in keys && Gap(counts, before, keys[i]);
        NextTotal(counts, values, before, keys[i]);
        seen := seen + counts[keys[i]];
        if seen >= rank {
          ReportIsClose(counts, values, rank, before, keys[i], min, max);
          return Some(Clamp((Low(keys[i]) + High(keys[i])) / 2, min, max));
        }
        before := keys[i];
        i := i + 1;
      }
      AllSeen(counts, values, before);
      r := Some(max);
    }
  }

  method AddCounts(mine: map<nat, nat>, theirs: map<nat, nat>) returns (sums: map<nat, nat>)
    ensures forall i: nat :: Get(sums, i) == Get(mine, i) + Get(theirs, i)
  {
    sums := mine;
    var rest := theirs.Keys;
    while rest != {}
      invariant rest <= theirs.Keys
      invariant forall i: nat :: Get(sums, i) == Get(mine, i) + if i in rest then 0 else Get(theirs, i)
      decreases rest
    {
      var index :| index in rest;
      sums := sums[index := Get(sums, index) + theirs[index]];
      rest := rest - {index};
    }
  }
}
