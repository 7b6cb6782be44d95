/**
 The (score, member) order of sorted sets, and what inserting into and deleting
 from a strictly sorted sequence means.
 */
module Ordering {
  import opened Wrappers

  /** A float score; NaN never reaches a sorted set. */
  datatype Score = NegInf | Fin(value: real) | PosInf

  /** inf + -inf is not a number. */
  function AddScores(a: Score, b: Score): Option<Score> {
    match (a, b)
    case (Fin(x), Fin(y)) => Some(Fin(x + y))
    case (PosInf, NegInf) => None
    case (NegInf, PosInf) => None
    case (Fin(_), _) => Some(b)
    case (_, _) => Some(a)
  }

  datatype Elem = Elem(score: Score, member: string)

  predicate ScoreLess(a: Score, b: Score) {
    match (a, b)
    case (Fin(x), Fin(y)) => x < y
    case (NegInf, _) => !b.NegInf?
    case (_, PosInf) => !a.PosInf?
    case (_, _) => false
  }

  predicate StrLess(a: string, b: string) {
    b != [] && (a == [] || a[0] < b[0] || (a[0] == b[0] && StrLess(a[1..], b[1..])))
  }

  predicate Before(a: Elem, b: Elem) {
    ScoreLess(a.score, b.score) || (a.score == b.score && StrLess(a.member, b.member))
  }

  lemma {:induction false} StrTrans(a: string, b: string, c: string)
    requires StrLess(a, b) && StrLess(b, c)
    ensures StrLess(a, c)
  {
    if a != [] && a[0] == b[0] == c[0] {
      StrTrans(a[1..], b[1..], c[1..]);
    }
  }

  lemma {:induction false} StrTotal(a: string, b: string)
    ensures a == b || StrLess(a, b) || StrLess(b, a)
    ensures !(StrLess(a, b) && StrLess(b, a))
    ensures !StrLess(a, a)
  {
    if a != [] && b != [] && a[0] == b[0] {
      StrTotal(a[1..], b[1..]);
      assert a == [a[0]] + a[1..] && b == [b[0]] + b[1..];
    }
    if a != [] {
      StrTotal(a[1..], a[1..]);
    }
  }

  lemma BeforeTrans(a: Elem, b: Elem, c: Elem)
    requires Before(a, b) && Before(b, c)
    ensures Before(a, c)
  {
    if a.score == b.score == c.score {
      StrTrans(a.member, b.member, c.member);
    }
  }

  /** Before is a strict total order on pairs. */
  lemma BeforeTotal(a: Elem, b: Elem)
    ensures a == b || Before(a, b) || Before(b, a)
    ensures !(Before(a, b) && Before(b, a))
    ensures !Before(a, a)
  {
    StrTotal(a.member, b.member);
    StrTotal(a.member, a.member);
  }

  ghost predicate Sorted(s: seq<Elem>) {
    forall i, j {:trigger Before(s[i], s[j])} :: 0 <= i < j < |s| ==> Before(s[i], s[j])
  }

  /** How many leading elements of s come before e: where the search for e ends. */
  function Position(s: seq<Elem>, e: Elem): (k: nat)
    ensures k <= |s|
  {
    if s == [] || !Before(s[0], e) then 0 else 1 + Position(s[1..], e)
  }

  lemma {:induction false} PositionSpec(s: seq<Elem>, e: Elem)
    ensures forall i :: 0 <= i < Position(s, e) ==> Before(s[i], e)
    ensures Position(s, e) < |s| ==> !Before(s[Position(s, e)], e)
  {
    if s != [] && Before(s[0], e) {
      PositionSpec(s[1..], e);
      assert forall i :: 0 < i < Position(s, e) ==> s[i] == s[1..][i - 1];
    }
  }

  lemma PositionSplits(s: seq<Elem>, e: Elem)
    requires Sorted(s)
    ensures forall i :: 0 <= i < |s| ==> (Before(s[i], e) <==> i < Position(s, e))
    ensures e in s ==> Position(s, e) < |s| && s[Position(s, e)] == e
  {
    var k := Position(s, e);
    PositionSpec(s, e);
    BeforeTotal(e, e);
    forall i | k < i < |s|
      ensures !Before(s[i], e) && s[i] != e
    {
      assert Before(s[k], s[i]);
      if Before(s[i], e) {
        BeforeTrans(s[k], s[i], e);
      }
    }
  }

  lemma PositionOfIndex(s: seq<Elem>, i: nat)
    requires Sorted(s) && i < |s|
    ensures Position(s, s[i]) == i
  {
    PositionSplits(s, s[i]);
    BeforeTotal(s[i], s[i]);
    if i > 0 {
      assert Before(s[i - 1], s[i]);
    }
  }

  /** Deleting the first or the last element. */
  lemma DeletedEnds(s: seq<Elem>)
    requires Sorted(s) && s != []
    ensures Deleted(s, s[0]) == s[1..] && Deleted(s, s[|s| - 1]) == s[..|s| - 1]
  {
    PositionOfIndex(s, 0);
    PositionOfIndex(s, |s| - 1);
  }

  function Elements(s: seq<Elem>): set<Elem> {
    set e | e in s
  }

  /** s with e placed at its position. */
  function Inserted(s: seq<Elem>, e: Elem): seq<Elem> {
    var k := Position(s, e);
    s[..k] + [e] + s[k..]
  }

  /** s without e. */
  function Deleted(s: seq<Elem>, e: Elem): seq<Elem> {
    var k := Position(s, e);
    if k < |s| && s[k] == e then s[..k] + s[k + 1..] else s
  }

  lemma InsertedSorted(s: seq<Elem>, e: Elem)
    requires Sorted(s) && e !in s
    ensures Sorted(Inserted(s, e))
    ensures Elements(Inserted(s, e)) == Elements(s) + {e}
  {
    var k, t := Position(s, e), Inserted(s, e);
    PositionSplits(s, e);
    forall i | k <= i < |s|
      ensures Before(e, s[i])
    {
      BeforeTotal(e, s[i]);
    }
    forall i, j | 0 <= i < j < |t|
      ensures Before(t[i], t[j])
    {
      assert t[i] == if i < k then s[i] else if i == k then e else s[i - 1];
      assert t[j] == if j < k then s[j] else if j == k then e else s[j - 1];
    }
    InsertedElements(s, k, e);
  }

  lemma InsertedElements(s: seq<Elem>, k: nat, e: Elem)
    requires k <= |s|
    ensures Elements(s[..k] + [e] + s[k..]) == Elements(s) + {e}
  {
    assert s == s[..k] + s[k..];
    assert forall x :: x in s <==> x in s[..k] || x in s[k..];
  }

  lemma DeletedSorted(s: seq<Elem>, e: Elem)
    requires Sorted(s)
    ensures Sorted(Deleted(s, e))
    ensures Elements(Deleted(s, e)) == Elements(s) - {e}
  {
    var k := Position(s, e);
    PositionSplits(s, e);
    if k < |s| && s[k] == e {
      DeletedElements(s, k);
    }
  }

  lemma DeletedElements(s: seq<Elem>, k: nat)
    requires Sorted(s) && k < |s|
    ensures Elements(s[..k] + s[k + 1..]) == Elements(s) - {s[k]}
  {
    var t := s[..k] + s[k + 1..];
    forall x
      ensures x in Elements(t) <==> x in Elements(s) && x != s[k]
    {
      if x in Elements(t) {
        var i :| 0 <= i < |t| && t[i] == x;
        BeforeTotal(x, x);
        assert x == s[if i < k then i else i + 1];
      }
      if x in Elements(s) && x != s[k] {
        var i :| 0 <= i < |s| && s[i] == x;
        assert x == t[if i < k then i else i - 1];
      }
    }
  }

  lemma NoElements(s: seq<Elem>)
    ensures Elements(s) == {} <==> s == []
  {
    if s != [] {
      assert s[0] in Elements(s);
    }
  }

  /** A strictly sorted sequence is determined by its elements. */
  lemma {:induction false} SortedUnique(s: seq<Elem>, t: seq<Elem>)
    requires Sorted(s) && Sorted(t) && Elements(s) == Elements(t)
    ensures s == t
  {
    NoElements(s);
    NoElements(t);
    if s != [] && t != [] {
      assert s[0] in Elements(t) && t[0] in Elements(s);
      BeforeTotal(s[0], t[0]);
      assert s[0] == t[0];
      BeforeTotal(s[0], s[0]);
      assert s == [s[0]] + s[1..] && t == [t[0]] + t[1..];
      forall x ensures x in Elements(s[1..]) <==> x in Elements(t[1..]) {
        assert x in Elements(s) <==> x == s[0] || x in Elements(s[1..]);
        assert x in Elements(t) <==> x == t[0] || x in Elements(t[1..]);
      }
      SortedUnique(s[1..], t[1..]);
    }
  }
  /** How many leading elements satisfy keep. */
  ghost function Lead(s: seq<Elem>, keep: Elem -> bool): (k: nat)
    ensures k <= |s|
  {
    if s == [] || !keep(s[0]) then 0 else 1 + Lead(s[1..], keep)
  }

  ghost predicate DownClosed(keep: Elem -> bool) {
    forall x, y :: Before(x, y) && keep(y) ==> keep(x)
  }

  lemma {:induction false} LeadSpec(s: seq<Elem>, keep: Elem -> bool)
    ensures forall i :: 0 <= i < Lead(s, keep) ==> keep(s[i])
    ensures Lead(s, keep) < |s| ==> !keep(s[Lead(s, keep)])
  {
    if s != [] && keep(s[0]) {
      LeadSpec(s[1..], keep);
      assert forall i :: 0 < i < Lead(s, keep) ==> s[i] == s[1..][i - 1];
    }
  }

  /** On a sorted sequence a downward closed test holds of a prefix and of nothing after it. */
  lemma LeadCuts(s: seq<Elem>, keep: Elem -> bool)
    requires Sorted(s) && DownClosed(keep)
    ensures forall i :: 0 <= i < |s| ==> (keep(s[i]) <==> i < Lead(s, keep))
  {
    var k := Lead(s, keep);
    LeadSpec(s, keep);
    forall i | k < i < |s|
      ensures !keep(s[i])
    {
      assert Before(s[k], s[i]);
    }
  }

  predicate GteMin(score: Score, lo: Score, exclusive: bool) {
    ScoreLess(lo, score) || (!exclusive && lo == score)
  }

  predicate LteMax(score: Score, hi: Score, exclusive: bool) {
    ScoreLess(score, hi) || (!exclusive && hi == score)
  }

  /** A score interval with open or closed ends. */
  datatype ScoreRange = ScoreRange(lo: Score, hi: Score, loEx: bool, hiEx: bool)
  {
    predicate Contains(score: Score) {
      GteMin(score, lo, loEx) && LteMax(score, hi, hiEx)
    }
  }

  function BelowRange(range: ScoreRange): Elem -> bool {
    (x: Elem) => !GteMin(x.score, range.lo, range.loEx)
  }

  function UpToTop(range: ScoreRange): Elem -> bool {
    (x: Elem) => LteMax(x.score, range.hi, range.hiEx)
  }

  function UpTo(e: Elem): Elem -> bool {
    (x: Elem) => Before(x, e) || x == e
  }

  lemma RangeDownClosed(range: ScoreRange)
    ensures DownClosed(BelowRange(range)) && DownClosed(UpToTop(range))
  {
  }

  lemma UpToDownClosed(e: Elem)
    ensures DownClosed(UpTo(e))
  {
    forall x, y | Before(x, y) && Before(y, e)
      ensures Before(x, e)
    {
      BeforeTrans(x, y, e);
    }
  }

  /** Counting up to e itself ends on e if e is there. */
  lemma LeadUpTo(s: seq<Elem>, e: Elem)
    requires Sorted(s)
    ensures Lead(s, UpTo(e)) == Position(s, e) + if e in s then 1 else 0
  {
    UpToDownClosed(e);
    LeadCuts(s, UpTo(e));
    PositionSplits(s, e);
    BeforeTotal(e, e);
    var k := Position(s, e);
    if k < |s| {
      assert UpTo(e)(s[k]) <==> s[k] == e;
    }
    if k + 1 < |s| {
      assert Before(s[k], s[k + 1]);
    }
  }

  ghost predicate UniqueMembers(s: seq<Elem>) {
    forall i, j :: 0 <= i < j < |s| ==> s[i].member != s[j].member
  }

  /** Where the elements of a score range start and end. */
  ghost function RangeStart(s: seq<Elem>, range: ScoreRange): nat {
    Lead(s, BelowRange(range))
  }

  ghost function RangeEnd(s: seq<Elem>, range: ScoreRange): nat {
    Lead(s, UpToTop(range))
  }

  /** The elements in a score range are one slice. */
  lemma RangeIsSlice(s: seq<Elem>, range: ScoreRange)
    requires Sorted(s)
    ensures RangeStart(s, range) <= |s| && RangeEnd(s, range) <= |s|
    ensures forall i :: 0 <= i < |s| ==>
      && (GteMin(s[i].score, range.lo, range.loEx) <==> RangeStart(s, range) <= i)
      && (LteMax(s[i].score, range.hi, range.hiEx) <==> i < RangeEnd(s, range))
  {
    RangeDownClosed(range);
    LeadCuts(s, BelowRange(range));
    LeadCuts(s, UpToTop(range));
    forall i | 0 <= i < |s|
      ensures GteMin(s[i].score, range.lo, range.loEx) <==> RangeStart(s, range) <= i
      ensures LteMax(s[i].score, range.hi, range.hiEx) <==> i < RangeEnd(s, range)
    {
      assert BelowRange(range)(s[i]) == !GteMin(s[i].score, range.lo, range.loEx);
      assert UpToTop(range)(s[i]) == LteMax(s[i].score, range.hi, range.hiEx);
    }
  }

  /** Members being unique, only e's own rank answers the search for a present e. */
  lemma RankPinned(s: seq<Elem>, e: Elem, r: nat)
    requires Sorted(s) && UniqueMembers(s) && e in s && r <= |s|
    requires r > 0 ==> s[r - 1].member == e.member
    requires r == 0 ==> var k := Lead(s, UpTo(e)); k > 0 ==> s[k - 1].member != e.member
    ensures r == Position(s, e) + 1
  {
    LeadUpTo(s, e);
    PositionSplits(s, e);
  }

  lemma EmptyRange(s: seq<Elem>, range: ScoreRange)
    requires Sorted(s)
    requires ScoreLess(range.hi, range.lo) || (range.lo == range.hi && (range.loEx || range.hiEx))
    ensures RangeStart(s, range) >= RangeEnd(s, range)
  {
    RangeIsSlice(s, range);
    if 0 < RangeEnd(s, range) {
      assert LteMax(s[RangeEnd(s, range) - 1].score, range.hi, range.hiEx);
    }
  }
}
