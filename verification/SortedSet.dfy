/** Sorted sets: a dict from member to score beside a skip list that keeps the order. */
module SortedSets {
  import opened Ordering
  import opened SkipLists
  import opened Wrappers

  /** The pairs a dict of scores stands for. */
  ghost function Pairs(m: map<string, Score>): set<Elem> {
    set k | k in m :: Elem(m[k], k)
  }

  /** s lists exactly the pairs of m, in order. */
  ghost predicate Lists(s: seq<Elem>, m: map<string, Score>) {
    Sorted(s) && Elements(s) == Pairs(m)
  }

  /** A dict and its listing have the same members, each once. */
  lemma ListsMembers(s: seq<Elem>, m: map<string, Score>)
    requires Lists(s, m)
    ensures UniqueMembers(s)
    ensures forall i :: 0 <= i < |s| ==> s[i].member in m && m[s[i].member] == s[i].score
    ensures forall k :: k in m ==> Elem(m[k], k) in s
    ensures |s| == |m|
  {
    forall i | 0 <= i < |s|
      ensures s[i].member in m && m[s[i].member] == s[i].score
    {
      assert s[i] in Elements(s);
    }
    forall k | k in m
      ensures Elem(m[k], k) in s
    {
      assert Elem(m[k], k) in Pairs(m);
    }
    forall i, j | 0 <= i < j < |s|
      ensures s[i].member != s[j].member
    {
      BeforeTotal(s[i], s[i]);
      assert Before(s[i], s[j]);
    }
    MembersSize(s);
    assert Members(s) == m.Keys;
  }

  ghost function Members(s: seq<Elem>): set<string> {
    set i | 0 <= i < |s| :: s[i].member
  }

  lemma {:induction false} MembersSize(s: seq<Elem>)
    requires UniqueMembers(s)
    ensures |Members(s)| == |s|
  {
    if s != [] {
      var n := |s| - 1;
      MembersSize(s[..n]);
      assert Members(s) == Members(s[..n]) + {s[n].member};
    }
  }

  /** The one listing of a dict: sorted, and there is no other. */
  ghost predicate TheListing(s: seq<Elem>, m: map<string, Score>) {
    forall t :: Lists(t, m) <==> t == s
  }

  lemma OnlyListing(s: seq<Elem>, m: map<string, Score>)
    requires Lists(s, m)
    ensures TheListing(s, m)
  {
    forall t | Lists(t, m)
      ensures t == s
    {
      SortedUnique(s, t);
    }
  }

  lemma ListsSize(s: seq<Elem>, m: map<string, Score>)
    requires Lists(s, m)
    ensures |s| == |m|
  {
    ListsMembers(s, m);
  }

  lemma ListsAdded(s: seq<Elem>, m: map<string, Score>, e: Elem)
    requires Lists(s, m) && e.member !in m
    ensures e !in s && Lists(Inserted(s, e), m[e.member := e.score])
  {
    ListsMembers(s, m);
    InsertedSorted(s, e);
    var m' := m[e.member := e.score];
    forall x
      ensures x in Pairs(m') <==> x in Pairs(m) + {e}
    {
      assert x in Pairs(m) <==> x.member in m && m[x.member] == x.score;
      assert x in Pairs(m') <==> x.member in m' && m'[x.member] == x.score;
    }
  }

  lemma ListsRemoved(s: seq<Elem>, m: map<string, Score>, member: string)
    requires Lists(s, m) && member in m
    ensures Elem(m[member], member) in s && Lists(Deleted(s, Elem(m[member], member)), m - {member})
  {
    var e, m' := Elem(m[member], member), m - {member};
    ListsMembers(s, m);
    DeletedSorted(s, e);
    forall x
      ensures x in Pairs(m') <==> x in Pairs(m) - {e}
    {
      assert x in Pairs(m) <==> x.member in m && m[x.member] == x.score;
      assert x in Pairs(m') <==> x.member in m' && m'[x.member] == x.score;
    }
  }

  function Reversed(s: seq<Elem>): (r: seq<Elem>)
    ensures |r| == |s|
    ensures forall i :: 0 <= i < |s| ==> r[i] == s[|s| - 1 - i]
  {
    seq(|s|, i requires 0 <= i < |s| => s[|s| - 1 - i])
  }

  /** s in the direction asked for. */
  function Directed(s: seq<Elem>, reverse: bool): seq<Elem> {
    if reverse then Reversed(s) else s
  }

  lemma ListsHolds(s: seq<Elem>, m: map<string, Score>, member: string)
    requires Lists(s, m) && member in m
    ensures UniqueMembers(s) && Elem(m[member], member) in s
  {
    ListsMembers(s, m);
  }

  /** A member's pair is found at its position, counted from either end. */
  lemma ListsRank(s: seq<Elem>, m: map<string, Score>, member: string, reverse: bool, rank: int)
    requires Lists(s, m) && member in m
    requires var p := Position(s, Elem(m[member], member)); rank == if reverse then |m| - 1 - p else p
    ensures 0 <= rank < |m| == |s| && Directed(s, reverse)[rank] == Elem(m[member], member)
  {
    ListsMembers(s, m);
    PositionSplits(s, Elem(m[member], member));
  }

  function InRange(s: seq<Elem>, range: ScoreRange): seq<Elem> {
    if s == [] then [] else (if range.Contains(s[0].score) then [s[0]] else []) + InRange(s[1..], range)
  }

  /** LIMIT offset count; a negative count means no limit. */
  function Limited(s: seq<Elem>, offset: int, count: int): seq<Elem> {
    var from := if offset <= 0 then 0 else if offset < |s| then offset else |s|;
    if count < 0 || from + count > |s| then s[from..] else s[from..from + count]
  }

  /** Negative indexes count from the end; both ends are clamped to the elements there are. */
  function RankFrom(length: nat, start: int): (from: nat) {
    if start >= 0 then start else if length + start > 0 then length + start else 0
  }

  function RankTo(length: nat, stop: int): (to: int)
    ensures to < length
  {
    var to := if stop < 0 then stop + length else stop;
    if to < length then to else length - 1
  }

  /** Redis rank ranges, both ends inclusive. */
  function RankSlice(s: seq<Elem>, start: int, stop: int): seq<Elem> {
    if RankFrom(|s|, start) > RankTo(|s|, stop) then [] else s[RankFrom(|s|, start)..RankTo(|s|, stop) + 1]
  }

  /** The elements of a slice between two bounds are what InRange keeps. */
  lemma {:induction false} InRangeIsSlice(s: seq<Elem>, range: ScoreRange, lo: nat, hi: nat)
    requires lo <= |s| && hi <= |s|
    requires forall i :: 0 <= i < |s| ==> (range.Contains(s[i].score) <==> lo <= i < hi)
    ensures InRange(s, range) == if lo < hi then s[lo..hi] else []
  {
    if s != [] {
      var lo', hi' := if lo == 0 then 0 else lo - 1, if hi == 0 then 0 else hi - 1;
      InRangeIsSlice(s[1..], range, lo', hi');
      assert lo < hi ==> s[lo..hi] == (if lo == 0 then [s[0]] else []) + s[1..][lo'..hi'];
    }
  }

  /** The in-range elements of a listing read in either direction. */
  lemma DirectedRange(s: seq<Elem>, range: ScoreRange, reverse: bool) returns (lo: nat, hi: nat)
    requires Sorted(s)
    ensures lo == (if reverse then |s| - RangeEnd(s, range) else RangeStart(s, range))
    ensures hi == (if reverse then |s| - RangeStart(s, range) else RangeEnd(s, range))
    ensures lo <= |s| && hi <= |s|
    ensures var t := Directed(s, reverse);
            && InRange(t, range) == (if lo < hi then t[lo..hi] else [])
            && forall i :: 0 <= i < |s| ==> (range.Contains(t[i].score) <==> lo <= i < hi)
  {
    RangeIsSlice(s, range);
    lo := if reverse then |s| - RangeEnd(s, range) else RangeStart(s, range);
    hi := if reverse then |s| - RangeStart(s, range) else RangeEnd(s, range);
    InRangeIsSlice(Directed(s, reverse), range, lo, hi);
  }

  /** At most count elements of s[from..to]; a negative count means no limit. */
  function Window(s: seq<Elem>, from: nat, to: nat, count: int): seq<Elem>
    requires from <= to <= |s|
  {
    if count < 0 || from + count > to then s[from..to] else s[from..from + count]
  }

  /** Where skipping offset elements from lo on ends. */
  function Offset(lo: nat, offset: int, n: nat): (e: nat)
    requires lo <= n
    ensures lo <= e <= n
  {
    if offset <= 0 then lo else if lo + offset < n then lo + offset else n
  }

  /** LIMIT on a slice, computed on the whole sequence. */
  lemma LimitedSlice(s: seq<Elem>, lo: nat, hi: nat, offset: int, count: int)
    requires lo < hi <= |s|
    ensures Limited(s[lo..hi], offset, count) == Window(s, Offset(lo, offset, |s|), Max(hi, Offset(lo, offset, |s|)),
                                                        count)
  {
    var t := s[lo..hi];
    var from := if offset <= 0 then 0 else if offset < |t| then offset else |t|;
    assert t[from..] == s[lo + from..hi];
    assert 0 <= count <= |t| - from ==> t[from..from + count] == s[lo + from..lo + from + count];
  }

  /** The ranks of the first and the last element of a slice. */
  lemma SliceRanks(s: seq<Elem>, m: map<string, Score>, lo: nat, hi: nat)
    requires Lists(s, m) && lo < hi <= |s|
    ensures UniqueMembers(s) && s[lo] in s && s[hi - 1] in s
    ensures Position(s, s[lo]) == lo && Position(s, s[hi - 1]) == hi - 1
  {
    ListsMembers(s, m);
    PositionOfIndex(s, lo);
    PositionOfIndex(s, hi - 1);
  }

  lemma CountOfRange(s: seq<Elem>, range: ScoreRange)
    requires Sorted(s)
    ensures var lo, hi := RangeStart(s, range), RangeEnd(s, range);
            hi <= |s| && |InRange(s, range)| == if lo < hi then hi - lo else 0
  {
    var lo, hi := DirectedRange(s, range, false);
  }

  /** The pair at either end of a listing, and what deleting it leaves. */
  lemma PopFacts(s: seq<Elem>, m: map<string, Score>, fromMax: bool)
    requires Lists(s, m) && s != []
    ensures var e := s[if fromMax then |s| - 1 else 0];
            && e.member in m && Elem(m[e.member], e.member) == e
            && Deleted(s, e) == if fromMax then s[..|s| - 1] else s[1..]
  {
    ListsMembers(s, m);
    DeletedEnds(s);
  }

  /** Of s, popped is gone from one end and rest is left. */
  ghost predicate Popped(s: seq<Elem>, fromMax: bool, popped: seq<Elem>, rest: seq<Elem>) {
    && |popped| <= |s|
    && popped == Directed(s, fromMax)[..|popped|]
    && rest == if fromMax then s[..|s| - |popped|] else s[|popped|..]
  }

  lemma PoppedStep(s: seq<Elem>, fromMax: bool, popped: seq<Elem>, rest: seq<Elem>)
    requires Popped(s, fromMax, popped, rest) && rest != []
    ensures Popped(s, fromMax, popped + [rest[if fromMax then |rest| - 1 else 0]], if fromMax then rest[..|rest| - 1]
                   else rest[1..])
  {
    var n := |popped|;
    Extend(Directed(s, fromMax), n);
    if fromMax {
      assert rest[..|rest| - 1] == s[..|s| - (n + 1)];
    } else {
      assert rest[1..] == s[n + 1..];
    }
  }

  lemma Extend(s: seq<Elem>, n: nat)
    requires n < |s|
    ensures s[..n] + [s[n]] == s[..n + 1]
  {
  }

  /** Taking the popped members out of a dict one by one. */
  lemma PoppedMembers(m: map<string, Score>, popped: seq<Elem>, e: Elem)
    ensures m - Members(popped) - {e.member} == m - Members(popped + [e])
  {
    var t := popped + [e];
    assert forall i :: 0 <= i < |popped| ==> t[i] == popped[i];
    assert t[|popped|] == e;
    assert Members(t) == Members(popped) + {e.member};
  }

  class SortedSet {
    var scores: map<string, Score>
    const list: SkipList

    ghost predicate Valid()
      reads this, list, list.t.nodes
    {
      list.Valid() && Lists(list.Contents(), scores)
    }

    /** Every pair in ascending order: the only sorted listing of the dict. */
    ghost function Contents(): seq<Elem>
      requires |list.t.nodes| >= 1
      reads this, list
    {
      list.Contents()
    }

    constructor ()
      ensures Valid() && fresh(list) && fresh(list.Repr)
      ensures scores == map[]
    {
      scores := map[];
      list := new SkipList();
    }

    method Put(member: string, score: Score, lvl: nat)
      requires Valid() && member !in scores && 1 <= lvl <= MAX_LEVEL
      modifies this, list, list.Repr
      ensures Valid() && fresh(list.Repr - old(list.Repr))
      ensures scores == old(scores)[member := score]
    {
      ListsAdded(Contents(), scores, Elem(score, member));
      scores := scores[member := score];
      var node := list.Insert(Elem(score, member), lvl);
    }

    method Drop(member: string)
      requires Valid() && member in scores
      modifies this, list, list.Repr
      ensures Valid() && list.Repr == old(list.Repr)
      ensures scores == old(scores) - {member}
      ensures Contents() == Deleted(old(Contents()), Elem(old(scores)[member], member))
    {
      ListsRemoved(Contents(), scores, member);
      var found := list.Delete(Elem(scores[member], member));
      scores := scores - {member};
    }

    method Rescore(member: string, score: Score, lvl: nat)
      requires Valid() && member in scores && 1 <= lvl <= MAX_LEVEL
      modifies this, list, list.Repr
      ensures Valid() && fresh(list.Repr - old(list.Repr))
      ensures scores == old(scores)[member := score]
    {
      assert (scores - {member})[member := score] == scores[member := score];
      Drop(member);
      Put(member, score, lvl);
    }

    /** Insert or re-score a member; lvl is the tower height the coin flips give. */
    method Add(member: string, score: Score, lvl: nat) returns (isNew: bool)
      requires Valid() && 1 <= lvl <= MAX_LEVEL
      modifies this, list, list.Repr
      ensures Valid() && fresh(list.Repr - old(list.Repr))
      ensures scores == old(scores)[member := score] && isNew == (member !in old(scores))
      ensures TheListing(Contents(), scores)
    {
      isNew := member !in scores;
      if isNew {
        Put(member, score, lvl);
      } else if scores[member] != score {
        Rescore(member, score, lvl);
      }
      OnlyListing(Contents(), scores);
    }

    method Remove(member: string) returns (removed: bool)
      requires Valid()
      modifies this, list, list.Repr
      ensures Valid() && list.Repr == old(list.Repr)
      ensures scores == old(scores) - {member} && removed == (member in old(scores))
      ensures TheListing(Contents(), scores)
    {
      removed := member in scores;
      if removed {
        Drop(member);
      } else {
        assert scores == scores - {member};
      }
      OnlyListing(Contents(), scores);
    }

    /** ZINCRBY; None is the NaN error, which changes nothing. */
    method Incr(member: string, delta: Score, lvl: nat) returns (result: Option<Score>)
      requires Valid() && 1 <= lvl <= MAX_LEVEL
      modifies this, list, list.Repr
      ensures Valid() && fresh(list.Repr - old(list.Repr))
      ensures result == AddScores(if member in old(scores) then old(scores)[member] else Fin(0.0), delta)
      ensures scores == if result.Some? then old(scores)[member := result.value] else old(scores)
    {
      result := AddScores(if member in scores then scores[member] else Fin(0.0), delta);
      if result.Some? {
        var isNew := Add(member, result.value, lvl);
      }
    }

    /** 0-based rank from either end. */
    method RankOf(member: string, reverse: bool) returns (rank: Option<nat>)
      requires Valid()
      ensures rank.None? <==> member !in scores
      ensures rank.Some? ==>
        rank.value < |scores| == |Contents()| &&
        Directed(Contents(), reverse)[rank.value] == Elem(scores[member], member)
    {
      if member !in scores {
        return None;
      }
      ListsHolds(Contents(), scores, member);
      var r := list.Rank(Elem(scores[member], member));
      var index := if reverse then |scores| - 1 - (r - 1) else r - 1;
      ListsRank(Contents(), scores, member, reverse, index);
      return Some(index);
    }

    /** The d-th node in the direction asked for. */
    ghost function NodeAt(d: nat, reverse: bool): Node?
      requires |list.t.nodes| >= 1
      reads this, list
    {
      var n := |list.t.nodes| - 1;
      if d >= n then null else list.t.nodes[if reverse then n - d else d + 1]
    }

    /** s is what the nodes hold in the direction asked for. */
    ghost predicate Follows(s: seq<Elem>, reverse: bool)
      requires |list.t.nodes| >= 1
      reads this, list
    {
      && |s| == |list.t.nodes| - 1
      && (forall d {:trigger NodeAt(d, reverse)} :: 0 <= d < |s| ==> NodeAt(d, reverse).elem == s[d])
    }

    lemma DirectedFollows(reverse: bool)
      requires |list.t.nodes| >= 1
      ensures Follows(Directed(Contents(), reverse), reverse)
    {
    }

    /** One step along level 0, in either direction. */
    method Next(node: Node, ghost d: nat, reverse: bool) returns (next: Node?)
      requires list.Linkage() && node == NodeAt(d, reverse)
      ensures next == NodeAt(d + 1, reverse)
    {
      ghost var p: nat := if reverse then |list.t.nodes| - 1 - d else d + 1;
      Level0(list.t, list.level, p);
      assert list.t.nodes[p].backward == Previous(list.t.nodes, p);
      next := if reverse then node.backward else node.forward[0];
    }

    /** Up to count elements from the d-th one on. */
    method Walk(node: Node?, count: nat, reverse: bool, ghost d: nat, ghost s: seq<Elem>) returns (result: seq<Elem>)
      requires list.Linkage() && Follows(s, reverse) && node == NodeAt(d, reverse) && d + count <= |s|
      ensures result == s[d..d + count]
    {
      result := [];
      var x := node;
      while x != null && |result| < count
        invariant |result| <= count && x == NodeAt(d + |result|, reverse)
        invariant result == s[d..d + |result|]
        decreases count - |result|
      {
        var next := Next(x, d + |result|, reverse);
        result := result + [x.elem];
        x := next;
      }
    }

    /** count elements from rank from on: one lookup by rank, then a walk. */
    method Fetch(from: nat, count: nat, reverse: bool, ghost s: seq<Elem>) returns (result: seq<Elem>)
      requires list.Valid() && Follows(s, reverse) && from < |s| && from + count <= |s|
      ensures result == s[from..from + count]
    {
      var node := list.ByRank(if reverse then list.length - from else from + 1);
      result := Walk(node, count, reverse, from, s);
    }

    /** Elements by 0-based rank, inclusive; negative indexes count from the end. */
    method RangeByRank(start: int, stop: int, reverse: bool) returns (result: seq<Elem>)
      requires Valid()
      ensures result == RankSlice(Directed(Contents(), reverse), start, stop)
    {
      ghost var s := Directed(Contents(), reverse);
      DirectedFollows(reverse);
      ListsSize(Contents(), scores);
      var from, to := RankFrom(|scores|, start), RankTo(|scores|, stop);
      if from > to {
        return [];
      }
      result := Fetch(from, to - from + 1, reverse, s);
    }

    /** LIMIT's offset: skip nodes. */
    method Skip(node: Node?, offset: int, reverse: bool, ghost d: nat, ghost n: nat) returns (next: Node?, ghost e: nat)
      requires list.Linkage() && node == NodeAt(d, reverse) && n == |list.t.nodes| - 1 && d <= n
      ensures e == Offset(d, offset, n) && next == NodeAt(e, reverse)
    {
      next, e := node, d;
      var left := offset;
      while next != null && left > 0
        invariant d <= e <= n && next == NodeAt(e, reverse)
        invariant e == d + offset - left && (left >= 0 || left == offset)
        decreases n - e
      {
        next := Next(next, e, reverse);
        e := e + 1;
        left := left - 1;
      }
    }

    /** Collect the nodes from the d-th one on while they are in range, at most count of them. */
    method Collect(node: Node?, range: ScoreRange, count: int, reverse: bool, ghost d: nat, ghost s: seq<Elem>,
                   ghost hi: nat)
      returns (result: seq<Elem>)
      requires list.Linkage() && Follows(s, reverse) && node == NodeAt(d, reverse)
      requires d <= hi <= |s|
      requires forall i :: d <= i < |s| ==> (range.Contains(s[i].score) <==> i < hi)
      ensures result == Window(s, d, hi, count)
    {
      result := [];
      var x, left := node, count;
      while x != null && left != 0
        invariant d + |result| <= hi && x == NodeAt(d + |result|, reverse)
        invariant result == s[d..d + |result|]
        invariant left == count - |result| && (count >= 0 ==> left >= 0)
        decreases |s| - d - |result|
      {
        assert x.elem == s[d + |result|];
        if !range.Contains(x.elem.score) {
          break;
        }
        var next := Next(x, d + |result|, reverse);
        result := result + [x.elem];
        left := left - 1;
        x := next;
      }
    }

    /** The first node in range, in the direction asked for. */
    method Start(range: ScoreRange, reverse: bool) returns (node: Node?)
      requires list.Valid()
      ensures var s := Contents();
              var lo := if reverse then |s| - RangeEnd(s, range) else RangeStart(s, range);
              node == if RangeStart(s, range) < RangeEnd(s, range) <= |s| then NodeAt(lo, reverse) else null
    {
      if reverse {
        node := list.LastInRange(range);
      } else {
        node := list.FirstInRange(range);
      }
    }

    /** Skip and collect from the first node in range on. */
    method Gather(node: Node, range: ScoreRange, reverse: bool, offset: int, count: int, ghost lo: nat, ghost hi: nat,
                  ghost s: seq<Elem>)
      returns (result: seq<Elem>)
      requires list.Linkage() && Follows(s, reverse) && lo < hi <= |s| && node == NodeAt(lo, reverse)
      requires forall i :: 0 <= i < |s| ==> (range.Contains(s[i].score) <==> lo <= i < hi)
      ensures result == Limited(s[lo..hi], offset, count)
    {
      LimitedSlice(s, lo, hi, offset, count);
      var next, e := Skip(node, offset, reverse, lo, |s|);
      result := Collect(next, range, count, reverse, e, s, Max(hi, e));
    }

    /** The first node in range, and where the range lies in the direction asked for. */
    method StartIn(range: ScoreRange, reverse: bool) returns (node: Node?, ghost lo: nat, ghost hi: nat)
      requires list.Valid()
      ensures var s := Directed(Contents(), reverse);
        && lo <= |s| && hi <= |s| && InRange(s, range) == (if lo < hi then s[lo..hi] else [])
        && (forall i :: 0 <= i < |s| ==> (range.Contains(s[i].score) <==> lo <= i < hi))
      ensures node == if lo < hi then NodeAt(lo, reverse) else null
    {
      lo, hi := DirectedRange(Contents(), range, reverse);
      node := Start(range, reverse);
    }

    /** ZRANGE BYSCORE [REV] [LIMIT]. */
    method RangeByScore(range: ScoreRange, reverse: bool, offset: int, count: int) returns (result: seq<Elem>)
      requires list.Valid()
      ensures result == Limited(InRange(Directed(Contents(), reverse), range), offset, count)
    {
      var node;
      ghost var lo, hi;
      node, lo, hi := StartIn(range, reverse);
      if node == null {
        return [];
      }
      DirectedFollows(reverse);
      result := Gather(node, range, reverse, offset, count, lo, hi, Directed(Contents(), reverse));
    }

    /** The difference of the ranks of the first and the last element in range. */
    method CountInRange(range: ScoreRange) returns (count: nat)
      requires Valid()
      ensures count == |InRange(Contents(), range)|
    {
      CountOfRange(Contents(), range);
      var first := Start(range, false);
      if first == null {
        return 0;
      }
      var last := Start(range, true);
      count := Between(first, last, RangeStart(Contents(), range), RangeEnd(Contents(), range));
    }

    method Between(first: Node, last: Node, ghost lo: nat, ghost hi: nat) returns (count: nat)
      requires Valid() && lo < hi <= |Contents()|
      requires first == NodeAt(lo, false) && last == NodeAt(|Contents()| - hi, true)
      ensures count == hi - lo
    {
      SliceRanks(Contents(), scores, lo, hi);
      assert first.elem == Contents()[lo] && last.elem == Contents()[hi - 1];
      var l := list.Rank(last.elem);
      var f := list.Rank(first.elem);
      count := l - f + 1;
    }

    /** The element pop takes next. */
    method Peek(fromMax: bool) returns (e: Elem)
      requires list.Valid() && Contents() != []
      ensures e == Contents()[if fromMax then |Contents()| - 1 else 0]
    {
      Level0(list.t, list.level, 0);
      var node := if fromMax then list.tail else list.header.forward[0];
      e := node.elem;
    }

    /** One turn of pop: the first or the last element goes. */
    method PopOne(fromMax: bool) returns (e: Elem)
      requires Valid() && Contents() != []
      modifies this, list, list.Repr
      ensures Valid() && list.Repr == old(list.Repr)
      ensures var s := old(Contents());
              e == s[if fromMax then |s| - 1 else 0] && Contents() == if fromMax then s[..|s| - 1] else s[1..]
      ensures scores == old(scores) - {e.member}
    {
      PopFacts(Contents(), scores, fromMax);
      e := Peek(fromMax);
      Drop(e.member);
    }

    /** popped came off one end of the set that had the elements s and the dict m. */
    ghost predicate Popping(s: seq<Elem>, m: map<string, Score>, fromMax: bool, popped: seq<Elem>)
      requires |list.t.nodes| >= 1
      reads this, list
    {
      Popped(s, fromMax, popped, Contents()) && scores == m - Members(popped)
    }

    method PopStep(fromMax: bool, popped: seq<Elem>, ghost s: seq<Elem>, ghost m: map<string, Score>)
      returns (popped': seq<Elem>)
      requires Valid() && Contents() != [] && Popping(s, m, fromMax, popped)
      modifies this, list, list.Repr
      ensures Valid() && list.Repr == old(list.Repr) && Popping(s, m, fromMax, popped') && |popped'| == |popped| + 1
    {
      PoppedStep(s, fromMax, popped, Contents());
      var e := PopOne(fromMax);
      PoppedMembers(m, popped, e);
      popped' := popped + [e];
    }

    /** ZPOPMIN / ZPOPMAX. */
    method Pop(count: int, fromMax: bool) returns (popped: seq<Elem>)
      requires Valid()
      modifies this, list, list.Repr
      ensures Valid() && list.Repr == old(list.Repr)
      ensures |popped| == if count <= 0 then 0 else if count < |old(scores)| then count else |old(scores)|
      ensures Popped(old(Contents()), fromMax, popped, Contents())
      ensures scores == old(scores) - Members(popped)
    {
      popped := [];
      var left := count;
      ghost var s, m := Contents(), scores;
      ListsSize(s, m);
      while left > 0 && scores != map[]
        invariant Valid() && list.Repr == old(list.Repr)
        invariant Popping(s, m, fromMax, popped)
        invariant left == count - |popped| && (|popped| > 0 ==> left >= 0)
        decreases left
      {
        ListsSize(Contents(), scores);
        popped := PopStep(fromMax, popped, s, m);
        left := left - 1;
      }
      ListsSize(Contents(), scores);
    }
  }
}
