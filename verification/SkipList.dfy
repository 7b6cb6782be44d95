/**
 The skip list behind sorted sets: towers of forward pointers whose spans count
 the level-0 nodes they jump over.

 Every pointer and every span is a function of the tower heights alone:
 the pointer of node p at level i leads to the next node taller than i.
 */
module SkipLists {
  import opened Ordering

  const MAX_LEVEL := 32

  /** The first index after p whose tower is taller than i, or |h| if there is none. */
  ghost function NextTall(h: seq<nat>, p: nat, i: nat): (q: nat)
    requires p < |h|
    ensures p < q <= |h|
    decreases |h| - p
  {
    if p + 1 == |h| then |h| else if h[p + 1] > i then p + 1 else NextTall(h, p + 1, i)
  }

  ghost predicate IsNextTall(h: seq<nat>, p: nat, i: nat, q: nat) {
    && p < q <= |h|
    && (forall r :: p < r < q ==> h[r] <= i)
    && (q < |h| ==> h[q] > i)
  }

  /** Node r is the last one at or before k whose tower is taller than i. */
  ghost predicate OnPath(h: seq<nat>, r: nat, i: nat, k: nat) {
    r <= k < |h| && h[r] > i && NextTall(h, r, i) > k
  }

  function Max(a: nat, b: nat): nat {
    if a > b then a else b
  }

  /** The rank distance from p to q, the end of the list counting as its last node. */
  function SpanTo(n: nat, p: nat, q: nat): int {
    (if q < n then q else n - 1) - p
  }

  /** s with x after index k. */
  ghost function InsertAt<T>(s: seq<T>, k: nat, x: T): (r: seq<T>)
    requires k < |s|
    ensures |r| == |s| + 1
  {
    seq(|s| + 1, p requires 0 <= p <= |s| => if p <= k then s[p] else if p == k + 1 then x else s[p - 1])
  }

  /** s without the element after index k. */
  ghost function DeleteAt<T>(s: seq<T>, k: nat): (r: seq<T>)
    requires k + 1 < |s|
    ensures |r| == |s| - 1
  {
    seq(|s| - 1, p requires 0 <= p < |s| - 1 => if p <= k then s[p] else s[p + 1])
  }

  lemma NextTallSpec(h: seq<nat>, p: nat, i: nat)
    requires p < |h|
    ensures IsNextTall(h, p, i, NextTall(h, p, i))
    decreases |h| - p
  {
    if p + 1 < |h| && h[p + 1] <= i {
      NextTallSpec(h, p + 1, i);
    }
  }

  lemma NextTallUnique(h: seq<nat>, p: nat, i: nat, q: nat)
    requires p < |h| && IsNextTall(h, p, i, q)
    ensures q == NextTall(h, p, i)
  {
    NextTallSpec(h, p, i);
  }

  /** A new tower after k is the next hop exactly of the path nodes it is tall enough for. */
  lemma NextTallInserted(h: seq<nat>, k: nat, lvl: nat, p: nat, i: nat)
    requires p <= k < |h|
    ensures var q := NextTall(h, p, i);
            NextTall(InsertAt<nat>(h, k, lvl), p, i) == if q <= k then q else if i < lvl then k + 1 else q + 1
  {
    var h', q := InsertAt<nat>(h, k, lvl), NextTall(h, p, i);
    NextTallSpec(h, p, i);
    NextTallUnique(h', p, i, if q <= k then q else if i < lvl then k + 1 else q + 1);
  }

  /** Behind the new tower every hop is the old one from the same place. */
  lemma NextTallShifted(h: seq<nat>, k: nat, lvl: nat, p: nat, i: nat)
    requires k <= p < |h|
    ensures NextTall(InsertAt<nat>(h, k, lvl), p + 1, i) == NextTall(h, p, i) + 1
  {
    var h', q := InsertAt<nat>(h, k, lvl), NextTall(h, p, i);
    NextTallSpec(h, p, i);
    NextTallUnique(h', p + 1, i, q + 1);
  }

  /** A node that hops past k has the hop of k. */
  lemma NextTallAcross(h: seq<nat>, k: nat, p: nat, i: nat)
    requires p <= k < |h| && k < NextTall(h, p, i)
    ensures NextTall(h, k, i) == NextTall(h, p, i)
  {
    NextTallSpec(h, p, i);
    NextTallUnique(h, k, i, NextTall(h, p, i));
  }

  /** Deleting node k + 1 redirects the pointers to it and shifts the ones across it. */
  lemma NextTallDeleted(h: seq<nat>, k: nat, p: nat, i: nat)
    requires p <= k && k + 1 < |h|
    ensures var q := NextTall(h, p, i);
            NextTall(DeleteAt<nat>(h, k), p, i) ==
              if q <= k then q else if q == k + 1 then NextTall(h, k + 1, i) - 1 else q - 1
  {
    var h', q := DeleteAt<nat>(h, k), NextTall(h, p, i);
    NextTallSpec(h, p, i);
    if q == k + 1 {
      NextTallSpec(h, k + 1, i);
      NextTallUnique(h', p, i, NextTall(h, k + 1, i) - 1);
    } else {
      NextTallUnique(h', p, i, if q <= k then q else q - 1);
    }
  }

  lemma NextTallUnshifted(h: seq<nat>, k: nat, p: nat, i: nat)
    requires k + 1 < p < |h|
    ensures NextTall(DeleteAt<nat>(h, k), p - 1, i) == NextTall(h, p, i) - 1
  {
    NextTallSpec(h, p, i);
    NextTallUnique(DeleteAt<nat>(h, k), p - 1, i, NextTall(h, p, i) - 1);
  }

  /** Where an index lands once a node is inserted after k. */
  function Shifted(k: nat, p: nat): nat {
    if p <= k then p else p + 1
  }

  /** Every hop at level i after inserting a tower behind k, r being the path node. */
  lemma InsertedHop(h: seq<nat>, k: nat, lvl: nat, r: nat, p: nat, i: nat)
    requires OnPath(h, r, i, k) && p < |h| && h[p] > i
    ensures var h', q := InsertAt<nat>(h, k, lvl), NextTall(h, p, i);
            && (p == r ==> q > k)
            && (p != r && p <= k ==> q <= k)
            && NextTall(h', Shifted(k, p), i) == (if p == r && i < lvl then k + 1 else Shifted(k, q))
            && NextTall(h', k + 1, i) == NextTall(h, r, i) + 1
  {
    NextTallSpec(h, r, i);
    NextTallSpec(h, p, i);
    NextTallAcross(h, k, r, i);
    NextTallShifted(h, k, lvl, k, i);
    if p <= k {
      NextTallInserted(h, k, lvl, p, i);
    } else {
      NextTallShifted(h, k, lvl, p, i);
    }
  }

  class Node {
    const elem: Elem
    var backward: Node?
    var forward: seq<Node?>
    var span: seq<int>

    constructor (level: nat, elem: Elem)
      ensures this.elem == elem && backward == null
      ensures forward == seq(level, _ => null) && span == seq(level, _ => 0)
    {
      this.elem := elem;
      backward := null;
      forward := seq(level, _ => null);
      span := seq(level, _ => 0);
    }
  }

  ghost function At(ns: seq<Node>, q: nat): Node? {
    if q < |ns| then ns[q] else null
  }

  /** The node before p, none before the first one behind the header. */
  ghost function Previous(ns: seq<Node>, p: nat): Node?
    requires p < |ns|
  {
    if p <= 1 then null else ns[p - 1]
  }

  /** The elements of the nodes behind the header. */
  ghost function ElemsOf(ns: seq<Node>): (s: seq<Elem>)
    requires |ns| >= 1
    ensures |s| == |ns| - 1
    ensures forall p :: 1 <= p < |ns| ==> s[p - 1] == ns[p].elem
  {
    seq(|ns| - 1, p requires 0 <= p < |ns| - 1 => ns[p + 1].elem)
  }

  /** ix finds every node of ns, so no node occurs twice. */
  ghost predicate Indexes(ix: map<Node, nat>, ns: seq<Node>) {
    forall p :: 0 <= p < |ns| ==> ns[p] in ix && ix[ns[p]] == p
  }

  /** The header and every node in order, with their tower heights, pointers and spans. */
  datatype Towers = Towers(nodes: seq<Node>, index: map<Node, nat>, heights: seq<nat>, fwd: seq<seq<Node?>>,
                           span: seq<seq<int>>)
  {
    ghost predicate Shape(level: nat) {
      && |nodes| == |heights| == |fwd| == |span| >= 1
      && heights[0] == MAX_LEVEL
      && 1 <= level <= MAX_LEVEL
      && (forall p :: 1 <= p < |heights| ==> 1 <= heights[p] <= level)
      && (forall p :: 0 <= p < |nodes| ==> |fwd[p]| == |span[p]| == heights[p])
    }

    ghost predicate Distinct() {
      Indexes(index, nodes)
    }

    /** Each pointer leads to the next tower tall enough, and each span is the exact rank distance. */
    ghost predicate Linked(level: nat)
      requires Shape(level)
    {
      forall p, i {:trigger HopOk(level, p, i)} ::
        0 <= p < |nodes| && 0 <= i < heights[p] ==> HopOk(level, p, i)
    }

    ghost predicate HopOk(level: nat, p: nat, i: nat)
      requires Shape(level) && p < |nodes| && i < heights[p]
    {
      && fwd[p][i] == At(nodes, NextTall(heights, p, i))
      && (i < level ==> span[p][i] == SpanTo(|nodes|, p, NextTall(heights, p, i)))
    }
  }

  lemma Raised(t: Towers, level: nat, lvl: nat, row: seq<int>)
    requires t.Shape(level) && t.Linked(level) && level < lvl <= MAX_LEVEL && |row| == MAX_LEVEL
    requires forall j :: 0 <= j < level ==> row[j] == t.span[0][j]
    requires forall j :: level <= j < lvl ==> row[j] == |t.nodes| - 1
    ensures var u := t.(span := t.span[0 := row]); u.Shape(lvl) && u.Linked(lvl)
  {
    var u := t.(span := t.span[0 := row]);
    forall p, i | 0 <= p < |u.nodes| && 0 <= i < u.heights[p]
      ensures u.HopOk(lvl, p, i)
    {
      assert t.HopOk(level, p, i);
      NextTallSpec(t.heights, p, i);
    }
  }

  /** rank names, per level, a node whose tower reaches it. */
  ghost predicate Ranks(t: Towers, rank: seq<nat>) {
    && |rank| == MAX_LEVEL && |t.fwd| == |t.span|
    && forall j :: 0 <= j < MAX_LEVEL ==> Reaches(t, rank[j], j)
  }

  /** Node p's tower reaches level j. */
  ghost predicate Reaches(t: Towers, p: nat, j: nat) {
    p < |t.fwd| == |t.span| && |t.fwd[p]| > j && |t.span[p]| > j
  }

  /** u is t with the levels below i rewritten for a tower of lvl levels behind the path. */
  ghost predicate Spliced(t: Towers, u: Towers, node: Node, rank: seq<nat>, lvl: nat, i: nat)
    requires Ranks(t, rank) && i <= MAX_LEVEL
  {
    && u == t.(fwd := u.fwd, span := u.span)
    && |u.fwd| == |u.span| == |t.fwd|
    && (forall p :: 0 <= p < |t.fwd| ==> |u.fwd[p]| == |t.fwd[p]| && |u.span[p]| == |t.span[p]|)
    && (forall p, j {:trigger SplicedAt(t, u, node, rank, lvl, i, p, j)} ::
          0 <= p < |t.fwd| && 0 <= j < |t.fwd[p]| && j < |t.span[p]| && j < MAX_LEVEL ==>
            SplicedAt(t, u, node, rank, lvl, i, p, j))
  }

  ghost predicate SplicedAt(t: Towers, u: Towers, node: Node, rank: seq<nat>, lvl: nat, i: nat, p: nat, j: nat)
    requires Ranks(t, rank) && p < |t.fwd| == |t.span| == |u.fwd| == |u.span|
    requires j < MAX_LEVEL && j < |t.fwd[p]| == |u.fwd[p]| && j < |t.span[p]| == |u.span[p]|
  {
    && u.fwd[p][j] == (if j < i && j < lvl && p == rank[j] then node else t.fwd[p][j])
    && u.span[p][j] ==
         if j < i && p == rank[j] then (if j < lvl then rank[0] - rank[j] + 1 else t.span[p][j] + 1)
         else t.span[p][j]
  }

  lemma SplicedStep(t: Towers, u: Towers, node: Node, rank: seq<nat>, lvl: nat, i: nat)
    requires Ranks(t, rank) && i < MAX_LEVEL && Spliced(t, u, node, rank, lvl, i)
    ensures var r := rank[i];
            var fwd := if i < lvl then u.fwd[r][i := node] else u.fwd[r];
            var span := u.span[r][i := if i < lvl then rank[0] - rank[i] + 1 else u.span[r][i] + 1];
            Spliced(t, u.(fwd := u.fwd[r := fwd], span := u.span[r := span]), node, rank, lvl, i + 1)
  {
    var r := rank[i];
    var fwd := if i < lvl then u.fwd[r][i := node] else u.fwd[r];
    var span := u.span[r][i := if i < lvl then rank[0] - rank[i] + 1 else u.span[r][i] + 1];
    var u', n := u.(fwd := u.fwd[r := fwd], span := u.span[r := span]), i + 1;
    forall p, j | 0 <= p < |t.fwd| && 0 <= j < |t.fwd[p]| && j < |t.span[p]| && j < MAX_LEVEL
      ensures SplicedAt(t, u', node, rank, lvl, n, p, j)
    {
      assert SplicedAt(t, u, node, rank, lvl, i, p, j);
    }
  }

  /** The new node takes over the path's pointers and what is left of their spans. */
  ghost predicate SplicedRow(t: Towers, rank: seq<nat>, fwd: seq<Node?>, span: seq<int>, i: nat) {
    && |fwd| == |span| >= i && i <= MAX_LEVEL && Ranks(t, rank)
    && (forall j :: 0 <= j < i ==>
          && fwd[j] == t.fwd[rank[j]][j]
          && span[j] == t.span[rank[j]][j] - rank[0] + rank[j])
  }

  /** u with the new node's row after index k. */
  ghost function Grown(u: Towers, k: nat, node: Node, fwd: seq<Node?>, span: seq<int>): Towers
    requires k < |u.nodes| == |u.heights| == |u.fwd| == |u.span|
  {
    Towers(InsertAt<Node>(u.nodes, k, node),
           (map n | n in u.index :: Shifted(k, u.index[n]))[node := k + 1],
           InsertAt<nat>(u.heights, k, |fwd|),
           InsertAt<seq<Node?>>(u.fwd, k, fwd), InsertAt<seq<int>>(u.span, k, span))
  }

  /** The path at every level: rank[i] is the last node up to k tall enough for level i. */
  ghost predicate Path(h: seq<nat>, rank: seq<nat>, k: nat) {
    && |rank| == MAX_LEVEL
    && forall i {:trigger OnPath(h, rank[i], i, k)} :: 0 <= i < MAX_LEVEL ==> OnPath(h, rank[i], i, k)
  }

  lemma AtShifted(ns: seq<Node>, k: nat, node: Node, q: nat)
    requires k < |ns|
    ensures At(InsertAt<Node>(ns, k, node), Shifted(k, q)) == At(ns, q)
    ensures At(InsertAt<Node>(ns, k, node), k + 1) == node
  {
  }

  /** The hop of an old node, in terms of its hop before. */
  lemma GrownHop(ns: seq<Node>, h: seq<nat>, node: Node, k: nat, lvl: nat, r: nat, p: nat, i: nat)
    requires |ns| == |h| && OnPath(h, r, i, k) && p < |h| && h[p] > i
    ensures var q, q' := NextTall(h, p, i), NextTall(InsertAt<nat>(h, k, lvl), Shifted(k, p), i);
            && At(InsertAt<Node>(ns, k, node), q') == (if p == r && i < lvl then node else At(ns, q))
            && SpanTo(|ns| + 1, Shifted(k, p), q') ==
                 if p == r then (if i < lvl then k - r + 1 else SpanTo(|ns|, p, q) + 1) else SpanTo(|ns|, p, q)
  {
    InsertedHop(h, k, lvl, r, p, i);
    AtShifted(ns, k, node, NextTall(h, p, i));
  }

  lemma PathIsRanks(t: Towers, level: nat, rank: seq<nat>, k: nat)
    requires t.Shape(level) && |rank| == MAX_LEVEL
    requires forall i :: 0 <= i < MAX_LEVEL ==> OnPath(t.heights, rank[i], i, k)
    ensures Path(t.heights, rank, k) && Ranks(t, rank) && rank[0] == k
  {
    NextTallSpec(t.heights, rank[0], 0);
  }

  lemma Level0(t: Towers, level: nat, p: nat)
    requires t.Shape(level) && t.Linked(level) && p < |t.nodes|
    ensures t.fwd[p][0] == At(t.nodes, p + 1)
  {
    assert t.HopOk(level, p, 0);
  }

  ghost predicate Within(ns: seq<Node>, repr: set<Node>) {
    forall p :: 0 <= p < |ns| ==> ns[p] in repr
  }

  /** Placing a node after its position keeps the elements sorted. */
  lemma ElemsInserted(ns: seq<Node>, node: Node, k: nat)
    requires |ns| >= 1 && Sorted(ElemsOf(ns)) && node.elem !in ElemsOf(ns) && k == Position(ElemsOf(ns), node.elem)
    ensures ElemsOf(InsertAt<Node>(ns, k, node)) == Inserted(ElemsOf(ns), node.elem)
    ensures Sorted(ElemsOf(InsertAt<Node>(ns, k, node)))
    ensures forall repr :: Within(ns, repr) ==> Within(InsertAt<Node>(ns, k, node), repr + {node})
  {
    InsertedSorted(ElemsOf(ns), node.elem);
  }

  /** The list's level is that of its tallest tower. */
  ghost predicate Tight(h: seq<nat>, level: nat) {
    level > 1 ==> exists p :: 1 <= p < |h| && h[p] >= level
  }

  lemma InsertedTight(h: seq<nat>, k: nat, lvl: nat, level: nat)
    requires k < |h| && Tight(h, level)
    ensures Tight(InsertAt<nat>(h, k, lvl), Max(lvl, level))
  {
    var h' := InsertAt<nat>(h, k, lvl);
    if lvl >= level {
      assert h'[k + 1] == lvl;
    } else if level > 1 {
      var p :| 1 <= p < |h| && h[p] >= level;
      assert h'[Shifted(k, p)] == h[p];
    }
  }

  lemma GrownOldRow(t: Towers, u: Towers, level: nat, node: Node, rank: seq<nat>, lvl: nat, k: nat, p: nat, i: nat)
    requires t.Shape(level) && t.Linked(level) && Path(t.heights, rank, k) && Ranks(t, rank) && rank[0] == k
    requires lvl <= level && Spliced(t, u, node, rank, lvl, level)
    requires p < |t.nodes| && i < t.heights[p]
    ensures var ns, q := InsertAt<Node>(t.nodes, k, node), NextTall(InsertAt<nat>(t.heights, k, lvl), Shifted(k, p), i);
            && u.fwd[p][i] == At(ns, q)
            && (i < level ==> u.span[p][i] == SpanTo(|ns|, Shifted(k, p), q))
  {
    assert OnPath(t.heights, rank[i], i, k) && t.HopOk(level, p, i);
    assert SplicedAt(t, u, node, rank, lvl, level, p, i);
    GrownHop(t.nodes, t.heights, node, k, lvl, rank[i], p, i);
  }

  /** The hop of the new node is what is left of the path node's. */
  lemma NewHop(ns: seq<Node>, h: seq<nat>, node: Node, k: nat, lvl: nat, r: nat, i: nat)
    requires |ns| == |h| && OnPath(h, r, i, k)
    ensures var q, q' := NextTall(h, r, i), NextTall(InsertAt<nat>(h, k, lvl), k + 1, i);
            At(InsertAt<Node>(ns, k, node), q') == At(ns, q) && SpanTo(|ns| + 1, k + 1, q') ==
              SpanTo(|ns|, r, q) - k + r
  {
    InsertedHop(h, k, lvl, r, r, i);
    AtShifted(ns, k, node, NextTall(h, r, i));
  }

  lemma GrownNewRow(t: Towers, level: nat, node: Node, rank: seq<nat>, fwd: seq<Node?>, span: seq<int>, k: nat, i: nat)
    requires t.Shape(level) && t.Linked(level) && Path(t.heights, rank, k) && Ranks(t, rank) && rank[0] == k
    requires i < |fwd| <= level && SplicedRow(t, rank, fwd, span, |fwd|)
    ensures var ns, q := InsertAt<Node>(t.nodes, k, node), NextTall(InsertAt<nat>(t.heights, k, |fwd|), k + 1, i);
            fwd[i] == At(ns, q) && span[i] == SpanTo(|ns|, k + 1, q)
  {
    assert OnPath(t.heights, rank[i], i, k) && t.HopOk(level, rank[i], i);
    NewHop(t.nodes, t.heights, node, k, |fwd|, rank[i], i);
  }

  /** Splicing a tower in behind the path keeps every pointer and every span right. */
  lemma GrownLinked(t: Towers, u: Towers, level: nat, node: Node, rank: seq<nat>, fwd: seq<Node?>, span: seq<int>,
                    k: nat)
    requires t.Shape(level) && t.Linked(level) && Path(t.heights, rank, k) && Ranks(t, rank) && rank[0] == k
    requires 1 <= |fwd| <= level && Spliced(t, u, node, rank, |fwd|, level)
    requires SplicedRow(t, rank, fwd, span, |fwd|)
    ensures var t' := Grown(u, k, node, fwd, span); t'.Shape(level) && t'.Linked(level)
  {
    var t' := Grown(u, k, node, fwd, span);
    GrownShape(u, level, k, node, fwd, span);
    forall p', i | 0 <= p' < |t'.nodes| && 0 <= i < t'.heights[p']
      ensures t'.HopOk(level, p', i)
    {
      GrownAny(t, u, level, node, rank, fwd, span, k, p', i);
    }
  }

  lemma GrownAny(t: Towers, u: Towers, level: nat, node: Node, rank: seq<nat>, fwd: seq<Node?>, span: seq<int>, k: nat,
                 p: nat,
                 i: nat)
    requires t.Shape(level) && t.Linked(level) && Path(t.heights, rank, k) && Ranks(t, rank) && rank[0] == k
    requires 1 <= |fwd| <= level && Spliced(t, u, node, rank, |fwd|, level) && SplicedRow(t, rank, fwd, span, |fwd|)
    requires Grown(u, k, node, fwd, span).Shape(level) && p < |Grown(u, k, node, fwd, span).nodes|
    requires i < Grown(u, k, node, fwd, span).heights[p]
    ensures Grown(u, k, node, fwd, span).HopOk(level, p, i)
  {
    if p == k + 1 {
      var t' := Grown(u, k, node, fwd, span);
      assert t'.fwd[p] == fwd && t'.span[p] == span;
      GrownNewRow(t, level, node, rank, fwd, span, k, i);
    } else {
      GrownOld(t, u, level, node, rank, fwd, span, k, if p <= k then p else p - 1, i);
    }
  }

  lemma GrownOld(t: Towers, u: Towers, level: nat, node: Node, rank: seq<nat>, fwd: seq<Node?>, span: seq<int>, k: nat,
                 p: nat,
                 i: nat)
    requires t.Shape(level) && t.Linked(level) && Path(t.heights, rank, k) && Ranks(t, rank) && rank[0] == k
    requires 1 <= |fwd| <= level && |span| == |fwd| && Spliced(t, u, node, rank, |fwd|, level)
    requires p < |t.nodes| && i < t.heights[p] && Grown(u, k, node, fwd, span).Shape(level)
    ensures Grown(u, k, node, fwd, span).HopOk(level, Shifted(k, p), i)
  {
    var t', p' := Grown(u, k, node, fwd, span), Shifted(k, p);
    assert t'.fwd[p'] == u.fwd[p] && t'.span[p'] == u.span[p] && t'.heights[p'] == t.heights[p];
    GrownOldRow(t, u, level, node, rank, |fwd|, k, p, i);
  }

  lemma GrownShape(u: Towers, level: nat, k: nat, node: Node, fwd: seq<Node?>, span: seq<int>)
    requires u.Shape(level) && k < |u.nodes| && 1 <= |fwd| == |span| <= level
    ensures Grown(u, k, node, fwd, span).Shape(level)
  {
  }

  lemma GrownDistinct(u: Towers, k: nat, node: Node, fwd: seq<Node?>, span: seq<int>)
    requires k < |u.nodes| == |u.heights| == |u.fwd| == |u.span| && u.Distinct() && node !in u.nodes
    ensures Grown(u, k, node, fwd, span).Distinct()
  {
  }

  /** Where an index lands once node k + 1 is deleted. */
  function Unshifted(k: nat, p: nat): nat {
    if p <= k then p else p - 1
  }

  lemma AtUnshifted(ns: seq<Node>, k: nat, q: nat)
    requires k + 1 < |ns| && q != k + 1
    ensures At(DeleteAt<Node>(ns, k), Unshifted(k, q)) == At(ns, q)
  {
  }

  /** Every hop at level i after deleting node k + 1, r being the path node. */
  lemma ShrunkHop(ns: seq<Node>, h: seq<nat>, k: nat, r: nat, p: nat, i: nat)
    requires |ns| == |h| && OnPath(h, r, i, k) && k + 1 < |h| && p < |h| && p != k + 1 && h[p] > i
    ensures var q, q' := NextTall(h, p, i), NextTall(DeleteAt<nat>(h, k), Unshifted(k, p), i);
            && (p == r ==> (q == k + 1 <==> h[k + 1] > i))
            && At(DeleteAt<Node>(ns, k), q') == (if p == r && h[k + 1] > i then At(ns, NextTall(h, k + 1, i))
                                                 else At(ns, q))
            && SpanTo(|ns| - 1, Unshifted(k, p), q') ==
                 if p != r then SpanTo(|ns|, p, q)
                 else SpanTo(|ns|, p, q) - 1 + if h[k + 1] > i then SpanTo(|ns|, k + 1, NextTall(h, k + 1, i)) else 0
  {
    NextTallSpec(h, r, i);
    NextTallSpec(h, p, i);
    NextTallSpec(h, k + 1, i);
    if p <= k {
      NextTallDeleted(h, k, p, i);
    } else {
      NextTallUnshifted(h, k, p, i);
    }
    var q := NextTall(h, p, i);
    if q == k + 1 {
      AtUnshifted(ns, k, NextTall(h, k + 1, i));
    } else {
      AtUnshifted(ns, k, q);
    }
  }

  lemma PathHit(t: Towers, level: nat, r: nat, i: nat, k: nat)
    requires t.Shape(level) && t.Linked(level) && t.Distinct() && k + 1 < |t.nodes| && OnPath(t.heights, r, i, k)
    ensures t.fwd[r][i] == t.nodes[k + 1] <==> i < t.heights[k + 1]
  {
    assert t.HopOk(level, r, i);
    ShrunkHop(t.nodes, t.heights, k, r, r, i);
  }

  /** The path node at level i points at node k + 1 exactly if that tower reaches level i. */
  ghost predicate Hit(t: Towers, rank: seq<nat>, k: nat, i: nat)
    requires Ranks(t, rank)
  {
    && i < MAX_LEVEL && k + 1 < |t.nodes| == |t.fwd|
    && rank[i] <= k && (t.fwd[rank[i]][i] == t.nodes[k + 1] <==> i < |t.fwd[k + 1]|)
  }

  /** u is t with the levels below i rewritten around node k + 1. */
  ghost predicate Cut(t: Towers, u: Towers, rank: seq<nat>, k: nat, i: nat)
    requires Ranks(t, rank) && i <= MAX_LEVEL && k + 1 < |t.fwd|
  {
    && u == t.(fwd := u.fwd, span := u.span)
    && |u.fwd| == |u.span| == |t.fwd|
    && (forall p :: 0 <= p < |t.fwd| ==> |u.fwd[p]| == |t.fwd[p]| && |u.span[p]| == |t.span[p]|)
    && (forall p, j {:trigger CutAt(t, u, rank, k, i, p, j)} ::
          0 <= p < |t.fwd| && 0 <= j < |t.fwd[p]| && j < |t.span[p]| && j < MAX_LEVEL ==>
            CutAt(t, u, rank, k, i, p, j))
  }

  ghost predicate CutAt(t: Towers, u: Towers, rank: seq<nat>, k: nat, i: nat, p: nat, j: nat)
    requires Ranks(t, rank) && p < |t.fwd| == |t.span| == |u.fwd| == |u.span| && k + 1 < |t.fwd|
    requires j < MAX_LEVEL && j < |t.fwd[p]| == |u.fwd[p]| && j < |t.span[p]| == |u.span[p]|
  {
    var hit := j < |t.fwd[k + 1]| && j < |t.span[k + 1]|;
    && u.fwd[p][j] == (if j < i && p == rank[j] && hit then t.fwd[k + 1][j] else t.fwd[p][j])
    && u.span[p][j] ==
         if !(j < i && p == rank[j]) then t.span[p][j]
         else t.span[p][j] - 1 + if hit then t.span[k + 1][j] else 0
  }

  lemma CutStep(t: Towers, u: Towers, rank: seq<nat>, k: nat, i: nat)
    requires Ranks(t, rank) && i < MAX_LEVEL && k + 1 < |t.fwd| && rank[i] <= k && Cut(t, u, rank, k, i)
    requires |t.fwd[k + 1]| == |t.span[k + 1]|
    ensures var r, hit := rank[i], i < |t.fwd[k + 1]|;
            var fwd := if hit then u.fwd[r][i := t.fwd[k + 1][i]] else u.fwd[r];
            var span := u.span[r][i := u.span[r][i] - 1 + if hit then t.span[k + 1][i] else 0];
            Cut(t, u.(fwd := u.fwd[r := fwd], span := u.span[r := span]), rank, k, i + 1)
  {
    var r, hit := rank[i], i < |t.fwd[k + 1]|;
    var fwd := if hit then u.fwd[r][i := t.fwd[k + 1][i]] else u.fwd[r];
    var span := u.span[r][i := u.span[r][i] - 1 + if hit then t.span[k + 1][i] else 0];
    var u', n := u.(fwd := u.fwd[r := fwd], span := u.span[r := span]), i + 1;
    forall p, j | 0 <= p < |t.fwd| && 0 <= j < |t.fwd[p]| && j < |t.span[p]| && j < MAX_LEVEL
      ensures CutAt(t, u', rank, k, n, p, j)
    {
      assert CutAt(t, u, rank, k, i, p, j);
    }
  }

  /** u without the row after index k. */
  ghost function Shrunk(u: Towers, k: nat): Towers
    requires k + 1 < |u.nodes| == |u.heights| == |u.fwd| == |u.span|
  {
    Towers(DeleteAt<Node>(u.nodes, k),
           map n | n in u.index :: Unshifted(k, u.index[n]),
           DeleteAt<nat>(u.heights, k), DeleteAt<seq<Node?>>(u.fwd, k), DeleteAt<seq<int>>(u.span, k))
  }

  lemma ShrunkRow(t: Towers, u: Towers, level: nat, rank: seq<nat>, k: nat, p: nat, i: nat)
    requires t.Shape(level) && t.Linked(level) && Path(t.heights, rank, k) && Ranks(t, rank) && k + 1 < |t.nodes|
    requires Cut(t, u, rank, k, level) && p < |t.nodes| && p != k + 1 && i < t.heights[p]
    ensures var ns, q := DeleteAt<Node>(t.nodes, k), NextTall(DeleteAt<nat>(t.heights, k), Unshifted(k, p), i);
            && u.fwd[p][i] == At(ns, q)
            && (i < level ==> u.span[p][i] == SpanTo(|ns|, Unshifted(k, p), q))
  {
    assert OnPath(t.heights, rank[i], i, k) && t.HopOk(level, p, i);
    assert CutAt(t, u, rank, k, level, p, i);
    if i < t.heights[k + 1] {
      assert t.HopOk(level, k + 1, i);
    }
    ShrunkHop(t.nodes, t.heights, k, rank[i], p, i);
  }

  /** Unlinking a node keeps every pointer and every span right. */
  lemma ShrunkLinked(t: Towers, u: Towers, level: nat, rank: seq<nat>, k: nat)
    requires t.Shape(level) && t.Linked(level) && Path(t.heights, rank, k) && Ranks(t, rank) && k + 1 < |t.nodes|
    requires Cut(t, u, rank, k, level)
    ensures var t' := Shrunk(u, k); t'.Shape(level) && t'.Linked(level)
  {
    var t' := Shrunk(u, k);
    forall p', i | 0 <= p' < |t'.nodes| && 0 <= i < t'.heights[p']
      ensures t'.HopOk(level, p', i)
    {
      var p := if p' <= k then p' else p' + 1;
      assert t'.fwd[p'] == u.fwd[p] && t'.span[p'] == u.span[p] && t'.heights[p'] == t.heights[p];
      ShrunkRow(t, u, level, rank, k, p, i);
    }
  }

  lemma ShrunkDistinct(u: Towers, k: nat)
    requires k + 1 < |u.nodes| == |u.heights| == |u.fwd| == |u.span| && u.Distinct()
    ensures Shrunk(u, k).Distinct()
  {
  }

  /** Without a pointer at the top level no tower reaches it. */
  lemma Lowered(t: Towers, level: nat)
    requires t.Shape(level) && t.Linked(level) && level > 1
    ensures t.fwd[0][level - 1] == null ==> t.Shape(level - 1) && t.Linked(level - 1)
    ensures t.fwd[0][level - 1] != null ==> Tight(t.heights, level)
  {
    assert t.HopOk(level, 0, level - 1);
    NextTallSpec(t.heights, 0, level - 1);
    var low := level - 1;
    if t.fwd[0][level - 1] == null {
      forall p, i | 0 <= p < |t.nodes| && 0 <= i < t.heights[p]
        ensures t.HopOk(low, p, i)
      {
        assert t.HopOk(level, p, i);
      }
    }
  }

  lemma ElemsDeleted(ns: seq<Node>, e: Elem, k: nat)
    requires |ns| >= 1 && Sorted(ElemsOf(ns)) && k == Position(ElemsOf(ns), e)
    ensures e in ElemsOf(ns) <==> k + 1 < |ns| && ns[k + 1].elem == e
    ensures k + 1 < |ns| && ns[k + 1].elem == e ==>
      ElemsOf(DeleteAt<Node>(ns, k)) == Deleted(ElemsOf(ns), e) && Sorted(ElemsOf(DeleteAt<Node>(ns, k)))
    ensures k + 1 < |ns| ==> forall repr :: Within(ns, repr) ==> Within(DeleteAt<Node>(ns, k), repr)
  {
    PositionSplits(ElemsOf(ns), e);
    DeletedSorted(ElemsOf(ns), e);
  }

  class SkipList {
    const header: Node
    var tail: Node?
    var level: nat
    var length: nat
    ghost var t: Towers
    ghost var Repr: set<Node>

    /** The nodes hold the rows of u. */
    static ghost predicate Holds(u: Towers)
      reads u.nodes
    {
      && |u.nodes| == |u.fwd| == |u.span|
      && (forall p :: 0 <= p < |u.nodes| ==> u.nodes[p].forward == u.fwd[p] && u.nodes[p].span == u.span[p])
    }

    /** Level 0 read backwards. */
    ghost predicate Backward()
      reads this, t.nodes
    {
      && |t.nodes| == length + 1
      && t.nodes[0] == header
      && tail == (if length == 0 then null else t.nodes[length])
      && BackLinks(t.nodes)
    }

    static ghost predicate BackLinks(ns: seq<Node>)
      reads ns
    {
      forall p {:trigger ns[p].backward} :: 1 <= p < |ns| ==> ns[p].backward == Previous(ns, p)
    }

    ghost predicate Linkage()
      reads this, t.nodes
    {
      t.Shape(level) && t.Linked(level) && t.Distinct() && Holds(t) && Backward()
    }

    ghost predicate Valid()
      reads this, t.nodes
    {
      && Linkage()
      && Tight(t.heights, level)
      && Within(t.nodes, Repr)
      && Sorted(ElemsOf(t.nodes))
    }

    ghost function Contents(): seq<Elem>
      requires |t.nodes| >= 1
      reads this
    {
      ElemsOf(t.nodes)
    }

    constructor ()
      ensures Valid() && fresh(Repr)
      ensures Contents() == []
    {
      var h := new Node(MAX_LEVEL, Elem(Fin(0.0), ""));
      header := h;
      tail := null;
      level := 1;
      length := 0;
      t := Towers([h], map[h := 0], [MAX_LEVEL], [h.forward], [h.span]);
      Repr := {h};
    }

    /** The nodes at or before e's position are the header and those ordered before e. */
    lemma PathBound(e: Elem)
      requires |t.nodes| >= 1 && Sorted(Contents())
      ensures Position(Contents(), e) < |t.nodes|
      ensures forall p :: 1 <= p < |t.nodes| ==> (Before(t.nodes[p].elem, e) <==> p <= Position(Contents(), e))
    {
      PositionSplits(Contents(), e);
      forall p | 1 <= p < |t.nodes|
        ensures Before(t.nodes[p].elem, e) <==> p <= Position(Contents(), e)
      {
        assert t.nodes[p].elem == Contents()[p - 1];
      }
    }

    /** keep holds of exactly the nodes up to index k. */
    ghost predicate CutsAt(keep: Elem -> bool, k: nat)
      reads this
    {
      k < |t.nodes| && forall p :: 1 <= p < |t.nodes| ==> (keep(t.nodes[p].elem) <==> p <= k)
    }

    /** One level of a descent: walk right while the next node is kept, adding up spans. */
    method Advance(x: Node, r: nat, i: nat, keep: Elem -> bool, ghost k: nat)
      returns (y: Node, s: nat)
      requires t.Shape(level) && t.Linked(level) && Holds(t) && CutsAt(keep, k)
      requires i < level && r <= k && x == t.nodes[r] && t.heights[r] > i
      ensures r <= s && OnPath(t.heights, s, i, k) && y == t.nodes[s]
    {
      y, s := x, r;
      var nxt := y.forward[i];
      assert t.HopOk(level, s, i);
      while nxt != null && keep(nxt.elem)
        invariant r <= s <= k && y == t.nodes[s] && t.heights[s] > i && t.HopOk(level, s, i)
        invariant nxt == y.forward[i]
        decreases k - s
      {
        NextTallSpec(t.heights, s, i);
        s := s + y.span[i];
        y := nxt;
        nxt := y.forward[i];
        assert t.HopOk(level, s, i);
      }
    }

    /**
     The descent of insert and delete: at every level the last node before e
     whose tower reaches that level, with its rank.
     */
    method Search(e: Elem) returns (update: seq<Node>, rank: seq<nat>)
      requires Valid()
      ensures |update| == |rank| == MAX_LEVEL
      ensures forall i :: 0 <= i < MAX_LEVEL ==>
        OnPath(t.heights, rank[i], i, Position(Contents(), e)) && update[i] == t.nodes[rank[i]]
    {
      ghost var k := Position(Contents(), e);
      var keep := (x: Elem) => Before(x, e);
      PathBound(e);
      update, rank := seq(MAX_LEVEL, _ => header), seq(MAX_LEVEL, _ => 0);
      forall j | level <= j < MAX_LEVEL
        ensures OnPath(t.heights, 0, j, k)
      {
        NextTallSpec(t.heights, 0, j);
      }
      var x, r: nat, i := header, 0, level;
      while i > 0
        invariant 0 <= i <= level && |update| == |rank| == MAX_LEVEL
        invariant r <= k && x == t.nodes[r] && t.heights[r] >= i
        invariant forall j :: i <= j < MAX_LEVEL ==>
          OnPath(t.heights, rank[j], j, k) && update[j] == t.nodes[rank[j]]
      {
        i := i - 1;
        x, r := Advance(x, r, i, keep, k);
        update, rank := update[i := x], rank[i := r];
      }
    }

    /** insert, on a tower taller than the list: the header gets spans for the new levels. */
    method Raise(lvl: nat)
      requires Linkage() && lvl <= MAX_LEVEL
      modifies this`level, this`t, header`span
      ensures Linkage() && level == Max(lvl, old(level))
      ensures t.nodes == old(t.nodes) && t.heights == old(t.heights)
    {
      if lvl <= level {
        return;
      }
      var i := level;
      while i < lvl
        modifies header`span
        invariant level <= i <= lvl && |header.span| == MAX_LEVEL
        invariant forall j :: 0 <= j < level ==> header.span[j] == old(header.span)[j]
        invariant forall j :: level <= j < i ==> header.span[j] == length
      {
        header.span := header.span[i := length];
        i := i + 1;
      }
      Raised(t, level, lvl, header.span);
      t := t.(span := t.span[0 := header.span]);
      level := lvl;
    }

    /** Rewriting one node's row rewrites that row of the table and no other. */
    static method PutRow(ghost u: Towers, ghost r: nat, x: Node, fwd: seq<Node?>, span: seq<int>)
      requires Holds(u) && r < |u.nodes| && x == u.nodes[r]
      requires u.Distinct()
      modifies x`forward, x`span
      ensures x.forward == fwd && x.span == span
      ensures Holds(u.(fwd := u.fwd[r := fwd], span := u.span[r := span]))
    {
      x.forward, x.span := fwd, span;
    }

    /** insert, one level the new tower reaches: node goes in behind the path node. */
    static method SpliceLevel(ghost t: Towers, ghost u: Towers, node: Node, prev: Node, rank: seq<nat>, lvl: nat,
                              i: nat)
      returns (ghost u': Towers)
      requires Ranks(t, rank) && i < lvl <= MAX_LEVEL && Spliced(t, u, node, rank, lvl, i) && Holds(u)
      requires u.Distinct()
      requires prev == u.nodes[rank[i]] && node !in u.nodes
      requires |node.forward| == lvl && SplicedRow(t, rank, node.forward, node.span, i)
      modifies prev`forward, prev`span, node`forward, node`span
      ensures Spliced(t, u', node, rank, lvl, i + 1) && Holds(u')
      ensures |node.forward| == lvl && SplicedRow(t, rank, node.forward, node.span, i + 1)
    {
      SplicedStep(t, u, node, rank, lvl, i);
      assert SplicedAt(t, u, node, rank, lvl, i, rank[i], i);
      node.forward := node.forward[i := prev.forward[i]];
      node.span := node.span[i := prev.span[i] - rank[0] + rank[i]];
      PutRow(u, rank[i], prev, prev.forward[i := node], prev.span[i := (rank[0] as int) - rank[i] + 1]);
      u' := u.(fwd := u.fwd[rank[i] := prev.forward], span := u.span[rank[i] := prev.span]);
    }

    /** insert, the levels the new tower reaches. */
    static method Splice(ghost t: Towers, ghost level: nat, node: Node, update: seq<Node>, rank: seq<nat>, lvl: nat)
      returns (ghost u: Towers)
      requires t.Shape(level) && t.Distinct() && Holds(t) && lvl <= level && |update| == MAX_LEVEL && Ranks(t, rank)
      requires forall i {:trigger update[i]} :: 0 <= i < MAX_LEVEL ==> update[i] == t.nodes[rank[i]]
      requires node !in t.nodes && |node.forward| == |node.span| == lvl
      modifies t.nodes`forward, t.nodes`span, node`forward, node`span
      ensures Spliced(t, u, node, rank, lvl, lvl) && Holds(u)
      ensures SplicedRow(t, rank, node.forward, node.span, lvl) && |node.forward| == lvl
    {
      u := t;
      var i := 0;
      while i < lvl
        invariant 0 <= i <= lvl && Spliced(t, u, node, rank, lvl, i)
        invariant Holds(u)
        invariant |node.forward| == lvl && SplicedRow(t, rank, node.forward, node.span, i)
      {
        u := SpliceLevel(t, u, node, update[i], rank, lvl, i);
        i := i + 1;
      }
    }

    /** insert, one level above the new tower. */
    static method StretchLevel(ghost t: Towers, ghost u: Towers, ghost node: Node, prev: Node, ghost rank: seq<nat>,
                               ghost lvl: nat, i: nat)
      returns (ghost u': Towers)
      requires Ranks(t, rank) && lvl <= i < MAX_LEVEL && Spliced(t, u, node, rank, lvl, i) && Holds(u) && u.Distinct()
      requires prev == u.nodes[rank[i]]
      modifies prev`forward, prev`span
      ensures Spliced(t, u', node, rank, lvl, i + 1) && Holds(u')
    {
      SplicedStep(t, u, node, rank, lvl, i);
      PutRow(u, rank[i], prev, prev.forward, prev.span[i := prev.span[i] + 1]);
      u' := u.(fwd := u.fwd[rank[i] := prev.forward], span := u.span[rank[i] := prev.span]);
    }

    /** insert, the levels above the new tower: the path's pointers now jump one node more. */
    static method Stretch(ghost t: Towers, ghost u0: Towers, level: nat, ghost node: Node, update: seq<Node>,
                          ghost rank: seq<nat>, lvl: nat)
      returns (ghost u: Towers)
      requires t.Shape(level) && t.Distinct() && lvl <= level && |update| == MAX_LEVEL && Ranks(t, rank)
      requires forall i {:trigger update[i]} :: 0 <= i < MAX_LEVEL ==> update[i] == t.nodes[rank[i]]
      requires Spliced(t, u0, node, rank, lvl, lvl) && Holds(u0)
      modifies t.nodes`forward, t.nodes`span
      ensures Spliced(t, u, node, rank, lvl, level) && Holds(u)
    {
      u := u0;
      var i := lvl;
      while i < level
        invariant lvl <= i <= level && Spliced(t, u, node, rank, lvl, i)
        invariant Holds(u)
      {
        u := StretchLevel(t, u, node, update[i], rank, lvl, i);
        i := i + 1;
      }
    }

    /** insert, all pointers: the result is again fully linked, with node after index k. */
    static method Link(ghost t: Towers, level: nat, node: Node, update: seq<Node>, rank: seq<nat>, lvl: nat,
                       ghost k: nat)
      returns (ghost t': Towers)
      requires t.Shape(level) && t.Linked(level) && t.Distinct() && Holds(t) && 1 <= lvl <= level
      requires Path(t.heights, rank, k) && Ranks(t, rank) && rank[0] == k
      requires |update| == MAX_LEVEL && forall i {:trigger update[i]} :: 0 <= i < MAX_LEVEL ==>
        update[i] == t.nodes[rank[i]]
      requires node !in t.nodes && |node.forward| == |node.span| == lvl
      modifies t.nodes`forward, t.nodes`span, node`forward, node`span
      ensures t'.Shape(level) && t'.Linked(level) && t'.Distinct() && Holds(t')
      ensures t'.nodes == InsertAt<Node>(t.nodes, k, node) && t'.heights == InsertAt<nat>(t.heights, k, lvl)
      ensures |node.forward| >= 1 && node.forward[0] == At(t.nodes, k + 1)
    {
      ghost var u := Splice(t, level, node, update, rank, lvl);
      u := Stretch(t, u, level, node, update, rank, lvl);
      GrownLinked(t, u, level, node, rank, node.forward, node.span, k);
      GrownDistinct(u, k, node, node.forward, node.span);
      Level0(t, level, k);
      t' := Grown(u, k, node, node.forward, node.span);
    }

    /** insert, level 0 backwards. */
    static method LinkBack(ghost ns: seq<Node>, ghost ix: map<Node, nat>, node: Node, prev: Node?, ghost k: nat,
                           ghost t': Towers)
      requires BackLinks(ns) && k < |ns| && node !in ns && prev == (if k == 0 then null else ns[k]) && Holds(t')
      requires Indexes(ix, ns)
      requires |node.forward| >= 1 && node.forward[0] == At(ns, k + 1)
      modifies node`backward, ns`backward
      ensures BackLinks(InsertAt<Node>(ns, k, node)) && Holds(t')
    {
      node.backward := prev;
      var after := node.forward[0];
      if after != null {
        after.backward := node;
      }
    }

    /** The list becomes the fully linked t'. */
    method Commit(ghost t': Towers, tail': Node?, length': nat, ghost repr: set<Node>)
      requires t'.Shape(level) && t'.Linked(level) && t'.Distinct() && Holds(t') && BackLinks(t'.nodes)
      requires |t'.nodes| == length' + 1 && t'.nodes[0] == header
      requires tail' == if length' == 0 then null else t'.nodes[length']
      modifies this`t, this`Repr, this`tail, this`length
      ensures Linkage() && t == t' && Repr == repr
    {
      tail, length := tail', length';
      t, Repr := t', repr;
    }

    /** insert, both directions. */
    static method Join(ghost t: Towers, level: nat, node: Node, update: seq<Node>, rank: seq<nat>, lvl: nat,
                       prev: Node?, ghost k: nat)
      returns (ghost t': Towers)
      requires t.Shape(level) && t.Linked(level) && t.Distinct() && Holds(t) && BackLinks(t.nodes) && 1 <= lvl <= level
      requires Path(t.heights, rank, k) && Ranks(t, rank) && rank[0] == k &&
        prev == (if k == 0 then null else t.nodes[k])
      requires |update| == MAX_LEVEL && forall i {:trigger update[i]} :: 0 <= i < MAX_LEVEL ==>
        update[i] == t.nodes[rank[i]]
      requires node !in t.nodes && |node.forward| == |node.span| == lvl
      modifies t.nodes`forward, t.nodes`span, t.nodes`backward, node`forward, node`span, node`backward
      ensures t'.Shape(level) && t'.Linked(level) && t'.Distinct() && Holds(t') && BackLinks(t'.nodes)
      ensures t'.nodes == InsertAt<Node>(t.nodes, k, node) && t'.heights == InsertAt<nat>(t.heights, k, lvl)
      ensures |node.forward| >= 1 && node.forward[0] == At(t.nodes, k + 1)
    {
      t' := Link(t, level, node, update, rank, lvl, k);
      LinkBack(t.nodes, t.index, node, prev, k, t');
    }

    /** insert, once the path is known and the list is high enough. */
    method Place(e: Elem, lvl: nat, update: seq<Node>, rank: seq<nat>, ghost k: nat) returns (node: Node)
      requires Linkage() && 1 <= lvl <= level
      requires Path(t.heights, rank, k) && Ranks(t, rank) && rank[0] == k
      requires |update| == MAX_LEVEL && forall i {:trigger update[i]} :: 0 <= i < MAX_LEVEL ==>
        update[i] == t.nodes[rank[i]]
      modifies this`t, this`Repr, this`tail, this`length, t.nodes`forward, t.nodes`span, t.nodes`backward
      ensures Linkage() && fresh(node) && node.elem == e && Repr == old(Repr) + {node}
      ensures t.nodes == InsertAt<Node>(old(t.nodes), k, node) && t.heights == InsertAt<nat>(old(t.heights), k, lvl)
    {
      ghost var t';
      node, t' := Attach(e, lvl, update, rank, k);
      Commit(t', if node.forward[0] == null then node else tail, length + 1, Repr + {node});
    }

    /** A new node, linked in on every level. */
    method Attach(e: Elem, lvl: nat, update: seq<Node>, rank: seq<nat>, ghost k: nat)
      returns (node: Node, ghost t': Towers)
      requires Linkage() && 1 <= lvl <= level
      requires Path(t.heights, rank, k) && Ranks(t, rank) && rank[0] == k
      requires |update| == MAX_LEVEL && forall i {:trigger update[i]} :: 0 <= i < MAX_LEVEL ==>
        update[i] == t.nodes[rank[i]]
      modifies t.nodes`forward, t.nodes`span, t.nodes`backward
      ensures fresh(node) && node.elem == e && |node.forward| >= 1 && node.forward[0] == At(t.nodes, k + 1)
      ensures t'.Shape(level) && t'.Linked(level) && t'.Distinct() && Holds(t') && BackLinks(t'.nodes)
      ensures t'.nodes == InsertAt<Node>(t.nodes, k, node) && t'.heights == InsertAt<nat>(t.heights, k, lvl)
    {
      node := new Node(lvl, e);
      t' := Join(t, level, node, update, rank, lvl, if update[0] == header then null else update[0], k);
    }

    /** insert, once the path is known. */
    method Graft(e: Elem, lvl: nat, update: seq<Node>, rank: seq<nat>, ghost k: nat) returns (node: Node)
      requires Linkage() && 1 <= lvl <= MAX_LEVEL
      requires Path(t.heights, rank, k) && Ranks(t, rank) && rank[0] == k
      requires |update| == MAX_LEVEL && forall i {:trigger update[i]} :: 0 <= i < MAX_LEVEL ==>
        update[i] == t.nodes[rank[i]]
      modifies this, t.nodes`forward, t.nodes`span, t.nodes`backward
      ensures Linkage() && fresh(node) && node.elem == e && Repr == old(Repr) + {node}
      ensures level == Max(lvl, old(level))
      ensures t.nodes == InsertAt<Node>(old(t.nodes), k, node) && t.heights == InsertAt<nat>(old(t.heights), k, lvl)
    {
      Raise(lvl);
      node := Place(e, lvl, update, rank, k);
    }

    /** Insert e, whose tower the coin flips made lvl levels high. */
    method Insert(e: Elem, lvl: nat) returns (node: Node)
      requires Valid() && e !in Contents() && 1 <= lvl <= MAX_LEVEL
      modifies this, Repr
      ensures Valid() && fresh(Repr - old(Repr))
      ensures fresh(node) && node.elem == e && t.nodes ==
        InsertAt<Node>(old(t.nodes), Position(old(Contents()), e), node)
      ensures Contents() == Inserted(old(Contents()), e)
    {
      ghost var k, ns := Position(Contents(), e), t.nodes;
      var update, rank := Search(e);
      PathIsRanks(t, level, rank, k);
      InsertedTight(t.heights, k, lvl, level);
      node := Graft(e, lvl, update, rank, k);
      ElemsInserted(ns, node, k);
    }

    /** _unlink, one level: the path node's pointer skips node, or its span loses it. */
    static method CutLevel(ghost t: Towers, ghost u: Towers, node: Node, prev: Node, ghost rank: seq<nat>, ghost k: nat,
                           i: nat)
      returns (ghost u': Towers)
      requires Ranks(t, rank) && Hit(t, rank, k, i) && Cut(t, u, rank, k, i)
      requires Holds(u) && u.Distinct() && prev == u.nodes[rank[i]] && node == u.nodes[k + 1]
      requires |t.fwd[k + 1]| == |t.span[k + 1]|
      modifies prev`forward, prev`span
      ensures Cut(t, u', rank, k, i + 1) && Holds(u')
    {
      CutStep(t, u, rank, k, i);
      assert CutAt(t, u, rank, k, i, rank[i], i);
      if prev.forward[i] == node {
        assert CutAt(t, u, rank, k, i, k + 1, i);
        PutRow(u, rank[i], prev, prev.forward[i := node.forward[i]], prev.span[i := prev.span[i] + node.span[i] - 1]);
      } else {
        PutRow(u, rank[i], prev, prev.forward, prev.span[i := prev.span[i] - 1]);
      }
      u' := u.(fwd := u.fwd[rank[i] := prev.forward], span := u.span[rank[i] := prev.span]);
    }

    /** _unlink, every level. */
    static method CutLevels(ghost t: Towers, level: nat, node: Node, update: seq<Node>, ghost rank: seq<nat>,
                            ghost k: nat)
      returns (ghost u: Towers)
      requires level <= MAX_LEVEL && t.Distinct() && Holds(t) && Ranks(t, rank) && k + 1 < |t.nodes| &&
        node == t.nodes[k + 1]
      requires |t.fwd[k + 1]| == |t.span[k + 1]|
      requires forall i {:trigger Hit(t, rank, k, i)} :: 0 <= i < level ==> Hit(t, rank, k, i)
      requires |update| == MAX_LEVEL && forall i {:trigger update[i]} :: 0 <= i < MAX_LEVEL ==>
        update[i] == t.nodes[rank[i]]
      modifies t.nodes`forward, t.nodes`span
      ensures Cut(t, u, rank, k, level) && Holds(u)
    {
      u := t;
      var i := 0;
      while i < level
        invariant 0 <= i <= level && Cut(t, u, rank, k, i)
        invariant Holds(u)
      {
        assert Hit(t, rank, k, i);
        u := CutLevel(t, u, node, update[i], rank, k, i);
        i := i + 1;
      }
    }

    /** _unlink, all pointers: the result is again fully linked, without node. */
    static method CutOut(ghost t: Towers, level: nat, node: Node, update: seq<Node>, ghost rank: seq<nat>, ghost k: nat)
      returns (ghost t': Towers)
      requires t.Shape(level) && t.Linked(level) && t.Distinct() && Holds(t)
      requires Path(t.heights, rank, k) && Ranks(t, rank) && k + 1 < |t.nodes| && node == t.nodes[k + 1]
      requires |update| == MAX_LEVEL && forall i {:trigger update[i]} :: 0 <= i < MAX_LEVEL ==>
        update[i] == t.nodes[rank[i]]
      modifies t.nodes`forward, t.nodes`span
      ensures t'.Shape(level) && t'.Linked(level) && t'.Distinct() && Holds(t')
      ensures t'.nodes == DeleteAt<Node>(t.nodes, k)
      ensures |node.forward| >= 1 && node.forward[0] == At(t.nodes, k + 2)
    {
      forall i | 0 <= i < level
        ensures Hit(t, rank, k, i)
      {
        assert OnPath(t.heights, rank[i], i, k);
        PathHit(t, level, rank[i], i, k);
      }
      ghost var u := CutLevels(t, level, node, update, rank, k);
      ShrunkLinked(t, u, level, rank, k);
      ShrunkDistinct(u, k);
      Level0(t, level, k + 1);
      assert CutAt(t, u, rank, k, level, k + 1, 0);
      t' := Shrunk(u, k);
    }

    /** _unlink, level 0 backwards. */
    static method UnlinkBack(ghost ns: seq<Node>, ghost ix: map<Node, nat>, node: Node, ghost k: nat, ghost t': Towers)
      requires BackLinks(ns) && k + 1 < |ns| && node == ns[k + 1] && Holds(t') && Indexes(ix, ns)
      requires |node.forward| >= 1 && node.forward[0] == At(ns, k + 2)
      modifies ns`backward
      ensures BackLinks(DeleteAt<Node>(ns, k)) && Holds(t')
      ensures node.backward == Previous(ns, k + 1)
    {
      var after := node.forward[0];
      if after != null {
        after.backward := node.backward;
      }
    }

    /** _unlink, the level: drop to the tallest tower left. */
    method Lower()
      requires Linkage()
      modifies this`level
      ensures Linkage() && t == old(t) && Tight(t.heights, level)
    {
      while level > 1 && header.forward[level - 1] == null
        invariant Linkage()
        decreases level
      {
        Lowered(t, level);
        level := level - 1;
      }
      if level > 1 {
        Lowered(t, level);
      }
    }

    /** _unlink, both directions. */
    static method Detach(ghost t: Towers, level: nat, node: Node, update: seq<Node>, ghost rank: seq<nat>, ghost k: nat)
      returns (ghost t': Towers)
      requires t.Shape(level) && t.Linked(level) && t.Distinct() && Holds(t) && BackLinks(t.nodes)
      requires Path(t.heights, rank, k) && Ranks(t, rank) && k + 1 < |t.nodes| && node == t.nodes[k + 1]
      requires |update| == MAX_LEVEL && forall i {:trigger update[i]} :: 0 <= i < MAX_LEVEL ==>
        update[i] == t.nodes[rank[i]]
      modifies t.nodes`forward, t.nodes`span, t.nodes`backward
      ensures t'.Shape(level) && t'.Linked(level) && t'.Distinct() && Holds(t') && BackLinks(t'.nodes)
      ensures t'.nodes == DeleteAt<Node>(t.nodes, k)
      ensures |node.forward| >= 1 && node.forward[0] == At(t.nodes, k + 2) && node.backward == Previous(t.nodes, k + 1)
    {
      t' := CutOut(t, level, node, update, rank, k);
      UnlinkBack(t.nodes, t.index, node, k, t');
    }

    method Remove(node: Node, update: seq<Node>, ghost rank: seq<nat>, ghost k: nat)
      requires Linkage() && Path(t.heights, rank, k) && Ranks(t, rank) && k + 1 < |t.nodes| && node == t.nodes[k + 1]
      requires |update| == MAX_LEVEL && forall i {:trigger update[i]} :: 0 <= i < MAX_LEVEL ==>
        update[i] == t.nodes[rank[i]]
      modifies this`t, this`tail, this`length, this`Repr, t.nodes`forward, t.nodes`span, t.nodes`backward
      ensures Linkage() && Repr == old(Repr)
      ensures t.nodes == DeleteAt<Node>(old(t.nodes), k)
    {
      ghost var t' := Detach(t, level, node, update, rank, k);
      Commit(t', if node.forward[0] == null then node.backward else tail, length - 1, Repr);
    }

    method Unlink(node: Node, update: seq<Node>, ghost rank: seq<nat>, ghost k: nat)
      requires Linkage() && Path(t.heights, rank, k) && Ranks(t, rank) && k + 1 < |t.nodes| && node == t.nodes[k + 1]
      requires |update| == MAX_LEVEL && forall i {:trigger update[i]} :: 0 <= i < MAX_LEVEL ==>
        update[i] == t.nodes[rank[i]]
      modifies this, t.nodes`forward, t.nodes`span, t.nodes`backward
      ensures Linkage() && Tight(t.heights, level) && Repr == old(Repr)
      ensures t.nodes == DeleteAt<Node>(old(t.nodes), k)
    {
      Remove(node, update, rank, k);
      Lower();
    }

    /** delete, the lookup: the path to e and e's node. */
    method Locate(e: Elem) returns (update: seq<Node>, rank: seq<nat>, target: Node?)
      requires Valid()
      ensures Path(t.heights, rank, Position(Contents(), e)) && Ranks(t, rank)
      ensures |update| == MAX_LEVEL && forall i {:trigger update[i]} :: 0 <= i < MAX_LEVEL ==>
        update[i] == t.nodes[rank[i]]
      ensures target == if e in Contents() then At(t.nodes, Position(Contents(), e) + 1) else null
    {
      ghost var k := Position(Contents(), e);
      ElemsDeleted(t.nodes, e, k);
      update, rank := Search(e);
      PathIsRanks(t, level, rank, k);
      Level0(t, level, k);
      target := update[0].forward[0];
      if target != null && target.elem != e {
        target := null;
      }
    }

    /** Delete e if it is present. */
    method Delete(e: Elem) returns (found: bool)
      requires Valid()
      modifies this, Repr
      ensures Valid() && Repr == old(Repr)
      ensures found == (e in old(Contents()))
      ensures Contents() == Deleted(old(Contents()), e)
    {
      ghost var k, ns := Position(Contents(), e), t.nodes;
      ElemsDeleted(ns, e, k);
      var update, rank, target := Locate(e);
      if target == null {
        return false;
      }
      Unlink(target, update, rank, k);
      return true;
    }

    /** A downward closed test cuts the nodes at the number of elements it holds of. */
    lemma LeadBound(keep: Elem -> bool)
      requires |t.nodes| >= 1 && Sorted(Contents()) && DownClosed(keep)
      ensures CutsAt(keep, Lead(Contents(), keep))
    {
      LeadCuts(Contents(), keep);
      forall p | 1 <= p < |t.nodes|
        ensures keep(t.nodes[p].elem) <==> p <= Lead(Contents(), keep)
      {
        assert t.nodes[p].elem == Contents()[p - 1];
      }
    }

    /** The last node on the descent of keep. */
    method Descend(keep: Elem -> bool) returns (x: Node, ghost k: nat)
      requires Valid() && DownClosed(keep)
      ensures k == Lead(Contents(), keep) && x == t.nodes[k]
    {
      LeadBound(keep);
      k := Lead(Contents(), keep);
      var r: nat, i := 0, level;
      x := header;
      while i > 0
        invariant 0 <= i <= level && r <= k && x == t.nodes[r] && t.heights[r] >= i
        invariant i == 0 ==> r == k
      {
        i := i - 1;
        x, r := Advance(x, r, i, keep, k);
        NextTallSpec(t.heights, r, i);
      }
    }

    /**
     The descent of rank: it stops as soon as it stands on a node with e's
     member, whatever that node's score is.
     */
    method RankDescent(e: Elem, ghost k: nat) returns (r: nat)
      requires Linkage() && CutsAt(UpTo(e), k)
      ensures r <= k
      ensures r > 0 ==> t.nodes[r].elem.member == e.member
      ensures r == 0 && k > 0 ==> t.nodes[k].elem.member != e.member
    {
      var x, i := header, level;
      r := 0;
      while i > 0
        invariant 0 <= i <= level && r <= k && x == t.nodes[r] && t.heights[r] >= i
        invariant i == 0 ==> r == k && (k > 0 ==> x.elem.member != e.member)
      {
        i := i - 1;
        x, r := Advance(x, r, i, UpTo(e), k);
        NextTallSpec(t.heights, r, i);
        if x != header && x.elem.member == e.member {
          return;
        }
      }
      return 0;
    }

    /** 1-based rank of e, right for the pairs that are present if members are unique. */
    method Rank(e: Elem) returns (r: nat)
      requires Valid()
      ensures r <= length
      ensures r > 0 ==> Contents()[r - 1].member == e.member && UpTo(e)(Contents()[r - 1])
      ensures r == 0 ==> var k := Lead(Contents(), UpTo(e)); k > 0 ==> Contents()[k - 1].member != e.member
      ensures e in Contents() && UniqueMembers(Contents()) ==> r == Position(Contents(), e) + 1
    {
      UpToDownClosed(e);
      LeadBound(UpTo(e));
      r := RankDescent(e, Lead(Contents(), UpTo(e)));
      if e in Contents() && UniqueMembers(Contents()) {
        RankPinned(Contents(), e, r);
      }
    }

    /** The node at 1-based rank; the header for rank 0. */
    method ByRank(rank: int) returns (node: Node?)
      requires Valid()
      ensures node == if 0 <= rank <= length then t.nodes[rank] else null
    {
      ghost var k := if rank <= 0 then 0 else if rank <= length then rank else length;
      var x, r: nat, i := header, 0, level;
      while i > 0
        invariant 0 <= i <= level && r <= k && x == t.nodes[r] && t.heights[r] >= i
        invariant i == 0 ==> r == k && k != rank
      {
        i := i - 1;
        x, r := AdvanceTo(x, r, i, rank, k);
        NextTallSpec(t.heights, r, i);
        if r == rank {
          return x;
        }
      }
      return null;
    }

    /** One level of by_rank: walk right while that does not pass the rank. */
    method AdvanceTo(x: Node, r: nat, i: nat, rank: int, ghost k: nat) returns (y: Node, s: nat)
      requires t.Shape(level) && t.Linked(level) && Holds(t)
      requires k < |t.nodes| && k == (if rank <= 0 then 0 else if rank < |t.nodes| then rank else |t.nodes| - 1)
      requires i < level && r <= k && x == t.nodes[r] && t.heights[r] > i
      ensures r <= s && OnPath(t.heights, s, i, k) && y == t.nodes[s]
    {
      y, s := x, r;
      var nxt := y.forward[i];
      assert t.HopOk(level, s, i);
      while nxt != null && s + y.span[i] <= rank
        invariant r <= s <= k && y == t.nodes[s] && t.heights[s] > i && t.HopOk(level, s, i)
        invariant nxt == y.forward[i]
        decreases k - s
      {
        NextTallSpec(t.heights, s, i);
        s := s + y.span[i];
        y := nxt;
        nxt := y.forward[i];
        assert t.HopOk(level, s, i);
      }
    }

    /** A cheap test that is only allowed to say no when nothing is in range. */
    method RangeMayOverlap(range: ScoreRange) returns (b: bool)
      requires Valid()
      ensures !b ==> RangeStart(Contents(), range) >= RangeEnd(Contents(), range)
    {
      RangeIsSlice(Contents(), range);
      Level0(t, level, 0);
      if ScoreLess(range.hi, range.lo) || (range.lo == range.hi && (range.loEx || range.hiEx)) {
        EmptyRange(Contents(), range);
        return false;
      }
      var first, last := header.forward[0], tail;
      if first == null || last == null {
        return false;
      }
      assert first.elem == Contents()[0] && last.elem == Contents()[length - 1];
      b := GteMin(last.elem.score, range.lo, range.loEx) && LteMax(first.elem.score, range.hi, range.hiEx);
    }

    /** The first node with a score in range. */
    method FirstInRange(range: ScoreRange) returns (node: Node?)
      requires Valid()
      ensures var lo, hi := RangeStart(Contents(), range), RangeEnd(Contents(), range);
              node == if lo < hi <= length then t.nodes[lo + 1] else null
    {
      RangeIsSlice(Contents(), range);
      var overlap := RangeMayOverlap(range);
      if !overlap {
        return null;
      }
      RangeDownClosed(range);
      var x, k := Descend(BelowRange(range));
      Level0(t, level, k);
      var candidate := x.forward[0];
      assert candidate != null ==> candidate.elem == Contents()[k];
      if candidate == null || !LteMax(candidate.elem.score, range.hi, range.hiEx) {
        return null;
      }
      return candidate;
    }

    /** The last node with a score in range. */
    method LastInRange(range: ScoreRange) returns (node: Node?)
      requires Valid()
      ensures var lo, hi := RangeStart(Contents(), range), RangeEnd(Contents(), range);
              node == if lo < hi <= length then t.nodes[hi] else null
    {
      RangeIsSlice(Contents(), range);
      var overlap := RangeMayOverlap(range);
      if !overlap {
        return null;
      }
      RangeDownClosed(range);
      var x, k := Descend(UpToTop(range));
      assert k > 0 ==> x.elem == Contents()[k - 1];
      if x == header || !GteMin(x.elem.score, range.lo, range.loEx) {
        return null;
      }
      return x;
    }
  }
}
