/**
 Consistent hashing with virtual nodes. Hashes are any function, so points may
 collide: a point belongs to the node that claimed it first.
 */
module HashRing {
  import opened Sequences
  import opened Wrappers

  type Node = string
  type Point = nat

  // -------------------------------------------------------------- hash tags

  function Find(s: string, c: char, i: nat): Option<nat>
    decreases |s| - i
  {
    if i >= |s| then None else if s[i] == c then Some(i) else Find(s, c, i + 1)
  }

  lemma {:induction false} FindFirst(s: string, c: char, i: nat, at: nat)
    requires i <= at < |s| && s[at] == c && forall k :: i <= k < at ==> s[k] != c
    ensures Find(s, c, i) == Some(at)
    decreases at - i
  {
    if i < at {
      FindFirst(s, c, i + 1, at);
    }
  }

  /** hash_slot_key: what is between the first brace and the next one that closes it, if anything. */
  function SlotKey(key: string): string {
    var start := Find(key, '{', 0);
    if start.None? then key
    else
      var end := Find(key, '}', start.value + 1);
      if end.Some? && start.value + 1 < end.value < |key| then key[start.value + 1..end.value] else key
  }

  /** Keys that share a tag share what is hashed, whatever surrounds it. */
  lemma TagDecides(before: string, tag: string, after: string)
    requires tag != "" && (forall i :: 0 <= i < |before| ==> before[i] != '{') && forall i :: 0 <= i < |tag| ==>
                           tag[i] != '}'
    ensures SlotKey(before + "{" + tag + "}" + after) == tag
  {
    var key := before + "{" + tag + "}" + after;
    var start, end := |before|, |before| + 1 + |tag|;
    assert key[start] == '{' && key[end] == '}';
    assert forall i :: 0 <= i < start ==> key[i] == before[i];
    assert forall i :: start < i < end ==> key[i] == tag[i - start - 1];
    FindFirst(key, '{', 0, start);
    FindFirst(key, '}', start + 1, end);
    assert key[start + 1..end] == tag;
  }

  // ------------------------------------------------------------------ points

  /** The point a hash belongs to: the first one clockwise, after it or else from the start. */
  ghost predicate Successor(points: set<Point>, hash: nat, p: Point) {
    && p in points
    && (if exists q :: q in points && q > hash then p > hash && forall q :: q in points && q > hash ==> p <= q
        else forall q :: q in points ==> p <= q)
  }

  /** The node that a hash belongs to. */
  ghost predicate Owns(owners: map<Point, Node>, hash: nat, node: Node) {
    exists p :: Successor(owners.Keys, hash, p) && owners[p] == node
  }

  lemma SuccessorUnique(points: set<Point>, hash: nat, p: Point, q: Point)
    requires Successor(points, hash, p) && Successor(points, hash, q)
    ensures p == q
  {
  }

  /** With more points, a hash keeps its point or gets one of the new ones. */
  lemma MorePoints(points: set<Point>, more: set<Point>, hash: nat, p: Point, q: Point)
    requires points <= more && Successor(points, hash, p) && Successor(more, hash, q)
    ensures q == p || q in more - points
  {
    if q in points {
      if exists r :: r in points && r > hash {
        var r :| r in points && r > hash;
        assert r in more;
      }
    }
  }

  /** bisect: how many points are at or before the hash. */
  method Bisect(points: seq<Point>, hash: nat) returns (idx: nat)
    requires Ascending(points)
    ensures idx <= |points|
    ensures forall i :: 0 <= i < idx ==> points[i] <= hash
    ensures forall i :: idx <= i < |points| ==> points[i] > hash
  {
    var lo, hi := 0, |points|;
    while lo < hi
      invariant 0 <= lo <= hi <= |points|
      invariant forall i :: 0 <= i < lo ==> points[i] <= hash
      invariant forall i :: hi <= i < |points| ==> points[i] > hash
    {
      var mid := (lo + hi) / 2;
      if hash < points[mid] {
        hi := mid;
      } else {
        lo := mid + 1;
      }
    }
    idx := lo;
  }

  /** insort, for a point that is not there. */
  method Insort(points: seq<Point>, p: Point) returns (r: seq<Point>)
    requires Ascending(points) && p !in points
    ensures Ascending(r) && ToSet(r) == ToSet(points) + {p}
  {
    var idx := Bisect(points, p);
    r := points[..idx] + [p] + points[idx..];
    forall x
      ensures x in r <==> x in points || x == p
    {
      assert points == points[..idx] + points[idx..];
    }
  }

  lemma LastOf(a: seq<Point>)
    requires Ascending(a) && a != []
    ensures var m := |a| - 1;
      a[m] in ToSet(a) && (forall p :: p in ToSet(a) ==> p <= a[m]) && ToSet(a[..m]) == ToSet(a) - {a[m]} &&
        Ascending(a[..m])
  {
    var m := |a| - 1;
    assert a == a[..m] + [a[m]];
    assert forall i :: 0 <= i < m ==> a[..m][i] == a[i] < a[m];
  }

  lemma NotEmpty(a: seq<Point>)
    ensures a == [] <==> ToSet(a) == {}
  {
    if a != [] {
      assert a[0] in ToSet(a);
    }
  }

  lemma {:induction false} AscendingUnique(a: seq<Point>, b: seq<Point>)
    requires Ascending(a) && Ascending(b) && ToSet(a) == ToSet(b)
    ensures a == b
  {
    NotEmpty(a);
    NotEmpty(b);
    if a != [] {
      LastOf(a);
      LastOf(b);
      var m, n := |a| - 1, |b| - 1;
      AscendingUnique(a[..m], b[..n]);
      assert a == a[..m] + [a[m]] && b == b[..n] + [b[n]];
    }
  }

  /** The points that belong to other nodes. */
  method OtherPoints(points: seq<Point>, owners: map<Point, Node>, node: Node) returns (kept: seq<Point>)
    requires Ascending(points) && ToSet(points) == owners.Keys
    ensures Ascending(kept) && forall p :: p in kept <==> p in owners && owners[p] != node
  {
    kept := [];
    for i := 0 to |points|
      invariant Ascending(kept) && forall p :: p in kept <==> p in points[..i] && p in owners && owners[p] != node
      invariant forall j :: 0 <= j < |kept| && i < |points| ==> kept[j] < points[i]
    {
      assert points[..i + 1] == points[..i] + [points[i]];
      assert points[i] in ToSet(points);
      if owners[points[i]] != node {
        kept := kept + [points[i]];
      }
    }
    assert points[..|points|] == points;
    assert forall p :: p in owners ==> p in ToSet(points);
  }

  // -------------------------------------------------------------------- ring

  /** The first n points of a node. */
  ghost function Claims(hash: (Node, nat) -> Point, node: Node, n: nat): set<Point> {
    if n == 0 then {} else Claims(hash, node, n - 1) + {hash(node, n - 1)}
  }

  class ConsistentHashRing {
    const virtualNodes: nat
    /** The i-th point of a node. */
    const hash: (Node, nat) -> Point
    var owners: map<Point, Node>
    var points: seq<Point>
    var nodes: set<Node>

    ghost predicate Valid()
      reads this
    {
      Ascending(points) && ToSet(points) == owners.Keys && forall p :: p in owners ==> owners[p] in nodes
    }

    constructor (virtualNodes: nat, hash: (Node, nat) -> Point)
      requires virtualNodes > 0
      ensures Valid() && nodes == {} && owners == map[] && this.virtualNodes == virtualNodes && this.hash == hash
    {
      this.virtualNodes, this.hash := virtualNodes, hash;
      owners, points, nodes := map[], [], {};
    }

    /** add_node: the node claims its points, except those that are taken. */
    method AddNode(node: Node) returns (added: bool)
      requires Valid()
      modifies this
      ensures Valid() && added == (node !in old(nodes))
      ensures !added ==> owners == old(owners) && nodes == old(nodes) && points == old(points)
      ensures added ==> nodes == old(nodes) + {node}
      ensures added ==> owners.Keys == old(owners).Keys + Claims(hash, node, virtualNodes)
      ensures added ==> forall p :: p in owners ==> owners[p] == if p in old(owners) then old(owners)[p] else node
    {
      if node in nodes {
        return false;
      }
      nodes := nodes + {node};
      for i := 0 to virtualNodes
        invariant Valid() && nodes == old(nodes) + {node}
        invariant owners.Keys == old(owners).Keys + Claims(hash, node, i)
        invariant forall p :: p in owners ==> owners[p] == if p in old(owners) then old(owners)[p] else node
      {
        var p := hash(node, i);
        if p !in owners {
          assert p !in ToSet(points);
          owners := owners[p := node];
          points := Insort(points, p);
        }
      }
      return true;
    }

    /** remove_node: its points go, the others stay. */
    method RemoveNode(node: Node) returns (removed: bool)
      requires Valid()
      modifies this
      ensures Valid() && removed == (node in old(nodes))
      ensures nodes == old(nodes) - {node}
      ensures forall p :: p in owners <==> p in old(owners) && (removed ==> old(owners)[p] != node)
      ensures forall p :: p in owners ==> owners[p] == old(owners)[p]
    {
      if node !in nodes {
        return false;
      }
      nodes := nodes - {node};
      points := OtherPoints(points, owners, node);
      owners := map p | p in owners && owners[p] != node :: owners[p];
      return true;
    }

    /** get_node: the owner of the first point clockwise. */
    method GetNode(h: nat) returns (node: Option<Node>)
      requires Valid()
      ensures node.None? <==> owners == map[]
      ensures node.Some? ==> forall n :: Owns(owners, h, n) <==> n == node.value
    {
      if points == [] {
        assert owners.Keys == {};
        return None;
      }
      var idx := Bisect(points, h);
      if idx == |points| {
        idx := 0;
      }
      var p := points[idx];
      assert p in ToSet(points);
      PointAt(points, h, idx);
      forall q | Successor(owners.Keys, h, q)
        ensures q == p
      {
        SuccessorUnique(owners.Keys, h, p, q);
      }
      return Some(owners[p]);
    }
  }

  lemma PointAt(points: seq<Point>, h: nat, idx: nat)
    requires Ascending(points) && idx < |points|
    requires (points[idx] > h && forall i :: 0 <= i < idx ==> points[i] <= h) ||
      (idx == 0 && forall i :: 0 <= i < |points| ==> points[i] <= h)
    ensures Successor(ToSet(points), h, points[idx])
  {
    assert points[idx] in ToSet(points);
    forall q | q in ToSet(points)
      ensures q > h ==> points[idx] <= q && points[idx] > h
      ensures (idx == 0 ==> points[idx] <= q)
    {
      var i :| 0 <= i < |points| && points[i] == q;
    }
  }

  // ----------------------------------------------------------------- movement

  /** Adding a node moves a key only to that node. */
  lemma AddMoves(before: map<Point, Node>, after: map<Point, Node>, node: Node, h: nat, a: Node, b: Node)
    requires before.Keys <= after.Keys && forall x :: x in after ==> after[x] == if x in before then before[x] else node
    requires Owns(before, h, a) && Owns(after, h, b)
    ensures b == a || b == node
  {
    var p :| Successor(before.Keys, h, p) && before[p] == a;
    var q :| Successor(after.Keys, h, q) && after[q] == b;
    MorePoints(before.Keys, after.Keys, h, p, q);
  }

  /** Removing a node moves only its own keys. */
  lemma RemoveMoves(before: map<Point, Node>, after: map<Point, Node>, node: Node, h: nat, a: Node, b: Node)
    requires forall x :: x in after <==> x in before && before[x] != node
    requires forall x :: x in after ==> after[x] == before[x]
    requires Owns(before, h, a) && Owns(after, h, b) && a != node
    ensures b == a
  {
    var p :| Successor(before.Keys, h, p) && before[p] == a;
    var q :| Successor(after.Keys, h, q) && after[q] == b;
    MorePoints(after.Keys, before.Keys, h, q, p);
  }

  /** Removing a node that was just added leaves the ring as it was, collisions or not. */
  method AddThenRemove(ring: ConsistentHashRing, node: Node)
    requires ring.Valid() && node !in ring.nodes
    modifies ring
    ensures ring.Valid() && ring.owners == old(ring.owners) && ring.points == old(ring.points) &&
      ring.nodes == old(ring.nodes)
  {
    var _ := ring.AddNode(node);
    var _ := ring.RemoveNode(node);
    assert ring.owners == old(ring.owners);
    AscendingUnique(ring.points, old(ring.points));
  }
}
