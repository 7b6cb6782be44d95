/**
 Runs of a cluster from its start that show why the replication results have their
 conditions: each reaches a state in which one condition fails, and the result with it.
 */
module ReplicationRuns {
  import opened Wrappers
  import opened Replication

  // ----------------------------------------------------------- nodes and links

  /** A node that has streamed this much, all of it still in the backlog. */
  function Streaming(id: Id, data: Trace): Node {
    Node(Primary, true, id, None, -1, Window(data, 0, |data|), data, data, true, data, [])
  }

  /** A node just after a full resync. */
  function Synced(id: Id, data: Trace): Node {
    Node(Replica, false, id, None, -1, Window([], |data|, |data|), data, data, true, data, [])
  }

  function FullLink(p: nat, m: Node): Link {
    Link(p, m.replid, true, m.Offset(), Handled, m.Offset(), [], true, true, m.Offset(), false)
  }

  /** What a full resync makes of a replica. */
  function Resynced(n: Node, m: Node): Node {
    n.(replid := m.replid, replid2 := None, second := -1, backlog := Window([], m.Offset(), m.Offset()),
       memory := m.memory, files := m.memory, trace := m.trace, trunk := [])
  }

  // -------------------------------------------------------------- single steps

  lemma Boots(c: Cluster, x: nat, id: Id, role: Role)
    requires c.links == map[] && id !in c.lines
    ensures Next(c, RestartStep(x, id, [], role)) ==
      Cluster(c.nodes[x := Loaded(role, id, [])], map[], c.lines[id := []], c.shift[id := 0], c.capacity)
  {
    assert CloseAll(c, x).links - {x} == map[];
  }

  /** A replica is given a copy. */
  lemma Asks(c: Cluster, x: nat, p: nat)
    requires c.links == map[] && x != p && x in c.nodes && p in c.nodes
    requires c.nodes[x].role.Replica? && c.nodes[p].role.Primary? && !Continues(c, x, p)
    ensures Next(c, ConnectStep(x, p)) ==
      c.(nodes := c.nodes[p := c.nodes[p].(active := true)],
         links := map[x := Asked(p, c.nodes[x], c.nodes[p], false)])
  {
    Replication.Asks(c, x, p);
  }

  lemma Breaks(c: Cluster, x: nat, k: Link)
    requires c.links == map[x := k]
    ensures Next(c, BreakStep(x)) == c.(links := map[])
  {
    assert c.links - {x} == map[];
  }

  lemma Writes(c: Cluster, p: nat, id: Id, data: Trace)
    requires p in c.nodes && c.nodes[p] == Loaded(Primary, id, []).(active := true) && |data| <= c.capacity
    requires id in c.lines && c.lines[id] == [] && id in c.shift
    ensures Next(c, WriteStep(p, data)) ==
      c.(nodes := c.nodes[p := Streaming(id, data)], lines := c.lines[id := data])
  {
    assert [] + data == data;
  }

  lemma Handles(c: Cluster, x: nat, p: nat, n: Node, m: Node)
    requires x in c.nodes && c.nodes[x] == n && n.writable
    requires var k := Asked(p, n, m, false); c.links == map[x := k.(online := true, ack := k.start)]
    ensures Next(c, AcceptStep(x)) ==
      c.(nodes := c.nodes[x := Resynced(n, m)], links := map[x := FullLink(p, m)])
  {
  }

  // --------------------------------------------------------------------- parts

  lemma BootsTwo(origin: Cluster, before: seq<Step>, b: Cluster, p: nat, x: nat, i: Id, j: Id)
    returns (steps: seq<Step>, c: Cluster)
    requires Reaches(origin, before, b) && b.links == map[] && p != x && i !in b.lines && j !in b.lines && i != j
    ensures Reaches(origin, steps, c)
    ensures c == Cluster(b.nodes[p := Loaded(Primary, i, [])][x := Loaded(Replica, j, [])], map[],
                         b.lines[i := []][j := []], b.shift[i := 0][j := 0], b.capacity)
  {
    var s0, s1 := RestartStep(p, i, [], Primary), RestartStep(x, j, [], Replica);
    Boots(b, p, i, Primary);
    ReachesNext(origin, before, b, s0);
    Boots(Next(b, s0), x, j, Replica);
    ReachesNext(origin, before + [s0], Next(b, s0), s1);
    steps, c := before + [s0] + [s1], Next(Next(b, s0), s1);
  }

  /** A replica asks once, and the primary streams from then on. */
  lemma WakesUp(origin: Cluster, before: seq<Step>, b: Cluster, p: nat, x: nat, i: Id, j: Id)
    returns (steps: seq<Step>, c: Cluster)
    requires Reaches(origin, before, b) && b.links == map[] && x != p && x in b.nodes && p in b.nodes
    requires b.nodes[x] == Loaded(Replica, j, []) && b.nodes[p] == Loaded(Primary, i, [])
    ensures Reaches(origin, steps, c) && c == b.(nodes := b.nodes[p := Loaded(Primary, i, []).(active := true)])
  {
    var s0, s1 := ConnectStep(x, p), BreakStep(x);
    Asks(b, x, p);
    ReachesNext(origin, before, b, s0);
    Breaks(Next(b, s0), x, Asked(p, b.nodes[x], b.nodes[p], false));
    ReachesNext(origin, before + [s0], Next(b, s0), s1);
    steps, c := before + [s0] + [s1], Next(Next(b, s0), s1);
  }

  /** A primary with a replica that is to ask it, and a write streamed since. */
  function Serving(b: Cluster, p: nat, x: nat, i: Id, j: Id, data: Trace): Cluster {
    Cluster(b.nodes[p := Streaming(i, data)][x := Loaded(Replica, j, [])], map[], b.lines[i := data][j := []],
            b.shift[i := 0][j := 0], b.capacity)
  }

  lemma Rearranged<K, V>(m: map<K, V>, p: K, x: K, v: V, w: V, v': V)
    requires p != x
    ensures m[p := v][x := w][p := v'] == m[p := v'][x := w]
  {
  }

  lemma ServesWrite(b: Cluster, c: Cluster, p: nat, x: nat, i: Id, j: Id, data: Trace)
    requires p != x && i != j && |data| <= b.capacity
    requires c == Cluster(b.nodes[p := Loaded(Primary, i, [])][x := Loaded(Replica, j, [])]
                          [p := Loaded(Primary, i, []).(active := true)], map[], b.lines[i := []][j := []],
                          b.shift[i := 0][j := 0], b.capacity)
    ensures Next(c, WriteStep(p, data)) == Serving(b, p, x, i, j, data)
  {
    Writes(c, p, i, data);
    var blank, awake := Loaded(Primary, i, []), Loaded(Primary, i, []).(active := true);
    Rearranged(b.nodes, p, x, blank, Loaded(Replica, j, []), awake);
    Rearranged(b.nodes, p, x, awake, Loaded(Replica, j, []), Streaming(i, data));
    Rearranged(b.lines, i, j, [], [], data);
  }

  lemma Served(origin: Cluster, before: seq<Step>, b: Cluster, p: nat, x: nat, i: Id, j: Id, data: Trace)
    returns (steps: seq<Step>, c: Cluster)
    requires Reaches(origin, before, b) && b.links == map[] && |data| <= b.capacity && p != x
    requires i !in b.lines && j !in b.lines && i != j
    ensures Reaches(origin, steps, c) && c == Serving(b, p, x, i, j, data)
  {
    var first, c1 := BootsTwo(origin, before, b, p, x, i, j);
    var second, c2 := WakesUp(origin, first, c1, p, x, i, j);
    ServesWrite(b, c2, p, x, i, j, data);
    ReachesNext(origin, second, c2, WriteStep(p, data));
    steps, c := second + [WriteStep(p, data)], Next(c2, WriteStep(p, data));
  }

  /** A full resync, up to the answer being handled. */
  lemma Joins(origin: Cluster, before: seq<Step>, b: Cluster, x: nat, p: nat) returns (steps: seq<Step>, c: Cluster)
    requires Reaches(origin, before, b) && b.links == map[] && x != p && x in b.nodes && p in b.nodes
    requires b.nodes[x].role.Replica? && b.nodes[p].role.Primary? && b.nodes[p].active && !Continues(b, x, p)
    requires b.nodes[x].writable
    ensures Reaches(origin, steps, c)
    ensures c == b.(nodes := b.nodes[x := Resynced(b.nodes[x], b.nodes[p])], links := map[x := FullLink(p, b.nodes[p])])
  {
    var s0, s1, s2 := ConnectStep(x, p), OnlineStep(x), AcceptStep(x);
    var n, m := b.nodes[x], b.nodes[p];
    Asks(b, x, p);
    assert b.nodes[p := m.(active := true)] == b.nodes;
    var c0 := Next(b, s0);
    ReachesNext(origin, before, b, s0);
    ThenOnline(c0, x, Asked(p, n, m, false));
    var c1 := Next(c0, s1);
    ReachesNext(origin, before + [s0], c0, s1);
    Handles(c1, x, p, n, m);
    ReachesNext(origin, before + [s0] + [s1], c1, s2);
    steps, c := before + [s0] + [s1] + [s2], Next(c1, s2);
  }

  // -------------------------------------------------------------- acknowledged

  /** A run in which a replica is counted as having a write before it has loaded the copy that holds it. */
  lemma AssumedAck(capacity: nat) returns (steps: seq<Step>, c: Cluster)
    requires capacity > 0
    ensures Reaches(Start(capacity), steps, c) && Good(c) && Right(c, 1)
    ensures 1 in AckedBy(c, 0, 1) && c.links[1].full && !c.links[1].reported && !HoldsUpTo(c, 1, 0, 1)
  {
    var origin, none: seq<Step> := Start(capacity), [];
    var before, b := Served(origin, none, origin, 0, 1, 0, 1, [9]);
    var s1, s2 := ConnectStep(1, 0), OnlineStep(1);
    Asks(b, 1, 0);
    ReachesNext(origin, before, b, s1);
    ThenOnline(Next(b, s1), 1, Asked(0, b.nodes[1], b.nodes[0], false));
    ReachesNext(origin, before + [s1], Next(b, s1), s2);
    steps := before + [s1] + [s2];
    c := Next(Next(b, s1), s2);
    RunGood(origin, steps);
    assert c.lines[0][..1] == [9] && c.lines[1][..0] == [];
  }

  /** A primary with one write and a replica of it, which has the write and has said so. */
  function Acknowledged(capacity: nat): Cluster {
    Cluster(map[0 := Streaming(0, [9]), 1 := Synced(0, [9])],
            map[1 := Link(0, 0, true, 1, Handled, 1, [], true, true, 1, true)],
            map[0 := [9], 1 := []], map[0 := 0, 1 := 0], capacity)
  }

  lemma Reported(capacity: nat) returns (steps: seq<Step>)
    requires capacity >= 2
    ensures Reaches(Start(capacity), steps, Acknowledged(capacity)) && Good(Acknowledged(capacity))
  {
    var origin, none: seq<Step> := Start(capacity), [];
    var s0, c0 := Served(origin, none, origin, 0, 1, 0, 1, [9]);
    var s1, c1 := Joins(origin, s0, c0, 1, 0);
    SyncedIs(c0, c1);
    Acks(capacity, c1);
    ReachesNext(origin, s1, c1, AckStep(1, 1));
    steps := s1 + [AckStep(1, 1)];
    RunGood(origin, steps);
  }

  lemma SyncedIs(b: Cluster, c: Cluster)
    requires b == Serving(Start(b.capacity), 0, 1, 0, 1, [9])
    requires c == b.(nodes := b.nodes[1 := Resynced(b.nodes[1], b.nodes[0])],
                     links := map[1 := FullLink(0, b.nodes[0])])
    ensures c == Cluster(map[0 := Streaming(0, [9]), 1 := Synced(0, [9])], map[1 := FullLink(0, Streaming(0, [9]))],
                         map[0 := [9], 1 := []], map[0 := 0, 1 := 0], b.capacity)
  {
    assert Resynced(b.nodes[1], b.nodes[0]) == Synced(0, [9]);
  }

  lemma Acks(capacity: nat, c: Cluster)
    requires c == Acknowledged(capacity).(links := map[1 := FullLink(0, Streaming(0, [9]))])
    ensures Next(c, AckStep(1, 1)) == Acknowledged(capacity)
  {
  }

  /** The same, with the link gone. */
  function Alone(capacity: nat): Cluster {
    Acknowledged(capacity).(links := map[])
  }

  lemma LeavesIt(capacity: nat)
    ensures Reaches(Acknowledged(capacity), [BreakStep(1)], Alone(capacity))
  {
    var none: seq<Step> := [];
    var c := Acknowledged(capacity);
    Breaks(c, 1, c.links[1]);
    ReachesNext(c, none, c, BreakStep(1));
    assert none + [BreakStep(1)] == [BreakStep(1)];
  }

  // ------------------------------------------------------------- other history

  /**
   A run in which a replica reports that it holds a write, and a candidate on another history has a
   higher offset and lacks it.
   */
  lemma OtherHistoryWins(capacity: nat) returns (steps: seq<Step>, c: Cluster, more: seq<Step>, d: Cluster)
    requires capacity >= 2
    ensures Reaches(Start(capacity), steps, c) && Good(c)
    ensures 1 in AckedBy(c, 0, 1) && c.links[1].reported && c.links[1].replid == 0
    ensures Reaches(c, more, d) && On(d, 1, 0) && 3 in d.nodes && d.nodes[1].Offset() < d.nodes[3].Offset()
    ensures HoldsUpTo(d, 1, 0, 1) && !HoldsUpTo(d, 3, 0, 1)
  {
    steps := Reported(capacity);
    c := Acknowledged(capacity);
    LeavesIt(capacity);
    var s2, c2 := Served(c, [BreakStep(1)], Alone(capacity), 2, 3, 2, 3, [7, 7]);
    more, d := Joins(c, s2, c2, 3, 2);
    assert d.lines[0] == [9] && d.lines[0][..1] == [9] && [9][0] != [7, 7][0];
  }

  // ---------------------------------------------------------- left and returned

  /** A primary that was promoted after the first write of another's history, and a replica of it. */
  function Promoted(capacity: nat): Cluster {
    Cluster(map[0 := Streaming(0, [9]), 1 := Synced(0, [9]).Fork(2), 2 := Loaded(Replica, 3, [])], map[],
            map[0 := [9], 1 := [], 2 := [9], 3 := []], map[0 := 0, 1 := 0, 2 := 0, 3 := 0], capacity)
  }

  lemma Forks(capacity: nat)
    ensures Next(Acknowledged(capacity), PromoteStep(1, 2)) ==
      Cluster(map[0 := Streaming(0, [9]), 1 := Synced(0, [9]).Fork(2)], map[], map[0 := [9], 1 := [], 2 := [9]],
              map[0 := 0, 1 := 0, 2 := 0], capacity)
  {
    var c := Next(Acknowledged(capacity), PromoteStep(1, 2));
    assert c.links == map[];
    assert c.lines == map[0 := [9], 1 := [], 2 := [9]];
  }

  lemma Forked(capacity: nat) returns (steps: seq<Step>)
    requires capacity >= 2
    ensures Reaches(Start(capacity), steps, Promoted(capacity))
  {
    var origin := Start(capacity);
    var s0 := Reported(capacity);
    var promote, boot := PromoteStep(1, 2), RestartStep(2, 3, [], Replica);
    ReachesNext(origin, s0, Acknowledged(capacity), promote);
    Forks(capacity);
    var c1 := Next(Acknowledged(capacity), promote);
    ReachesNext(origin, s0 + [promote], c1, boot);
    Boots(c1, 2, 3, Replica);
    steps := s0 + [promote] + [boot];
    assert Next(c1, boot) == Promoted(capacity);
  }

  /** A node of the promoted node's history, with both of its writes. */
  function Second(role: Role, active: bool, second: Option<Id>, at: int, trunk: Trace): Node {
    Node(role, active, 2, second, at, Window([8], 1, 2), [9, 8], [9, 8], true, [9, 8], trunk)
  }

  lemma WritesAgain(b: Cluster)
    requires b.capacity >= 2 && 1 in b.nodes && b.nodes[1] == Synced(0, [9]).Fork(2)
    requires 2 in b.lines && b.lines[2] == [9] && 2 in b.shift
    ensures Next(b, WriteStep(1, [8])) ==
      b.(nodes := b.nodes[1 := Second(Primary, true, Some(0), 1, [9])], lines := b.lines[2 := [9, 8]])
  {
    assert [] + [8] == [8] && [9] + [8] == [9, 8];
  }

  lemma SendsIt(b: Cluster, k: Link)
    requires 1 in b.nodes && b.nodes[1] == Second(Primary, true, Some(0), 1, [9]) && b.links == map[2 := k]
    requires k.open && k.online && k.primary == 1 && k.sent == 1 && k.inflight == []
    ensures Next(b, SendStep(2)) == b.(links := map[2 := k.(sent := 2, inflight := [8])])
  {
    assert [8][0..] == [8] && [] + [8] == [8];
  }

  lemma AppliesIt(b: Cluster, k: Link)
    requires b.capacity >= 2 && 2 in b.nodes && b.nodes[2] == Synced(2, [9]) && b.links == map[2 := k]
    requires k.reply.Handled? && k.inflight == [8]
    ensures Next(b, ApplyStep(2, 1)) ==
      b.(nodes := b.nodes[2 := Second(Replica, false, None, -1, [])], links := map[2 := k.(inflight := [])])
  {
    assert [8][..1] == [8] && [8][1..] == [] && [9] + [8] == [9, 8] && [] + [8] == [8];
  }

  lemma ReportsIt(b: Cluster, k: Link)
    requires 2 in b.nodes && b.nodes[2] == Second(Replica, false, None, -1, []) && b.links == map[2 := k]
    requires k.reply.Handled? && k.open && k.online && k.ack <= 2
    ensures Next(b, AckStep(2, 2)) == b.(links := map[2 := k.(ack := 2, reported := true)])
  {
  }

  /** The replica has both writes of the promoted node's history and has reported them. */
  function Both(capacity: nat): Cluster {
    Cluster(map[0 := Streaming(0, [9]), 1 := Second(Primary, true, Some(0), 1, [9]),
                2 := Second(Replica, false, None, -1, [])],
            map[2 := Link(1, 2, true, 1, Handled, 2, [], true, true, 2, true)],
            map[0 := [9], 1 := [], 2 := [9, 8], 3 := []], map[0 := 0, 1 := 0, 2 := 0, 3 := 0], capacity)
  }

  lemma Streams(origin: Cluster, before: seq<Step>, b: Cluster) returns (steps: seq<Step>, c: Cluster)
    requires Reaches(origin, before, b) && b.capacity >= 2 && 1 in b.nodes && b.nodes[1] == Synced(0, [9]).Fork(2)
    requires 2 in b.lines && b.lines[2] == [9] && 2 in b.shift && 2 in b.nodes && b.nodes[2] == Synced(2, [9])
    requires b.links == map[2 := FullLink(1, b.nodes[1])]
    ensures Reaches(origin, steps, c)
    ensures c == b.(nodes := b.nodes[1 := Second(Primary, true, Some(0), 1, [9])],
                    lines := b.lines[2 := [9, 8]],
                    links := map[2 := FullLink(1, b.nodes[1]).(sent := 2, inflight := [8])])
  {
    var w, send := WriteStep(1, [8]), SendStep(2);
    WritesAgain(b);
    ReachesNext(origin, before, b, w);
    SendsIt(Next(b, w), FullLink(1, b.nodes[1]));
    ReachesNext(origin, before + [w], Next(b, w), send);
    steps, c := before + [w] + [send], Next(Next(b, w), send);
  }

  lemma Confirms(origin: Cluster, before: seq<Step>, b: Cluster, k: Link) returns (steps: seq<Step>, c: Cluster)
    requires Reaches(origin, before, b) && b.capacity >= 2 && 2 in b.nodes && b.nodes[2] == Synced(2, [9])
    requires b.links == map[2 := k] && k.reply.Handled? && k.open && k.online && k.ack <= 2 && k.inflight == [8]
    ensures Reaches(origin, steps, c)
    ensures c == b.(nodes := b.nodes[2 := Second(Replica, false, None, -1, [])],
                    links := map[2 := k.(inflight := [], ack := 2, reported := true)])
  {
    var apply, ack := ApplyStep(2, 1), AckStep(2, 2);
    AppliesIt(b, k);
    ReachesNext(origin, before, b, apply);
    ReportsIt(Next(b, apply), k.(inflight := []));
    ReachesNext(origin, before + [apply], Next(b, apply), ack);
    steps, c := before + [apply] + [ack], Next(Next(b, apply), ack);
  }

  /** The promoted node's replica has loaded its copy; and then the promoted node has sent it one more write. */
  function Linked(capacity: nat): Cluster {
    var c := Promoted(capacity);
    c.(nodes := c.nodes[2 := Synced(2, [9])], links := map[2 := FullLink(1, c.nodes[1])])
  }

  function Sent(capacity: nat): Cluster {
    var c := Linked(capacity);
    c.(nodes := c.nodes[1 := Second(Primary, true, Some(0), 1, [9])], lines := c.lines[2 := [9, 8]],
       links := map[2 := FullLink(1, c.nodes[1]).(sent := 2, inflight := [8])])
  }

  lemma Links(capacity: nat) returns (steps: seq<Step>)
    requires capacity >= 2
    ensures Reaches(Start(capacity), steps, Linked(capacity))
  {
    var before := Forked(capacity);
    var c;
    steps, c := Joins(Start(capacity), before, Promoted(capacity), 2, 1);
    assert Resynced(Loaded(Replica, 3, []), Synced(0, [9]).Fork(2)) == Synced(2, [9]);
  }

  lemma SendsMore(capacity: nat) returns (steps: seq<Step>)
    requires capacity >= 2
    ensures Reaches(Start(capacity), steps, Sent(capacity))
  {
    var before := Links(capacity);
    var c;
    steps, c := Streams(Start(capacity), before, Linked(capacity));
  }

  lemma ReportedTwo(capacity: nat) returns (steps: seq<Step>)
    requires capacity >= 2
    ensures Reaches(Start(capacity), steps, Both(capacity))
  {
    var before := SendsMore(capacity);
    var c;
    steps, c := Confirms(Start(capacity), before, Sent(capacity), Sent(capacity).links[2]);
    BothIs(capacity);
  }

  lemma BothIs(capacity: nat)
    ensures var c := Sent(capacity);
      Both(capacity) == c.(nodes := c.nodes[2 := Second(Replica, false, None, -1, [])],
                           links := map[2 := c.links[2].(inflight := [], ack := 2, reported := true)])
  {
    var c := Sent(capacity);
    assert Both(capacity).nodes == c.nodes[2 := Second(Replica, false, None, -1, [])];
    assert Both(capacity).lines == c.lines;
  }

  lemma LetContinue(b: Cluster, k: Link)
    requires b.links == map[] && 1 in b.nodes && 2 in b.nodes && b.nodes[1] == Second(Primary, true, Some(0), 1, [9])
    requires b.nodes[2] == Synced(0, [9])
    requires k == Asked(1, b.nodes[2], b.nodes[1], true)
    ensures Next(b, ConnectStep(2, 1)) == b.(links := map[2 := k])
  {
    Replication.Asks(b, 2, 1);
  }

  lemma Resumes(b: Cluster, k: Link)
    requires 2 in b.nodes && b.nodes[2] == Synced(0, [9]) && b.links == map[2 := k]
    requires k.reply.Continue? && k.replid == 2
    ensures Next(b, AcceptStep(2)).nodes ==
      b.nodes[2 := b.nodes[2].(replid := 2, replid2 := Some(0), second := 1, trunk := [9])]
    ensures Next(b, AcceptStep(2)).lines == b.lines && Next(b, AcceptStep(2)).shift == b.shift
  {
  }

  /**
   Being on the history at the end is not enough: a replica that leaves it for one it forked from, and
   is let continue from there, is on the history again without the write it had reported.
   */
  lemma LeftAndReturned(capacity: nat) returns (steps: seq<Step>, c: Cluster, more: seq<Step>, d: Cluster)
    requires capacity >= 2
    ensures Reaches(Start(capacity), steps, c) && Good(c) && 2 in AckedBy(c, 1, 2) && c.links[2].reported &&
      c.links[2].replid == 2
    ensures Reaches(c, more, d) && On(d, 2, 2) && !HoldsUpTo(d, 2, 2, 2) && !Claims(d, 2, 2, 2)
  {
    steps := ReportedTwo(capacity);
    c := Both(capacity);
    RunGood(Start(capacity), steps);
    var none: seq<Step> := [];
    Breaks(c, 2, c.links[2]);
    ReachesNext(c, none, c, BreakStep(2));
    var s1, c1 := Joins(c, none + [BreakStep(2)], Next(c, BreakStep(2)), 2, 0);
    assert c1.nodes[2] == Synced(0, [9]);
    more, d := Returns(c, s1, c1);
  }

  lemma Returns(origin: Cluster, before: seq<Step>, b: Cluster) returns (steps: seq<Step>, d: Cluster)
    requires Reaches(origin, before, b) && 1 in b.nodes && 2 in b.nodes && b.nodes[2] == Synced(0, [9])
    requires b.nodes[1] == Second(Primary, true, Some(0), 1, [9]) && 0 in b.nodes
    requires b.links == map[2 := FullLink(0, b.nodes[0])] && 2 in b.lines && b.lines[2] == [9, 8]
    requires 2 in b.shift && b.shift[2] == 0
    ensures Reaches(origin, steps, d) && On(d, 2, 2) && !HoldsUpTo(d, 2, 2, 2) && !Claims(d, 2, 2, 2)
  {
    var s0, s1, s2 := BreakStep(2), ConnectStep(2, 1), AcceptStep(2);
    ReachesNext(origin, before, b, s0);
    Breaks(b, 2, b.links[2]);
    var c0 := Next(b, s0);
    ReachesNext(origin, before + [s0], c0, s1);
    var k := Asked(1, c0.nodes[2], c0.nodes[1], true);
    LetContinue(c0, k);
    var c1 := Next(c0, s1);
    ReachesNext(origin, before + [s0] + [s1], c1, s2);
    Resumes(c1, k);
    steps, d := before + [s0] + [s1] + [s2], Next(c1, s2);
    assert d.nodes[2].memory == [9] && d.nodes[2].trace == [9] && |d.lines[2][..2]| == 2;
  }

  // -------------------------------------------------------------- a failed load

  /** Another primary, with nothing in it. */
  function Empty(capacity: nat): Cluster {
    var c := Alone(capacity);
    Cluster(c.nodes[2 := Loaded(Primary, 2, [])], map[], c.lines[2 := []], c.shift[2 := 0], capacity)
  }

  /** The replica was given a copy of that, and failed to load or to save it. */
  function Spoilt(capacity: nat): Cluster {
    var c := Empty(capacity);
    c.(nodes := c.nodes[2 := Loaded(Primary, 2, []).(active := true)][1 := Synced(0, [9]).(memory := [])])
  }

  lemma Spoils(b: Cluster, x: nat, k: Link, why: Failure)
    requires x in b.nodes && b.links == map[x := k] && k.reply.Full? && k.reply.copy == []
    ensures Next(b, LoadFailsStep(x, why)) == b.(nodes := b.nodes[x := b.nodes[x].(memory := [])], links := map[])
  {
    assert b.links - {x} == map[];
  }

  lemma Misled(capacity: nat, why: Failure) returns (more: seq<Step>)
    ensures Reaches(Acknowledged(capacity), more, Spoilt(capacity))
    ensures more == [BreakStep(1), RestartStep(2, 2, [], Primary), ConnectStep(1, 2), LoadFailsStep(1, why)]
  {
    var c := Acknowledged(capacity);
    var s1, s2, s3 := RestartStep(2, 2, [], Primary), ConnectStep(1, 2), LoadFailsStep(1, why);
    LeavesIt(capacity);
    Boots(Alone(capacity), 2, 2, Primary);
    ReachesNext(c, [BreakStep(1)], Alone(capacity), s1);
    var b := Empty(capacity);
    Asks(b, 1, 2);
    ReachesNext(c, [BreakStep(1)] + [s1], b, s2);
    Spoils(Next(b, s2), 1, Asked(2, b.nodes[1], b.nodes[2], false), why);
    ReachesNext(c, [BreakStep(1)] + [s1] + [s2], Next(b, s2), s3);
    more := [BreakStep(1)] + [s1] + [s2] + [s3];
    assert Next(Next(b, s2), s3).nodes == Spoilt(capacity).nodes;
  }

  /**
   A run in which a replica reports that it holds a write and then fails to load, or to save, the copy
   another primary gives it. It stays at its place in the first primary's history, which lets it
   continue from there; but it does not hold the write, and its files do not rebuild what it holds.
   */
  lemma LoadFailed(capacity: nat, why: Failure)
    returns (steps: seq<Step>, c: Cluster, more: seq<Step>, d: Cluster)
    requires capacity >= 2
    ensures Reaches(Start(capacity), steps, c) && Good(c) && 1 in AckedBy(c, 0, 1) && c.links[1].reported
    ensures c.links[1].replid == 0 && HoldsUpTo(c, 1, 0, 1)
    ensures Reaches(c, more, d) && Good(d) && Stays(c, more, 1, 0, 0) && Claims(d, 1, 0, 1)
    ensures 0 in d.nodes && d.nodes[0].CanContinue(0, d.nodes[1].Offset()) && Right(d, 0)
    ensures !Right(d, 1) && !HoldsUpTo(d, 1, 0, 1) && d.nodes[1].files != d.nodes[1].memory
  {
    steps := Reported(capacity);
    c := Acknowledged(capacity);
    more := Misled(capacity, why);
    d := Spoilt(capacity);
    RunGood(c, more);
    assert c.lines[0][..1] == [9] && d.lines[0][..1] == [9];
    StaysOn(capacity, more, why);
  }

  lemma StaysOn(capacity: nat, more: seq<Step>, why: Failure)
    requires more == [BreakStep(1), RestartStep(2, 2, [], Primary), ConnectStep(1, 2), LoadFailsStep(1, why)]
    ensures Stays(Acknowledged(capacity), more, 1, 0, 0)
  {
    var c := Acknowledged(capacity);
    forall j | 0 <= j <= |more|
      ensures On(Run(c, more[..j]), 1, 0)
    {
      StaysTo(c, more, j);
    }
  }

  lemma {:induction false} StaysTo(c: Cluster, more: seq<Step>, j: nat)
    requires On(c, 1, 0) && j <= |more|
    requires forall s :: s in more ==>
      s.BreakStep? || (s.RestartStep? && s.x != 1) || s.ConnectStep? || s.LoadFailsStep?
    ensures On(Run(c, more[..j]), 1, 0)
  {
    if j > 0 {
      StaysTo(c, more, j - 1);
      RunPrefix(c, more, j);
      StaysStep(Run(c, more[..j - 1]), more[j - 1]);
    }
  }

  lemma StaysStep(b: Cluster, s: Step)
    requires On(b, 1, 0) && (s.BreakStep? || (s.RestartStep? && s.x != 1) || s.ConnectStep? || s.LoadFailsStep?)
    ensures On(Next(b, s), 1, 0)
  {
  }
}
