/**
 Replication: a bounded backlog of the stream, partial and full resyncs,
 promotions that start new histories, acknowledgements and the choice of a new
 primary. The stream is a sequence of items (bytes), and what a node holds is the
 sequence of items it stands for. A node's position is a history and an offset in
 it; whether it holds what its position names is a question of its own.
 */
module Replication {
  import opened Wrappers

  type Id = nat
  type Item = nat
  type Trace = seq<Item>

  // ---------------------------------------------------------------- backlog

  /** The last items of the stream, and the offsets of its two ends. */
  datatype Window = Window(items: Trace, start: nat, end: nat)
  {
    ghost predicate Ok(capacity: nat) {
      |items| == end - start && |items| <= capacity
    }

    function Append(data: Trace, capacity: nat): Window {
      var grown := items + data;
      var excess := |grown| - capacity;
      if excess > 0 then Window(grown[excess..], start + excess, end + |data|)
      else Window(grown, start, end + |data|)
    }

    predicate Contains(offset: int) {
      start <= offset <= end
    }

    function Since(offset: int): Option<Trace>
      requires |items| == end - start
    {
      if Contains(offset) then Some(items[offset - start..]) else None
    }
  }

  ghost predicate Suffix(s: Trace, t: Trace) {
    |s| <= |t| && t[|t| - |s|..] == s
  }

  /** The backlog stays the newest part of the stream, as much of it as fits. */
  lemma AppendKeeps(w: Window, trace: Trace, data: Trace, capacity: nat)
    requires w.Ok(capacity) && Suffix(w.items, trace)
    ensures w.Append(data, capacity).Ok(capacity) && Suffix(w.Append(data, capacity).items, trace + data)
    ensures w.Append(data, capacity).end == w.end + |data|
    ensures |w.items + data| >= capacity ==> |w.Append(data, capacity).items| == capacity
  {
    var grown := w.items + data;
    assert (trace + data)[|trace| - |w.items|..] == grown;
  }

  /** What since returns is exactly what comes after the offset. */
  lemma SinceIsRest(w: Window, trace: Trace, capacity: nat, offset: nat, shift: nat)
    requires w.Ok(capacity) && Suffix(w.items, trace) && |trace| == w.end + shift && w.Contains(offset)
    ensures offset + shift <= |trace| && w.Since(offset) == Some(trace[offset + shift..])
  {
  }

  class Backlog {
    const capacity: nat
    var buf: Trace
    var start: nat
    var end: nat
    /** Everything ever appended, and before that what the offsets count. */
    ghost var trace: Trace

    ghost predicate Valid()
      reads this
    {
      View().Ok(capacity) && Suffix(buf, trace) && end == |trace|
    }

    ghost function View(): Window
      reads this
    {
      Window(buf, start, end)
    }

    constructor (capacity: nat, offset: nat, ghost before: Trace)
      requires capacity > 0 && |before| == offset
      ensures Valid() && trace == before && this.capacity == capacity && View() == Window([], offset, offset)
    {
      this.capacity := capacity;
      buf, start, end := [], offset, offset;
      trace := before;
    }

    method Append(data: Trace)
      requires Valid()
      modifies this
      ensures Valid() && trace == old(trace) + data && View() == old(View()).Append(data, capacity)
    {
      AppendKeeps(View(), trace, data, capacity);
      buf := buf + data;
      end := end + |data|;
      var excess := |buf| - capacity;
      if excess > 0 {
        buf := buf[excess..];
        start := start + excess;
      }
      trace := trace + data;
    }

    method Since(offset: nat) returns (data: Option<Trace>)
      requires Valid()
      ensures data.Some? <==> start <= offset <= end
      ensures data.Some? ==> data.value == trace[offset..]
    {
      if !(start <= offset <= end) {
        return None;
      }
      SinceIsRest(View(), trace, capacity, offset, 0);
      return Some(buf[offset - start..]);
    }

    /** After a full resync: nothing before the offset is known. */
    method Reset(offset: nat, ghost before: Trace)
      requires |before| == offset
      modifies this
      ensures Valid() && trace == before && View() == Window([], offset, offset)
    {
      buf, start, end := [], offset, offset;
      trace := before;
    }
  }

  // ---------------------------------------------------------------- cluster

  datatype Role = Primary | Replica

  /**
   A node: its position (the names of its histories and its backlog), what it holds in memory, what its
   files would rebuild, and whether they can be written to. For the proofs also its trace, the history up to
   its position, and the trunk, the part of that shared with the second history.
   */
  datatype Node = Node(role: Role, active: bool, replid: Id, replid2: Option<Id>, second: int, backlog: Window,
                       memory: Trace, files: Trace, writable: bool, trace: Trace, trunk: Trace)
  {
    function Offset(): nat {
      backlog.end
    }

    /** can_continue: this history, or the one continued, from an offset still held. */
    predicate CanContinue(id: Id, offset: int) {
      (id == replid || (replid2 == Some(id) && offset <= second)) && backlog.Contains(offset)
    }

    /** What a replica asks to continue from, if it has a history to continue. */
    function Request(): Option<(Id, int)> {
      if Offset() > 0 || replid2.Some? then Some((replid, Offset())) else None
    }

    /** fork: a new history that starts as this one. */
    function Fork(id: Id): Node {
      this.(role := Primary, active := true, replid := id, replid2 := Some(replid), second := Offset(), trunk := trace)
    }

    /** Run commands that come to these items, and log them, unless a write to the files has failed. */
    function Execute(data: Trace): Node {
      this.(memory := memory + data, files := files + Logged(data), trace := trace + data)
    }

    function Logged(data: Trace): Trace {
      if writable then data else []
    }
  }

  /**
   The primary's answer to PSYNC, until the replica has handled it: for a full resync the offset, the
   history up to there, and the copy of what the primary held.
   */
  datatype Reply = Continue | Full(start: nat, snapshot: Trace, copy: Trace) | Handled

  /**
   A replica's link: what was answered, and from which offset; what was sent and not yet applied; and
   the offset counted as acknowledged, which the replica may have reported or not.
   */
  datatype Link = Link(primary: nat, replid: Id, full: bool, start: nat, reply: Reply, sent: nat, inflight: Trace,
                       open: bool, online: bool, ack: nat, reported: bool)

  /** Nodes and links; for the proofs also every history, and how many items it had before offset 0. */
  datatype Cluster = Cluster(nodes: map<nat, Node>, links: map<nat, Link>, lines: map<Id, Trace>, shift: map<Id, nat>,
                             capacity: nat)

  /** Node x's position: its trace is its history up to its offset, and the second one up to where they part. */
  ghost predicate NodeOk(c: Cluster, x: nat) {
    x in c.nodes ==>
      var n := c.nodes[x];
      && n.replid in c.lines && n.replid in c.shift
      && n.trace <= c.lines[n.replid] && |n.trace| == n.Offset() + c.shift[n.replid]
      && n.backlog.Ok(c.capacity) && Suffix(n.backlog.items, n.trace)
      && (n.role.Primary? ==> n.trace == c.lines[n.replid])
      && (n.replid2.Some? ==> SecondOk(c, n))
  }

  ghost predicate SecondOk(c: Cluster, n: Node) {
    n.replid2.Some? && n.replid in c.shift &&
    var id := n.replid2.value;
    && id in c.lines && id in c.shift && c.shift[id] == c.shift[n.replid]
    && n.trunk <= c.lines[id] && n.trunk <= n.trace && |n.trunk| == n.second + c.shift[id]
  }

  /** A primary that nobody has replicated from yet: its writes are not streamed. */
  predicate Quiet(n: Node) {
    n.role.Primary? && !n.active
  }

  /** Nobody else names the history of a quiet primary, and no two primaries share one. */
  ghost predicate Apart(c: Cluster, x: nat, y: nat) {
    x in c.nodes && y in c.nodes && x != y ==>
      && (Quiet(c.nodes[x]) ==> c.nodes[y].replid != c.nodes[x].replid && c.nodes[y].replid2 != Some(c.nodes[x].replid))
      && (c.nodes[x].role.Primary? && c.nodes[y].role.Primary? ==> c.nodes[x].replid != c.nodes[y].replid)
  }

  /** Nor does any link. */
  ghost predicate Unlinked(c: Cluster, x: nat, y: nat) {
    x in c.nodes && Quiet(c.nodes[x]) && y in c.links ==> c.links[y].replid != c.nodes[x].replid
  }

  ghost predicate QuietOk(c: Cluster, x: nat) {
    x in c.nodes && Quiet(c.nodes[x]) ==>
      c.nodes[x].replid2.None? && c.nodes[x].backlog == Window([], 0, 0)
  }

  /** The items on a link continue what its replica holds, or will hold, along one history. */
  ghost predicate LinkOk(c: Cluster, x: nat) {
    x in c.links ==>
      var k := c.links[x];
      && x in c.nodes && c.nodes[x].role.Replica? && k.primary != x
      && k.replid in c.lines && k.replid in c.shift
      && FeedOk(c, c.nodes[x], k)
      && (k.open ==> k.primary in c.nodes && c.nodes[k.primary].role.Primary? && c.nodes[k.primary].active)
      && (k.open ==> k.primary in c.nodes && c.nodes[k.primary].replid == k.replid)
      && (k.reported ==> k.online && k.reply.Handled? && k.ack <= c.nodes[x].Offset())
      && (!k.reported ==> k.ack == if k.online then k.start else 0)
      && (if k.reply.Full? then k.full && k.start == k.reply.start else k.start <= c.nodes[x].Offset())
      && (k.reply.Full? && k.replid == c.nodes[x].replid ==> c.nodes[x].Offset() <= k.reply.start)
  }

  ghost predicate FeedOk(c: Cluster, n: Node, k: Link) {
    && k.replid in c.lines && k.replid in c.shift && n.replid in c.shift
    && match k.reply
       case Full(start, snapshot, _) =>
         && snapshot + k.inflight <= c.lines[k.replid]
         && |snapshot| == start + c.shift[k.replid] && |snapshot + k.inflight| == k.sent + c.shift[k.replid]
       case Continue =>
         && n.trace + k.inflight <= c.lines[k.replid] && c.shift[n.replid] == c.shift[k.replid]
         && |n.trace + k.inflight| == k.sent + c.shift[k.replid]
       case Handled =>
         && n.trace + k.inflight <= c.lines[k.replid] && n.replid == k.replid
         && |n.trace + k.inflight| == k.sent + c.shift[k.replid]
  }

  ghost predicate Good(c: Cluster) {
    && (forall x :: NodeOk(c, x))
    && (forall x :: QuietOk(c, x))
    && (forall x, y :: Apart(c, x, y))
    && (forall x, y :: Unlinked(c, x, y))
    && (forall x :: LinkOk(c, x))
  }

  // ------------------------------------------------------------------ steps

  /** A primary executes a write: streamed, or not if nobody replicates yet. */
  function Write(c: Cluster, p: nat, data: Trace): Cluster {
    if p !in c.nodes || !c.nodes[p].role.Primary? || c.nodes[p].replid !in c.lines ||
      c.nodes[p].replid !in c.shift then c
    else
      var n := c.nodes[p];
      var id := n.replid;
      var lines := c.lines[id := c.lines[id] + data];
      if n.active then
        c.(nodes := c.nodes[p := n.Execute(data).(backlog := n.backlog.Append(data, c.capacity))], lines := lines)
      else
        c.(nodes := c.nodes[p := n.Execute(data)], lines := lines,
           shift := c.shift[id := c.shift[id] + |data|])
  }

  /** serve: replica x asks primary p, which answers and, for a full resync, takes its snapshot at once. */
  function Connect(c: Cluster, x: nat, p: nat): Cluster {
    if x !in c.nodes || p !in c.nodes || x == p || x in c.links || !c.nodes[x].role.Replica? ||
      !c.nodes[p].role.Primary? then c
    else
      var n, m := c.nodes[x], c.nodes[p];
      var request := n.Request();
      if request.Some? && m.CanContinue(request.value.0, request.value.1) then
        c.(links := c.links[x := Link(p, m.replid, false, n.Offset(), Continue, n.Offset(), [], true, false, 0, false)])
      else
        c.(nodes := c.nodes[p := m.(active := true)],
           links := c.links[x := Link(p, m.replid, true, m.Offset(), Full(m.Offset(), m.trace, m.memory),
                                      m.Offset(), [], true, false, 0, false)])
  }

  /** The answer, with the snapshot of a full resync, has been written out: the primary counts it as acknowledged. */
  function Online(c: Cluster, x: nat): Cluster {
    if x !in c.links || !c.links[x].open || c.links[x].online then c
    else c.(links := c.links[x := c.links[x].(online := true, ack := c.links[x].start)])
  }

  /** The replica handles the answer; a full resync needs files that can be written to. */
  function Accept(c: Cluster, x: nat): Cluster {
    if x !in c.links || x !in c.nodes then c
    else
      var n, k := c.nodes[x], c.links[x];
      match k.reply
      case Handled => c
      case Continue =>
        var n' := if k.replid == n.replid then n
                  else n.(replid := k.replid, replid2 := Some(n.replid), second := n.Offset(), trunk := n.trace);
        c.(nodes := c.nodes[x := n'], links := c.links[x := k.(reply := Handled)])
      case Full(start, snapshot, copy) =>
        if !n.writable then c else
        var n' := n.(replid := k.replid, replid2 := None, second := -1, backlog := Window([], start, start),
                     memory := copy, files := copy, trace := snapshot, trunk := []);
        c.(nodes := c.nodes[x := n'], links := c.links[x := k.(reply := Handled)])
  }

  /** There is a full resync for the replica to handle. */
  predicate HasCopy(c: Cluster, x: nat) {
    x in c.links && x in c.nodes && c.links[x].reply.Full?
  }

  /** Why load_snapshot fails after it has cleared the keyspace: the copy cannot be read, or not be saved. */
  datatype Failure = Unreadable | Unsaved

  function Left(copy: Trace, why: Failure): Trace {
    if why.Unsaved? then copy else []
  }

  /** What the replica holds is replaced; the position and the files stay as they were, and the link is given up. */
  function LoadFails(c: Cluster, x: nat, why: Failure): Cluster {
    if !HasCopy(c, x) then c
    else
      c.(nodes := c.nodes[x := c.nodes[x].(memory := Left(c.links[x].reply.copy, why))], links := c.links - {x})
  }

  /** A write to the node's files fails: nothing is logged any more until it starts again. */
  function DiskFails(c: Cluster, x: nat): Cluster {
    if x !in c.nodes then c else c.(nodes := c.nodes[x := c.nodes[x].(writable := false)])
  }

  /** _send: everything since the offset sent so far, or the replica is dropped if that is no longer held. */
  function Send(c: Cluster, x: nat): Cluster {
    if x !in c.links || !c.links[x].open || !c.links[x].online || c.links[x].primary !in c.nodes then c
    else
      var k := c.links[x];
      var m := c.nodes[k.primary];
      if |m.backlog.items| != m.backlog.end - m.backlog.start then c
      else
        var data := m.backlog.Since(k.sent);
        if data.None? then c.(links := c.links[x := k.(open := false)])
        else c.(links := c.links[x := k.(inflight := k.inflight + data.value, sent := m.Offset())])
  }

  /** The replica applies some of what has arrived. */
  function Apply(c: Cluster, x: nat, count: nat): Cluster {
    if x !in c.links || x !in c.nodes || !c.links[x].reply.Handled? || count > |c.links[x].inflight| then c
    else
      var n, k := c.nodes[x], c.links[x];
      var data := k.inflight[..count];
      c.(nodes := c.nodes[x := n.Execute(data).(backlog := n.backlog.Append(data, c.capacity))],
         links := c.links[x := k.(inflight := k.inflight[count..])])
  }

  /** A reported acknowledgement arrives; it may be old by then. */
  function Ack(c: Cluster, x: nat, offset: nat): Cluster {
    if x !in c.links || x !in c.nodes || !c.links[x].reply.Handled? || offset > c.nodes[x].Offset() then c
    else if !c.links[x].open || !c.links[x].online then c
    else c.(links := c.links[x := c.links[x].(ack := offset, reported := true)])
  }

  /** The link breaks; what was on its way is lost. */
  function Break(c: Cluster, x: nat): Cluster {
    c.(links := c.links - {x})
  }

  /** The primary closes every link it serves; what was sent may still arrive. */
  function CloseAll(c: Cluster, p: nat): Cluster {
    c.(links := map x | x in c.links :: if c.links[x].primary == p then c.links[x].(open := false) else c.links[x])
  }

  /** REPLICAOF NO ONE. */
  function Promote(c: Cluster, x: nat, id: Id): Cluster {
    if x !in c.nodes || c.nodes[x].role.Primary? || id in c.lines || c.nodes[x].replid !in c.shift then c
    else
      var n := c.nodes[x];
      Cluster(c.nodes[x := n.Fork(id)], c.links - {x}, c.lines[id := n.trace], c.shift[id := c.shift[n.replid]],
              c.capacity)
  }

  /** REPLICAOF another node. */
  function Demote(c: Cluster, p: nat): Cluster {
    if p !in c.nodes then c
    else
      var d := CloseAll(c, p);
      d.(nodes := d.nodes[p := d.nodes[p].(role := Replica)], links := d.links - {p})
  }

  function Loaded(role: Role, id: Id, loaded: Trace): Node {
    Node(role, false, id, None, -1, Window([], 0, 0), loaded, loaded, true, loaded, [])
  }

  /** A node starts, or starts again: a history of its own, from what it loaded. */
  function Restart(c: Cluster, x: nat, id: Id, loaded: Trace, role: Role): Cluster {
    if id in c.lines then c
    else
      var d := CloseAll(c, x);
      Cluster(d.nodes[x := Loaded(role, id, loaded)], d.links - {x}, c.lines[id := loaded],
              c.shift[id := |loaded|], c.capacity)
  }

  datatype Step =
    | WriteStep(p: nat, data: Trace)
    | ConnectStep(x: nat, p: nat)
    | OnlineStep(x: nat)
    | AcceptStep(x: nat)
    | LoadFailsStep(x: nat, why: Failure)
    | DiskFailsStep(x: nat)
    | SendStep(x: nat)
    | ApplyStep(x: nat, count: nat)
    | AckStep(x: nat, offset: nat)
    | BreakStep(x: nat)
    | PromoteStep(x: nat, id: Id)
    | DemoteStep(p: nat)
    | RestartStep(x: nat, id: Id, loaded: Trace, role: Role)

  function Next(c: Cluster, s: Step): Cluster {
    match s
    case WriteStep(p, data) => Write(c, p, data)
    case ConnectStep(x, p) => Connect(c, x, p)
    case OnlineStep(x) => Online(c, x)
    case AcceptStep(x) => Accept(c, x)
    case LoadFailsStep(x, why) => LoadFails(c, x, why)
    case DiskFailsStep(x) => DiskFails(c, x)
    case SendStep(x) => Send(c, x)
    case ApplyStep(x, count) => Apply(c, x, count)
    case AckStep(x, offset) => Ack(c, x, offset)
    case BreakStep(x) => Break(c, x)
    case PromoteStep(x, id) => Promote(c, x, id)
    case DemoteStep(p) => Demote(c, p)
    case RestartStep(x, id, loaded, role) => Restart(c, x, id, loaded, role)
  }

  // ------------------------------------------------------------- invariance

  lemma PrefixOfPrefix(a: Trace, b: Trace, line: Trace)
    requires a <= line && b <= line && |a| <= |b|
    ensures a <= b
  {
  }

  /** What is missing of a line after a prefix completes it. */
  lemma RestCompletes(a: Trace, b: Trace, line: Trace, rest: Trace)
    requires a + b <= line && rest == line[|a + b|..]
    ensures a + (b + rest) == line
  {
    assert a + (b + rest) == (a + b) + rest;
  }

  ghost predicate SameShift(c: Cluster, a: Id, b: Id) {
    a in c.shift && b in c.shift && c.shift[a] == c.shift[b]
  }

  /** What a replica is allowed to continue from is a prefix of the primary's history. */
  lemma ContinuePosition(c: Cluster, x: nat, p: nat)
    requires Good(c) && x in c.nodes && p in c.nodes && c.nodes[p].role.Primary?
    requires c.nodes[p].CanContinue(c.nodes[x].replid, c.nodes[x].Offset())
    ensures c.nodes[x].trace <= c.nodes[p].trace
    ensures SameShift(c, c.nodes[x].replid, c.nodes[p].replid)
    ensures x != p ==> c.nodes[p].active
  {
    assert NodeOk(c, x) && NodeOk(c, p) && QuietOk(c, p) && Apart(c, p, x);
    var n, m := c.nodes[x], c.nodes[p];
    if n.replid != m.replid {
      PrefixOfPrefix(n.trace, m.trunk, c.lines[n.replid]);
    }
  }

  /** Making a primary stream its writes. */
  lemma ActivateKeeps(c: Cluster, p: nat)
    requires Good(c) && p in c.nodes && c.nodes[p].role.Primary?
    ensures Good(c.(nodes := c.nodes[p := c.nodes[p].(active := true)]))
  {
    var d := c.(nodes := c.nodes[p := c.nodes[p].(active := true)]);
    forall y
      ensures NodeOk(d, y) && QuietOk(d, y) && LinkOk(d, y)
    {
      assert NodeOk(c, y) && QuietOk(c, y) && LinkOk(c, y);
    }
    forall y, z
      ensures Apart(d, y, z) && Unlinked(d, y, z)
    {
      assert Apart(c, y, z) && Unlinked(c, y, z);
    }
  }

  /** A new or changed link of a streaming primary's history. */
  lemma LinkKeeps(c: Cluster, x: nat, k: Link)
    requires Good(c) && LinkOk(c.(links := c.links[x := k]), x)
    requires forall y :: y in c.nodes && Quiet(c.nodes[y]) ==> c.nodes[y].replid != k.replid
    ensures Good(c.(links := c.links[x := k]))
  {
    var d := c.(links := c.links[x := k]);
    forall y
      ensures NodeOk(d, y) && QuietOk(d, y) && LinkOk(d, y)
    {
      assert NodeOk(c, y) && QuietOk(c, y) && LinkOk(c, y);
    }
    forall y, z
      ensures Apart(d, y, z) && Unlinked(d, y, z)
    {
      assert Apart(c, y, z) && Unlinked(c, y, z);
    }
  }

  lemma ConnectKeeps(c: Cluster, x: nat, p: nat)
    requires Good(c)
    ensures Good(Connect(c, x, p))
  {
    var d := Connect(c, x, p);
    if x in d.links && x !in c.links {
      assert NodeOk(c, x) && NodeOk(c, p);
      var n, m := c.nodes[x], c.nodes[p];
      forall y | y in c.nodes && Quiet(c.nodes[y]) && y != p
        ensures c.nodes[y].replid != m.replid
      {
        assert Apart(c, y, p);
      }
      if n.Request().Some? && m.CanContinue(n.replid, n.Offset()) {
        ContinuePosition(c, x, p);
        assert n.trace + [] == n.trace;
        LinkKeeps(c, x, d.links[x]);
      } else {
        ActivateKeeps(c, p);
        assert m.trace + [] == m.trace;
        LinkKeeps(c.(nodes := d.nodes), x, d.links[x]);
      }
    }
  }

  ghost predicate Unclaimed(c: Cluster, id: Id) {
    forall y :: y in c.nodes && Quiet(c.nodes[y]) ==> c.nodes[y].replid != id
  }

  /** A replica and its link change; the histories stay. */
  lemma ReplicaKeeps(c: Cluster, x: nat, n: Node, k: Link)
    requires Good(c) && x in c.nodes && c.nodes[x].role.Replica? && n.role.Replica?
    requires Unclaimed(c, n.replid) && (n.replid2.Some? ==> Unclaimed(c, n.replid2.value)) && Unclaimed(c, k.replid)
    requires var d := c.(nodes := c.nodes[x := n], links := c.links[x := k]); NodeOk(d, x) && LinkOk(d, x)
    ensures Good(c.(nodes := c.nodes[x := n], links := c.links[x := k]))
  {
    var d := c.(nodes := c.nodes[x := n], links := c.links[x := k]);
    forall y
      ensures NodeOk(d, y) && QuietOk(d, y) && LinkOk(d, y)
    {
      assert NodeOk(c, y) && QuietOk(c, y) && LinkOk(c, y);
    }
    forall y, z
      ensures Apart(d, y, z) && Unlinked(d, y, z)
    {
      assert Apart(c, y, z) && Unlinked(c, y, z);
    }
  }

  /** A linked replica's histories, and its link's, are nobody's unstreamed one. */
  lemma LinkedUnclaimed(c: Cluster, x: nat)
    requires Good(c) && x in c.links && x in c.nodes
    ensures Unclaimed(c, c.links[x].replid) && Unclaimed(c, c.nodes[x].replid)
    ensures c.nodes[x].replid2.Some? ==> Unclaimed(c, c.nodes[x].replid2.value)
  {
    assert LinkOk(c, x);
    forall y | y in c.nodes && Quiet(c.nodes[y])
      ensures c.nodes[y].replid != c.links[x].replid && c.nodes[y].replid != c.nodes[x].replid
      ensures c.nodes[x].replid2 != Some(c.nodes[y].replid)
    {
      assert Unlinked(c, y, x) && Apart(c, y, x);
    }
  }

  lemma OnlineKeeps(c: Cluster, x: nat)
    requires Good(c)
    ensures Good(Online(c, x))
  {
    if x in c.links && c.links[x].open && !c.links[x].online {
      assert LinkOk(c, x);
      LinkedUnclaimed(c, x);
      LinkKeeps(c, x, c.links[x].(online := true, ack := c.links[x].start));
    }
  }

  lemma AcceptedOk(c: Cluster, x: nat)
    requires NodeOk(c, x) && LinkOk(c, x) && x in c.links && x in c.nodes && !c.links[x].reply.Handled?
    ensures NodeOk(Accept(c, x), x) && LinkOk(Accept(c, x), x)
  {
    var n, k := c.nodes[x], c.links[x];
    if k.reply.Continue? {
      assert n.trace <= n.trace + k.inflight;
    } else {
      assert k.reply.snapshot <= k.reply.snapshot + k.inflight;
    }
  }

  lemma AcceptKeeps(c: Cluster, x: nat)
    requires Good(c)
    ensures Good(Accept(c, x))
  {
    if x in c.links && x in c.nodes && !c.links[x].reply.Handled? && Accept(c, x) != c {
      assert NodeOk(c, x) && LinkOk(c, x);
      LinkedUnclaimed(c, x);
      AcceptedOk(c, x);
      var d := Accept(c, x);
      ReplicaKeeps(c, x, d.nodes[x], d.links[x]);
    }
  }

  /** What a node holds and has in its files is no part of the invariant. */
  lemma SamePosition(c: Cluster, x: nat, memory: Trace, writable: bool)
    requires Good(c) && x in c.nodes
    ensures Good(c.(nodes := c.nodes[x := c.nodes[x].(memory := memory, writable := writable)]))
  {
    var d := c.(nodes := c.nodes[x := c.nodes[x].(memory := memory, writable := writable)]);
    forall y
      ensures NodeOk(d, y) && QuietOk(d, y) && LinkOk(d, y)
    {
      assert NodeOk(c, y) && QuietOk(c, y) && LinkOk(c, y);
    }
    forall y, z
      ensures Apart(d, y, z) && Unlinked(d, y, z)
    {
      assert Apart(c, y, z) && Unlinked(c, y, z);
    }
  }

  /** A failed load leaves every position as it was. */
  lemma LoadFailsKeeps(c: Cluster, x: nat, why: Failure)
    requires Good(c)
    ensures Good(LoadFails(c, x, why))
  {
    if HasCopy(c, x) {
      BreakKeeps(c, x);
      SamePosition(Break(c, x), x, Left(c.links[x].reply.copy, why), c.nodes[x].writable);
    }
  }

  lemma DiskFailsKeeps(c: Cluster, x: nat)
    requires Good(c)
    ensures Good(DiskFails(c, x))
  {
    if x in c.nodes {
      SamePosition(c, x, c.nodes[x].memory, false);
    }
  }

  lemma SendKeeps(c: Cluster, x: nat)
    requires Good(c)
    ensures Good(Send(c, x))
  {
    if x in c.links && c.links[x].open && c.links[x].online {
      assert LinkOk(c, x);
      var k := c.links[x];
      assert NodeOk(c, k.primary);
      var d := Send(c, x);
      LinkedUnclaimed(c, x);
      SendExtends(c, x);
      LinkKeeps(c, x, d.links[x]);
    }
  }

  /** The items sent are exactly those the replica lacks of the primary's history. */
  lemma SendExtends(c: Cluster, x: nat)
    requires Good(c) && x in c.links && c.links[x].open && c.links[x].online
    ensures x in Send(c, x).links && LinkOk(Send(c, x), x)
    ensures Send(c, x).links[x].open && c.links[x].reply.Handled? ==>
      c.links[x].primary in c.nodes && x in c.nodes &&
      c.nodes[x].trace + Send(c, x).links[x].inflight == c.nodes[c.links[x].primary].trace
  {
    assert LinkOk(c, x);
    var k, n := c.links[x], c.nodes[x];
    assert NodeOk(c, k.primary) && NodeOk(c, x);
    var m := c.nodes[k.primary];
    var data := m.backlog.Since(k.sent);
    if data.Some? {
      SinceIsRest(m.backlog, m.trace, c.capacity, k.sent, c.shift[k.replid]);
      RestCompletes(if k.reply.Full? then k.reply.snapshot else n.trace, k.inflight, m.trace, data.value);
    }
  }

  lemma ApplyNode(c: Cluster, x: nat, count: nat)
    requires Good(c) && x in c.links && x in c.nodes && c.links[x].reply.Handled? && count <= |c.links[x].inflight|
    ensures NodeOk(Apply(c, x, count), x)
  {
    assert NodeOk(c, x) && LinkOk(c, x);
    var n, k := c.nodes[x], c.links[x];
    var data := k.inflight[..count];
    AppendKeeps(n.backlog, n.trace, data, c.capacity);
    assert n.trace + data <= n.trace + k.inflight;
  }

  lemma ApplyLink(c: Cluster, x: nat, count: nat)
    requires Good(c) && x in c.links && x in c.nodes && c.links[x].reply.Handled? && count <= |c.links[x].inflight|
    ensures LinkOk(Apply(c, x, count), x)
  {
    assert NodeOk(c, x) && LinkOk(c, x);
    var n, k := c.nodes[x], c.links[x];
    var data := k.inflight[..count];
    AppendKeeps(n.backlog, n.trace, data, c.capacity);
    assert (n.trace + data) + k.inflight[count..] == n.trace + k.inflight;
  }

  lemma ApplyKeeps(c: Cluster, x: nat, count: nat)
    requires Good(c)
    ensures Good(Apply(c, x, count))
  {
    if x in c.links && x in c.nodes && c.links[x].reply.Handled? && count <= |c.links[x].inflight| {
      var d := Apply(c, x, count);
      assert LinkOk(c, x);
      LinkedUnclaimed(c, x);
      ApplyNode(c, x, count);
      ApplyLink(c, x, count);
      ReplicaKeeps(c, x, d.nodes[x], d.links[x]);
    }
  }

  lemma AckKeeps(c: Cluster, x: nat, offset: nat)
    requires Good(c)
    ensures Good(Ack(c, x, offset))
  {
    if Ack(c, x, offset) != c {
      assert LinkOk(c, x);
      LinkedUnclaimed(c, x);
      LinkKeeps(c, x, c.links[x].(ack := offset, reported := true));
    }
  }

  /** Fewer links, or closed ones. */
  lemma FewerLinksKeep(c: Cluster, links: map<nat, Link>)
    requires Good(c) && forall x :: x in links ==>
      x in c.links && LinkOk(c.(links := links), x) && links[x].replid == c.links[x].replid
    ensures Good(c.(links := links))
  {
    var d := c.(links := links);
    forall y
      ensures NodeOk(d, y) && QuietOk(d, y) && LinkOk(d, y)
    {
      assert NodeOk(c, y) && QuietOk(c, y);
    }
    forall y, z
      ensures Apart(d, y, z) && Unlinked(d, y, z)
    {
      assert Apart(c, y, z) && Unlinked(c, y, z);
    }
  }

  lemma BreakKeeps(c: Cluster, x: nat)
    requires Good(c)
    ensures Good(Break(c, x))
  {
    var links := c.links - {x};
    forall y | y in links
      ensures LinkOk(c.(links := links), y)
    {
      assert LinkOk(c, y);
    }
    FewerLinksKeep(c, links);
  }

  lemma CloseAllKeeps(c: Cluster, p: nat)
    requires Good(c)
    ensures Good(CloseAll(c, p)) && forall x :: x in CloseAll(c, p).links && CloseAll(c, p).links[x].open ==>
      CloseAll(c, p).links[x].primary != p
  {
    var links := CloseAll(c, p).links;
    forall y | y in links
      ensures LinkOk(c.(links := links), y)
    {
      assert LinkOk(c, y);
    }
    FewerLinksKeep(c, links);
  }

  lemma StreamNode(c: Cluster, p: nat, data: Trace, y: nat)
    requires Good(c) && p in c.nodes && c.nodes[p].role.Primary? && c.nodes[p].active
    ensures NodeOk(Write(c, p, data), y) && QuietOk(Write(c, p, data), y)
  {
    assert NodeOk(c, p) && NodeOk(c, y) && QuietOk(c, y) && Apart(c, p, y);
    var n := c.nodes[p];
    AppendKeeps(n.backlog, n.trace, data, c.capacity);
    assert c.lines[n.replid] <= Write(c, p, data).lines[n.replid];
  }

  lemma StreamLink(c: Cluster, p: nat, data: Trace, y: nat)
    requires Good(c) && p in c.nodes && c.nodes[p].role.Primary? && c.nodes[p].active
    ensures LinkOk(Write(c, p, data), y)
  {
    assert NodeOk(c, p) && NodeOk(c, y) && LinkOk(c, y);
    assert c.lines[c.nodes[p].replid] <= Write(c, p, data).lines[c.nodes[p].replid];
  }

  lemma StreamKeeps(c: Cluster, p: nat, data: Trace)
    requires Good(c) && p in c.nodes && c.nodes[p].role.Primary? && c.nodes[p].active
    ensures Good(Write(c, p, data))
  {
    var d := Write(c, p, data);
    forall y
      ensures NodeOk(d, y) && QuietOk(d, y) && LinkOk(d, y)
    {
      StreamNode(c, p, data, y);
      StreamLink(c, p, data, y);
    }
    forall y, z
      ensures Apart(d, y, z) && Unlinked(d, y, z)
    {
      assert NodeOk(c, p) && Apart(c, y, z) && Unlinked(c, y, z);
    }
  }

  lemma QuietNode(c: Cluster, p: nat, data: Trace, y: nat)
    requires Good(c) && p in c.nodes && Quiet(c.nodes[p])
    ensures NodeOk(Write(c, p, data), y) && QuietOk(Write(c, p, data), y)
  {
    assert NodeOk(c, p) && QuietOk(c, p) && NodeOk(c, y) && QuietOk(c, y) && Apart(c, p, y);
  }

  lemma QuietLink(c: Cluster, p: nat, data: Trace, y: nat)
    requires Good(c) && p in c.nodes && Quiet(c.nodes[p])
    ensures LinkOk(Write(c, p, data), y)
  {
    assert NodeOk(c, p) && QuietOk(c, p) && LinkOk(c, y) && Apart(c, p, y) && Unlinked(c, p, y);
  }

  lemma QuietWriteKeeps(c: Cluster, p: nat, data: Trace)
    requires Good(c) && p in c.nodes && Quiet(c.nodes[p])
    ensures Good(Write(c, p, data))
  {
    var d := Write(c, p, data);
    forall y
      ensures NodeOk(d, y) && QuietOk(d, y) && LinkOk(d, y)
    {
      QuietNode(c, p, data, y);
      QuietLink(c, p, data, y);
    }
    forall y, z
      ensures Apart(d, y, z) && Unlinked(d, y, z)
    {
      assert NodeOk(c, p) && Apart(c, y, z) && Unlinked(c, y, z);
    }
  }

  lemma WriteKeeps(c: Cluster, p: nat, data: Trace)
    requires Good(c)
    ensures Good(Write(c, p, data))
  {
    if p in c.nodes && c.nodes[p].role.Primary? {
      if c.nodes[p].active {
        StreamKeeps(c, p, data);
      } else {
        QuietWriteKeeps(c, p, data);
      }
    }
  }

  /** Nobody names a history that does not exist yet. */
  lemma Unnamed(c: Cluster, id: Id, y: nat)
    requires Good(c) && id !in c.lines
    ensures y in c.nodes ==> c.nodes[y].replid != id && c.nodes[y].replid2 != Some(id)
    ensures y in c.links ==> c.links[y].replid != id
  {
    assert NodeOk(c, y) && LinkOk(c, y);
  }

  /** A node takes over a new history, which nobody else knows; it serves nobody and is served by nobody. */
  lemma NewHistoryKeeps(c: Cluster, x: nat, n: Node, id: Id, shift: nat)
    requires Good(c) && id !in c.lines && x !in c.links && n.replid == id
    requires forall y :: y in c.links && c.links[y].open ==> c.links[y].primary != x
    requires n.replid2.Some? ==> forall y :: y in c.nodes && Quiet(c.nodes[y]) && y != x ==>
      n.replid2 != Some(c.nodes[y].replid)
    requires var d := Cluster(c.nodes[x := n], c.links, c.lines[id := n.trace], c.shift[id := shift], c.capacity);
      NodeOk(d, x) && QuietOk(d, x)
    ensures Good(Cluster(c.nodes[x := n], c.links, c.lines[id := n.trace], c.shift[id := shift], c.capacity))
  {
    var d := Cluster(c.nodes[x := n], c.links, c.lines[id := n.trace], c.shift[id := shift], c.capacity);
    forall y
      ensures NodeOk(d, y) && QuietOk(d, y) && LinkOk(d, y)
    {
      assert NodeOk(c, y) && QuietOk(c, y) && LinkOk(c, y);
      Unnamed(c, id, y);
    }
    forall y, z
      ensures Apart(d, y, z) && Unlinked(d, y, z)
    {
      assert Apart(c, y, z) && Unlinked(c, y, z);
      Unnamed(c, id, y);
      Unnamed(c, id, z);
    }
  }

  lemma PromoteKeeps(c: Cluster, x: nat, id: Id)
    requires Good(c)
    ensures Good(Promote(c, x, id))
  {
    if x in c.nodes && c.nodes[x].role.Replica? && id !in c.lines && c.nodes[x].replid in c.shift {
      BreakKeeps(c, x);
      var b := Break(c, x);
      assert NodeOk(c, x);
      forall y | y in b.links && b.links[y].open
        ensures b.links[y].primary != x
      {
        assert LinkOk(c, y);
      }
      forall y | y in b.nodes && Quiet(b.nodes[y]) && y != x
        ensures Some(c.nodes[x].replid) != Some(b.nodes[y].replid)
      {
        assert Apart(c, y, x);
      }
      NewHistoryKeeps(b, x, c.nodes[x].Fork(id), id, c.shift[c.nodes[x].replid]);
    }
  }

  lemma DemoteKeeps(c: Cluster, p: nat)
    requires Good(c)
    ensures Good(Demote(c, p))
  {
    if p in c.nodes {
      CloseAllKeeps(c, p);
      var b := CloseAll(c, p);
      BreakKeeps(b, p);
      var e := Break(b, p);
      var d := e.(nodes := e.nodes[p := e.nodes[p].(role := Replica)]);
      forall y
        ensures NodeOk(d, y) && QuietOk(d, y) && LinkOk(d, y)
      {
        assert NodeOk(e, y) && QuietOk(e, y) && LinkOk(e, y);
      }
      forall y, z
        ensures Apart(d, y, z) && Unlinked(d, y, z)
      {
        assert Apart(e, y, z) && Unlinked(e, y, z);
      }
    }
  }

  lemma RestartKeeps(c: Cluster, x: nat, id: Id, loaded: Trace, role: Role)
    requires Good(c)
    ensures Good(Restart(c, x, id, loaded, role))
  {
    if id !in c.lines {
      CloseAllKeeps(c, x);
      var b := CloseAll(c, x);
      BreakKeeps(b, x);
      NewHistoryKeeps(Break(b, x), x, Loaded(role, id, loaded), id, |loaded|);
    }
  }

  /** Every step keeps the invariant. */
  lemma NextKeeps(c: Cluster, s: Step)
    requires Good(c)
    ensures Good(Next(c, s))
  {
    match s
    case WriteStep(p, data) => WriteKeeps(c, p, data);
    case ConnectStep(x, p) => ConnectKeeps(c, x, p);
    case OnlineStep(x) => OnlineKeeps(c, x);
    case AcceptStep(x) => AcceptKeeps(c, x);
    case LoadFailsStep(x, why) => LoadFailsKeeps(c, x, why);
    case DiskFailsStep(x) => DiskFailsKeeps(c, x);
    case SendStep(x) => SendKeeps(c, x);
    case ApplyStep(x, count) => ApplyKeeps(c, x, count);
    case AckStep(x, offset) => AckKeeps(c, x, offset);
    case BreakStep(x) => BreakKeeps(c, x);
    case PromoteStep(x, id) => PromoteKeeps(c, x, id);
    case DemoteStep(p) => DemoteKeeps(c, p);
    case RestartStep(x, id, loaded, role) => RestartKeeps(c, x, id, loaded, role);
  }

  // ---------------------------------------------------------------- results

  function Run(c: Cluster, steps: seq<Step>): Cluster {
    if steps == [] then c else Next(Run(c, steps[..|steps| - 1]), steps[|steps| - 1])
  }

  function Start(capacity: nat): Cluster {
    Cluster(map[], map[], map[], map[], capacity)
  }

  lemma {:induction false} RunGood(c: Cluster, steps: seq<Step>)
    requires Good(c)
    ensures Good(Run(c, steps))
  {
    if steps != [] {
      RunGood(c, steps[..|steps| - 1]);
      NextKeeps(Run(c, steps[..|steps| - 1]), steps[|steps| - 1]);
    }
  }

  // ------------------------------------------------------- what a node holds

  /** What the node's position names: its history, up to its offset. */
  ghost predicate Names(c: Cluster, x: nat, held: Trace) {
    x in c.nodes &&
    var n := c.nodes[x];
    && n.replid in c.lines && n.replid in c.shift && n.Offset() + c.shift[n.replid] <= |c.lines[n.replid]|
    && held == c.lines[n.replid][..n.Offset() + c.shift[n.replid]]
  }

  /** The node holds what its position names. */
  ghost predicate Right(c: Cluster, x: nat) {
    x in c.nodes ==> Names(c, x, c.nodes[x].memory)
  }

  lemma NamesIs(c: Cluster, x: nat, held: Trace)
    requires Good(c) && x in c.nodes
    ensures Names(c, x, held) <==> held == c.nodes[x].trace
  {
    assert NodeOk(c, x);
  }

  /** The last of these to happen to node x: it started, or handled a full resync. */
  predicate Starts(b: Cluster, s: Step, x: nat) {
    s.RestartStep? && s.x == x && s.id !in b.lines
  }

  predicate Completes(b: Cluster, s: Step, x: nat) {
    s == AcceptStep(x) && HasCopy(b, x) && b.nodes[x].writable
  }

  predicate Fails(b: Cluster, s: Step, x: nat) {
    s.LoadFailsStep? && s.x == x && HasCopy(b, x)
  }

  /**
   The run did not leave the node with other data than its position names: since it started or last
   completed a full resync, every load that failed left just that data. And the resync, if there was
   one, came from a primary of which the same could be said when it answered.
   */
  ghost predicate Kept(c: Cluster, steps: seq<Step>, x: nat)
    decreases |steps|
  {
    steps == [] ||
    var before, s := steps[..|steps| - 1], steps[|steps| - 1];
    var b := Run(c, before);
    if Starts(b, s, x) then true
    else if Completes(b, s, x) then ToldRight(c, before, x)
    else if Fails(b, s, x) then Names(b, x, Left(b.links[x].reply.copy, s.why))
    else Kept(c, before, x)
  }

  ghost predicate ToldRight(c: Cluster, steps: seq<Step>, x: nat)
    decreases |steps|
  {
    steps == [] ||
    var before, s := steps[..|steps| - 1], steps[|steps| - 1];
    if s.ConnectStep? && s.x == x && x !in Run(c, before).links then Kept(c, before, s.p)
    else ToldRight(c, before, x)
  }

  /** What the node holds, its files and its history all grew by the same. */
  ghost predicate Grew(n: Node, n': Node, data: Trace) {
    n'.memory == n.memory + data && n'.files == n.files + n.Logged(data) && n'.trace == n.trace + data
  }

  lemma WriteGrows(b: Cluster, p: nat, data: Trace, x: nat)
    requires x in b.nodes
    ensures x in Write(b, p, data).nodes
    ensures Grew(b.nodes[x], Write(b, p, data).nodes[x], []) || Grew(b.nodes[x], Write(b, p, data).nodes[x], data)
  {
  }

  lemma ApplyGrows(b: Cluster, y: nat, count: nat, x: nat)
    requires x in b.nodes
    ensures x in Apply(b, y, count).nodes
    ensures exists data :: Grew(b.nodes[x], Apply(b, y, count).nodes[x], data)
  {
    var n, none: Trace := b.nodes[x], [];
    assert Grew(n, n, none);
    if y == x && y in b.links && count <= |b.links[y].inflight| && Apply(b, y, count) != b {
      assert Grew(n, Apply(b, y, count).nodes[x], b.links[y].inflight[..count]);
    }
  }

  /** These steps change nothing of what a node holds. */
  lemma RolesSame(b: Cluster, s: Step, x: nat)
    requires x in b.nodes && !Starts(b, s, x)
    requires s.ConnectStep? || s.PromoteStep? || s.DemoteStep? || s.RestartStep? || s.DiskFailsStep?
    ensures x in Next(b, s).nodes && Grew(b.nodes[x], Next(b, s).nodes[x], [])
  {
  }

  lemma LinksSame(b: Cluster, s: Step, x: nat)
    requires x in b.nodes && (s.OnlineStep? || s.SendStep? || s.AckStep? || s.BreakStep?)
    ensures Next(b, s).nodes == b.nodes
  {
  }

  lemma AnswerSame(b: Cluster, s: Step, x: nat)
    requires x in b.nodes && (s.AcceptStep? || s.LoadFailsStep?) && !Completes(b, s, x) && !Fails(b, s, x)
    ensures x in Next(b, s).nodes && Grew(b.nodes[x], Next(b, s).nodes[x], [])
  {
  }

  lemma NoneAppears(b: Cluster, s: Step, x: nat)
    requires x in Next(b, s).nodes && !Starts(b, s, x)
    ensures x in b.nodes
  {
  }

  /** Otherwise a step extends what a node holds as it extends its history. */
  lemma NextNode(b: Cluster, s: Step, x: nat)
    requires x in Next(b, s).nodes && !Starts(b, s, x) && !Completes(b, s, x) && !Fails(b, s, x)
    ensures x in b.nodes
    ensures exists data :: Grew(b.nodes[x], Next(b, s).nodes[x], data)
  {
    NoneAppears(b, s, x);
    assert Grew(b.nodes[x], b.nodes[x], []);
    match s {
      case WriteStep(p, data) => WriteGrows(b, p, data, x);
      case ApplyStep(y, count) => ApplyGrows(b, y, count, x);
      case ConnectStep(_, _) => RolesSame(b, s, x);
      case PromoteStep(_, _) => RolesSame(b, s, x);
      case DemoteStep(_) => RolesSame(b, s, x);
      case DiskFailsStep(_) => RolesSame(b, s, x);
      case RestartStep(_, _, _, _) => RolesSame(b, s, x);
      case AcceptStep(_) => AnswerSame(b, s, x);
      case LoadFailsStep(_, _) => AnswerSame(b, s, x);
      case _ => LinksSame(b, s, x);
    }
  }

  lemma Cancels(a: Trace, b: Trace, data: Trace)
    ensures a + data == b + data <==> a == b
  {
    if a + data == b + data {
      assert a == (a + data)[..|a|] && b == (b + data)[..|b|];
    }
  }

  lemma OtherRight(b: Cluster, s: Step, x: nat)
    requires Good(b) && !Starts(b, s, x) && !Completes(b, s, x) && !Fails(b, s, x)
    ensures Right(Next(b, s), x) <==> Right(b, x)
  {
    var d := Next(b, s);
    if x in d.nodes {
      NextNode(b, s, x);
      NextKeeps(b, s);
      NamesIs(b, x, b.nodes[x].memory);
      NamesIs(d, x, d.nodes[x].memory);
      var data :| Grew(b.nodes[x], d.nodes[x], data);
      Cancels(b.nodes[x].memory, b.nodes[x].trace, data);
    }
  }

  lemma LastRight(b: Cluster, s: Step, x: nat)
    requires Good(b)
    ensures Starts(b, s, x) ==> Right(Next(b, s), x)
    ensures Completes(b, s, x) ==>
      (Right(Next(b, s), x) <==> b.links[x].reply.copy == b.links[x].reply.snapshot)
    ensures Fails(b, s, x) ==> (Right(Next(b, s), x) <==> Names(b, x, Left(b.links[x].reply.copy, s.why)))
  {
    var d := Next(b, s);
    NextKeeps(b, s);
    if Starts(b, s, x) || Completes(b, s, x) || Fails(b, s, x) {
      NamesIs(d, x, d.nodes[x].memory);
    }
    if Fails(b, s, x) {
      NamesIs(b, x, d.nodes[x].memory);
    }
  }

  /** The copy a replica has yet to load was made when it asked. */
  lemma CopyComes(b: Cluster, s: Step, x: nat)
    requires HasCopy(Next(b, s), x)
    ensures if s.ConnectStep? && s.x == x && x !in b.links then
              s.p in b.nodes && Next(b, s).links[x].reply.copy == b.nodes[s.p].memory &&
              Next(b, s).links[x].reply.snapshot == b.nodes[s.p].trace
            else HasCopy(b, x) && Next(b, s).links[x].reply == b.links[x].reply
  {
  }

  lemma {:induction false} RunRight(capacity: nat, steps: seq<Step>, x: nat)
    ensures var d := Run(Start(capacity), steps);
      && (Right(d, x) <==> Kept(Start(capacity), steps, x))
      && (HasCopy(d, x) ==>
            (d.links[x].reply.copy == d.links[x].reply.snapshot <==> ToldRight(Start(capacity), steps, x)))
    decreases |steps|
  {
    if steps != [] {
      var before, s := steps[..|steps| - 1], steps[|steps| - 1];
      var b, d := Run(Start(capacity), before), Run(Start(capacity), steps);
      RunRight(capacity, before, x);
      RunGood(Start(capacity), before);
      LastRight(b, s, x);
      if !Starts(b, s, x) && !Completes(b, s, x) && !Fails(b, s, x) {
        OtherRight(b, s, x);
      }
      if HasCopy(d, x) {
        CopyComes(b, s, x);
        if s.ConnectStep? && s.x == x && x !in b.links {
          RunRight(capacity, before, s.p);
          NamesIs(b, s.p, b.nodes[s.p].memory);
        }
      }
    }
  }

  /**
   Every run keeps the invariant, with writes, resyncs that complete or fail, promotions, demotions
   and restarts in any order; and after it a node holds what its position names exactly if no failed
   load left it with other data.
   */
  lemma RunKeeps(capacity: nat, steps: seq<Step>)
    ensures Good(Run(Start(capacity), steps))
    ensures forall x :: Right(Run(Start(capacity), steps), x) <==> Kept(Start(capacity), steps, x)
  {
    RunGood(Start(capacity), steps);
    forall x {
      RunRight(capacity, steps, x);
    }
  }

  /** Something ran on the node that could not be logged. */
  predicate Unlogged(b: Cluster, s: Step, x: nat) {
    && x in b.nodes && !b.nodes[x].writable
    && x in Next(b, s).nodes && Next(b, s).nodes[x].memory != b.nodes[x].memory
  }

  /**
   The files do not mix: since the node started or last completed a full resync, no load failed and nothing
   ran that could not be logged, or what that left is what the files hold.
   */
  ghost predicate Saved(c: Cluster, steps: seq<Step>, x: nat)
    decreases |steps|
  {
    steps == [] ||
    var before, s := steps[..|steps| - 1], steps[|steps| - 1];
    var b := Run(c, before);
    if Starts(b, s, x) || Completes(b, s, x) then true
    else if Fails(b, s, x) then Left(b.links[x].reply.copy, s.why) == b.nodes[x].files
    else if Unlogged(b, s, x) then Next(b, s).nodes[x].memory == b.nodes[x].files
    else Saved(c, before, x)
  }

  /** What a node's files would rebuild is what it holds, exactly if they do not mix. */
  lemma {:induction false} FilesAgree(capacity: nat, steps: seq<Step>, x: nat)
    requires x in Run(Start(capacity), steps).nodes
    ensures var n := Run(Start(capacity), steps).nodes[x]; n.files == n.memory <==> Saved(Start(capacity), steps, x)
  {
    if steps != [] {
      var before, s := steps[..|steps| - 1], steps[|steps| - 1];
      var b, d := Run(Start(capacity), before), Run(Start(capacity), steps);
      if !Starts(b, s, x) && !Completes(b, s, x) && !Fails(b, s, x) {
        NextNode(b, s, x);
        FilesAgree(capacity, before, x);
        FilesStep(b.nodes[x], d.nodes[x]);
      }
    }
  }

  lemma FilesStep(n: Node, n': Node)
    requires exists data :: Grew(n, n', data)
    ensures n.writable || n'.memory == n.memory ==> (n'.files == n'.memory <==> n.files == n.memory)
    ensures !n.writable ==> n'.files == n.files
  {
    var data :| Grew(n, n', data);
    Cancels(n.files, n.memory, data);
    if n'.memory == n.memory {
      assert |n'.memory| == |n.memory| + |data|;
      assert data == [];
    }
  }

  /** One node holds the beginning of what another holds, and lacks as much as its offset is behind. */
  ghost predicate Trails(n: Node, m: Node) {
    n.memory <= m.memory && |m.memory| - |n.memory| == m.Offset() - n.Offset()
  }

  lemma TrailsIs(c: Cluster, x: nat, p: nat)
    requires Good(c) && x in c.nodes && p in c.nodes && Right(c, p)
    requires c.nodes[x].trace <= c.nodes[p].trace && SameShift(c, c.nodes[x].replid, c.nodes[p].replid)
    ensures Trails(c.nodes[x], c.nodes[p]) <==> Right(c, x)
  {
    assert NodeOk(c, x) && NodeOk(c, p);
    NamesIs(c, p, c.nodes[p].memory);
    NamesIs(c, x, c.nodes[x].memory);
    var n, m := c.nodes[x], c.nodes[p];
    if Trails(n, m) {
      assert n.memory == m.memory[..|n.memory|];
    }
  }

  /**
   A replica that a primary lets continue is at a prefix of the primary's history; and it holds the
   beginning of what the primary holds exactly if it holds what its position names.
   */
  lemma ContinueIsPrefix(c: Cluster, x: nat, p: nat)
    requires Good(c) && x in c.nodes && p in c.nodes && c.nodes[p].role.Primary?
    requires c.nodes[p].CanContinue(c.nodes[x].replid, c.nodes[x].Offset())
    ensures c.nodes[x].trace <= c.nodes[p].trace && c.nodes[x].Offset() <= c.nodes[p].Offset()
    ensures Right(c, p) ==> (Trails(c.nodes[x], c.nodes[p]) <==> Right(c, x))
  {
    ContinuePosition(c, x, p);
    if Right(c, p) {
      TrailsIs(c, x, p);
    }
  }

  /**
   A replica at offset N of a history holds what its primary held at N, exactly if it holds what its
   position names.
   */
  lemma HoldsHistory(c: Cluster, x: nat, p: nat)
    requires Good(c) && x in c.nodes && p in c.nodes && c.nodes[p].role.Primary? &&
      c.nodes[x].replid == c.nodes[p].replid
    ensures c.nodes[x].trace <= c.nodes[p].trace
    ensures c.nodes[x].Offset() == c.nodes[p].Offset() - (|c.nodes[p].trace| - |c.nodes[x].trace|)
    ensures Right(c, p) ==> (Trails(c.nodes[x], c.nodes[p]) <==> Right(c, x))
  {
    assert NodeOk(c, x) && NodeOk(c, p);
    if Right(c, p) {
      TrailsIs(c, x, p);
    }
  }

  /** Two nodes at the same offset of the same history hold the same, if both hold what their position names. */
  lemma SameOffsetSameState(c: Cluster, x: nat, y: nat)
    requires Good(c) && x in c.nodes && y in c.nodes && c.nodes[x].replid == c.nodes[y].replid
    requires c.nodes[x].Offset() == c.nodes[y].Offset()
    ensures c.nodes[x].trace == c.nodes[y].trace
    ensures Right(c, x) ==> (c.nodes[x].memory == c.nodes[y].memory <==> Right(c, y))
  {
    assert NodeOk(c, x) && NodeOk(c, y);
  }

  /** A replica that has handled the answer, on an open link from which nothing is missing yet. */
  ghost predicate Attached(c: Cluster, x: nat, p: nat) {
    && x in c.nodes && p in c.nodes && x in c.links && c.nodes[p].role.Primary?
    && c.links[x].open && c.links[x].online && c.links[x].primary == p && c.links[x].reply.Handled?
    && c.nodes[p].backlog.Contains(c.links[x].sent)
  }

  function Join(c: Cluster, x: nat, p: nat): Cluster {
    Accept(Online(Connect(c, x, p), x), x)
  }

  /** The primary lets the replica continue. */
  predicate Continues(c: Cluster, x: nat, p: nat) {
    && x in c.nodes && p in c.nodes && c.nodes[x].Request().Some?
    && c.nodes[p].CanContinue(c.nodes[x].Request().value.0, c.nodes[x].Request().value.1)
  }

  /** The link between asking and handling the answer. */
  function Asked(p: nat, n: Node, m: Node, continues: bool): Link {
    if continues then Link(p, m.replid, false, n.Offset(), Continue, n.Offset(), [], true, false, 0, false)
    else
      Link(p, m.replid, true, m.Offset(), Full(m.Offset(), m.trace, m.memory), m.Offset(), [], true, false, 0, false)
  }

  lemma Asks(c: Cluster, x: nat, p: nat)
    requires x in c.nodes && p in c.nodes && x != p && x !in c.links
    requires c.nodes[x].role.Replica? && c.nodes[p].role.Primary?
    ensures Connect(c, x, p).links == c.links[x := Asked(p, c.nodes[x], c.nodes[p], Continues(c, x, p))]
    ensures Connect(c, x, p).nodes ==
      if Continues(c, x, p) then c.nodes else c.nodes[p := c.nodes[p].(active := true)]
  {
  }

  lemma ThenOnline(c: Cluster, x: nat, k: Link)
    requires x in c.links && c.links[x] == k && k.open && !k.online
    ensures Online(c, x) == c.(links := c.links[x := k.(online := true, ack := k.start)])
  {
  }

  lemma AsksOnline(c: Cluster, x: nat, p: nat)
    requires x in c.nodes && p in c.nodes && x != p && x !in c.links
    requires c.nodes[x].role.Replica? && c.nodes[p].role.Primary?
    ensures var d, k := Online(Connect(c, x, p), x), Asked(p, c.nodes[x], c.nodes[p], Continues(c, x, p));
      && x in d.links && d.links[x] == k.(online := true, ack := k.start)
      && d.nodes == if Continues(c, x, p) then c.nodes else c.nodes[p := c.nodes[p].(active := true)]
  {
    Asks(c, x, p);
    ThenOnline(Connect(c, x, p), x, Asked(p, c.nodes[x], c.nodes[p], Continues(c, x, p)));
  }

  lemma JoinAttaches(c: Cluster, x: nat, p: nat)
    requires Good(c) && x in c.nodes && p in c.nodes && x != p && x !in c.links
    requires c.nodes[x].role.Replica? && c.nodes[p].role.Primary?
    ensures Good(Join(c, x, p)) && (Continues(c, x, p) || c.nodes[x].writable ==> Attached(Join(c, x, p), x, p))
  {
    ConnectKeeps(c, x, p);
    OnlineKeeps(Connect(c, x, p), x);
    AcceptKeeps(Online(Connect(c, x, p), x), x);
    assert NodeOk(c, p);
    AsksOnline(c, x, p);
    if Continues(c, x, p) || c.nodes[x].writable {
      AttachedThen(Online(Connect(c, x, p), x), x, p);
    }
  }

  lemma AttachedThen(b: Cluster, x: nat, p: nat)
    requires x in b.nodes && p in b.nodes && x != p && x in b.links && b.nodes[p].role.Primary?
    requires b.links[x].open && b.links[x].online && b.links[x].primary == p
    requires b.nodes[p].backlog.Contains(b.links[x].sent) && (b.links[x].reply.Full? ==> b.nodes[x].writable)
    ensures Attached(Accept(b, x), x, p)
  {
  }

  /** What a replica holds once it has handled the answer. */
  lemma JoinHolds(c: Cluster, x: nat, p: nat)
    requires x in c.nodes && p in c.nodes && x != p && x !in c.links
    requires c.nodes[x].role.Replica? && c.nodes[p].role.Primary?
    ensures x in Join(c, x, p).nodes && p in Join(c, x, p).nodes
    ensures Grew(c.nodes[p], Join(c, x, p).nodes[p], [])
    ensures var n := Join(c, x, p).nodes[x];
      var m := if Continues(c, x, p) || !c.nodes[x].writable then c.nodes[x] else c.nodes[p];
      n.memory == m.memory && n.trace == m.trace
  {
    AsksOnline(c, x, p);
    var b := Online(Connect(c, x, p), x);
    assert b.nodes[x] == c.nodes[x] && Grew(c.nodes[p], b.nodes[p], []);
    AcceptHolds(b, x, p);
  }

  lemma AcceptHolds(b: Cluster, x: nat, p: nat)
    requires x in b.nodes && p in b.nodes && x != p && x in b.links && !b.links[x].reply.Handled?
    ensures x in Accept(b, x).nodes && p in Accept(b, x).nodes && Accept(b, x).nodes[p] == b.nodes[p]
    ensures var loads := HasCopy(b, x) && b.nodes[x].writable;
      && Accept(b, x).nodes[x].memory == (if loads then b.links[x].reply.copy else b.nodes[x].memory)
      && Accept(b, x).nodes[x].trace == (if loads then b.links[x].reply.snapshot else b.nodes[x].trace)
  {
  }

  /** Send what is held since, and apply all of it. */
  function Deliver(c: Cluster, x: nat): Cluster {
    var d := Send(c, x);
    Apply(d, x, if x in d.links then |d.links[x].inflight| else 0)
  }

  lemma Delivers(c: Cluster, x: nat)
    requires Good(c) && x in c.links && x in c.nodes && c.links[x].reply.Handled?
    ensures var d := Apply(c, x, |c.links[x].inflight|);
      && Good(d) && x in d.nodes && d.nodes.Keys == c.nodes.Keys
      && Grew(c.nodes[x], d.nodes[x], c.links[x].inflight) && d.nodes[x].replid == c.nodes[x].replid
      && (forall p :: p in c.nodes && p != x ==> d.nodes[p] == c.nodes[p])
  {
    var k := c.links[x];
    assert k.inflight[..|k.inflight|] == k.inflight;
    ApplyKeeps(c, x, |k.inflight|);
  }

  lemma SendKeepsLink(c: Cluster, x: nat, p: nat)
    requires Attached(c, x, p) && c.nodes[p].backlog.Ok(c.capacity)
    ensures Send(c, x).nodes == c.nodes && x in Send(c, x).links && Send(c, x).links[x].open
    ensures Send(c, x).links[x].reply.Handled?
  {
  }

  lemma DeliverEqualises(c: Cluster, x: nat, p: nat)
    requires Good(c) && Attached(c, x, p)
    ensures Good(Deliver(c, x)) && x in Deliver(c, x).nodes && p in Deliver(c, x).nodes
    ensures var n, m := Deliver(c, x).nodes[x], Deliver(c, x).nodes[p];
      && m == c.nodes[p] && n.trace == m.trace && n.replid == m.replid && n.Offset() == m.Offset()
      && exists data :: Grew(c.nodes[x], n, data)
  {
    assert NodeOk(c, p) && LinkOk(c, x);
    SendKeepsLink(c, x, p);
    SendExtends(c, x);
    SendKeeps(c, x);
    var d := Send(c, x);
    Delivers(d, x);
    assert Grew(c.nodes[x], Deliver(c, x).nodes[x], d.links[x].inflight);
    assert NodeOk(Deliver(c, x), x) && NodeOk(Deliver(c, x), p);
  }

  /**
   A resync brings the replica to the primary's name and offset. After a full one it holds what the
   primary holds; after a partial one it does exactly if it held what its position named. A full one
   cannot complete while the replica's files cannot be written to: its load fails, and leaves the replica with the
   primary's data at its own old position, and with its files as they were.
   */
  lemma ResyncEqualises(c: Cluster, x: nat, p: nat)
    requires Good(c) && x in c.nodes && p in c.nodes && x != p && x !in c.links
    requires c.nodes[x].role.Replica? && c.nodes[p].role.Primary?
    ensures Continues(c, x, p) || c.nodes[x].writable ==>
      var d := Deliver(Join(c, x, p), x);
      && x in d.nodes && p in d.nodes && d.nodes[x].replid == d.nodes[p].replid
      && d.nodes[x].Offset() == d.nodes[p].Offset() && d.nodes[p].memory == c.nodes[p].memory
      && (!Continues(c, x, p) ==> d.nodes[x].memory == d.nodes[p].memory)
      && (Right(c, p) ==> (d.nodes[x].memory == d.nodes[p].memory <==> !Continues(c, x, p) || Right(c, x)))
    ensures !Continues(c, x, p) && !c.nodes[x].writable ==>
      var b := Online(Connect(c, x, p), x);
      && Accept(b, x) == b && Fails(b, LoadFailsStep(x, Unsaved), x)
      && var d := Next(b, LoadFailsStep(x, Unsaved));
        && x in d.nodes && x !in d.links && d.nodes[x] == c.nodes[x].(memory := c.nodes[p].memory)
  {
    if Continues(c, x, p) || c.nodes[x].writable {
      JoinAttaches(c, x, p);
      JoinHolds(c, x, p);
      var b := Join(c, x, p);
      DeliverEqualises(b, x, p);
      DeliveredAlike(c, x, p, b, Deliver(b, x));
    } else {
      AsksOnline(c, x, p);
    }
  }

  lemma DeliveredAlike(c: Cluster, x: nat, p: nat, b: Cluster, d: Cluster)
    requires Good(c) && x in c.nodes && p in c.nodes && x in b.nodes && p in b.nodes && x in d.nodes && p in d.nodes
    requires var m := if Continues(c, x, p) then c.nodes[x] else c.nodes[p];
      b.nodes[x].memory == m.memory && b.nodes[x].trace == m.trace
    requires b.nodes[p].memory == c.nodes[p].memory && b.nodes[p].trace == c.nodes[p].trace
    requires d.nodes[p] == b.nodes[p] && d.nodes[x].trace == d.nodes[p].trace
    requires exists data :: Grew(b.nodes[x], d.nodes[x], data)
    ensures d.nodes[p].memory == c.nodes[p].memory
    ensures !Continues(c, x, p) ==> d.nodes[x].memory == d.nodes[p].memory
    ensures Right(c, p) ==> (d.nodes[x].memory == d.nodes[p].memory <==> !Continues(c, x, p) || Right(c, x))
  {
    NamesIs(c, x, c.nodes[x].memory);
    NamesIs(c, p, c.nodes[p].memory);
    var data :| Grew(b.nodes[x], d.nodes[x], data);
    if Continues(c, x, p) {
      Cancels(b.nodes[x].memory, b.nodes[x].trace, data);
    } else {
      assert data == [];
    }
  }

  /** The replicas WAIT counts for an offset. */
  ghost function AckedBy(c: Cluster, p: nat, offset: nat): set<nat> {
    set x | x in c.links && c.links[x].open && c.links[x].primary == p && c.links[x].ack >= offset
  }

  /** A history up to an offset. */
  ghost predicate Reach(c: Cluster, id: Id, offset: nat) {
    id in c.lines && id in c.shift && offset + c.shift[id] <= |c.lines[id]|
  }

  /** The node holds the history up to an offset. */
  ghost predicate HoldsUpTo(c: Cluster, x: nat, id: Id, offset: nat) {
    x in c.nodes && Reach(c, id, offset) && c.lines[id][..offset + c.shift[id]] <= c.nodes[x].memory
  }

  /** The node's position is past an offset of the history: it claims to hold the history up to there. */
  ghost predicate Claims(c: Cluster, x: nat, id: Id, offset: nat) {
    x in c.nodes && Reach(c, id, offset) && c.lines[id][..offset + c.shift[id]] <= c.nodes[x].trace
  }

  lemma ClaimsIs(c: Cluster, x: nat, id: Id, offset: nat)
    requires Good(c) && Right(c, x)
    ensures HoldsUpTo(c, x, id, offset) <==> Claims(c, x, id, offset)
  {
    if x in c.nodes {
      NamesIs(c, x, c.nodes[x].memory);
    }
  }

  /** A node claims the history it is on exactly up to its offset, and holds it if it holds what its position names. */
  lemma OffsetIsHeld(c: Cluster, x: nat, id: Id, offset: nat)
    requires Good(c) && On(c, x, id)
    ensures Claims(c, x, id, offset) <==> offset <= c.nodes[x].Offset()
    ensures Right(c, x) ==> (HoldsUpTo(c, x, id, offset) <==> offset <= c.nodes[x].Offset())
  {
    assert NodeOk(c, x);
    if Claims(c, x, id, offset) {
      assert |c.lines[id][..offset + c.shift[id]]| <= |c.nodes[x].trace|;
    }
    if Right(c, x) {
      ClaimsIs(c, x, id, offset);
    }
  }

  /**
   A replica that is counted claims the primary's history up to there unless it has yet to load the
   copy it was sent; so it does if it has reported the acknowledgement, or was let continue. Of one on the
   primary's history, that is exactly when. It holds what it claims if it holds what its position names.
   */
  lemma CountedIsHeld(c: Cluster, p: nat, x: nat, offset: nat)
    requires Good(c) && x in AckedBy(c, p, offset)
    ensures p in c.nodes && c.links[x].replid == c.nodes[p].replid
    ensures c.links[x].reported || !c.links[x].full ==> !c.links[x].reply.Full?
    ensures !c.links[x].reply.Full? ==> Claims(c, x, c.nodes[p].replid, offset)
    ensures On(c, x, c.nodes[p].replid) ==>
      (Claims(c, x, c.nodes[p].replid, offset) <==> !c.links[x].reply.Full? || offset <= c.nodes[x].Offset())
    ensures Right(c, x) ==> (HoldsUpTo(c, x, c.nodes[p].replid, offset) <==> Claims(c, x, c.nodes[p].replid, offset))
  {
    assert LinkOk(c, x) && NodeOk(c, x) && NodeOk(c, p);
    if On(c, x, c.nodes[p].replid) {
      OffsetIsHeld(c, x, c.nodes[p].replid, offset);
    }
    if Right(c, x) {
      ClaimsIs(c, x, c.nodes[p].replid, offset);
    }
  }

  /** The cluster after these steps. */
  ghost predicate Reaches(origin: Cluster, steps: seq<Step>, c: Cluster) {
    c == Run(origin, steps)
  }

  lemma ReachesNext(origin: Cluster, steps: seq<Step>, c: Cluster, s: Step)
    requires Reaches(origin, steps, c)
    ensures Reaches(origin, steps + [s], Next(c, s))
  {
    assert (steps + [s])[..|steps|] == steps;
  }

  lemma {:induction false} RunAppend(c: Cluster, first: seq<Step>, second: seq<Step>)
    ensures Run(c, first + second) == Run(Run(c, first), second)
  {
    if second == [] {
      assert first + second == first;
    } else {
      var rest := second[..|second| - 1];
      RunAppend(c, first, rest);
      assert (first + second)[..|first + second| - 1] == first + rest;
    }
  }

  // --------------------------------------------------------------- failover

  ghost predicate On(c: Cluster, x: nat, id: Id) {
    x in c.nodes && c.nodes[x].replid == id
  }

  /** The node is on this history after every one of the steps from the i-th on. */
  ghost predicate Stays(c: Cluster, steps: seq<Step>, x: nat, id: Id, i: nat) {
    forall j :: i <= j <= |steps| ==> On(Run(c, steps[..j]), x, id)
  }

  lemma ClaimsWrite(c: Cluster, p: nat, data: Trace, x: nat, id: Id, offset: nat)
    requires Good(c) && On(c, x, id) && Claims(c, x, id, offset)
    ensures Claims(Write(c, p, data), x, id, offset)
  {
    assert NodeOk(c, x);
    if p in c.nodes {
      assert Apart(c, p, x) && NodeOk(c, p);
    }
  }

  lemma ClaimsAnswer(c: Cluster, x: nat, id: Id, offset: nat)
    requires NodeOk(c, x) && LinkOk(c, x) && On(c, x, id) && On(Accept(c, x), x, id) && Claims(c, x, id, offset)
    ensures Claims(Accept(c, x), x, id, offset)
  {
  }

  lemma LinesSame(c: Cluster, s: Step, id: Id)
    requires !s.WriteStep? && id in c.lines && id in c.shift
    ensures id in Next(c, s).lines && Next(c, s).lines[id] == c.lines[id]
    ensures id in Next(c, s).shift && Next(c, s).shift[id] == c.shift[id]
  {
  }

  /** What a node claims of the history it is on it goes on claiming, for as long as it stays on it. */
  lemma ClaimsOn(c: Cluster, s: Step, x: nat, id: Id, offset: nat)
    requires Good(c) && On(c, x, id) && On(Next(c, s), x, id) && Claims(c, x, id, offset)
    ensures Claims(Next(c, s), x, id, offset)
  {
    if s.WriteStep? {
      ClaimsWrite(c, s.p, s.data, x, id, offset);
    } else if s == AcceptStep(x) {
      assert NodeOk(c, x) && LinkOk(c, x);
      ClaimsAnswer(c, x, id, offset);
    } else {
      LinesSame(c, s, id);
      if !Starts(c, s, x) && !Fails(c, s, x) {
        NextNode(c, s, x);
      }
    }
  }

  lemma RunPrefix(c: Cluster, steps: seq<Step>, n: nat)
    requires 0 < n <= |steps|
    ensures Run(c, steps[..n]) == Next(Run(c, steps[..n - 1]), steps[n - 1])
  {
    assert steps[..n][..n - 1] == steps[..n - 1];
  }

  lemma ClaimsStep(b: Cluster, d: Cluster, s: Step, x: nat, id: Id, offset: nat)
    requires Good(b) && d == Next(b, s) && On(b, x, id) && On(d, x, id) && Claims(b, x, id, offset)
    ensures Claims(d, x, id, offset)
  {
    ClaimsOn(b, s, x, id, offset);
  }

  lemma {:induction false} ClaimsOnward(c: Cluster, steps: seq<Step>, x: nat, id: Id, offset: nat, i: nat, n: nat)
    requires Good(c) && i <= n <= |steps| && Stays(c, steps, x, id, i) && Claims(Run(c, steps[..i]), x, id, offset)
    ensures Claims(Run(c, steps[..n]), x, id, offset)
  {
    if i < n {
      ClaimsOnward(c, steps, x, id, offset, i, n - 1);
      RunGood(c, steps[..n - 1]);
      RunPrefix(c, steps, n);
      ClaimsStep(Run(c, steps[..n - 1]), Run(c, steps[..n]), steps[n - 1], x, id, offset);
    }
  }

  /**
   In every run: what a node holds of the history it is on, it holds at every later point while it stays
   on the history and no failed load has left it with other data.
   */
  lemma HoldsOnward(capacity: nat, steps: seq<Step>, x: nat, id: Id, offset: nat, i: nat)
    requires i <= |steps| && Stays(Start(capacity), steps, x, id, i)
    requires Claims(Run(Start(capacity), steps[..i]), x, id, offset)
    ensures Claims(Run(Start(capacity), steps), x, id, offset)
    ensures Kept(Start(capacity), steps, x) ==> HoldsUpTo(Run(Start(capacity), steps), x, id, offset)
  {
    ClaimsOnward(Start(capacity), steps, x, id, offset, i, |steps|);
    assert steps[..|steps|] == steps;
    RunGood(Start(capacity), steps);
    RunRight(capacity, steps, x);
    if Kept(Start(capacity), steps, x) {
      ClaimsIs(Run(Start(capacity), steps), x, id, offset);
    }
  }

  /** max by offset; the first of equals. */
  method ChooseWinner(candidates: seq<nat>, offsets: map<nat, nat>) returns (winner: Option<nat>)
    requires forall x :: x in candidates ==> x in offsets
    ensures winner.None? <==> candidates == []
    ensures winner.Some? ==> winner.value in candidates
    ensures winner.Some? ==> forall x :: x in candidates ==> offsets[x] <= offsets[winner.value]
  {
    winner := None;
    for i := 0 to |candidates|
      invariant winner.None? <==> i == 0
      invariant winner.Some? ==> winner.value in candidates
      invariant winner.Some? ==> forall j :: 0 <= j < i ==> offsets[candidates[j]] <= offsets[winner.value]
    {
      if winner.None? || offsets[candidates[i]] > offsets[winner.value] {
        winner := Some(candidates[i]);
      }
    }
  }

  /** Each candidate's offset was read from it at some point of the run. */
  ghost predicate Probed(c: Cluster, steps: seq<Step>, offsets: map<nat, nat>, at: map<nat, nat>, y: nat) {
    && y in offsets && y in at && at[y] <= |steps|
    && y in Run(c, steps[..at[y]]).nodes && Run(c, steps[..at[y]]).nodes[y].Offset() == offsets[y]
  }

  /** An offset read from a node on the history is claimed by it from then on. */
  lemma ProbedIsClaimed(c: Cluster, steps: seq<Step>, offsets: map<nat, nat>, at: map<nat, nat>, y: nat, id: Id,
                        offset: nat)
    requires Good(c) && Probed(c, steps, offsets, at, y) && Stays(c, steps, y, id, at[y]) && offset <= offsets[y]
    ensures Claims(Run(c, steps), y, id, offset)
  {
    RunGood(c, steps[..at[y]]);
    assert On(Run(c, steps[..at[y]]), y, id);
    OffsetIsHeld(Run(c, steps[..at[y]]), y, id, offset);
    ClaimsOnward(c, steps, y, id, offset, at[y], |steps|);
    assert steps[..|steps|] == steps;
  }

  /** A replica that has reported an acknowledgement reports no smaller offset while it stays on the history. */
  lemma AckedIsProbed(c: Cluster, steps: seq<Step>, offsets: map<nat, nat>, at: map<nat, nat>, p: nat, x: nat,
                      offset: nat)
    requires Good(c) && x in AckedBy(c, p, offset) && c.links[x].reported
    requires Probed(c, steps, offsets, at, x) && Stays(c, steps, x, c.links[x].replid, 0)
    ensures offset <= offsets[x]
  {
    var id := c.links[x].replid;
    CountedIsHeld(c, p, x, offset);
    assert steps[..0] == [];
    ClaimsOnward(c, steps, x, id, offset, 0, at[x]);
    RunGood(c, steps[..at[x]]);
    assert On(Run(c, steps[..at[x]]), x, id);
    OffsetIsHeld(Run(c, steps[..at[x]]), x, id, offset);
  }

  /** The node is right at the end of a run in two parts exactly if nothing failed on it in either. */
  lemma RightAfter(capacity: nat, before: seq<Step>, steps: seq<Step>, x: nat, id: Id, offset: nat)
    ensures var end := Run(Run(Start(capacity), before), steps);
      && (Kept(Start(capacity), before + steps, x) <==> Right(end, x))
      && (Kept(Start(capacity), before + steps, x) && Claims(end, x, id, offset) ==> HoldsUpTo(end, x, id, offset))
  {
    RunAppend(Start(capacity), before, steps);
    RunGood(Start(capacity), before + steps);
    RunRight(capacity, before + steps, x);
    var end := Run(Run(Start(capacity), before), steps);
    if Right(end, x) {
      ClaimsIs(end, x, id, offset);
    }
  }

  /**
   A write that WAIT confirmed through a reported acknowledgement, and a failover later in the run. If
   a replica that acknowledged stays on the history and is a candidate, and the candidate with the
   highest offset is on that history too, then its position is past the write; and it holds the history up
   to its position, with the write, exactly if no failed load has left it with other data.
   */
  method Failover(candidates: seq<nat>, offsets: map<nat, nat>, ghost capacity: nat, ghost before: seq<Step>,
                  ghost c: Cluster, ghost steps: seq<Step>, ghost at: map<nat, nat>, ghost p: nat, ghost x: nat,
                  ghost offset: nat)
    returns (winner: Option<nat>)
    requires Reaches(Start(capacity), before, c) && x in AckedBy(c, p, offset) && c.links[x].reported
    requires x in candidates && Stays(c, steps, x, c.links[x].replid, 0)
    requires forall y :: y in candidates ==> Probed(c, steps, offsets, at, y)
    ensures winner.Some? && winner.value in candidates && winner.value in at
    ensures Stays(c, steps, winner.value, c.links[x].replid, at[winner.value]) ==>
      && Claims(Run(c, steps), winner.value, c.links[x].replid, offset)
      && (Kept(Start(capacity), before + steps, winner.value) ==>
            HoldsUpTo(Run(c, steps), winner.value, c.links[x].replid, offset))
    ensures Right(Run(c, steps), winner.value) <==> Kept(Start(capacity), before + steps, winner.value)
  {
    winner := ChooseWinner(candidates, offsets);
    ghost var id := c.links[x].replid;
    RunGood(Start(capacity), before);
    assert Probed(c, steps, offsets, at, x) && Probed(c, steps, offsets, at, winner.value);
    AckedIsProbed(c, steps, offsets, at, p, x, offset);
    RightAfter(capacity, before, steps, winner.value, id, offset);
    if Stays(c, steps, winner.value, id, at[winner.value]) {
      ProbedIsClaimed(c, steps, offsets, at, winner.value, id, offset);
    }
  }

  /**
   The promoted node goes on with what it held: what it claimed begins its new history, and it is as
   right as before.
   */
  lemma PromotionCarries(c: Cluster, w: nat, id: Id, offset: nat, next: Id)
    requires Good(c) && w in c.nodes && c.nodes[w].role.Replica? && next !in c.lines && Claims(c, w, id, offset)
    ensures var d := Promote(c, w, next);
      && w in d.nodes && d.nodes[w].role.Primary? && d.nodes[w].replid == next && next in d.lines
      && c.lines[id][..offset + c.shift[id]] <= d.lines[next]
      && d.nodes[w].memory == c.nodes[w].memory && (d.nodes[w].memory == d.lines[next] <==> Right(c, w))
  {
    assert NodeOk(c, w);
    NamesIs(c, w, c.nodes[w].memory);
  }
}
