/**
 Moving keys to their new owners while clients keep using them: one migration
 of one source, with every interleaving of client commands, redirected
 commands, arriving copies and acknowledgements.
 */
module Migration {
  import opened Wrappers

  type Key = string
  type Shard = nat
  type Val = nat
  type Space = map<Key, Val>

  datatype State = Running | Done | Failed

  /** A client command: the keys it names, and what it leaves at them. */
  datatype Command = Command(keys: seq<Key>, result: map<Key, Option<Val>>)
  {
    ghost predicate Proper() {
      forall k :: k in result <==> k in keys
    }
  }

  /** What check answers. */
  datatype Verdict = Serve | TryAgain | Ask(shard: Shard)

  function Get(m: Space, k: Key): Option<Val> {
    if k in m then Some(m[k]) else None
  }

  /** A space after a command. */
  function Ran(m: Space, c: Command): Space {
    map k | k in m.Keys + c.result.Keys && (if k in c.result then c.result[k].Some? else true)
      :: if k in c.result then c.result[k].value else m[k]
  }

  lemma RanAt(m: Space, c: Command, k: Key)
    ensures Get(Ran(m, c), k) == if k in c.result then c.result[k] else Get(m, k)
  {
  }

  /** The spaces: the source's, the targets', and what each key should be. */
  datatype World = World(source: Space, targets: map<Shard, Space>, truth: Space)

  /** The copy of key k that counts: the source's if it has one, else its new owner's. */
  function Authoritative(w: World, owner: map<Key, Shard>, k: Key): Option<Val> {
    if k in w.source then Some(w.source[k])
    else if k in owner && owner[k] in w.targets then Get(w.targets[owner[k]], k)
    else None
  }

  /** Every key's copy that counts holds what it should. */
  ghost predicate AllRight(w: World, owner: map<Key, Shard>) {
    forall k :: Right(w, owner, k)
  }

  ghost predicate Right(w: World, owner: map<Key, Shard>, k: Key) {
    Authoritative(w, owner, k) == Get(w.truth, k)
  }

  /** Key k is where it should be, and on its way only as it is at the source. */
  ghost predicate KeyOk(w: World, owner: map<Key, Shard>, pending: seq<Key>, items: Space, restored: set<Key>,
                        inFlight: set<Key>, asked: set<Key>, k: Key)
  {
    && Right(w, owner, k)
    && (k in owner ==> owner[k] in w.targets)
    && (k in items ==> k in owner && k in inFlight && k in w.source && w.source[k] == items[k])
    && (k in restored ==> k in items && k in owner && Get(w.targets[owner[k]], k) == Some(items[k]))
    && (k in w.source && k in owner ==> k in pending || k in items)
    && (k in w.source && k in owner && k !in restored ==> k !in w.targets[owner[k]])
    && (k in asked ==> k in owner && k !in w.source && k !in items)
  }

  /** What is left of that once a target has failed and the keys are unlocked. */
  ghost predicate KeyLoose(w: World, owner: map<Key, Shard>, items: Space, restored: set<Key>, asked: set<Key>,
                           k: Key)
  {
    && (k in owner ==> owner[k] in w.targets)
    && (k in items ==> k in owner)
    && (k in restored ==> k in items)
    && (k in asked ==> k in owner && k !in w.source)
  }

  /** A client's command here, a redirected one there, and the progress of the move. */
  datatype Event =
    | Here(command: Command)
    | There(command: Command, shard: Shard)
    | Batch
    | Arrives(key: Key)
    | Acknowledged(shard: Shard)
    | Refused(shard: Shard)
    | Ended
  {
    ghost predicate Proper() {
      (Here? || There? ==> command.Proper()) && (Here? ==> command.keys != [])
    }
  }

  /** What an event meets. */
  datatype Stage = Stage(w: World, pending: seq<Key>, items: Space, restored: set<Key>, inFlight: set<Key>,
                         asked: set<Key>,
                         state: State)

  /** check: no key is locked, and all are here or all have moved. */
  predicate Unlocked(inFlight: set<Key>, keys: seq<Key>) {
    forall i :: 0 <= i < |keys| ==> keys[i] !in inFlight
  }

  predicate AllHere(source: Space, owner: map<Key, Shard>, keys: seq<Key>) {
    forall i :: 0 <= i < |keys| ==> keys[i] in source || keys[i] !in owner
  }

  predicate AllGone(source: Space, owner: map<Key, Shard>, keys: seq<Key>) {
    forall i :: 0 <= i < |keys| ==> keys[i] !in source && keys[i] in owner
  }

  /** A redirected command runs if every key of it was redirected there. */
  predicate AllAsked(asked: set<Key>, owner: map<Key, Shard>, keys: seq<Key>, shard: Shard) {
    forall i :: 0 <= i < |keys| ==> keys[i] in asked && keys[i] in owner && owner[keys[i]] == shard
  }

  /** Which commands are accepted. */
  ghost predicate Accepts(owner: map<Key, Shard>, s: Stage, e: Event) {
    match e
    case Here(c) => Unlocked(s.inFlight, c.keys) && AllHere(s.w.source, owner, c.keys)
    case There(c, shard) => shard in s.w.targets && AllAsked(s.asked, owner, c.keys, shard)
    case _ => false
  }

  /** A target has taken every copy it was sent. */
  predicate Arrived(owner: map<Key, Shard>, items: Space, restored: set<Key>, shard: Shard) {
    forall k :: k in items && k in owner && owner[k] == shard ==> k in restored
  }

  /**
   What may still happen after a failure without a key going wrong: no key is deleted here while a
   copy of it is at its new owner; no copy arrives for a key that is gone from here, unless it is what
   the key should be; and no answer comes for a key that has changed here.
   */
  ghost predicate Harmless(owner: map<Key, Shard>, s: Stage, e: Event) {
    s.state.Failed? ==>
      match e
      case Here(c) => Accepts(owner, s, e) ==> forall k :: k in c.result ==> Deletable(owner, s.w, c.result, k)
      case Arrives(k) => k in s.items ==> k in s.w.source || Get(s.w.truth, k) == Some(s.items[k])
      case Acknowledged(shard) =>
        Arrived(owner, s.items, s.restored, shard) ==>
          forall k :: k in s.items && k in owner && owner[k] == shard ==> Unchanged(owner, s.w, k)
      case _ => true
  }

  ghost predicate Deletable(owner: map<Key, Shard>, w: World, result: map<Key, Option<Val>>, k: Key)
    requires k in result
  {
    result[k].None? && k in owner && owner[k] in w.targets ==> k !in w.targets[owner[k]]
  }

  /** The copy at the new owner is still what the source holds, if it holds the key. */
  ghost predicate Unchanged(owner: map<Key, Shard>, w: World, k: Key)
    requires k in owner
  {
    k in w.source && owner[k] in w.targets ==> Get(w.targets[owner[k]], k) == Some(w.source[k])
  }

  /** The commands accepted among the first n events, one after the other. */
  ghost function Folded(truth: Space, events: seq<Event>, accepted: seq<bool>, n: nat): Space
    requires n <= |events| && n <= |accepted|
  {
    if n == 0 then truth
    else
      var before := Folded(truth, events, accepted, n - 1);
      var e := events[n - 1];
      if accepted[n - 1] && (e.Here? || e.There?) then Ran(before, e.command) else before
  }

  lemma {:induction false} FoldedLonger(truth: Space, events: seq<Event>, accepted: seq<bool>, more: bool, n: nat)
    requires n <= |events| && n <= |accepted|
    ensures Folded(truth, events, accepted + [more], n) == Folded(truth, events, accepted, n)
  {
    if n > 0 {
      FoldedLonger(truth, events, accepted, more, n - 1);
    }
  }

  /** Every key is right at each of these stages. */
  ghost predicate AlwaysRight(owner: map<Key, Shard>, trace: seq<Stage>) {
    forall i :: 0 <= i < |trace| ==> AllRight(trace[i].w, owner)
  }

  /** No event has been harmful. */
  ghost predicate NeverHarmful(owner: map<Key, Shard>, trace: seq<Stage>, events: seq<Event>, n: nat) {
    n <= |trace| && n <= |events| && forall i :: 0 <= i < n ==> Harmless(owner, trace[i], events[i])
  }

  lemma TraceStep(owner: map<Key, Shard>, trace: seq<Stage>, events: seq<Event>, n: nat, next: Stage)
    requires |trace| == n + 1 && n < |events|
    requires AlwaysRight(owner, trace) <==> NeverHarmful(owner, trace, events, n)
    requires AllRight(trace[n].w, owner) ==> (AllRight(next.w, owner) <==> Harmless(owner, trace[n], events[n]))
    ensures AlwaysRight(owner, trace + [next]) <==> NeverHarmful(owner, trace + [next], events, n + 1)
  {
    var longer := trace + [next];
    assert longer[n] == trace[n] && longer[n + 1] == next;
    if AlwaysRight(owner, longer) {
      forall i | 0 <= i < |trace|
        ensures AllRight(trace[i].w, owner)
      {
        assert longer[i] == trace[i];
      }
      forall i | 0 <= i < n + 1
        ensures Harmless(owner, longer[i], events[i])
      {
        assert longer[i] == trace[i];
      }
    }
    if NeverHarmful(owner, longer, events, n + 1) {
      forall i | 0 <= i < n
        ensures Harmless(owner, trace[i], events[i])
      {
        assert longer[i] == trace[i];
      }
      forall i | 0 <= i < |longer|
        ensures AllRight(longer[i].w, owner)
      {
        assert i < |trace| ==> longer[i] == trace[i];
      }
    }
  }

  /** These are the commands that were accepted. */
  ghost predicate AcceptedAre(owner: map<Key, Shard>, trace: seq<Stage>, events: seq<Event>, accepted: seq<bool>) {
    |accepted| <= |trace| && |accepted| <= |events| &&
    forall i :: 0 <= i < |accepted| ==> (accepted[i] <==> Accepts(owner, trace[i], events[i]))
  }

  lemma AcceptedMore(owner: map<Key, Shard>, trace: seq<Stage>, events: seq<Event>, accepted: seq<bool>, done: bool,
                     next: Stage)
    requires AcceptedAre(owner, trace, events, accepted) && |accepted| < |trace| && |accepted| < |events|
    requires done <==> Accepts(owner, trace[|accepted|], events[|accepted|])
    ensures AcceptedAre(owner, trace + [next], events, accepted + [done])
  {
    forall i | 0 <= i < |accepted| + 1
      ensures (accepted + [done])[i] <==> Accepts(owner, (trace + [next])[i], events[i])
    {
      assert (trace + [next])[i] == trace[i];
    }
  }

  /** A run so far: what was accepted, what that makes of the keys, and whether they are right. */
  ghost predicate Traced(owner: map<Key, Shard>, truth: Space, events: seq<Event>, accepted: seq<bool>,
                         trace: seq<Stage>)
  {
    && |accepted| <= |events| && |trace| == |accepted| + 1
    && AcceptedAre(owner, trace, events, accepted)
    && trace[|accepted|].w.truth == Folded(truth, events, accepted, |accepted|)
    && (AlwaysRight(owner, trace) <==> NeverHarmful(owner, trace, events, |accepted|))
  }

  lemma TracedOn(owner: map<Key, Shard>, truth: Space, events: seq<Event>, accepted: seq<bool>, trace: seq<Stage>,
                 done: bool, next: Stage)
    requires Traced(owner, truth, events, accepted, trace) && |accepted| < |events|
    requires done <==> Accepts(owner, trace[|accepted|], events[|accepted|])
    requires next.w.truth == if done then Ran(trace[|accepted|].w.truth, events[|accepted|].command)
      else trace[|accepted|].w.truth
    requires AllRight(trace[|accepted|].w, owner) ==>
      (AllRight(next.w, owner) <==> Harmless(owner, trace[|accepted|], events[|accepted|]))
    ensures Traced(owner, truth, events, accepted + [done], trace + [next])
  {
    TraceStep(owner, trace, events, |accepted|, next);
    FoldedLonger(truth, events, accepted, done, |accepted|);
    AcceptedMore(owner, trace, events, accepted, done, next);
    assert (trace + [next])[|accepted + [done]|] == next;
  }

  /** What deleting acknowledged keys from the source leaves true of key k. */
  lemma OkWithout(w: World, owner: map<Key, Shard>, pending: seq<Key>, items: Space, restored: set<Key>,
                  inFlight: set<Key>,
                  asked: set<Key>, gone: set<Key>, k: Key)
    requires KeyOk(w, owner, pending, items, restored, inFlight, asked, k) &&
      (k in gone ==> k in items && k in restored)
    ensures KeyOk(w.(source := w.source - gone), owner, pending, items - gone, restored - gone, inFlight, asked, k)
  {
  }

  lemma LooseWithout(w: World, owner: map<Key, Shard>, items: Space, restored: set<Key>, asked: set<Key>,
                     gone: set<Key>, k: Key)
    requires KeyLoose(w, owner, items, restored, asked, k)
    ensures KeyLoose(w.(source := w.source - gone), owner, items - gone, restored - gone, asked, k)
  {
  }

  /** Deleting acknowledged keys keeps every key right exactly if their copies are still what the source held. */
  lemma AcknowledgedRight(w: World, owner: map<Key, Shard>, gone: set<Key>)
    requires AllRight(w, owner) && forall k :: k in gone ==> k in owner && owner[k] in w.targets
    ensures AllRight(w.(source := w.source - gone), owner) <==> forall k :: k in gone ==> Unchanged(owner, w, k)
  {
    var after := w.(source := w.source - gone);
    forall k
      ensures Right(after, owner, k) <==> (k in gone ==> Unchanged(owner, w, k))
    {
      assert Right(w, owner, k);
    }
  }

  /** The keys of a batch that go to one target. */
  function Bound(items: Space, owner: map<Key, Shard>, shard: Shard): set<Key> {
    set k | k in items && k in owner && owner[k] == shard
  }

  function Least(a: nat, b: nat): nat {
    if a < b then a else b
  }

  /** The copies of the keys that are still here and belong elsewhere. */
  function Copies(source: Space, owner: map<Key, Shard>, keys: seq<Key>): Space {
    map k | k in keys && k in source && k in owner :: source[k]
  }

  /** What an event makes of a stage. */
  ghost predicate Becomes(owner: map<Key, Shard>, batchSize: nat, e: Event, a: Stage, b: Stage) {
    match e
    case Here(c) =>
      b == if Accepts(owner, a, e) then a.(w := a.w.(source := Ran(a.w.source, c), truth := Ran(a.w.truth, c)))
           else if Unlocked(a.inFlight, c.keys) && AllGone(a.w.source, owner, c.keys) then
             a.(asked := a.asked + set k | k in c.keys)
           else a
    case There(c, shard) =>
      if !Accepts(owner, a, e) then b == a
      else
        shard in a.w.targets &&
        b == a.(w := a.w.(targets := a.w.targets[shard := Ran(a.w.targets[shard], c)], truth := Ran(a.w.truth, c)))
    case Batch =>
      if !a.state.Running? || a.items != map[] || a.inFlight != {} then b == a
      else if a.pending == [] then b == a.(state := Done)
      else
        var n := Least(batchSize, |a.pending|);
        var copies := Copies(a.w.source, owner, a.pending[..n]);
        b == a.(pending := a.pending[n..], items := copies, inFlight := copies.Keys)
    case Arrives(key) =>
      if !(key in a.items && key in owner && owner[key] in a.w.targets) then b == a
      else
        var target := a.w.targets[owner[key]][key := a.items[key]];
        b == a.(w := a.w.(targets := a.w.targets[owner[key] := target]), restored := a.restored + {key})
    case Acknowledged(shard) =>
      var gone := Bound(a.items, owner, shard);
      b == if Arrived(owner, a.items, a.restored, shard) then
             a.(w := a.w.(source := a.w.source - gone), items := a.items - gone, restored := a.restored - gone)
           else a
    case Refused(shard) =>
      var gone := Bound(a.items, owner, shard);
      b == if gone == {} then a
           else a.(items := a.items - gone, restored := a.restored - gone, inFlight := {}, state := Failed)
    case Ended => b == if a.items == map[] then a.(inFlight := {}) else a
  }

  /** Each stage comes from the one before it. */
  ghost predicate AllBecome(owner: map<Key, Shard>, batchSize: nat, events: seq<Event>, trace: seq<Stage>, n: nat) {
    n < |trace| && n <= |events| && forall i :: 0 <= i < n ==>
      Becomes(owner, batchSize, events[i], trace[i], trace[i + 1])
  }

  lemma AllBecomeOn(owner: map<Key, Shard>, batchSize: nat, events: seq<Event>, trace: seq<Stage>, next: Stage)
    requires |trace| > 0 && |trace| <= |events| && AllBecome(owner, batchSize, events, trace, |trace| - 1)
    requires Becomes(owner, batchSize, events[|trace| - 1], trace[|trace| - 1], next)
    ensures AllBecome(owner, batchSize, events, trace + [next], |trace|)
  {
    var longer := trace + [next];
    forall i | 0 <= i < |trace|
      ensures Becomes(owner, batchSize, events[i], longer[i], longer[i + 1])
    {
      assert longer[i] == trace[i];
      assert i + 1 < |trace| ==> longer[i + 1] == trace[i + 1];
    }
  }

  class KeyMigration {
    /** The new owner of each key that belongs elsewhere once the move is done. */
    const owner: map<Key, Shard>
    const batchSize: nat
    var w: World
    var pending: seq<Key>
    /** The batch on its way: its copies, those that have arrived, and the keys locked for it. */
    var items: Space
    var restored: set<Key>
    var inFlight: set<Key>
    /** Keys that clients have been sent to the new owner for. */
    var asked: set<Key>
    var state: State
    var moved: nat

    ghost predicate Valid()
      reads this
    {
      && batchSize > 0
      && (state.Failed? ==> inFlight == {} && forall k :: KeyLoose(w, owner, items, restored, asked, k))
      && (!state.Failed? ==> forall k :: KeyOk(w, owner, pending, items, restored, inFlight, asked, k))
      && (state.Done? ==> pending == [] && items == map[])
    }

    ghost function Now(): Stage
      reads this
    {
      Stage(w, pending, items, restored, inFlight, asked, state)
    }

    /** Until a target fails every key is right. */
    lemma ValidIsRight()
      requires Valid() && !state.Failed?
      ensures AllRight(w, owner)
    {
      forall k
        ensures Right(w, owner, k)
      {
        assert KeyOk(w, owner, pending, items, restored, inFlight, asked, k);
      }
    }

    /** The keys that move are those present when the migration starts. */
    constructor (owner: map<Key, Shard>, batchSize: nat, w: World)
      requires batchSize > 0 && AllRight(w, owner)
      requires forall k :: k in owner ==> owner[k] in w.targets && (k in w.source ==> k !in w.targets[owner[k]])
      ensures Valid() && this.w == w && this.owner == owner && this.batchSize == batchSize && state.Running?
      ensures items == map[] && inFlight == {} && restored == {} && asked == {}
      ensures |pending| == |set k | k in w.source && k in owner| && forall k :: k in pending <==>
        k in w.source && k in owner
    {
      this.owner, this.batchSize, this.w := owner, batchSize, w;
      var todo := set k | k in w.source && k in owner;
      var list: seq<Key> := [];
      while todo != {}
        invariant forall k :: k in w.source && k in owner <==> k in todo || k in list
        invariant |list| + |todo| == |set k | k in w.source && k in owner|
        decreases todo
      {
        var k :| k in todo;
        list, todo := list + [k], todo - {k};
      }
      pending := list;
      items, restored, inFlight, asked := map[], {}, {}, {};
      state, moved := Running, 0;
      new;
      forall k
        ensures KeyOk(this.w, this.owner, pending, items, restored, inFlight, asked, k)
      {
        assert Right(w, owner, k);
      }
    }

    /** check: serve here, try again, or ask the new owner. */
    method Check(keys: seq<Key>) returns (verdict: Verdict)
      requires keys != []
      ensures verdict.Serve? <==> Unlocked(inFlight, keys) && AllHere(w.source, owner, keys)
      ensures verdict.Ask? <==> Unlocked(inFlight, keys) && AllGone(w.source, owner, keys)
      ensures verdict.Ask? ==> verdict.shard == owner[keys[0]]
    {
      for i := 0 to |keys|
        invariant forall j :: 0 <= j < i ==> keys[j] !in inFlight
      {
        if keys[i] in inFlight {
          return TryAgain;
        }
      }
      var gone: seq<Key> := [];
      for i := 0 to |keys|
        invariant |gone| <= i
        invariant |gone| == i <==> forall j :: 0 <= j < i ==> keys[j] !in w.source && keys[j] in owner
        invariant |gone| == i ==> gone == keys[..i]
        invariant |gone| == 0 <==> forall j :: 0 <= j < i ==> keys[j] in w.source || keys[j] !in owner
      {
        if keys[i] !in w.source && keys[i] in owner {
          gone := gone + [keys[i]];
        }
      }
      if gone == [] {
        return Serve;
      }
      if |gone| < |keys| {
        return TryAgain;
      }
      return Ask(owner[gone[0]]);
    }

    /** A key that belongs elsewhere, once gone, does not come back. */
    twostate predicate NoReturn()
      reads this
    {
      forall k :: k in owner && k in w.source ==> k in old(w).source
    }

    /** Run a command that check lets through. */
    method RunHere(c: Command)
      requires Valid() && c.Proper() && Unlocked(inFlight, c.keys) && AllHere(w.source, owner, c.keys)
      modifies `w
      ensures Valid() && NoReturn() && w == old(w).(source := Ran(old(w).source, c), truth := Ran(old(w).truth, c))
      ensures state.Failed? && AllRight(old(w), owner) ==>
        (AllRight(w, owner) <==> Harmless(owner, old(Now()), Here(c)))
    {
      ghost var v := w;
      w := w.(source := Ran(w.source, c), truth := Ran(w.truth, c));
      forall k
        ensures !state.Failed? ==> KeyOk(w, owner, pending, items, restored, inFlight, asked, k)
        ensures state.Failed? ==> KeyLoose(w, owner, items, restored, asked, k)
        ensures k in owner && k in w.source ==> k in v.source
      {
        RanAt(v.source, c, k);
        RanAt(v.truth, c, k);
        if state.Failed? {
          assert KeyLoose(v, owner, items, restored, asked, k);
        } else {
          assert KeyOk(v, owner, pending, items, restored, inFlight, asked, k);
        }
      }
      if state.Failed? && AllRight(v, owner) {
        ServedRight(v, c, owner);
      }
    }

    /** A command of a client that was sent here. */
    method ClientHere(c: Command) returns (verdict: Verdict)
      requires Valid() && c.keys != [] && c.Proper()
      modifies `w, `asked
      ensures Valid() && NoReturn()
      ensures verdict.Serve? <==> Accepts(owner, old(Now()), Here(c))
      ensures w == if verdict.Serve? then old(w).(source := Ran(old(w).source, c), truth := Ran(old(w).truth, c))
        else old(w)
      ensures asked == if verdict.Ask? then old(asked) + set k | k in c.keys else old(asked)
      ensures Becomes(owner, batchSize, Here(c), old(Now()), Now())
      ensures state.Failed? && AllRight(old(w), owner) ==>
        (AllRight(w, owner) <==> Harmless(owner, old(Now()), Here(c)))
    {
      verdict := Check(c.keys);
      if verdict.Serve? {
        RunHere(c);
      } else if verdict.Ask? {
        ghost var asked0 := asked;
        asked := asked + set k | k in c.keys;
        forall k
          ensures !state.Failed? ==> KeyOk(w, owner, pending, items, restored, inFlight, asked, k)
          ensures state.Failed? ==> KeyLoose(w, owner, items, restored, asked, k)
        {
          if state.Failed? {
            assert KeyLoose(w, owner, items, restored, asked0, k);
          } else {
            assert KeyOk(w, owner, pending, items, restored, inFlight, asked0, k);
          }
        }
      }
    }

    /** A redirected command reaches the new owner of its keys, at any later time. */
    method ClientThere(c: Command, shard: Shard) returns (ran: bool)
      requires Valid() && c.Proper()
      modifies `w
      ensures Valid() && NoReturn() && (ran <==> Accepts(owner, old(Now()), There(c, shard)))
      ensures !ran ==> w == old(w)
      ensures ran ==> w == old(w).(targets := old(w).targets[shard := Ran(old(w).targets[shard], c)],
                                   truth := Ran(old(w).truth, c))
      ensures AllRight(old(w), owner) ==> AllRight(w, owner)
    {
      ran := shard in w.targets && AllAsked(asked, owner, c.keys, shard);
      if ran {
        ghost var v := w;
        w := w.(targets := w.targets[shard := Ran(w.targets[shard], c)], truth := Ran(w.truth, c));
        forall k
          ensures !state.Failed? ==> KeyOk(w, owner, pending, items, restored, inFlight, asked, k)
          ensures state.Failed? ==> KeyLoose(w, owner, items, restored, asked, k)
          ensures Right(v, owner, k) ==> Right(w, owner, k)
        {
          RanAt(v.targets[shard], c, k);
          RanAt(v.truth, c, k);
          if state.Failed? {
            assert KeyLoose(v, owner, items, restored, asked, k);
          } else {
            assert KeyOk(v, owner, pending, items, restored, inFlight, asked, k);
          }
        }
      }
    }

    /** The next batch, or the end. */
    method NextBatch()
      requires Valid() && state.Running? && items == map[] && inFlight == {}
      modifies `pending, `items, `inFlight, `state
      ensures Valid() && (state.Done? <==> old(pending) == []) && !state.Failed?
      ensures state.Done? ==> forall k :: k in owner ==> k !in w.source
      ensures Becomes(owner, batchSize, Event.Batch, old(Now()), Now())
    {
      if pending == [] {
        state := Done;
        forall k | k in owner
          ensures k !in w.source
        {
          assert KeyOk(w, owner, pending, items, restored, inFlight, asked, k);
        }
        return;
      }
      Load(Least(batchSize, |pending|));
    }

    /** _move's loop: copy the keys of the batch that are still here, and lock them. */
    method Load(n: nat)
      requires Valid() && state.Running? && items == map[] && inFlight == {} && 0 < n <= |pending|
      modifies `pending, `items, `inFlight
      ensures Valid() && pending == old(pending)[n..]
      ensures items == Copies(w.source, owner, old(pending)[..n]) && inFlight == items.Keys
    {
      var batch := pending[..n];
      var copies: Space, locked: set<Key> := map[], {};
      for i := 0 to n
        invariant copies == Copies(w.source, owner, batch[..i]) && locked == copies.Keys
      {
        assert batch[..i + 1] == batch[..i] + [batch[i]];
        if batch[i] in w.source && batch[i] in owner {
          copies, locked := copies[batch[i] := w.source[batch[i]]], locked + {batch[i]};
        }
      }
      assert batch[..n] == batch;
      ghost var pending0 := pending;
      assert pending0 == batch + pending0[n..];
      items, inFlight, pending := copies, locked, pending[n..];
      forall k
        ensures KeyOk(w, owner, pending, items, restored, inFlight, asked, k)
      {
        assert KeyOk(w, owner, pending0, map[], restored, {}, asked, k);
      }
    }

    /** A RESTORE of the batch reaches its target; a retried pipeline may bring it again. */
    method Arrive(key: Key)
      requires Valid() && key in items && key in owner && owner[key] in w.targets
      modifies `w, `restored
      ensures Valid() && NoReturn() && restored == old(restored) + {key}
      ensures w == old(w).(targets := old(w).targets[owner[key] := old(w).targets[owner[key]][key := items[key]]])
      ensures state.Failed? && AllRight(old(w), owner) ==>
        (AllRight(w, owner) <==> Harmless(owner, old(Now()), Arrives(key)))
    {
      ghost var v, restored0 := w, restored;
      var shard := owner[key];
      w := w.(targets := w.targets[shard := w.targets[shard][key := items[key]]]);
      restored := restored + {key};
      forall k
        ensures !state.Failed? ==> KeyOk(w, owner, pending, items, restored, inFlight, asked, k)
        ensures state.Failed? ==> KeyLoose(w, owner, items, restored, asked, k)
        ensures Right(v, owner, k) ==> (Right(w, owner, k) <==>
          k != key || key in v.source || Get(v.truth, key) == Some(items[key]))
      {
        if state.Failed? {
          assert KeyLoose(v, owner, items, restored0, asked, k);
        } else {
          assert KeyOk(v, owner, pending, items, restored0, inFlight, asked, k);
        }
      }
      if state.Failed? && AllRight(v, owner) {
        assert Right(v, owner, key);
        assert AllRight(w, owner) ==> Right(w, owner, key);
      }
    }

    /** A target has answered for all its copies: the source's go, whatever they are by then. */
    method Acknowledge(shard: Shard)
      requires Valid() && Arrived(owner, items, restored, shard)
      modifies `w, `items, `restored, `moved
      ensures Valid() && NoReturn() && Becomes(owner, batchSize, Acknowledged(shard), old(Now()), Now())
      ensures state.Failed? && AllRight(old(w), owner) ==>
        (AllRight(w, owner) <==> Harmless(owner, old(Now()), Acknowledged(shard)))
    {
      ghost var v, items0, restored0 := w, items, restored;
      forall k | k in items
        ensures k in owner
      {
        if state.Failed? {
          assert KeyLoose(v, owner, items, restored, asked, k);
        } else {
          assert KeyOk(v, owner, pending, items, restored, inFlight, asked, k);
        }
      }
      var gone := Bound(items, owner, shard);
      w := w.(source := w.source - gone);
      items, restored, moved := items - gone, restored - gone, moved + |gone|;
      forall k
        ensures !state.Failed? ==> KeyOk(w, owner, pending, items, restored, inFlight, asked, k)
        ensures state.Failed? ==> KeyLoose(w, owner, items, restored, asked, k)
        ensures k in gone ==> owner[k] in v.targets
      {
        if state.Failed? {
          assert KeyLoose(v, owner, items0, restored0, asked, k);
          LooseWithout(v, owner, items0, restored0, asked, gone, k);
        } else {
          assert KeyOk(v, owner, pending, items0, restored0, inFlight, asked, k);
          OkWithout(v, owner, pending, items0, restored0, inFlight, asked, gone, k);
        }
      }
      if state.Failed? && AllRight(v, owner) {
        AcknowledgedRight(v, owner, gone);
      }
    }

    /**
     A target refuses a copy: the migration fails, its keys are unlocked, and the other targets'
     answers still come.
     */
    method Refuse(shard: Shard)
      requires Valid() && Bound(items, owner, shard) != {}
      modifies `items, `restored, `inFlight, `state
      ensures Valid() && state.Failed? && (AllRight(w, owner) || old(state).Failed?)
      ensures Becomes(owner, batchSize, Refused(shard), old(Now()), Now())
    {
      if !state.Failed? {
        ValidIsRight();
      }
      ghost var stage := Now();
      var gone := Bound(items, owner, shard);
      items, restored, inFlight, state := items - gone, restored - gone, {}, Failed;
      forall k
        ensures KeyLoose(w, owner, items, restored, asked, k)
      {
        if stage.state.Failed? {
          assert KeyLoose(w, owner, stage.items, stage.restored, asked, k);
        } else {
          assert KeyOk(w, owner, pending, stage.items, stage.restored, stage.inFlight, asked, k);
        }
      }
    }

    /** Every target has answered: the keys are unlocked. */
    method EndBatch()
      requires Valid() && items == map[]
      modifies `inFlight
      ensures Valid() && Becomes(owner, batchSize, Ended, old(Now()), Now())
    {
      ghost var locked := inFlight;
      inFlight := {};
      if !state.Failed? {
        forall k
          ensures KeyOk(w, owner, pending, items, restored, inFlight, asked, k)
        {
          assert KeyOk(w, owner, pending, items, restored, locked, asked, k);
        }
      }
    }

    /** One event; one that cannot happen now does nothing. */
    method Handle(e: Event) returns (accepted: bool)
      requires Valid() && e.Proper()
      modifies this
      ensures Valid() && NoReturn() && (old(state).Failed? ==> state.Failed?)
      ensures accepted <==> Accepts(owner, old(Now()), e)
      ensures w.truth == if accepted then Ran(old(w).truth, e.command) else old(w).truth
      ensures AllRight(old(w), owner) ==> (AllRight(w, owner) <==> Harmless(owner, old(Now()), e))
      ensures Becomes(owner, batchSize, e, old(Now()), Now())
    {
      accepted := false;
      match e {
        case Here(command) =>
          var verdict := ClientHere(command);
          accepted := verdict.Serve?;
        case There(command, shard) =>
          accepted := ClientThere(command, shard);
        case Batch =>
          if state.Running? && items == map[] && inFlight == {} {
            NextBatch();
          }
        case Arrives(key) =>
          if state.Failed? {
            assert KeyLoose(w, owner, items, restored, asked, key);
          }
          if key in items && key in owner && owner[key] in w.targets {
            Arrive(key);
          }
        case Acknowledged(shard) =>
          if Arrived(owner, items, restored, shard) {
            Acknowledge(shard);
          }
        case Refused(shard) =>
          if Bound(items, owner, shard) != {} {
            Refuse(shard);
          }
        case Ended =>
          if items == map[] {
            EndBatch();
          }
      }
      if !state.Failed? {
        ValidIsRight();
      }
    }

    /**
     Every interleaving: what should be is what the accepted commands make; and after every event each
     key's copy that counts holds it, exactly if nothing harmful happens after a failure. Without a
     failure nothing is harmful, and once the migration is done no key that belongs elsewhere is here.
     */
    method Run(events: seq<Event>) returns (accepted: seq<bool>, ghost trace: seq<Stage>)
      requires Valid() && !state.Failed? && forall i :: 0 <= i < |events| ==> events[i].Proper()
      modifies this
      ensures Valid() && NoReturn() && |accepted| == |events| && |trace| == |events| + 1
      ensures trace[0] == old(Now()) && trace[|events|] == Now() && AcceptedAre(owner, trace, events, accepted)
      ensures AllBecome(owner, batchSize, events, trace, |events|)
      ensures w.truth == Folded(old(w).truth, events, accepted, |events|)
      ensures AlwaysRight(owner, trace) <==> NeverHarmful(owner, trace, events, |events|)
      ensures !state.Failed? ==> AlwaysRight(owner, trace)
      ensures state.Done? ==> forall k :: k in owner ==> k !in w.source
    {
      accepted, trace := [], [Now()];
      ValidIsRight();
      for i := 0 to |events|
        invariant Valid() && NoReturn() && |accepted| == i && Traced(owner, old(w).truth, events, accepted, trace)
        invariant trace[0] == old(Now()) && trace[i] == Now() && (!state.Failed? ==> AlwaysRight(owner, trace))
        invariant AllBecome(owner, batchSize, events, trace, i)
      {
        var done := Handle(events[i]);
        TracedOn(owner, old(w).truth, events, accepted, trace, done, Now());
        AllBecomeOn(owner, batchSize, events, trace, Now());
        accepted, trace := accepted + [done], trace + [Now()];
        if !state.Failed? {
          ValidIsRight();
        }
      }
      if state.Done? {
        NothingLeft();
      }
    }

    lemma NothingLeft()
      requires Valid() && state.Done?
      ensures forall k :: k in owner ==> k !in w.source
    {
      forall k | k in owner
        ensures k !in w.source
      {
        assert KeyOk(w, owner, pending, items, restored, inFlight, asked, k);
      }
    }
  }

  /**
   After a failure, a command that is let through keeps every key right exactly if it deletes none
   that has a copy.
   */
  lemma ServedRight(v: World, c: Command, owner: map<Key, Shard>)
    requires AllRight(v, owner) && c.Proper() && AllHere(v.source, owner, c.keys)
    ensures var w := v.(source := Ran(v.source, c), truth := Ran(v.truth, c));
      AllRight(w, owner) <==> forall k :: k in c.result ==> Deletable(owner, v, c.result, k)
  {
    var w := v.(source := Ran(v.source, c), truth := Ran(v.truth, c));
    forall k
      ensures Right(w, owner, k) <==> (k in c.result ==> Deletable(owner, v, c.result, k))
    {
      assert Right(v, owner, k);
      RanAt(v.source, c, k);
      RanAt(v.truth, c, k);
    }
  }
  /** Two keys at the source, one for each of two targets, both copied and locked. */
  method Begun(k: Key, j: Key, x: Val) returns (m: KeyMigration)
    requires k != j
    ensures fresh(m) && m.Valid() && m.state.Running? && m.owner == map[k := 0, j := 1]
    ensures m.items == map[k := x, j := x] && m.restored == {}
    ensures m.w == World(map[k := x, j := x], map[0 := map[], 1 := map[]], map[k := x, j := x])
  {
    var w := World(map[k := x, j := x], map[0 := map[], 1 := map[]], map[k := x, j := x]);
    m := Created(k, j, w);
    m.NextBatch();
    assert KeyOk(m.w, m.owner, m.pending, m.items, m.restored, m.inFlight, m.asked, k);
    assert KeyOk(m.w, m.owner, m.pending, m.items, m.restored, m.inFlight, m.asked, j);
    assert m.items.Keys == {k, j};
  }

  method Created(k: Key, j: Key, w: World) returns (m: KeyMigration)
    requires k != j && w.source.Keys == {k, j} && w.targets == map[0 := map[], 1 := map[]] && w.truth == w.source
    ensures fresh(m) && m.Valid() && m.state.Running? && m.owner == map[k := 0, j := 1] && m.batchSize == 2 && m.w == w
    ensures m.items == map[] && m.restored == {} && m.inFlight == {}
    ensures |m.pending| == 2 && k in m.pending && j in m.pending
  {
    var owner := map[k := 0, j := 1];
    m := new KeyMigration(owner, 2, w);
    assert (set i | i in w.source && i in owner) == {k, j};
  }

  /**
   One target takes its copy, the other refuses; that unlocks the first key, whose write is served
   here; then the first target's answer deletes it, and only the copy from before the write is left.
   */
  method WriteLost(k: Key, j: Key, x: Val, y: Val) returns (verdict: Verdict, left: Option<Val>, truth: Option<Val>)
    requires k != j && x != y
    ensures verdict.Serve? && left == Some(x) && truth == Some(y)
  {
    var m := Begun(k, j, x);
    m.Arrive(k);
    assert j in Bound(m.items, m.owner, 1);
    m.Refuse(1);
    assert m.items.Keys == {k};
    verdict := m.ClientHere(Command([k], map[k := Some(y)]));
    m.Acknowledge(0);
    left, truth := Authoritative(m.w, m.owner, k), Get(m.w.truth, k);
  }

  /** The same refusal, and a key deleted here afterwards: the copy at the target is the key again. */
  method DeletedReturns(k: Key, j: Key, x: Val) returns (verdict: Verdict, left: Option<Val>, truth: Option<Val>)
    requires k != j
    ensures verdict.Serve? && left == Some(x) && truth == None
  {
    var m := Begun(k, j, x);
    m.Arrive(k);
    assert j in Bound(m.items, m.owner, 1);
    m.Refuse(1);
    verdict := m.ClientHere(Command([k], map[k := None]));
    left, truth := Authoritative(m.w, m.owner, k), Get(m.w.truth, k);
  }
}
