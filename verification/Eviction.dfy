/**
 Eviction policies: what the store tells them about its keys, and the victim
 they pick when it is over a limit. Random draws are arbitrary choices.
 */
module Eviction {
  import opened KeySets
  import opened Sequences
  import opened Values
  import opened Wrappers

  const INIT_COUNTER := 5
  const MAX_COUNTER := 255
  const SAMPLES := 10

  /** An access counter and the minute it was last brought up to date. */
  datatype Counter = Counter(count: int, minute: int)
  {
    /** The counter after one step of decay per idle minute. */
    function Decayed(minute: int): (c: nat) {
      var c := count - (minute - this.minute);
      if c < 0 then 0 else c
    }
  }

  datatype Policy =
    | Lru(order: seq<Key>)
    | Lfu(keys: KeySet, meta: map<Key, Counter>)
    | Random(keys: KeySet)
    | NoEviction(count: int)
  {
    predicate Evicts() {
      !NoEviction?
    }

    /** The policy knows exactly the keys of the store. */
    ghost predicate Tracks(all: set<Key>) {
      && (Lru? ==> Enumerates(order, all))
      && (Lfu? ==> keys.Holds(all) && meta.Keys == all)
      && (Random? ==> keys.Holds(all))
      && (NoEviction? ==> count == |all|)
    }

    function OnInsert(key: Key, minute: int): Policy {
      match this
      case Lru(order) => Lru(Without(order, key) + [key])
      case Lfu(keys, meta) => Lfu(keys.Add(key), meta[key := Counter(INIT_COUNTER, minute)])
      case Random(keys) => Random(keys.Add(key))
      case NoEviction(count) => NoEviction(count + 1)
    }

    /** lucky is the coin flip of the logarithmic counter. */
    function OnAccess(key: Key, minute: int, lucky: bool): Policy {
      match this
      case Lru(order) => if key in order then Lru(Without(order, key) + [key]) else this
      case Lfu(keys, meta) =>
        if key in meta then
          Lfu(keys, meta[key := Counter(Increment(meta[key].Decayed(minute), lucky), minute)])
        else this
      case _ => this
    }

    function OnRemove(key: Key): Policy {
      match this
      case Lru(order) => Lru(Without(order, key))
      case Lfu(keys, meta) => if key in meta then Lfu(keys.Discard(key), meta - {key}) else this
      case Random(keys) => Random(keys.Discard(key))
      case NoEviction(count) => NoEviction(count - 1)
    }

    function Clear(): Policy {
      match this
      case Lru(_) => Lru([])
      case Lfu(_, _) => Lfu(Empty(), map[])
      case Random(_) => Random(Empty())
      case NoEviction(_) => NoEviction(0)
    }
  }

  /** Up to INIT_COUNTER the odds of an increment are 1; at MAX_COUNTER they are 0. */
  function Increment(counter: int, lucky: bool): (c: int)
    ensures c <= MAX_COUNTER
    ensures c <= counter + 1
  {
    if counter >= MAX_COUNTER then MAX_COUNTER
    else if counter <= INIT_COUNTER || lucky then counter + 1
    else counter
  }

  /** s lists the keys of all, each once. */
  ghost predicate Enumerates(s: seq<Key>, all: set<Key>) {
    if s == [] then all == {} else s[0] in all && Enumerates(s[1..], all - {s[0]})
  }

  lemma {:induction false} EnumeratesSpec(s: seq<Key>, all: set<Key>)
    ensures Enumerates(s, all) <==> Distinct(s) && ToSet(s) == all
  {
    if s != [] {
      EnumeratesSpec(s[1..], all - {s[0]});
      assert s == [s[0]] + s[1..];
      assert ToSet(s) == ToSet(s[1..]) + {s[0]};
      assert Distinct(s) <==> Distinct(s[1..]) && s[0] !in ToSet(s[1..]);
    } else {
      assert ToSet(s) == {};
    }
  }

  /** s without key, the other keys in the same order. */
  function Without(s: seq<Key>, key: Key): (r: seq<Key>) {
    if s == [] then [] else (if s[0] == key then [] else [s[0]]) + Without(s[1..], key)
  }

  lemma {:induction false} WithoutSpec(s: seq<Key>, key: Key)
    ensures forall k :: k in Without(s, key) <==> k in s && k != key
    ensures Distinct(s) ==> Distinct(Without(s, key))
  {
    if s != [] {
      WithoutSpec(s[1..], key);
      assert s == [s[0]] + s[1..];
      if Distinct(s) {
        assert s[0] !in s[1..] && Distinct(s[1..]);
        assert s[0] !in Without(s[1..], key);
      }
    }
  }

  lemma LruTracks(order: seq<Key>, all: set<Key>, key: Key)
    requires Enumerates(order, all)
    ensures Enumerates(Without(order, key), all - {key}) && Enumerates(Without(order, key) + [key], all + {key})
    ensures key in order <==> key in all
  {
    WithoutSpec(order, key);
    var w := Without(order, key);
    var t := w + [key];
    EnumeratesSpec(order, all);
    EnumeratesSpec(w, all - {key});
    EnumeratesSpec(t, all + {key});
    assert ToSet(w) == all - {key};
    assert ToSet(t) == all + {key};
    assert key in order <==> key in ToSet(order);
  }

  /** Every hook keeps the tracked keys equal to the store's keys. */
  lemma InsertTracks(p: Policy, all: set<Key>, key: Key, minute: int)
    requires p.Tracks(all) && key !in all
    ensures p.OnInsert(key, minute).Tracks(all + {key})
  {
    if p.Lru? {
      LruTracks(p.order, all, key);
    } else if p.Lfu? || p.Random? {
      AddKeeps(p.keys, key, all);
    }
  }

  lemma AccessTracks(p: Policy, all: set<Key>, key: Key, minute: int, lucky: bool)
    requires p.Tracks(all)
    ensures p.OnAccess(key, minute, lucky).Tracks(all)
  {
    if p.Lru? {
      LruTracks(p.order, all, key);
      assert key in all ==> all + {key} == all;
    }
  }

  lemma RemoveTracks(p: Policy, all: set<Key>, key: Key)
    requires p.Tracks(all) && key in all
    ensures p.OnRemove(key).Tracks(all - {key})
  {
    if p.Lru? {
      LruTracks(p.order, all, key);
    } else if p.Lfu? || p.Random? {
      DiscardKeeps(p.keys, key, all);
    }
  }

  lemma ClearTracks(p: Policy)
    ensures p.Clear().Tracks({}) && Follows(p.Clear(), [])
  {
  }

  /** What the store reports about a key. */
  datatype Hook = Insert(key: Key) | Access(key: Key) | Remove(key: Key)

  /** A policy after a hook. */
  function Hooked(p: Policy, h: Hook, minute: int, lucky: bool): Policy {
    match h
    case Insert(k) => p.OnInsert(k, minute)
    case Access(k) => p.OnAccess(k, minute, lucky)
    case Remove(k) => p.OnRemove(k)
  }

  /** The LRU order after a history of hooks. */
  function LruAfter(trace: seq<Hook>): Policy
    ensures LruAfter(trace).Lru?
  {
    if trace == [] then Lru([]) else Hooked(LruAfter(trace[..|trace| - 1]), trace[|trace| - 1], 0, true)
  }

  /** An LRU policy is what its history makes it. */
  ghost predicate Follows(p: Policy, trace: seq<Hook>) {
    p.Lru? ==> p == LruAfter(trace)
  }

  lemma FollowsOn(p: Policy, trace: seq<Hook>, h: Hook, minute: int, lucky: bool)
    requires Follows(p, trace)
    ensures Follows(Hooked(p, h, minute, lucky), trace + [h])
  {
    assert (trace + [h])[..|trace|] == trace;
  }

  /** When k was last inserted or used, or -1. */
  function LastTouch(trace: seq<Hook>, k: Key): int {
    if trace == [] then -1
    else
      var h := trace[|trace| - 1];
      if !h.Remove? && h.key == k then |trace| - 1 else LastTouch(trace[..|trace| - 1], k)
  }

  ghost predicate ByTouch(s: seq<Key>, trace: seq<Hook>) {
    forall i, j :: 0 <= i < j < |s| ==> LastTouch(trace, s[i]) < LastTouch(trace, s[j])
  }

  lemma {:induction false} WithoutByTouch(s: seq<Key>, key: Key, trace: seq<Hook>)
    requires ByTouch(s, trace)
    ensures ByTouch(Without(s, key), trace)
  {
    if s != [] {
      WithoutByTouch(s[1..], key, trace);
      WithoutSpec(s[1..], key);
      var r := Without(s[1..], key);
      forall i | 0 <= i < |r|
        ensures LastTouch(trace, s[0]) < LastTouch(trace, r[i])
      {
        assert r[i] in s[1..];
        var j :| 0 <= j < |s[1..]| && s[1..][j] == r[i];
        assert s[j + 1] == r[i];
      }
    }
  }

  lemma {:induction false} LastTouchBound(trace: seq<Hook>, k: Key)
    ensures -1 <= LastTouch(trace, k) < |trace|
  {
    if trace != [] {
      LastTouchBound(trace[..|trace| - 1], k);
    }
  }

  /** After any history the order is by last use, the least recently used key first. */
  lemma {:induction false} LruOrder(trace: seq<Hook>)
    ensures ByTouch(LruAfter(trace).order, trace)
  {
    if trace != [] {
      var before, h := trace[..|trace| - 1], trace[|trace| - 1];
      LruOrder(before);
      var s := LruAfter(before).order;
      var w := Without(s, h.key);
      WithoutByTouch(s, h.key, before);
      WithoutSpec(s, h.key);
      forall k | k != h.key
        ensures LastTouch(trace, k) == LastTouch(before, k) < |before|
      {
        LastTouchBound(before, k);
      }
      assert forall i :: 0 <= i < |w| ==> w[i] in w;
      if h.Access? && h.key !in s {
        assert forall i :: 0 <= i < |s| ==> s[i] in s;
      }
    }
  }

  /** Oldest first. */
  method FirstUnprotected(order: seq<Key>, protect: set<Key>) returns (victim: Option<Key>)
    ensures victim.None? <==> forall i :: 0 <= i < |order| ==> order[i] in protect
    ensures victim.Some? ==> victim.value !in protect
    ensures victim.Some? ==>
      exists i :: 0 <= i < |order| && order[i] == victim.value && forall j :: 0 <= j < i ==> order[j] in protect
  {
    for i := 0 to |order|
      invariant forall j :: 0 <= j < i ==> order[j] in protect
    {
      if order[i] !in protect {
        return Some(order[i]);
      }
    }
    return None;
  }

  /** Eight draws, then a scan, so an unprotected key is found whenever there is one. */
  method RandomVictim(keys: KeySet, protect: set<Key>, ghost all: set<Key>) returns (victim: Option<Key>)
    requires keys.Holds(all)
    ensures victim.None? <==> all <= protect
    ensures victim.Some? ==> victim.value in all - protect
  {
    ItemsAreKeys(keys, all);
    for _ := 0 to 8 {
      var picked := Sample(keys, 1, all);
      if picked == [] {
        assert all == {};
        return None;
      }
      assert picked[0] in ToSet(picked);
      if picked[0] !in protect {
        return Some(picked[0]);
      }
    }
    victim := FirstUnprotected(keys.items, protect);
    assert forall k :: k in all <==> k in keys.items;
  }

  /** min(candidates, key=counter). */
  method LowestCounter(candidates: seq<Key>, meta: map<Key, Counter>, minute: int) returns (victim: Key)
    requires candidates != [] && ToSet(candidates) <= meta.Keys
    ensures victim in candidates
    ensures forall k :: k in candidates ==> meta[victim].Decayed(minute) <= meta[k].Decayed(minute)
  {
    assert forall k :: k in candidates ==> k in ToSet(candidates);
    victim := candidates[0];
    for i := 0 to |candidates|
      invariant victim in candidates
      invariant forall j :: 0 <= j < i ==> meta[victim].Decayed(minute) <= meta[candidates[j]].Decayed(minute)
    {
      if meta[candidates[i]].Decayed(minute) < meta[victim].Decayed(minute) {
        victim := candidates[i];
      }
    }
  }

  /** The keys of a list that are not protected. */
  method Unprotected(keys: seq<Key>, protect: set<Key>) returns (left: seq<Key>)
    ensures forall k :: k in left <==> k in keys && k !in protect
  {
    left := [];
    for i := 0 to |keys|
      invariant forall k :: k in left <==> k in keys[..i] && k !in protect
    {
      assert keys[..i + 1] == keys[..i] + [keys[i]];
      if keys[i] !in protect {
        left := left + [keys[i]];
      }
    }
    assert keys[..|keys|] == keys;
  }

  /** The lowest counter among the unprotected keys of a sample; failing that, among all. */
  method LfuVictim(keys: KeySet, meta: map<Key, Counter>, protect: set<Key>, minute: int, ghost all: set<Key>)
    returns (victim: Option<Key>, ghost sample: set<Key>)
    requires keys.Holds(all) && meta.Keys == all
    ensures victim.None? <==> all <= protect
    ensures victim.Some? ==> victim.value in all - protect
    ensures sample <= all && |sample| == if |all| < SAMPLES then |all| else SAMPLES
    ensures victim.Some? ==>
      forall k :: k in (if sample <= protect then all else sample) - protect ==>
        meta[victim.value].Decayed(minute) <= meta[k].Decayed(minute)
    ensures victim.Some? && !(sample <= protect) ==> victim.value in sample
  {
    ItemsAreKeys(keys, all);
    var drawn := Sample(keys, SAMPLES, all);
    sample := ToSet(drawn);
    DistinctSize(drawn);
    assert forall k :: k in all <==> k in keys.items;
    assert forall k :: k in sample <==> k in drawn;
    var candidates := Unprotected(drawn, protect);
    assert candidates != [] ==> candidates[0] in candidates;
    if candidates == [] {
      candidates := Unprotected(keys.items, protect);
      assert candidates != [] ==> candidates[0] in candidates;
      if candidates == [] {
        return None, sample;
      }
    }
    var lowest := LowestCounter(candidates, meta, minute);
    victim := Some(lowest);
  }

  /** The first unprotected key of an order by last use is the one used longest ago. */
  lemma OldestUnprotected(order: seq<Key>, trace: seq<Hook>, protect: set<Key>, i: nat)
    requires ByTouch(order, trace) && i < |order| && forall j :: 0 <= j < i ==> order[j] in protect
    ensures forall k :: k in order && k !in protect && k != order[i] ==>
      LastTouch(trace, order[i]) < LastTouch(trace, k)
  {
  }

  /** The unprotected key used longest ago. */
  ghost predicate LeastRecent(victim: Key, all: set<Key>, protect: set<Key>, trace: seq<Hook>) {
    forall k :: k in all - protect && k != victim ==> LastTouch(trace, victim) < LastTouch(trace, k)
  }

  /**
   The key to evict next among the unprotected ones: under LRU the one used longest ago, under LFU
   the one with the lowest counter in a sample.
   */
  method Victim(p: Policy, protect: set<Key>, minute: int, ghost all: set<Key>, ghost trace: seq<Hook>)
    returns (victim: Option<Key>, ghost sample: set<Key>)
    requires p.Tracks(all) && Follows(p, trace)
    ensures victim.None? <==> !p.Evicts() || all <= protect
    ensures victim.Some? ==> victim.value in all - protect
    ensures p.Lru? && victim.Some? ==> LeastRecent(victim.value, all, protect, trace)
    ensures p.Lfu? && victim.Some? ==> LeastUsed(p.meta, victim.value, sample, all, protect, minute)
  {
    sample := {};
    match p {
      case NoEviction(_) => victim := None;
      case Lru(order) =>
        EnumeratesSpec(order, all);
        LruOrder(trace);
        victim := FirstUnprotected(order, protect);
        assert forall k :: k in all <==> k in order;
        if victim.Some? {
          ghost var i :| 0 <= i < |order| && order[i] == victim.value && forall j :: 0 <= j < i ==> order[j] in protect;
          OldestUnprotected(order, trace, protect, i);
        }
      case Random(keys) => victim := RandomVictim(keys, protect, all);
      case Lfu(keys, meta) => victim, sample := LfuVictim(keys, meta, protect, minute, all);
    }
  }

  /** The lowest counter among the unprotected keys of the sample, or of all keys if it has none. */
  ghost predicate LeastUsed(meta: map<Key, Counter>, victim: Key, sample: set<Key>, all: set<Key>, protect: set<Key>,
                            minute: int)
  {
    && sample <= all <= meta.Keys && victim in all && (sample <= protect || victim in sample)
    && |sample| == (if |all| < SAMPLES then |all| else SAMPLES)
    && forall k :: k in (if sample <= protect then all else sample) - protect ==>
         meta[victim].Decayed(minute) <= meta[k].Decayed(minute)
  }
}
