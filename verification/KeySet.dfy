/** A set of keys in a dense array plus a key-to-index map; removal swaps the last key into the hole. */
module KeySets {
  import opened Sequences

  datatype KeySet = KeySet(items: seq<string>, index: map<string, nat>)
  {
    /** Key k is in one place of the array, and the map says where; or in none. */
    ghost predicate InPlace(k: string) {
      && (k in index ==> index[k] < |items| && items[index[k]] == k)
      && (forall i :: 0 <= i < |items| && items[i] == k ==> k in index && index[k] == i)
    }

    /** The keys are these. */
    ghost predicate Holds(keys: set<string>) {
      forall k :: InPlace(k) && (k in index <==> k in keys)
    }

    function Add(key: string): KeySet {
      if key in index then this else KeySet(items + [key], index[key := |items|])
    }

    function Discard(key: string): KeySet {
      if key !in index || items == [] then this
      else
        var idx, rest := index[key], index - {key};
        var last, left := items[|items| - 1], items[..|items| - 1];
        if idx < |left| then KeySet(left[idx := last], rest[last := idx]) else KeySet(left, rest)
    }
  }

  function Empty(): KeySet {
    KeySet([], map[])
  }

  lemma AddKeeps(s: KeySet, key: string, keys: set<string>)
    requires s.Holds(keys)
    ensures s.Add(key).Holds(keys + {key})
  {
    forall k
      ensures s.Add(key).InPlace(k)
    {
      assert s.InPlace(k) && s.InPlace(key);
    }
  }

  lemma DiscardKeeps(s: KeySet, key: string, keys: set<string>)
    requires s.Holds(keys)
    ensures s.Discard(key).Holds(keys - {key})
  {
    if key in s.index {
      var last := s.items[|s.items| - 1];
      forall k
        ensures s.Discard(key).InPlace(k) && (k in s.Discard(key).index <==> k in keys - {key})
      {
        assert s.InPlace(k) && s.InPlace(key) && s.InPlace(last);
      }
    }
  }

  /** The array lists every key of the set once, so drawing an index draws a key. */
  lemma ItemsAreKeys(s: KeySet, keys: set<string>)
    requires s.Holds(keys)
    ensures ToSet(s.items) == keys && Distinct(s.items) && |s.items| == |keys|
  {
    forall i | 0 <= i < |s.items|
      ensures s.items[i] in keys && s.index[s.items[i]] == i
    {
      assert s.InPlace(s.items[i]);
    }
    forall k | k in keys
      ensures k in s.items
    {
      assert s.InPlace(k);
    }
    DistinctSize(s.items);
  }

  lemma {:induction false} DistinctSize(s: seq<string>)
    requires Distinct(s)
    ensures |ToSet(s)| == |s|
  {
    if s != [] {
      var rest := s[..|s| - 1];
      DistinctSize(rest);
      assert ToSet(s) == ToSet(rest) + {s[|s| - 1]};
    }
  }

  class SampleableKeySet {
    var items: seq<string>
    var index: map<string, nat>

    function State(): KeySet
      reads this
    {
      KeySet(items, index)
    }

    constructor ()
      ensures State() == Empty()
    {
      items, index := [], map[];
    }

    method Add(key: string)
      modifies this
      ensures State() == old(State()).Add(key)
    {
      if key !in index {
        index := index[key := |items|];
        items := items + [key];
      }
    }

    method Discard(key: string)
      requires State().Holds(index.Keys)
      modifies this
      ensures State() == old(State()).Discard(key)
    {
      if key !in index {
        return;
      }
      var idx := index[key];
      index := index - {key};
      var last := items[|items| - 1];
      items := items[..|items| - 1];
      if idx < |items| {
        items := items[idx := last];
        index := index[last := idx];
      }
    }
  }

  /** sample: min(k, number of keys) distinct keys, drawn from the array. */
  method Sample(s: KeySet, k: nat, ghost keys: set<string>) returns (drawn: seq<string>)
    requires s.Holds(keys)
    ensures Distinct(drawn) && ToSet(drawn) <= keys && |drawn| == if k < |keys| then k else |keys|
    ensures |keys| <= k ==> ToSet(drawn) == keys
  {
    ItemsAreKeys(s, keys);
    drawn := [];
    var pool := s.items;
    while |drawn| < k && pool != []
      invariant Parted(drawn, pool, keys) && |drawn| <= k
      decreases |pool|
    {
      var i: nat :| i < |pool|;
      DrawOne(drawn, pool, i, keys);
      drawn, pool := drawn + [pool[i]], pool[..i] + pool[i + 1..];
    }
    assert pool == [] ==> ToSet(pool) == {};
  }

  /** Part of the keys has been drawn and the rest is in the pool. */
  ghost predicate Parted(drawn: seq<string>, pool: seq<string>, keys: set<string>) {
    && Distinct(drawn) && Distinct(pool) && ToSet(drawn) !! ToSet(pool)
    && ToSet(drawn) + ToSet(pool) == keys && |drawn| + |pool| == |keys|
  }

  lemma DrawOne(drawn: seq<string>, pool: seq<string>, i: nat, keys: set<string>)
    requires Parted(drawn, pool, keys) && i < |pool|
    ensures Parted(drawn + [pool[i]], pool[..i] + pool[i + 1..], keys)
  {
    Taken(pool, i);
    assert ToSet(drawn + [pool[i]]) == ToSet(drawn) + {pool[i]};
    assert pool[i] in ToSet(pool);
    assert forall j :: 0 <= j < |drawn| ==> drawn[j] in ToSet(drawn);
  }

  lemma Taken(pool: seq<string>, i: nat)
    requires Distinct(pool) && i < |pool|
    ensures Distinct(pool[..i] + pool[i + 1..]) && ToSet(pool[..i] + pool[i + 1..]) == ToSet(pool) - {pool[i]}
  {
    var rest := pool[..i] + pool[i + 1..];
    forall x
      ensures x in rest <==> x in pool && x != pool[i]
    {
      if x in pool && x != pool[i] {
        var j :| 0 <= j < |pool| && pool[j] == x;
        assert rest[if j < i then j else j - 1] == x;
      }
    }
  }
}
