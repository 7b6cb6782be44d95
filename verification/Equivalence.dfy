/**
 Keyspaces that differ only in keys past their deadline: what a snapshot leaves out, what a start
 purges, and which records keep two such keyspaces together.
 */
module Equivalence {
  import opened Effects
  import opened Sequences
  import opened Values
  import opened Wrappers

  function Purged(m: Keys, t: int): Keys {
    map k | k in m && !m[k].Expired(t) :: m[k]
  }

  /** The same keys are live at time t, with the same content. */
  ghost predicate Same(a: Keys, b: Keys, t: int) {
    Purged(a, t) == Purged(b, t)
  }

  /** The two hold the same at this key. */
  predicate AgreeAt(a: Keys, b: Keys, k: Key) {
    (k in a <==> k in b) && (k in a ==> a[k] == b[k])
  }

  ghost predicate SameAt(a: Keys, b: Keys, t: int, k: Key) {
    && (k in a && !a[k].Expired(t) ==> k in b && b[k] == a[k])
    && (k in b && !b[k].Expired(t) ==> k in a && a[k] == b[k])
  }

  lemma SameIsPointwise(a: Keys, b: Keys, t: int)
    ensures Same(a, b, t) <==> forall k :: SameAt(a, b, t, k)
  {
    if Same(a, b, t) {
      forall k
        ensures SameAt(a, b, t, k)
      {
        assert k in Purged(a, t) <==> k in Purged(b, t);
      }
    }
    if forall k :: SameAt(a, b, t, k) {
      forall k
        ensures k in Purged(a, t) <==> k in Purged(b, t)
        ensures k in Purged(a, t) ==> Purged(a, t)[k] == Purged(b, t)[k]
      {
        assert SameAt(a, b, t, k);
      }
    }
  }

  /** A deadline that has passed stays past. */
  lemma SameLater(a: Keys, b: Keys, t: int, later: int)
    requires Same(a, b, t) && t <= later
    ensures Same(a, b, later)
  {
    SameIsPointwise(a, b, t);
    forall k
      ensures SameAt(a, b, later, k)
    {
      assert SameAt(a, b, t, k);
    }
    SameIsPointwise(a, b, later);
  }

  lemma PurgedIsSame(m: Keys, t: int)
    ensures Same(m, Purged(m, t), t) && Same(Purged(m, t), m, t)
  {
    assert Purged(Purged(m, t), t) == Purged(m, t);
  }

  lemma {:induction false} PutAllTouched(a: Keys, b: Keys, pairs: seq<(Key, string)>, k: Key)
    requires k in MSet(pairs).Touched()
    ensures AgreeAt(PutAll(a, pairs), PutAll(b, pairs), k)
  {
    var last := pairs[|pairs| - 1];
    if k != last.0 {
      var i :| 0 <= i < |pairs| && pairs[i].0 == k;
      assert pairs[..|pairs| - 1][i].0 == k;
      PutAllTouched(a, b, pairs[..|pairs| - 1], k);
    }
  }

  /** A record that reads its key does the same to two keyspaces that agree there. */
  lemma ReadingAgrees(n: Numbers, a: Keys, b: Keys, r: Record)
    requires !r.Blind() && AgreeAt(a, b, r.key)
    ensures Apply(n, a, r).Ok? <==> Apply(n, b, r).Ok?
    ensures Apply(n, a, r).Ok? ==> AgreeAt(Apply(n, a, r).value, Apply(n, b, r).value, r.key)
  {
  }

  /** Two keyspaces that agree where a record reads agree where it has written. */
  lemma WrittenAgrees(n: Numbers, a: Keys, b: Keys, r: Record, k: Key)
    requires r.Blind() || AgreeAt(a, b, r.key)
    requires Apply(n, a, r).Ok? && k in r.Touched()
    ensures Apply(n, b, r).Ok? && AgreeAt(Apply(n, a, r).value, Apply(n, b, r).value, k)
  {
    if !r.Blind() {
      ReadingAgrees(n, a, b, r);
    } else if r.MSet? {
      PutAllTouched(a, b, r.pairs, k);
    }
  }

  lemma BlindRuns(n: Numbers, m: Keys, r: Record)
    requires r.Blind()
    ensures Apply(n, m, r).Ok?
  {
  }

  /** The record does not read a key that only one of the two still has. */
  ghost predicate Settled(a: Keys, b: Keys, t: int, r: Record) {
    r.Blind() || (if r.key in b then !b[r.key].Expired(t) else r.key !in a)
  }

  /** Keyspaces that differ in expired keys only stay so, under every settled record. */
  lemma SameApply(n: Numbers, a: Keys, b: Keys, t: int, r: Record)
    requires Same(a, b, t) && Settled(a, b, t, r) && Apply(n, b, r).Ok?
    ensures Apply(n, a, r).Ok? && Same(Apply(n, a, r).value, Apply(n, b, r).value, t)
    ensures forall k :: k in r.Touched() ==> AgreeAt(Apply(n, a, r).value, Apply(n, b, r).value, k)
  {
    SameIsPointwise(a, b, t);
    if r.Blind() {
      BlindRuns(n, a, r);
    } else {
      assert SameAt(a, b, t, r.key);
      WrittenAgrees(n, b, a, r, r.key);
    }
    var a', b' := Apply(n, a, r).value, Apply(n, b, r).value;
    forall k
      ensures SameAt(a', b', t, k)
      ensures k in r.Touched() ==> AgreeAt(a', b', k)
    {
      assert SameAt(a, b, t, k);
      if r.FlushAll? {
      } else if k in r.Touched() {
        WrittenAgrees(n, b, a, r, k);
      } else {
        ApplyElsewhere(n, a, r, k);
        ApplyElsewhere(n, b, r, k);
      }
    }
    SameIsPointwise(a', b', t);
  }

  // ----------------------------------------------------- the exact condition

  /**
   What a client's command logs: it runs on what is in memory, it has looked its key up, so that one
   past its deadline is gone, and if the key is not there it creates it.
   */
  ghost predicate Effective(n: Numbers, b: Keys, t: int, r: Record) {
    && Apply(n, b, r).Ok?
    && (r.Blind() || (if r.key in b then !b[r.key].Expired(t) else r.key in Apply(n, b, r).value))
  }

  /** A key that only the files still have is read back to life, or makes the record fail. */
  lemma StaleRead(n: Numbers, a: Keys, b: Keys, t: int, r: Record)
    requires Same(a, b, t) && Effective(n, b, t, r) && !r.Blind() && r.key !in b && r.key in a
    ensures Apply(n, a, r).Err? || !Same(Apply(n, a, r).value, Apply(n, b, r).value, t)
  {
    SameIsPointwise(a, b, t);
    assert SameAt(a, b, t, r.key);
    if Apply(n, a, r).Ok? {
      var a', b' := Apply(n, a, r).value, Apply(n, b, r).value;
      SameIsPointwise(a', b', t);
      assert !b'[r.key].Expired(t);
      assert r.key in a' ==> a'[r.key].Expired(t);
      assert !SameAt(a', b', t, r.key);
    }
  }

  /** Memory and files stay together exactly if the record reads no key that only the files have. */
  lemma TogetherExactly(n: Numbers, a: Keys, b: Keys, t: int, r: Record)
    requires Same(a, b, t) && Effective(n, b, t, r)
    ensures Apply(n, a, r).Ok? && Same(Apply(n, a, r).value, Apply(n, b, r).value, t) <==>
      r.Blind() || r.key !in a.Keys - b.Keys
  {
    if r.Blind() || r.key !in a.Keys - b.Keys {
      SameApply(n, a, b, t, r);
    } else {
      StaleRead(n, a, b, t, r);
    }
  }

  /** The keys of s that no record has written. */
  ghost function Left(s: set<Key>, log: seq<Record>): set<Key> {
    if log == [] then s
    else if log[|log| - 1].FlushAll? then {}
    else Left(s, log[..|log| - 1]) - log[|log| - 1].Touched()
  }

  /** No record reads a key of s before one has written it. */
  ghost predicate Avoids(s: set<Key>, log: seq<Record>) {
    log != [] ==>
      Avoids(s, log[..|log| - 1]) && (log[|log| - 1].Blind() || log[|log| - 1].key !in Left(s, log[..|log| - 1]))
  }

  ghost predicate AllEffective(n: Numbers, b: Keys, t: int, log: seq<Record>) {
    log != [] ==>
      && AllEffective(n, b, t, log[..|log| - 1]) && Replay(n, b, log[..|log| - 1]).Ok?
      && Effective(n, Replay(n, b, log[..|log| - 1]).value, t, log[|log| - 1])
  }

  ghost predicate SameReplay(n: Numbers, a: Keys, b: Keys, t: int, log: seq<Record>) {
    Replay(n, a, log).Ok? && Replay(n, b, log).Ok? && Same(Replay(n, a, log).value, Replay(n, b, log).value, t)
  }

  /** After every record the two replays differ in expired keys only. */
  ghost predicate Together(n: Numbers, a: Keys, b: Keys, t: int, log: seq<Record>) {
    SameReplay(n, a, b, t, log) && (log != [] ==> Together(n, a, b, t, log[..|log| - 1]))
  }

  lemma OnlyOnes(n: Numbers, a: Keys, b: Keys, t: int, r: Record)
    requires Same(a, b, t) && Settled(a, b, t, r) && Apply(n, b, r).Ok?
    ensures Apply(n, a, r).Ok?
    ensures Apply(n, a, r).value.Keys - Apply(n, b, r).value.Keys ==
      if r.FlushAll? then {} else a.Keys - b.Keys - r.Touched()
  {
    SameApply(n, a, b, t, r);
    var a', b' := Apply(n, a, r).value, Apply(n, b, r).value;
    if !r.FlushAll? {
      forall k
        ensures k in a'.Keys - b'.Keys <==> k in a.Keys - b.Keys - r.Touched()
      {
        if k in r.Touched() {
          assert AgreeAt(a', b', k);
        } else {
          ApplyElsewhere(n, a, r, k);
          ApplyElsewhere(n, b, r, k);
        }
      }
    }
  }

  lemma {:induction false} AvoidingKeeps(n: Numbers, a: Keys, b: Keys, t: int, log: seq<Record>)
    requires Same(a, b, t) && AllEffective(n, b, t, log) && Avoids(a.Keys - b.Keys, log)
    ensures Together(n, a, b, t, log)
    ensures Replay(n, a, log).value.Keys - Replay(n, b, log).value.Keys == Left(a.Keys - b.Keys, log)
  {
    if log != [] {
      var before, r := log[..|log| - 1], log[|log| - 1];
      AvoidingKeeps(n, a, b, t, before);
      var a', b' := Replay(n, a, before).value, Replay(n, b, before).value;
      SameApply(n, a', b', t, r);
      OnlyOnes(n, a', b', t, r);
    }
  }

  /**
   A start purges what has expired without a record of it. What is logged then replays to the
   keyspace in memory, up to expired keys, exactly if no record reads a purged key that nothing has
   written since.
   */
  lemma {:induction false} PurgeExactly(n: Numbers, a: Keys, b: Keys, t: int, log: seq<Record>)
    requires Same(a, b, t) && AllEffective(n, b, t, log)
    ensures Together(n, a, b, t, log) <==> Avoids(a.Keys - b.Keys, log)
  {
    if log != [] {
      var before, r := log[..|log| - 1], log[|log| - 1];
      PurgeExactly(n, a, b, t, before);
      if Avoids(a.Keys - b.Keys, before) {
        AvoidingKeeps(n, a, b, t, before);
        TogetherExactly(n, Replay(n, a, before).value, Replay(n, b, before).value, t, r);
        if Avoids(a.Keys - b.Keys, log) {
          AvoidingKeeps(n, a, b, t, log);
        }
      }
    }
  }

  /** A purged string and a SADD after it: the files cannot be loaded any more. */
  lemma PurgedThenAdded(n: Numbers, key: Key, text: string, at: int, member: string)
    ensures
      var full, memory := map[key := Content(StringValue(text), Some(at))],
        Purged(map[key := Content(StringValue(text), Some(at))], at);
      var log := [SAdd(key, [member])];
      && memory == map[] && Replay(n, memory, log) == Ok(map[key := Content(SetValue({member}), None)])
      && Replay(n, full, log) == Err(WRONG_TYPE)
  {
    var full := map[key := Content(StringValue(text), Some(at))];
    var log := [SAdd(key, [member])];
    assert full[key].Expired(at);
    assert Purged(full, at) == map[];
    assert log[..0] == [] && Replay(n, full, []) == Ok(full);
    assert ToSet([member]) == {member};
    var r: Keys := map[];
    assert {} + {member} == {member};
    assert Apply(n, r, log[0]) == Ok(map[key := Content(SetValue({member}), None)]);
  }
}
