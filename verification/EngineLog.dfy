/**
 The records that commands really log, and the operations on the store that they log: each record tells what
 its command did, and so does what a command logs that writes several.
 */
module EngineLog {
  import opened EventLog
  import opened Keyspace
  import opened Sequences
  import opened Values
  import opened Wrappers
  import E = Effects

  // ------------------------------------------------------------- single records

  /** A record of one key. */
  predicate OneKey(r: E.Record) {
    !r.Del? && !r.MSet? && !r.FlushAll?
  }

  /** What the handler that logs the record does to the store, whose keys are these. */
  function OpsOf(n: E.Numbers, m: Keys, r: E.Record): seq<Op>
    requires OneKey(r) && E.Apply(n, m, r).Ok?
  {
    var key := r.key;
    match r
    case Set(_, text, keepTtl) => [Setting(key, StringValue(text), keepTtl)]
    case PExpireAt(_, at) => [Expiring(key, at)]
    case Persist(_) => [Persisting(key)]
    case IncrBy(_, _) => [Setting(key, E.Apply(n, m, r).value[key].value, true)]
    case Append(_, _) => [Setting(key, E.Apply(n, m, r).value[key].value, true)]
    case Restore(_, value, deadline) =>
      [Setting(key, value, false)] + if deadline.Some? then [Expiring(key, deadline.value)] else []
    case SAdd(_, members) => [Updating(key, SetValue({}), SetValue(E.SetAt(m, key).value + ToSet(members)))]
    case SRem(_, members) =>
      if key in m then [Updating(key, SetValue({}), SetValue(E.SetAt(m, key).value - ToSet(members)))]
      else [Reading(key)]
    case ZAdd(_, scored) =>
      [Updating(key, ZSetValue(map[]), ZSetValue(E.PutScores(E.ScoresAt(m, key).value, scored)))]
    case ZRem(_, members) =>
      if key in m then [Updating(key, ZSetValue(map[]), ZSetValue(E.ScoresAt(m, key).value - ToSet(members)))]
      else [Reading(key)]
  }

  /** Whether a key past its deadline is deleted by a lookup, or deadlines are not looked at. */
  predicate Open(mode: Mode) {
    mode.deletes || !mode.enabled
  }

  lemma TextIs(n: E.Numbers, m: Keys, r: E.Record, now: int, mode: Mode)
    requires Open(mode) && (r.Set? || r.IncrBy? || r.Append?)
    requires E.Apply(n, Reaped(m, r.key, now, mode), r).Ok?
    ensures var m' := Reaped(m, r.key, now, mode);
      |OpsOf(n, m', r)| == 1 && After(m, OpsOf(n, m', r)[0], now, mode) == E.Apply(n, m', r).value
  {
    var m' := Reaped(m, r.key, now, mode);
    var c := E.Apply(n, m', r).value[r.key];
    assert m'[r.key := c] == m[r.key := c];
  }

  lemma DeadlineIs(n: E.Numbers, m: Keys, r: E.Record, now: int, mode: Mode)
    requires Open(mode) && (r.PExpireAt? || r.Persist?)
    ensures var m' := Reaped(m, r.key, now, mode);
      |OpsOf(n, m', r)| == 1 && After(m, OpsOf(n, m', r)[0], now, mode) == E.Apply(n, m', r).value
  {
    if r.key in m && m[r.key].expiresAt.None? {
      assert m[r.key := m[r.key].(expiresAt := None)] == m;
    }
  }

  /** A collection at the key, changed in place, and the record that puts the same there. */
  lemma CollectionIs(m: Keys, key: Key, empty: Value, result: Value, now: int, mode: Mode)
    requires Open(mode) && E.NoEmpty(m) && empty.IsEmpty()
    requires var m' := Reaped(m, key, now, mode); key in m' ==> m'[key].value.SameKind(empty)
    ensures Nonempty(After(m, Updating(key, empty, result), now, mode)) ==
            E.WithValue(Reaped(m, key, now, mode), key, result)
  {
    var m' := Reaped(m, key, now, mode);
    var c := Content(result, E.DeadlineAt(m', key));
    assert After(m, Updating(key, empty, result), now, mode) == m'[key := c];
    assert Nonempty(m'[key := c]) == E.DropEmpty(m'[key := c], key);
  }

  lemma SetIs(n: E.Numbers, m: Keys, r: E.Record, now: int, mode: Mode)
    requires Open(mode) && E.NoEmpty(m) && (r.SAdd? || r.SRem?)
    requires E.Apply(n, Reaped(m, r.key, now, mode), r).Ok?
    ensures var m' := Reaped(m, r.key, now, mode);
      |OpsOf(n, m', r)| == 1 && Nonempty(After(m, OpsOf(n, m', r)[0], now, mode)) == E.Apply(n, m', r).value
  {
    var m' := Reaped(m, r.key, now, mode);
    var op := OpsOf(n, m', r)[0];
    if op.Updating? {
      CollectionIs(m, r.key, op.empty, op.result, now, mode);
    } else {
      NonemptyIs(m');
    }
  }

  lemma SortedSetIs(n: E.Numbers, m: Keys, r: E.Record, now: int, mode: Mode)
    requires Open(mode) && E.NoEmpty(m) && (r.ZAdd? || r.ZRem?)
    requires E.Apply(n, Reaped(m, r.key, now, mode), r).Ok?
    ensures var m' := Reaped(m, r.key, now, mode);
      |OpsOf(n, m', r)| == 1 && Nonempty(After(m, OpsOf(n, m', r)[0], now, mode)) == E.Apply(n, m', r).value
  {
    var m' := Reaped(m, r.key, now, mode);
    var op := OpsOf(n, m', r)[0];
    if op.Updating? {
      CollectionIs(m, r.key, op.empty, op.result, now, mode);
    } else {
      NonemptyIs(m');
    }
  }

  lemma DoneOne(v: View, op: Op, now: int)
    ensures AllDone(v, [op], 1, now) == Done(v, op, now)
  {
    assert AllDone(v, [op], 0, now) == v;
  }

  lemma DoneTwo(v: View, a: Op, b: Op, now: int)
    ensures AllDone(v, [a, b], 2, now) == Done(Done(v, a, now), b, now)
  {
    assert AllDone(v, [a, b], 0, now) == v;
    assert AllDone(v, [a, b], 1, now) == Done(v, a, now);
  }

  lemma RestoreIs(n: E.Numbers, v: View, r: E.Record, now: int)
    requires Open(v.mode) && E.NoEmpty(v.contents) && r.Restore?
    ensures var m' := Reaped(v.contents, r.key, now, v.mode); var ops := OpsOf(n, m', r);
      Nonempty(AllDone(v, ops, |ops|, now).contents) == E.Apply(n, m', r).value
  {
    var key := r.key;
    var m' := Reaped(v.contents, key, now, v.mode);
    var c, c' := Content(r.value, None), Content(r.value, r.deadline);
    assert v.contents[key := c'] == m'[key := c'];
    var ops, set0 := OpsOf(n, m', r), Setting(key, r.value, false);
    if r.deadline.Some? {
      assert ops == [set0, Expiring(key, r.deadline.value)];
      DoneTwo(v, set0, Expiring(key, r.deadline.value), now);
      assert v.contents[key := c][key := c'] == v.contents[key := c'];
    } else {
      assert ops == [set0];
      DoneOne(v, set0, now);
    }
    assert Nonempty(m'[key := c']) == E.DropEmpty(m'[key := c'], key);
  }

  /** What the handler leaves is what the record says, on the keys as a lookup leaves them. */
  lemma RecordIs(n: E.Numbers, v: View, r: E.Record, now: int)
    requires Open(v.mode) && E.NoEmpty(v.contents) && OneKey(r)
    requires E.Apply(n, Reaped(v.contents, r.key, now, v.mode), r).Ok?
    ensures var m' := Reaped(v.contents, r.key, now, v.mode); var ops := OpsOf(n, m', r);
      Nonempty(AllDone(v, ops, |ops|, now).contents) == E.Apply(n, m', r).value
  {
    var m, m' := v.contents, Reaped(v.contents, r.key, now, v.mode);
    if r.Restore? {
      RestoreIs(n, v, r, now);
    } else if r.SAdd? || r.SRem? {
      SetIs(n, m, r, now, v.mode);
      DoneOne(v, OpsOf(n, m', r)[0], now);
    } else if r.ZAdd? || r.ZRem? {
      SortedSetIs(n, m, r, now, v.mode);
      DoneOne(v, OpsOf(n, m', r)[0], now);
    } else {
      if r.PExpireAt? || r.Persist? {
        DeadlineIs(n, m, r, now, v.mode);
      } else {
        TextIs(n, m, r, now, v.mode);
      }
      DoneOne(v, OpsOf(n, m', r)[0], now);
      AppliedNoEmpty(n, m', r);
      NonemptyIs(E.Apply(n, m', r).value);
    }
  }

  lemma AppliedNoEmpty(n: E.Numbers, m: Keys, r: E.Record)
    requires E.NoEmpty(m) && E.Apply(n, m, r).Ok?
    requires r.Set? || r.IncrBy? || r.Append? || r.PExpireAt? || r.Persist?
    ensures E.NoEmpty(E.Apply(n, m, r).value)
  {
  }

  /**
   Whatever a handler of one key does, a record of the key that leaves the same tells it, after the deletion
   of the key if the lookup found it expired.
   */
  lemma LogTells(n: E.Numbers, v: View, ops: seq<Op>, r: E.Record, now: int)
    requires Open(v.mode) && E.NoEmpty(v.contents) && OneKey(r) && ops != []
    requires E.Apply(n, Reaped(v.contents, r.key, now, v.mode), r) ==
             Ok(Nonempty(AllDone(v, ops, |ops|, now).contents))
    ensures Tells(n, v, ops, ReapingLog(v.contents, r.key, now, v.mode) + [r], now)
  {
    var b, reaping := Nonempty(AllDone(v, ops, |ops|, now).contents), ReapingLog(v.contents, r.key, now, v.mode);
    NonemptyIs(v.contents);
    forall since | AllAllowed(ops, now, v.mode, since)
      ensures TellsSince(n, v, ops, reaping + [r], now, since)
    {
      assert Allowed(ops[0], now, v.mode, since);
      ReapedThen(n, v.contents, r, b, now, v.mode, since);
    }
  }

  lemma ReapedThen(n: E.Numbers, m: Keys, r: E.Record, b: Keys, now: int, mode: Mode, since: Option<int>)
    requires Open(mode) && E.NoEmpty(m) && OneKey(r) && E.Apply(n, Reaped(m, r.key, now, mode), r) == Ok(b)
    requires since.Some? ==> mode == Mode(true, true) && since.value <= now
    ensures Matches(n, m, ReapingLog(m, r.key, now, mode) + [r], b, since)
  {
    var m' := Reaped(m, r.key, now, mode);
    NonemptyIs(m);
    NonemptyIs(m');
    ReapingMatches(n, m, r.key, now, mode, since);
    MatchesOne(n, m', r, b, since);
    MatchesThen(n, m, ReapingLog(m, r.key, now, mode), m', [r], b, since);
  }

  /** Every record of one key tells what its command does to the store. */
  lemma RecordTells(n: E.Numbers, v: View, r: E.Record, now: int)
    requires Open(v.mode) && E.NoEmpty(v.contents) && OneKey(r)
    requires E.Apply(n, Reaped(v.contents, r.key, now, v.mode), r).Ok?
    ensures Tells(n, v, OpsOf(n, Reaped(v.contents, r.key, now, v.mode), r),
                  ReapingLog(v.contents, r.key, now, v.mode) + [r], now)
  {
    RecordIs(n, v, r, now);
    LogTells(n, v, OpsOf(n, Reaped(v.contents, r.key, now, v.mode), r), r, now);
  }

  // --------------------------------------------------------------- many keys

  function Deletings(keys: seq<Key>): (ops: seq<Op>)
    ensures |ops| == |keys| && forall i :: 0 <= i < |keys| ==> ops[i] == Deleting(keys[i])
  {
    seq(|keys|, i requires 0 <= i < |keys| => Deleting(keys[i]))
  }

  lemma {:induction false} DeletedAll(v: View, keys: seq<Key>, count: nat, now: int)
    requires Open(v.mode) && count <= |keys|
    ensures AllDone(v, Deletings(keys), count, now) == v.(contents := v.contents - ToSet(keys[..count]))
  {
    if count == 0 {
      assert v.contents - ToSet(keys[..0]) == v.contents;
    } else {
      DeletedAll(v, keys, count - 1, now);
      assert keys[..count] == keys[..count - 1] + [keys[count - 1]];
      var m := v.contents - ToSet(keys[..count - 1]);
      assert m - {keys[count - 1]} == v.contents - ToSet(keys[..count]);
      assert keys[count - 1] !in m ==> m - {keys[count - 1]} == m;
    }
  }

  /** The keys that DEL records name. */
  function Dropped(log: Log): set<Key> {
    if log == [] then {}
    else Dropped(log[..|log| - 1]) + log[|log| - 1].Touched()
  }

  ghost predicate AllDels(log: Log) {
    forall i :: 0 <= i < |log| ==> log[i].Del?
  }

  lemma {:induction false} DelsMatch(n: E.Numbers, m: Keys, log: Log, since: Option<int>)
    requires AllDels(log)
    ensures Matches(n, m, log, m - Dropped(log), since)
  {
    if log == [] {
      assert m - Dropped(log) == m;
      MatchesNone(n, m, since);
    } else {
      var init, r := log[..|log| - 1], log[|log| - 1];
      DelsMatch(n, m, init, since);
      var b := m - Dropped(init);
      assert b - ToSet(r.keys) == m - Dropped(log);
      MatchesOne(n, b, r, m - Dropped(log), since);
      MatchesThen(n, m, init, b, [r], m - Dropped(log), since);
      assert init + [r] == log;
    }
  }

  /**
   DEL and its like: deleting the keys one by one is told by any DELs that name, of the keys there are,
   exactly these: for those found expired as for the others.
   */
  lemma DelsTell(n: E.Numbers, v: View, keys: seq<Key>, log: Log, now: int)
    requires Open(v.mode) && AllDels(log) && Dropped(log) * v.contents.Keys == ToSet(keys) * v.contents.Keys
    ensures Tells(n, v, Deletings(keys), log, now)
  {
    DeletedAll(v, keys, |keys|, now);
    assert keys[..|keys|] == keys;
    var a := Nonempty(v.contents);
    forall k | k in v.contents
      ensures k in Dropped(log) <==> k in ToSet(keys)
    {
      assert k in Dropped(log) * v.contents.Keys <==> k in ToSet(keys) * v.contents.Keys;
    }
    assert a - Dropped(log) == Nonempty(v.contents - ToSet(keys));
    forall since | AllAllowed(Deletings(keys), now, v.mode, since)
      ensures TellsSince(n, v, Deletings(keys), log, now, since)
    {
      DelsMatch(n, a, log, since);
    }
  }

  function Settings(pairs: seq<(Key, string)>): (ops: seq<Op>)
    ensures |ops| == |pairs|
    ensures forall i :: 0 <= i < |pairs| ==> ops[i] == Setting(pairs[i].0, StringValue(pairs[i].1), false)
  {
    seq(|pairs|, i requires 0 <= i < |pairs| => Setting(pairs[i].0, StringValue(pairs[i].1), false))
  }

  lemma {:induction false} SetAll(v: View, pairs: seq<(Key, string)>, count: nat, now: int)
    requires count <= |pairs|
    ensures AllDone(v, Settings(pairs), count, now) == v.(contents := E.PutAll(v.contents, pairs[..count]))
  {
    if count > 0 {
      SetAll(v, pairs, count - 1, now);
      assert pairs[..count][..count - 1] == pairs[..count - 1];
    }
  }

  lemma {:induction false} PutAllNoEmpty(m: Keys, pairs: seq<(Key, string)>)
    requires E.NoEmpty(m)
    ensures E.NoEmpty(E.PutAll(m, pairs))
  {
    if pairs != [] {
      PutAllNoEmpty(m, pairs[..|pairs| - 1]);
    }
  }

  lemma MSetTells(n: E.Numbers, v: View, pairs: seq<(Key, string)>, now: int)
    requires E.NoEmpty(v.contents)
    ensures Tells(n, v, Settings(pairs), [E.MSet(pairs)], now)
  {
    SetAll(v, pairs, |pairs|, now);
    assert pairs[..|pairs|] == pairs;
    var b := E.PutAll(v.contents, pairs);
    PutAllNoEmpty(v.contents, pairs);
    NonemptyIs(v.contents);
    NonemptyIs(b);
    forall since | AllAllowed(Settings(pairs), now, v.mode, since)
      ensures TellsSince(n, v, Settings(pairs), [E.MSet(pairs)], now, since)
    {
      MatchesOne(n, v.contents, E.MSet(pairs), b, since);
    }
  }

  lemma FlushTells(n: E.Numbers, v: View, now: int)
    ensures Tells(n, v, [Flushing], [E.FlushAll], now)
  {
    DoneOne(v, Flushing, now);
    assert Nonempty(map[]) == map[];
    forall since | AllAllowed([Flushing], now, v.mode, since)
      ensures TellsSince(n, v, [Flushing], [E.FlushAll], now, since)
    {
      FlushingMatches(n, Nonempty(v.contents), since);
    }
  }

  // ------------------------------------------------------------ several records

  lemma {:induction false} DoneAppend(v: View, first: seq<Op>, second: seq<Op>, count: nat, now: int)
    requires count <= |second|
    ensures AllDone(v, first + second, |first| + count, now) ==
            AllDone(AllDone(v, first, |first|, now), second, count, now)
    ensures AllDone(v, first, |first|, now).mode == v.mode
  {
    DoneMode(v, first, |first|, now);
    if count == 0 {
      DonePrefix(v, first, second, |first|, now);
    } else {
      DoneAppend(v, first, second, count - 1, now);
      assert (first + second)[|first| + count - 1] == second[count - 1];
    }
  }

  lemma {:induction false} DoneMode(v: View, ops: seq<Op>, count: nat, now: int)
    requires count <= |ops|
    ensures AllDone(v, ops, count, now).mode == v.mode
  {
    if count > 0 {
      DoneMode(v, ops, count - 1, now);
    }
  }

  lemma {:induction false} DonePrefix(v: View, first: seq<Op>, second: seq<Op>, count: nat, now: int)
    requires count <= |first|
    ensures AllDone(v, first + second, count, now) == AllDone(v, first, count, now)
  {
    if count > 0 {
      DonePrefix(v, first, second, count - 1, now);
      assert (first + second)[count - 1] == first[count - 1];
    }
  }

  /** What one part of a handler logs and then another tells what they do together. */
  lemma TellsThen(n: E.Numbers, v: View, first: seq<Op>, log: Log, second: seq<Op>, more: Log, now: int)
    requires Tells(n, v, first, log, now) && Tells(n, AllDone(v, first, |first|, now), second, more, now)
    ensures Tells(n, v, first + second, log + more, now)
  {
    var u := AllDone(v, first, |first|, now);
    DoneAppend(v, first, second, |second|, now);
    var w := AllDone(u, second, |second|, now);
    forall since | AllAllowed(first + second, now, v.mode, since)
      ensures TellsSince(n, v, first + second, log + more, now, since)
    {
      AllowedParts(first, second, now, v.mode, since);
      assert TellsSince(n, v, first, log, now, since) && TellsSince(n, u, second, more, now, since);
      MatchesThen(n, Nonempty(v.contents), log, Nonempty(u.contents), more, Nonempty(w.contents), since);
    }
  }

  lemma AllowedParts(first: seq<Op>, second: seq<Op>, now: int, mode: Mode, since: Option<int>)
    requires AllAllowed(first + second, now, mode, since)
    ensures AllAllowed(first, now, mode, since) && AllAllowed(second, now, mode, since)
  {
    forall i | 0 <= i < |first|
      ensures Allowed(first[i], now, mode, since)
    {
      assert (first + second)[i] == first[i];
    }
    forall i | 0 <= i < |second|
      ensures Allowed(second[i], now, mode, since)
    {
      assert (first + second)[|first| + i] == second[i];
    }
  }
}
