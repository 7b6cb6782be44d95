/**
 The store's events and the records that log them: replaying what is logged gives the keyspace the events
 gave, and a copy taken in slices gives it again with the records logged since it was begun: on a primary
 always, on a replica exactly if no record revives a key that the copy left out as expired.
 */
module EventLog {
  import opened Keyspace
  import opened Sequences
  import opened Values
  import opened Wrappers
  import E = Effects

  type Log = seq<E.Record>
  type Keys = E.Keys

  // ------------------------------------------------------------------ matching

  /** The rest lacks some of the keys, all of them past their deadline at the time. */
  ghost predicate Lags(m: Keys, rest: Keys, since: int) {
    && rest.Keys <= m.Keys
    && (forall k :: k in rest ==> rest[k] == m[k])
    && (forall k :: k in m && k !in rest ==> m[k].Expired(since))
  }

  /** Replaying the log on a keyspace that lags gives one that lags. */
  ghost predicate Rebuilds(n: E.Numbers, a: Keys, log: Log, b: Keys, since: int) {
    forall rest {:trigger ReplayLags(n, rest, log, b, since)} ::
      Lags(a, rest, since) ==> ReplayLags(n, rest, log, b, since)
  }

  ghost predicate ReplayLags(n: E.Numbers, rest: Keys, log: Log, b: Keys, since: int) {
    E.Replay(n, rest, log).Ok? && Lags(b, E.Replay(n, rest, log).value, since)
  }

  /** The log leads from one keyspace to the other, and from a copy without what had expired at a time as well. */
  ghost predicate Matches(n: E.Numbers, a: Keys, log: Log, b: Keys, since: Option<int>) {
    E.Replay(n, a, log) == Ok(b) && (since.Some? ==> Rebuilds(n, a, log, b, since.value))
  }

  lemma {:induction false} ReplayAppend(n: E.Numbers, base: Keys, first: Log, second: Log)
    requires E.Replay(n, base, first).Ok?
    ensures E.Replay(n, base, first + second) == E.Replay(n, E.Replay(n, base, first).value, second)
  {
    if second == [] {
      assert first + second == first;
    } else {
      var rest := second[..|second| - 1];
      ReplayAppend(n, base, first, rest);
      assert (first + second)[..|first + second| - 1] == first + rest;
    }
  }

  lemma MatchesNone(n: E.Numbers, a: Keys, since: Option<int>)
    ensures Matches(n, a, [], a, since)
  {
  }

  lemma RebuildsAt(n: E.Numbers, rest: Keys, a: Keys, log: Log, b: Keys, since: int) returns (next: Keys)
    requires Lags(a, rest, since) && Rebuilds(n, a, log, b, since)
    ensures E.Replay(n, rest, log) == Ok(next) && Lags(b, next, since)
  {
    assert ReplayLags(n, rest, log, b, since);
    next := E.Replay(n, rest, log).value;
  }

  lemma ReplayThen(n: E.Numbers, a: Keys, first: Log, b: Keys, second: Log, c: Keys)
    requires E.Replay(n, a, first) == Ok(b) && E.Replay(n, b, second) == Ok(c)
    ensures E.Replay(n, a, first + second) == Ok(c)
  {
    ReplayAppend(n, a, first, second);
  }

  lemma LagsThen(n: E.Numbers, rest: Keys, a: Keys, first: Log, b: Keys, second: Log, c: Keys, since: int)
    requires Lags(a, rest, since) && Rebuilds(n, a, first, b, since) && Rebuilds(n, b, second, c, since)
    ensures ReplayLags(n, rest, first + second, c, since)
  {
    var next := RebuildsAt(n, rest, a, first, b, since);
    var last := RebuildsAt(n, next, b, second, c, since);
    ReplayThen(n, rest, first, next, second, last);
  }

  lemma RebuildsThen(n: E.Numbers, a: Keys, first: Log, b: Keys, second: Log, c: Keys, since: int)
    requires Rebuilds(n, a, first, b, since) && Rebuilds(n, b, second, c, since)
    ensures Rebuilds(n, a, first + second, c, since)
  {
    forall rest | Lags(a, rest, since)
      ensures ReplayLags(n, rest, first + second, c, since)
    {
      LagsThen(n, rest, a, first, b, second, c, since);
    }
  }

  lemma MatchesThen(n: E.Numbers, a: Keys, first: Log, b: Keys, second: Log, c: Keys, since: Option<int>)
    requires Matches(n, a, first, b, since) && Matches(n, b, second, c, since)
    ensures Matches(n, a, first + second, c, since)
  {
    ReplayAppend(n, a, first, second);
    if since.Some? {
      RebuildsThen(n, a, first, b, second, c, since.value);
    }
  }

  lemma ReplayOne(n: E.Numbers, a: Keys, r: E.Record)
    ensures E.Replay(n, a, [r]) == E.Apply(n, a, r)
  {
    assert [r][..0] == [];
    assert E.Replay(n, a, []) == Ok(a);
  }

  lemma LagsSpared(n: E.Numbers, a: Keys, r: E.Record, b: Keys, rest: Keys, since: int)
    requires E.Apply(n, a, r) == Ok(b) && Lags(a, rest, since)
    requires r.Blind() || forall k :: k in r.Touched() && k in a ==> k in rest
    ensures ReplayLags(n, rest, [r], b, since)
  {
    var s := a.Keys - rest.Keys;
    assert a - s == rest;
    E.ApplyWithout(n, a, s, r);
    ReplayOne(n, rest, r);
    if !r.FlushAll? {
      E.StillExpired(n, a, s, since, r);
    }
  }

  lemma LagsOne(n: E.Numbers, a: Keys, r: E.Record, b: Keys, rest: Keys, since: int)
    requires E.Apply(n, a, r) == Ok(b) && Lags(a, rest, since)
    requires r.Blind() || forall k :: k in r.Touched() && k in a ==> !a[k].Expired(since)
    ensures ReplayLags(n, rest, [r], b, since)
  {
    LagsSpared(n, a, r, b, rest, since);
  }

  /** One record, if it does not read a key that had expired. */
  lemma MatchesOne(n: E.Numbers, a: Keys, r: E.Record, b: Keys, since: Option<int>)
    requires E.Apply(n, a, r) == Ok(b)
    requires since.Some? && !r.Blind() ==> forall k :: k in r.Touched() && k in a ==> !a[k].Expired(since.value)
    ensures Matches(n, a, [r], b, since)
  {
    ReplayOne(n, a, r);
    if since.Some? {
      forall rest | Lags(a, rest, since.value)
        ensures ReplayLags(n, rest, [r], b, since.value)
      {
        LagsOne(n, a, r, b, rest, since.value);
      }
    }
  }

  // --------------------------------------------------------------------- lags

  /**
   The record reads a key that the copy lacks as expired, and gives it a deadline to come, or none, or makes
   it anew in the copy, with other contents. SREM and ZREM find nothing to remove and do neither.
   */
  predicate Revives(m: Keys, rest: Keys, r: E.Record, since: int) {
    !r.Blind() && r.key in m && r.key !in rest &&
    match r
    case PExpireAt(_, at) => at > since
    case SAdd(_, members) => members != []
    case ZAdd(_, scored) => scored != []
    case SRem(_, _) => false
    case ZRem(_, _) => false
    case _ => true
  }

  /** A copy without some keys that had expired goes on lagging over a record exactly if that revives none of them. */
  lemma RecordLags(n: E.Numbers, m: Keys, r: E.Record, b: Keys, rest: Keys, since: int)
    requires E.Apply(n, m, r) == Ok(b) && Lags(m, rest, since)
    ensures ReplayLags(n, rest, [r], b, since) <==> !Revives(m, rest, r, since)
  {
    if r.Blind() || r.key !in m || r.key in rest {
      LagsSpared(n, m, r, b, rest, since);
    } else if r.SRem? || r.ZRem? || r.PExpireAt? || r.Persist? {
      UnmadeLags(n, m, r, b, rest, since);
    } else {
      MadeLags(n, m, r, b, rest, since);
    }
  }

  /** Records that make nothing where there is no key. */
  lemma UnmadeLags(n: E.Numbers, m: Keys, r: E.Record, b: Keys, rest: Keys, since: int)
    requires r.SRem? || r.ZRem? || r.PExpireAt? || r.Persist?
    requires E.Apply(n, m, r) == Ok(b) && Lags(m, rest, since) && r.key in m && r.key !in rest
    ensures ReplayLags(n, rest, [r], b, since) <==> !Revives(m, rest, r, since)
  {
    ReplayOne(n, rest, r);
    assert E.Apply(n, rest, r) == Ok(rest) && m[r.key].Expired(since);
    assert b - {r.key} == m - {r.key};
  }

  /** Records that make the key anew, without a deadline. */
  lemma MadeLags(n: E.Numbers, m: Keys, r: E.Record, b: Keys, rest: Keys, since: int)
    requires (r.Set? && r.keepTtl) || r.IncrBy? || r.Append? || r.SAdd? || r.ZAdd?
    requires E.Apply(n, m, r) == Ok(b) && Lags(m, rest, since) && r.key in m && r.key !in rest
    ensures ReplayLags(n, rest, [r], b, since) <==> !Revives(m, rest, r, since)
  {
    ReplayOne(n, rest, r);
    assert m[r.key].Expired(since);
    if r.SAdd? {
      SetAddedAlone(n, m, r, b, rest);
    } else if r.ZAdd? {
      ScoresAddedAlone(n, m, r, b, rest);
    } else {
      TextAlone(n, m, r, b, rest);
    }
  }

  /** The key the copy makes has no deadline, where the keyspace has kept one. */
  ghost predicate Astray(b: Keys, other: Result<Keys, string>, key: Key) {
    key in b && b[key].expiresAt.Some? && (other.Ok? ==> key in other.value && other.value[key].expiresAt.None?)
  }

  lemma TextAlone(n: E.Numbers, m: Keys, r: E.Record, b: Keys, rest: Keys)
    requires E.Apply(n, m, r) == Ok(b) && ((r.Set? && r.keepTtl) || r.IncrBy? || r.Append?)
    requires r.key in m && r.key !in rest && m[r.key].expiresAt.Some?
    ensures Astray(b, E.Apply(n, rest, r), r.key)
  {
  }

  lemma SetAddedAlone(n: E.Numbers, m: Keys, r: E.Record, b: Keys, rest: Keys)
    requires E.Apply(n, m, r) == Ok(b) && r.SAdd?
    requires r.key in m && r.key !in rest && m[r.key].expiresAt.Some?
    ensures r.members != [] ==> Astray(b, E.Apply(n, rest, r), r.key)
    ensures r.members == [] ==> E.Apply(n, rest, r) == Ok(rest)
    ensures b - {r.key} == m - {r.key} && (r.key in b ==> b[r.key].expiresAt == m[r.key].expiresAt)
  {
    if r.members != [] {
      assert r.members[0] in ToSet(r.members);
    } else {
      assert ToSet(r.members) == {};
      assert rest[r.key := Content(SetValue({}), None)] - {r.key} == rest;
    }
  }

  lemma ScoresAddedAlone(n: E.Numbers, m: Keys, r: E.Record, b: Keys, rest: Keys)
    requires E.Apply(n, m, r) == Ok(b) && r.ZAdd?
    requires r.key in m && r.key !in rest && m[r.key].expiresAt.Some?
    ensures r.scored != [] ==> Astray(b, E.Apply(n, rest, r), r.key)
    ensures r.scored == [] ==> E.Apply(n, rest, r) == Ok(rest)
    ensures b - {r.key} == m - {r.key} && (r.key in b ==> b[r.key].expiresAt == m[r.key].expiresAt)
  {
    if r.scored != [] {
      var last := r.scored[|r.scored| - 1];
      assert last.1 in E.PutScores(E.ScoresAt(m, r.key).value, r.scored);
      assert last.1 in E.PutScores(map[], r.scored);
    } else {
      assert rest[r.key := Content(ZSetValue(map[]), None)] - {r.key} == rest;
    }
  }

  /** After the first k records of the log. */
  ghost predicate LagsAfter(n: E.Numbers, m: Keys, log: Log, rest: Keys, since: int, k: nat)
    requires k <= |log|
  {
    E.Replay(n, m, log[..k]).Ok? && ReplayLags(n, rest, log[..k], E.Replay(n, m, log[..k]).value, since)
  }

  ghost predicate RevivesAt(n: E.Numbers, m: Keys, log: Log, rest: Keys, since: int, k: nat)
    requires k < |log|
  {
    && E.Replay(n, m, log[..k]).Ok? && E.Replay(n, rest, log[..k]).Ok?
    && Revives(E.Replay(n, m, log[..k]).value, E.Replay(n, rest, log[..k]).value, log[k], since)
  }

  ghost predicate LagsThroughout(n: E.Numbers, m: Keys, log: Log, rest: Keys, since: int) {
    forall k: nat :: k <= |log| ==> LagsAfter(n, m, log, rest, since, k)
  }

  ghost predicate RevivesNone(n: E.Numbers, m: Keys, log: Log, rest: Keys, since: int) {
    forall k: nat :: k < |log| ==> !RevivesAt(n, m, log, rest, since, k)
  }

  lemma LagsStep(n: E.Numbers, m: Keys, log: Log, rest: Keys, since: int, k: nat)
    requires k < |log| && E.Replay(n, m, log[..k + 1]).Ok? && LagsAfter(n, m, log, rest, since, k)
    ensures LagsAfter(n, m, log, rest, since, k + 1) <==> !RevivesAt(n, m, log, rest, since, k)
  {
    var before, r := log[..k], log[k];
    assert log[..k + 1] == before + [r];
    var a, b := E.Replay(n, m, before).value, E.Replay(n, rest, before).value;
    E.ReplayStep(n, m, before, r);
    E.ReplayStep(n, rest, before, r);
    ReplayOne(n, b, r);
    RecordLags(n, a, r, E.Apply(n, a, r).value, b, since);
  }

  lemma {:induction false} LagsUpTo(n: E.Numbers, m: Keys, log: Log, rest: Keys, since: int, k: nat)
    requires k <= |log| && E.Replay(n, m, log).Ok? && Lags(m, rest, since) && RevivesNone(n, m, log, rest, since)
    ensures LagsAfter(n, m, log, rest, since, k)
  {
    ReplaysSooner(n, m, log, k);
    if k == 0 {
      assert log[..0] == [];
    } else {
      LagsUpTo(n, m, log, rest, since, k - 1);
      assert !RevivesAt(n, m, log, rest, since, k - 1);
      LagsStep(n, m, log, rest, since, k - 1);
    }
  }

  lemma ReplaysSooner(n: E.Numbers, m: Keys, log: Log, k: nat)
    requires k <= |log| && E.Replay(n, m, log).Ok?
    ensures E.Replay(n, m, log[..k]).Ok?
  {
    if E.Replay(n, m, log[..k]).Err? {
      E.ReplayStops(n, m, log, k);
    }
  }

  /** Over a whole log: the copy lags after every record exactly if no record revives a key it lacks. */
  lemma LogLags(n: E.Numbers, m: Keys, log: Log, rest: Keys, since: int)
    requires E.Replay(n, m, log).Ok? && Lags(m, rest, since)
    ensures LagsThroughout(n, m, log, rest, since) <==> RevivesNone(n, m, log, rest, since)
  {
    if RevivesNone(n, m, log, rest, since) {
      forall k: nat | k <= |log|
        ensures LagsAfter(n, m, log, rest, since, k)
      {
        LagsUpTo(n, m, log, rest, since, k);
      }
    }
    if LagsThroughout(n, m, log, rest, since) {
      forall k: nat | k < |log|
        ensures !RevivesAt(n, m, log, rest, since, k)
      {
        assert LagsAfter(n, m, log, rest, since, k) && LagsAfter(n, m, log, rest, since, k + 1);
        LagsStep(n, m, log, rest, since, k);
      }
    }
  }

  // ---------------------------------------------------------------- operations

  /** Emptied collections are not kept: they go when the command ends. */
  function Nonempty(m: Keys): Keys {
    m - set k | k in m && m[k].value.IsEmpty()
  }

  /** A lookup that deletes a key logs it. */
  function ReapingLog(m: Keys, key: Key, now: int, mode: Mode): Log {
    if Past(m, key, now, mode) && mode.deletes then [E.Del([key])] else []
  }

  /**
   A way to log any operation: a collection that changed, and a value written with its deadline kept, by
   the value they then have. A handler may log in another way, which tells the same.
   */
  function OpLog(m: Keys, op: Op, now: int, mode: Mode): Log {
    if op.Flushing? then [E.FlushAll]
    else
      var key := op.key;
      var live := key in m && !Past(m, key, now, mode);
      var reaping := ReapingLog(m, key, now, mode);
      match op
      case Reading(_) => reaping
      case Setting(_, value, keepTtl) =>
        reaping + (if value.StringValue? && !keepTtl then [E.Set(key, value.text, false)]
                   else [E.Restore(key, value, if keepTtl && live then m[key].expiresAt else None)])
      case Deleting(_) => if live then [E.Del([key])] else reaping
      case Expiring(_, at) => if live then [E.PExpireAt(key, at)] else reaping
      case Persisting(_) => if live && m[key].expiresAt.Some? then [E.Persist(key)] else reaping
      case Updating(_, empty, result) =>
        if !live then reaping + [E.Restore(key, result, None)]
        else if m[key].value.SameKind(empty) then [E.Restore(key, result, m[key].expiresAt)]
        else []
  }

  /** Where operations run: no key is hidden, and since the time given, none was. */
  ghost predicate Allowed(op: Op, now: int, mode: Mode, since: Option<int>) {
    && (mode.deletes || !mode.enabled || op.Reading?)
    && (since.Some? ==> mode == Mode(true, true) && since.value <= now)
  }

  lemma ReapingMatches(n: E.Numbers, m: Keys, key: Key, now: int, mode: Mode, since: Option<int>)
    ensures Matches(n, Nonempty(m), ReapingLog(m, key, now, mode), Nonempty(Reaped(m, key, now, mode)), since)
  {
    if Past(m, key, now, mode) && mode.deletes {
      var a, b := Nonempty(m), Nonempty(m - {key});
      assert a - ToSet([key]) == b;
      MatchesOne(n, a, E.Del([key]), b, since);
    } else {
      MatchesNone(n, Nonempty(m), since);
    }
  }

  /** A key is written whole. */
  lemma PutMatches(n: E.Numbers, m: Keys, key: Key, c: Content, since: Option<int>)
    ensures Matches(n, Nonempty(m), [E.Restore(key, c.value, c.expiresAt)], Nonempty(m[key := c]), since)
  {
    var a, b := Nonempty(m), Nonempty(m[key := c]);
    assert E.DropEmpty(a[key := c], key) == b;
    MatchesOne(n, a, E.Restore(key, c.value, c.expiresAt), b, since);
  }

  lemma SettingMatches(n: E.Numbers, m: Keys, op: Op, now: int, mode: Mode, since: Option<int>)
    requires op.Setting? && Allowed(op, now, mode, since)
    ensures Matches(n, Nonempty(m), OpLog(m, op, now, mode), Nonempty(After(m, op, now, mode)), since)
  {
    var key := op.key;
    var c := After(m, op, now, mode)[key];
    var m' := Reaped(m, key, now, mode);
    ReapingMatches(n, m, key, now, mode, since);
    assert m'[key := c] == m[key := c];
    if op.value.StringValue? && !op.keepTtl {
      assert Nonempty(m')[key := c] == Nonempty(m'[key := c]);
      MatchesOne(n, Nonempty(m'), E.Set(key, op.value.text, false), Nonempty(m'[key := c]), since);
      MatchesThen(n, Nonempty(m), ReapingLog(m, key, now, mode), Nonempty(m'), [E.Set(key, op.value.text, false)],
                  Nonempty(m[key := c]), since);
    } else {
      PutMatches(n, m', key, c, since);
      MatchesThen(n, Nonempty(m), ReapingLog(m, key, now, mode), Nonempty(m'),
                  [E.Restore(key, c.value, c.expiresAt)], Nonempty(m[key := c]), since);
    }
  }

  lemma UpdatingMatches(n: E.Numbers, m: Keys, op: Op, now: int, mode: Mode, since: Option<int>)
    requires op.Updating? && Allowed(op, now, mode, since)
    ensures Matches(n, Nonempty(m), OpLog(m, op, now, mode), Nonempty(After(m, op, now, mode)), since)
  {
    var key := op.key;
    if key in m && !Past(m, key, now, mode) {
      if m[key].value.SameKind(op.empty) {
        PutMatches(n, m, key, m[key].(value := op.result), since);
      } else {
        MatchesNone(n, Nonempty(m), since);
      }
    } else {
      var m' := Reaped(m, key, now, mode);
      var c := Content(op.result, None);
      assert m'[key := c] == m[key := c];
      ReapingMatches(n, m, key, now, mode, since);
      PutMatches(n, m', key, c, since);
      MatchesThen(n, Nonempty(m), ReapingLog(m, key, now, mode), Nonempty(m'), [E.Restore(key, op.result, None)],
                  Nonempty(m[key := c]), since);
    }
  }

  /** A deadline is set or taken away, of a key that has not expired. */
  lemma DeadlineMatches(n: E.Numbers, m: Keys, key: Key, at: Option<int>, since: Option<int>)
    requires key in m && (since.Some? ==> !m[key].Expired(since.value))
    ensures var r := if at.Some? then E.PExpireAt(key, at.value) else E.Persist(key);
      Matches(n, Nonempty(m), [r], Nonempty(m[key := m[key].(expiresAt := at)]), since)
  {
    var r := if at.Some? then E.PExpireAt(key, at.value) else E.Persist(key);
    var a, b := Nonempty(m), Nonempty(m[key := m[key].(expiresAt := at)]);
    assert (if key in a then a[key := a[key].(expiresAt := at)] else a) == b;
    MatchesOne(n, a, r, b, since);
  }

  lemma DeletingMatches(n: E.Numbers, m: Keys, key: Key, since: Option<int>)
    ensures Matches(n, Nonempty(m), [E.Del([key])], Nonempty(m - {key}), since)
  {
    var a, b := Nonempty(m), Nonempty(m - {key});
    assert a - ToSet([key]) == b;
    MatchesOne(n, a, E.Del([key]), b, since);
  }

  lemma FlushingMatches(n: E.Numbers, m: Keys, since: Option<int>)
    ensures Matches(n, m, [E.FlushAll], map[], since)
  {
    MatchesOne(n, m, E.FlushAll, map[], since);
  }

  /** One operation changes the keys as what it logs does. */
  lemma OpMatches(n: E.Numbers, m: Keys, op: Op, now: int, mode: Mode, since: Option<int>)
    requires Allowed(op, now, mode, since)
    ensures Matches(n, Nonempty(m), OpLog(m, op, now, mode), Nonempty(After(m, op, now, mode)), since)
  {
    match op {
      case Flushing => FlushingMatches(n, Nonempty(m), since);
      case Reading(key) => ReapingMatches(n, m, key, now, mode, since);
      case Setting(_, _, _) => SettingMatches(n, m, op, now, mode, since);
      case Updating(_, _, _) => UpdatingMatches(n, m, op, now, mode, since);
      case Deleting(key) =>
        ReapingMatches(n, m, key, now, mode, since);
        DeletingMatches(n, m, key, since);
      case Expiring(key, at) =>
        ReapingMatches(n, m, key, now, mode, since);
        if key in m && !Past(m, key, now, mode) {
          DeadlineMatches(n, m, key, Some(at), since);
        }
      case Persisting(key) =>
        ReapingMatches(n, m, key, now, mode, since);
        if key in m && !Past(m, key, now, mode) {
          DeadlineMatches(n, m, key, None, since);
        }
    }
  }

  // ------------------------------------------------------------------ commands

  function OpsLog(v: View, ops: seq<Op>, count: nat, now: int): Log
    requires count <= |ops|
  {
    if count == 0 then []
    else OpsLog(v, ops, count - 1, now) + OpLog(AllDone(v, ops, count - 1, now).contents, ops[count - 1], now, v.mode)
  }

  ghost predicate AllAllowed(ops: seq<Op>, now: int, mode: Mode, since: Option<int>) {
    forall i :: 0 <= i < |ops| ==> Allowed(ops[i], now, mode, since)
  }

  lemma {:induction false} OpsMatch(n: E.Numbers, v: View, ops: seq<Op>, count: nat, now: int, since: Option<int>)
    requires count <= |ops| && AllAllowed(ops, now, v.mode, since)
    ensures AllDone(v, ops, count, now).mode == v.mode
    ensures Matches(n, Nonempty(v.contents), OpsLog(v, ops, count, now), Nonempty(AllDone(v, ops, count, now).contents),
                    since)
  {
    if count == 0 {
      MatchesNone(n, Nonempty(v.contents), since);
    } else {
      OpsMatch(n, v, ops, count - 1, now, since);
      var u, op := AllDone(v, ops, count - 1, now), ops[count - 1];
      assert Allowed(op, now, v.mode, since);
      OpMatches(n, u.contents, op, now, v.mode, since);
      MatchesThen(n, Nonempty(v.contents), OpsLog(v, ops, count - 1, now), Nonempty(u.contents),
                  OpLog(u.contents, op, now, v.mode), Nonempty(After(u.contents, op, now, v.mode)), since);
    }
  }

  /** A log that leads where the operations do, also from a copy without what had expired, on a primary. */
  ghost predicate Tells(n: E.Numbers, v: View, ops: seq<Op>, log: Log, now: int) {
    forall since :: AllAllowed(ops, now, v.mode, since) ==> TellsSince(n, v, ops, log, now, since)
  }

  ghost predicate TellsSince(n: E.Numbers, v: View, ops: seq<Op>, log: Log, now: int, since: Option<int>) {
    Matches(n, Nonempty(v.contents), log, Nonempty(AllDone(v, ops, |ops|, now).contents), since)
  }

  /** Every sequence of operations can be told. */
  lemma OpsLogTells(n: E.Numbers, v: View, ops: seq<Op>, now: int)
    ensures Tells(n, v, ops, OpsLog(v, ops, |ops|, now), now)
  {
    forall since | AllAllowed(ops, now, v.mode, since)
      ensures TellsSince(n, v, ops, OpsLog(v, ops, |ops|, now), now, since)
    {
      OpsMatch(n, v, ops, |ops|, now, since);
    }
  }

  ghost predicate EmptyWithin(m: Keys, keys: seq<Key>) {
    forall k :: k in m && m[k].value.IsEmpty() ==> k in keys
  }

  /** Only the command's own keys can be left empty. */
  lemma {:induction false} OpsEmpty(v: View, ops: seq<Op>, count: nat, keys: seq<Key>, now: int)
    requires count <= |ops| && AllWithin(ops, keys) && EmptyWithin(v.contents, keys)
    ensures EmptyWithin(AllDone(v, ops, count, now).contents, keys)
  {
    if count > 0 {
      OpsEmpty(v, ops, count - 1, keys, now);
      assert ops[count - 1].Within(keys);
    }
  }

  lemma SweptIs(m: Keys, keys: seq<Key>)
    requires EmptyWithin(m, keys)
    ensures Swept(m, keys) == Nonempty(m) && E.NoEmpty(Nonempty(m))
  {
  }

  lemma NonemptyIs(m: Keys)
    requires E.NoEmpty(m)
    ensures Nonempty(m) == m
  {
  }

  /** A command that writes, but for what is evicted. */
  lemma WrittenMatches(n: E.Numbers, v: View, keys: seq<Key>, ops: seq<Op>, log: Log, now: int, since: Option<int>)
    requires E.NoEmpty(v.contents) && AllWithin(ops, keys) && AllAllowed(ops, now, v.mode, since)
    requires Tells(n, v, ops, log, now)
    ensures var u := Written(v, keys, ops, now);
      E.NoEmpty(u.contents) && Matches(n, v.contents, log, u.contents, since)
  {
    NonemptyIs(v.contents);
    assert TellsSince(n, v, ops, log, now, since);
    OpsEmpty(v, ops, |ops|, keys, now);
    SweptIs(AllDone(v, ops, |ops|, now).contents, keys);
  }

  /** A command that only looks keys up. */
  lemma ReadMatches(n: E.Numbers, v: View, ops: seq<Op>, now: int, since: Option<int>)
    requires E.NoEmpty(v.contents) && AllReading(ops) &&
      (since.Some? ==> v.mode == Mode(true, true) && since.value <= now)
    ensures var u := AllDone(v, ops, |ops|, now);
      E.NoEmpty(u.contents) && Matches(n, v.contents, OpsLog(v, ops, |ops|, now), u.contents, since)
  {
    var none: seq<Key> := [];
    NonemptyIs(v.contents);
    OpsMatch(n, v, ops, |ops|, now, since);
    OpsEmpty(v, ops, |ops|, none, now);
    SweptIs(AllDone(v, ops, |ops|, now).contents, none);
    assert Swept(AllDone(v, ops, |ops|, now).contents, none) == AllDone(v, ops, |ops|, now).contents;
  }

  /** The check for room looks the command's keys up. */
  function ReviewLog(v: View, keys: seq<Key>, count: nat, now: int): Log
    requires count <= |keys|
  {
    if count == 0 then []
    else
      var u := Reviewed(v, keys[..count - 1], now);
      ReviewLog(v, keys, count - 1, now) + ReapingLog(u.contents, keys[count - 1], now, v.mode)
  }

  lemma {:induction false} ReviewMatches(n: E.Numbers, v: View, keys: seq<Key>, count: nat, now: int,
                                         since: Option<int>)
    requires E.NoEmpty(v.contents) && count <= |keys|
    ensures var u := Reviewed(v, keys[..count], now);
      E.NoEmpty(u.contents) && Matches(n, v.contents, ReviewLog(v, keys, count, now), u.contents, since)
  {
    if count == 0 {
      ReviewedNone(v, now);
      MatchesNone(n, v.contents, since);
    } else {
      var i := count - 1;
      ReviewMatches(n, v, keys, i, now, since);
      var u := Reviewed(v, keys[..i], now);
      ReviewedOne(v, keys, i, now);
      NonemptyIs(u.contents);
      NonemptyIs(Reaped(u.contents, keys[i], now, v.mode));
      ReapingMatches(n, u.contents, keys[i], now, v.mode, since);
      MatchesThen(n, v.contents, ReviewLog(v, keys, i, now), u.contents,
                  ReapingLog(u.contents, keys[i], now, v.mode), Reaped(u.contents, keys[i], now, v.mode), since);
    }
  }

  lemma GoneMatches(n: E.Numbers, v: View, gone: seq<Key>, since: Option<int>)
    requires E.NoEmpty(v.contents)
    ensures E.NoEmpty(Lacking(v, gone).contents) &&
      Matches(n, v.contents, [E.Del(gone)], Lacking(v, gone).contents, since)
  {
    MatchesOne(n, v.contents, E.Del(gone), v.contents - ToSet(gone), since);
  }

  // -------------------------------------------------------------------- events

  /** The view a handler runs on: its keys have been looked up if there was a check for room. */
  function Checked(l: Limits, c: Request, now: int, v: View): View {
    if c.denyOom && !l.evicts then Reviewed(v, c.keys, now) else v
  }

  /**
   What is logged for a command that writes: the keys the check for room found expired, what its handler
   logged, unless it was refused, and what was evicted.
   */
  ghost function RequestLog(l: Limits, c: Request, now: int, gone: seq<Key>, v: View, log: Log): Log {
    (if c.denyOom && !l.evicts then ReviewLog(v, c.keys, |c.keys|, now) else []) +
    (if c.denyOom && Refuses(l, v, c.keys, now) then [] else log) +
    [E.Del(gone)]
  }

  lemma RequestMatches(n: E.Numbers, l: Limits, c: Request, now: int, gone: seq<Key>, v: View, log: Log,
                       since: Option<int>)
    requires E.NoEmpty(v.contents) && c.write && AllWithin(c.ops, c.keys) && AllAllowed(c.ops, now, v.mode, since)
    requires Tells(n, Checked(l, c, now, v), c.ops, log, now)
    ensures var u := Lacking(Ran(l, c, now, v), gone);
      E.NoEmpty(u.contents) && Matches(n, v.contents, RequestLog(l, c, now, gone, v, log), u.contents, since)
  {
    var checks := c.denyOom && !l.evicts;
    var u := Checked(l, c, now, v);
    var first := if checks then ReviewLog(v, c.keys, |c.keys|, now) else [];
    assert E.NoEmpty(u.contents) && Matches(n, v.contents, first, u.contents, since) by {
      MatchesNone(n, v.contents, since);
      ReviewMatches(n, v, c.keys, |c.keys|, now, since);
      assert c.keys[..|c.keys|] == c.keys;
    }
    var w := Ran(l, c, now, v);
    var second := if c.denyOom && Refuses(l, v, c.keys, now) then [] else log;
    assert E.NoEmpty(w.contents) && Matches(n, u.contents, second, w.contents, since) by {
      MatchesNone(n, u.contents, since);
      WrittenMatches(n, u, c.keys, c.ops, log, now, since);
    }
    MatchesThen(n, v.contents, first, u.contents, second, w.contents, since);
    GoneMatches(n, w, gone, since);
    MatchesThen(n, v.contents, first + second, w.contents, [E.Del(gone)], Lacking(w, gone).contents, since);
  }

  /** What is logged for an event, given what its handler logged. Taking a copy logs nothing. */
  ghost function Records(l: Limits, e: Event, now: int, gone: seq<Key>, v: View, log: Log): Log {
    match e
    case Command(c) =>
      if !c.write then OpsLog(v, c.ops, |c.ops|, now)
      else if v.mode.enabled && !v.mode.deletes then []
      else RequestLog(l, c, now, gone, v, log)
    case Streamed(_, _) => log
    case ActiveExpiry(_) => [E.Del(gone)]
    case _ => []
  }

  /** The view on which a streamed command runs. */
  function Unexpiring(v: View): View {
    v.(mode := v.mode.(enabled := false))
  }

  /** What the handler logged tells what it did. */
  ghost predicate Tellable(n: E.Numbers, l: Limits, e: Event, now: int, v: View, log: Log) {
    match e
    case Command(c) => c.write ==> Tells(n, Checked(l, c, now, v), c.ops, log, now)
    case Streamed(_, ops) => Tells(n, Unexpiring(v), ops, log, now)
    case _ => true
  }

  /** The event happens on a primary, no earlier than the time given. */
  ghost predicate OnPrimary(e: Event, now: int, v: View, since: Option<int>) {
    since.Some? ==> v.mode == Mode(true, true) && !e.Streamed? && since.value <= now
  }

  /** One event of the store changes the keys as the records that log it do. */
  lemma EventMatches(n: E.Numbers, l: Limits, e: Event, now: int, gone: seq<Key>, a: View, b: View, log: Log,
                     since: Option<int>)
    requires e.Proper() && E.NoEmpty(a.contents) && Becomes(l, e, now, gone, a, b) && OnPrimary(e, now, a, since)
    requires Tellable(n, l, e, now, a, log)
    ensures E.NoEmpty(b.contents) && Matches(n, a.contents, Records(l, e, now, gone, a, log), b.contents, since)
  {
    match e {
      case Command(c) =>
        if !c.write {
          ReadMatches(n, a, c.ops, now, since);
        } else if a.mode.enabled && !a.mode.deletes {
          MatchesNone(n, a.contents, since);
        } else {
          RequestMatches(n, l, c, now, gone, a, log, since);
        }
      case Streamed(keys, ops) => WrittenMatches(n, Unexpiring(a), keys, ops, log, now, since);
      case ActiveExpiry(_) => GoneMatches(n, a, gone, since);
      case _ => MatchesNone(n, a.contents, since);
    }
  }

  // ---------------------------------------------------------------------- runs

  /**
   A run of the store: its events and their times, what each evicted or expired and what its handler logged,
   and the views between them.
   */
  datatype Course = Course(limits: Limits, events: seq<Event>, clock: seq<int>, gone: seq<seq<Key>>, logs: seq<Log>,
                           trace: seq<View>)
  {
    ghost predicate Shaped() {
      |trace| == |gone| + 1 && |gone| <= |events| && |gone| <= |clock| && |gone| <= |logs|
    }

    /** What is logged for the q-th event. */
    ghost function LogAt(q: nat): Log
      requires Shaped() && q < |gone|
    {
      Records(limits, events[q], clock[q], gone[q], trace[q], logs[q])
    }

    /** What is logged from the i-th event up to the j-th. */
    ghost function LogOf(i: nat, j: nat): Log
      requires Shaped() && i <= j <= |gone|
    {
      if i == j then [] else LogOf(i, j - 1) + LogAt(j - 1)
    }

    /** The q-th event happens as it should, and on a primary if a time is given. */
    ghost predicate Steps(q: nat, since: Option<int>)
      requires Shaped()
    {
      q < |gone| ==>
        && events[q].Proper() && Becomes(limits, events[q], clock[q], gone[q], trace[q], trace[q + 1])
        && OnPrimary(events[q], clock[q], trace[q], since)
    }

    ghost predicate Valid() {
      Shaped() && forall q: nat :: Steps(q, None)
    }

    ghost predicate ToldAt(n: E.Numbers, q: nat)
      requires Shaped()
    {
      q < |gone| ==> Tellable(n, limits, events[q], clock[q], trace[q], logs[q])
    }

    /** Every handler's log tells what it did. */
    ghost predicate Told(n: E.Numbers)
      requires Shaped()
    {
      forall q: nat :: ToldAt(n, q)
    }

    /** From the i-th on, all of it happens on a primary, and no earlier than that. */
    ghost predicate OnPrimaryFrom(i: nat)
      requires Shaped() && i < |gone|
    {
      forall q: nat :: i <= q ==> Steps(q, Some(clock[i]))
    }
  }

  lemma CourseValid(r: Course)
    requires AllProper(r.events) && AllBecome(r.limits, r.events, r.clock, r.gone, r.trace) && |r.logs| >= |r.gone|
    ensures r.Valid()
  {
    forall q: nat
      ensures r.Steps(q, None)
    {
      if q < |r.gone| {
        assert r.events[q].Proper();
        assert Becomes(r.limits, r.events[q], r.clock[q], r.gone[q], r.trace[q], r.trace[q + 1]);
      }
    }
  }

  ghost predicate AllProper(events: seq<Event>) {
    forall i :: 0 <= i < |events| ==> events[i].Proper()
  }

  lemma StepMatches(n: E.Numbers, r: Course, q: nat, since: Option<int>)
    requires r.Shaped() && q < |r.gone| && r.Steps(q, since) && r.ToldAt(n, q) && E.NoEmpty(r.trace[q].contents)
    ensures E.NoEmpty(r.trace[q + 1].contents)
    ensures Matches(n, r.trace[q].contents, r.LogAt(q), r.trace[q + 1].contents, since)
  {
    EventMatches(n, r.limits, r.events[q], r.clock[q], r.gone[q], r.trace[q], r.trace[q + 1], r.logs[q], since);
  }

  /**
   Any interleaving of commands, streamed commands, active expiry, eviction and copies, with handlers that log
   what they do: from any point of it to any later one, replaying what was logged between gives the keys
   there.
   */
  lemma {:induction false} RunMatches(n: E.Numbers, r: Course, i: nat, j: nat, since: Option<int>)
    requires r.Shaped() && i <= j <= |r.gone| && E.NoEmpty(r.trace[i].contents) && r.Told(n)
    requires forall q: nat :: i <= q ==> r.Steps(q, since)
    ensures E.NoEmpty(r.trace[j].contents)
    ensures Matches(n, r.trace[i].contents, r.LogOf(i, j), r.trace[j].contents, since)
  {
    if i == j {
      MatchesNone(n, r.trace[i].contents, since);
    } else {
      RunMatches(n, r, i, j - 1, since);
      StepMatches(n, r, j - 1, since);
      MatchesThen(n, r.trace[i].contents, r.LogOf(i, j - 1), r.trace[j - 1].contents, r.LogAt(j - 1),
                  r.trace[j].contents, since);
    }
  }

  // -------------------------------------------------------------------- copies

  /** What loading the records of a snapshot gives. */
  ghost function Loaded(records: seq<SnapshotRecord>): Keys
    requires DistinctKeys(records)
  {
    map r | r in records :: r.key := r.content
  }

  /** An exact copy lacks only what had expired when it was begun. */
  lemma CopyLags(m: Keys, now: int, records: seq<SnapshotRecord>)
    requires Exact(m, now, records)
    ensures Lags(m, Loaded(records), now)
  {
    forall k | k in m && !m[k].Expired(now)
      ensures k in Loaded(records)
    {
      assert SnapshotRecord(k, m[k]) in records;
    }
  }

  lemma {:induction false} OpsStarts(v: View, ops: seq<Op>, count: nat, now: int)
    requires count <= |ops|
    ensures AllDone(v, ops, count, now).starts == v.starts
  {
    if count > 0 {
      OpsStarts(v, ops, count - 1, now);
    }
  }

  lemma StartsGrow(l: Limits, e: Event, now: int, gone: seq<Key>, a: View, b: View)
    requires Becomes(l, e, now, gone, a, b)
    ensures a.starts <= b.starts
    ensures |b.starts| > |a.starts| ==> e.Begin? && b.starts == a.starts + [Start(a.contents, now)]
  {
    match e {
      case Command(c) =>
        OpsStarts(a, c.ops, |c.ops|, now);
        OpsStarts(Reviewed(a, c.keys, now), c.ops, |c.ops|, now);
      case Streamed(keys, ops) => OpsStarts(a.(mode := a.mode.(enabled := false)), ops, |ops|, now);
      case _ =>
    }
  }

  /** Every copy of the run was begun by some event of it, on the keys and at the time of that. */
  lemma {:induction false} StartsBegun(r: Course, j: nat, q: nat) returns (i: nat)
    requires r.Valid() && j <= |r.gone| && |r.trace[0].starts| <= q < |r.trace[j].starts|
    ensures i < j && r.events[i].Begin? && r.trace[j].starts[q] == Start(r.trace[i].contents, r.clock[i])
  {
    if j == 0 {
      assert false;
    } else {
      var p := j - 1;
      assert r.Steps(p, None);
      StartsGrow(r.limits, r.events[p], r.clock[p], r.gone[p], r.trace[p], r.trace[j]);
      if q < |r.trace[p].starts| {
        i := StartsBegun(r, p, q);
      } else {
        i := p;
      }
    }
  }

  /**
   The copy was begun by the i-th event of the run. With what was logged since, it rebuilds the keys, but for
   some that had expired by then: on a primary; and on any node, after every record, exactly if no
   record revives a key that the copy lacks.
   */
  ghost predicate Restores(n: E.Numbers, r: Course, records: seq<SnapshotRecord>, i: nat)
    requires r.Shaped()
  {
    && i < |r.gone| && r.events[i].Begin? && Exact(r.trace[i].contents, r.clock[i], records)
    && var m, log, copy := r.trace[i].contents, r.LogOf(i, |r.gone|), Loaded(records);
       && E.Replay(n, m, log) == Ok(r.trace[|r.gone|].contents)
       && (r.OnPrimaryFrom(i) ==> ReplayLags(n, copy, log, r.trace[|r.gone|].contents, r.clock[i]))
       && (LagsThroughout(n, m, log, copy, r.clock[i]) <==> RevivesNone(n, m, log, copy, r.clock[i]))
  }

  lemma CopyRestores(n: E.Numbers, r: Course, records: seq<SnapshotRecord>, q: nat) returns (i: nat)
    requires r.Valid() && r.Told(n) && E.NoEmpty(r.trace[0].contents)
    requires var starts := r.trace[|r.gone|].starts;
      |r.trace[0].starts| <= q < |starts| && Exact(starts[q].contents, starts[q].now, records)
    ensures Restores(n, r, records, i)
  {
    i := StartsBegun(r, |r.gone|, q);
    RunMatches(n, r, 0, i, None);
    RunMatches(n, r, i, |r.gone|, None);
    CopyLags(r.trace[i].contents, r.clock[i], records);
    LogLags(n, r.trace[i].contents, r.LogOf(i, |r.gone|), Loaded(records), r.clock[i]);
    if r.OnPrimaryFrom(i) {
      RunMatches(n, r, i, |r.gone|, Some(r.clock[i]));
    }
  }

  lemma PersistStreamed(n: E.Numbers, l: Limits, key: Key, v: View, now: int)
    requires key in v.contents && v.contents.Keys == {key} && !v.contents[key].value.IsEmpty()
    requires v.contents[key].expiresAt.Some? && v.mode == Mode(true, false)
    ensures var b := v.(contents := map[key := v.contents[key].(expiresAt := None)]);
      && Becomes(l, Streamed([key], [Persisting(key)]), now, [], v, b)
      && Tells(n, Unexpiring(v), [Persisting(key)], [E.Persist(key)], now)
  {
    var u := Unexpiring(v);
    var ops := [Persisting(key)];
    assert AllDone(u, ops, 0, now) == u;
    var c := v.contents[key].(expiresAt := None);
    assert u.contents[key := c] == map[key := c];
    assert AllDone(u, ops, 1, now).contents == map[key := c];
    assert Swept(map[key := c], [key]) == map[key := c];
    OpsLogTells(n, u, ops, now);
    assert OpsLog(u, ops, 0, now) == [];
    assert OpsLog(u, ops, 1, now) == [E.Persist(key)];
  }

  /** A replica with a key that has expired by its clock, a copy begun, and the key persisted by the stream. */
  function Persisted(l: Limits, key: Key): Course {
    var m := map[key := Content(StringValue("x"), Some(5))];
    var v := View(m, Mode(true, false), None, [], []);
    var v' := v.(left := Some(1), starts := [Start(m, 9)]);
    Course(l, [Begin, Streamed([key], [Persisting(key)])], [9, 9], [[], []], [[], [E.Persist(key)]],
           [v, v', v'.(contents := map[key := Content(StringValue("x"), None)])])
  }

  lemma PersistedValid(n: E.Numbers, l: Limits, key: Key)
    ensures Persisted(l, key).Valid() && Persisted(l, key).Told(n)
  {
    var r := Persisted(l, key);
    assert r.trace[0].contents.Keys == {key};
    PersistStreamed(n, l, key, r.trace[1], 9);
    forall q: nat
      ensures r.Steps(q, None) && r.ToldAt(n, q)
    {
      if q == 0 {
        assert Becomes(l, r.events[0], 9, [], r.trace[0], r.trace[1]);
      }
    }
  }

  lemma PersistedLog(l: Limits, key: Key)
    ensures Persisted(l, key).LogOf(0, 2) == [E.Persist(key)]
  {
    var r := Persisted(l, key);
    assert r.LogOf(0, 0) == [] && r.LogAt(0) == [];
    assert r.LogOf(0, 1) == [];
    assert r.LogAt(1) == [E.Persist(key)];
  }

  /**
   On a replica the log since need not restore the keys: a copy is begun without a key that has expired by
   the replica's clock, and then a PERSIST of that key is streamed.
   */
  lemma CopyOnReplica(n: E.Numbers, l: Limits, key: Key) returns (r: Course)
    ensures r.Valid() && r.Told(n) && |r.gone| == 2 && r.events[0].Begin?
    ensures Exact(r.trace[0].contents, r.clock[0], [])
    ensures !ReplayLags(n, Loaded([]), r.LogOf(0, 2), r.trace[2].contents, r.clock[0])
  {
    r := Persisted(l, key);
    PersistedValid(n, l, key);
    PersistedLog(l, key);
    ReplayOne(n, Loaded([]), E.Persist(key));
    assert Loaded([]) == map[];
    assert key in r.trace[2].contents;
  }

  /**
   A run of the store, with whatever its handlers log that tells what they do. Replaying the whole log gives
   the keys at the end; and every copy begun and handed over in the run restores them, with what was logged
   since it was begun.
   */
  method Run(s: Store, ghost n: E.Numbers, events: seq<Event>, clock: seq<int>, coins: seq<bool>,
             ghost logs: seq<Log>)
    returns (ghost r: Course)
    requires s.Valid() && s.dirty == {} && |clock| == |events| == |coins| == |logs| && AllProper(events)
    requires E.NoEmpty(s.Contents())
    modifies s
    ensures s.Valid() && r.Valid() && r.limits == s.limits && r.events == events && r.clock == clock && r.logs == logs
    ensures |r.gone| == |events| && r.trace[0] == old(s.Seen()) && r.trace[|events|] == s.Seen()
    ensures r.Told(n) ==> E.Replay(n, old(s.Contents()), r.LogOf(0, |events|)) == Ok(s.Contents())
    ensures |s.delivered| == |s.handed|
    ensures r.Told(n) ==> forall q :: 0 <= q < |s.handed| && s.handed[q] >= |old(s.starts)| ==>
      exists i :: Restores(n, r, s.delivered[q].records, i)
  {
    ghost var gone, trace;
    gone, trace := s.Run(events, clock, coins);
    r := Course(s.limits, events, clock, gone, logs, trace);
    CourseValid(r);
    if r.Told(n) {
      RunMatches(n, r, 0, |events|, None);
      forall q | 0 <= q < |s.handed| && s.handed[q] >= |old(s.starts)|
        ensures exists i :: Restores(n, r, s.delivered[q].records, i)
      {
        var i := CopyRestores(n, r, s.delivered[q].records, s.handed[q]);
      }
    }
  }
}
