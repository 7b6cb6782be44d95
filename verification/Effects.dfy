/**
 The effect log: what commands append to it, and what replaying it does.
 Commands that depend on the clock, on chance or on float formatting log their
 result instead of themselves.
 */
module Effects {
  import opened Ordering
  import opened Sequences
  import opened Values
  import opened Wrappers

  type Keys = map<Key, Content>

  /** A logged command. */
  datatype Record =
    | Del(keys: seq<Key>)
    | Set(key: Key, text: string, keepTtl: bool)
    | PExpireAt(key: Key, at: int)
    | Persist(key: Key)
    | MSet(pairs: seq<(Key, string)>)
    | IncrBy(key: Key, delta: int)
    | Append(key: Key, suffix: string)
    | Restore(key: Key, value: Value, deadline: Option<int>)
    | FlushAll
    | SAdd(key: Key, members: seq<string>)
    | SRem(key: Key, members: seq<string>)
    | ZAdd(key: Key, scored: seq<(Score, string)>)
    | ZRem(key: Key, members: seq<string>)
  {
    /** The keys it writes. */
    function Touched(): set<Key> {
      match this
      case Del(keys) => set k | k in keys
      case MSet(pairs) => set i | 0 <= i < |pairs| :: pairs[i].0
      case FlushAll => {}
      case _ => {key}
    }

    /** What it leaves does not depend on what was there. */
    predicate Blind() {
      Del? || (Set? && !keepTtl) || MSet? || Restore? || FlushAll?
    }
  }

  const INT64_MIN: int := -0x8000_0000_0000_0000
  const INT64_MAX: int := 0x7fff_ffff_ffff_ffff
  const NOT_AN_INTEGER := "value is not an integer or out of range"
  const OVERFLOW := "increment or decrement would overflow"
  const NOT_A_NUMBER := "resulting score is not a number (NaN)"

  /** Decimal text: reading it may fail. */
  datatype Numbers = Numbers(parse: string -> Option<int>, show: int -> string)

  // ------------------------------------------------------- replay semantics

  function DropEmpty(m: Keys, key: Key): Keys {
    if key in m && m[key].value.IsEmpty() then m - {key} else m
  }

  function TextAt(m: Keys, key: Key): Result<Option<string>, string> {
    if key !in m then Ok(None)
    else if m[key].value.StringValue? then Ok(Some(m[key].value.text))
    else Err(WRONG_TYPE)
  }

  function DeadlineAt(m: Keys, key: Key): Option<int> {
    if key in m then m[key].expiresAt else None
  }

  /** The deadline SET leaves: a new one, the one there if it is kept, or none. */
  function SetDeadline(m: Keys, key: Key, keepTtl: bool, ttl: Option<int>, now: int): Option<int> {
    if ttl.Some? then Some(now + ttl.value) else if keepTtl then DeadlineAt(m, key) else None
  }

  /** The number at a key after adding delta; a missing key counts as 0. */
  function Incremented(n: Numbers, text: Option<string>, delta: int): Result<string, string> {
    var number := if text.None? then Some(0) else n.parse(text.value);
    if number.None? then Err(NOT_AN_INTEGER)
    else if !(INT64_MIN <= number.value + delta <= INT64_MAX) then Err(OVERFLOW)
    else Ok(n.show(number.value + delta))
  }

  function PutAll(m: Keys, pairs: seq<(Key, string)>): Keys {
    if pairs == [] then m
    else
      var last := pairs[|pairs| - 1];
      PutAll(m, pairs[..|pairs| - 1])[last.0 := Content(StringValue(last.1), None)]
  }

  function PutScores(scores: map<string, Score>, scored: seq<(Score, string)>): map<string, Score> {
    if scored == [] then scores
    else
      var last := scored[|scored| - 1];
      PutScores(scores, scored[..|scored| - 1])[last.1 := last.0]
  }

  function SetAt(m: Keys, key: Key): Result<set<string>, string> {
    if key !in m then Ok({})
    else if m[key].value.SetValue? then Ok(m[key].value.members)
    else Err(WRONG_TYPE)
  }

  function ScoresAt(m: Keys, key: Key): Result<map<string, Score>, string> {
    if key !in m then Ok(map[])
    else if m[key].value.ZSetValue? then Ok(m[key].value.scores)
    else Err(WRONG_TYPE)
  }

  /** The key holds this value, with the deadline it had; an empty collection goes. */
  function WithValue(m: Keys, key: Key, value: Value): Keys {
    DropEmpty(m[key := Content(value, DeadlineAt(m, key))], key)
  }

  /** Putting back the collection that is there, or none where there is none, changes nothing. */
  lemma SameValue(m: Keys, key: Key, value: Value)
    requires if key in m then value == m[key].value && !value.IsEmpty() else value.IsEmpty()
    ensures WithValue(m, key, value) == m
  {
    if key in m {
      assert m[key := m[key]] == m;
    } else {
      assert m[key := Content(value, None)] - {key} == m;
    }
  }

  /** What a record does to the keyspace when it is replayed: no key expires meanwhile. */
  function Apply(n: Numbers, m: Keys, r: Record): Result<Keys, string> {
    match r
    case Del(keys) => Ok(m - ToSet(keys))
    case Set(key, text, keepTtl) =>
      Ok(m[key := Content(StringValue(text), if keepTtl then DeadlineAt(m, key) else None)])
    case PExpireAt(key, at) => Ok(if key in m then m[key := m[key].(expiresAt := Some(at))] else m)
    case Persist(key) => Ok(if key in m then m[key := m[key].(expiresAt := None)] else m)
    case MSet(pairs) => Ok(PutAll(m, pairs))
    case IncrBy(key, delta) => ApplyIncr(n, m, key, delta)
    case Append(key, suffix) => ApplyAppend(m, key, suffix)
    case Restore(key, value, deadline) => Ok(DropEmpty(m[key := Content(value, deadline)], key))
    case FlushAll => Ok(map[])
    case SAdd(key, members) => ApplySAdd(m, key, members)
    case SRem(key, members) => ApplySRem(m, key, members)
    case ZAdd(key, scored) => ApplyZAdd(m, key, scored)
    case ZRem(key, members) => ApplyZRem(m, key, members)
  }

  function ApplyIncr(n: Numbers, m: Keys, key: Key, delta: int): Result<Keys, string> {
    var text := TextAt(m, key);
    if text.Err? then Err(text.error)
    else
      var result := Incremented(n, text.value, delta);
      if result.Err? then Err(result.error)
      else Ok(m[key := Content(StringValue(result.value), DeadlineAt(m, key))])
  }

  function ApplyAppend(m: Keys, key: Key, suffix: string): Result<Keys, string> {
    var text := TextAt(m, key);
    if text.Err? then Err(text.error)
    else
      var had := if text.value.Some? then text.value.value else "";
      Ok(m[key := Content(StringValue(had + suffix), DeadlineAt(m, key))])
  }

  function ApplySAdd(m: Keys, key: Key, members: seq<string>): Result<Keys, string> {
    var had := SetAt(m, key);
    if had.Err? then Err(had.error) else Ok(WithValue(m, key, SetValue(had.value + ToSet(members))))
  }

  function ApplySRem(m: Keys, key: Key, members: seq<string>): Result<Keys, string> {
    var had := SetAt(m, key);
    if had.Err? then Err(had.error)
    else if key !in m then Ok(m)
    else Ok(WithValue(m, key, SetValue(had.value - ToSet(members))))
  }

  function ApplyZAdd(m: Keys, key: Key, scored: seq<(Score, string)>): Result<Keys, string> {
    var had := ScoresAt(m, key);
    if had.Err? then Err(had.error) else Ok(WithValue(m, key, ZSetValue(PutScores(had.value, scored))))
  }

  function ApplyZRem(m: Keys, key: Key, members: seq<string>): Result<Keys, string> {
    var had := ScoresAt(m, key);
    if had.Err? then Err(had.error)
    else if key !in m then Ok(m)
    else Ok(WithValue(m, key, ZSetValue(had.value - ToSet(members))))
  }

  /** Replaying a log, oldest record first; a record that fails stops it. */
  function Replay(n: Numbers, base: Keys, log: seq<Record>): Result<Keys, string> {
    if log == [] then Ok(base)
    else
      var before := Replay(n, base, log[..|log| - 1]);
      if before.Err? then before else Apply(n, before.value, log[|log| - 1])
  }

  lemma ReplayStep(n: Numbers, base: Keys, log: seq<Record>, r: Record)
    requires Replay(n, base, log).Ok?
    ensures Replay(n, base, log + [r]) == Apply(n, Replay(n, base, log).value, r)
  {
    assert (log + [r])[..|log + [r]| - 1] == log;
  }

  lemma {:induction false} ReplayStops(n: Numbers, base: Keys, log: seq<Record>, i: nat)
    requires i <= |log| && Replay(n, base, log[..i]).Err?
    ensures Replay(n, base, log).Err?
    decreases |log| - i
  {
    if i == |log| {
      assert log[..i] == log;
    } else {
      assert log[..i + 1][..i] == log[..i];
      ReplayStops(n, base, log, i + 1);
    }
  }

  // --------------------------------------------------------------- locality

  lemma PutWithout(m: Keys, s: set<Key>, key: Key, c: Content)
    ensures (m - s)[key := c] == m[key := c] - (s - {key})
  {
  }

  lemma DropWithout(m: Keys, s: set<Key>, key: Key)
    requires key !in s
    ensures DropEmpty(m - s, key) == DropEmpty(m, key) - s
  {
  }

  lemma {:induction false} PutAllWithout(m: Keys, s: set<Key>, pairs: seq<(Key, string)>)
    ensures PutAll(m - s, pairs) == PutAll(m, pairs) - (s - MSet(pairs).Touched())
  {
    if pairs == [] {
      assert MSet(pairs).Touched() == {};
    } else {
      var n := |pairs| - 1;
      PutAllWithout(m, s, pairs[..n]);
      PutWithout(PutAll(m, pairs[..n]), s - MSet(pairs[..n]).Touched(), pairs[n].0,
                 Content(StringValue(pairs[n].1), None));
      forall k
        ensures k in MSet(pairs).Touched() <==> k in MSet(pairs[..n]).Touched() || k == pairs[n].0
      {
        if k in MSet(pairs[..n]).Touched() {
          var i :| 0 <= i < n && pairs[..n][i].0 == k;
          assert pairs[i].0 == k;
        }
      }
      assert s - MSet(pairs[..n]).Touched() - {pairs[n].0} == s - MSet(pairs).Touched();
    }
  }

  /**
   Replaying a record on a keyspace that lacks some keys leaves the same keys out, except those
   the record writes; it must not read them.
   */
  lemma ApplyWithout(n: Numbers, m: Keys, s: set<Key>, r: Record)
    requires Apply(n, m, r).Ok? && (r.Blind() || r.Touched() !! s)
    ensures Apply(n, m - s, r) == Ok(Apply(n, m, r).value - (s - r.Touched()))
  {
    match r
    case Del(keys) =>
      assert (m - s) - ToSet(keys) == (m - ToSet(keys)) - (s - r.Touched());
    case MSet(pairs) => PutAllWithout(m, s, pairs);
    case FlushAll =>
      assert Apply(n, m, r).value - (s - r.Touched()) == map[];
    case Restore(key, value, deadline) =>
      PutWithout(m, s, key, Content(value, deadline));
      DropWithout(m[key := Content(value, deadline)], s - {key}, key);
    case Set(key, text, keepTtl) =>
      PutWithout(m, s, key, Content(StringValue(text), if keepTtl then DeadlineAt(m, key) else None));
    case _ => ApplyReading(n, m, s, r);
  }

  /** What a record that reads its key writes there. */
  function Written(n: Numbers, m: Keys, r: Record): Content
    requires !r.Blind() && Apply(n, m, r).Ok?
  {
    var deadline := DeadlineAt(m, r.key);
    match r
    case Set(key, text, _) => Content(StringValue(text), deadline)
    case PExpireAt(key, at) => if key in m then m[key].(expiresAt := Some(at)) else Content(StringValue(""), None)
    case Persist(key) => if key in m then m[key].(expiresAt := None) else Content(StringValue(""), None)
    case IncrBy(key, delta) => Apply(n, m, r).value[key]
    case Append(key, suffix) => Apply(n, m, r).value[key]
    case SAdd(key, members) => Content(SetValue(SetAt(m, key).value + ToSet(members)), deadline)
    case SRem(key, members) => Content(SetValue(SetAt(m, key).value - ToSet(members)), deadline)
    case ZAdd(key, scored) => Content(ZSetValue(PutScores(ScoresAt(m, key).value, scored)), deadline)
    case ZRem(key, members) => Content(ZSetValue(ScoresAt(m, key).value - ToSet(members)), deadline)
  }

  lemma ApplyReading(n: Numbers, m: Keys, s: set<Key>, r: Record)
    requires Apply(n, m, r).Ok? && !r.Blind() && r.key !in s
    ensures Apply(n, m - s, r) == Ok(Apply(n, m, r).value - (s - {r.key}))
  {
    var key := r.key;
    assert s - {key} == s;
    assert key in m - s <==> key in m;
    var c := Written(n, m, r);
    PutWithout(m, s, key, c);
    DropWithout(m[key := c], s, key);
  }

  /** A record leaves the keys it does not write as they were. */
  lemma ApplyElsewhere(n: Numbers, m: Keys, r: Record, k: Key)
    requires Apply(n, m, r).Ok? && !r.FlushAll? && k !in r.Touched()
    ensures k in Apply(n, m, r).value <==> k in m
    ensures k in m ==> Apply(n, m, r).value[k] == m[k]
  {
    if r.MSet? {
      PutAllElsewhere(m, r.pairs, k);
    }
  }

  lemma {:induction false} PutAllElsewhere(m: Keys, pairs: seq<(Key, string)>, k: Key)
    requires k !in MSet(pairs).Touched()
    ensures k in PutAll(m, pairs) <==> k in m
    ensures k in m ==> PutAll(m, pairs)[k] == m[k]
  {
    if pairs != [] {
      var n := |pairs| - 1;
      assert pairs[n].0 in MSet(pairs).Touched();
      forall i | 0 <= i < n
        ensures pairs[..n][i].0 != k
      {
        assert pairs[i].0 in MSet(pairs).Touched();
      }
      PutAllElsewhere(m, pairs[..n], k);
    }
  }

  lemma StillExpired(n: Numbers, m: Keys, s: set<Key>, since: int, r: Record)
    requires AllExpired(m, s, since) && Apply(n, m, r).Ok? && !r.FlushAll?
    ensures AllExpired(Apply(n, m, r).value, s - r.Touched(), since)
  {
    forall k | k in s - r.Touched()
      ensures k in Apply(n, m, r).value && Apply(n, m, r).value[k].Expired(since)
    {
      ApplyElsewhere(n, m, r, k);
    }
  }

  lemma ToSetStep(s: seq<string>, i: nat)
    requires i < |s|
    ensures ToSet(s[..i + 1]) == ToSet(s[..i]) + {s[i]}
  {
    assert s[..i + 1] == s[..i] + [s[i]];
  }

  // ------------------------------------------------------------ collections

  /** The members seen, or just the effective ones, take had to target. */
  ghost predicate Gained(had: set<string>, seen: set<string>, target: set<string>, added: seq<string>) {
    target == had + seen && target == had + ToSet(added) && |added| == |target| - |had| && ToSet(added) !! had
  }

  ghost predicate Lost(had: set<string>, seen: set<string>, target: set<string>, removed: seq<string>) {
    target == had - seen && target == had - ToSet(removed) && |removed| == |had| - |target| && ToSet(removed) <= had
  }

  lemma GainedStep(had: set<string>, seen: set<string>, target: set<string>, added: seq<string>, x: string)
    requires Gained(had, seen, target, added)
    ensures x in target ==> Gained(had, seen + {x}, target, added)
    ensures x !in target ==> Gained(had, seen + {x}, target + {x}, added + [x])
  {
    if x !in target {
      assert ToSet(added + [x]) == ToSet(added) + {x};
      assert |target + {x}| == |target| + 1;
    }
  }

  lemma LostStep(had: set<string>, seen: set<string>, target: set<string>, removed: seq<string>, x: string)
    requires Lost(had, seen, target, removed)
    ensures x in target ==> Lost(had, seen + {x}, target - {x}, removed + [x])
    ensures x !in target ==> Lost(had, seen + {x}, target, removed)
  {
    if x in target {
      assert ToSet(removed + [x]) == ToSet(removed) + {x};
      assert |target - {x}| == |target| - 1;
    }
  }

  /** sadd's loop: the members that are new, in order. */
  method AddMembers(had: set<string>, members: seq<string>) returns (target: set<string>, added: seq<string>)
    ensures Gained(had, ToSet(members), target, added)
  {
    target, added := had, [];
    for i := 0 to |members|
      invariant Gained(had, ToSet(members[..i]), target, added)
    {
      ToSetStep(members, i);
      GainedStep(had, ToSet(members[..i]), target, added, members[i]);
      if members[i] !in target {
        target, added := target + {members[i]}, added + [members[i]];
      }
    }
    assert members[..|members|] == members;
  }

  /** srem's loop: the members that were there, in order. */
  method RemoveMembers(had: set<string>, members: seq<string>) returns (target: set<string>, removed: seq<string>)
    ensures Lost(had, ToSet(members), target, removed)
  {
    target, removed := had, [];
    for i := 0 to |members|
      invariant Lost(had, ToSet(members[..i]), target, removed)
    {
      ToSetStep(members, i);
      LostStep(had, ToSet(members[..i]), target, removed, members[i]);
      if members[i] in target {
        target, removed := target - {members[i]}, removed + [members[i]];
      }
    }
    assert members[..|members|] == members;
  }

  /** So many of the members there are go. */
  ghost predicate Dropped(had: set<string>, members: seq<string>, count: nat) {
    count == |had| - |had - ToSet(members)|
  }

  lemma DroppedNone(had: set<string>, members: seq<string>)
    requires had == {}
    ensures Dropped(had, members, 0)
  {
    assert had - ToSet(members) == {};
  }

  ghost predicate LostScores(had: map<string, Score>, seen: set<string>, target: map<string, Score>,
                             removed: seq<string>)
  {
    && target == had - seen && target == had - ToSet(removed)
    && |removed| == |had.Keys| - |had.Keys - seen| && ToSet(removed) <= had.Keys
  }

  lemma LostKeys(had: map<string, Score>, seen: set<string>, left: set<string>, removed: seq<string>)
    requires Lost(had.Keys, seen, left, removed)
    ensures LostScores(had, seen, had - ToSet(removed), removed)
  {
    assert had - ToSet(removed) == had - seen;
  }

  /** zrem's loop. */
  method RemoveScores(had: map<string, Score>, members: seq<string>)
    returns (target: map<string, Score>, removed: seq<string>)
    ensures LostScores(had, ToSet(members), target, removed)
  {
    var left;
    left, removed := RemoveMembers(had.Keys, members);
    LostKeys(had, ToSet(members), left, removed);
    target := had - ToSet(removed);
  }

  datatype ZOptions = ZOptions(nx: bool, xx: bool, gt: bool, lt: bool, incr: bool)

  const PLAIN := ZOptions(false, false, false, false, false)

  predicate Compatible(o: ZOptions, pairs: nat) {
    !(o.nx && o.xx) && !(o.gt && o.lt) && !(o.nx && (o.gt || o.lt)) && (o.incr ==> pairs == 1)
  }

  /** What zadd did: the scores after it, the effects it logs, and what it counts. */
  datatype ZAdded = ZAdded(scores: map<string, Score>, effects: seq<(Score, string)>, added: nat, changed: nat,
                           last: Option<Score>)
  {
    function Give(score: Score, member: string): ZAdded {
      ZAdded(scores[member := score], effects + [(score, member)],
        if member in scores then added else added + 1, if member in scores then changed + 1 else changed, Some(score))
    }
  }

  lemma PutScoresStep(scores: map<string, Score>, scored: seq<(Score, string)>, score: Score, member: string)
    ensures PutScores(scores, scored + [(score, member)]) == PutScores(scores, scored)[member := score]
  {
    assert (scored + [(score, member)])[..|scored|] == scored;
  }

  /** The options hold: NX changes no score, XX adds none, GT only raises, LT only lowers. */
  ghost predicate Respects(o: ZOptions, had: map<string, Score>, scores: map<string, Score>) {
    && had.Keys <= scores.Keys
    && (o.xx ==> scores.Keys == had.Keys)
    && forall x :: x in had ==>
         && (o.nx ==> scores[x] == had[x])
         && (o.gt ==> !ScoreLess(scores[x], had[x]))
         && (o.lt ==> !ScoreLess(had[x], scores[x]))
  }

  /** The score zadd gives a member, if the options let it; Err if it is not a number. */
  function NewScore(o: ZOptions, scores: map<string, Score>, score: Score, member: string)
    : Result<Option<Score>, string>
  {
    if member !in scores then Ok(if o.xx then None else Some(score))
    else if o.nx then Ok(None)
    else
      var result := if o.incr then AddScores(scores[member], score) else Some(score);
      if result.None? then Err(NOT_A_NUMBER)
      else if o.gt && !ScoreLess(scores[member], result.value) then Ok(None)
      else if o.lt && !ScoreLess(result.value, scores[member]) then Ok(None)
      else Ok(result)
  }

  lemma RespectsStep(o: ZOptions, had: map<string, Score>, scores: map<string, Score>, score: Score, member: string)
    requires Respects(o, had, scores) && NewScore(o, scores, score, member).Ok? &&
      NewScore(o, scores, score, member).value.Some?
    ensures Respects(o, had, scores[member := NewScore(o, scores, score, member).value.value])
  {
    var scores' := scores[member := NewScore(o, scores, score, member).value.value];
    assert scores'.Keys == scores.Keys + {member};
    forall x | x in had
      ensures o.nx ==> scores'[x] == had[x]
      ensures o.gt ==> !ScoreLess(scores'[x], had[x])
      ensures o.lt ==> !ScoreLess(had[x], scores'[x])
    {
    }
  }

  /** What zadd has done so far agrees with its effects and its counters. */
  ghost predicate Tallied(had: map<string, Score>, z: ZAdded) {
    z.scores == PutScores(had, z.effects) && z.added == |z.scores| - |had| && |z.effects| == z.added + z.changed
  }

  lemma TalliedStep(had: map<string, Score>, z: ZAdded, score: Score, member: string)
    requires Tallied(had, z)
    ensures Tallied(had, z.Give(score, member))
  {
    PutScoresStep(had, z.effects, score, member);
    if member in z.scores {
      assert z.scores[member := score].Keys == z.scores.Keys;
    } else {
      assert z.scores[member := score].Keys == z.scores.Keys + {member};
    }
  }

  /** One turn of zadd's loop. */
  function ScoreOne(o: ZOptions, z: ZAdded, score: Score, member: string): Result<ZAdded, string> {
    var result := NewScore(o, z.scores, score, member);
    if result.Err? then Err(result.error)
    else if result.value.None? then Ok(z)
    else if member in z.scores && z.scores[member] == result.value.value then Ok(z.(last := result.value))
    else Ok(z.Give(result.value.value, member))
  }

  /** What zadd does with the first n pairs. */
  function ScoreAll(o: ZOptions, had: map<string, Score>, pairs: seq<(Score, string)>, n: nat): Result<ZAdded, string>
    requires n <= |pairs|
  {
    if n == 0 then Ok(ZAdded(had, [], 0, 0, None))
    else
      var before := ScoreAll(o, had, pairs, n - 1);
      if before.Err? then before else ScoreOne(o, before.value, pairs[n - 1].0, pairs[n - 1].1)
  }

  /** Whatever the options: the effects and counts are those of the change, and the options are respected. */
  lemma {:induction false} ScoreAllKeeps(o: ZOptions, had: map<string, Score>, pairs: seq<(Score, string)>, n: nat)
    requires n <= |pairs| && ScoreAll(o, had, pairs, n).Ok?
    ensures var z := ScoreAll(o, had, pairs, n).value; Tallied(had, z) && Respects(o, had, z.scores)
  {
    if n > 0 {
      ScoreAllKeeps(o, had, pairs, n - 1);
      var z := ScoreAll(o, had, pairs, n - 1).value;
      var score, member := pairs[n - 1].0, pairs[n - 1].1;
      var result := NewScore(o, z.scores, score, member);
      if result.value.Some? {
        RespectsStep(o, had, z.scores, score, member);
        TalliedStep(had, z, result.value.value, member);
      }
    }
  }

  lemma ScoreOnePlain(z: ZAdded, score: Score, member: string)
    ensures ScoreOne(PLAIN, z, score, member).Ok?
    ensures ScoreOne(PLAIN, z, score, member).value.scores == z.scores[member := score]
  {
  }

  /** Without options every pair is given, the last one of a member counting. */
  lemma {:induction false} ScoreAllPlain(had: map<string, Score>, pairs: seq<(Score, string)>, n: nat)
    requires n <= |pairs|
    ensures ScoreAll(PLAIN, had, pairs, n).Ok? && ScoreAll(PLAIN, had, pairs, n).value.scores ==
      PutScores(had, pairs[..n])
  {
    if n > 0 {
      ScoreAllPlain(had, pairs, n - 1);
      ScoreOnePlain(ScoreAll(PLAIN, had, pairs, n - 1).value, pairs[n - 1].0, pairs[n - 1].1);
      assert pairs[..n] == pairs[..n - 1] + [(pairs[n - 1].0, pairs[n - 1].1)];
      PutScoresStep(had, pairs[..n - 1], pairs[n - 1].0, pairs[n - 1].1);
    }
  }

  lemma {:induction false} ScoreAllStops(o: ZOptions, had: map<string, Score>, pairs: seq<(Score, string)>, i: nat,
                                         n: nat)
    requires i <= n <= |pairs| && ScoreAll(o, had, pairs, i).Err?
    ensures ScoreAll(o, had, pairs, n) == ScoreAll(o, had, pairs, i)
  {
    if i < n {
      ScoreAllStops(o, had, pairs, i, n - 1);
    }
  }

  /** zadd's loop. */
  method AddScored(o: ZOptions, had: map<string, Score>, pairs: seq<(Score, string)>)
    returns (r: Result<ZAdded, string>)
    ensures r == ScoreAll(o, had, pairs, |pairs|)
  {
    var z := ZAdded(had, [], 0, 0, None);
    for i := 0 to |pairs|
      invariant Ok(z) == ScoreAll(o, had, pairs, i)
    {
      r := ScoreOne(o, z, pairs[i].0, pairs[i].1);
      if r.Err? {
        ScoreAllStops(o, had, pairs, i + 1, |pairs|);
        return;
      }
      z := r.value;
    }
    return Ok(z);
  }

  lemma ScoreRecord(n: Numbers, m: Keys, key: Key, had: map<string, Score>, score: Score, member: string)
    requires ScoresAt(m, key) == Ok(had)
    ensures Apply(n, m, ZAdd(key, [(score, member)])) == Ok(WithValue(m, key, ZSetValue(had[member := score])))
  {
    PutScoresStep(had, [], score, member);
    assert [] + [(score, member)] == [(score, member)];
  }

  /** Logging the members that are new does what adding the given ones did. */
  lemma SetAdded(n: Numbers, m: Keys, key: Key, had: set<string>, members: seq<string>, target: set<string>,
                 added: seq<string>)
    requires SetAt(m, key) == Ok(had) && (key in m ==> had != {}) && members != []
    requires Gained(had, ToSet(members), target, added)
    ensures Apply(n, m, SAdd(key, added)) == Ok(WithValue(m, key, SetValue(target))) == Apply(n, m, SAdd(key, members))
    ensures added == [] ==> WithValue(m, key, SetValue(target)) == m
    ensures |added| == |had + ToSet(members)| - |had|
  {
    if added == [] {
      assert members[0] in target;
      SameValue(m, key, SetValue(target));
    }
  }

  /** Logging the members that went does what removing the given ones did. */
  lemma SetRemoved(n: Numbers, m: Keys, key: Key, had: set<string>, members: seq<string>, target: set<string>,
                   removed: seq<string>)
    requires key in m && SetAt(m, key) == Ok(had) && had != {} && Lost(had, ToSet(members), target, removed)
    ensures Apply(n, m, SRem(key, removed)) == Ok(WithValue(m, key, SetValue(target))) ==
      Apply(n, m, SRem(key, members))
    ensures removed == [] ==> WithValue(m, key, SetValue(target)) == m
    ensures Dropped(had, members, |removed|)
  {
    if removed == [] {
      assert target == had;
      SameValue(m, key, SetValue(target));
    }
  }

  lemma NothingLost(had: map<string, Score>, removed: seq<string>)
    requires removed == []
    ensures had - ToSet(removed) == had
  {
  }

  lemma ZRemTakes(n: Numbers, m: Keys, key: Key, had: map<string, Score>, members: seq<string>,
                  left: map<string, Score>)
    requires key in m && ScoresAt(m, key) == Ok(had) && left == had - ToSet(members)
    ensures Apply(n, m, ZRem(key, members)) == Ok(WithValue(m, key, ZSetValue(left)))
  {
  }

  lemma ScoresRemoved(n: Numbers, m: Keys, key: Key, had: map<string, Score>, members: seq<string>,
                      target: map<string, Score>, removed: seq<string>)
    requires key in m && ScoresAt(m, key) == Ok(had) && had != map[]
    requires LostScores(had, ToSet(members), target, removed)
    ensures Apply(n, m, ZRem(key, removed)) == Ok(WithValue(m, key, ZSetValue(target))) ==
      Apply(n, m, ZRem(key, members))
    ensures removed == [] ==> WithValue(m, key, ZSetValue(target)) == m
    ensures Dropped(had.Keys, members, |removed|)
  {
    ZRemTakes(n, m, key, had, members, target);
    ZRemTakes(n, m, key, had, removed, target);
    if removed == [] {
      NothingLost(had, removed);
      SameValue(m, key, ZSetValue(target));
    }
  }

  /** RemoveMembers, in terms of the record that logs it. */
  method TakeMembers(had: set<string>, members: seq<string>, ghost n: Numbers, ghost m: Keys, ghost key: Key)
    returns (target: set<string>, removed: seq<string>)
    requires key in m && SetAt(m, key) == Ok(had) && had != {}
    ensures Apply(n, m, SRem(key, removed)) == Ok(WithValue(m, key, SetValue(target))) ==
      Apply(n, m, SRem(key, members))
    ensures removed == [] ==> WithValue(m, key, SetValue(target)) == m
    ensures Dropped(had, members, |removed|)
  {
    target, removed := RemoveMembers(had, members);
    SetRemoved(n, m, key, had, members, target, removed);
  }

  method TakeScores(had: map<string, Score>, members: seq<string>, ghost n: Numbers, ghost m: Keys, ghost key: Key)
    returns (target: map<string, Score>, removed: seq<string>)
    requires key in m && ScoresAt(m, key) == Ok(had) && had != map[]
    ensures Apply(n, m, ZRem(key, removed)) == Ok(WithValue(m, key, ZSetValue(target))) ==
      Apply(n, m, ZRem(key, members))
    ensures removed == [] ==> WithValue(m, key, ZSetValue(target)) == m
    ensures Dropped(had.Keys, members, |removed|)
  {
    target, removed := RemoveScores(had, members);
    ScoresRemoved(n, m, key, had, members, target, removed);
  }

  /** Logging the scores that changed does what ZADD did. */
  lemma ScoresAdded(n: Numbers, m: Keys, key: Key, had: map<string, Score>, o: ZOptions, pairs: seq<(Score, string)>)
    requires ScoresAt(m, key) == Ok(had) && (key in m ==> had != map[]) && pairs != []
    requires ScoreAll(o, had, pairs, |pairs|).Ok?
    ensures var z := ScoreAll(o, had, pairs, |pairs|).value;
      && Apply(n, m, ZAdd(key, z.effects)) == Ok(WithValue(m, key, ZSetValue(z.scores)))
      && (z.effects == [] ==> WithValue(m, key, ZSetValue(z.scores)) == m)
      && (o == PLAIN ==> Apply(n, m, ZAdd(key, pairs)) == Ok(WithValue(m, key, ZSetValue(z.scores))))
  {
    var z := ScoreAll(o, had, pairs, |pairs|).value;
    ScoreAllKeeps(o, had, pairs, |pairs|);
    if z.effects == [] {
      SameValue(m, key, ZSetValue(z.scores));
    }
    if o == PLAIN {
      ScoreAllPlain(had, pairs, |pairs|);
      assert pairs[..|pairs|] == pairs;
    }
  }

  // ----------------------------------------------------------------- engine

  /** How handlers run: for a client, for the log at startup, or for a primary's stream. */
  datatype Mode = Live | Loading | Replicating

  /** What the arity check of a record's command demands. */
  predicate WellFormed(r: Record) {
    (r.SAdd? ==> r.members != []) && (r.ZAdd? ==> r.scored != [])
  }

  /** A record whose deadline is past by the time it arrives, for a key it would keep. */
  predicate Outlived(r: Record, m: Keys, now: int) {
    || (r.PExpireAt? && r.key in m && r.at <= now)
    || (r.Restore? && r.deadline.Some? && r.deadline.value <= now && !r.value.IsEmpty())
  }

  /** These are the keyspaces after each of the first n records of the stream. */
  ghost predicate Followed(numbers: Numbers, base: Keys, records: seq<Record>, states: seq<Keys>, n: nat) {
    && n <= |records| && n < |states| && Replay(numbers, base, records[..n]) == Ok(states[n])
    && (n > 0 ==> Followed(numbers, base, records, states, n - 1))
  }

  /** None of the first n records has been overtaken by its deadline when it is run. */
  ghost predicate OnTime(numbers: Numbers, base: Keys, records: seq<Record>, clock: seq<int>, n: nat)
    requires n <= |records| == |clock|
  {
    n > 0 ==>
      && OnTime(numbers, base, records, clock, n - 1)
      && (Replay(numbers, base, records[..n - 1]).Ok? ==>
            !Outlived(records[n - 1], Replay(numbers, base, records[..n - 1]).value, clock[n - 1]))
  }

  lemma {:induction false} OnTimeSooner(numbers: Numbers, base: Keys, records: seq<Record>, clock: seq<int>, i: nat,
                                        n: nat)
    requires i <= n <= |records| == |clock| && OnTime(numbers, base, records, clock, n)
    ensures OnTime(numbers, base, records, clock, i)
  {
    if i < n {
      OnTimeSooner(numbers, base, records, clock, i, n - 1);
    }
  }

  lemma {:induction false} FollowedLonger(numbers: Numbers, base: Keys, records: seq<Record>, states: seq<Keys>,
                                          next: Keys, n: nat)
    requires n < |states|
    ensures Followed(numbers, base, records, states + [next], n) <==> Followed(numbers, base, records, states, n)
  {
    if n > 0 {
      FollowedLonger(numbers, base, records, states, next, n - 1);
    }
  }

  ghost predicate AllWellFormed(log: seq<Record>) {
    forall i :: 0 <= i < |log| ==> WellFormed(log[i])
  }

  ghost predicate NoEmpty(m: Keys) {
    forall k :: k in m ==> !m[k].value.IsEmpty()
  }

  ghost predicate AllExpired(m: Keys, s: set<Key>, since: int) {
    s <= m.Keys && forall k :: k in s ==> m[k].Expired(since)
  }

  lemma LessOne(m: Keys, doomed: seq<Key>, i: nat)
    requires i < |doomed|
    ensures m - ToSet(doomed[..i]) - {doomed[i]} == m - ToSet(doomed[..i + 1])
  {
    ToSetStep(doomed, i);
  }

  lemma ToSetMore(s: seq<Key>, key: Key)
    ensures ToSet(s + [key]) == ToSet(s) + {key}
  {
  }

  /** The keys that are there and, to a client, not expired, each the first time it is named. */
  function Present(m: Keys, live: bool, named: seq<Key>, n: nat, now: int): seq<Key>
    requires n <= |named|
  {
    if n == 0 then []
    else
      var key := named[n - 1];
      var before := Present(m, live, named, n - 1, now);
      if key in m && !(live && m[key].Expired(now)) && key !in named[..n - 1] then before + [key] else before
  }

  /** The keys among these that are there and, to a client, not expired. */
  ghost function Alive(m: Keys, live: bool, named: set<Key>, now: int): set<Key> {
    set k | k in named && k in m && !(live && m[k].Expired(now))
  }

  lemma AliveStep(m: Keys, live: bool, named: set<Key>, key: Key, now: int)
    ensures Alive(m, live, named + {key}, now) ==
      Alive(m, live, named, now) + if key in m && !(live && m[key].Expired(now)) then {key} else {}
    ensures key in Alive(m, live, named, now) ==> key in named
  {
  }

  lemma OneMore(s: seq<Key>, key: Key)
    requires |s| == |ToSet(s)| && key !in ToSet(s)
    ensures ToSet(s + [key]) == ToSet(s) + {key} && |s + [key]| == |ToSet(s + [key])|
  {
    assert ToSet(s + [key]) == ToSet(s) + {key};
  }

  lemma {:induction false} PresentCounts(m: Keys, live: bool, named: seq<Key>, n: nat, now: int)
    requires n <= |named|
    ensures var r := Present(m, live, named, n, now);
      ToSet(r) == Alive(m, live, ToSet(named[..n]), now) && |r| == |ToSet(r)|
  {
    if n > 0 {
      var before, key, seen := Present(m, live, named, n - 1, now), named[n - 1], ToSet(named[..n - 1]);
      PresentCounts(m, live, named, n - 1, now);
      ToSetStep(named, n - 1);
      AliveStep(m, live, seen, key, now);
      if key !in seen {
        OneMore(before, key);
      }
    }
  }

  lemma WithoutOne(before: Keys, after: Keys, had: Keys, keys: Keys, gone: set<Key>, key: Key, done: bool)
    requires had == before - gone && keys == had - {key}
    requires done ==> after == before && key in had
    requires !done ==> after == if key in had then before - {key} else before
    ensures keys == after - if done then gone + {key} else gone
  {
  }

  /**
   The keyspace, as the store keeps it, and the log. The log's base is a snapshot taken at time
   since: it may lack keys that had expired by then, the missing ones.
   */
  class Engine {
    const numbers: Numbers
    var mode: Mode
    var keys: Keys
    var log: seq<Record>
    var base: Keys
    ghost var since: int
    ghost var missing: set<Key>

    ghost predicate Valid()
      reads this
    {
      Consistent(keys)
    }

    /** With m in memory, replaying the log over its base rebuilds m but for the missing keys. */
    ghost predicate Consistent(m: Keys)
      reads this
    {
      && NoEmpty(m) && AllExpired(m, missing, since)
      && (!mode.Live? ==> missing == {}) && AllWellFormed(log)
      && (!mode.Loading? ==> Replay(numbers, base, log) == Ok(m - missing))
    }

    /** The log only grows, and not while it is being replayed; no key goes missing. */
    twostate predicate Grown()
      reads this
    {
      missing <= old(missing) && old(log) <= log && (mode.Loading? ==> log == old(log))
    }

    constructor (numbers: Numbers)
      ensures Valid() && keys == map[] && log == [] && mode.Live? && this.numbers == numbers
    {
      this.numbers := numbers;
      mode, keys, log := Live, map[], [];
      base, since, missing := map[], 0, {};
      new;
      assert keys - missing == map[];
    }

    /** propagate: log what takes the keyspace from m to after, unless it is being replayed. */
    method Propagate(r: Record, ghost m: Keys, ghost after: Keys)
      requires Consistent(m) && Apply(numbers, m, r) == Ok(after) && NoEmpty(after) && WellFormed(r)
      requires r.Blind() || r.Touched() !! missing
      modifies `log, `missing
      ensures Consistent(after) && Grown()
      ensures log == if mode.Loading? then old(log) else old(log) + [r]
      ensures forall k :: k in r.Touched() ==> k !in missing
    {
      ApplyWithout(numbers, m, missing, r);
      missing := if r.FlushAll? then {} else missing - r.Touched();
      if !r.FlushAll? {
        StillExpired(numbers, m, old(missing), since, r);
      }
      if !mode.Loading? {
        ReplayStep(numbers, base, log, r);
        assert after - missing == after - (old(missing) - r.Touched());
        log := log + [r];
      }
    }

    // ------------------------------------------------------- store operations

    predicate Dead(key: Key, now: int)
      reads this
    {
      mode.Live? && key in keys && keys[key].Expired(now)
    }

    /** The keyspace as a lookup of the key leaves it. */
    ghost function Seen(key: Key, now: int): Keys
      reads this
    {
      if Dead(key, now) then keys - {key} else keys
    }

    /** Delete a key and log that: expiry, active or lazy, and eviction. */
    method Forget(key: Key)
      requires Valid()
      modifies `keys, `log, `missing
      ensures Valid() && keys == old(keys) - {key} && Grown() && key !in missing
    {
      ghost var m := keys;
      keys := keys - {key};
      assert ToSet([key]) == {key};
      Propagate(Del([key]), m, keys);
    }

    /** A lookup; the client's clock counts only for clients. */
    method Lookup(key: Key, now: int) returns (found: Option<Content>)
      requires Valid() && since <= now
      modifies `keys, `log, `missing
      ensures Valid() && Grown() && key !in missing
      ensures keys == old(Seen(key, now))
      ensures !old(Dead(key, now)) ==> log == old(log)
      ensures found == if key in keys then Some(keys[key]) else None
    {
      if Dead(key, now) {
        Forget(key);
        return None;
      }
      return if key in keys then Some(keys[key]) else None;
    }

    method ReadText(key: Key, now: int) returns (text: Result<Option<string>, string>)
      requires Valid() && since <= now
      modifies `keys, `log, `missing
      ensures Valid() && Grown() && key !in missing
      ensures keys == old(Seen(key, now))
      ensures !old(Dead(key, now)) ==> log == old(log)
      ensures text == TextAt(keys, key)
    {
      var found := Lookup(key, now);
      return
        if found.None? then Ok(None)
        else if found.value.value.StringValue? then Ok(Some(found.value.value.text))
        else Err(WRONG_TYPE);
    }

    // ----------------------------------------------------------------- handlers

    /** SET, its options parsed. */
    method SetText(key: Key, text: string, nx: bool, xx: bool, getOld: bool, keepTtl: bool, ttl: Option<int>, now: int)
      returns (reply: Result<Option<string>, string>, done: bool)
      requires Valid() && since <= now && (ttl.Some? ==> !keepTtl)
      modifies `keys, `log, `missing
      ensures Valid() && Grown()
      ensures var m := old(Seen(key, now));
        && (reply.Err? <==> getOld && TextAt(m, key).Err?)
        && (reply.Ok? ==> reply.value == if getOld then TextAt(m, key).value else None)
        && (done <==> reply.Ok? && (nx ==> key !in m) && (xx ==> key in m))
        && keys == if done then m[key := Content(StringValue(text), SetDeadline(m, key, keepTtl, ttl, now))] else m
    {
      var had: Option<string> := None;
      if getOld {
        var read := ReadText(key, now);
        if read.Err? {
          return Err(read.error), false;
        }
        had := read.value;
      }
      var found := Lookup(key, now);
      if (nx && found.Some?) || (xx && found.None?) {
        return Ok(had), false;
      }
      Store(key, text, keepTtl);
      if ttl.Some? {
        Expire(key, now + ttl.value);
      }
      return Ok(had), true;
    }

    /** store.set and its log record; a kept deadline was looked up before. */
    method Store(key: Key, text: string, keepTtl: bool)
      requires Valid() && (keepTtl ==> key !in missing)
      modifies `keys, `log, `missing
      ensures Valid() && Grown() && key !in missing
      ensures keys == old(keys)[key := Content(StringValue(text), if keepTtl then DeadlineAt(old(keys), key) else None)]
    {
      ghost var m := keys;
      keys := keys[key := Content(StringValue(text), if keepTtl then DeadlineAt(keys, key) else None)];
      Propagate(Set(key, text, keepTtl), m, keys);
    }

    method Expire(key: Key, at: int)
      requires Valid() && key in keys && key !in missing
      modifies `keys, `log, `missing
      ensures Valid() && Grown() && key !in missing
      ensures keys == old(keys)[key := old(keys)[key].(expiresAt := Some(at))]
    {
      ghost var m := keys;
      keys := keys[key := keys[key].(expiresAt := Some(at))];
      Propagate(PExpireAt(key, at), m, keys);
    }

    method GetDel(key: Key, now: int) returns (reply: Result<Option<string>, string>)
      requires Valid() && since <= now
      modifies `keys, `log, `missing
      ensures Valid() && Grown()
      ensures reply == TextAt(old(Seen(key, now)), key)
      ensures keys == if reply.Ok? then old(Seen(key, now)) - {key} else old(Seen(key, now))
    {
      reply := ReadText(key, now);
      if reply.Ok? && reply.value.Some? {
        Forget(key);
      }
    }

    method IncrByInt(key: Key, delta: int, now: int) returns (reply: Result<string, string>)
      requires Valid() && since <= now
      modifies `keys, `log, `missing
      ensures Valid() && Grown()
      ensures Apply(numbers, old(Seen(key, now)), IncrBy(key, delta)) == if reply.Ok? then Ok(keys)
        else Err(reply.error)
      ensures if reply.Ok? then key in keys && keys[key].value == StringValue(reply.value)
        else keys == old(Seen(key, now))
    {
      var current := ReadText(key, now);
      if current.Err? {
        return Err(current.error);
      }
      var result := Incremented(numbers, current.value, delta);
      if result.Ok? {
        ghost var m := keys;
        keys := keys[key := Content(StringValue(result.value), DeadlineAt(keys, key))];
        Propagate(IncrBy(key, delta), m, keys);
      }
      return result;
    }

    /** INCRBYFLOAT logs the resulting text, so that formatting cannot differ on replay. */
    method IncrByFloat(key: Key, sum: Option<string> -> Result<string, string>, now: int)
      returns (reply: Result<string, string>)
      requires Valid() && since <= now
      modifies `keys, `log, `missing
      ensures Valid() && Grown()
      ensures var m := old(Seen(key, now));
        && reply == (if TextAt(m, key).Err? then Err(TextAt(m, key).error) else sum(TextAt(m, key).value))
        && keys == if reply.Ok? then m[key := Content(StringValue(reply.value), DeadlineAt(m, key))] else m
    {
      var current := ReadText(key, now);
      if current.Err? {
        return Err(current.error);
      }
      reply := sum(current.value);
      if reply.Ok? {
        Store(key, reply.value, true);
      }
    }

    method AppendText(key: Key, suffix: string, now: int) returns (reply: Result<nat, string>)
      requires Valid() && since <= now
      modifies `keys, `log, `missing
      ensures Valid() && Grown()
      ensures Apply(numbers, old(Seen(key, now)), Append(key, suffix)) == if reply.Ok? then Ok(keys)
        else Err(reply.error)
      ensures if reply.Err? then keys == old(Seen(key, now))
              else key in keys && keys[key].value.StringValue? && reply.value == |keys[key].value.text|
    {
      var current := ReadText(key, now);
      if current.Err? {
        return Err(current.error);
      }
      var value := (if current.value.Some? then current.value.value else "") + suffix;
      ghost var m := keys;
      keys := keys[key := Content(StringValue(value), DeadlineAt(keys, key))];
      Propagate(Append(key, suffix), m, keys);
      return Ok(|value|);
    }

    /** MSET: every pair in order, whatever was there. */
    method SetAll(pairs: seq<(Key, string)>)
      requires Valid()
      modifies `keys, `log, `missing
      ensures Valid() && Grown()
      ensures keys == PutAll(old(keys), pairs)
    {
      ghost var m := keys;
      for i := 0 to |pairs|
        invariant keys == PutAll(m, pairs[..i]) && NoEmpty(keys) && Consistent(m) && missing == old(missing) &&
          log == old(log)
      {
        assert pairs[..i + 1][..i] == pairs[..i];
        keys := keys[pairs[i].0 := Content(StringValue(pairs[i].1), None)];
      }
      assert pairs[..|pairs|] == pairs;
      Propagate(MSet(pairs), m, keys);
    }

    /** store.delete within DEL: unlogged is the keyspace the log stands for so far. */
    method DeleteOne(key: Key, now: int, ghost unlogged: Keys) returns (done: bool, ghost unlogged': Keys)
      requires Consistent(unlogged) && since <= now && keys.Keys <= unlogged.Keys
      requires key in keys ==> keys[key] == unlogged[key]
      requires key in unlogged && key !in keys ==> key !in missing
      modifies `keys, `log, `missing
      ensures Consistent(unlogged') && Grown() && key !in missing
      ensures keys == old(keys) - {key}
      ensures done <==> key in old(keys) && !old(Dead(key, now))
      ensures done ==> unlogged' == unlogged
      ensures !done ==> unlogged' == if key in old(keys) then unlogged - {key} else unlogged
    {
      unlogged' := unlogged;
      done := false;
      if key in keys {
        if Dead(key, now) {
          unlogged' := unlogged - {key};
          assert ToSet([key]) == {key};
          Propagate(Del([key]), unlogged, unlogged');
        } else {
          done := true;
        }
      }
      keys := keys - {key};
    }

    /** DEL: the keys that were there are logged in one record, after those found expired. */
    method DeleteAll(doomed: seq<Key>, now: int) returns (deleted: seq<Key>)
      requires Valid() && since <= now
      modifies `keys, `log, `missing
      ensures Valid() && Grown()
      ensures keys == old(keys) - ToSet(doomed)
      ensures deleted == Present(old(keys), mode.Live?, doomed, |doomed|, now)
    {
      deleted := [];
      ghost var m, unlogged, gone := keys, keys, {};
      assert keys - {} == keys;
      for i := 0 to |doomed|
        invariant Consistent(unlogged) && Grown()
        invariant keys == unlogged - gone && gone !! missing && gone == ToSet(deleted)
        invariant keys == m - ToSet(doomed[..i]) && deleted == Present(m, mode.Live?, doomed, i, now)
      {
        var key := doomed[i];
        var done: bool;
        ghost var before, had := unlogged, keys;
        done, unlogged := DeleteOne(key, now, unlogged);
        WithoutOne(before, unlogged, had, keys, gone, key, done);
        LessOne(m, doomed, i);
        if done {
          ToSetMore(deleted, key);
          deleted, gone := deleted + [key], gone + {key};
        }
      }
      assert doomed[..|doomed|] == doomed;
      if deleted != [] {
        Propagate(Del(deleted), unlogged, keys);
      } else {
        assert keys == unlogged;
      }
    }

    /** DEL's reply counts every live key once, however often it is named. */
    method Delete(doomed: seq<Key>, now: int) returns (count: nat)
      requires Valid() && since <= now
      modifies `keys, `log, `missing
      ensures Valid() && Grown()
      ensures keys == old(keys) - ToSet(doomed) && count == |Alive(old(keys), mode.Live?, ToSet(doomed), now)|
    {
      PresentCounts(keys, mode.Live?, doomed, |doomed|, now);
      assert doomed[..|doomed|] == doomed;
      var deleted := DeleteAll(doomed, now);
      return |deleted|;
    }

    /** expire_at_ms: a deadline in the past deletes at once, but not while the log is replayed. */
    method ExpireAt(key: Key, at: int, now: int) returns (done: bool)
      requires Valid() && since <= now
      modifies `keys, `log, `missing
      ensures Valid() && Grown()
      ensures mode.Loading? ==> Apply(numbers, old(keys), PExpireAt(key, at)) == Ok(keys)
      ensures mode.Replicating? ==>
        (Apply(numbers, old(keys), PExpireAt(key, at)) == Ok(keys) <==> !(key in old(keys) && at <= now))
      ensures done <==> key in old(keys) && !old(Dead(key, now))
      ensures !done ==> keys == old(Seen(key, now))
      ensures mode.Live? && done && at > now ==> keys == old(keys)[key := old(keys)[key].(expiresAt := Some(at))]
      ensures mode.Live? && done && at <= now ==> keys == old(keys) - {key}
    {
      var found := Lookup(key, now);
      if found.None? {
        return false;
      }
      if at <= now && !mode.Loading? {
        Forget(key);
      } else {
        Expire(key, at);
      }
      return true;
    }

    method PersistKey(key: Key, now: int) returns (done: bool)
      requires Valid() && since <= now
      modifies `keys, `log, `missing
      ensures Valid() && Grown()
      ensures Apply(numbers, old(Seen(key, now)), Persist(key)) == Ok(keys)
      ensures done <==> DeadlineAt(old(Seen(key, now)), key).Some?
    {
      var found := Lookup(key, now);
      if found.None? {
        return false;
      }
      if found.value.expiresAt.None? {
        assert keys == keys[key := keys[key].(expiresAt := None)];
        return false;
      }
      ghost var m := keys;
      keys := keys[key := keys[key].(expiresAt := None)];
      Propagate(Persist(key), m, keys);
      return true;
    }

    /** RESTORE, its payload decoded and its deadline absolute. */
    method RestoreKey(key: Key, value: Value, deadline: Option<int>, replace: bool, now: int)
      returns (reply: Result<(), string>)
      requires Valid() && since <= now
      modifies `keys, `log, `missing
      ensures Valid() && Grown()
      ensures replace && mode.Loading? ==> Apply(numbers, old(keys), Restore(key, value, deadline)) == Ok(keys)
      ensures replace && mode.Replicating? ==>
        (Apply(numbers, old(keys), Restore(key, value, deadline)) == Ok(keys) <==>
          !(deadline.Some? && deadline.value <= now) || value.IsEmpty())
      ensures var m := old(Seen(key, now));
        && (reply.Err? <==> !replace && key in m)
        && keys == if reply.Err? then m
                   else if deadline.Some? && deadline.value <= now && !mode.Loading? then m - {key}
                   else DropEmpty(m[key := Content(value, deadline)], key)
    {
      var found := Lookup(key, now);
      if !replace && found.Some? {
        return Err("BUSYKEY Target key name already exists.");
      }
      if deadline.Some? && deadline.value <= now && !mode.Loading? {
        assert keys[key := Content(value, deadline)] - {key} == keys - {key};
        Forget(key);
        return Ok(());
      }
      ghost var m := keys;
      keys := DropEmpty((keys - {key})[key := Content(value, deadline)], key);
      assert (m - {key})[key := Content(value, deadline)] == m[key := Content(value, deadline)];
      Propagate(Restore(key, value, deadline), m, keys);
      return Ok(());
    }

    method Flush()
      requires Valid()
      modifies `keys, `log, `missing
      ensures Valid() && keys == map[] && missing == {} && Grown()
    {
      ghost var m := keys;
      keys := map[];
      Propagate(FlushAll, m, keys);
    }

    /** The collection at the key changed in place and is accounted for; r logs it, if it changed. */
    method Modify(key: Key, value: Value, r: Record, effective: bool)
      requires Valid() && r.Touched() == {key} && key !in missing && (effective ==> WellFormed(r))
      requires Apply(numbers, keys, r) == Ok(WithValue(keys, key, value))
      requires !effective ==> WithValue(keys, key, value) == keys
      modifies `keys, `log, `missing
      ensures Valid() && Grown() && keys == WithValue(old(keys), key, value)
    {
      ghost var m := keys;
      keys := WithValue(keys, key, value);
      if effective {
        Propagate(r, m, keys);
      }
    }

    method AddToSet(key: Key, members: seq<string>, now: int) returns (reply: Result<nat, string>)
      requires Valid() && since <= now && members != []
      modifies `keys, `log, `missing
      ensures Valid() && Grown()
      ensures var m := old(Seen(key, now));
        && Apply(numbers, m, SAdd(key, members)) == (if reply.Ok? then Ok(keys) else Err(reply.error))
        && (reply.Err? ==> keys == m)
        && (reply.Ok? ==>
          SetAt(m, key).Ok? && reply.value == |SetAt(m, key).value + ToSet(members)| - |SetAt(m, key).value|)
    {
      var found := Lookup(key, now);
      var had := SetAt(keys, key);
      if had.Err? {
        return Err(had.error);
      }
      var target, added := AddMembers(had.value, members);
      SetAdded(numbers, keys, key, had.value, members, target, added);
      Modify(key, SetValue(target), SAdd(key, added), added != []);
      return Ok(|added|);
    }

    /** SREM; SPOP logs its random choice as one. */
    method RemoveFromSet(key: Key, members: seq<string>, now: int) returns (reply: Result<nat, string>)
      requires Valid() && since <= now
      modifies `keys, `log, `missing
      ensures Valid() && Grown()
      ensures var m := old(Seen(key, now));
        && Apply(numbers, m, SRem(key, members)) == (if reply.Ok? then Ok(keys) else Err(reply.error))
        && (reply.Err? ==> keys == m)
        && (reply.Ok? ==> SetAt(m, key).Ok? && Dropped(SetAt(m, key).value, members, reply.value))
    {
      var found := Lookup(key, now);
      var had := SetAt(keys, key);
      if had.Err? {
        return Err(had.error);
      }
      if found.None? {
        DroppedNone(had.value, members);
        return Ok(0);
      }
      var target, removed := TakeMembers(had.value, members, numbers, keys, key);
      Modify(key, SetValue(target), SRem(key, removed), removed != []);
      return Ok(|removed|);
    }

    /** ZADD, its options parsed. */
    method AddToSortedSet(key: Key, o: ZOptions, pairs: seq<(Score, string)>, now: int)
      returns (reply: Result<Option<ZAdded>, string>)
      requires Valid() && since <= now && pairs != [] && Compatible(o, |pairs|)
      modifies `keys, `log, `missing
      ensures Valid() && Grown()
      ensures var m := old(Seen(key, now)); var had := ScoresAt(m, key);
        if had.Err? then reply == Err(had.error) && keys == m
        else if key !in m && o.xx then reply == Ok(None) && keys == m
        else
          var z := ScoreAll(o, had.value, pairs, |pairs|);
          if z.Err? then reply == Err(z.error) && keys == m
          else reply == Ok(Some(z.value)) && keys == WithValue(m, key, ZSetValue(z.value.scores))
      ensures o == PLAIN ==>
        Apply(numbers, old(Seen(key, now)), ZAdd(key, pairs)) == if reply.Ok? then Ok(keys) else Err(reply.error)
    {
      var found := Lookup(key, now);
      var had := ScoresAt(keys, key);
      if had.Err? {
        return Err(had.error);
      }
      if found.None? && o.xx {
        return Ok(None);
      }
      var r := AddScored(o, had.value, pairs);
      if r.Err? {
        if o == PLAIN {
          ScoreAllPlain(had.value, pairs, |pairs|);
        }
        return Err(r.error);
      }
      ScoresAdded(numbers, keys, key, had.value, o, pairs);
      Modify(key, ZSetValue(r.value.scores), ZAdd(key, r.value.effects), r.value.effects != []);
      return Ok(Some(r.value));
    }

    /** ZINCRBY logs the resulting score. */
    method IncrScore(key: Key, delta: Score, member: string, now: int) returns (reply: Result<Score, string>)
      requires Valid() && since <= now
      modifies `keys, `log, `missing
      ensures Valid() && Grown()
      ensures var m := old(Seen(key, now)); var had := ScoresAt(m, key);
        if had.Err? then reply == Err(had.error) && keys == m
        else
          var score := AddScores(if member in had.value then had.value[member] else Fin(0.0), delta);
          if score.None? then reply == Err(NOT_A_NUMBER) && keys == m
          else reply == Ok(score.value) && keys == WithValue(m, key, ZSetValue(had.value[member := score.value]))
    {
      var found := Lookup(key, now);
      var had := ScoresAt(keys, key);
      if had.Err? {
        return Err(had.error);
      }
      var score := AddScores(if member in had.value then had.value[member] else Fin(0.0), delta);
      if score.None? {
        return Err(NOT_A_NUMBER);
      }
      ScoreRecord(numbers, keys, key, had.value, score.value, member);
      Modify(key, ZSetValue(had.value[member := score.value]), ZAdd(key, [(score.value, member)]), true);
      return Ok(score.value);
    }

    /** ZREM; ZPOPMIN and ZPOPMAX log what they popped as one. */
    method RemoveFromSortedSet(key: Key, members: seq<string>, now: int) returns (reply: Result<nat, string>)
      requires Valid() && since <= now
      modifies `keys, `log, `missing
      ensures Valid() && Grown()
      ensures var m := old(Seen(key, now));
        && Apply(numbers, m, ZRem(key, members)) == (if reply.Ok? then Ok(keys) else Err(reply.error))
        && (reply.Err? ==> keys == m)
        && (reply.Ok? ==> ScoresAt(m, key).Ok? && Dropped(ScoresAt(m, key).value.Keys, members, reply.value))
    {
      var found := Lookup(key, now);
      var had := ScoresAt(keys, key);
      if had.Err? {
        return Err(had.error);
      }
      if found.None? {
        DroppedNone(had.value.Keys, members);
        return Ok(0);
      }
      var count := DropScores(key, had.value, members);
      return Ok(count);
    }

    /** What is there of the members goes, and is logged if that is any. */
    method DropScores(key: Key, had: map<string, Score>, members: seq<string>) returns (count: nat)
      requires Valid() && key in keys && key !in missing && ScoresAt(keys, key) == Ok(had) && had != map[]
      modifies `keys, `log, `missing
      ensures Valid() && Grown() && Apply(numbers, old(keys), ZRem(key, members)) == Ok(keys)
      ensures Dropped(had.Keys, members, count)
    {
      var target, removed := TakeScores(had, members, numbers, keys, key);
      Modify(key, ZSetValue(target), ZRem(key, removed), removed != []);
      count := |removed|;
    }

    // ------------------------------------------------------------------ replay

    /**
     _apply and apply_replicated: a record is run by the handlers that logged it. A deadline already
     past deletes the key of a replica, while its primary still has it; at startup it does not.
     */
    method ApplyRecord(r: Record, now: int) returns (reply: Result<(), string>)
      requires Valid() && !mode.Live? && since <= now && WellFormed(r)
      modifies `keys, `log, `missing
      ensures Valid() && Grown()
      ensures reply.Err? ==> Apply(numbers, old(keys), r) == Err(reply.error)
      ensures reply.Ok? ==>
        (Apply(numbers, old(keys), r) == Ok(keys) <==> !(mode.Replicating? && Outlived(r, old(keys), now)))
    {
      reply := Ok(());
      match r
      case Del(doomed) =>
        var _ := DeleteAll(doomed, now);
      case Set(key, text, keepTtl) =>
        var _, _ := SetText(key, text, false, false, false, keepTtl, None, now);
      case PExpireAt(key, at) =>
        var _ := ExpireAt(key, at, now);
      case Persist(key) =>
        var _ := PersistKey(key, now);
      case MSet(pairs) => SetAll(pairs);
      case IncrBy(key, delta) =>
        var result := IncrByInt(key, delta, now);
        reply := if result.Ok? then Ok(()) else Err(result.error);
      case Append(key, suffix) =>
        var result := AppendText(key, suffix, now);
        reply := if result.Ok? then Ok(()) else Err(result.error);
      case Restore(key, value, deadline) =>
        var _ := RestoreKey(key, value, deadline, true, now);
      case FlushAll => Flush();
      case SAdd(key, members) =>
        var result := AddToSet(key, members, now);
        reply := if result.Ok? then Ok(()) else Err(result.error);
      case SRem(key, members) =>
        var result := RemoveFromSet(key, members, now);
        reply := if result.Ok? then Ok(()) else Err(result.error);
      case ZAdd(key, scored) =>
        var result := AddToSortedSet(key, PLAIN, scored, now);
        reply := if result.Ok? then Ok(()) else Err(result.error);
      case ZRem(key, members) =>
        var result := RemoveFromSortedSet(key, members, now);
        reply := if result.Ok? then Ok(()) else Err(result.error);
    }

    /**
     A replica's run of a stream: after every record it holds what replaying the stream so far
     gives, exactly if no record arrives with a deadline already past.
     */
    method Stream(records: seq<Record>, clock: seq<int>) returns (reply: Result<(), string>, ghost states: seq<Keys>)
      requires Valid() && mode.Replicating? && AllWellFormed(records)
      requires |clock| == |records| && forall i :: 0 <= i < |clock| ==> since <= clock[i]
      modifies `keys, `log, `missing
      ensures Valid() && Grown()
      ensures reply.Ok? ==> |states| == |records| + 1 && states[|records|] == keys
      ensures reply.Ok? ==>
        (Followed(numbers, old(keys), records, states, |records|) <==>
         OnTime(numbers, old(keys), records, clock, |records|))
      ensures reply.Err? && OnTime(numbers, old(keys), records, clock, |records|) ==>
        Replay(numbers, old(keys), records).Err?
    {
      states := [keys];
      ghost var base := keys;
      assert records[..0] == [];
      for i := 0 to |records|
        invariant Valid() && Grown() && mode.Replicating? && |states| == i + 1 && states[i] == keys
        invariant Followed(numbers, base, records, states, i) <==> OnTime(numbers, base, records, clock, i)
      {
        assert records[..i + 1][..i] == records[..i];
        reply := ApplyRecord(records[i], clock[i]);
        if reply.Err? {
          if OnTime(numbers, base, records, clock, |records|) {
            OnTimeSooner(numbers, base, records, clock, i, |records|);
            ReplayStops(numbers, base, records, i + 1);
          }
          return;
        }
        FollowedLonger(numbers, base, records, states, keys, i);
        states := states + [keys];
      }
      reply := Ok(());
    }

    /** load: the snapshot, then every record, with expiry off; a record that fails stops it. */
    method Load(snapshot: Keys, records: seq<Record>, now: int) returns (reply: Result<(), string>)
      requires NoEmpty(snapshot) && AllWellFormed(records)
      modifies this
      ensures reply.Ok? <==> Replay(numbers, snapshot, records).Ok?
      ensures reply.Ok? ==> Valid() && mode.Live? && keys == Replay(numbers, snapshot, records).value
      ensures reply.Ok? ==> base == snapshot && log == records && missing == {} && since == now
    {
      mode, keys, log := Loading, snapshot, records;
      base, since, missing := snapshot, now, {};
      reply := Ok(());
      for i := 0 to |records|
        invariant Valid() && mode.Loading? && log == records && base == snapshot && missing == {} && since == now
        invariant reply.Ok? && Replay(numbers, snapshot, records[..i]) == Ok(keys)
      {
        ReplayStep(numbers, snapshot, records[..i], records[i]);
        assert records[..i + 1] == records[..i] + [records[i]];
        reply := ApplyRecord(records[i], now);
        if reply.Err? {
          ReplayStops(numbers, snapshot, records, i + 1);
          return;
        }
      }
      assert records[..|records|] == records;
      mode := Live;
      assert keys - missing == keys;
    }

    /** A rewrite: the log starts again from a copy of the live keys. */
    method Rewrite(now: int)
      requires Valid() && mode.Live? && since <= now
      modifies `log, `base, `since, `missing
      ensures Valid() && log == [] && since == now
      ensures base == keys - missing && forall k :: k in missing <==> k in keys && keys[k].Expired(now)
    {
      log := [];
      since := now;
      var dead := set k | k in keys && keys[k].Expired(now);
      base := keys - dead;
      missing := dead;
    }

    /** The purge after loading, which logs nothing: the log still agrees exactly if it purged nothing. */
    method Purge(now: int)
      requires Valid() && mode.Live? && missing == {}
      modifies `keys
      ensures keys == map k | k in old(keys) && !old(keys)[k].Expired(now) :: old(keys)[k]
      ensures Valid() <==> keys == old(keys)
    {
      ghost var m := keys;
      keys := map k | k in keys && !keys[k].Expired(now) :: keys[k];
      assert m - missing == m && keys - missing == keys;
      assert NoEmpty(keys);
    }
  }

  /** A restart from base and log rebuilds what was in memory, but for keys that had expired by the base's time. */
  method Restart(e: Engine, now: int) returns (next: Engine)
    requires e.Valid() && e.mode.Live? && NoEmpty(e.base)
    ensures next.Valid() && next.mode.Live? && next.keys == e.keys - e.missing
    ensures forall k :: k in e.keys && !e.keys[k].Expired(e.since) ==> k in next.keys && next.keys[k] == e.keys[k]
  {
    next := new Engine(e.numbers);
    var _ := next.Load(e.base, e.log, now);
  }

  /**
   A key that expired while the node was down is purged without a record. A later increment then
   starts from nothing, but its record replays onto the expired number and keeps its deadline.
   */
  lemma PurgedThenIncremented(n: Numbers, key: Key, text: string, number: int, at: int)
    requires n.parse(text) == Some(number) && INT64_MIN <= number + 1 <= INT64_MAX
    ensures
      var base := map[key := Content(StringValue(text), Some(at))];
      var live := Apply(n, map[], IncrBy(key, 1));
      && live == Ok(map[key := Content(StringValue(n.show(1)), None)])
      && Replay(n, base, [IncrBy(key, 1)]) == Ok(map[key := Content(StringValue(n.show(number + 1)), Some(at))])
  {
    var base := map[key := Content(StringValue(text), Some(at))];
    ReplayStep(n, base, [], IncrBy(key, 1));
    assert [] + [IncrBy(key, 1)] == [IncrBy(key, 1)];
    assert Replay(n, base, []) == Ok(base);
    assert base[key := Content(StringValue(n.show(number + 1)), Some(at))] ==
      map[key := Content(StringValue(n.show(number + 1)), Some(at))];
  }

  // --------------------------------------------------------------- every run

  /** What may happen to a node: client commands, expiry and eviction, a rewrite. */
  datatype Request =
    | SetRequest(key: Key, text: string, nx: bool, xx: bool, getOld: bool, keepTtl: bool, ttl: Option<int>)
    | GetRequest(key: Key)
    | GetDelRequest(key: Key)
    | MSetRequest(pairs: seq<(Key, string)>)
    | IncrRequest(key: Key, delta: int)
    | IncrFloatRequest(key: Key, sum: Option<string> -> Result<string, string>)
    | AppendRequest(key: Key, suffix: string)
    | DelRequest(keys: seq<Key>)
    | ExpireRequest(key: Key, at: int)
    | PersistRequest(key: Key)
    | RestoreRequest(key: Key, value: Value, deadline: Option<int>, replace: bool)
    | FlushRequest
    | SAddRequest(key: Key, members: seq<string>)
    | SRemRequest(key: Key, members: seq<string>)
    | ZAddRequest(key: Key, options: ZOptions, scored: seq<(Score, string)>)
    | ZIncrRequest(key: Key, increment: Score, member: string)
    | ZRemRequest(key: Key, members: seq<string>)
    | Eviction(key: Key)
    | RewriteRequest

  predicate Accepted(q: Request) {
    && (q.SetRequest? && q.ttl.Some? ==> !q.keepTtl)
    && (q.SAddRequest? ==> q.members != [])
    && (q.ZAddRequest? ==> q.scored != [] && Compatible(q.options, |q.scored|))
  }

  /** The keyspace as a client's lookup of the key leaves it. */
  function Visible(m: Keys, key: Key, now: int): Keys {
    if key in m && m[key].Expired(now) then m - {key} else m
  }

  /** What a record makes of a keyspace; if it fails, nothing. */
  function Tried(n: Numbers, m: Keys, r: Record): Keys {
    if Apply(n, m, r).Ok? then Apply(n, m, r).value else m
  }

  /** What a request on strings makes of the keyspace. */
  function TextOutcome(n: Numbers, m: Keys, q: Request, now: int): Keys
    requires OnText(q)
  {
    match q
    case SetRequest(key, text, nx, xx, getOld, keepTtl, ttl) =>
      var v := Visible(m, key, now);
      if (getOld && TextAt(v, key).Err?) || (nx && key in v) || (xx && key !in v) then v
      else v[key := Content(StringValue(text), SetDeadline(v, key, keepTtl, ttl, now))]
    case GetRequest(key) => Visible(m, key, now)
    case GetDelRequest(key) =>
      var v := Visible(m, key, now);
      if TextAt(v, key).Ok? then v - {key} else v
    case MSetRequest(pairs) => PutAll(m, pairs)
    case IncrRequest(key, delta) => Tried(n, Visible(m, key, now), IncrBy(key, delta))
    case IncrFloatRequest(key, sum) =>
      var v := Visible(m, key, now);
      if TextAt(v, key).Ok? && sum(TextAt(v, key).value).Ok? then
        v[key := Content(StringValue(sum(TextAt(v, key).value).value), DeadlineAt(v, key))]
      else v
    case AppendRequest(key, suffix) => Tried(n, Visible(m, key, now), Append(key, suffix))
  }

  /** What a request on whole keys makes of the keyspace. */
  function KeyOutcome(n: Numbers, m: Keys, q: Request, now: int): Keys
    requires OnKeys(q)
  {
    match q
    case DelRequest(keys) => m - ToSet(keys)
    case ExpireRequest(key, at) =>
      var v := Visible(m, key, now);
      if key !in v then v else if at > now then v[key := v[key].(expiresAt := Some(at))] else v - {key}
    case PersistRequest(key) => Tried(n, Visible(m, key, now), Persist(key))
    case RestoreRequest(key, value, deadline, replace) =>
      var v := Visible(m, key, now);
      if !replace && key in v then v
      else if deadline.Some? && deadline.value <= now then v - {key}
      else DropEmpty(v[key := Content(value, deadline)], key)
    case FlushRequest => map[]
    case Eviction(key) => m - {key}
    case RewriteRequest => m
  }

  /** What a request on sets and sorted sets makes of the keyspace. */
  function CollectionOutcome(n: Numbers, m: Keys, q: Request, now: int): Keys
    requires OnCollection(q)
  {
    var v := Visible(m, q.key, now);
    match q
    case SAddRequest(key, members) => Tried(n, v, SAdd(key, members))
    case SRemRequest(key, members) => Tried(n, v, SRem(key, members))
    case ZAddRequest(key, options, scored) =>
      if ScoresAt(v, key).Err? || (key !in v && options.xx) then v
      else
        var z := ScoreAll(options, ScoresAt(v, key).value, scored, |scored|);
        if z.Err? then v else WithValue(v, key, ZSetValue(z.value.scores))
    case ZIncrRequest(key, increment, member) =>
      if ScoresAt(v, key).Err? then v
      else
        var had := ScoresAt(v, key).value;
        var score := AddScores(if member in had then had[member] else Fin(0.0), increment);
        if score.None? then v else WithValue(v, key, ZSetValue(had[member := score.value]))
    case ZRemRequest(key, members) => Tried(n, v, ZRem(key, members))
  }

  predicate OnText(q: Request) {
    || q.SetRequest? || q.GetRequest? || q.GetDelRequest? || q.MSetRequest? || q.IncrRequest? || q.IncrFloatRequest?
    || q.AppendRequest?
  }

  predicate OnCollection(q: Request) {
    q.SAddRequest? || q.SRemRequest? || q.ZAddRequest? || q.ZIncrRequest? || q.ZRemRequest?
  }

  predicate OnKeys(q: Request) {
    !OnText(q) && !OnCollection(q)
  }

  function Outcome(n: Numbers, m: Keys, q: Request, now: int): Keys {
    if OnText(q) then TextOutcome(n, m, q, now)
    else if OnCollection(q) then CollectionOutcome(n, m, q, now)
    else KeyOutcome(n, m, q, now)
  }

  /** The keyspace after the first i requests. */
  function Outcomes(n: Numbers, m: Keys, requests: seq<Request>, clock: seq<int>, i: nat): Keys
    requires i <= |requests| && i <= |clock|
  {
    if i == 0 then m else Outcome(n, Outcomes(n, m, requests, clock, i - 1), requests[i - 1], clock[i - 1])
  }

  /** What a node that serves clients keeps. */
  ghost predicate Serving(e: Engine, now: int)
    reads e
  {
    e.Valid() && e.mode.Live? && e.since <= now && NoEmpty(e.base)
  }

  method ServeText(e: Engine, q: Request, now: int)
    requires Serving(e, now) && Accepted(q) && OnText(q)
    modifies e
    ensures Serving(e, now) && e.keys == TextOutcome(e.numbers, old(e.keys), q, now)
  {
    match q {
      case SetRequest(key, text, nx, xx, getOld, keepTtl, ttl) =>
        var _, _ := e.SetText(key, text, nx, xx, getOld, keepTtl, ttl, now);
      case GetRequest(key) =>
        var _ := e.Lookup(key, now);
      case GetDelRequest(key) =>
        var _ := e.GetDel(key, now);
      case MSetRequest(pairs) =>
        e.SetAll(pairs);
      case IncrRequest(key, delta) =>
        var _ := e.IncrByInt(key, delta, now);
      case IncrFloatRequest(key, sum) =>
        var _ := e.IncrByFloat(key, sum, now);
      case AppendRequest(key, suffix) =>
        var _ := e.AppendText(key, suffix, now);
    }
  }

  method ServeKeys(e: Engine, q: Request, now: int)
    requires Serving(e, now) && Accepted(q) && OnKeys(q)
    modifies e
    ensures Serving(e, now) && e.keys == KeyOutcome(e.numbers, old(e.keys), q, now)
  {
    match q {
      case DelRequest(keys) =>
        var _ := e.Delete(keys, now);
      case ExpireRequest(key, at) =>
        var _ := e.ExpireAt(key, at, now);
      case PersistRequest(key) =>
        var _ := e.PersistKey(key, now);
      case RestoreRequest(key, value, deadline, replace) =>
        var _ := e.RestoreKey(key, value, deadline, replace, now);
      case FlushRequest =>
        e.Flush();
      case Eviction(key) =>
        e.Forget(key);
      case RewriteRequest =>
        e.Rewrite(now);
    }
  }

  method ServeAdd(e: Engine, key: Key, members: seq<string>, now: int)
    requires Serving(e, now) && members != []
    modifies e
    ensures Serving(e, now) && e.keys == Tried(e.numbers, Visible(old(e.keys), key, now), SAdd(key, members))
  {
    var _ := e.AddToSet(key, members, now);
  }

  method ServeRemove(e: Engine, key: Key, members: seq<string>, now: int)
    requires Serving(e, now)
    modifies e
    ensures Serving(e, now) && e.keys == Tried(e.numbers, Visible(old(e.keys), key, now), SRem(key, members))
  {
    var _ := e.RemoveFromSet(key, members, now);
  }

  method ServeUnscore(e: Engine, key: Key, members: seq<string>, now: int)
    requires Serving(e, now)
    modifies e
    ensures Serving(e, now) && e.keys == Tried(e.numbers, Visible(old(e.keys), key, now), ZRem(key, members))
  {
    var _ := e.RemoveFromSortedSet(key, members, now);
  }

  method ServeScores(e: Engine, q: Request, now: int)
    requires Serving(e, now) && Accepted(q) && (q.ZAddRequest? || q.ZIncrRequest?)
    modifies e
    ensures Serving(e, now) && e.keys == CollectionOutcome(e.numbers, old(e.keys), q, now)
  {
    match q {
      case ZAddRequest(key, options, scored) =>
        var _ := e.AddToSortedSet(key, options, scored, now);
      case ZIncrRequest(key, delta, member) =>
        var _ := e.IncrScore(key, delta, member, now);
    }
  }

  method Serve(e: Engine, q: Request, now: int)
    requires Serving(e, now) && Accepted(q)
    modifies e
    ensures Serving(e, now) && e.keys == Outcome(e.numbers, old(e.keys), q, now)
  {
    if OnText(q) {
      ServeText(e, q, now);
    } else if q.ZAddRequest? || q.ZIncrRequest? {
      ServeScores(e, q, now);
    } else if q.SAddRequest? {
      ServeAdd(e, q.key, q.members, now);
    } else if q.SRemRequest? {
      ServeRemove(e, q.key, q.members, now);
    } else if q.ZRemRequest? {
      ServeUnscore(e, q.key, q.members, now);
    } else {
      ServeKeys(e, q, now);
    }
  }

  /**
   After every run of requests, with a clock that does not go back, the keyspace is what the requests
   make of it one after the other, and the log rebuilds it.
   */
  method ServeAll(e: Engine, requests: seq<Request>, clock: seq<int>) returns (next: Engine)
    requires e.Valid() && e.mode.Live? && NoEmpty(e.base)
    requires |clock| == |requests| + 1 && e.since <= clock[0]
    requires forall i :: 0 <= i < |requests| ==> Accepted(requests[i]) && clock[i] <= clock[i + 1]
    modifies e
    ensures e.Valid() && e.keys == Outcomes(e.numbers, old(e.keys), requests, clock, |requests|)
    ensures next.Valid() && next.keys == e.keys - e.missing
    ensures forall k :: k in e.keys && !e.keys[k].Expired(e.since) ==> k in next.keys && next.keys[k] == e.keys[k]
  {
    for i := 0 to |requests|
      invariant Serving(e, clock[i]) && e.keys == Outcomes(e.numbers, old(e.keys), requests, clock, i)
    {
      Serve(e, requests[i], clock[i]);
    }
    next := Restart(e, clock[|requests|]);
  }
}
