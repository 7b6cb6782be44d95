/**
 The keyspace: typed entries with deadlines, memory accounting, eviction, and
 point-in-time copies taken in slices while commands keep running.
 */
module Keyspace {
  import opened Eviction
  import opened KeySets
  import opened Sequences
  import opened Values
  import opened Wrappers

  const MAX_EXPIRY_ROUNDS := 16

  /** A stored value, its accounted size, and the last snapshot it is accounted for in. */
  datatype Entry = Entry(content: Content, size: nat, copied: nat)

  /** One key in a snapshot. */
  datatype SnapshotRecord = SnapshotRecord(key: Key, content: Content)

  /** A copy in progress: the keys to visit, how far it got, and what it has copied. */
  datatype Job = Job(keys: seq<Key>, pos: nat, epoch: nat, startedAt: int, records: seq<SnapshotRecord>)

  /** A finished copy, with the keyspace it was begun on. */
  datatype Delivery = Delivery(began: map<Key, Content>, startedAt: int, records: seq<SnapshotRecord>)

  /** The keyspace and the time a copy was begun on. */
  datatype Start = Start(contents: map<Key, Content>, now: int)

  // ------------------------------------------------------------ accounting

  ghost function TotalSize(data: map<Key, Entry>): nat
    decreases |data|
  {
    if data == map[] then 0
    else
      var k :| k in data;
      data[k].size + TotalSize(data - {k})
  }

  lemma {:induction false} TotalSizeRemove(data: map<Key, Entry>, k: Key)
    requires k in data
    ensures TotalSize(data) == TotalSize(data - {k}) + data[k].size
    decreases |data|
  {
    var j :| j in data && TotalSize(data) == data[j].size + TotalSize(data - {j});
    if j != k {
      TotalSizeRemove(data - {j}, k);
      TotalSizeRemove(data - {k}, j);
      assert data - {j} - {k} == data - {k} - {j};
    }
  }

  /** Writing one entry moves the total by the difference of the sizes. */
  lemma TotalSizePut(data: map<Key, Entry>, k: Key, e: Entry)
    ensures TotalSize(data[k := e]) == TotalSize(data) - (if k in data then data[k].size else 0) + e.size
  {
    TotalSizeRemove(data[k := e], k);
    assert data[k := e] - {k} == data - {k};
    if k in data {
      TotalSizeRemove(data, k);
    } else {
      assert data - {k} == data;
    }
  }

  ghost function WithDeadline(data: map<Key, Entry>): set<Key> {
    set k | k in data && data[k].content.expiresAt.Some?
  }

  ghost function ContentsOf(data: map<Key, Entry>): map<Key, Content> {
    map k | k in data :: data[k].content
  }

  /** The byte estimate of a keyspace. */
  ghost function Weight(m: map<Key, Content>, entrySize: (Key, Value) -> nat): nat {
    TotalSize(map k | k in m :: Entry(m[k], entrySize(k, m[k].value), 0))
  }

  lemma {:induction false} SameTotal(a: map<Key, Entry>, b: map<Key, Entry>)
    requires a.Keys == b.Keys && forall k :: k in a ==> a[k].size == b[k].size
    ensures TotalSize(a) == TotalSize(b)
    decreases |a|
  {
    if a != map[] {
      var k :| k in a;
      SameTotal(a - {k}, b - {k});
      TotalSizeRemove(a, k);
      TotalSizeRemove(b, k);
    }
  }

  // ------------------------------------------------------------- snapshots

  /** Not copied yet by the job with this epoch. */
  ghost predicate Untaken(data: map<Key, Entry>, epoch: nat, k: Key) {
    k in data && data[k].copied != epoch
  }

  ghost predicate DistinctKeys(records: seq<SnapshotRecord>) {
    forall i, j :: 0 <= i < j < |records| ==> records[i].key != records[j].key
  }

  /** records is exactly what a copy in one go would have taken of began. */
  ghost predicate Exact(began: map<Key, Content>, startedAt: int, records: seq<SnapshotRecord>) {
    && DistinctKeys(records)
    && forall r :: r in records <==> r.key in began && r.content == began[r.key] && !r.content.Expired(startedAt)
  }

  /** Key k is still as it was and will be visited, or it has been copied if it was to be. */
  ghost predicate Accounted(data: map<Key, Entry>, job: Job, began: map<Key, Content>, k: Key) {
    if Untaken(data, job.epoch, k) then
      k in began && data[k].content == began[k] && job.pos <= |job.keys| && k in job.keys[job.pos..]
    else
      k in began ==> began[k].Expired(job.startedAt) || SnapshotRecord(k, began[k]) in job.records
  }

  /** What a running copy has established so far. */
  ghost predicate Copying(data: map<Key, Entry>, job: Job, began: map<Key, Content>) {
    && job.pos <= |job.keys|
    && DistinctKeys(job.records)
    && (forall r :: r in job.records ==>
          r.key in began && r.content == began[r.key] && !r.content.Expired(job.startedAt) &&
            !Untaken(data, job.epoch, r.key))
    && (forall k :: Accounted(data, job, began, k))
  }

  /** take: copy one entry, unless it had expired when the job began. */
  function Take(job: Job, key: Key, content: Content): Job {
    if content.Expired(job.startedAt) then job else job.(records := job.records + [SnapshotRecord(key, content)])
  }

  lemma TakeKeeps(data: map<Key, Entry>, job: Job, began: map<Key, Content>, key: Key)
    requires Copying(data, job, began) && Untaken(data, job.epoch, key)
    ensures Copying(data[key := data[key].(copied := job.epoch)], Take(job, key, data[key].content), began)
  {
    var data', job' := data[key := data[key].(copied := job.epoch)], Take(job, key, data[key].content);
    assert Accounted(data, job, began, key);
    forall k
      ensures Accounted(data', job', began, k)
    {
      assert Accounted(data, job, began, k);
    }
  }

  /** A key that is not waiting to be copied may change or go. */
  lemma ChangeKeeps(data: map<Key, Entry>, job: Job, began: map<Key, Content>, key: Key, data': map<Key, Entry>)
    requires Copying(data, job, began) && !Untaken(data, job.epoch, key) && !Untaken(data', job.epoch, key)
    requires data' - {key} == data - {key}
    ensures Copying(data', job, began)
  {
    forall k
      ensures Untaken(data', job.epoch, k) <==> Untaken(data, job.epoch, k)
      ensures Untaken(data, job.epoch, k) ==> data'[k] == data[k]
    {
      if k != key {
        assert k in data <==> k in data - {key};
        assert k in data' <==> k in data' - {key};
        assert k in data ==> (data - {key})[k] == data[k];
        assert k in data' ==> (data' - {key})[k] == data'[k];
      }
    }
    forall k
      ensures Accounted(data', job, began, k)
    {
      assert Accounted(data, job, began, k);
    }
  }

  /** Having visited every key, the copy is exact. */
  lemma FinishedIsExact(data: map<Key, Entry>, job: Job, began: map<Key, Content>)
    requires Copying(data, job, began) && job.pos == |job.keys|
    ensures Exact(began, job.startedAt, job.records)
  {
    forall r
      ensures r in job.records <==> r.key in began && r.content == began[r.key] && !r.content.Expired(job.startedAt)
    {
      assert Accounted(data, job, began, r.key);
    }
  }

  lemma {:induction false} EachOnce(records: seq<SnapshotRecord>, r: SnapshotRecord)
    requires DistinctKeys(records)
    ensures multiset(records)[r] == if r in records then 1 else 0
  {
    if records != [] {
      var rest := records[..|records| - 1];
      assert records == rest + [records[|records| - 1]];
      EachOnce(rest, r);
    }
  }

  /** A copy taken in slices holds the same records as the copy in one go. */
  lemma ExactUnique(began: map<Key, Content>, startedAt: int, sliced: seq<SnapshotRecord>, oneShot: seq<SnapshotRecord>)
    requires Exact(began, startedAt, sliced) && Exact(began, startedAt, oneShot)
    ensures multiset(sliced) == multiset(oneShot)
  {
    forall r
      ensures multiset(sliced)[r] == multiset(oneShot)[r]
    {
      EachOnce(sliced, r);
      EachOnce(oneShot, r);
    }
  }

  // ------------------------------------------------------------ invariants

  /** The counters and side tables agree with the entries; only dirty keys may be out of date. */
  ghost predicate Books(data: map<Key, Entry>, volatile: KeySet, usedMemory: int, policy: Policy, dirty: set<Key>,
                        entrySize: (Key, Value) -> nat)
  {
    && usedMemory == TotalSize(data)
    && volatile.Holds(WithDeadline(data))
    && policy.Tracks(data.Keys)
    && forall k :: Settled(data, dirty, entrySize, k)
  }

  /** The policy has followed what it was told, and is of the kind it was. */
  ghost predicate InStep(policy: Policy, hooks: seq<Hook>, evicts: bool) {
    Follows(policy, hooks) && policy.Evicts() == evicts
  }

  lemma InStepOn(policy: Policy, hooks: seq<Hook>, evicts: bool, h: Hook, minute: int, lucky: bool)
    requires InStep(policy, hooks, evicts)
    ensures InStep(Hooked(policy, h, minute, lucky), hooks + [h], evicts)
  {
    FollowsOn(policy, hooks, h, minute, lucky);
  }

  /** Unless dirty, key k has its current size accounted and its value is no empty collection. */
  ghost predicate Settled(data: map<Key, Entry>, dirty: set<Key>, entrySize: (Key, Value) -> nat, k: Key) {
    k in data && k !in dirty ==>
      data[k].size == entrySize(k, data[k].content.value) && !data[k].content.value.IsEmpty()
  }

  lemma DeadlinesChanged(data: map<Key, Entry>, key: Key, e: Entry)
    ensures WithDeadline(data - {key}) == WithDeadline(data) - {key}
    ensures WithDeadline(data[key := e]) ==
      if e.content.expiresAt.Some? then WithDeadline(data) + {key} else WithDeadline(data) - {key}
  {
  }

  lemma ContentsChanged(data: map<Key, Entry>, key: Key, e: Entry)
    ensures ContentsOf(data - {key}) == ContentsOf(data) - {key}
    ensures ContentsOf(data[key := e]) == ContentsOf(data)[key := e.content]
  {
  }

  lemma RemovedTracks(policy: Policy, data: map<Key, Entry>, key: Key)
    requires policy.Tracks(data.Keys) && key in data
    ensures policy.OnRemove(key).Tracks((data - {key}).Keys)
  {
    RemoveTracks(policy, data.Keys, key);
    assert (data - {key}).Keys == data.Keys - {key};
  }

  lemma BooksRemoved(data: map<Key, Entry>, volatile: KeySet, usedMemory: int, policy: Policy, dirty: set<Key>,
                     entrySize: (Key, Value) -> nat, key: Key)
    requires Books(data, volatile, usedMemory, policy, dirty, entrySize) && key in data
    ensures Books(data - {key}, volatile.Discard(key), usedMemory - data[key].size, policy.OnRemove(key), dirty,
                  entrySize)
  {
    TotalSizeRemove(data, key);
    RemovedTracks(policy, data, key);
    DeadlinesChanged(data, key, data[key]);
    DiscardKeeps(volatile, key, WithDeadline(data));
    var data' := data - {key};
    forall k
      ensures Settled(data', dirty, entrySize, k)
    {
      assert Settled(data, dirty, entrySize, k);
    }
  }

  /** What a write tells the policy: a new key is inserted, an old one accessed. */
  function Use(data: map<Key, Entry>, key: Key): Hook {
    if key in data then Access(key) else Insert(key)
  }

  ghost function SizeOf(data: map<Key, Entry>, key: Key): nat {
    if key in data then data[key].size else 0
  }

  lemma UseTracks(policy: Policy, data: map<Key, Entry>, key: Key, e: Entry, minute: int, lucky: bool)
    requires policy.Tracks(data.Keys)
    ensures Hooked(policy, Use(data, key), minute, lucky).Tracks(data[key := e].Keys)
    ensures key in data ==> policy.Tracks(data[key := e].Keys)
  {
    assert data[key := e].Keys == data.Keys + {key};
    if key in data {
      AccessTracks(policy, data.Keys, key, minute, lucky);
      assert data.Keys + {key} == data.Keys;
    } else {
      InsertTracks(policy, data.Keys, key, minute);
    }
  }

  ghost function Undirtied(dirty: set<Key>, key: Key, e: Entry, entrySize: (Key, Value) -> nat): set<Key> {
    if e.size == entrySize(key, e.content.value) && !e.content.value.IsEmpty() then dirty - {key} else dirty + {key}
  }

  lemma VolatilePut(data: map<Key, Entry>, volatile: KeySet, key: Key, e: Entry)
    requires volatile.Holds(WithDeadline(data))
    ensures var volatile' := if e.content.expiresAt.Some? then volatile.Add(key) else volatile.Discard(key);
      volatile'.Holds(WithDeadline(data[key := e]))
  {
    DeadlinesChanged(data, key, e);
    if e.content.expiresAt.Some? {
      AddKeeps(volatile, key, WithDeadline(data));
    } else {
      DiscardKeeps(volatile, key, WithDeadline(data));
    }
  }

  lemma SettledPut(data: map<Key, Entry>, dirty: set<Key>, entrySize: (Key, Value) -> nat, key: Key, e: Entry)
    requires forall k :: Settled(data, dirty, entrySize, k)
    ensures var data', dirty' := data[key := e], Undirtied(dirty, key, e, entrySize);
      forall k :: Settled(data', dirty', entrySize, k)
  {
    var data', dirty' := data[key := e], Undirtied(dirty, key, e, entrySize);
    forall k
      ensures Settled(data', dirty', entrySize, k)
    {
      assert Settled(data, dirty, entrySize, k);
    }
  }

  /** The books after writing e, with any policy that tracks the keys then. */
  lemma BooksPut(data: map<Key, Entry>, volatile: KeySet, usedMemory: int, policy: Policy, dirty: set<Key>,
                 entrySize: (Key, Value) -> nat, key: Key, e: Entry, policy': Policy)
    requires Books(data, volatile, usedMemory, policy, dirty, entrySize) && policy'.Tracks(data[key := e].Keys)
    ensures var volatile' := if e.content.expiresAt.Some? then volatile.Add(key) else volatile.Discard(key);
      Books(data[key := e], volatile', usedMemory - SizeOf(data, key) + e.size, policy',
            Undirtied(dirty, key, e, entrySize),
            entrySize)
  {
    TotalSizePut(data, key, e);
    VolatilePut(data, volatile, key, e);
    SettledPut(data, dirty, entrySize, key, e);
  }

  /** Stamping an entry changes none of what the tables are about. */
  lemma Stamping(data: map<Key, Entry>, key: Key, epoch: nat)
    requires key in data
    ensures var data' := data[key := data[key].(copied := epoch)];
      && TotalSize(data') == TotalSize(data) && WithDeadline(data') == WithDeadline(data)
      && data'.Keys == data.Keys && ContentsOf(data') == ContentsOf(data)
  {
    var data' := data[key := data[key].(copied := epoch)];
    TotalSizePut(data, key, data'[key]);
    assert data'.Keys == data.Keys;
    forall k
      ensures k in WithDeadline(data') <==> k in WithDeadline(data)
    {
    }
  }

  lemma BooksCopied(data: map<Key, Entry>, volatile: KeySet, usedMemory: int, policy: Policy, dirty: set<Key>,
                    entrySize: (Key, Value) -> nat, key: Key, epoch: nat)
    requires Books(data, volatile, usedMemory, policy, dirty, entrySize) && key in data
    ensures var data' := data[key := data[key].(copied := epoch)];
      Books(data', volatile, usedMemory, policy, dirty, entrySize) && ContentsOf(data') == ContentsOf(data)
  {
    var data' := data[key := data[key].(copied := epoch)];
    Stamping(data, key, epoch);
    forall k
      ensures Settled(data', dirty, entrySize, k)
    {
      assert Settled(data, dirty, entrySize, k);
    }
  }

  lemma BooksClean(data: map<Key, Entry>, volatile: KeySet, usedMemory: int, policy: Policy, dirty: set<Key>,
                   entrySize: (Key, Value) -> nat, key: Key)
    requires Books(data, volatile, usedMemory, policy, dirty, entrySize)
    requires key in data ==>
      data[key].size == entrySize(key, data[key].content.value) && !data[key].content.value.IsEmpty()
    ensures Books(data, volatile, usedMemory, policy, dirty - {key}, entrySize)
  {
    var dirty' := dirty - {key};
    forall k
      ensures Settled(data, dirty', entrySize, k)
    {
      assert Settled(data, dirty, entrySize, k);
    }
  }

  /**
   _insert takes the key for new. Over an entry that a lookup only hid (one past its deadline, on a
   node that may not delete it) it leaves a deadline that no entry has, and counts the size twice.
   */
  lemma InsertBalances(data: map<Key, Entry>, volatile: KeySet, usedMemory: int, policy: Policy, dirty: set<Key>,
                       entrySize: (Key, Value) -> nat, key: Key, e: Entry)
    requires Books(data, volatile, usedMemory, policy, dirty, entrySize) && e.content.expiresAt.None?
    ensures volatile.Holds(WithDeadline(data[key := e])) <==> key !in data || data[key].content.expiresAt.None?
    ensures usedMemory + e.size == TotalSize(data[key := e]) <==> key !in data || data[key].size == 0
  {
    TotalSizePut(data, key, e);
    DeadlinesChanged(data, key, e);
    HoldsOnly(volatile, WithDeadline(data), WithDeadline(data[key := e]));
  }

  lemma HoldsOnly(volatile: KeySet, keys: set<Key>, keys': set<Key>)
    requires volatile.Holds(keys)
    ensures volatile.Holds(keys') <==> keys' == keys
  {
    if volatile.Holds(keys') {
      forall k
        ensures k in keys' <==> k in keys
      {
        assert k in volatile.index <==> k in keys;
      }
    }
  }

  /** The running copy is on track. */
  ghost predicate OnTrack(data: map<Key, Entry>, snapshotEpoch: nat, job: Option<Job>, began: map<Key, Content>) {
    && (forall k :: Stamped(data, snapshotEpoch, k))
    && (job.Some? ==> job.value.epoch == snapshotEpoch && Copying(data, job.value, began))
  }

  ghost predicate Stamped(data: map<Key, Entry>, snapshotEpoch: nat, k: Key) {
    k in data ==> data[k].copied <= snapshotEpoch
  }

  ghost predicate Waits(data: map<Key, Entry>, job: Option<Job>, key: Key) {
    job.Some? && Untaken(data, job.value.epoch, key)
  }

  /** The same copy, as far along. */
  ghost predicate SameCourse(job: Job, job': Job) {
    job'.keys == job.keys && job'.pos == job.pos && job'.epoch == job.epoch && job'.startedAt == job.startedAt
  }

  ghost predicate FewerWait(data: map<Key, Entry>, job: Option<Job>, data': map<Key, Entry>, job': Option<Job>) {
    && (job.Some? <==> job'.Some?) && (job.Some? ==> SameCourse(job.value, job'.value))
    && forall k :: Waits(data', job', k) ==> Waits(data, job, k)
  }

  lemma TrackTake(data: map<Key, Entry>, snapshotEpoch: nat, job: Option<Job>, began: map<Key, Content>, key: Key)
    requires OnTrack(data, snapshotEpoch, job, began) && job.Some? && key in data && data[key].copied != job.value.epoch
    ensures var data', job' := data[key := data[key].(copied := job.value.epoch)],
      Some(Take(job.value, key, data[key].content));
            OnTrack(data', snapshotEpoch, job', began) && FewerWait(data, job, data', job') && !Waits(data', job', key)
  {
    TakeKeeps(data, job.value, began, key);
    var data' := data[key := data[key].(copied := job.value.epoch)];
    forall k
      ensures Stamped(data', snapshotEpoch, k)
    {
      assert Stamped(data, snapshotEpoch, k);
    }
  }

  lemma TrackBegin(data: map<Key, Entry>, snapshotEpoch: nat, began: map<Key, Content>, order: seq<Key>, now: int)
    requires OnTrack(data, snapshotEpoch, None, began) && ToSet(order) == data.Keys
    ensures var job := Some(Job(order, 0, snapshotEpoch + 1, now, []));
            OnTrack(data, snapshotEpoch + 1, job, ContentsOf(data))
  {
    var epoch, began' := snapshotEpoch + 1, ContentsOf(data);
    var job := Job(order, 0, epoch, now, []);
    assert order[0..] == order;
    forall k
      ensures Stamped(data, epoch, k) && (k in data ==> data[k].copied < epoch)
    {
      assert Stamped(data, snapshotEpoch, k);
    }
    forall k
      ensures Accounted(data, job, began', k)
    {
      assert k in data ==> k in ToSet(order);
    }
  }

  /** The keys up to end having been copied, the job may move on to end. */
  lemma TrackAdvance(data: map<Key, Entry>, snapshotEpoch: nat, job: Option<Job>, began: map<Key, Content>, end: nat)
    requires OnTrack(data, snapshotEpoch, job, began) && job.Some? && job.value.pos <= end <= |job.value.keys|
    requires forall j :: job.value.pos <= j < end ==> !Waits(data, job, job.value.keys[j])
    ensures OnTrack(data, snapshotEpoch, Some(job.value.(pos := end)), began)
  {
    var job' := job.value.(pos := end);
    forall k
      ensures Accounted(data, job', began, k)
    {
      assert Accounted(data, job.value, began, k);
      if Untaken(data, job'.epoch, k) {
        var j :| job.value.pos <= j < |job'.keys| && job'.keys[j] == k;
        assert Waits(data, job, k);
        assert job'.keys[end..][j - end] == k;
      }
    }
  }

  lemma TrackRemove(data: map<Key, Entry>, snapshotEpoch: nat, job: Option<Job>, began: map<Key, Content>, key: Key)
    requires OnTrack(data, snapshotEpoch, job, began) && !Waits(data, job, key)
    ensures OnTrack(data - {key}, snapshotEpoch, job, began) && FewerWait(data, job, data - {key}, job)
  {
    if job.Some? {
      ChangeKeeps(data, job.value, began, key, data - {key});
    }
    var data' := data - {key};
    forall k
      ensures Stamped(data', snapshotEpoch, k)
    {
      assert Stamped(data, snapshotEpoch, k);
    }
  }

  lemma TrackPut(data: map<Key, Entry>, snapshotEpoch: nat, job: Option<Job>, began: map<Key, Content>, key: Key,
                 e: Entry)
    requires OnTrack(data, snapshotEpoch, job, began) && !Waits(data, job, key)
    requires e.copied <= snapshotEpoch && (job.Some? ==> e.copied == snapshotEpoch)
    ensures OnTrack(data[key := e], snapshotEpoch, job, began) && FewerWait(data, job, data[key := e], job)
  {
    if job.Some? {
      assert data[key := e] - {key} == data - {key};
      ChangeKeeps(data, job.value, began, key, data[key := e]);
    }
    var data' := data[key := e];
    forall k
      ensures Stamped(data', snapshotEpoch, k)
    {
      assert Stamped(data, snapshotEpoch, k);
    }
  }

  /** Every copy handed over is of one that was begun, in the order they were begun; the last may be running. */
  ghost predicate Matched(starts: seq<Start>, handed: seq<nat>, delivered: seq<Delivery>, running: Option<int>,
                          began: map<Key, Content>)
  {
    && |handed| == |delivered| && Ascending(handed)
    && (forall i :: 0 <= i < |handed| ==>
          handed[i] < |starts| - (if running.Some? then 1 else 0) && CopyOf(delivered[i], starts[handed[i]]))
    && (running.Some? ==> starts != [] && starts[|starts| - 1] == Start(began, running.value))
  }

  ghost predicate CopyOf(d: Delivery, start: Start) {
    d.began == start.contents && d.startedAt == start.now
  }

  lemma MatchedBegin(starts: seq<Start>, handed: seq<nat>, delivered: seq<Delivery>, began: map<Key, Content>,
                     start: Start)
    requires Matched(starts, handed, delivered, None, began)
    ensures Matched(starts + [start], handed, delivered, Some(start.now), start.contents)
  {
  }

  lemma MatchedHand(starts: seq<Start>, handed: seq<nat>, delivered: seq<Delivery>, running: int,
                    began: map<Key, Content>,
                    d: Delivery)
    requires Matched(starts, handed, delivered, Some(running), began) && CopyOf(d, Start(began, running))
    ensures Matched(starts, handed + [|starts| - 1], delivered + [d], None, began)
  {
  }

  function Latest(starts: seq<Start>): nat {
    if starts == [] then 0 else |starts| - 1
  }

  /** How many keys the running copy has left to visit. */
  ghost function Left(job: Option<Job>): Option<nat> {
    if job.None? then None
    else Some(if job.value.pos <= |job.value.keys| then |job.value.keys| - job.value.pos else 0)
  }

  /** When the running copy was begun. */
  ghost function Since(job: Option<Job>): Option<int> {
    if job.Some? then Some(job.value.startedAt) else None
  }

  ghost predicate ExactDelivery(d: Delivery) {
    Exact(d.began, d.startedAt, d.records)
  }

  ghost predicate AllExact(delivered: seq<Delivery>) {
    forall i :: 0 <= i < |delivered| ==> ExactDelivery(delivered[i])
  }

  /** The keys of gone, each once, are what after lacks of before. */
  ghost predicate Removed(before: map<Key, Content>, after: map<Key, Content>, gone: seq<Key>) {
    Distinct(gone) && ToSet(gone) <= before.Keys && after == before - ToSet(gone)
  }

  lemma RemovedNone(before: map<Key, Content>)
    ensures Removed(before, before, []) && ToSet<Key>([]) == {}
  {
  }

  lemma RemovedOne(before: map<Key, Content>, after: map<Key, Content>, gone: seq<Key>, key: Key)
    requires Removed(before, after, gone) && key in after
    ensures Removed(before, after - {key}, gone + [key]) && ToSet(gone + [key]) == ToSet(gone) + {key}
    ensures after[key] == before[key]
  {
    assert ToSet(gone + [key]) == ToSet(gone) + {key};
    assert key !in ToSet(gone);
  }

  ghost function ExpiredAmong(m: map<Key, Content>, sample: seq<Key>, now: int): set<Key> {
    set k | k in sample && k in m && m[k].Expired(now)
  }

  /** A key drawn and not yet looked at is still there, as it was. */
  lemma SampledKey(before: map<Key, Content>, after: map<Key, Content>, gone: seq<Key>, sample: seq<Key>, i: nat,
                   now: int)
    requires Distinct(sample) && ToSet(sample) <= before.Keys && i < |sample|
    requires Removed(before, after, gone) && ToSet(gone) == ExpiredAmong(before, sample[..i], now)
    ensures sample[i] in after && after[sample[i]] == before[sample[i]]
    ensures ExpiredAmong(before, sample[..i + 1], now) ==
      ToSet(gone) + if after[sample[i]].Expired(now) then {sample[i]} else {}
  {
    assert sample[i] in ToSet(sample);
    assert sample[i] !in sample[..i];
    assert sample[..i + 1] == sample[..i] + [sample[i]];
  }

  ghost predicate NoneExpired(m: map<Key, Content>, now: int) {
    forall k :: k in m ==> !m[k].Expired(now)
  }

  /** Only expired keys went. */
  ghost predicate Expiry(before: map<Key, Content>, after: map<Key, Content>, gone: seq<Key>, now: int) {
    Removed(before, after, gone) && forall k :: k in ToSet(gone) ==> before[k].Expired(now)
  }

  /** Only expired keys went, and each was reported. */
  ghost predicate Reported(before: map<Key, Content>, log: seq<Key>, after: map<Key, Content>, log': seq<Key>,
                           gone: seq<Key>, now: int)
  {
    Expiry(before, after, gone, now) && log' == log + gone
  }

  lemma ReportedMore(before: map<Key, Content>, log: seq<Key>, mid: map<Key, Content>, log1: seq<Key>, gone: seq<Key>,
                     after: map<Key, Content>, log2: seq<Key>, more: seq<Key>, now: int)
    requires Reported(before, log, mid, log1, gone, now) && Reported(mid, log1, after, log2, more, now)
    ensures Reported(before, log, after, log2, gone + more, now)
    ensures NoneExpired(mid, now) ==> NoneExpired(after, now)
  {
    ExpiryMore(before, mid, gone, after, more, now);
  }

  lemma ExpiryMore(before: map<Key, Content>, mid: map<Key, Content>, gone: seq<Key>, after: map<Key, Content>,
                   more: seq<Key>, now: int)
    requires Expiry(before, mid, gone, now) && Expiry(mid, after, more, now)
    ensures Expiry(before, after, gone + more, now)
    ensures NoneExpired(mid, now) ==> NoneExpired(after, now)
  {
    assert ToSet(gone + more) == ToSet(gone) + ToSet(more);
    forall i, j | 0 <= i < j < |gone + more|
      ensures (gone + more)[i] != (gone + more)[j]
    {
      if i < |gone| <= j {
        assert gone[i] in ToSet(gone) && more[j - |gone|] in ToSet(more);
      }
    }
  }

  /** The keys in some order. */
  method Listed(keys: set<Key>) returns (order: seq<Key>)
    ensures Distinct(order) && ToSet(order) == keys && |order| == |keys|
  {
    order := [];
    var left := keys;
    while left != {}
      invariant Distinct(order) && ToSet(order) == keys - left && left <= keys
      invariant |order| + |left| == |keys|
      decreases left
    {
      var key :| key in left;
      assert key !in ToSet(order);
      assert ToSet(order + [key]) == ToSet(order) + {key};
      order, left := order + [key], left - {key};
    }
  }

  lemma {:induction false} FewerExpired(gone: seq<Key>, sample: seq<Key>)
    requires Distinct(gone) && ToSet(gone) <= ToSet(sample)
    ensures |gone| <= |sample|
  {
    if gone != [] {
      var last := gone[|gone| - 1];
      assert last in ToSet(gone);
      var i :| 0 <= i < |sample| && sample[i] == last;
      var rest := sample[..i] + sample[i + 1..];
      forall k | k in ToSet(gone[..|gone| - 1])
        ensures k in ToSet(rest)
      {
        assert k in ToSet(gone) && k != last;
        var j :| 0 <= j < |sample| && sample[j] == k;
        assert rest[if j < i then j else j - 1] == k;
      }
      FewerExpired(gone[..|gone| - 1], rest);
    }
  }

  /** Having sampled every key with a deadline, no expired key is left. */
  lemma AllSampled(data: map<Key, Entry>, sample: seq<Key>, gone: seq<Key>, after: map<Key, Content>, now: int)
    requires ToSet(sample) == WithDeadline(data) && Removed(ContentsOf(data), after, gone)
    requires ToSet(gone) == ExpiredAmong(ContentsOf(data), sample, now)
    ensures NoneExpired(after, now)
  {
    forall k | k in data && data[k].content.Expired(now)
      ensures k in ToSet(gone)
    {
      assert k in ToSet(sample);
    }
  }

  /** What a command that changes a collection finds at a key. */
  function Target(m: map<Key, Content>, key: Key, dead: bool, empty: Value): Result<Value, string> {
    if key !in m || dead then Ok(empty)
    else if m[key].value.SameKind(empty) then Ok(m[key].value)
    else Err(WRONG_TYPE)
  }

  // -------------------------------------------------------------- commands

  /** What a handler may do to the keyspace. */
  datatype Op =
    | Reading(key: Key)
    | Setting(key: Key, value: Value, keepTtl: bool)
    | Deleting(key: Key)
    | Expiring(key: Key, at: int)
    | Persisting(key: Key)
    | Updating(key: Key, empty: Value, result: Value)
    | Flushing
  {
    /** A handler changes the keys its command names; it may look any key up. */
    predicate Within(keys: seq<Key>) {
      (Flushing? || Reading? || key in keys) && (Updating? ==> empty.IsEmpty())
    }
  }

  ghost predicate AllWithin(ops: seq<Op>, keys: seq<Key>) {
    forall i :: 0 <= i < |ops| ==> ops[i].Within(keys)
  }

  ghost predicate AllReading(ops: seq<Op>) {
    forall i :: 0 <= i < |ops| ==> ops[i].Reading?
  }

  /** Whether deadlines are looked at, and whether a key past its own is deleted. */
  datatype Mode = Mode(enabled: bool, deletes: bool)

  /** What there is to see: the keys, the mode, how many keys the running copy has left to visit, and the copies. */
  datatype View = View(contents: map<Key, Content>, mode: Mode, left: Option<nat>, starts: seq<Start>, handed: seq<nat>)

  predicate Past(m: map<Key, Content>, key: Key, now: int, mode: Mode) {
    key in m && mode.enabled && m[key].Expired(now)
  }

  /** What a lookup leaves. */
  function Reaped(m: map<Key, Content>, key: Key, now: int, mode: Mode): map<Key, Content> {
    if Past(m, key, now, mode) && mode.deletes then m - {key} else m
  }

  /** The keys after one operation. */
  function After(m: map<Key, Content>, op: Op, now: int, mode: Mode): map<Key, Content> {
    if op.Flushing? then map[]
    else
      var key := op.key;
      var live := key in m && !Past(m, key, now, mode);
      match op
      case Reading(_) => Reaped(m, key, now, mode)
      case Setting(_, value, keepTtl) => m[key := Content(value, if keepTtl && live then m[key].expiresAt else None)]
      case Deleting(_) => if live then m - {key} else Reaped(m, key, now, mode)
      case Expiring(_, at) =>
        if live then m[key := m[key].(expiresAt := Some(at))] else Reaped(m, key, now, mode)
      case Persisting(_) =>
        if live && m[key].expiresAt.Some? then m[key := m[key].(expiresAt := None)] else Reaped(m, key, now, mode)
      case Updating(_, empty, result) => Updated(m, key, live, empty, result)
  }

  /** A collection changed in place, or made; one of another kind stays as it is. */
  function Updated(m: map<Key, Content>, key: Key, live: bool, empty: Value, result: Value): map<Key, Content>
    requires live ==> key in m
  {
    if !live then m[key := Content(result, None)]
    else if m[key].value.SameKind(empty) then m[key := m[key].(value := result)]
    else m
  }

  /** The running copy, if there is one, is finished and handed over. */
  function Finished(v: View): View {
    if v.left.Some? then v.(left := None, handed := v.handed + [Latest(v.starts)]) else v
  }

  function Done(v: View, op: Op, now: int): View {
    (if op.Flushing? then Finished(v) else v).(contents := After(v.contents, op, now, v.mode))
  }

  /** The view after the first n operations. */
  function AllDone(v: View, ops: seq<Op>, n: nat, now: int): View
    requires n <= |ops|
  {
    if n == 0 then v else Done(AllDone(v, ops, n - 1, now), ops[n - 1], now)
  }

  /** Emptied collections among these keys go. */
  function Swept(m: map<Key, Content>, keys: seq<Key>): map<Key, Content> {
    m - set k | k in keys && k in m && m[k].value.IsEmpty()
  }

  lemma SweptOne(m: map<Key, Content>, keys: seq<Key>, i: nat)
    requires i < |keys|
    ensures var before := Swept(m, keys[..i]);
      Swept(m, keys[..i + 1]) ==
      if keys[i] in before && before[keys[i]].value.IsEmpty() then before - {keys[i]} else before
  {
    assert keys[..i + 1] == keys[..i] + [keys[i]];
  }

  /** The view after a command that writes, but for what is evicted. */
  function Written(v: View, keys: seq<Key>, ops: seq<Op>, now: int): View {
    var u := AllDone(v, ops, |ops|, now);
    u.(contents := Swept(u.contents, keys))
  }

  /** What bounds the keyspace: how many keys, how many bytes by the estimate, and whether keys are evicted for it. */
  datatype Limits = Limits(maxKeys: nat, maxmemory: nat, evicts: bool, entrySize: (Key, Value) -> nat)

  predicate Over(l: Limits, keys: nat, used: int) {
    (l.maxKeys > 0 && keys > l.maxKeys) || (l.maxmemory > 0 && used > l.maxmemory)
  }

  /** What looking each of these keys up leaves. */
  function Reviewed(v: View, keys: seq<Key>, now: int): View {
    v.(contents := v.contents - set k | k in keys && v.mode.deletes && Past(v.contents, k, now, v.mode))
  }

  /** A command that may add data is refused: its new keys would be too many, or the keyspace is too big already. */
  ghost predicate Refuses(l: Limits, v: View, keys: seq<Key>, now: int) {
    var m := Reviewed(v, keys, now).contents;
    !l.evicts && Over(l, |m| + |ToSet(keys) - m.Keys|, Weight(m, l.entrySize))
  }

  function Lacking(v: View, gone: seq<Key>): View {
    v.(contents := v.contents - ToSet(gone))
  }

  /** A client's command: whether it writes, may add data, or fails; its keys, and what its handler does. */
  datatype Request = Request(write: bool, denyOom: bool, fails: bool, keys: seq<Key>, ops: seq<Op>)
  {
    ghost predicate Proper() {
      if write then AllWithin(ops, keys) else AllReading(ops) && !denyOom
    }
  }

  /**
   What a command that writes makes of a view, but for what is evicted: nothing if it is refused, but that
   its keys have been looked up.
   */
  ghost function Ran(l: Limits, c: Request, now: int, v: View): View {
    var u := if c.denyOom && !l.evicts then Reviewed(v, c.keys, now) else v;
    if c.denyOom && Refuses(l, v, c.keys, now) then u else Written(u, c.keys, c.ops, now)
  }

  lemma LackingNone(v: View)
    ensures Lacking(v, []) == v
  {
    assert v.contents - ToSet<Key>([]) == v.contents;
  }

  lemma ReviewedNone(v: View, now: int)
    ensures Reviewed(v, [], now) == v
  {
  }

  lemma ReviewedOne(v: View, keys: seq<Key>, i: nat, now: int)
    requires i < |keys|
    ensures keys[..i + 1] == keys[..i] + [keys[i]]
    ensures var u := Reviewed(v, keys[..i], now);
      Reviewed(v, keys[..i + 1], now) == u.(contents := Reaped(u.contents, keys[i], now, v.mode))
    ensures keys[i] in keys[..i] ==>
      Reviewed(v, keys[..i + 1], now) == Reviewed(v, keys[..i], now) && ToSet(keys[..i + 1]) == ToSet(keys[..i])
  {
    assert keys[..i + 1] == keys[..i] + [keys[i]];
  }

  /** One more key, looked up: only it may have gone. */
  lemma CountMissing(keys: seq<Key>, key: Key, before: set<Key>, there: set<Key>)
    requires key !in keys && there <= before <= there + {key}
    ensures |ToSet(keys + [key]) - there| == |ToSet(keys) - before| + if key in there then 0 else 1
  {
    var missing := ToSet(keys) - before;
    assert ToSet(keys + [key]) - there == if key in there then missing else missing + {key};
  }

  /** What can happen to the store between two moments of quiet. */
  datatype Event =
    | Command(c: Request)
    | Streamed(keys: seq<Key>, ops: seq<Op>)
    | ActiveExpiry(sampleSize: nat)
    | Begin
    | Slice(maxKeys: nat)
    | Abandon
    | Role(primary: bool)
  {
    ghost predicate Proper() {
      && (Command? ==> c.Proper())
      && (Streamed? ==> AllWithin(ops, keys))
    }
  }

  /**
   What an event makes of a view. A command that writes runs where keys past their deadline are
   deleted, and a streamed one without looking at deadlines; gone is what was evicted or had expired.
   Nothing is evicted after a command that failed or was refused.
   */
  ghost predicate Becomes(l: Limits, e: Event, now: int, gone: seq<Key>, a: View, b: View) {
    match e
    case Command(c) =>
      if !c.write then b == AllDone(a, c.ops, |c.ops|, now) && gone == []
      else if a.mode.enabled && !a.mode.deletes then b == a && gone == []
      else
        && b == Lacking(Ran(l, c, now, a), gone) && ToSet(gone) !! ToSet(c.keys)
        && (!l.evicts || c.fails ==> gone == [])
    case Streamed(keys, ops) =>
      gone == [] && b == Written(a.(mode := a.mode.(enabled := false)), keys, ops, now).(mode := a.mode)
    case ActiveExpiry(_) =>
      && b == Lacking(a, gone) && (!a.mode.deletes ==> gone == [])
      && forall k :: k in gone ==> k in a.contents && a.contents[k].Expired(now)
    case Begin =>
      gone == [] &&
      b == if a.left.Some? then a else a.(left := Some(|a.contents.Keys|),
                                          starts := a.starts + [Start(a.contents, now)])
    case Slice(n) =>
      gone == [] &&
      b == if a.left.None? then a else if a.left.value <= n then Finished(a) else a.(left := Some(a.left.value - n))
    case Abandon => gone == [] && b == a.(left := None)
    case Role(primary) => gone == [] && b == a.(mode := a.mode.(deletes := primary))
  }

  /** Each view comes from the one before it. */
  ghost predicate AllBecome(limits: Limits, events: seq<Event>, clock: seq<int>, gone: seq<seq<Key>>,
                            trace: seq<View>)
  {
    && |trace| == |gone| + 1 && |gone| <= |events| && |gone| <= |clock|
    && forall i :: 0 <= i < |gone| ==> Becomes(limits, events[i], clock[i], gone[i], trace[i], trace[i + 1])
  }

  lemma AllBecomeOn(limits: Limits, events: seq<Event>, clock: seq<int>, gone: seq<seq<Key>>, trace: seq<View>,
                    more: seq<Key>, next: View)
    requires AllBecome(limits, events, clock, gone, trace) && |gone| < |events| && |gone| < |clock|
    requires Becomes(limits, events[|gone|], clock[|gone|], more, trace[|gone|], next)
    ensures AllBecome(limits, events, clock, gone + [more], trace + [next])
  {
    var gone', trace' := gone + [more], trace + [next];
    forall i | 0 <= i < |gone'|
      ensures Becomes(limits, events[i], clock[i], gone'[i], trace'[i], trace'[i + 1])
    {
      assert trace'[i] == trace[i];
      assert i < |gone| ==> gone'[i] == gone[i] && trace'[i + 1] == trace[i + 1];
    }
  }

  datatype Ledger = Entries | Order

  /** The books agree with the entries, and the policy with what it was told. */
  ghost predicate InBalance(data: map<Key, Entry>, volatile: KeySet, usedMemory: int, policy: Policy, hooks: seq<Hook>,
                            dirty: set<Key>, limits: Limits)
  {
    forall l: Ledger :: Agrees(l, data, volatile, usedMemory, policy, hooks, dirty, limits)
  }

  ghost predicate Agrees(l: Ledger, data: map<Key, Entry>, volatile: KeySet, usedMemory: int, policy: Policy,
                         hooks: seq<Hook>, dirty: set<Key>, limits: Limits)
  {
    match l
    case Entries => Books(data, volatile, usedMemory, policy, dirty, limits.entrySize)
    case Order => InStep(policy, hooks, limits.evicts)
  }

  lemma BalanceIs(data: map<Key, Entry>, volatile: KeySet, usedMemory: int, policy: Policy, hooks: seq<Hook>,
                  dirty: set<Key>, limits: Limits)
    ensures InBalance(data, volatile, usedMemory, policy, hooks, dirty, limits) <==>
      Books(data, volatile, usedMemory, policy, dirty, limits.entrySize) && InStep(policy, hooks, limits.evicts)
  {
    if InBalance(data, volatile, usedMemory, policy, hooks, dirty, limits) {
      assert Agrees(Entries, data, volatile, usedMemory, policy, hooks, dirty, limits);
      assert Agrees(Order, data, volatile, usedMemory, policy, hooks, dirty, limits);
    }
    if Books(data, volatile, usedMemory, policy, dirty, limits.entrySize) && InStep(policy, hooks, limits.evicts) {
      forall l: Ledger
        ensures Agrees(l, data, volatile, usedMemory, policy, hooks, dirty, limits)
      {
        match l
        case Entries =>
        case Order =>
      }
    }
  }

  lemma BalancePut(data: map<Key, Entry>, volatile: KeySet, usedMemory: int, policy: Policy, hooks: seq<Hook>,
                   dirty: set<Key>, limits: Limits, key: Key, e: Entry, policy': Policy, hooks': seq<Hook>)
    requires InBalance(data, volatile, usedMemory, policy, hooks, dirty, limits)
    requires policy'.Tracks(data[key := e].Keys) && InStep(policy', hooks', limits.evicts)
    ensures var volatile' := if e.content.expiresAt.Some? then volatile.Add(key) else volatile.Discard(key);
      InBalance(data[key := e], volatile', usedMemory - SizeOf(data, key) + e.size, policy', hooks',
                Undirtied(dirty, key, e, limits.entrySize), limits)
  {
    BalanceIs(data, volatile, usedMemory, policy, hooks, dirty, limits);
    BooksPut(data, volatile, usedMemory, policy, dirty, limits.entrySize, key, e, policy');
    BalanceIs(data[key := e], if e.content.expiresAt.Some? then volatile.Add(key) else volatile.Discard(key),
              usedMemory - SizeOf(data, key) + e.size, policy', hooks', Undirtied(dirty, key, e, limits.entrySize),
              limits);
  }

  /** What the store keeps: its books, the running copy, and the copies handed over. */
  datatype Aspect = Accounts | Tracking | Deliveries

  class Store {
    const limits: Limits
    var expiryEnabled: bool
    var expiryDeletes: bool
    var evictionEnabled: bool
    var data: map<Key, Entry>
    var volatile: KeySet
    var usedMemory: int
    var policy: Policy
    var snapshotEpoch: nat
    var job: Option<Job>
    /** Keys deleted by expiry, in order: what on_expire was called with. */
    var expired: seq<Key>
    /** The keyspace the running copy was begun on, and every copy handed over. */
    ghost var began: map<Key, Content>
    ghost var delivered: seq<Delivery>
    /** Every copy begun, and which of them were handed over. */
    ghost var starts: seq<Start>
    ghost var handed: seq<nat>
    /** What the policy has been told. */
    ghost var hooks: seq<Hook>
    /** Keys whose value changed in place since their size was last accounted. */
    ghost var dirty: set<Key>

    /**
     The books balance, the running copy is on track, and every copy handed over is exact, of a
     keyspace that a copy was begun on, in that order.
     */
    ghost predicate Valid()
      reads this
    {
      forall a: Aspect :: Keeps(a)
    }

    ghost predicate Keeps(a: Aspect)
      reads this
    {
      match a
      case Accounts => Balanced()
      case Tracking => OnTrack(data, snapshotEpoch, job, began)
      case Deliveries => AllExact(delivered) && Matched(starts, handed, delivered, Since(job), began)
    }

    lemma Parts()
      requires Valid()
      ensures Balanced() && OnTrack(data, snapshotEpoch, job, began)
      ensures Books(data, volatile, usedMemory, policy, dirty, limits.entrySize)
      ensures InStep(policy, hooks, limits.evicts)
      ensures AllExact(delivered) && Matched(starts, handed, delivered, Since(job), began)
    {
      BalanceIs(data, volatile, usedMemory, policy, hooks, dirty, limits);
      assert Keeps(Accounts) && Keeps(Tracking) && Keeps(Deliveries);
    }

    lemma Whole()
      requires Balanced() && OnTrack(data, snapshotEpoch, job, began)
      requires AllExact(delivered) && Matched(starts, handed, delivered, Since(job), began)
      ensures Valid()
    {
      forall a: Aspect
        ensures Keeps(a)
      {
        match a
        case Accounts =>
        case Tracking =>
        case Deliveries =>
      }
    }

    ghost predicate Balanced()
      reads this
    {
      InBalance(data, volatile, usedMemory, policy, hooks, dirty, limits)
    }

    ghost function Contents(): map<Key, Content>
      reads this
    {
      ContentsOf(data)
    }

    /** The running copy still has to take this key. */
    ghost predicate Waiting(key: Key)
      reads this
    {
      Waits(data, job, key)
    }

    /** A running copy goes on, with no more to take than before. */
    twostate predicate Calm()
      reads this
    {
      FewerWait(old(data), old(job), data, job)
    }

    constructor (maxKeys: nat, maxmemory: nat, policy: Policy, entrySize: (Key, Value) -> nat)
      requires policy.Tracks({})
      ensures Valid() && Contents() == map[] && job.None? && delivered == [] && starts == [] && dirty == {}
      ensures limits == Limits(maxKeys, maxmemory, policy.Evicts(), entrySize) && this.policy == policy
    {
      limits := Limits(maxKeys, maxmemory, policy.Evicts(), entrySize);
      expiryEnabled, expiryDeletes, evictionEnabled := true, true, true;
      data, volatile, usedMemory := map[], Empty(), 0;
      this.policy := policy;
      snapshotEpoch, job, expired := 0, None, [];
      began, delivered, starts, handed, hooks, dirty := map[], [], [], [], [], {};
      new;
      Whole();
    }

    /** Copy key's current value into the running snapshot before it changes. */
    method Barrier(key: Key)
      requires Valid()
      modifies `data, `job
      ensures Valid() && Contents() == old(Contents())
      ensures Calm() && !Waiting(key)
      ensures job.Some? ==> job.value.(records := old(job).value.records) == old(job).value
      ensures data.Keys == old(data).Keys
      ensures key in data ==> data[key].size == old(data)[key].size
    {
      if job.None? || key !in data || data[key].copied == job.value.epoch {
        return;
      }
      Parts();
      TrackTake(data, snapshotEpoch, job, began, key);
      BooksCopied(data, volatile, usedMemory, policy, dirty, limits.entrySize, key, job.value.epoch);
      job := Some(Take(job.value, key, data[key].content));
      data := data[key := data[key].(copied := snapshotEpoch)];
      Whole();
    }

    /** Take one entry out of every table. */
    method Drop(key: Key)
      requires Balanced() && key in data
      modifies `data, `volatile, `usedMemory, `policy, `hooks
      ensures Balanced() && data == old(data) - {key} && policy == old(policy).OnRemove(key)
      ensures usedMemory == old(usedMemory) - old(data)[key].size
    {
      BalanceIs(data, volatile, usedMemory, policy, hooks, dirty, limits);
      BooksRemoved(data, volatile, usedMemory, policy, dirty, limits.entrySize, key);
      InStepOn(policy, hooks, limits.evicts, Hook.Remove(key), 0, true);
      BalanceIs(data - {key}, volatile.Discard(key), usedMemory - data[key].size, policy.OnRemove(key),
                hooks + [Hook.Remove(key)], dirty, limits);
      usedMemory := usedMemory - data[key].size;
      data := data - {key};
      volatile := volatile.Discard(key);
      policy, hooks := policy.OnRemove(key), hooks + [Hook.Remove(key)];
    }

    /** _remove, once the barrier is passed. */
    method Erase(key: Key)
      requires Valid() && key in data && !Waiting(key)
      modifies `data, `volatile, `usedMemory, `policy, `hooks
      ensures Valid() && Contents() == old(Contents()) - {key} && Calm()
      ensures data == old(data) - {key} && usedMemory == old(usedMemory) - old(data)[key].size
      ensures policy == old(policy).OnRemove(key)
    {
      Parts();
      TrackRemove(data, snapshotEpoch, job, began, key);
      ContentsChanged(data, key, data[key]);
      Drop(key);
      Whole();
    }

    /** Every removal goes through here. */
    method Remove(key: Key)
      requires Valid() && key in data
      modifies `data, `job, `volatile, `usedMemory, `policy, `hooks
      ensures Valid() && Contents() == old(Contents()) - {key}
      ensures Calm() && !Waiting(key)
      ensures data.Keys == old(data).Keys - {key} && usedMemory == old(usedMemory) - old(data)[key].size
      ensures policy == old(policy).OnRemove(key)
    {
      Barrier(key);
      Erase(key);
    }

    /** Write one entry, keeping every table in step. */
    method Enter(key: Key, e: Entry, policy': Policy, ghost hooks': seq<Hook>)
      requires Balanced() && policy'.Tracks(data[key := e].Keys) && InStep(policy', hooks', limits.evicts)
      modifies `data, `volatile, `usedMemory, `policy, `hooks, `dirty
      ensures Balanced() && data == old(data)[key := e] && dirty == Undirtied(old(dirty), key, e, limits.entrySize)
      ensures policy == policy' && hooks == hooks'
    {
      BalancePut(data, volatile, usedMemory, policy, hooks, dirty, limits, key, e, policy', hooks');
      usedMemory := usedMemory - (if key in data then data[key].size else 0) + e.size;
      volatile := if e.content.expiresAt.Some? then volatile.Add(key) else volatile.Discard(key);
      data := data[key := e];
      policy, hooks := policy', hooks';
      dirty := Undirtied(dirty, key, e, limits.entrySize);
    }

    /** The same, for a key that is not waiting to be copied. */
    method Put(key: Key, e: Entry, policy': Policy, ghost hooks': seq<Hook>)
      requires Valid() && !Waiting(key)
      requires e.copied <= snapshotEpoch && (job.Some? ==> e.copied == snapshotEpoch)
      requires policy'.Tracks(data[key := e].Keys) && InStep(policy', hooks', limits.evicts)
      modifies `data, `volatile, `usedMemory, `policy, `hooks, `dirty
      ensures Valid() && Contents() == old(Contents())[key := e.content] && Calm()
      ensures data == old(data)[key := e] && dirty == Undirtied(old(dirty), key, e, limits.entrySize)
    {
      Parts();
      TrackPut(data, snapshotEpoch, job, began, key, e);
      ContentsChanged(data, key, e);
      Enter(key, e, policy', hooks');
      Whole();
    }

    /** The key holds an entry that a lookup does not show. */
    predicate Dead(key: Key, now: int)
      reads this
    {
      key in data && expiryEnabled && data[key].content.Expired(now)
    }

    /** A lookup deletes it. */
    predicate Doomed(key: Key, now: int)
      reads this
    {
      Dead(key, now) && expiryDeletes
    }

    /** _lookup: the live entry, a dead one being deleted on the way unless this node must not. */
    method Lookup(key: Key, now: int) returns (found: Option<Content>)
      requires Valid()
      modifies `data, `job, `volatile, `usedMemory, `policy, `hooks, `expired
      ensures Valid() && Calm()
      ensures found == if key in old(data) && !old(Dead(key, now)) then Some(old(data)[key].content) else None
      ensures old(Doomed(key, now)) ==>
        Contents() == old(Contents()) - {key} && expired == old(expired) + [key] && key !in data
      ensures !old(Doomed(key, now)) ==> unchanged(this)
    {
      if key !in data {
        return None;
      }
      if expiryEnabled && data[key].content.Expired(now) {
        if expiryDeletes {
          Expire(key);
        }
        return None;
      }
      return Some(data[key].content);
    }

    /** A deletion by expiry, reported so that it can be logged. */
    method Expire(key: Key)
      requires Valid() && key in data
      modifies `data, `job, `volatile, `usedMemory, `policy, `hooks, `expired
      ensures Valid() && Contents() == old(Contents()) - {key} && Calm() && !Waiting(key)
      ensures expired == old(expired) + [key] && key !in data
    {
      Remove(key);
      assert key !in Contents();
      Parts();
      expired := expired + [key];
      Whole();
    }

    method Touch(key: Key, minute: int, lucky: bool)
      requires Valid()
      modifies `policy, `hooks
      ensures Valid() && policy == old(policy).OnAccess(key, minute, lucky)
    {
      Parts();
      AccessTracks(policy, data.Keys, key, minute, lucky);
      InStepOn(policy, hooks, limits.evicts, Access(key), minute, lucky);
      policy, hooks := policy.OnAccess(key, minute, lucky), hooks + [Access(key)];
      Whole();
    }

    /** get: a lookup for a read, which counts as a use. */
    method Get(key: Key, now: int, minute: int, lucky: bool) returns (found: Option<Content>)
      requires Valid()
      modifies `data, `job, `volatile, `usedMemory, `policy, `hooks, `expired
      ensures Valid() && Calm()
      ensures found == if key in old(data) && !old(Dead(key, now)) then Some(old(data)[key].content) else None
      ensures Contents() == if old(Doomed(key, now)) then old(Contents()) - {key} else old(Contents())
      ensures expired == old(expired) + if old(Doomed(key, now)) then [key] else []
    {
      found := Lookup(key, now);
      if found.Some? {
        Touch(key, minute, lucky);
      }
    }

    /** What an entry written now is stamped with: it is not part of a running snapshot. */
    function Fresh(key: Key, content: Content): (e: Entry)
      reads this
      ensures e.size == limits.entrySize(key, content.value) && e.copied == snapshotEpoch && e.content == content
    {
      Entry(content, limits.entrySize(key, content.value), snapshotEpoch)
    }

    /** Store a fresh entry: a new key is inserted, an old one used. */
    method Write(key: Key, content: Content, minute: int, lucky: bool)
      requires Valid() && !Waiting(key)
      modifies `data, `volatile, `usedMemory, `policy, `hooks, `dirty
      ensures Valid() && Contents() == old(Contents())[key := content] && Calm()
      ensures dirty == if content.value.IsEmpty() then old(dirty) + {key} else old(dirty) - {key}
    {
      Parts();
      UseTracks(policy, data, key, Fresh(key, content), minute, lucky);
      InStepOn(policy, hooks, limits.evicts, Use(data, key), minute, lucky);
      Put(key, Fresh(key, content), Hooked(policy, Use(data, key), minute, lucky), hooks + [Use(data, key)]);
    }

    /**
     set: replace any value at the key, dropping its deadline unless told to keep it.
     The barrier for the key must have been passed.
     */
    method Set(key: Key, value: Value, keepTtl: bool, now: int, minute: int, lucky: bool)
      requires Valid() && !Waiting(key)
      requires keepTtl && Dead(key, now) ==> expiryDeletes
      modifies `data, `job, `volatile, `usedMemory, `policy, `hooks, `expired, `dirty
      ensures Valid() && Calm()
      ensures Contents() == old(Contents())[key :=
        Content(value, if keepTtl && key in old(data) && !old(Dead(key, now)) then old(data)[key].content.expiresAt
                else None)]
      ensures expired == old(expired) + if keepTtl && old(Dead(key, now)) then [key] else []
      ensures dirty == if value.IsEmpty() then old(dirty) + {key} else old(dirty) - {key}
    {
      var deadline := None;
      if keepTtl {
        var found := Lookup(key, now);
        if found.Some? {
          deadline := found.value.expiresAt;
        }
      }
      Write(key, Content(value, deadline), minute, lucky);
    }

    method Delete(key: Key, now: int) returns (deleted: bool)
      requires Valid()
      modifies `data, `job, `volatile, `usedMemory, `policy, `hooks, `expired
      ensures Valid() && Calm()
      ensures deleted <==> key in old(data) && !old(Dead(key, now))
      ensures Contents() == if deleted || old(Doomed(key, now)) then old(Contents()) - {key} else old(Contents())
      ensures expired == old(expired) + if old(Doomed(key, now)) then [key] else []
    {
      var found := Lookup(key, now);
      if found.None? {
        return false;
      }
      Remove(key);
      return true;
    }

    /** Change an entry in place; its accounted size stays until refresh. */
    method Amend(key: Key, content: Content)
      requires Valid() && key in data && !Waiting(key)
      modifies `data, `volatile, `usedMemory, `policy, `hooks, `dirty
      ensures Valid() && Contents() == old(Contents())[key := content] && Calm()
      ensures content.value == old(data)[key].content.value && key !in old(dirty) ==> dirty == old(dirty)
      ensures old(dirty) - {key} <= dirty <= old(dirty) + {key}
    {
      Parts();
      assert Settled(data, dirty, limits.entrySize, key);
      assert Stamped(data, snapshotEpoch, key);
      UseTracks(policy, data, key, data[key].(content := content), 0, false);
      Put(key, data[key].(content := content), policy, hooks);
    }

    method SetExpiry(key: Key, at: int, now: int) returns (done: bool)
      requires Valid() && !Waiting(key)
      modifies `data, `job, `volatile, `usedMemory, `policy, `hooks, `expired, `dirty
      ensures Valid() && Calm()
      ensures done <==> key in old(data) && !old(Dead(key, now))
      ensures done ==> Contents() == old(Contents())[key := old(data)[key].content.(expiresAt := Some(at))]
      ensures !done ==> Contents() == if old(Doomed(key, now)) then old(Contents()) - {key} else old(Contents())
      ensures expired == old(expired) + if old(Doomed(key, now)) then [key] else []
      ensures key !in old(dirty) ==> dirty == old(dirty)
      ensures dirty <= old(dirty) + {key}
    {
      var found := Lookup(key, now);
      if found.None? {
        return false;
      }
      Amend(key, found.value.(expiresAt := Some(at)));
      return true;
    }

    method Persist(key: Key, now: int) returns (done: bool)
      requires Valid() && !Waiting(key)
      modifies `data, `job, `volatile, `usedMemory, `policy, `hooks, `expired, `dirty
      ensures Valid() && Calm()
      ensures done <==> key in old(data) && !old(Dead(key, now)) && old(data)[key].content.expiresAt.Some?
      ensures done ==> Contents() == old(Contents())[key := old(data)[key].content.(expiresAt := None)]
      ensures !done ==> Contents() == if old(Doomed(key, now)) then old(Contents()) - {key} else old(Contents())
      ensures expired == old(expired) + if old(Doomed(key, now)) then [key] else []
      ensures key !in old(dirty) ==> dirty == old(dirty)
      ensures dirty <= old(dirty) + {key}
    {
      var found := Lookup(key, now);
      if found.None? || found.value.expiresAt.None? {
        return false;
      }
      Amend(key, found.value.(expiresAt := None));
      return true;
    }

    /** refresh: account a key's current size after a change in place, or drop it if it was emptied. */
    method Refresh(key: Key)
      requires Valid() && !Waiting(key)
      modifies `data, `job, `volatile, `usedMemory, `policy, `hooks, `dirty
      ensures Valid() && Calm()
      ensures dirty == old(dirty) - {key}
      ensures Contents() ==
        if key in old(data) && old(data)[key].content.value.IsEmpty() then old(Contents()) - {key} else old(Contents())
    {
      if key in data {
        if data[key].content.value.IsEmpty() {
          Remove(key);
        } else {
          Reaccount(key);
        }
      }
      assert key in Contents() <==> key in data;
      Parts();
      BooksClean(data, volatile, usedMemory, policy, dirty, limits.entrySize, key);
      dirty := dirty - {key};
      Whole();
    }

    method Reaccount(key: Key)
      requires Valid() && key in data && !Waiting(key) && !data[key].content.value.IsEmpty()
      modifies `data, `volatile, `usedMemory, `policy, `hooks, `dirty
      ensures Valid() && Contents() == old(Contents()) && Calm()
      ensures dirty == old(dirty) - {key} && key in data && data[key].size ==
        limits.entrySize(key, data[key].content.value)
      ensures data[key].content == old(data)[key].content
    {
      var e := data[key].(size := limits.entrySize(key, data[key].content.value));
      Parts();
      assert Stamped(data, snapshotEpoch, key);
      UseTracks(policy, data, key, e, 0, false);
      Put(key, e, policy, hooks);
    }

    method Advance(end: nat)
      requires Valid() && job.Some? && job.value.pos <= end <= |job.value.keys|
      requires forall j :: job.value.pos <= j < end ==> !Waiting(job.value.keys[j])
      modifies `job
      ensures Valid() && job == Some(old(job).value.(pos := end))
    {
      Parts();
      TrackAdvance(data, snapshotEpoch, job, began, end);
      job := Some(job.value.(pos := end));
      Whole();
    }

    /** Every key visited: hand the records over, once. */
    method Deliver()
      requires Valid() && job.Some? && job.value.pos == |job.value.keys|
      modifies `job, `delivered, `handed
      ensures Valid() && job.None?
      ensures delivered == old(delivered) + [Delivery(began, old(job).value.startedAt, old(job).value.records)]
      ensures handed == old(handed) + [Latest(starts)]
    {
      Parts();
      ghost var copy := Delivery(began, job.value.startedAt, job.value.records);
      FinishedIsExact(data, job.value, began);
      MatchedHand(starts, handed, delivered, job.value.startedAt, began, copy);
      delivered, handed := delivered + [copy], handed + [|starts| - 1];
      job := None;
      Whole();
    }

    /** The loop of step: copy what is still to be copied among the keys up to end. */
    method CopyUpTo(end: nat)
      requires Valid() && job.Some? && job.value.pos <= end <= |job.value.keys|
      modifies `data, `job
      ensures Valid() && Contents() == old(Contents()) && Calm()
      ensures job.Some? && job.value.(records := old(job).value.records) == old(job).value
      ensures forall j :: job.value.pos <= j < end ==> !Waiting(job.value.keys[j])
    {
      var pos, keys := job.value.pos, job.value.keys;
      for i := pos to end
        invariant Valid() && Contents() == old(Contents()) && Calm()
        invariant job.Some? && job.value.(records := old(job).value.records) == old(job).value
        invariant forall j :: pos <= j < i ==> !Waiting(keys[j])
      {
        Barrier(keys[i]);
      }
    }

    /** step: copy up to maxKeys more keys; the call that reaches the end hands the records over. */
    method Step(maxKeys: nat) returns (done: bool)
      requires Valid()
      modifies `data, `job, `delivered, `handed
      ensures Valid() && Contents() == old(Contents())
      ensures done <==> job.None?
      ensures done <==> old(job).None? || |old(job).value.keys| <= old(job).value.pos + maxKeys
      ensures job.Some? ==> job.value.keys == old(job).value.keys && job.value.pos == old(job).value.pos + maxKeys
      ensures handed == old(handed) + if old(job).Some? && done then [Latest(starts)] else []
      ensures old(delivered) <= delivered
    {
      if job.None? {
        return true;
      }
      var pos, keys := job.value.pos, job.value.keys;
      var end := if pos + maxKeys < |keys| then pos + maxKeys else |keys|;
      Parts();
      CopyUpTo(end);
      Advance(end);
      done := end == |keys|;
      if done {
        Deliver();
      }
    }

    /** begin_snapshot: start copying the keyspace as it is now; order is the order of the dict. */
    method BeginSnapshot(order: seq<Key>, now: int) returns (started: bool)
      requires Valid() && ToSet(order) == data.Keys
      modifies `job, `snapshotEpoch, `began, `starts
      ensures Valid()
      ensures started <==> old(job).None?
      ensures started ==> job.Some? && began == Contents() && starts == old(starts) + [Start(Contents(), now)]
      ensures started ==> job.value.startedAt == now && job.value.keys == order && job.value.pos == 0
      ensures !started ==> unchanged(this)
    {
      if job.Some? {
        return false;
      }
      Parts();
      TrackBegin(data, snapshotEpoch, began, order, now);
      MatchedBegin(starts, handed, delivered, began, Start(Contents(), now));
      snapshotEpoch := snapshotEpoch + 1;
      job := Some(Job(order, 0, snapshotEpoch, now, []));
      began := ContentsOf(data);
      starts := starts + [Start(began, now)];
      Whole();
      return true;
    }

    /** abandon_snapshot: the records are never handed over. */
    method AbandonSnapshot() returns (running: bool)
      requires Valid()
      modifies `job
      ensures Valid() && running == old(job).Some? && job.None?
    {
      running := job.Some?;
      Parts();
      job := None;
      Whole();
    }

    method Wipe()
      requires Balanced()
      modifies `data, `volatile, `usedMemory, `policy, `hooks, `dirty
      ensures Balanced() && data == map[] && dirty == {}
    {
      BalanceIs(data, volatile, usedMemory, policy, hooks, dirty, limits);
      ClearTracks(policy);
      data, volatile, usedMemory, policy, hooks, dirty := map[], Empty(), 0, policy.Clear(), [], {};
      BalanceIs(data, volatile, usedMemory, policy, hooks, dirty, limits);
    }

    /** clear (FLUSHALL): a running copy is finished first. */
    method Clear()
      requires Valid()
      modifies `data, `job, `delivered, `handed, `volatile, `usedMemory, `policy, `hooks, `dirty
      ensures Valid() && Contents() == map[] && job.None? && dirty == {}
      ensures handed == old(handed) + if old(job).Some? then [Latest(starts)] else []
      ensures old(delivered) <= delivered
    {
      if job.Some? {
        var _ := Step(|job.value.keys|);
      }
      Parts();
      Wipe();
      Whole();
    }

    predicate OverLimit(extraKeys: nat)
      reads this
    {
      Over(limits, |data| + extraKeys, usedMemory)
    }

    /** The next victim: never a protected key, and under LRU the one used longest ago. */
    method NextVictim(protect: set<Key>, minute: int) returns (victim: Option<Key>)
      requires Valid() && policy.Evicts()
      ensures victim.None? ==> data.Keys <= protect
      ensures victim.Some? ==> victim.value in data && victim.value !in protect
      ensures victim.Some? && policy.Lru? ==> LeastRecent(victim.value, data.Keys, protect, hooks)
      ensures victim.Some? && dirty == {} ==>
        data[victim.value].size == limits.entrySize(victim.value, data[victim.value].content.value)
    {
      ghost var sample;
      Parts();
      victim, sample := Victim(policy, protect, minute, data.Keys, hooks);
      if victim.Some? {
        assert Settled(data, dirty, limits.entrySize, victim.value);
      }
    }

    /** One round of eviction. */
    method EvictOne(protect: set<Key>, minute: int) returns (victim: Option<Key>)
      requires Valid() && policy.Evicts()
      modifies `data, `job, `volatile, `usedMemory, `policy, `hooks
      ensures Valid() && Calm() && policy.Evicts()
      ensures victim.None? ==> data.Keys <= protect && unchanged(this)
      ensures victim.Some? ==> victim.value in old(Contents()) && victim.value !in protect
      ensures victim.Some? && policy.Lru? ==> LeastRecent(victim.value, old(data).Keys, protect, old(hooks))
      ensures victim.Some? ==> Contents() == old(Contents()) - {victim.value} && |data| + 1 == |old(data)|
      ensures victim.Some? && dirty == {} ==>
        old(usedMemory) == usedMemory + limits.entrySize(victim.value, old(Contents())[victim.value].value)
    {
      victim := NextVictim(protect, minute);
      if victim.Some? {
        Remove(victim.value);
      }
    }

    /**
     evict_if_needed: victims go one at a time until the store is under its limits
     or only protected keys are left, and not one more than needed.
     */
    method EvictIfNeeded(protect: set<Key>, minute: int) returns (evicted: seq<Key>)
      requires Valid()
      modifies `data, `job, `volatile, `usedMemory, `policy, `hooks
      ensures Valid() && Calm()
      ensures Removed(old(Contents()), Contents(), evicted) && ToSet(evicted) !! protect
      ensures policy.Evicts() <==> old(policy).Evicts()
      ensures !evictionEnabled || !policy.Evicts() ==> evicted == []
      ensures evictionEnabled && policy.Evicts() ==> !OverLimit(0) || data.Keys <= protect
      ensures evicted != [] && dirty == {} ==> LastNeeded(old(Contents()), evicted)
    {
      evicted := [];
      RemovedNone(Contents());
      if !evictionEnabled || !policy.Evicts() {
        return;
      }
      while OverLimit(0)
        invariant Valid() && Calm() && policy.Evicts()
        invariant Removed(old(Contents()), Contents(), evicted) && ToSet(evicted) !! protect
        invariant evicted != [] && dirty == {} ==> LastNeeded(old(Contents()), evicted)
        decreases |data|
      {
        ghost var now := Contents();
        var victim := EvictOne(protect, minute);
        if victim.None? {
          return;
        }
        RemovedOne(old(Contents()), now, evicted, victim.value);
        evicted := evicted + [victim.value];
      }
    }

    /** Without the last eviction the store would still be over a limit. */
    ghost predicate LastNeeded(before: map<Key, Content>, evicted: seq<Key>)
      requires evicted != []
      reads this
    {
      var last := evicted[|evicted| - 1];
      last in before && Over(limits, |data| + 1, usedMemory + limits.entrySize(last, before[last].value))
    }

    method ExpireIfDue(key: Key, now: int) returns (due: bool)
      requires Valid() && key in data
      modifies `data, `job, `volatile, `usedMemory, `policy, `hooks, `expired
      ensures Valid() && Calm()
      ensures due == old(Contents())[key].Expired(now)
      ensures due ==> Contents() == old(Contents()) - {key} && expired == old(expired) + [key]
      ensures !due ==> unchanged(this)
    {
      due := data[key].content.Expired(now);
      if due {
        Expire(key);
      }
    }

    /** One sample of active expiry: the expired keys in it go. */
    method ExpireSample(sample: seq<Key>, now: int) returns (count: nat, ghost gone: seq<Key>)
      requires Valid() && Distinct(sample) && ToSet(sample) <= Contents().Keys
      modifies `data, `job, `volatile, `usedMemory, `policy, `hooks, `expired
      ensures Valid() && Calm()
      ensures count == |gone| && expired == old(expired) + gone
      ensures Removed(old(Contents()), Contents(), gone)
      ensures ToSet(gone) == ExpiredAmong(old(Contents()), sample, now)
    {
      count, gone := 0, [];
      ghost var before := Contents();
      RemovedNone(before);
      for i := 0 to |sample|
        invariant Valid() && Calm()
        invariant count == |gone| && expired == old(expired) + gone
        invariant Removed(before, Contents(), gone)
        invariant ToSet(gone) == ExpiredAmong(before, sample[..i], now)
      {
        ghost var after := Contents();
        SampledKey(before, after, gone, sample, i, now);
        var due := ExpireIfDue(sample[i], now);
        if due {
          RemovedOne(before, after, gone, sample[i]);
          gone := gone + [sample[i]];
          count := count + 1;
        }
      }
      assert sample[..|sample|] == sample;
    }

    /** One round of active expiry. */
    method ExpireRound(sampleSize: nat, now: int) returns (count: nat, drawn: nat, ghost gone: seq<Key>)
      requires Valid()
      modifies `data, `job, `volatile, `usedMemory, `policy, `hooks, `expired
      ensures Valid() && Calm()
      ensures count == |gone| <= drawn <= sampleSize
      ensures Reported(old(Contents()), old(expired), Contents(), expired, gone, now)
      ensures |WithDeadline(old(data))| <= sampleSize ==> NoneExpired(Contents(), now)
    {
      Parts();
      var sample := Sample(volatile, sampleSize, WithDeadline(data));
      ghost var held := data;
      assert WithDeadline(data) <= Contents().Keys;
      count, gone := ExpireSample(sample, now);
      drawn := |sample|;
      FewerExpired(gone, sample);
      if |WithDeadline(held)| <= sampleSize {
        AllSampled(held, sample, gone, Contents(), now);
      }
    }

    /** Sample again while more than a quarter of the sample was expired, 16 rounds at most. */
    method ExpireRounds(sampleSize: nat, now: int) returns (total: nat, ghost gone: seq<Key>)
      requires Valid()
      modifies `data, `job, `volatile, `usedMemory, `policy, `hooks, `expired
      ensures Valid() && Calm()
      ensures total == |gone| && Reported(old(Contents()), old(expired), Contents(), expired, gone, now)
      ensures |WithDeadline(old(data))| <= sampleSize ==> NoneExpired(Contents(), now)
    {
      total, gone := 0, [];
      ghost var before, log, few := Contents(), expired, |WithDeadline(data)| <= sampleSize;
      RemovedNone(before);
      for round := 0 to MAX_EXPIRY_ROUNDS
        invariant Valid() && Calm()
        invariant total == |gone| && Reported(before, log, Contents(), expired, gone, now)
        invariant if round == 0 then data == old(data) else few ==> NoneExpired(Contents(), now)
      {
        ghost var mid, log1 := Contents(), expired;
        var count, drawn, more := ExpireRound(sampleSize, now);
        ReportedMore(before, log, mid, log1, gone, Contents(), expired, more, now);
        total, gone := total + count, gone + more;
        if drawn == 0 || count * 4 <= drawn {
          break;
        }
      }
    }

    /** expire_cycle: active expiry, which a replica leaves to its primary. */
    method ExpireCycle(sampleSize: nat, now: int) returns (total: nat, ghost gone: seq<Key>)
      requires Valid()
      modifies `data, `job, `volatile, `usedMemory, `policy, `hooks, `expired
      ensures Valid() && Calm()
      ensures total == |gone| && Reported(old(Contents()), old(expired), Contents(), expired, gone, now)
      ensures !expiryDeletes ==> gone == []
      ensures expiryDeletes && |WithDeadline(old(data))| <= sampleSize ==> NoneExpired(Contents(), now)
    {
      total, gone := 0, [];
      RemovedNone(Contents());
      if expiryDeletes {
        total, gone := ExpireRounds(sampleSize, now);
      }
    }

    method RemoveAll(stale: set<Key>) returns (count: nat, ghost gone: seq<Key>)
      requires Valid() && stale <= Contents().Keys
      modifies `data, `job, `volatile, `usedMemory, `policy, `hooks
      ensures Valid() && Calm()
      ensures count == |gone| && Removed(old(Contents()), Contents(), gone) && ToSet(gone) == stale
    {
      count, gone := 0, [];
      var left := stale;
      ghost var before := Contents();
      RemovedNone(before);
      while left != {}
        invariant Valid() && Calm()
        invariant count == |gone| && Removed(before, Contents(), gone)
        invariant ToSet(gone) == stale - left && left <= stale
        decreases left
      {
        var key :| key in left;
        ghost var after := Contents();
        assert key in after;
        Remove(key);
        RemovedOne(before, after, gone, key);
        gone := gone + [key];
        left, count := left - {key}, count + 1;
      }
    }

    /** purge_expired: every expired key goes, and none of this is reported. */
    method PurgeExpired(now: int) returns (count: nat, ghost gone: seq<Key>)
      requires Valid()
      modifies `data, `job, `volatile, `usedMemory, `policy, `hooks
      ensures Valid() && Calm()
      ensures count == |gone| && Expiry(old(Contents()), Contents(), gone, now) && NoneExpired(Contents(), now)
    {
      Parts();
      assert forall k :: k in volatile.index <==> k in WithDeadline(data);
      var stale := set k | k in volatile.index && k in data && data[k].content.Expired(now);
      count, gone := RemoveAll(stale);
    }

    /** snapshot: the copy of every live key in one go. */
    method Snapshot(now: int) returns (records: seq<SnapshotRecord>)
      requires Valid()
      ensures Exact(Contents(), now, records)
    {
      records := [];
      var left := data.Keys;
      while left != {}
        invariant left <= data.Keys && DistinctKeys(records)
        invariant forall r :: r in records <==>
          r.key in Contents() && r.key !in left && r.content == Contents()[r.key] && !r.content.Expired(now)
        decreases left
      {
        var key :| key in left;
        if !data[key].content.Expired(now) {
          records := records + [SnapshotRecord(key, data[key].content)];
        }
        left := left - {key};
      }
    }

    /**
     write_target: the collection at the key, of the kind of empty, made empty if there is none.
     It changes in place until refresh.
     */
    method WriteTarget(key: Key, empty: Value, now: int, minute: int, lucky: bool)
      returns (target: Result<Value, string>)
      requires Valid() && !Waiting(key) && empty.IsEmpty()
      requires Dead(key, now) ==> expiryDeletes
      modifies `data, `job, `volatile, `usedMemory, `policy, `hooks, `expired, `dirty
      ensures Valid() && Calm()
      ensures target == Target(old(Contents()), key, old(Dead(key, now)), empty)
      ensures Contents() ==
        if key in old(data) && !old(Dead(key, now)) then old(Contents())
          else old(Contents())[key := Content(empty, None)]
      ensures expired == old(expired) + if old(Dead(key, now)) then [key] else []
      ensures old(dirty) - {key} <= dirty <= old(dirty) + {key}
    {
      var found := Lookup(key, now);
      if found.Some? {
        if !found.value.value.SameKind(empty) {
          return Err(WRONG_TYPE);
        }
        Touch(key, minute, lucky);
        return Ok(found.value.value);
      }
      Write(key, Content(empty, None), minute, lucky);
      return Ok(empty);
    }

    /** load_record: a key as a snapshot holds it. */
    method LoadRecord(record: SnapshotRecord, now: int, minute: int, lucky: bool)
      requires Valid() && job.None? && !expiryEnabled && record.key !in dirty && !record.content.value.IsEmpty()
      modifies `data, `job, `volatile, `usedMemory, `policy, `hooks, `expired, `dirty
      ensures Valid() && job.None? && dirty == old(dirty) && expired == old(expired)
      ensures Contents() == old(Contents())[record.key := record.content]
    {
      Set(record.key, record.content.value, false, now, minute, lucky);
      if record.content.expiresAt.Some? {
        assert Contents()[record.key].value == record.content.value;
        var _ := SetExpiry(record.key, record.content.expiresAt.value, now);
      }
    }

    // ------------------------------------------------------------- commands

    /** The barrier has been passed for these keys. */
    ghost predicate Guarded(keys: seq<Key>)
      reads this
    {
      forall k :: k in keys ==> !Waiting(k)
    }

    twostate lemma StaysGuarded(keys: seq<Key>)
      requires old(Guarded(keys)) && Calm()
      ensures Guarded(keys)
    {
      forall k | k in keys
        ensures !Waiting(k)
      {
        assert old(!Waiting(k));
      }
    }

    method Guard(keys: seq<Key>)
      requires Valid()
      modifies `data, `job
      ensures Valid() && Contents() == old(Contents()) && Guarded(keys) && Calm()
    {
      for i := 0 to |keys|
        invariant Valid() && Contents() == old(Contents()) && Guarded(keys[..i]) && Calm()
      {
        label L:
        Barrier(keys[i]);
        StaysGuarded@L(keys[..i]);
        assert keys[..i + 1] == keys[..i] + [keys[i]];
      }
      assert keys[..|keys|] == keys;
    }

    /** What there is to see. */
    ghost function Seen(): View
      reads this
    {
      View(Contents(), Mode(expiryEnabled, expiryDeletes), Left(job), starts, handed)
    }

    /** A calm change shows in the keys only. */
    twostate lemma KeepsView(gone: set<Key>)
      requires Calm() && unchanged(`starts) && unchanged(`handed) && unchanged(`expiryEnabled) &&
        unchanged(`expiryDeletes)
      requires Contents() == old(Contents()) - gone
      ensures Seen() == old(Seen()).(contents := old(Contents()) - gone)
    {
    }

    method Update(key: Key, empty: Value, result: Value, now: int, minute: int, lucky: bool)
      requires Valid() && !Waiting(key) && empty.IsEmpty() && (Dead(key, now) ==> expiryDeletes)
      modifies `data, `job, `volatile, `usedMemory, `policy, `hooks, `expired, `dirty
      ensures Valid() && Calm() && dirty <= old(dirty) + {key}
      ensures Contents() ==
        Updated(old(Contents()), key, key in old(data) && !old(Dead(key, now)), empty, result)
    {
      var target := WriteTarget(key, empty, now, minute, lucky);
      if target.Ok? {
        assert key in Contents();
        Amend(key, data[key].content.(value := result));
      }
    }

    /** One operation of a handler on one key. */
    method PerformOn(op: Op, now: int, minute: int, lucky: bool)
      requires Valid() && !op.Flushing? && (op.Reading? || !Waiting(op.key))
      requires (expiryDeletes || !expiryEnabled || op.Reading?) && (op.Updating? ==> op.empty.IsEmpty())
      modifies `data, `job, `volatile, `usedMemory, `policy, `hooks, `expired, `dirty
      ensures Valid() && Calm() && dirty <= old(dirty) + if op.Reading? then {} else {op.key}
      ensures Contents() == After(old(Contents()), op, now, Mode(expiryEnabled, expiryDeletes))
    {
      match op {
        case Reading(key) =>
          var _ := Get(key, now, minute, lucky);
        case Setting(key, value, keepTtl) =>
          Set(key, value, keepTtl, now, minute, lucky);
        case Deleting(key) =>
          var _ := Delete(key, now);
        case Expiring(key, at) =>
          var _ := SetExpiry(key, at, now);
        case Persisting(key) =>
          var _ := Persist(key, now);
        case Updating(key, empty, result) =>
          Update(key, empty, result, now, minute, lucky);
      }
    }

    /** One operation of a handler. */
    method Perform(op: Op, now: int, minute: int, lucky: bool)
      requires Valid() && (op.Flushing? || op.Reading? || !Waiting(op.key))
      requires (expiryDeletes || !expiryEnabled || op.Reading?) && (op.Updating? ==> op.empty.IsEmpty())
      modifies `data, `job, `delivered, `handed, `volatile, `usedMemory, `policy, `hooks, `expired, `dirty
      ensures Valid() && dirty <= old(dirty) + if op.Flushing? || op.Reading? then {} else {op.key}
      ensures (Calm() || job.None?) && old(delivered) <= delivered && Seen() == Done(old(Seen()), op, now)
    {
      if op.Flushing? {
        Clear();
      } else {
        PerformOn(op, now, minute, lucky);
      }
    }

    method PerformAll(keys: seq<Key>, ops: seq<Op>, now: int, minute: int, lucky: bool)
      requires Valid() && Guarded(keys) && dirty <= ToSet(keys)
      requires AllWithin(ops, keys) && (expiryDeletes || !expiryEnabled || AllReading(ops))
      modifies `data, `job, `delivered, `handed, `volatile, `usedMemory, `policy, `hooks, `expired, `dirty
      ensures Valid() && Guarded(keys) && dirty <= ToSet(keys) && old(delivered) <= delivered
      ensures AllReading(ops) ==> dirty <= old(dirty)
      ensures Seen() == AllDone(old(Seen()), ops, |ops|, now)
    {
      for i := 0 to |ops|
        invariant Valid() && Guarded(keys) && dirty <= ToSet(keys) && old(delivered) <= delivered
        invariant AllReading(ops) ==> dirty <= old(dirty)
        invariant Seen() == AllDone(old(Seen()), ops, i, now)
      {
        label L:
        assert ops[i].Within(keys);
        Perform(ops[i], now, minute, lucky);
        if job.Some? {
          StaysGuarded@L(keys);
        }
      }
    }

    /** The sizes of these keys are accounted again, and emptied collections go. */
    method RefreshAll(keys: seq<Key>)
      requires Valid() && Guarded(keys) && dirty <= ToSet(keys)
      modifies `data, `job, `volatile, `usedMemory, `policy, `hooks, `dirty
      ensures Valid() && Guarded(keys) && dirty == {}
      ensures Seen() == old(Seen()).(contents := Swept(old(Contents()), keys))
    {
      ghost var before := Contents();
      for i := 0 to |keys|
        invariant Valid() && Guarded(keys) && dirty <= ToSet(keys[i..])
        invariant Seen() == old(Seen()).(contents := Swept(before, keys[..i]))
      {
        label L:
        SweptOne(before, keys, i);
        Refresh(keys[i]);
        StaysGuarded@L(keys);
        assert keys[i..] == [keys[i]] + keys[i + 1..];
      }
      assert keys[..|keys|] == keys;
    }

    /** _run: the handler, as far as it gets, and the accounting of the command's keys. */
    method RunHandler(keys: seq<Key>, ops: seq<Op>, now: int, minute: int, lucky: bool)
      requires Valid() && Guarded(keys) && dirty == {} && AllWithin(ops, keys) && (expiryDeletes || !expiryEnabled)
      modifies `data, `job, `delivered, `handed, `volatile, `usedMemory, `policy, `hooks, `expired, `dirty
      ensures Valid() && dirty == {} && old(delivered) <= delivered
      ensures Seen() == Written(old(Seen()), keys, ops, now)
    {
      PerformAll(keys, ops, now, minute, lucky);
      RefreshAll(keys);
    }

    /** peek: a lookup that does not count as a use. */
    method Peek(key: Key, now: int) returns (found: bool)
      requires Valid() && (expiryDeletes || !expiryEnabled)
      modifies `data, `job, `volatile, `usedMemory, `policy, `hooks, `expired
      ensures Valid() && Calm() && (found <==> key in data)
      ensures Seen() ==
        old(Seen()).(contents := Reaped(old(Contents()), key, now, Mode(expiryEnabled, expiryDeletes)))
      ensures data.Keys <= old(data.Keys) <= data.Keys + {key}
    {
      var content := Lookup(key, now);
      found := content.Some?;
      assert data.Keys == Contents().Keys && old(data.Keys) == old(Contents()).Keys;
    }

    /** How many of the keys are not there, each looked up once. */
    method Review(keys: seq<Key>, now: int) returns (missing: nat)
      requires Valid() && (expiryDeletes || !expiryEnabled)
      modifies `data, `job, `volatile, `usedMemory, `policy, `hooks, `expired
      ensures Valid() && Calm() && Seen() == Reviewed(old(Seen()), keys, now)
      ensures missing == |ToSet(keys) - data.Keys|
    {
      missing := 0;
      ReviewedNone(Seen(), now);
      for i := 0 to |keys|
        invariant Valid() && Calm() && Seen() == Reviewed(old(Seen()), keys[..i], now)
        invariant missing == |ToSet(keys[..i]) - data.Keys|
      {
        missing := ReviewNext(keys, i, now, old(Seen()), missing);
      }
      assert keys[..|keys|] == keys;
    }

    method ReviewNext(keys: seq<Key>, i: nat, now: int, ghost before: View, count: nat) returns (missing: nat)
      requires Valid() && (expiryDeletes || !expiryEnabled) && i < |keys|
      requires Seen() == Reviewed(before, keys[..i], now) && count == |ToSet(keys[..i]) - data.Keys|
      modifies `data, `job, `volatile, `usedMemory, `policy, `hooks, `expired
      ensures Valid() && Calm() && Seen() == Reviewed(before, keys[..i + 1], now)
      ensures missing == |ToSet(keys[..i + 1]) - data.Keys|
    {
      missing := count;
      ReviewedOne(before, keys, i, now);
      if keys[i] !in keys[..i] {
        var found := Peek(keys[i], now);
        CountMissing(keys[..i], keys[i], old(data.Keys), data.Keys);
        missing := count + if found then 0 else 1;
      }
    }

    /** What the keyspace weighs is what is accounted, once every change is. */
    lemma Weighed()
      requires Valid() && dirty == {}
      ensures usedMemory == Weight(Contents(), limits.entrySize) && |data| == |Contents()|
    {
      Parts();
      var m := Contents();
      assert m.Keys == data.Keys;
      forall k | k in data
        ensures data[k].size == limits.entrySize(k, m[k].value)
      {
        assert Settled(data, dirty, limits.entrySize, k);
      }
      SameTotal(data, map k | k in m :: Entry(m[k], limits.entrySize(k, m[k].value), 0));
    }

    /** The check of a command that may add data, where nothing is evicted to make room. */
    method Admit(keys: seq<Key>, now: int) returns (admitted: bool)
      requires Valid() && dirty == {} && (expiryDeletes || !expiryEnabled) && !limits.evicts
      modifies `data, `job, `volatile, `usedMemory, `policy, `hooks, `expired
      ensures Valid() && Calm() && Seen() == Reviewed(old(Seen()), keys, now)
      ensures admitted <==> !Refuses(limits, old(Seen()), keys, now)
    {
      var missing := Review(keys, now);
      Weighed();
      assert data.Keys == Contents().Keys;
      admitted := !OverLimit(missing);
    }

    /** The barrier for the command's keys, and the check for room. */
    method Prepare(c: Request, now: int) returns (admitted: bool)
      requires Valid() && dirty == {} && (expiryDeletes || !expiryEnabled)
      modifies `data, `job, `volatile, `usedMemory, `policy, `hooks, `expired
      ensures Valid() && Guarded(c.keys)
      ensures admitted <==> !(c.denyOom && Refuses(limits, old(Seen()), c.keys, now))
      ensures Seen() == if c.denyOom && !limits.evicts then Reviewed(old(Seen()), c.keys, now) else old(Seen())
    {
      Guard(c.keys);
      assert Seen() == old(Seen());
      admitted := true;
      if c.denyOom && !Evicting() {
        label L:
        admitted := Admit(c.keys, now);
        StaysGuarded@L(c.keys);
      }
    }

    /**
     execute: copy-on-write for the command's keys, the check for room, its handler, and, unless that
     failed, eviction, which spares those keys.
     */
    method Execute(c: Request, now: int, minute: int, lucky: bool) returns (admitted: bool, evicted: seq<Key>)
      requires Valid() && dirty == {} && c.write && c.Proper() && (expiryDeletes || !expiryEnabled)
      modifies `data, `job, `delivered, `handed, `volatile, `usedMemory, `policy, `hooks, `expired, `dirty
      ensures Valid() && dirty == {} && old(delivered) <= delivered
      ensures admitted <==> !(c.denyOom && Refuses(limits, old(Seen()), c.keys, now))
      ensures Seen() == Lacking(Ran(limits, c, now, old(Seen())), evicted) && ToSet(c.keys) !! ToSet(evicted)
      ensures !limits.evicts || c.fails ==> evicted == []
      ensures evictionEnabled && limits.evicts && !c.fails ==> !OverLimit(0) || data.Keys <= ToSet(c.keys)
    {
      admitted := Prepare(c, now);
      evicted := [];
      if admitted {
        RunHandler(c.keys, c.ops, now, minute, lucky);
      }
      LackingNone(Seen());
      if admitted && !c.fails {
        evicted := Evict(ToSet(c.keys), minute);
      }
    }

    /** The policy is one that evicts. */
    predicate Evicting()
      reads this
      requires Valid()
      ensures Evicting() == limits.evicts
    {
      Parts();
      policy.Evicts()
    }

    method Evict(protect: set<Key>, minute: int) returns (evicted: seq<Key>)
      requires Valid()
      modifies `data, `job, `volatile, `usedMemory, `policy, `hooks
      ensures Valid() && Seen() == Lacking(old(Seen()), evicted) && protect !! ToSet(evicted)
      ensures !limits.evicts ==> evicted == []
      ensures evictionEnabled && limits.evicts ==> !OverLimit(0) || data.Keys <= protect
    {
      Parts();
      evicted := EvictIfNeeded(protect, minute);
      KeepsView(ToSet(evicted));
    }

    /** apply_replicated: a command from the primary, without looking at deadlines and without eviction. */
    method ApplyReplicated(keys: seq<Key>, ops: seq<Op>, now: int, minute: int, lucky: bool)
      requires Valid() && dirty == {} && AllWithin(ops, keys)
      modifies `data, `job, `delivered, `handed, `volatile, `usedMemory, `policy, `hooks, `expired, `dirty,
        `expiryEnabled, `expiryDeletes
      ensures Valid() && dirty == {} && old(delivered) <= delivered
      ensures Becomes(limits, Streamed(keys, ops), now, [], old(Seen()), Seen())
    {
      var expiry := expiryEnabled;
      SetMode(false, expiryDeletes);
      Guard(keys);
      RunHandler(keys, ops, now, minute, lucky);
      SetMode(expiry, expiryDeletes);
    }

    method SetMode(enabled: bool, deletes: bool)
      requires Valid()
      modifies `expiryEnabled, `expiryDeletes
      ensures Valid() && expiryEnabled == enabled && expiryDeletes == deletes
    {
      Parts();
      expiryEnabled, expiryDeletes := enabled, deletes;
      Whole();
    }

    method SetRole(primary: bool, ghost now: int)
      requires Valid()
      modifies `expiryDeletes
      ensures Valid() && Becomes(limits, Role(primary), now, [], old(Seen()), Seen())
    {
      Parts();
      expiryDeletes := primary;
      Whole();
    }

    /** A client's command; one that writes is refused where keys past their deadline only hide. */
    method Serve(c: Request, now: int, minute: int, lucky: bool) returns (ghost gone: seq<Key>)
      requires Valid() && dirty == {} && c.Proper()
      modifies `data, `job, `delivered, `handed, `volatile, `usedMemory, `policy, `hooks, `expired, `dirty
      ensures Valid() && dirty == {} && old(delivered) <= delivered
      ensures Becomes(limits, Command(c), now, gone, old(Seen()), Seen())
    {
      gone := [];
      if !c.write {
        PerformAll([], c.ops, now, minute, lucky);
      } else if expiryDeletes || !expiryEnabled {
        var _, evicted := Execute(c, now, minute, lucky);
        gone := evicted;
      }
    }

    /** Copies are begun, taken a slice at a time and abandoned. */
    method HandleCopy(event: Event, now: int)
      requires Valid() && (event.Begin? || event.Slice? || event.Abandon?)
      modifies `data, `job, `delivered, `handed, `snapshotEpoch, `began, `starts
      ensures Valid() && old(delivered) <= delivered && Becomes(limits, event, now, [], old(Seen()), Seen())
    {
      match event {
        case Begin =>
          var order := Listed(data.Keys);
          assert Contents().Keys == data.Keys;
          var _ := BeginSnapshot(order, now);
        case Slice(maxKeys) =>
          Parts();
          var _ := Step(maxKeys);
        case Abandon =>
          var _ := AbandonSnapshot();
      }
    }

    method ActiveCycle(sampleSize: nat, now: int) returns (ghost gone: seq<Key>)
      requires Valid()
      modifies `data, `job, `volatile, `usedMemory, `policy, `hooks, `expired
      ensures Valid() && Becomes(limits, ActiveExpiry(sampleSize), now, gone, old(Seen()), Seen())
    {
      var _, expired := ExpireCycle(sampleSize, now);
      gone := expired;
      KeepsView(ToSet(gone));
    }

    /** One event: what is seen becomes what the event makes of it. */
    method Handle(event: Event, now: int, minute: int, lucky: bool) returns (ghost gone: seq<Key>)
      requires Valid() && dirty == {} && event.Proper()
      modifies this
      ensures Valid() && dirty == {} && old(delivered) <= delivered
      ensures Becomes(limits, event, now, gone, old(Seen()), Seen())
    {
      gone := [];
      match event {
        case Command(c) =>
          gone := Serve(c, now, minute, lucky);
        case Streamed(keys, ops) =>
          ApplyReplicated(keys, ops, now, minute, lucky);
        case ActiveExpiry(sampleSize) =>
          gone := ActiveCycle(sampleSize, now);
        case Role(primary) =>
          SetRole(primary, now);
        case _ =>
          HandleCopy(event, now);
      }
    }

    /**
     Every interleaving of commands, streamed commands, active expiry, changes of role, and copies
     begun, taken in slices and abandoned: the books balance after each; every view is what the event
     makes of the one before; and every copy handed over is exactly the keyspace that it was begun on,
     in the order they were begun.
     */
    method Run(events: seq<Event>, clock: seq<int>, coins: seq<bool>)
      returns (ghost gone: seq<seq<Key>>, ghost trace: seq<View>)
      requires Valid() && dirty == {}
      requires |clock| == |events| == |coins| && forall i :: 0 <= i < |events| ==> events[i].Proper()
      modifies this
      ensures Valid() && dirty == {} && |gone| == |events| && AllBecome(limits, events, clock, gone, trace)
      ensures trace[0] == old(Seen()) && trace[|events|] == Seen()
      ensures usedMemory == TotalSize(data) && volatile.Holds(WithDeadline(data)) && policy.Tracks(data.Keys)
      ensures forall k :: k in Contents() ==> !Contents()[k].value.IsEmpty()
      ensures |delivered| == |handed| && Ascending(handed)
      ensures forall i :: 0 <= i < |handed| ==>
        handed[i] < |starts| && Exact(starts[handed[i]].contents, starts[handed[i]].now, delivered[i].records)
    {
      gone, trace := [], [Seen()];
      for i := 0 to |events|
        invariant Valid() && dirty == {} && |gone| == i && AllBecome(limits, events, clock, gone, trace)
        invariant trace[0] == old(Seen()) && trace[i] == Seen()
      {
        ghost var more;
        more := Handle(events[i], clock[i], clock[i] / 60000, coins[i]);
        AllBecomeOn(limits, events, clock, gone, trace, more, Seen());
        gone, trace := gone + [more], trace + [Seen()];
      }
      Parts();
      forall k | k in Contents()
        ensures !Contents()[k].value.IsEmpty()
      {
        assert Settled(data, dirty, limits.entrySize, k);
      }
      forall i | 0 <= i < |handed|
        ensures handed[i] < |starts| && Exact(starts[handed[i]].contents, starts[handed[i]].now, delivered[i].records)
      {
        assert ExactDelivery(delivered[i]) && CopyOf(delivered[i], starts[handed[i]]);
      }
    }
  }
}
