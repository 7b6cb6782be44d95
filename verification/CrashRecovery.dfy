/**
 A node's persistence files: the manifest, the snapshot and the append-only
 files it names, and what a start finds in them after a crash at any point.
 */
module CrashRecovery {
  import opened Effects
  import opened Equivalence
  import opened Sequences
  import opened Values
  import opened Wrappers

  type Log = seq<Record>
  type Files = map<nat, seq<Record>>

  lemma Assoc(a: Log, b: Log, c: Log)
    ensures a + (b + c) == a + b + c
  {
  }

  // ---------------------------------------------------------------- files

  /** Which files are current: a snapshot generation, if any, and the AOF generations in order. */
  datatype Manifest = Manifest(snapshot: Option<nat>, aofs: seq<nat>)

  /** The records of the listed AOFs, in order; a missing file is empty. */
  function Records(files: Files, aofs: seq<nat>): Log {
    if aofs == [] then [] else Records(files, aofs[..|aofs| - 1]) + FileOf(files, aofs[|aofs| - 1])
  }

  function FileOf(files: Files, g: nat): Log {
    if g in files then files[g] else []
  }

  lemma AscendingInit(aofs: seq<nat>)
    requires Ascending(aofs) && aofs != []
    ensures var init, last := aofs[..|aofs| - 1], aofs[|aofs| - 1];
      Ascending(init) && (forall g :: g in aofs <==> g in init || g == last) && forall g :: g in init ==> g < last
  {
    var init, last := aofs[..|aofs| - 1], aofs[|aofs| - 1];
    assert aofs == init + [last];
    forall g | g in init
      ensures g < last
    {
      var i :| 0 <= i < |init| && init[i] == g;
      assert aofs[i] < aofs[|init|];
    }
  }

  lemma {:induction false} RecordsSame(files: Files, files': Files, aofs: seq<nat>)
    requires forall g :: g in aofs ==> FileOf(files', g) == FileOf(files, g)
    ensures Records(files', aofs) == Records(files, aofs)
  {
    if aofs != [] {
      assert aofs[|aofs| - 1] in aofs;
      RecordsSame(files, files', aofs[..|aofs| - 1]);
    }
  }

  ghost predicate EmptyAfter(files: Files, g: nat) {
    forall h: nat :: h > g ==> FileOf(files, h) == []
  }

  lemma EmptyAfterKept(files: Files, g: nat, w: nat, records: Log)
    requires EmptyAfter(files, g) && (w <= g || records == [])
    ensures EmptyAfter(files[w := records], g)
  {
    var files' := files[w := records];
    forall h: nat | h > g
      ensures FileOf(files', h) == []
    {
      assert FileOf(files, h) == [];
    }
  }

  lemma RecordsElsewhere(files: Files, aofs: seq<nat>, w: nat, records: Log)
    requires w !in aofs
    ensures Records(files[w := records], aofs) == Records(files, aofs)
  {
    forall g | g in aofs
      ensures FileOf(files[w := records], g) == FileOf(files, g)
    {
    }
    RecordsSame(files, files[w := records], aofs);
  }

  /** Bytes reach the file of generation w; the later files are empty, so the log grows at its end. */
  lemma {:induction false} RecordsGrow(files: Files, aofs: seq<nat>, w: nat, more: Log)
    requires Ascending(aofs) && w in aofs && EmptyAfter(files, w)
    ensures Records(files[w := FileOf(files, w) + more], aofs) == Records(files, aofs) + more
  {
    var init, last := aofs[..|aofs| - 1], aofs[|aofs| - 1];
    AscendingInit(aofs);
    var files' := files[w := FileOf(files, w) + more];
    if last == w {
      RecordsElsewhere(files, init, w, FileOf(files, w) + more);
      calc {
        Records(files', aofs);
      ==
        Records(files, init) + (FileOf(files, w) + more);
      == { Assoc(Records(files, init), FileOf(files, w), more); }
        Records(files, aofs) + more;
      }
    } else {
      RecordsGrow(files, init, w, more);
      assert FileOf(files, last) == [] && FileOf(files', last) == [];
    }
  }

  /** Listing one more, empty, file adds no record. */
  lemma RecordsListed(files: Files, aofs: seq<nat>, g: nat)
    requires FileOf(files, g) == []
    ensures Records(files, aofs + [g]) == Records(files, aofs)
  {
    assert (aofs + [g])[..|aofs|] == aofs;
  }

  lemma RecordsUpTo(files: Files, aofs: seq<nat>, i: nat)
    requires i < |aofs|
    ensures Records(files, aofs[..i + 1]) == Records(files, aofs[..i]) + FileOf(files, aofs[i])
  {
    assert aofs[..i + 1][..i] == aofs[..i];
  }

  lemma RecordsOne(files: Files, g: nat)
    ensures Records(files, [g]) == FileOf(files, g)
  {
    assert [g][..0] == [];
    assert Records(files, []) == [];
  }

  // ------------------------------------------------------------------ state

  /** A snapshot file being written by the background thread. */
  datatype Job = Job(generation: nat, copy: Keys, status: Status)
  datatype Status = Writing | Written | Failed

  /** What the disk holds: the manifest, the whole records of each AOF, and the complete snapshots. */
  datatype Disk = Disk(saved: Option<Manifest>, files: Files, snaps: map<nat, Keys>)

  /** The keyspace at the last start, and every record that has reached the disk since. */
  datatype Past = Past(origin: Keys, synced: Log)

  function Last(m: Manifest): nat {
    if m.aofs == [] then 0 else m.aofs[|m.aofs| - 1]
  }

  /** The last file listed on disk; the first start lists file 1. */
  function LastListed(d: Disk): nat {
    if d.saved.None? || d.saved.value.aofs == [] then 1 else Last(d.saved.value)
  }

  function Loaded(m: Manifest, snaps: map<nat, Keys>): Keys {
    if m.snapshot.Some? && m.snapshot.value in snaps then snaps[m.snapshot.value] else map[]
  }

  /** The two logs, each over its base, give the same live keys. */
  ghost predicate Match(n: Numbers, base: Keys, records: Log, origin: Keys, history: Log, t: int) {
    && Replay(n, base, records).Ok? && Replay(n, origin, history).Ok?
    && Same(Replay(n, base, records).value, Replay(n, origin, history).value, t)
  }

  /** The records over the base stand for what has reached the disk, and will, however much of the buffer gets out. */
  ghost predicate Agrees(n: Numbers, base: Keys, records: Log, past: Past, buffer: Log, t: int) {
    forall i :: 0 <= i <= |buffer| ==> Match(n, base, records + buffer[..i], past.origin, past.synced + buffer[..i], t)
  }

  /** Of the keys the records leave, memory lacks only stale ones. */
  ghost predicate Within(n: Numbers, base: Keys, records: Log, past: Past, buffer: Log, stale: set<Key>) {
    && Replay(n, base, records + buffer).Ok? && Replay(n, past.origin, past.synced + buffer).Ok?
    && Replay(n, base, records + buffer).value.Keys <= Replay(n, past.origin, past.synced + buffer).value.Keys + stale
  }

  lemma AgreesAt(n: Numbers, base: Keys, records: Log, past: Past, buffer: Log, t: int, i: nat)
    requires Agrees(n, base, records, past, buffer, t) && i <= |buffer|
    ensures Match(n, base, records + buffer[..i], past.origin, past.synced + buffer[..i], t)
  {
  }

  lemma AgreesNow(n: Numbers, base: Keys, records: Log, past: Past, buffer: Log, t: int)
    requires Agrees(n, base, records, past, buffer, t)
    ensures Match(n, base, records, past.origin, past.synced, t)
    ensures Match(n, base, records + buffer, past.origin, past.synced + buffer, t)
  {
    AgreesAt(n, base, records, past, buffer, t, 0);
    AgreesAt(n, base, records, past, buffer, t, |buffer|);
    assert records + buffer[..0] == records && past.synced + buffer[..0] == past.synced;
    assert buffer[..|buffer|] == buffer;
  }

  lemma AgreesLater(n: Numbers, base: Keys, records: Log, past: Past, buffer: Log, t: int, later: int)
    requires Agrees(n, base, records, past, buffer, t) && t <= later
    ensures Agrees(n, base, records, past, buffer, later)
  {
    forall i | 0 <= i <= |buffer|
      ensures Match(n, base, records + buffer[..i], past.origin, past.synced + buffer[..i], later)
    {
      AgreesAt(n, base, records, past, buffer, t, i);
      SameLater(Replay(n, base, records + buffer[..i]).value, Replay(n, past.origin, past.synced + buffer[..i]).value,
                t, later);
    }
  }

  function Later(past: Past, more: Log): Past {
    past.(synced := past.synced + more)
  }

  lemma Regroup(records: Log, buffer: Log, k: nat, i: nat)
    requires k + i <= |buffer|
    ensures (records + buffer[..k]) + buffer[k..][..i] == records + buffer[..k + i]
  {
  }

  /** Part of the buffer gets out. */
  lemma AgreesSpilled(n: Numbers, base: Keys, records: Log, past: Past, buffer: Log, t: int, k: nat)
    requires Agrees(n, base, records, past, buffer, t) && k <= |buffer|
    ensures Agrees(n, base, records + buffer[..k], Later(past, buffer[..k]), buffer[k..], t)
  {
    forall i | 0 <= i <= |buffer[k..]|
      ensures Match(n, base, (records + buffer[..k]) + buffer[k..][..i], past.origin,
                    (past.synced + buffer[..k]) + buffer[k..][..i], t)
    {
      AgreesAt(n, base, records, past, buffer, t, k + i);
      Regroup(records, buffer, k, i);
      Regroup(past.synced, buffer, k, i);
    }
  }

  lemma WithinSpilled(n: Numbers, base: Keys, records: Log, past: Past, buffer: Log, stale: set<Key>, k: nat)
    requires Within(n, base, records, past, buffer, stale) && k <= |buffer|
    ensures Within(n, base, records + buffer[..k], Later(past, buffer[..k]), buffer[k..], stale)
  {
    Regroup(records, buffer, k, |buffer| - k);
    Regroup(past.synced, buffer, k, |buffer| - k);
    assert buffer[k..][..|buffer| - k] == buffer[k..] && buffer[..k + (|buffer| - k)] == buffer;
  }

  /** The buffer is lost. */
  lemma AgreesLost(n: Numbers, base: Keys, records: Log, past: Past, buffer: Log, t: int)
    requires Agrees(n, base, records, past, buffer, t)
    ensures Agrees(n, base, records, past, [], t)
  {
    AgreesNow(n, base, records, past, buffer, t);
    assert records + [] == records && past.synced + [] == past.synced;
  }

  function Unstale(stale: set<Key>, e: Record): set<Key> {
    if e.FlushAll? then {} else stale - e.Touched()
  }

  /** What an engine logs: it ran in memory, and it reads no key past its deadline or purged at the start. */
  predicate Loggable(n: Numbers, memory: Keys, stale: set<Key>, t: int, e: Record) {
    && Apply(n, memory, e).Ok?
    && (e.Blind() || (if e.key in memory then !memory[e.key].Expired(t) else e.key !in stale))
  }

  lemma StepTogether(n: Numbers, a: Keys, b: Keys, t: int, stale: set<Key>, e: Record) returns (a': Keys, b': Keys)
    requires Same(a, b, t) && a.Keys <= b.Keys + stale && Loggable(n, b, stale, t, e)
    ensures Apply(n, a, e) == Ok(a') && Apply(n, b, e) == Ok(b')
    ensures Same(a', b', t) && a'.Keys <= b'.Keys + Unstale(stale, e)
  {
    SameApply(n, a, b, t, e);
    OnlyOnes(n, a, b, t, e);
    a', b' := Apply(n, a, e).value, Apply(n, b, e).value;
    assert a.Keys - b.Keys <= stale;
    forall k | k in a'.Keys
      ensures k in b'.Keys + Unstale(stale, e)
    {
      assert k in b'.Keys || k in a'.Keys - b'.Keys;
    }
  }

  /** One more record is logged. */
  lemma MatchMore(n: Numbers, base: Keys, records: Log, past: Past, buffer: Log, t: int, stale: set<Key>, e: Record)
    requires Match(n, base, records + buffer, past.origin, past.synced + buffer, t)
    requires Within(n, base, records, past, buffer, stale)
    requires Loggable(n, Replay(n, past.origin, past.synced + buffer).value, stale, t, e)
    ensures Match(n, base, records + (buffer + [e]), past.origin, past.synced + (buffer + [e]), t)
    ensures Within(n, base, records, past, buffer + [e], Unstale(stale, e))
    ensures Replay(n, past.origin, past.synced + (buffer + [e])) ==
      Apply(n, Replay(n, past.origin, past.synced + buffer).value, e)
  {
    var a, b := Replay(n, base, records + buffer).value, Replay(n, past.origin, past.synced + buffer).value;
    var a', b' := StepTogether(n, a, b, t, stale, e);
    Assoc(records, buffer, [e]);
    Assoc(past.synced, buffer, [e]);
    ReplayStep(n, base, records + buffer, e);
    ReplayStep(n, past.origin, past.synced + buffer, e);
  }

  lemma AgreesMore(n: Numbers, base: Keys, records: Log, past: Past, buffer: Log, t: int, stale: set<Key>, e: Record)
    requires Agrees(n, base, records, past, buffer, t) && Within(n, base, records, past, buffer, stale)
    requires Loggable(n, Replay(n, past.origin, past.synced + buffer).value, stale, t, e)
    ensures Agrees(n, base, records, past, buffer + [e], t)
    ensures Within(n, base, records, past, buffer + [e], Unstale(stale, e))
    ensures Replay(n, past.origin, past.synced + (buffer + [e])) ==
      Apply(n, Replay(n, past.origin, past.synced + buffer).value, e)
  {
    AgreesNow(n, base, records, past, buffer, t);
    MatchMore(n, base, records, past, buffer, t, stale, e);
    forall i | 0 <= i <= |buffer + [e]|
      ensures Match(n, base, records + (buffer + [e])[..i], past.origin, past.synced + (buffer + [e])[..i], t)
    {
      if i <= |buffer| {
        AgreesAt(n, base, records, past, buffer, t, i);
        assert (buffer + [e])[..i] == buffer[..i];
      } else {
        assert (buffer + [e])[..i] == buffer + [e];
      }
    }
  }

  /** A copy of the live keys stands for the keyspace it is taken of. */
  lemma CopyAgrees(n: Numbers, past: Past, t: int, stale: set<Key>)
    requires Replay(n, past.origin, past.synced).Ok?
    ensures var copy := Purged(Replay(n, past.origin, past.synced).value, t);
      Agrees(n, copy, [], past, [], t) && Within(n, copy, [], past, [], stale)
  {
    var m := Replay(n, past.origin, past.synced).value;
    var none: Log := [];
    PurgedIsSame(m, t);
    assert past.synced + none == past.synced && none + none == none;
    assert none[..0] == none && Replay(n, Purged(m, t), none) == Ok(Purged(m, t));
  }

  /** A start takes what it has loaded for the keyspace, less what has expired meanwhile. */
  lemma StartAgrees(n: Numbers, base: Keys, records: Log, t: int)
    requires Replay(n, base, records).Ok?
    ensures var loaded := Replay(n, base, records).value;
      var past := Past(Purged(loaded, t), []);
      && Agrees(n, base, records, past, [], t) && Replay(n, past.origin, past.synced) == Ok(past.origin)
      && Within(n, base, records, past, [], loaded.Keys - past.origin.Keys)
  {
    var loaded := Replay(n, base, records).value;
    var none: Log := [];
    PurgedIsSame(loaded, t);
    assert records + none == records && none + none == none && none[..0] == none;
    assert Replay(n, Purged(loaded, t), none) == Ok(Purged(loaded, t));
  }

  // ------------------------------------------------------------- manifests

  /** No record and no snapshot of a generation after g. */
  ghost predicate NothingAfter(d: Disk, g: nat) {
    EmptyAfter(d.files, g) && forall h :: h in d.snaps ==> h <= g
  }

  /** A start could load the files m names. */
  ghost predicate Loadable(m: Manifest, d: Disk) {
    m.aofs != [] && Ascending(m.aofs) && (m.snapshot.Some? ==> m.snapshot.value in d.snaps)
  }

  /** A keyspace and the records over it. */
  datatype Base = Base(keys: Keys, records: Log)

  function Named(m: Manifest, d: Disk): Base {
    Base(Loaded(m, d.snaps), Records(d.files, m.aofs))
  }

  /**
   What the process has in memory: the manifest, the generation being written, and a rewrite: its
   generation with the copy of the keyspace when it began, then the file being written.
   */
  datatype Process = Process(manifest: Manifest, writer: nat, copying: Option<nat>, taken: Keys, job: Option<Job>)

  /** The snapshot file is there exactly if the job says so. */
  ghost predicate Stored(d: Disk, job: Job) {
    if job.status.Written? then job.generation in d.snaps && d.snaps[job.generation] == job.copy
    else job.generation !in d.snaps
  }

  /** The process writes to a listed file, past which there is nothing; a rewrite is of that generation. */
  ghost predicate Shaped(d: Disk, p: Process) {
    && d.saved.Some? && Loadable(d.saved.value, d) && Loadable(p.manifest, d)
    && p.writer in d.saved.value.aofs && p.writer in p.manifest.aofs && NothingAfter(d, p.writer)
    && (p.copying.Some? ==> p.job.None? && p.copying.value == p.writer == Last(p.manifest) && p.writer !in d.snaps)
    && (p.job.Some? ==> p.job.value.generation == p.writer == Last(p.manifest) && Stored(d, p.job.value))
  }

  /** What may one day be loaded: what the two manifests name, and the copy with the file since it was taken. */
  ghost predicate IsBase(d: Disk, p: Process, b: Base) {
    || b == Named(p.manifest, d)
    || (d.saved.Some? && b == Named(d.saved.value, d))
    || (p.copying.Some? && b == Base(p.taken, FileOf(d.files, p.writer)))
    || (p.job.Some? && b == Base(p.job.value.copy, FileOf(d.files, p.writer)))
  }

  /** It stands for what has reached the disk, and memory lacks only stale keys of it. */
  ghost predicate Linked(n: Numbers, b: Base, past: Past, buffer: Log, t: int, stale: set<Key>) {
    Agrees(n, b.keys, b.records, past, buffer, t) && Within(n, b.keys, b.records, past, buffer, stale)
  }

  ghost predicate AllLinked(n: Numbers, d: Disk, past: Past, buffer: Log, t: int, stale: set<Key>, p: Process) {
    forall b: Base :: IsBase(d, p, b) ==> Linked(n, b, past, buffer, t, stale)
  }

  /** A running process. */
  ghost predicate Up(n: Numbers, d: Disk, past: Past, buffer: Log, t: int, stale: set<Key>, p: Process) {
    Shaped(d, p) && AllLinked(n, d, past, buffer, t, stale, p)
  }

  /** Without one, the disk alone is enough to recover everything that has reached it. */
  ghost predicate Down(n: Numbers, d: Disk, past: Past, t: int) {
    if d.saved.None? then past == Past(map[], []) && d.files == map[] && d.snaps == map[]
    else
      var m := d.saved.value;
      Loadable(m, d) && NothingAfter(d, Last(m)) && Agrees(n, Named(m, d).keys, Named(m, d).records, past, [], t)
  }

  /** Memory is what has been logged. */
  ghost predicate Holds(n: Numbers, past: Past, buffer: Log, memory: Keys) {
    Replay(n, past.origin, past.synced + buffer) == Ok(memory)
  }

  // ------------------------------------------------------------ transitions

  lemma UpLater(n: Numbers, d: Disk, past: Past, buffer: Log, t: int, later: int, stale: set<Key>, p: Process)
    requires Up(n, d, past, buffer, t, stale, p) && t <= later
    ensures Up(n, d, past, buffer, later, stale, p)
  {
    forall b: Base | IsBase(d, p, b)
      ensures Linked(n, b, past, buffer, later, stale)
    {
      AgreesLater(n, b.keys, b.records, past, buffer, t, later);
    }
  }

  lemma DownLater(n: Numbers, d: Disk, past: Past, t: int, later: int)
    requires Down(n, d, past, t) && t <= later
    ensures Down(n, d, past, later)
  {
    if d.saved.Some? {
      AgreesLater(n, Named(d.saved.value, d).keys, Named(d.saved.value, d).records, past, [], t, later);
    }
  }

  /** More effects reach the writer's file. */
  function Grown(d: Disk, writer: nat, more: Log): Disk {
    d.(files := d.files[writer := FileOf(d.files, writer) + more])
  }

  lemma NamedGrown(m: Manifest, d: Disk, writer: nat, more: Log)
    requires Loadable(m, d) && writer in m.aofs && EmptyAfter(d.files, writer)
    ensures Named(m, Grown(d, writer, more)) == Base(Named(m, d).keys, Named(m, d).records + more)
  {
    RecordsGrow(d.files, m.aofs, writer, more);
  }

  lemma LinkedSpilled(n: Numbers, b: Base, past: Past, buffer: Log, t: int, stale: set<Key>, k: nat)
    requires Linked(n, b, past, buffer, t, stale) && k <= |buffer|
    ensures Linked(n, Base(b.keys, b.records + buffer[..k]), Later(past, buffer[..k]), buffer[k..], t, stale)
  {
    AgreesSpilled(n, b.keys, b.records, past, buffer, t, k);
    WithinSpilled(n, b.keys, b.records, past, buffer, stale, k);
  }

  /** Every base is one of before with the same records added. */
  lemma BaseGrown(d: Disk, p: Process, more: Log, b: Base) returns (was: Base)
    requires Shaped(d, p) && IsBase(Grown(d, p.writer, more), p, b)
    ensures IsBase(d, p, was) && b == Base(was.keys, was.records + more)
  {
    NamedGrown(p.manifest, d, p.writer, more);
    NamedGrown(d.saved.value, d, p.writer, more);
    var d' := Grown(d, p.writer, more);
    if b == Named(p.manifest, d') {
      was := Named(p.manifest, d);
    } else if b == Named(d.saved.value, d') {
      was := Named(d.saved.value, d);
    } else if p.copying.Some? && b == Base(p.taken, FileOf(d'.files, p.writer)) {
      was := Base(p.taken, FileOf(d.files, p.writer));
    } else {
      was := Base(p.job.value.copy, FileOf(d.files, p.writer));
    }
  }

  lemma UpSpilled(n: Numbers, d: Disk, past: Past, buffer: Log, t: int, stale: set<Key>, p: Process, k: nat)
    requires Up(n, d, past, buffer, t, stale, p) && k <= |buffer|
    ensures Up(n, Grown(d, p.writer, buffer[..k]), Later(past, buffer[..k]), buffer[k..], t, stale, p)
  {
    var d' := Grown(d, p.writer, buffer[..k]);
    EmptyAfterKept(d.files, p.writer, p.writer, FileOf(d.files, p.writer) + buffer[..k]);
    forall b: Base | IsBase(d', p, b)
      ensures Linked(n, b, Later(past, buffer[..k]), buffer[k..], t, stale)
    {
      var was := BaseGrown(d, p, buffer[..k], b);
      LinkedSpilled(n, was, past, buffer, t, stale, k);
    }
  }

  lemma LineSpilled(past: Past, buffer: Log, k: nat)
    requires k <= |buffer|
    ensures Later(past, buffer[..k]).synced + buffer[k..] == past.synced + buffer
    ensures past.synced <= Later(past, buffer[..k]).synced <= past.synced + buffer
  {
    Assoc(past.synced, buffer[..k], buffer[k..]);
    assert buffer == buffer[..k] + buffer[k..];
  }

  lemma HoldsSpilled(n: Numbers, past: Past, buffer: Log, memory: Keys, k: nat)
    requires Holds(n, past, buffer, memory) && k <= |buffer|
    ensures Holds(n, Later(past, buffer[..k]), buffer[k..], memory)
  {
    LineSpilled(past, buffer, k);
  }

  /** One more record is buffered. */
  lemma UpMore(n: Numbers, d: Disk, past: Past, buffer: Log, t: int, stale: set<Key>, p: Process, memory: Keys,
               e: Record)
    requires Up(n, d, past, buffer, t, stale, p) && Holds(n, past, buffer, memory) && Loggable(n, memory, stale, t, e)
    ensures Up(n, d, past, buffer + [e], t, Unstale(stale, e), p)
    ensures Holds(n, past, buffer + [e], Apply(n, memory, e).value)
  {
    forall b: Base | IsBase(d, p, b)
      ensures Linked(n, b, past, buffer + [e], t, Unstale(stale, e))
    {
      AgreesMore(n, b.keys, b.records, past, buffer, t, stale, e);
    }
    assert IsBase(d, p, Named(p.manifest, d));
    AgreesMore(n, Named(p.manifest, d).keys, Named(p.manifest, d).records, past, buffer, t, stale, e);
  }

  /** The buffer is lost with the process. */
  lemma DownAfter(n: Numbers, d: Disk, past: Past, buffer: Log, t: int, stale: set<Key>, p: Process)
    requires Up(n, d, past, buffer, t, stale, p)
    ensures Down(n, d, past, t)
  {
    var b := Named(d.saved.value, d);
    assert IsBase(d, p, b);
    AgreesLost(n, b.keys, b.records, past, buffer, t);
    LastIsGreatest(d.saved.value, p.writer);
  }

  function Opened(d: Disk, g: nat): Disk {
    d.(files := d.files[g := FileOf(d.files, g)])
  }

  lemma LastIsGreatest(m: Manifest, g: nat)
    requires Ascending(m.aofs) && g in m.aofs
    ensures g <= Last(m)
  {
  }

  /** Opening a file for appending changes no record. */
  lemma OpenedSame(d: Disk, g: nat)
    ensures forall m: Manifest :: Named(m, Opened(d, g)) == Named(m, d)
    ensures forall w: nat :: FileOf(Opened(d, g).files, w) == FileOf(d.files, w)
    ensures forall w: nat :: NothingAfter(d, w) ==> NothingAfter(Opened(d, g), w)
  {
    forall m: Manifest
      ensures Named(m, Opened(d, g)) == Named(m, d)
    {
      RecordsSame(d.files, Opened(d, g).files, m.aofs);
    }
    forall w: nat | NothingAfter(d, w)
      ensures NothingAfter(Opened(d, g), w)
    {
      forall h: nat | h > w
        ensures FileOf(Opened(d, g).files, h) == []
      {
        assert FileOf(d.files, h) == [];
      }
    }
  }

  lemma AscendingMore(m: Manifest, g: nat)
    requires Ascending(m.aofs) && g > Last(m)
    ensures Ascending(m.aofs + [g])
  {
    forall i | 0 <= i < |m.aofs|
      ensures m.aofs[i] < g
    {
      LastIsGreatest(m, m.aofs[i]);
    }
  }

  /** The next file is opened and listed, in memory only. */
  lemma UpOpened(n: Numbers, d: Disk, past: Past, buffer: Log, t: int, stale: set<Key>, p: Process, g: nat)
    requires Up(n, d, past, buffer, t, stale, p) && p.copying.None? && p.job.None? && g > Last(p.manifest)
    ensures Up(n, Opened(d, g), past, buffer, t, stale, p.(manifest := p.manifest.(aofs := p.manifest.aofs + [g])))
    ensures g > p.writer && g !in d.snaps
  {
    var p' := p.(manifest := p.manifest.(aofs := p.manifest.aofs + [g]));
    LastIsGreatest(p.manifest, p.writer);
    assert FileOf(d.files, g) == [];
    OpenedSame(d, g);
    RecordsListed(Opened(d, g).files, p.manifest.aofs, g);
    AscendingMore(p.manifest, g);
    forall b: Base | IsBase(Opened(d, g), p', b)
      ensures Linked(n, b, past, buffer, t, stale)
    {
      assert IsBase(d, p, b);
    }
  }

  /** The manifest in memory replaces the one on disk. */
  lemma UpSaved(n: Numbers, d: Disk, past: Past, buffer: Log, t: int, stale: set<Key>, p: Process)
    requires Up(n, d, past, buffer, t, stale, p)
    ensures Up(n, d.(saved := Some(p.manifest)), past, buffer, t, stale, p)
  {
    forall b: Base | IsBase(d.(saved := Some(p.manifest)), p, b)
      ensures Linked(n, b, past, buffer, t, stale)
    {
      assert IsBase(d, p, b);
    }
  }

  /** The writer moves on to the new file, and the copy is taken. */
  lemma UpSwitched(n: Numbers, d: Disk, past: Past, t: int, stale: set<Key>, p: Process, g: nat, memory: Keys)
    requires Up(n, d, past, [], t, stale, p) && p.job.None? && p.copying.None? && Holds(n, past, [], memory)
    requires d.saved == Some(p.manifest) && g == Last(p.manifest) && g > p.writer && g !in d.snaps
    ensures Up(n, d, past, [], t, stale, p.(writer := g, copying := Some(g), taken := Purged(memory, t)))
  {
    var p' := p.(writer := g, copying := Some(g), taken := Purged(memory, t));
    var copy := Base(Purged(memory, t), []);
    assert past.synced + [] == past.synced;
    CopyAgrees(n, past, t, stale);
    assert FileOf(d.files, g) == [] && g in p.manifest.aofs;
    assert NothingAfter(d, g);
    forall b: Base | IsBase(d, p', b)
      ensures Linked(n, b, past, [], t, stale)
    {
      assert b == copy || IsBase(d, p, b);
    }
  }

  function WithSnapshot(d: Disk, g: nat, copy: Keys): Disk {
    d.(snaps := d.snaps[g := copy])
  }

  /** A snapshot that no manifest names yet changes nothing for those there are. */
  lemma SnapshotAside(m: Manifest, d: Disk, g: nat, copy: Keys)
    requires Loadable(m, d) && g !in d.snaps
    ensures Loadable(m, WithSnapshot(d, g, copy)) && Named(m, WithSnapshot(d, g, copy)) == Named(m, d)
  {
  }

  /** The background thread completes the snapshot file. */
  lemma UpWritten(n: Numbers, d: Disk, past: Past, buffer: Log, t: int, stale: set<Key>, p: Process)
    requires Up(n, d, past, buffer, t, stale, p) && p.job.Some? && p.job.value.status.Writing?
    ensures Up(n, WithSnapshot(d, p.job.value.generation, p.job.value.copy), past, buffer, t, stale,
               p.(job := Some(p.job.value.(status := Written))))
  {
    var g, copy := p.job.value.generation, p.job.value.copy;
    SnapshotAside(p.manifest, d, g, copy);
    SnapshotAside(d.saved.value, d, g, copy);
    forall b: Base | IsBase(WithSnapshot(d, g, copy), p.(job := Some(p.job.value.(status := Written))), b)
      ensures Linked(n, b, past, buffer, t, stale)
    {
      assert IsBase(d, p, b);
    }
  }

  /** The new snapshot and the file since then become the manifest, in memory. */
  lemma UpConcluded(n: Numbers, d: Disk, past: Past, buffer: Log, t: int, stale: set<Key>, p: Process)
    requires Up(n, d, past, buffer, t, stale, p) && p.job.Some? && p.job.value.status.Written?
    ensures Up(n, d, past, buffer, t, stale, Concluded(p))
  {
    RecordsOne(d.files, p.writer);
    forall b: Base | IsBase(d, Concluded(p), b)
      ensures Linked(n, b, past, buffer, t, stale)
    {
      assert IsBase(d, p, b);
    }
  }

  function Concluded(p: Process): Process
    requires p.job.Some?
  {
    p.(manifest := Manifest(Some(p.job.value.generation), [Last(p.manifest)]), job := None)
  }

  /** A rewrite that is given up, or hands its copy over, leaves no new base. */
  lemma UpDropped(n: Numbers, d: Disk, past: Past, buffer: Log, t: int, stale: set<Key>, p: Process)
    requires Up(n, d, past, buffer, t, stale, p)
    ensures Up(n, d, past, buffer, t, stale, p.(copying := None)) && Up(n, d, past, buffer, t, stale, p.(job := None))
    ensures p.copying.Some? ==>
      Up(n, d, past, buffer, t, stale, p.(copying := None, job := Some(Job(p.writer, p.taken, Writing))))
    ensures p.job.Some? && p.job.value.status.Writing? ==>
      Up(n, d, past, buffer, t, stale, p.(job := Some(p.job.value.(status := Failed))))
  {
    forall p': Process, b: Base | IsBase(d, p', b) && p'.manifest == p.manifest && p'.writer == p.writer &&
        (p'.copying.Some? ==> p'.copying == p.copying && p'.taken == p.taken) &&
        (p'.job.Some? ==>
          (p.copying.Some? && p'.job.value.copy == p.taken) || (p.job.Some? && p'.job.value.copy == p.job.value.copy))
      ensures Linked(n, b, past, buffer, t, stale)
    {
      assert IsBase(d, p, b);
    }
  }

  /** What is left after files that the manifest does not name are deleted. */
  ghost predicate Kept(d: Disk, d': Disk, m: Manifest) {
    && d'.saved == d.saved
    && d'.files.Keys <= d.files.Keys && (forall g :: g in d'.files ==> d'.files[g] == d.files[g])
    && d'.snaps.Keys <= d.snaps.Keys && (forall g :: g in d'.snaps ==> d'.snaps[g] == d.snaps[g])
    && (forall g :: g in m.aofs && g in d.files ==> g in d'.files)
    && (m.snapshot.Some? && m.snapshot.value in d.snaps ==> m.snapshot.value in d'.snaps)
  }

  lemma KeptSame(d: Disk, d': Disk, m: Manifest)
    requires Kept(d, d', m)
    ensures Named(m, d') == Named(m, d) && (Loadable(m, d) ==> Loadable(m, d'))
    ensures forall w: nat :: NothingAfter(d, w) ==> NothingAfter(d', w)
  {
    RecordsSame(d.files, d'.files, m.aofs);
    forall w: nat | NothingAfter(d, w)
      ensures NothingAfter(d', w)
    {
      forall h: nat | h > w
        ensures FileOf(d'.files, h) == []
      {
        assert FileOf(d.files, h) == [];
      }
    }
  }

  lemma DownKept(n: Numbers, d: Disk, d': Disk, past: Past, t: int)
    requires Down(n, d, past, t) && d.saved.Some? && Kept(d, d', d.saved.value)
    ensures Down(n, d', past, t)
  {
    KeptSame(d, d', d.saved.value);
  }

  lemma UpKept(n: Numbers, d: Disk, d': Disk, past: Past, buffer: Log, t: int, stale: set<Key>, p: Process)
    requires Up(n, d, past, buffer, t, stale, p) && Kept(d, d', p.manifest) && d.saved == Some(p.manifest)
    requires p.copying.None? && p.job.None?
    ensures Up(n, d', past, buffer, t, stale, p)
  {
    KeptSame(d, d', p.manifest);
    forall b: Base | IsBase(d', p, b)
      ensures Linked(n, b, past, buffer, t, stale)
    {
      assert IsBase(d, p, b);
    }
  }

  lemma DownOpened(n: Numbers, d: Disk, past: Past, t: int, g: nat)
    requires Down(n, d, past, t) && d.saved.Some?
    ensures Down(n, Opened(d, g), past, t)
  {
    OpenedSame(d, g);
    assert Named(d.saved.value, Opened(d, g)) == Named(d.saved.value, d);
  }

  /** Replaying the files gives what had reached the disk, but for keys past their deadline. */
  lemma Recovers(n: Numbers, d: Disk, past: Past, t: int)
    requires Down(n, d, past, t) && d.saved.Some?
    ensures Match(n, Named(d.saved.value, d).keys, Named(d.saved.value, d).records, past.origin, past.synced, t)
  {
    var b := Named(d.saved.value, d);
    AgreesNow(n, b.keys, b.records, past, [], t);
  }

  lemma RecoversLive(n: Numbers, d: Disk, past: Past, t: int, loaded: Keys)
    requires Down(n, d, past, t) && d.saved.Some?
    requires Replay(n, Named(d.saved.value, d).keys, Named(d.saved.value, d).records) == Ok(loaded)
    ensures Replay(n, past.origin, past.synced).Ok?
    ensures Purged(loaded, t) == Purged(Replay(n, past.origin, past.synced).value, t)
  {
    Recovers(n, d, past, t);
  }

  /** A start that has loaded the files takes over. */
  lemma UpStarted(n: Numbers, d: Disk, past: Past, t: int, loaded: Keys)
    requires Down(n, d, past, t) && d.saved.Some?
    requires Replay(n, Named(d.saved.value, d).keys, Named(d.saved.value, d).records) == Ok(loaded)
    ensures Up(n, d, Past(Purged(loaded, t), []), [], t, loaded.Keys - Purged(loaded, t).Keys,
               Process(d.saved.value, Last(d.saved.value), None, map[], None))
    ensures Holds(n, Past(Purged(loaded, t), []), [], Purged(loaded, t))
  {
    var m := d.saved.value;
    var p := Process(m, Last(m), None, map[], None);
    StartAgrees(n, Named(m, d).keys, Named(m, d).records, t);
    assert Last(m) in m.aofs;
    forall b: Base | IsBase(d, p, b)
      ensures Linked(n, b, Past(Purged(loaded, t), []), [], t, loaded.Keys - Purged(loaded, t).Keys)
    {
      assert b == Named(m, d);
    }
    var none: Log := [];
    assert none + none == none;
  }

  // -------------------------------------------------------------- process

  /** How far a call gets: to its end, to an I/O error after some steps, or to a crash there. */
  datatype Fate = Completes | Fails(after: nat) | Dies(after: nat)

  /** The records of one file, applied in order until one fails. */
  method ReplayFile(n: Numbers, before: Result<Keys, string>, records: Log, ghost base: Keys, ghost done: Log)
    returns (state: Result<Keys, string>)
    requires before == Replay(n, base, done)
    ensures state == Replay(n, base, done + records)
  {
    state := before;
    assert done + [] == done;
    for i := 0 to |records|
      invariant state == Replay(n, base, done + records[..i])
    {
      assert (done + records[..i + 1])[..|done| + i] == done + records[..i];
      state := if state.Err? then state else Apply(n, state.value, records[i]);
    }
    assert records[..|records|] == records;
  }

  /**
   What may happen, in any order. A crash also comes with a call that dies on the way; of the record after
   the last that got out, a part may have got out too.
   */
  datatype Event =
    | Logs(effect: Record, fails: bool, kept: bool)
    | Commits(fate: Fate, out: nat, part: bool)
    | BeginsRewrite(fate: Fate, out: nat, part: bool)
    | CopyDone
    | CopyAbandoned
    | SnapshotWritten(ok: bool)
    | OldFileClosed(ok: bool)
    | Polls(fate: Fate, stuck: set<nat>, part: bool)
    | Crashes(out: nat, part: bool)
    | Starts(fate: Fate, stuck: set<nat>)

  /**
   What the events are about: the keyspace of the last start, what has been logged since and how much
   of it has reached the disk; what had reached it before; what is in memory, a rewrite included; the last
   file the manifest on disk lists; and the file, if any, that a crash has left with part of a record.
   */
  datatype View = View(running: bool, error: bool, background: bool, before: Log, origin: Keys, line: Log, synced: Log,
                       memory: Keys, stale: set<Key>, process: Process, closing: bool, last: nat, torn: Option<nat>)

  /** Everything that has ever reached the disk. */
  function Durable(v: View): Log { v.before + v.synced }

  /** The process is gone, and with it what had not got out. */
  ghost predicate Cut(a: View, b: View) {
    && !b.running && b.before == a.before && b.origin == a.origin
    && a.synced <= b.synced <= a.line && b.line == b.synced
    && (b.torn.Some? ==> b.torn.value == a.process.writer && (b.last == a.last || b.last == a.process.writer))
  }

  /** A start is refused: a file ends in part of a record, and it is not the last one listed. */
  predicate Refused(v: View) {
    v.torn.Some? && v.torn.value != v.last
  }

  /** The process writes to the last file that the manifest on disk lists. */
  predicate OnLast(v: View) {
    if v.running then v.last == v.process.writer else !Refused(v)
  }

  /** The process goes on with the same log and memory; some of the log may have got out. */
  ghost predicate GoesOn(a: View, b: View) {
    && b == a.(synced := b.synced, process := b.process, closing := b.closing, last := b.last) && a.running
    && a.synced <= b.synced <= a.line
  }

  /** A start: what had reached the disk, less the keys that have expired by now. */
  ghost predicate Started(n: Numbers, a: View, b: View, t: int) {
    && b.running && !b.error && !b.background && Replay(n, a.origin, a.synced).Ok?
    && b.memory == b.origin == Purged(Replay(n, a.origin, a.synced).value, t)
    && b.before == a.before + a.synced && b.line == b.synced == []
    && b.torn.None? && b.last == a.last == b.process.writer
  }

  /** An effect is in memory, and in the log unless writing it failed. */
  ghost function After(n: Numbers, a: View, e: Record, fails: bool, kept: bool): View
    requires Apply(n, a.memory, e).Ok?
  {
    var b := a.(memory := Apply(n, a.memory, e).value, error := fails);
    if !fails || kept then b.(line := a.line + [e], stale := Unstale(a.stale, e)) else b
  }

  /** What each event does. */
  ghost predicate Follows(n: Numbers, e: Event, t: int, a: View, b: View) {
    if !a.running then
      if !e.Starts? || Refused(a) then b == a
      else if e.fate.Dies? then b == a || b == a.(torn := None)
      else Started(n, a, b, t)
    else
      match e
      case Logs(effect, fails, kept) =>
        if a.error || !Loggable(n, a.memory, a.stale, t, effect) then b == a
        else b == After(n, a, effect, fails, kept)
      case Commits(fate, _, _) =>
        if a.error then b == a
        else if a.background then b == a.(error := true, background := false)
        else
          match fate {
            case Completes => b == a.(synced := a.line)
            case Fails(_) => b == a.(error := true, synced := b.synced) && a.synced <= b.synced <= a.line
            case Dies(_) => Cut(a, b)
          }
      case BeginsRewrite(fate, _, _) =>
        if a.error || a.process.copying.Some? || a.process.job.Some? then b == a
        else
          && (GoesOn(a, b) || (fate.Dies? && Cut(a, b)))
          && (fate.Completes? ==> b.process.copying.Some? && b.process.taken == Purged(a.memory, t) && OnLast(b))
          && (b.running && OnLast(a) ==> OnLast(b))
      case CopyDone => b == a.(process := HandedOver(a.process))
      case CopyAbandoned => b == a.(process := a.process.(copying := None))
      case SnapshotWritten(ok) => b == a.(process := Ended(a.process, ok))
      case OldFileClosed(ok) => b == a.(closing := false, background := a.background || (a.closing && !ok))
      case Polls(fate, _, _) =>
        if a.closing || a.process.job.None? || a.process.job.value.status.Writing? then b == a
        else
          && (GoesOn(a, b) || (fate.Dies? && Cut(a, b))) && (b.running ==> b.process.job.None?)
          && (b.running && OnLast(a) ==> OnLast(b))
          && (fate.Completes? ==> b.process == if a.process.job.value.status.Written? then Concluded(a.process)
                                               else a.process.(job := None))
      case Crashes(_, _) => Cut(a, b)
      case Starts(_, _) => b == a
  }

  /** The copy goes to the background thread. */
  function HandedOver(p: Process): Process {
    if p.copying.None? then p else p.(copying := None, job := Some(Job(p.copying.value, p.taken, Writing)))
  }

  /** The background thread is done. */
  function Ended(p: Process, ok: bool): Process {
    if p.job.None? || !p.job.value.status.Writing? then p
    else p.(job := Some(p.job.value.(status := if ok then Written else Failed)))
  }

  /** A clock that does not go back. */
  ghost predicate Ticks(start: int, clock: seq<int>) {
    forall i, j :: 0 <= i <= j < |clock| ==> start <= clock[i] <= clock[j]
  }

  /** A commit that reports success, with no write error before it. */
  ghost predicate Committed(e: Event, a: View) {
    e.Commits? && e.fate.Completes? && a.running && !a.error && !a.background
  }

  ghost predicate AllFollow(n: Numbers, events: seq<Event>, clock: seq<int>, trace: seq<View>) {
    && |clock| == |events| && |trace| == |events| + 1
    && forall i :: 0 <= i < |events| ==> Follows(n, events[i], clock[i], trace[i], trace[i + 1])
  }

  ghost predicate Sane(v: View) {
    v.synced <= v.line && (!v.running ==> v.line == v.synced)
  }

  /** Nothing that has reached the disk is lost, and a commit that reports success has got everything there. */
  lemma FollowsKeeps(n: Numbers, e: Event, t: int, a: View, b: View)
    requires Follows(n, e, t, a, b) && Sane(a)
    ensures Sane(b) && Durable(a) <= Durable(b)
    ensures Committed(e, a) ==> a.before + a.line <= Durable(b)
  {
  }

  /** The process goes on writing to the last file listed, and a crash can leave part of a record only there. */
  lemma FollowsOnLast(n: Numbers, e: Event, t: int, a: View, b: View)
    requires Follows(n, e, t, a, b) && OnLast(a)
    ensures OnLast(b)
  {
  }

  lemma {:induction false} RunOnLast(n: Numbers, events: seq<Event>, clock: seq<int>, trace: seq<View>, i: nat)
    requires AllFollow(n, events, clock, trace) && OnLast(trace[0]) && i <= |events|
    ensures OnLast(trace[i])
  {
    if i > 0 {
      RunOnLast(n, events, clock, trace, i - 1);
      FollowsOnLast(n, events[i - 1], clock[i - 1], trace[i - 1], trace[i]);
    }
  }

  /** Over a whole run: every committed line is on the disk for good. */
  lemma {:induction false} CommittedStays(n: Numbers, events: seq<Event>, clock: seq<int>, trace: seq<View>, i: nat,
                                          j: nat)
    requires AllFollow(n, events, clock, trace) && Sane(trace[0]) && i <= j <= |events|
    ensures Sane(trace[i]) && Sane(trace[j]) && Durable(trace[i]) <= Durable(trace[j])
    ensures i < j && Committed(events[i], trace[i]) ==> trace[i].before + trace[i].line <= Durable(trace[j])
  {
    if j == 0 {
    } else if i == j {
      CommittedStays(n, events, clock, trace, i - 1, j - 1);
      assert Follows(n, events[j - 1], clock[j - 1], trace[j - 1], trace[j]);
      FollowsKeeps(n, events[j - 1], clock[j - 1], trace[j - 1], trace[j]);
    } else {
      CommittedStays(n, events, clock, trace, i, j - 1);
      assert Follows(n, events[j - 1], clock[j - 1], trace[j - 1], trace[j]);
      FollowsKeeps(n, events[j - 1], clock[j - 1], trace[j - 1], trace[j]);
    }
  }

  lemma EmptyAgrees(n: Numbers, t: int)
    ensures Down(n, Disk(Some(Manifest(None, [1])), map[], map[]), Past(map[], []), t)
  {
    RecordsOne(map[], 1);
    StartAgrees(n, map[], [], t);
    assert Purged(map[], t) == map[];
  }

  /** What is kept: that the disk can be recovered from, and that memory is what has been logged. */
  datatype Aspect = OnDisk | InMemory

  class Persistence {
    const numbers: Numbers
    var disk: Disk
    /** The file that a crash has left with part of a record at its end. */
    var torn: Option<nat>
    var now: int
    /** The engine's keyspace, and the keys the last start purged that nothing has written since. */
    var memory: Keys
    var stale: set<Key>
    /** The process, what is buffered for the file it writes, and its errors. */
    var running: bool
    var process: Process
    var buffer: Log
    var closing: bool
    var backgroundError: bool
    var writeError: bool
    ghost var past: Past
    ghost var before: Log

    ghost predicate Valid()
      reads this
    {
      forall a: Aspect :: Keeps(a)
    }

    ghost predicate Keeps(a: Aspect)
      reads this
    {
      match a
      case OnDisk =>
        if running then Up(numbers, disk, past, buffer, now, stale, process) && torn.None?
        else
          && buffer == [] && Down(numbers, disk, past, now)
          && (torn.Some? ==> disk.saved.Some? && torn.value in disk.saved.value.aofs)
      case InMemory => running && !writeError ==> Holds(numbers, past, buffer, memory)
    }

    lemma Parts()
      requires Valid()
      ensures Keeps(OnDisk) && Keeps(InMemory)
    {
    }

    lemma Whole()
      requires Keeps(OnDisk) && Keeps(InMemory)
      ensures Valid()
    {
      forall a: Aspect
        ensures Keeps(a)
      {
        match a
        case OnDisk =>
        case InMemory =>
      }
    }

    ghost function Seen(): View
      reads this
    {
      View(running, writeError, backgroundError, before, past.origin, past.synced + buffer, past.synced, memory, stale,
           process, closing, LastListed(disk), torn)
    }

    constructor (numbers: Numbers)
      ensures Valid() && !running && this.numbers == numbers && now == 0
      ensures Durable(Seen()) == [] && Sane(Seen()) && OnLast(Seen())
    {
      this.numbers := numbers;
      disk, torn, now, memory, stale := Disk(None, map[], map[]), None, 0, map[], {};
      running, process, buffer := false, Process(Manifest(None, [1]), 1, None, map[], None), [];
      closing, backgroundError, writeError := false, false, false;
      past, before := Past(map[], []), [];
      new;
      Whole();
    }

    method Tick(t: int)
      requires Valid() && now <= t
      modifies `now
      ensures Valid() && now == t && Seen() == old(Seen())
    {
      Parts();
      if running {
        UpLater(numbers, disk, past, buffer, now, t, stale, process);
      } else {
        DownLater(numbers, disk, past, now, t);
      }
      now := t;
      Whole();
    }

    /** The file buffer hands its first n records to the operating system. */
    method Spill(n: nat)
      requires Valid() && running && n <= |buffer|
      modifies `disk, `buffer, `past
      ensures Valid() && GoesOn(old(Seen()), Seen()) && past == Later(old(past), old(buffer)[..n])
      ensures buffer == old(buffer)[n..] && disk.saved == old(disk).saved
    {
      Parts();
      UpSpilled(numbers, disk, past, buffer, now, stale, process, n);
      LineSpilled(past, buffer, n);
      if !writeError {
        HoldsSpilled(numbers, past, buffer, memory, n);
      }
      disk := Grown(disk, process.writer, buffer[..n]);
      past := Later(past, buffer[..n]);
      buffer := buffer[n..];
      Whole();
    }

    /** What is buffered goes with the process; part of its first record may have got out. */
    method Lose(part: bool)
      requires Valid() && running
      modifies `buffer, `running, `torn
      ensures Valid() && Cut(old(Seen()), Seen()) && disk == old(disk)
      ensures torn == if part && (old(buffer) != [] || writeError) then Some(process.writer) else None
    {
      Parts();
      DownAfter(numbers, disk, past, buffer, now, stale, process);
      torn := if part && (buffer != [] || writeError) then Some(process.writer) else None;
      buffer, running := [], false;
      Whole();
    }

    /** The process dies: of the buffer some more records may have got out, the rest is lost. */
    method Die(n: nat, part: bool)
      requires Valid() && running
      modifies `disk, `buffer, `past, `running, `torn
      ensures Valid() && Cut(old(Seen()), Seen()) && LastListed(disk) == LastListed(old(disk))
      ensures part && n < |old(buffer)| ==> torn == Some(process.writer)
    {
      Spill(if n <= |buffer| then n else |buffer|);
      Lose(part);
    }

    // ------------------------------------------------------------- writes

    /** The record joins the buffer. */
    method Keep(e: Record)
      requires Valid() && running && !writeError && Loggable(numbers, memory, stale, now, e)
      modifies `memory, `stale, `buffer
      ensures Valid() && Seen() == After(numbers, old(Seen()), e, false, true)
    {
      Parts();
      UpMore(numbers, disk, past, buffer, now, stale, process, memory, e);
      Assoc(past.synced, buffer, [e]);
      memory, buffer, stale := Apply(numbers, memory, e).value, buffer + [e], Unstale(stale, e);
      Whole();
    }

    /**
     propagate and append: the effect is in memory already. After a write error nothing is logged any
     more; a failing write may keep the record.
     */
    method Append(e: Record, fails: bool, kept: bool) returns (raised: bool)
      requires Valid() && running && (!writeError ==> Loggable(numbers, memory, stale, now, e))
      modifies `memory, `stale, `buffer, `writeError
      ensures Valid() && raised == (!old(writeError) && fails)
      ensures old(writeError) ==> Seen() == old(Seen())
      ensures !old(writeError) ==> Seen() == After(numbers, old(Seen()), e, fails, kept)
    {
      if writeError {
        return false;
      }
      if !fails || kept {
        Keep(e);
        if fails {
          Break();
        }
      } else {
        Drop(e);
      }
      return fails;
    }

    /** The record is lost: what follows is not logged either. */
    method Drop(e: Record)
      requires Valid() && running && !writeError && Apply(numbers, memory, e).Ok?
      modifies `memory, `writeError
      ensures Valid() && Seen() == After(numbers, old(Seen()), e, true, false)
    {
      Parts();
      memory, writeError := Apply(numbers, memory, e).value, true;
      Whole();
    }

    method Break()
      requires Valid() && running
      modifies `writeError
      ensures Valid() && Seen() == old(Seen()).(error := true)
    {
      Parts();
      writeError := true;
      Whole();
    }

    /**
     commit: everything buffered goes to the operating system. After a write error it returns as if it
     had, so what it promises then holds exactly if nothing was left in the buffer.
     */
    method Commit(fate: Fate, n: nat, part: bool) returns (raised: bool)
      requires Valid() && running
      modifies `disk, `buffer, `past, `running, `writeError, `backgroundError, `torn
      ensures Valid() && Follows(numbers, Commits(fate, n, part), now, old(Seen()), Seen())
      ensures running && !raised ==> (past.synced == Seen().line <==> !old(writeError) || old(buffer) == [])
      ensures old(writeError) ==> !raised
    {
      if writeError {
        return false;
      }
      if backgroundError {
        Parts();
        backgroundError, writeError := false, true;
        Whole();
        return true;
      }
      match fate {
        case Dies(_) =>
          Die(n, part);
          return false;
        case Fails(_) =>
          Spill(if n <= |buffer| then n else |buffer|);
          Break();
          return true;
        case Completes =>
          Spill(|buffer|);
          return false;
      }
    }

    // ------------------------------------------------------------ rewrites

    /** Create the next generation's file and list it, in memory only. */
    method OpenNext(g: nat)
      requires Valid() && running && process.copying.None? && process.job.None? && g == Last(process.manifest) + 1
      modifies `disk, `process
      ensures Valid() && Seen() == old(Seen()).(process := process) && g > process.writer && g !in disk.snaps
      ensures process == old(process).(manifest := old(process).manifest.(aofs := old(process).manifest.aofs + [g]))
    {
      Parts();
      UpOpened(numbers, disk, past, buffer, now, stale, process, g);
      disk := Opened(disk, g);
      process := process.(manifest := process.manifest.(aofs := process.manifest.aofs + [g]));
      Whole();
    }

    /** Replace the manifest on disk by the one in memory. */
    method Save()
      requires Valid() && running
      modifies `disk
      ensures Valid() && disk == old(disk).(saved := Some(process.manifest))
      ensures Seen() == old(Seen()).(last := Last(process.manifest))
    {
      Parts();
      UpSaved(numbers, disk, past, buffer, now, stale, process);
      disk := disk.(saved := Some(process.manifest));
      Whole();
    }

    /** Later writes go to the new file; the snapshot to come is of the keyspace as it is now. */
    method Switch(g: nat)
      requires Valid() && running && !writeError && buffer == [] && process.copying.None? && process.job.None?
      requires disk.saved == Some(process.manifest) && g == Last(process.manifest) && g > process.writer &&
        g !in disk.snaps
      modifies `process, `closing
      ensures Valid() && Seen() == old(Seen()).(process := process, closing := true) && OnLast(Seen())
      ensures process == old(process).(writer := g, copying := Some(g), taken := Purged(memory, now))
    {
      Parts();
      UpSwitched(numbers, disk, past, now, stale, process, g, memory);
      process := process.(writer := g, copying := Some(g), taken := Purged(memory, now));
      closing := true;
      Whole();
    }

    /** old.commit(), which may fail or be the last thing the process does. */
    method FlushOld(fate: Fate, n: nat, part: bool) returns (done: bool)
      requires Valid() && running
      modifies `disk, `buffer, `past, `running, `torn
      ensures Valid() && (GoesOn(old(Seen()), Seen()) || (fate.Dies? && Cut(old(Seen()), Seen())))
      ensures (fate.Completes? ==> done) && (done ==> running && buffer == [])
      ensures running ==> disk.saved == old(disk).saved && Seen() == old(Seen()).(synced := past.synced)
    {
      if fate == Dies(0) {
        Die(n, part);
        return false;
      }
      var out := if fate == Fails(0) && n <= |buffer| then n else |buffer|;
      Spill(out);
      return fate != Fails(0);
    }

    /** Save the manifest that lists the new file too, and move on to it. */
    method MoveOn(g: nat, fate: Fate) returns (begun: bool)
      requires Valid() && running && !writeError && buffer == [] && process.copying.None? && process.job.None?
      requires g == Last(process.manifest) && g > process.writer && g !in disk.snaps
      modifies `disk, `buffer, `running, `process, `closing, `torn
      ensures Valid() && begun == (fate != Dies(2))
      ensures begun ==> Seen() == old(Seen()).(process := process, closing := closing, last := g) && OnLast(Seen())
      ensures begun ==> running && process.copying.Some? && process.taken == Purged(memory, now)
      ensures !begun ==> Cut(old(Seen()), Seen())
    {
      Save();
      begun := fate != Dies(2);
      if begun {
        Switch(g);
      } else {
        Lose(false);
      }
    }

    /** Open the next file and move on to it. */
    method Extend(fate: Fate) returns (begun: bool)
      requires Valid() && running && !writeError && buffer == [] && process.copying.None? && process.job.None?
      modifies `disk, `buffer, `running, `process, `closing, `torn
      ensures Valid()
      ensures Seen() == old(Seen()).(process := process, closing := closing, last := LastListed(disk)) ||
              (fate.Dies? && Cut(old(Seen()), Seen()))
      ensures (fate.Completes? ==> begun) && (begun ==>
        running && process.copying.Some? && process.taken == Purged(memory, now) && OnLast(Seen()))
      ensures !begun && running ==> process.copying.None? && process.writer == old(process).writer
      ensures !begun && running ==> LastListed(disk) == LastListed(old(disk))
    {
      begun := false;
      if fate == Fails(1) {
        return;
      }
      var g := Last(process.manifest) + 1;
      OpenNext(g);
      if fate == Dies(1) {
        Lose(false);
      } else if fate != Fails(2) {
        begun := MoveOn(g, fate);
      }
    }

    /** start_rewrite and begin_rewrite: refused after a write error, or while a rewrite is running. */
    method BeginRewrite(fate: Fate, n: nat, part: bool) returns (begun: bool)
      requires Valid() && running
      modifies `disk, `buffer, `past, `running, `process, `closing, `torn
      ensures Valid() && Follows(numbers, BeginsRewrite(fate, n, part), now, old(Seen()), Seen())
      ensures begun ==>
        running && process.copying.Some? && process.taken == Purged(memory, now) && past.synced == Seen().line
      ensures begun ==> !old(writeError) && old(process).copying.None? && old(process).job.None? && OnLast(Seen())
    {
      if writeError || process.job.Some? || process.copying.Some? {
        return false;
      }
      Parts();
      closing := false;
      Whole();
      begun := Renew(fate, n, part);
    }

    /** The buffer goes to the old file, and what comes then to a new one. */
    method Renew(fate: Fate, n: nat, part: bool) returns (begun: bool)
      requires Valid() && running && !writeError && process.copying.None? && process.job.None?
      modifies `disk, `buffer, `past, `running, `process, `closing, `torn
      ensures Valid() && (GoesOn(old(Seen()), Seen()) || (fate.Dies? && Cut(old(Seen()), Seen())))
      ensures fate.Completes? ==> begun
      ensures begun ==>
        running && process.copying.Some? && process.taken == Purged(memory, now) && past.synced == Seen().line
      ensures begun ==> OnLast(Seen())
      ensures !begun && running ==> process.writer == old(process).writer
      ensures !begun && running ==> LastListed(disk) == LastListed(old(disk))
    {
      begun := FlushOld(fate, n, part);
      if begun {
        begun := Extend(fate);
      }
    }

    /** finish_copy: the copy of the live keys, as they were when the rewrite began, goes to the background thread. */
    method FinishCopy()
      requires Valid() && running && process.copying.Some?
      modifies `process
      ensures Valid() && Seen() == old(Seen()).(process := HandedOver(old(process)))
    {
      Parts();
      UpDropped(numbers, disk, past, buffer, now, stale, process);
      process := process.(copying := None, job := Some(Job(process.writer, process.taken, Writing)));
      Whole();
    }

    /** abandon_copy: the copy will never come. */
    method AbandonCopy()
      requires Valid() && running
      modifies `process
      ensures Valid() && Seen() == old(Seen()).(process := old(process).(copying := None))
    {
      Parts();
      UpDropped(numbers, disk, past, buffer, now, stale, process);
      process := process.(copying := None);
      Whole();
    }

    /** The background thread writes the snapshot file, or fails to. */
    method WriteSnapshot(ok: bool)
      requires Valid() && running && process.job.Some? && process.job.value.status.Writing?
      modifies `disk, `process
      ensures Valid() && Seen() == old(Seen()).(process := Ended(old(process), ok))
    {
      Parts();
      if ok {
        UpWritten(numbers, disk, past, buffer, now, stale, process);
        disk := WithSnapshot(disk, process.job.value.generation, process.job.value.copy);
        process := process.(job := Some(process.job.value.(status := Written)));
      } else {
        UpDropped(numbers, disk, past, buffer, now, stale, process);
        process := process.(job := Some(process.job.value.(status := Failed)));
      }
      Whole();
    }

    /** The previous file's last fsync, on its own thread. */
    method CloseOld(ok: bool)
      requires Valid() && running
      modifies `closing, `backgroundError
      ensures Valid()
      ensures Seen() == old(Seen()).(closing := false, background := old(backgroundError) || (old(closing) && !ok))
    {
      Parts();
      backgroundError := backgroundError || (closing && !ok);
      closing := false;
      Whole();
    }

    /** _delete_unreferenced; stuck are the files that could not be deleted, or not before a crash. */
    static method WithoutUnreferenced(d: Disk, m: Manifest, stuck: set<nat>) returns (d': Disk)
      ensures Kept(d, d', m)
      ensures forall g :: g in d'.files ==> g in m.aofs || g in stuck
      ensures forall g :: g in d'.snaps ==> m.snapshot == Some(g) || g in stuck
    {
      var files := map g | g in d.files && (g in m.aofs || g in stuck) :: d.files[g];
      var snaps := map g | g in d.snaps && (m.snapshot == Some(g) || g in stuck) :: d.snaps[g];
      d' := Disk(d.saved, files, snaps);
    }

    /** The manifest on disk changes in one step, and only then do the old files go. */
    method Replace(fate: Fate, stuck: set<nat>, part: bool) returns (done: bool)
      requires Valid() && running && process.job.Some? && process.job.value.status.Written?
      modifies `disk, `process, `running, `buffer, `torn
      ensures Valid()
      ensures Seen() == old(Seen()).(process := Concluded(old(process)), last := LastListed(disk)) ||
              (fate.Dies? && Cut(old(Seen()), Seen()))
      ensures running ==> LastListed(disk) == LastListed(old(disk)) || OnLast(Seen())
      ensures (fate.Completes? ==> done) && (done ==> running && disk.saved == Some(process.manifest))
    {
      Parts();
      Conclude();
      done := false;
      if fate == Dies(0) {
        Lose(part);
      } else if fate != Fails(0) {
        Save();
        DeleteUnreferenced(stuck);
        done := fate != Dies(1);
        if !done {
          Lose(part);
        }
      }
    }

    method Conclude()
      requires Valid() && running && process.job.Some? && process.job.value.status.Written?
      modifies `process
      ensures Valid() && Seen() == old(Seen()).(process := Concluded(old(process)))
    {
      Parts();
      UpConcluded(numbers, disk, past, buffer, now, stale, process);
      process := Concluded(process);
      Whole();
    }

    method DeleteUnreferenced(stuck: set<nat>)
      requires Valid() && running && disk.saved == Some(process.manifest) && process.copying.None? && process.job.None?
      modifies `disk
      ensures Valid() && Seen() == old(Seen()) && disk.saved == old(disk).saved
    {
      Parts();
      var d := WithoutUnreferenced(disk, process.manifest, stuck);
      UpKept(numbers, disk, d, past, buffer, now, stale, process);
      disk := d;
      Whole();
    }

    /** _finish: a failed job leaves the manifest as it is. */
    method Finish(fate: Fate, stuck: set<nat>, part: bool) returns (done: bool)
      requires Valid() && running && process.job.Some? && !process.job.value.status.Writing?
      modifies `disk, `process, `running, `buffer, `torn
      ensures Valid()
      ensures var p := if old(process).job.value.status.Written? then Concluded(old(process))
        else old(process).(job := None);
        Seen() == old(Seen()).(process := p, last := LastListed(disk)) || (fate.Dies? && Cut(old(Seen()), Seen()))
      ensures running ==> LastListed(disk) == LastListed(old(disk)) || OnLast(Seen())
      ensures done ==> running && disk.saved == Some(Manifest(Some(process.writer), [process.writer]))
    {
      Parts();
      if process.job.value.status.Failed? {
        UpDropped(numbers, disk, past, buffer, now, stale, process);
        process := process.(job := None);
        Whole();
        return false;
      }
      done := Replace(fate, stuck, part);
    }

    /** poll: the old file must have been closed. */
    method Poll(fate: Fate, stuck: set<nat>, part: bool) returns (finished: bool)
      requires Valid() && running
      modifies `disk, `process, `running, `buffer, `torn
      ensures Valid() && Follows(numbers, Polls(fate, stuck, part), now, old(Seen()), Seen())
    {
      if process.job.None? || process.job.value.status.Writing? || closing {
        return false;
      }
      var _ := Finish(fate, stuck, part);
      return true;
    }

    // ------------------------------------------------------------- startup

    /** The first start: an empty manifest. */
    method CreateManifest()
      requires Valid() && !running && disk.saved.None?
      modifies `disk
      ensures Valid() && Seen() == old(Seen()) && disk.saved == Some(Manifest(None, [1]))
      ensures torn.None?
    {
      Parts();
      EmptyAgrees(numbers, now);
      disk := disk.(saved := Some(Manifest(None, [1])));
      Whole();
    }

    /** replay_aof for every file the manifest lists, over the snapshot it names. */
    method ReplayFiles() returns (state: Result<Keys, string>)
      requires Valid() && !running && disk.saved.Some?
      ensures state == Replay(numbers, Named(disk.saved.value, disk).keys, Named(disk.saved.value, disk).records)
    {
      var m := disk.saved.value;
      state := Ok(Loaded(m, disk.snaps));
      for i := 0 to |m.aofs|
        invariant state == Replay(numbers, Loaded(m, disk.snaps), Records(disk.files, m.aofs[..i]))
      {
        RecordsUpTo(disk.files, m.aofs, i);
        state := ReplayFile(numbers, state, FileOf(disk.files, m.aofs[i]), Loaded(m, disk.snaps),
                            Records(disk.files, m.aofs[..i]));
      }
      assert m.aofs[..|m.aofs|] == m.aofs;
    }

    /** Open the newest file for appending, once its torn end has been cut off, and delete what is not referenced. */
    method Open(stuck: set<nat>)
      requires Valid() && !running && disk.saved.Some?
      modifies `disk, `torn
      ensures Valid() && Seen() == old(Seen()).(torn := None) && disk.saved == old(disk).saved
      ensures Named(disk.saved.value, disk) == Named(disk.saved.value, old(disk))
    {
      Parts();
      var m := disk.saved.value;
      DownOpened(numbers, disk, past, now, Last(m));
      OpenedSame(disk, Last(m));
      assert Named(m, Opened(disk, Last(m))) == Named(m, disk);
      disk := Opened(disk, Last(m));
      var d := WithoutUnreferenced(disk, m, stuck);
      DownKept(numbers, disk, d, past, now);
      KeptSame(disk, d, m);
      disk, torn := d, None;
      Whole();
    }

    /** What has been loaded, less the keys that have expired meanwhile, is the keyspace. */
    method TakeOver(loaded: Keys)
      requires Valid() && !running && disk.saved.Some? && torn.None?
      requires Replay(numbers, Named(disk.saved.value, disk).keys, Named(disk.saved.value, disk).records) == Ok(loaded)
      modifies `running, `process, `buffer, `memory, `stale, `closing, `backgroundError, `writeError, `past, `before
      ensures Valid() && Started(numbers, old(Seen()), Seen(), now)
    {
      Parts();
      UpStarted(numbers, disk, past, now, loaded);
      RecoversLive(numbers, disk, past, now, loaded);
      var live := Purged(loaded, now);
      Reset();
      Install(live, loaded.Keys - live.Keys, Process(disk.saved.value, Last(disk.saved.value), None, map[], None));
    }

    /** Errors do not outlive the process. */
    method Reset()
      requires Valid() && !running
      modifies `closing, `backgroundError, `writeError
      ensures Valid() && Seen() == old(Seen()).(closing := false, background := false, error := false)
    {
      Parts();
      closing, backgroundError, writeError := false, false, false;
      Whole();
    }

    method Install(live: Keys, gone: set<Key>, p: Process)
      requires Up(numbers, disk, Past(live, []), [], now, gone, p) && Holds(numbers, Past(live, []), [], live) &&
        torn.None?
      modifies `running, `process, `buffer, `memory, `stale, `past, `before
      ensures Valid()
      ensures Seen() == View(true, writeError, backgroundError, old(before) + old(past).synced, live, [], [], live,
                             gone, p, closing, LastListed(disk), None)
    {
      running, buffer, memory, stale, process := true, [], live, gone, p;
      past, before := Past(live, []), before + past.synced;
      Whole();
    }

    /** load and purge: a start, which finds everything that had reached the disk, or is refused, or dies on the way. */
    method Load(fate: Fate, stuck: set<nat>) returns (refused: bool)
      requires Valid() && !running
      modifies `disk, `running, `process, `buffer, `memory, `stale, `closing, `backgroundError, `writeError, `past,
        `before, `torn
      ensures Valid() && Follows(numbers, Starts(fate, stuck), now, old(Seen()), Seen())
      ensures !fate.Dies? ==> refused == Refused(old(Seen()))
    {
      refused := false;
      if disk.saved.None? {
        if fate == Dies(0) {
          return;
        }
        CreateManifest();
      }
      if fate == Dies(1) {
        return;
      }
      if torn.Some? && torn.value != LastListed(disk) {
        return true;
      }
      Parts();
      Recovers(numbers, disk, past, now);
      var state := ReplayFiles();
      Open(stuck);
      if !fate.Dies? {
        TakeOver(state.value);
      }
    }

    // ----------------------------------------------------------- every run

    /** One event. A call that is refused in this state changes nothing. */
    method Handle(event: Event, t: int)
      requires Valid() && now <= t
      modifies this
      ensures Valid() && now == t && Follows(numbers, event, t, old(Seen()), Seen())
    {
      Tick(t);
      if !running {
        if event.Starts? {
          var _ := Load(event.fate, event.stuck);
        }
        return;
      }
      match event {
        case Logs(effect, fails, kept) =>
          if Loggable(numbers, memory, stale, now, effect) {
            var _ := Append(effect, fails, kept);
          }
        case Commits(fate, out, part) =>
          var _ := Commit(fate, out, part);
        case BeginsRewrite(fate, out, part) =>
          var _ := BeginRewrite(fate, out, part);
        case CopyDone =>
          if process.copying.Some? {
            FinishCopy();
          }
        case CopyAbandoned =>
          AbandonCopy();
        case SnapshotWritten(ok) =>
          if process.job.Some? && process.job.value.status.Writing? {
            WriteSnapshot(ok);
          }
        case OldFileClosed(ok) =>
          CloseOld(ok);
        case Polls(fate, stuck, part) =>
          var _ := Poll(fate, stuck, part);
        case Crashes(out, part) =>
          Die(out, part);
        case Starts(_, _) =>
      }
    }

    /** One event after the other. */
    method HandleAll(events: seq<Event>, clock: seq<int>, t: int) returns (ghost trace: seq<View>)
      requires Valid() && |clock| == |events| && Ticks(now, clock + [t])
      modifies this
      ensures Valid() && now <= t && AllFollow(numbers, events, clock, trace)
      ensures trace[0] == old(Seen()) && trace[|events|] == Seen()
    {
      trace := [Seen()];
      ghost var ticks := clock + [t];
      for i := 0 to |events|
        invariant Valid() && now <= ticks[i] && |trace| == i + 1 && trace[0] == old(Seen()) && trace[i] == Seen()
        invariant forall j :: 0 <= j < i ==> Follows(numbers, events[j], clock[j], trace[j], trace[j + 1])
      {
        assert ticks[i] == clock[i] && ticks[i] <= ticks[i + 1];
        Handle(events[i], clock[i]);
        trace := trace + [Seen()];
      }
    }

    /** Any run of events and a crash: what was committed is on the disk, and a start will not be refused. */
    method RunAndCrash(events: seq<Event>, clock: seq<int>, out: nat, part: bool, t: int)
      returns (ghost trace: seq<View>)
      requires Valid() && |clock| == |events| && Ticks(now, clock + [t])
      modifies this
      ensures Valid() && !running && now == t && AllFollow(numbers, events, clock, trace) && trace[0] == old(Seen())
      ensures if trace[|events|].running then Cut(trace[|events|], Seen()) else Seen() == trace[|events|]
      ensures OnLast(old(Seen())) ==> !Refused(Seen())
      ensures forall i :: 0 <= i < |events| && Committed(events[i], trace[i]) ==>
        trace[i].before + trace[i].line <= Durable(Seen())
    {
      Parts();
      trace := HandleAll(events, clock, t);
      Tick(t);
      if running {
        Die(out, part);
      }
      if OnLast(trace[0]) {
        RunOnLast(numbers, events, clock, trace, |events|);
      }
      forall i | 0 <= i < |events| && Committed(events[i], trace[i])
        ensures trace[i].before + trace[i].line <= Durable(Seen())
      {
        CommittedStays(numbers, events, clock, trace, i, |events|);
      }
    }

    /**
     After any run of events, a crash and a start, the keyspace is what the log of the run says up to
     some point past every commit that reported success, less the keys that have expired by then. From a
     process that writes to the last file listed, as a new one does, the start is never refused.
     */
    method Run(events: seq<Event>, clock: seq<int>, out: nat, part: bool, t: int)
      returns (refused: bool, ghost trace: seq<View>, ghost end: View)
      requires Valid() && |clock| == |events| && Ticks(now, clock + [t])
      modifies this
      ensures Valid() && AllFollow(numbers, events, clock, trace) && trace[0] == old(Seen())
      ensures if trace[|events|].running then Cut(trace[|events|], end) else end == trace[|events|]
      ensures refused == Refused(end) && if refused then Seen() == end else Started(numbers, end, Seen(), t)
      ensures OnLast(old(Seen())) ==> !refused && OnLast(Seen())
      ensures forall i :: 0 <= i < |events| && Committed(events[i], trace[i]) ==>
        trace[i].before + trace[i].line <= Durable(end)
    {
      trace := RunAndCrash(events, clock, out, part, t);
      end := Seen();
      refused := Load(Completes, {});
    }
  }

  /**
   A write error raised while one effect is logged leaves an earlier one in the buffer. The commit
   that follows returns all the same, and a crash then loses what it seemed to have committed.
   */
  method SilentCommit(p: Persistence, first: Record, second: Record) returns (logged: bool, committed: bool)
    requires p.Valid() && p.running && !p.writeError && p.buffer == []
    requires Loggable(p.numbers, p.memory, p.stale, p.now, first) && second.Blind()
    modifies p
    ensures logged && committed && p.Valid() && !p.running && p.past.synced == old(p.past).synced
  {
    var raised := p.Append(first, false, true);
    logged := !raised;
    BlindRuns(p.numbers, p.memory, second);
    var _ := p.Append(second, true, false);
    raised := p.Commit(Completes, 0, false);
    committed := !raised;
    p.Lose(false);
  }
}
