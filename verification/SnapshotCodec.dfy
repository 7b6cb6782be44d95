/** The binary snapshot file, the DUMP payload, and the checksummed writer and reader behind both. */
module SnapshotCodec {

  import opened Wrappers

  type Byte = b: int | 0 <= b < 256
  type Bytes = seq<Byte>
  const WORD := 0x1_0000_0000
  type Word = w: int | 0 <= w < WORD
  /** The eight bytes of an IEEE double, which packing and unpacking carry unchanged. */
  type Double = d: Bytes | |d| == 8 witness [0, 0, 0, 0, 0, 0, 0, 0]

  const FLUSH_AT := 0x10_0000
  const MAGIC: Bytes := [75, 86, 83, 78, 65, 80]
  const VERSION := 1
  const EOF: Byte := 255
  const DUMP_VERSION: Byte := 1
  const HEADER_SIZE := 24

  // ---------------------------------------------------- fixed-width numbers
  function Pow256(width: nat): nat {
    if width == 0 then 1 else 256 * Pow256(width - 1)
  }

  /** n / 256 */
  function High(n: nat): nat {
    if n < 256 then 0 else 1 + High(n - 256)
  }

  /** n % 256 */
  function Low(n: nat): Byte {
    if n < 256 then n else Low(n - 256)
  }

  lemma {:induction false} HighLow(n: nat)
    ensures High(n) == n / 256 && Low(n) == n % 256
  {
    if n >= 256 {
      HighLow(n - 256);
    }
  }

  /** The i-th digit to the base 256. */
  function Digit(n: nat, i: nat): Byte
    decreases i
  {
    if i == 0 then Low(n) else Digit(High(n), i - 1)
  }

  /** Little-endian, least significant byte first. */
  function Pack(n: nat, width: nat): (r: Bytes)
    ensures |r| == width
  {
    seq(width, (i: nat) => Digit(n, i))
  }

  lemma PackStep(n: nat, width: nat)
    requires width > 0
    ensures Pack(n, width) == [Low(n)] + Pack(High(n), width - 1)
  {
  }

  function Value(bytes: Bytes): nat {
    if bytes == [] then 0 else bytes[0] + 256 * Value(bytes[1..])
  }

  function Number(data: Bytes, pos: nat, width: nat): nat
    requires pos + width <= |data|
  {
    Value(data[pos..pos + width])
  }

  /** The bytes lie in the data at that position. */
  ghost predicate At(data: Bytes, pos: nat, bytes: Bytes) {
    pos + |bytes| <= |data| && data[pos..pos + |bytes|] == bytes
  }

  lemma AtConcat(data: Bytes, pos: nat, a: Bytes, b: Bytes)
    ensures At(data, pos, a + b) <==> At(data, pos, a) && At(data, pos + |a|, b)
  {
    if pos + |a| + |b| <= |data| {
      var both, first, second := data[pos..pos + |a + b|], data[pos..pos + |a|], data[pos + |a|..pos + |a| + |b|];
      assert both == first + second;
      assert both[..|a|] == first && both[|a|..] == second;
      assert (a + b)[..|a|] == a && (a + b)[|a|..] == b;
    }
  }

  /** Packing and unpacking are inverse on every number that fits. */
  lemma {:induction false} ValueOfPack(n: nat, width: nat)
    requires n < Pow256(width)
    ensures Value(Pack(n, width)) == n
    decreases width
  {
    if width > 0 {
      HighLow(n);
      PackStep(n, width);
      ValueOfPack(High(n), width - 1);
      assert Pack(n, width)[1..] == Pack(High(n), width - 1);
    }
  }

  lemma {:induction false} PackOfValue(bytes: Bytes)
    ensures Value(bytes) < Pow256(|bytes|) && Pack(Value(bytes), |bytes|) == bytes
  {
    if bytes != [] {
      var n := Value(bytes);
      PackOfValue(bytes[1..]);
      HighLow(n);
      PackStep(n, |bytes|);
      assert bytes == [bytes[0]] + bytes[1..];
    }
  }

  lemma NumberUnpacks(data: Bytes, pos: nat, n: nat, width: nat)
    requires n < Pow256(width) && At(data, pos, Pack(n, width))
    ensures Number(data, pos, width) == n
  {
    ValueOfPack(n, width);
  }

  lemma NumberPacks(data: Bytes, pos: nat, width: nat)
    requires pos + width <= |data|
    ensures Number(data, pos, width) < Pow256(width)
    ensures At(data, pos, Pack(Number(data, pos, width), width))
  {
    PackOfValue(data[pos..pos + width]);
  }

  lemma Powers()
    ensures Pow256(1) == 256 && Pow256(2) == 0x1_0000 && Pow256(4) == WORD
    ensures Pow256(8) == 0x1_0000_0000_0000_0000
  {
    assert Pow256(3) == 0x100_0000;
    assert Pow256(5) == 0x100_0000_0000;
    assert Pow256(6) == 0x1_0000_0000_0000;
    assert Pow256(7) == 0x100_0000_0000_0000;
  }

  const HALF := 0x8000_0000_0000_0000

  predicate IsI64(n: int) { -HALF <= n < HALF }

  /** Two's complement. */
  function Unsigned(n: int): (u: nat)
    ensures u < 2 * HALF && (IsI64(n) ==> Signed(u) == n)
  {
    n % (2 * HALF)
  }

  function Signed(u: int): int {
    if u >= HALF then u - 2 * HALF else u
  }

  // -------------------------------------------------------- parts in a row
  /** The first n parts, one after another. */
  function Join(parts: seq<Bytes>, n: nat): Bytes
    requires n <= |parts|
  {
    if n == 0 then [] else Join(parts, n - 1) + parts[n - 1]
  }

  /** Each part lies right after those before it. */
  lemma {:induction false} JoinPlaced(data: Bytes, pos: nat, parts: seq<Bytes>, i: nat, n: nat)
    requires i < n <= |parts| && At(data, pos, Join(parts, n))
    ensures At(data, pos + |Join(parts, i)|, parts[i])
  {
    AtConcat(data, pos, Join(parts, n - 1), parts[n - 1]);
    if i < n - 1 {
      JoinPlaced(data, pos, parts, i, n - 1);
    }
  }

  lemma {:induction false} JoinPrefix(a: seq<Bytes>, b: seq<Bytes>, n: nat)
    requires n <= |a| && n <= |b| && forall i :: 0 <= i < n ==> a[i] == b[i]
    ensures Join(a, n) == Join(b, n)
  {
    if n > 0 {
      JoinPrefix(a, b, n - 1);
    }
  }

  /** The part after those already read lies where the reader stands. */
  lemma NextPart(data: Bytes, pos: nat, to: nat, read: seq<Bytes>, parts: seq<Bytes>)
    requires read <= parts && |read| < |parts|
    requires At(data, pos, Join(parts, |parts|)) && to == pos + |Join(read, |read|)|
    ensures At(data, to, parts[|read|])
  {
    JoinPlaced(data, pos, parts, |read|, |parts|);
    JoinPrefix(read, parts, |read|);
  }

  lemma OneMorePart(parts: seq<Bytes>, part: Bytes)
    ensures Join(parts + [part], |parts| + 1) == Join(parts, |parts|) + part
  {
    JoinPrefix(parts + [part], parts, |parts|);
  }

  // -------------------------------------------------------------- checksum
  type Step = (Word, Byte) -> Word

  /** A CRC is a fold over the bytes. */
  function Crc(step: Step, data: Bytes, init: Word): Word {
    if data == [] then init else step(Crc(step, data[..|data| - 1], init), data[|data| - 1])
  }

  /** The checksum of a text cut in two is the checksum of the whole. */
  lemma {:induction false} CrcConcat(step: Step, a: Bytes, b: Bytes, init: Word)
    ensures Crc(step, a + b, init) == Crc(step, b, Crc(step, a, init))
  {
    if b == [] {
      assert a + b == a;
    } else {
      assert (a + b)[..|a + b| - 1] == a + b[..|b| - 1];
      CrcConcat(step, a, b[..|b| - 1], init);
    }
  }

  // ------------------------------------------------------------- the format
  datatype Kind = StringKind | ListKind | HashKind | SetKind | ZSetKind
  {
    function Code(): (c: Byte)
      ensures c <= 4 && KindOf(c) == Some(this)
    {
      match this
      case StringKind => 0
      case ListKind => 1
      case HashKind => 2
      case SetKind => 3
      case ZSetKind => 4
    }
  }

  function KindOf(code: Byte): (k: Option<Kind>)
    ensures k.Some? <==> code <= 4
  {
    match code
    case 0 => Some(StringKind)
    case 1 => Some(ListKind)
    case 2 => Some(HashKind)
    case 3 => Some(SetKind)
    case 4 => Some(ZSetKind)
    case _ => None
  }

  datatype Element =
    | Plain(text: Bytes)
    | Field(name: Bytes, value: Bytes)
    | Scored(member: Bytes, score: Double)

  datatype Payload = Single(text: Bytes) | Elements(elements: seq<Element>)

  /** Deadlines in milliseconds. */
  datatype Record = Record(key: Bytes, kind: Kind, payload: Payload, expiresAt: Option<int>)

  predicate ElementMatches(kind: Kind, e: Element) {
    match kind
    case StringKind => false
    case ListKind => e.Plain?
    case SetKind => e.Plain?
    case HashKind => e.Field?
    case ZSetKind => e.Scored?
  }

  predicate AllMatch(kind: Kind, es: seq<Element>) {
    forall i :: 0 <= i < |es| ==> ElementMatches(kind, es[i])
  }

  predicate Matches(kind: Kind, payload: Payload) {
    match payload
    case Single(_) => kind.StringKind?
    case Elements(es) => !kind.StringKind? && AllMatch(kind, es)
  }

  predicate Fits(text: Bytes) { |text| < WORD }

  predicate ElementFits(e: Element) {
    match e
    case Plain(text) => Fits(text)
    case Field(name, value) => Fits(name) && Fits(value)
    case Scored(member, _) => Fits(member)
  }

  predicate AllFit(es: seq<Element>, n: nat)
    requires n <= |es|
  {
    forall i :: 0 <= i < n ==> ElementFits(es[i])
  }

  lemma AllFitStep(es: seq<Element>, n: nat)
    requires n < |es| && AllFit(es, n)
    ensures AllFit(es, n + 1) == ElementFits(es[n])
    ensures !ElementFits(es[n]) ==> !AllFit(es, |es|)
  {
  }

  predicate PayloadFits(payload: Payload) {
    match payload
    case Single(text) => Fits(text)
    case Elements(es) => |es| < WORD && AllFit(es, |es|)
  }

  function Str(text: Bytes): Bytes { Pack(|text|, 4) + text }

  function ElementBytes(e: Element): Bytes {
    match e
    case Plain(text) => Str(text)
    case Field(name, value) => Str(name) + Str(value)
    case Scored(member, score) => Str(member) + score
  }

  function ElementParts(es: seq<Element>): (r: seq<Bytes>)
    ensures |r| == |es| && forall i :: 0 <= i < |r| ==> r[i] == ElementBytes(es[i])
  {
    seq(|es|, i requires 0 <= i < |es| => ElementBytes(es[i]))
  }

  function ElementsBytes(es: seq<Element>): Bytes { Join(ElementParts(es), |es|) }

  function PayloadBytes(payload: Payload): Bytes {
    match payload
    case Single(text) => Str(text)
    case Elements(es) => Pack(|es|, 4) + ElementsBytes(es)
  }

  /** What the file stores for a deadline; no deadline is stored as -1. */
  function Deadline(expiresAt: Option<int>): int {
    if expiresAt.None? then -1 else expiresAt.value
  }

  function FromWire(deadline: int): Option<int> {
    if deadline < 0 then None else Some(deadline)
  }

  predicate Shaped(r: Record) { Matches(r.kind, r.payload) }

  /** Every payload has the shape of its kind. */
  predicate AllShaped(records: seq<Record>) {
    forall i :: 0 <= i < |records| ==> Shaped(records[i])
  }

  /** A record as the file holds it. */
  datatype Stored = Stored(key: Bytes, kind: Kind, payload: Payload, deadline: int)

  function Store(r: Record): Stored {
    Stored(r.key, r.kind, r.payload, Deadline(r.expiresAt))
  }

  function Load(s: Stored): Record {
    Record(s.key, s.kind, s.payload, FromWire(s.deadline))
  }

  function StoreAll(records: seq<Record>): (r: seq<Stored>)
    ensures |r| == |records| && forall i :: 0 <= i < |r| ==> r[i] == Store(records[i])
  {
    seq(|records|, i requires 0 <= i < |records| => Store(records[i]))
  }

  function LoadAll(stored: seq<Stored>): (r: seq<Record>)
    ensures |r| == |stored| && forall i :: 0 <= i < |r| ==> r[i] == Load(stored[i])
  {
    seq(|stored|, i requires 0 <= i < |stored| => Load(stored[i]))
  }

  predicate NoEarlyDeadline(records: seq<Record>) {
    forall i :: 0 <= i < |records| && records[i].expiresAt.Some? ==> records[i].expiresAt.value >= 0
  }

  /** Every record but one with a deadline before 1970, which comes back without it, survives storage. */
  lemma LoadUndoesStore(records: seq<Record>)
    ensures LoadAll(StoreAll(records)) == records <==> NoEarlyDeadline(records)
  {
    var back := LoadAll(StoreAll(records));
    assert forall i :: 0 <= i < |records| ==> back[i] == Load(Store(records[i]));
    if back == records {
      forall i | 0 <= i < |records| && records[i].expiresAt.Some?
        ensures records[i].expiresAt.value >= 0
      {
        assert back[i] == records[i];
      }
    }
  }

  function HeadBytes(kind: Kind, deadline: int): (r: Bytes)
    ensures |r| == 9
  {
    [kind.Code()] + Pack(Unsigned(deadline), 8)
  }

  function StoredBytes(s: Stored): Bytes {
    HeadBytes(s.kind, s.deadline) + Str(s.key) + PayloadBytes(s.payload)
  }

  /** Every length and time fits its field. */
  predicate StoredFits(s: Stored) {
    IsI64(s.deadline) && Fits(s.key) && PayloadFits(s.payload)
  }

  predicate StoredFit(ss: seq<Stored>, n: nat)
    requires n <= |ss|
  {
    forall i :: 0 <= i < n ==> StoredFits(ss[i])
  }

  lemma StoredFitStep(ss: seq<Stored>, n: nat)
    requires n < |ss| && StoredFit(ss, n)
    ensures StoredFit(ss, n + 1) == StoredFits(ss[n])
    ensures !StoredFits(ss[n]) ==> !StoredFit(ss, |ss|)
  {
  }

  function RecordParts(ss: seq<Stored>): (r: seq<Bytes>)
    ensures |r| == |ss| && forall i :: 0 <= i < |r| ==> r[i] == StoredBytes(ss[i])
  {
    seq(|ss|, i requires 0 <= i < |ss| => StoredBytes(ss[i]))
  }

  function RecordsBytes(ss: seq<Stored>): Bytes { Join(RecordParts(ss), |ss|) }

  function Header(created: int, count: nat): (r: Bytes)
    ensures |r| == HEADER_SIZE
  {
    MAGIC + Pack(VERSION, 2) + Pack(Unsigned(created), 8) + Pack(count, 8)
  }

  predicate Encodable(ss: seq<Stored>, created: int) {
    IsI64(created) && |ss| < 2 * HALF && StoredFit(ss, |ss|)
  }

  function Body(ss: seq<Stored>, created: int): Bytes {
    Header(created, |ss|) + RecordsBytes(ss) + [EOF]
  }

  function Sealed(step: Step, body: Bytes): Bytes {
    body + Pack(Crc(step, body, 0), 4)
  }

  // ---------------------------------------------------------------- writing
  lemma Regroup(a: Bytes, b: Bytes, c: Bytes)
    ensures (a + b) + c == a + (b + c)
  {
  }

  /** The first n parts have been written after the start. */
  ghost predicate Appended(contents: Bytes, start: Bytes, parts: seq<Bytes>, n: nat) {
    n <= |parts| && contents == start + Join(parts, n)
  }

  lemma AppendedNone(start: Bytes, parts: seq<Bytes>)
    ensures Appended(start, start, parts, 0)
  {
    assert start + [] == start;
  }

  lemma AppendedOne(contents: Bytes, start: Bytes, parts: seq<Bytes>, n: nat, part: Bytes)
    requires Appended(contents, start, parts, n) && n < |parts| && part == parts[n]
    ensures Appended(contents + part, start, parts, n + 1)
  {
    Regroup(start, Join(parts, n), part);
  }

  datatype Half = Fitting | Placing

  ghost predicate HalfInFile(h: Half, records: seq<Record>, n: nat, contents: Bytes, start: Bytes) {
    n <= |records| &&
    match h
    case Fitting => StoredFit(StoreAll(records), n)
    case Placing => Appended(contents, start, RecordParts(StoreAll(records)), n)
  }

  /** The first n records fit, and follow what was there. */
  ghost predicate InFile(records: seq<Record>, n: nat, contents: Bytes, start: Bytes) {
    forall h: Half :: HalfInFile(h, records, n, contents, start)
  }

  lemma InFileIs(records: seq<Record>, n: nat, contents: Bytes, start: Bytes)
    requires n <= |records|
    ensures InFile(records, n, contents, start) <==>
      StoredFit(StoreAll(records), n) && Appended(contents, start, RecordParts(StoreAll(records)), n)
  {
    assert HalfInFile(Fitting, records, n, contents, start) <==> StoredFit(StoreAll(records), n);
    assert HalfInFile(Placing, records, n, contents, start) <==>
      Appended(contents, start, RecordParts(StoreAll(records)), n);
    if StoredFit(StoreAll(records), n) && Appended(contents, start, RecordParts(StoreAll(records)), n) {
      forall h: Half
        ensures HalfInFile(h, records, n, contents, start)
      {
        match h
        case Fitting =>
        case Placing =>
      }
    }
  }

  lemma InFileNone(records: seq<Record>, start: Bytes)
    ensures InFile(records, 0, start, start)
  {
    AppendedNone(start, RecordParts(StoreAll(records)));
    InFileIs(records, 0, start, start);
  }

  lemma InFileNext(records: seq<Record>, n: nat, contents: Bytes, start: Bytes)
    requires n < |records| && AllShaped(records) && InFile(records, n, contents, start)
    ensures Shaped(records[n])
    ensures if StoredFits(Store(records[n])) then
              InFile(records, n + 1, contents + StoredBytes(Store(records[n])), start)
            else !StoredFit(StoreAll(records), |records|)
  {
    var stored := StoreAll(records);
    assert stored[n] == Store(records[n]);
    InFileIs(records, n, contents, start);
    StoredFitStep(stored, n);
    AppendedOne(contents, start, RecordParts(stored), n, StoredBytes(stored[n]));
    InFileIs(records, n + 1, contents + StoredBytes(stored[n]), start);
  }

  lemma InFileAll(records: seq<Record>, contents: Bytes, start: Bytes)
    requires InFile(records, |records|, contents, start)
    ensures StoredFit(StoreAll(records), |records|) && contents == start + RecordsBytes(StoreAll(records))
  {
    InFileIs(records, |records|, contents, start);
  }

  class ChecksummedWriter {
    const step: Step
    var file: Bytes
    var buf: Bytes
    var crc: Word
    var size: nat

    ghost predicate Valid()
      reads this
    {
      crc == Crc(step, file, 0) && size == |file|
    }

    ghost function Contents(): Bytes
      reads this
    {
      file + buf
    }

    constructor (step: Step)
      ensures Valid() && Contents() == [] && this.step == step
    {
      this.step := step;
      file, buf, crc, size := [], [], 0, 0;
    }

    method Write(data: Bytes)
      requires Valid()
      modifies this
      ensures Valid() && Contents() == old(Contents()) + data && |buf| < FLUSH_AT
    {
      Regroup(file, buf, data);
      buf := buf + data;
      if |buf| >= FLUSH_AT {
        Flush();
      }
    }

    /** However the text is cut by flushes, the running checksum is that of everything in the file. */
    method Flush()
      requires Valid()
      modifies this
      ensures Valid() && Contents() == old(Contents()) && file == old(Contents()) && buf == []
    {
      CrcConcat(step, file, buf, 0);
      crc := Crc(step, buf, crc);
      file := file + buf;
      size := size + |buf|;
      buf := [];
      assert file + buf == file;
    }

    /** Writes the string, or fails if its length does not fit. */
    method WriteStr(text: Bytes) returns (ok: bool)
      requires Valid()
      modifies this
      ensures Valid() && ok == Fits(text)
      ensures ok ==> Contents() == old(Contents()) + Str(text)
    {
      if |text| >= WORD {
        return false;
      }
      Regroup(Contents(), Pack(|text|, 4), text);
      Write(Pack(|text|, 4));
      Write(text);
      return true;
    }

    method WriteElement(e: Element) returns (ok: bool)
      requires Valid()
      modifies this
      ensures Valid() && ok == ElementFits(e)
      ensures ok ==> Contents() == old(Contents()) + ElementBytes(e)
    {
      match e
      case Plain(text) =>
        ok := WriteStr(text);
      case Field(name, value) =>
        Regroup(Contents(), Str(name), Str(value));
        ok := WriteStr(name);
        if ok {
          ok := WriteStr(value);
        }
      case Scored(member, score) =>
        Regroup(Contents(), Str(member), score);
        ok := WriteStr(member);
        if ok {
          Write(score);
        }
    }

    method WriteElements(es: seq<Element>) returns (ok: bool)
      requires Valid()
      modifies this
      ensures Valid() && ok == AllFit(es, |es|)
      ensures ok ==> Contents() == old(Contents()) + ElementsBytes(es)
    {
      var i := 0;
      ghost var start, parts := Contents(), ElementParts(es);
      AppendedNone(start, parts);
      while i < |es|
        invariant 0 <= i <= |es| && Valid() && AllFit(es, i)
        invariant Appended(Contents(), start, parts, i)
      {
        AllFitStep(es, i);
        AppendedOne(Contents(), start, parts, i, ElementBytes(es[i]));
        ok := WriteElement(es[i]);
        if !ok {
          return;
        }
        i := i + 1;
      }
      ok := true;
    }

    method WritePayload(kind: Kind, payload: Payload) returns (ok: bool)
      requires Valid() && Matches(kind, payload)
      modifies this
      ensures Valid() && ok == PayloadFits(payload)
      ensures ok ==> Contents() == old(Contents()) + PayloadBytes(payload)
    {
      if kind.StringKind? {
        ok := WriteStr(payload.text);
        return;
      }
      var es := payload.elements;
      if |es| >= WORD {
        return false;
      }
      Regroup(Contents(), Pack(|es|, 4), ElementsBytes(es));
      Write(Pack(|es|, 4));
      ok := WriteElements(es);
    }

    method WriteRecord(r: Record) returns (ok: bool)
      requires Valid() && Shaped(r)
      modifies this
      ensures Valid() && ok == StoredFits(Store(r))
      ensures ok ==> Contents() == old(Contents()) + StoredBytes(Store(r))
    {
      var deadline := Deadline(r.expiresAt);
      if !IsI64(deadline) {
        return false;
      }
      var head := HeadBytes(r.kind, deadline);
      Regroup(Contents(), head, Str(r.key));
      Regroup(Contents(), head + Str(r.key), PayloadBytes(r.payload));
      Write(head);
      ok := WriteStr(r.key);
      if ok {
        ok := WritePayload(r.kind, r.payload);
      }
    }

    method WriteRecords(records: seq<Record>) returns (ok: bool)
      requires Valid() && AllShaped(records)
      modifies this
      ensures Valid() && ok == StoredFit(StoreAll(records), |records|)
      ensures ok ==> Contents() == old(Contents()) + RecordsBytes(StoreAll(records))
    {
      var i := 0;
      ghost var start := Contents();
      InFileNone(records, start);
      while i < |records|
        invariant 0 <= i <= |records| && Valid() && InFile(records, i, Contents(), start)
      {
        InFileNext(records, i, Contents(), start);
        ok := WriteRecord(records[i]);
        if !ok {
          return;
        }
        i := i + 1;
      }
      InFileAll(records, Contents(), start);
      ok := true;
    }

    /** Appends the checksum of everything written. */
    method Seal() returns (total: nat)
      requires Valid()
      modifies this
      ensures file == Sealed(step, old(Contents())) && total == |file|
    {
      Flush();
      file := file + Pack(crc, 4);
      total := size + 4;
    }
  }

  /** The whole file, or None if some length or time does not fit its field. */
  method EncodeSnapshot(step: Step, records: seq<Record>, created: int) returns (r: Option<Bytes>)
    requires AllShaped(records)
    ensures r.Some? <==> Encodable(StoreAll(records), created)
    ensures r.Some? ==> r.value == Sealed(step, Body(StoreAll(records), created))
  {
    if !IsI64(created) || |records| >= 2 * HALF {
      return None;
    }
    var out := new ChecksummedWriter(step);
    out.Write(Header(created, |records|));
    var ok := out.WriteRecords(records);
    if !ok {
      return None;
    }
    out.Write([EOF]);
    assert [] + Header(created, |records|) == Header(created, |records|);
    assert out.Contents() == Body(StoreAll(records), created);
    var total := out.Seal();
    r := Some(out.file);
  }

  method DumpValue(step: Step, kind: Kind, payload: Payload) returns (r: Option<Bytes>)
    requires Matches(kind, payload)
    ensures r.Some? <==> PayloadFits(payload)
    ensures r.Some? ==> r.value == Sealed(step, DumpBody(kind, payload))
  {
    var out := new ChecksummedWriter(step);
    out.Write([DUMP_VERSION, kind.Code()]);
    assert [] + [DUMP_VERSION, kind.Code()] == [DUMP_VERSION, kind.Code()];
    var ok := out.WritePayload(kind, payload);
    if !ok {
      return None;
    }
    var total := out.Seal();
    r := Some(out.file);
  }

  // ---------------------------------------------------------------- reading
  /** The reader takes exactly these bytes. */
  ghost predicate Took(data: Bytes, from: nat, to: nat, bytes: Bytes) {
    At(data, from, bytes) && to == from + |bytes|
  }

  lemma TookBoth(data: Bytes, from: nat, mid: nat, to: nat, a: Bytes, b: Bytes)
    requires Took(data, from, mid, a) && Took(data, mid, to, b)
    ensures Took(data, from, to, a + b)
  {
    AtConcat(data, from, a, b);
  }

  /** These elements were written here. */
  ghost predicate Wrote(data: Bytes, from: nat, kind: Kind, es: seq<Element>) {
    AllMatch(kind, es) && AllFit(es, |es|) && At(data, from, ElementsBytes(es))
  }

  /** The elements between the two positions; if these were written, the first of those. */
  ghost predicate Progress(data: Bytes, from: nat, to: nat, kind: Kind, es: seq<Element>, want: seq<Element>) {
    && AllMatch(kind, es) && AllFit(es, |es|)
    && Took(data, from, to, ElementsBytes(es))
    && (Wrote(data, from, kind, want) && |es| <= |want| ==> es <= want)
  }

  lemma ElementAccepted(es: seq<Element>, e: Element, kind: Kind)
    requires AllMatch(kind, es) && ElementMatches(kind, e) && AllFit(es, |es|) && ElementFits(e)
    ensures AllMatch(kind, es + [e]) && AllFit(es + [e], |es| + 1)
  {
  }

  lemma ElementAppended(es: seq<Element>, e: Element)
    ensures ElementsBytes(es + [e]) == ElementsBytes(es) + ElementBytes(e)
  {
    assert ElementParts(es + [e]) == ElementParts(es) + [ElementBytes(e)];
    OneMorePart(ElementParts(es), ElementBytes(e));
  }

  lemma PrefixGrows(es: seq<Element>, want: seq<Element>)
    requires es <= want && |es| < |want|
    ensures es + [want[|es|]] <= want
  {
  }

  lemma NextElementFits(kind: Kind, es: seq<Element>, n: nat)
    requires AllMatch(kind, es) && AllFit(es, |es|) && n < |es|
    ensures ElementMatches(kind, es[n]) && ElementFits(es[n])
  {
  }

  lemma SameElementParts(es: seq<Element>, want: seq<Element>)
    requires es <= want
    ensures ElementParts(es) <= ElementParts(want)
  {
    forall i | 0 <= i < |es|
      ensures ElementParts(es)[i] == ElementParts(want)[i]
    {
      assert es[i] == want[i];
    }
  }

  /** The next of the written elements lies where the reader stands. */
  lemma NextElement(data: Bytes, from: nat, to: nat, kind: Kind, es: seq<Element>, want: seq<Element>)
    requires Progress(data, from, to, kind, es, want) && Wrote(data, from, kind, want) && |es| < |want|
    ensures ElementMatches(kind, want[|es|]) && ElementFits(want[|es|]) && At(data, to, ElementBytes(want[|es|]))
  {
    NextElementFits(kind, want, |es|);
    SameElementParts(es, want);
    NextPart(data, from, to, ElementParts(es), ElementParts(want));
  }

  lemma ProgressStep(data: Bytes, from: nat, mid: nat, to: nat, kind: Kind, es: seq<Element>, e: Element,
                     want: seq<Element>)
    requires Progress(data, from, mid, kind, es, want)
    requires ElementMatches(kind, e) && ElementFits(e) && Took(data, mid, to, ElementBytes(e))
    requires Wrote(data, from, kind, want) && |es| < |want| ==> e == want[|es|]
    ensures Progress(data, from, to, kind, es + [e], want)
  {
    ElementAccepted(es, e, kind);
    ElementAppended(es, e);
    TookBoth(data, from, mid, to, ElementsBytes(es), ElementBytes(e));
    if Wrote(data, from, kind, want) && |es| < |want| {
      PrefixGrows(es, want);
    }
  }

  lemma FieldTaken(data: Bytes, from: nat, mid: nat, to: nat, name: Bytes, value: Bytes)
    requires Took(data, from, mid, Str(name)) && Took(data, mid, to, Str(value)) && Fits(name) && Fits(value)
    ensures ElementFits(Field(name, value)) && Took(data, from, to, ElementBytes(Field(name, value)))
  {
    TookBoth(data, from, mid, to, Str(name), Str(value));
  }

  lemma FieldWritten(data: Bytes, pos: nat, name: Bytes, value: Bytes)
    requires At(data, pos, ElementBytes(Field(name, value)))
    ensures At(data, pos, Str(name)) && At(data, pos + |Str(name)|, Str(value))
  {
    AtConcat(data, pos, Str(name), Str(value));
  }

  /** A payload of the kind lies between the two positions. */
  ghost predicate TookPayload(data: Bytes, from: nat, to: nat, kind: Kind, payload: Payload) {
    Matches(kind, payload) && PayloadFits(payload) && Took(data, from, to, PayloadBytes(payload))
  }

  lemma CollectionTaken(
    data: Bytes, from: nat, mid: nat, to: nat, kind: Kind, es: seq<Element>, want: seq<Element>)
    requires Took(data, from, mid, Pack(|es|, 4)) && Progress(data, mid, to, kind, es, want)
    requires !kind.StringKind? && |es| < WORD
    ensures TookPayload(data, from, to, kind, Elements(es))
  {
    TookBoth(data, from, mid, to, Pack(|es|, 4), ElementsBytes(es));
  }

  lemma CollectionWritten(data: Bytes, pos: nat, kind: Kind, want: Payload)
    requires Matches(kind, want) && PayloadFits(want) && At(data, pos, PayloadBytes(want)) && want.Elements?
    ensures |want.elements| < WORD && At(data, pos, Pack(|want.elements|, 4))
    ensures Wrote(data, pos + 4, kind, want.elements)
  {
    AtConcat(data, pos, Pack(|want.elements|, 4), ElementsBytes(want.elements));
  }

  // The same, one level up, for records.

  predicate Sound(s: Stored) {
    StoredFits(s) && Matches(s.kind, s.payload)
  }

  lemma RecordWritten(data: Bytes, pos: nat, want: Stored)
    requires Sound(want) && At(data, pos, StoredBytes(want))
    ensures var head, key := HeadBytes(want.kind, want.deadline), Str(want.key);
      && At(data, pos, head) && At(data, pos + |head|, key)
      && At(data, pos + |head| + |key|, PayloadBytes(want.payload))
  {
    var head, key := HeadBytes(want.kind, want.deadline), Str(want.key);
    AtConcat(data, pos, head + key, PayloadBytes(want.payload));
    AtConcat(data, pos, head, key);
  }

  lemma RecordTaken(data: Bytes, from: nat, afterHead: nat, afterKey: nat, to: nat, kind: Kind, deadline: int,
                    key: Bytes, payload: Payload)
    requires IsI64(deadline) && Took(data, from, afterHead, HeadBytes(kind, deadline))
    requires Fits(key) && Took(data, afterHead, afterKey, Str(key)) && TookPayload(data, afterKey, to, kind, payload)
    ensures var s := Stored(key, kind, payload, deadline); Sound(s) && Took(data, from, to, StoredBytes(s))
  {
    TookBoth(data, from, afterHead, afterKey, HeadBytes(kind, deadline), Str(key));
    TookBoth(data, from, afterKey, to, HeadBytes(kind, deadline) + Str(key), PayloadBytes(payload));
  }

  predicate AllSound(ss: seq<Stored>) {
    forall i :: 0 <= i < |ss| ==> Sound(ss[i])
  }

  ghost predicate WroteRecords(data: Bytes, from: nat, ss: seq<Stored>) {
    AllSound(ss) && At(data, from, RecordsBytes(ss))
  }

  ghost predicate RecordsProgress(data: Bytes, from: nat, to: nat, ss: seq<Stored>, want: seq<Stored>) {
    && AllSound(ss)
    && Took(data, from, to, RecordsBytes(ss))
    && (WroteRecords(data, from, want) && |ss| <= |want| ==> ss <= want)
  }

  lemma RecordAppended(ss: seq<Stored>, s: Stored)
    ensures RecordsBytes(ss + [s]) == RecordsBytes(ss) + StoredBytes(s)
  {
    var parts, longer := RecordParts(ss), RecordParts(ss + [s]);
    forall i | 0 <= i < |longer|
      ensures longer[i] == (parts + [StoredBytes(s)])[i]
    {
      assert (ss + [s])[i] == if i < |ss| then ss[i] else s;
    }
    assert longer == parts + [StoredBytes(s)];
    OneMorePart(RecordParts(ss), StoredBytes(s));
  }

  lemma RecordAccepted(ss: seq<Stored>, s: Stored)
    requires AllSound(ss) && Sound(s)
    ensures AllSound(ss + [s])
  {
  }

  lemma SameRecordParts(ss: seq<Stored>, want: seq<Stored>)
    requires ss <= want
    ensures RecordParts(ss) <= RecordParts(want)
  {
    forall i | 0 <= i < |ss|
      ensures RecordParts(ss)[i] == RecordParts(want)[i]
    {
      assert ss[i] == want[i];
    }
  }

  lemma NextRecord(data: Bytes, from: nat, to: nat, ss: seq<Stored>, want: seq<Stored>)
    requires RecordsProgress(data, from, to, ss, want) && WroteRecords(data, from, want) && |ss| < |want|
    ensures Sound(want[|ss|]) && At(data, to, StoredBytes(want[|ss|]))
  {
    SameRecordParts(ss, want);
    NextPart(data, from, to, RecordParts(ss), RecordParts(want));
  }

  lemma RecordsPrefixGrows(ss: seq<Stored>, want: seq<Stored>)
    requires ss <= want && |ss| < |want|
    ensures ss + [want[|ss|]] <= want
  {
  }

  lemma RecordsStep(data: Bytes, from: nat, mid: nat, to: nat, ss: seq<Stored>, s: Stored, want: seq<Stored>)
    requires RecordsProgress(data, from, mid, ss, want)
    requires Sound(s) && Took(data, mid, to, StoredBytes(s))
    requires WroteRecords(data, from, want) && |ss| < |want| ==> s == want[|ss|]
    ensures RecordsProgress(data, from, to, ss + [s], want)
  {
    RecordAccepted(ss, s);
    RecordAppended(ss, s);
    TookBoth(data, from, mid, to, RecordsBytes(ss), StoredBytes(s));
    if WroteRecords(data, from, want) && |ss| < |want| {
      RecordsPrefixGrows(ss, want);
    }
  }

  lemma HeadUnpacks(data: Bytes, pos: nat, kind: Kind, deadline: int)
    requires IsI64(deadline) && At(data, pos, HeadBytes(kind, deadline))
    ensures pos + 9 <= |data| && data[pos] == kind.Code() && Signed(Number(data, pos + 1, 8)) == deadline
  {
    Powers();
    AtConcat(data, pos, [kind.Code()], Pack(Unsigned(deadline), 8));
    NumberUnpacks(data, pos + 1, Unsigned(deadline), 8);
    assert data[pos..pos + 1][0] == data[pos];
  }

  lemma SignedFits(u: nat)
    requires u < 2 * HALF
    ensures IsI64(Signed(u)) && Unsigned(Signed(u)) == u
  {
  }

  lemma HeadPacks(data: Bytes, pos: nat, kind: Kind)
    requires pos + 9 <= |data| && data[pos] == kind.Code()
    ensures IsI64(Signed(Number(data, pos + 1, 8)))
    ensures Took(data, pos, pos + 9, HeadBytes(kind, Signed(Number(data, pos + 1, 8))))
  {
    var u := Number(data, pos + 1, 8);
    Powers();
    NumberPacks(data, pos + 1, 8);
    SignedFits(u);
    AtConcat(data, pos, [kind.Code()], Pack(u, 8));
    assert data[pos..pos + 1] == [kind.Code()];
  }

  class Reader {
    const data: Bytes
    var pos: nat

    ghost predicate Valid()
      reads this
    {
      pos <= |data|
    }

    constructor (data: Bytes, offset: nat)
      requires offset <= |data|
      ensures Valid() && this.data == data && pos == offset
    {
      this.data := data;
      pos := offset;
    }

    /** A little-endian number of the given width, or None past the end. */
    method Unpack(width: nat) returns (r: Option<nat>)
      requires Valid()
      modifies this
      ensures Valid()
      ensures r.None? <==> old(pos) + width > |data|
      ensures r.Some? ==> r.value == Number(data, old(pos), width) && pos == old(pos) + width
    {
      if pos + width > |data| {
        return None;
      }
      r := Some(Number(data, pos, width));
      pos := pos + width;
    }

    /** A length. */
    method ReadCount(ghost want: nat) returns (r: Option<nat>)
      requires Valid()
      modifies this
      ensures Valid()
      ensures r.Some? ==> r.value < WORD && Took(data, old(pos), pos, Pack(r.value, 4))
      ensures want < WORD && At(data, old(pos), Pack(want, 4)) ==> r == Some(want)
    {
      Powers();
      if want < WORD && At(data, pos, Pack(want, 4)) {
        NumberUnpacks(data, pos, want, 4);
      }
      r := Unpack(4);
      if r.Some? {
        NumberPacks(data, old(pos), 4);
      }
    }

    /** Takes one string exactly as written, and finds every string that was written. */
    method ReadStr(ghost want: Bytes) returns (r: Option<Bytes>)
      requires Valid()
      modifies this
      ensures Valid()
      ensures r.Some? ==> Fits(r.value) && Took(data, old(pos), pos, Str(r.value))
      ensures At(data, old(pos), Str(want)) && Fits(want) ==> r == Some(want)
    {
      AtConcat(data, pos, Pack(|want|, 4), want);
      var size := ReadCount(|want|);
      if size.None? || pos + size.value > |data| {
        return None;
      }
      var text := data[pos..pos + size.value];
      TookBoth(data, old(pos), pos, pos + |text|, Pack(|text|, 4), text);
      pos := pos + size.value;
      r := Some(text);
    }

    method ReadDouble(ghost want: Double) returns (r: Option<Double>)
      requires Valid()
      modifies this
      ensures Valid()
      ensures r.Some? ==> Took(data, old(pos), pos, r.value)
      ensures At(data, old(pos), want) ==> r == Some(want)
    {
      if pos + 8 > |data| {
        return None;
      }
      r := Some(data[pos..pos + 8]);
      pos := pos + 8;
      assert At(data, old(pos), want) ==> data[old(pos)..pos] == want;
    }

    method ReadField(ghost want: Element) returns (r: Option<Element>)
      requires Valid()
      modifies this
      ensures Valid()
      ensures r.Some? ==> r.value.Field? && ElementFits(r.value) && Took(data, old(pos), pos, ElementBytes(r.value))
      ensures want.Field? && ElementFits(want) && At(data, old(pos), ElementBytes(want)) ==> r == Some(want)
    {
      if want.Field? && At(data, pos, ElementBytes(want)) {
        FieldWritten(data, pos, want.name, want.value);
      }
      var name := ReadStr(if want.Field? then want.name else []);
      if name.None? {
        return None;
      }
      ghost var mid := pos;
      var value := ReadStr(if want.Field? then want.value else []);
      if value.None? {
        return None;
      }
      FieldTaken(data, old(pos), mid, pos, name.value, value.value);
      r := Some(Field(name.value, value.value));
    }

    method ReadScored(ghost want: Element) returns (r: Option<Element>)
      requires Valid()
      modifies this
      ensures Valid()
      ensures r.Some? ==> r.value.Scored? && ElementFits(r.value) && Took(data, old(pos), pos, ElementBytes(r.value))
      ensures want.Scored? && ElementFits(want) && At(data, old(pos), ElementBytes(want)) ==> r == Some(want)
    {
      if want.Scored? {
        AtConcat(data, pos, Str(want.member), want.score);
      }
      var member := ReadStr(if want.Scored? then want.member else []);
      if member.None? {
        return None;
      }
      ghost var mid := pos;
      var score := ReadDouble(if want.Scored? then want.score else [0, 0, 0, 0, 0, 0, 0, 0]);
      if score.None? {
        return None;
      }
      TookBoth(data, old(pos), mid, pos, Str(member.value), score.value);
      r := Some(Scored(member.value, score.value));
    }

    method ReadElement(kind: Kind, ghost want: Element) returns (r: Option<Element>)
      requires Valid() && !kind.StringKind?
      modifies this
      ensures Valid()
      ensures r.Some? ==> ElementMatches(kind, r.value) && ElementFits(r.value)
      ensures r.Some? ==> Took(data, old(pos), pos, ElementBytes(r.value))
      ensures ElementMatches(kind, want) && ElementFits(want) && At(data, old(pos), ElementBytes(want)) ==>
        r == Some(want)
    {
      if kind.HashKind? {
        r := ReadField(want);
      } else if kind.ZSetKind? {
        r := ReadScored(want);
      } else {
        var text := ReadStr(if want.Plain? then want.text else []);
        r := if text.None? then None else Some(Plain(text.value));
      }
    }

    method ReadElements(kind: Kind, count: nat, ghost want: seq<Element>) returns (r: Option<seq<Element>>)
      requires Valid() && !kind.StringKind?
      modifies this
      ensures Valid()
      ensures r.Some? ==> |r.value| == count && Progress(data, old(pos), pos, kind, r.value, want)
      ensures |want| == count && Wrote(data, old(pos), kind, want) ==> r == Some(want)
    {
      ghost var start := pos;
      var es: seq<Element> := [];
      while |es| < count
        invariant Valid() && |es| <= count && Progress(data, start, pos, kind, es, want)
      {
        ghost var expected := Plain([]);
        if |es| < |want| && Wrote(data, start, kind, want) {
          expected := want[|es|];
          NextElement(data, start, pos, kind, es, want);
        }
        ghost var mid := pos;
        var e := ReadElement(kind, expected);
        if e.None? {
          return None;
        }
        ProgressStep(data, start, mid, pos, kind, es, e.value, want);
        es := es + [e.value];
      }
      assert es <= want && |es| == |want| ==> es == want;
      r := Some(es);
    }

    method ReadCollection(kind: Kind, ghost want: Payload) returns (r: Option<Payload>)
      requires Valid() && !kind.StringKind?
      modifies this
      ensures Valid()
      ensures forall p :: r == Some(p) ==> TookPayload(data, old(pos), pos, kind, p)
      ensures Matches(kind, want) && PayloadFits(want) && At(data, old(pos), PayloadBytes(want)) ==> r == Some(want)
    {
      ghost var elements := if want.Elements? then want.elements else [];
      if Matches(kind, want) && PayloadFits(want) && At(data, pos, PayloadBytes(want)) {
        CollectionWritten(data, pos, kind, want);
      }
      var es := ReadCounted(kind, elements);
      r := if es.None? then None else Some(Elements(es.value));
    }

    /** A count, and that many elements. */
    method ReadCounted(kind: Kind, ghost want: seq<Element>) returns (r: Option<seq<Element>>)
      requires Valid() && !kind.StringKind?
      modifies this
      ensures Valid()
      ensures forall es :: r == Some(es) ==> TookPayload(data, old(pos), pos, kind, Elements(es))
      ensures |want| < WORD && At(data, old(pos), Pack(|want|, 4)) && Wrote(data, old(pos) + 4, kind, want) ==>
        r == Some(want)
    {
      var count := ReadCount(|want|);
      if count.None? {
        return None;
      }
      ghost var mid := pos;
      r := ReadElements(kind, count.value, want);
      if r.Some? {
        CollectionTaken(data, old(pos), mid, pos, kind, r.value, want);
      }
    }

    method ReadPayload(kind: Kind, ghost want: Payload) returns (r: Option<Payload>)
      requires Valid()
      modifies this
      ensures Valid()
      ensures forall p :: r == Some(p) ==> TookPayload(data, old(pos), pos, kind, p)
      ensures Matches(kind, want) && PayloadFits(want) && At(data, old(pos), PayloadBytes(want)) ==> r == Some(want)
    {
      if kind.StringKind? {
        var text := ReadStr(if want.Single? then want.text else []);
        if text.None? {
          return None;
        }
        assert TookPayload(data, old(pos), pos, kind, Single(text.value));
        r := Some(Single(text.value));
      } else {
        r := ReadCollection(kind, want);
      }
    }

    method ReadHead(ghost kind: Kind, ghost deadline: int) returns (r: Option<(Kind, int)>)
      requires Valid()
      modifies this
      ensures Valid()
      ensures r.Some? ==> IsI64(r.value.1) && Took(data, old(pos), pos, HeadBytes(r.value.0, r.value.1))
      ensures IsI64(deadline) && At(data, old(pos), HeadBytes(kind, deadline)) ==> r == Some((kind, deadline))
    {
      if IsI64(deadline) && At(data, pos, HeadBytes(kind, deadline)) {
        HeadUnpacks(data, pos, kind, deadline);
      }
      if pos + 9 > |data| {
        return None;
      }
      var code := data[pos];
      var number := Number(data, pos + 1, 8);
      pos := pos + 9;
      var named := KindOf(code);
      if named.None? {
        return None;
      }
      HeadPacks(data, old(pos), named.value);
      r := Some((named.value, Signed(number)));
    }

    method ReadRecord(ghost want: Stored) returns (r: Option<Stored>)
      requires Valid()
      modifies this
      ensures Valid()
      ensures r.Some? ==> Sound(r.value) && Took(data, old(pos), pos, StoredBytes(r.value))
      ensures Sound(want) && At(data, old(pos), StoredBytes(want)) ==> r == Some(want)
    {
      if Sound(want) && At(data, pos, StoredBytes(want)) {
        RecordWritten(data, pos, want);
      }
      var head := ReadHead(want.kind, want.deadline);
      if head.None? {
        return None;
      }
      ghost var afterHead := pos;
      var key := ReadStr(want.key);
      if key.None? {
        return None;
      }
      ghost var afterKey := pos;
      var payload := ReadPayload(head.value.0, want.payload);
      if payload.None? {
        return None;
      }
      RecordTaken(data, old(pos), afterHead, afterKey, pos, head.value.0, head.value.1, key.value, payload.value);
      r := Some(Stored(key.value, head.value.0, payload.value, head.value.1));
    }

    /** The records before the first damaged one, and whether there were as many as announced. */
    method ReadRecords(count: nat, ghost want: seq<Stored>) returns (ss: seq<Stored>, complete: bool)
      requires Valid()
      modifies this
      ensures Valid() && (complete ==> |ss| == count && RecordsProgress(data, old(pos), pos, ss, want))
      ensures |want| == count && WroteRecords(data, old(pos), want) ==> complete && ss == want
    {
      ghost var start := pos;
      ss := [];
      while |ss| < count
        invariant Valid() && |ss| <= count && RecordsProgress(data, start, pos, ss, want)
      {
        ghost var expected := Stored([], StringKind, Single([]), 0);
        if |ss| < |want| && WroteRecords(data, start, want) {
          expected := want[|ss|];
          NextRecord(data, start, pos, ss, want);
        }
        ghost var mid := pos;
        var s := ReadRecord(expected);
        if s.None? {
          return ss, false;
        }
        RecordsStep(data, start, mid, pos, ss, s.value, want);
        ss := ss + [s.value];
      }
      assert ss <= want && |ss| == |want| ==> ss == want;
      complete := true;
    }
  }

  // --------------------------------------------------------- whole payloads
  /** The last four bytes are the checksum of the others. */
  predicate SealHolds(step: Step, raw: Bytes) {
    |raw| >= 4 && Crc(step, raw[..|raw| - 4], 0) == Number(raw, |raw| - 4, 4)
  }

  lemma SealedHolds(step: Step, body: Bytes)
    ensures SealHolds(step, Sealed(step, body))
    ensures |Sealed(step, body)| == |body| + 4 && Sealed(step, body)[..|body|] == body
  {
    var crc := Crc(step, body, 0);
    var raw := body + Pack(crc, 4);
    Powers();
    assert raw[..|body|] == body && raw[|body|..|body| + 4] == Pack(crc, 4);
    NumberUnpacks(raw, |body|, crc, 4);
  }

  lemma AtLonger(raw: Bytes, body: Bytes, bytes: Bytes)
    requires body <= raw && At(body, 0, bytes)
    ensures At(raw, 0, bytes)
  {
    assert raw[0..|bytes|] == body[0..|bytes|];
  }

  /** Magic, version and record count. */
  lemma HeaderUnpacks(body: Bytes, created: int, count: nat)
    requires At(body, 0, Header(created, count)) && count < 2 * HALF
    ensures body[..6] == MAGIC && Number(body, 6, 2) == VERSION && Number(body, 16, 8) == count
  {
    Powers();
    var when := Pack(Unsigned(created), 8);
    AtConcat(body, 0, MAGIC + Pack(VERSION, 2) + when, Pack(count, 8));
    AtConcat(body, 0, MAGIC + Pack(VERSION, 2), when);
    AtConcat(body, 0, MAGIC, Pack(VERSION, 2));
    NumberUnpacks(body, 6, VERSION, 2);
    NumberUnpacks(body, 16, count, 8);
  }

  lemma HeaderPacks(body: Bytes) returns (created: int)
    requires |body| >= HEADER_SIZE && body[..6] == MAGIC && Number(body, 6, 2) == VERSION
    ensures IsI64(created) && At(body, 0, Header(created, Number(body, 16, 8)))
  {
    Powers();
    created := Signed(Number(body, 8, 8));
    NumberPacks(body, 6, 2);
    NumberPacks(body, 8, 8);
    NumberPacks(body, 16, 8);
    SignedFits(Number(body, 8, 8));
    var when := Pack(Number(body, 8, 8), 8);
    AtConcat(body, 0, MAGIC, Pack(VERSION, 2));
    AtConcat(body, 0, MAGIC + Pack(VERSION, 2), when);
    AtConcat(body, 0, MAGIC + Pack(VERSION, 2) + when, Pack(Number(body, 16, 8), 8));
  }

  datatype Problem = TooShort | BadChecksum | NotASnapshot | Malformed | NoEndMarker

  lemma Between(data: Bytes, head: Bytes, middle: Bytes)
    ensures At(data, 0, head + middle + [EOF]) <==>
      At(data, 0, head) && At(data, |head|, middle) && |head| + |middle| < |data| && data[|head| + |middle|] == EOF
  {
    AtConcat(data, 0, head + middle, [EOF]);
    AtConcat(data, 0, head, middle);
    var end := |head| + |middle|;
    if end < |data| {
      assert data[end..end + 1] == [data[end]];
      assert [data[end]][0] == data[end] && [EOF][0] == EOF;
    }
  }

  ghost predicate Written(body: Bytes, ss: seq<Stored>, created: int) {
    body == Body(ss, created) && Encodable(ss, created) && AllSound(ss)
  }

  /** What the decoder meets in a body that was written. */
  lemma BodyUnpacks(body: Bytes, ss: seq<Stored>, created: int)
    requires Written(body, ss, created)
    ensures |body| > HEADER_SIZE + |RecordsBytes(ss)| && body[HEADER_SIZE + |RecordsBytes(ss)|] == EOF
    ensures body[..6] == MAGIC && Number(body, 6, 2) == VERSION && Number(body, 16, 8) == |ss|
    ensures WroteRecords(body, HEADER_SIZE, ss)
  {
    assert At(body, 0, body);
    Between(body, Header(created, |ss|), RecordsBytes(ss));
    HeaderUnpacks(body, created, |ss|);
  }

  lemma MiddleTaken(data: Bytes, to: nat, head: Bytes, middle: Bytes)
    requires At(data, 0, head) && Took(data, |head|, to, middle) && to < |data| && data[to] == EOF
    ensures At(data, 0, head + middle + [EOF])
  {
    Between(data, head, middle);
  }

  lemma BodyTaken(body: Bytes, to: nat, ss: seq<Stored>, want: seq<Stored>, created: int)
    requires At(body, 0, Header(created, |ss|)) && RecordsProgress(body, HEADER_SIZE, to, ss, want)
    requires to < |body| && body[to] == EOF
    ensures At(body, 0, Body(ss, created))
  {
    MiddleTaken(body, to, Header(created, |ss|), RecordsBytes(ss));
  }

  /** A body that was written ends its records with the end marker. */
  lemma EndMarker(body: Bytes, to: nat, ss: seq<Stored>, want: seq<Stored>, created: int)
    requires Written(body, ss, created) && RecordsProgress(body, HEADER_SIZE, to, ss, want)
    ensures to < |body| && body[to] == EOF
  {
    BodyUnpacks(body, ss, created);
  }

  method DecodeBody(body: Bytes, ghost want: seq<Stored>, ghost when: int)
    returns (ss: seq<Stored>, problem: Option<Problem>, ghost created: int)
    requires |body| >= HEADER_SIZE + 1
    ensures Written(body, want, when) ==> problem.None? && ss == want
    ensures problem.None? ==> AllSound(ss) && At(body, 0, Body(ss, created))
  {
    ss, problem, created := [], None, 0;
    if Written(body, want, when) {
      BodyUnpacks(body, want, when);
    }
    if body[..6] != MAGIC || Number(body, 6, 2) != VERSION {
      problem := Some(NotASnapshot);
      return;
    }
    created := HeaderPacks(body);
    var complete;
    var reader := new Reader(body, HEADER_SIZE);
    ss, complete := reader.ReadRecords(Number(body, 16, 8), want);
    if complete && Written(body, want, when) {
      EndMarker(body, reader.pos, ss, want, when);
    }
    if !complete || reader.pos == |body| {
      problem := Some(Malformed);
    } else if body[reader.pos] != EOF {
      problem := Some(NoEndMarker);
    } else {
      BodyTaken(body, reader.pos, ss, want, created);
    }
  }

  ghost predicate WrittenSnapshot(step: Step, raw: Bytes, ss: seq<Stored>, created: int) {
    raw == Sealed(step, Body(ss, created)) && Encodable(ss, created) && AllSound(ss)
  }

  lemma Unseal(step: Step, raw: Bytes, ss: seq<Stored>, created: int)
    requires WrittenSnapshot(step, raw, ss, created)
    ensures |raw| >= HEADER_SIZE + 1 + 4 && SealHolds(step, raw) && Written(raw[..|raw| - 4], ss, created)
  {
    SealedHolds(step, Body(ss, created));
  }

  /**
   * Decodes a snapshot. Whatever was encoded comes back; what is accepted begins with the encoding of
   * what was decoded; and nothing is produced from data whose checksum is wrong.
   */
  method DecodeSnapshot(step: Step, raw: Bytes, ghost want: seq<Stored>, ghost when: int)
    returns (records: seq<Record>, problem: Option<Problem>, ghost stored: seq<Stored>, ghost created: int)
    ensures WrittenSnapshot(step, raw, want, when) ==> problem.None? && records == LoadAll(want)
    ensures problem.None? ==> SealHolds(step, raw) && AllSound(stored) && records == LoadAll(stored)
    ensures problem.None? ==> At(raw, 0, Body(stored, created))
    ensures !SealHolds(step, raw) ==> problem.Some? && records == []
  {
    records, stored, created := [], [], 0;
    if WrittenSnapshot(step, raw, want, when) {
      Unseal(step, raw, want, when);
    }
    if |raw| < HEADER_SIZE + 1 + 4 {
      problem := Some(TooShort);
      return;
    }
    var body := raw[..|raw| - 4];
    if Crc(step, body, 0) != Number(raw, |raw| - 4, 4) {
      problem := Some(BadChecksum);
      return;
    }
    var ss;
    ss, problem, created := DecodeBody(body, want, when);
    records, stored := LoadAll(ss), ss;
    if problem.None? {
      AtLonger(raw, body, Body(ss, created));
    }
  }

  lemma StoredSound(records: seq<Record>)
    requires AllShaped(records) && StoredFit(StoreAll(records), |records|)
    ensures AllSound(StoreAll(records))
  {
    var stored := StoreAll(records);
    forall i | 0 <= i < |stored|
      ensures Sound(stored[i])
    {
      assert Shaped(records[i]) && stored[i] == Store(records[i]);
    }
  }

  /** Encoding and decoding give the same records back exactly if none has a deadline before 1970. */
  method Transfer(step: Step, records: seq<Record>, created: int) returns (r: Option<seq<Record>>)
    requires AllShaped(records)
    ensures r.Some? <==> Encodable(StoreAll(records), created)
    ensures r.Some? ==> (r.value == records <==> NoEarlyDeadline(records))
  {
    var raw := EncodeSnapshot(step, records, created);
    if raw.None? {
      return None;
    }
    StoredSound(records);
    LoadUndoesStore(records);
    var back, problem, stored, when := DecodeSnapshot(step, raw.value, StoreAll(records), created);
    r := if problem.None? then Some(back) else None;
  }

  function DumpBody(kind: Kind, payload: Payload): Bytes {
    [DUMP_VERSION, kind.Code()] + PayloadBytes(payload)
  }

  ghost predicate WrittenValue(step: Step, data: Bytes, kind: Kind, payload: Payload) {
    data == Sealed(step, DumpBody(kind, payload)) && Matches(kind, payload) && PayloadFits(payload)
  }

  lemma Starts(body: Bytes, kind: Kind)
    requires |body| >= 2
    ensures At(body, 0, [DUMP_VERSION, kind.Code()]) <==> body[0] == DUMP_VERSION && body[1] == kind.Code()
  {
    assert body[0..2] == [body[0], body[1]];
    assert [body[0], body[1]][0] == body[0] && [body[0], body[1]][1] == body[1];
  }

  lemma UnsealValue(step: Step, data: Bytes, kind: Kind, payload: Payload)
    requires WrittenValue(step, data, kind, payload)
    ensures |data| >= 6 && SealHolds(step, data) && data[0] == DUMP_VERSION && data[1] == kind.Code()
    ensures At(data[..|data| - 4], 2, PayloadBytes(payload))
  {
    var body := DumpBody(kind, payload);
    SealedHolds(step, body);
    assert At(body, 0, body);
    AtConcat(body, 0, [DUMP_VERSION, kind.Code()], PayloadBytes(payload));
    Starts(body, kind);
  }

  lemma KindNamed(code: Byte)
    ensures KindOf(code).Some? ==> KindOf(code).value.Code() == code
  {
  }

  lemma ValueTaken(data: Bytes, body: Bytes, to: nat, kind: Kind, payload: Payload)
    requires body <= data && |body| >= 2 && body[0] == DUMP_VERSION && body[1] == kind.Code()
    requires Took(body, 2, to, PayloadBytes(payload))
    ensures At(data, 0, DumpBody(kind, payload))
  {
    Starts(body, kind);
    AtConcat(body, 0, [DUMP_VERSION, kind.Code()], PayloadBytes(payload));
    AtLonger(data, body, DumpBody(kind, payload));
  }

  /** Inverts DumpValue, and accepts nothing but a checksummed value, perhaps with bytes after it. */
  method LoadValue(step: Step, data: Bytes, ghost kind: Kind, ghost want: Payload) returns (r: Option<(Kind, Payload)>)
    ensures WrittenValue(step, data, kind, want) ==> r == Some((kind, want))
    ensures r.Some? ==> SealHolds(step, data) && Matches(r.value.0, r.value.1)
    ensures r.Some? ==> At(data, 0, DumpBody(r.value.0, r.value.1))
  {
    if WrittenValue(step, data, kind, want) {
      UnsealValue(step, data, kind, want);
    }
    if |data| < 2 + 4 {
      return None;
    }
    var body := data[..|data| - 4];
    if Crc(step, body, 0) != Number(data, |data| - 4, 4) || body[0] != DUMP_VERSION {
      return None;
    }
    var named := KindOf(body[1]);
    if named.None? {
      return None;
    }
    KindNamed(body[1]);
    var reader := new Reader(body, 2);
    var payload := reader.ReadPayload(named.value, want);
    if payload.None? {
      return None;
    }
    ValueTaken(data, body, reader.pos, named.value, payload.value);
    r := Some((named.value, payload.value));
  }
}
