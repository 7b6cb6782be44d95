/**
 The append-only files as bytes: a start that reads them gets exactly the records the recovery model
 keeps for them, and is refused exactly where that model says so.
 */
module LogFiles {
  import opened AofReplay
  import opened Resp
  import opened Sequences
  import opened Wrappers
  import E = Effects
  import R = CrashRecovery

  /** How an effect is written as a command. */
  type Coder = E.Record -> Args

  function Commands(coder: Coder, log: R.Log): (r: seq<Args>)
    ensures |r| == |log| && forall i :: 0 <= i < |log| ==> r[i] == coder(log[i])
  {
    seq(|log|, i requires 0 <= i < |log| => coder(log[i]))
  }

  function Frames(c: Checksum, coder: Coder, log: R.Log): (r: seq<string>)
    ensures |r| == |log| && forall i :: 0 <= i < |log| ==> r[i] == RecordOf(c, coder(log[i]))
  {
    seq(|log|, i requires 0 <= i < |log| => RecordOf(c, coder(log[i])))
  }

  /** Every effect is written as a command that can be read back, and that no handler refuses. */
  ghost predicate Readable(coder: Coder, refuses: Args -> bool, log: R.Log) {
    forall i :: 0 <= i < |log| ==>
      coder(log[i]) != [] && Fits(coder(log[i]), MAX_BULK) && !refuses(coder(log[i]))
  }

  /** The bytes of a file: its whole records, and perhaps part of one more. */
  ghost predicate Holds(c: Checksum, coder: Coder, refuses: Args -> bool, log: R.Log, piece: Option<E.Record>,
                        file: string)
  {
    && c.Is32() && Readable(coder, refuses, log)
    && match piece
       case None => file == Join(Frames(c, coder, log))
       case Some(e) =>
         && Readable(coder, refuses, log + [e]) && file <= Join(Frames(c, coder, log + [e]))
         && |Join(Frames(c, coder, log))| < |file| < |Join(Frames(c, coder, log + [e]))|
  }

  /** The log a file was cut from. */
  function Whole(log: R.Log, piece: Option<E.Record>): R.Log {
    if piece.Some? then log + [piece.value] else log
  }

  lemma FramesPrefix(c: Checksum, coder: Coder, log: R.Log, piece: Option<E.Record>)
    ensures Frames(c, coder, Whole(log, piece))[..|log|] == Frames(c, coder, log)
    ensures Commands(coder, Whole(log, piece))[..|log|] == Commands(coder, log)
  {
  }

  lemma HoldsIsCut(c: Checksum, coder: Coder, refuses: Args -> bool, log: R.Log, piece: Option<E.Record>, file: string)
    requires Holds(c, coder, refuses, log, piece, file)
    ensures var all := Whole(log, piece);
      CutLog(c, file, refuses, Commands(coder, all), Frames(c, coder, all))
  {
    var all := Whole(log, piece);
    var commands, frames := Commands(coder, all), Frames(c, coder, all);
    assert Readable(coder, refuses, all) && file <= Join(frames);
    forall i: nat
      ensures RecordAt(c, refuses, commands, frames, i)
    {
      ReadableAt(c, coder, refuses, all, i);
    }
  }

  lemma ReadableAt(c: Checksum, coder: Coder, refuses: Args -> bool, log: R.Log, i: nat)
    requires Readable(coder, refuses, log)
    ensures RecordAt(c, refuses, Commands(coder, log), Frames(c, coder, log), i)
  {
  }

  lemma CutInside(frames: seq<string>, n: nat, file: string, cut: bool)
    requires if cut then n + 1 == |frames| && |Join(frames[..n])| < |file| < |Join(frames)|
             else n == |frames| && |file| == |Join(frames)|
    ensures AtBoundary(frames, file) <==> !cut
  {
    JoinWhole(frames);
    if cut {
      NotWhole(frames, |file|, n);
    } else {
      assert |Join(frames[..n])| == |file|;
    }
  }

  lemma HoldsAtBoundary(c: Checksum, coder: Coder, refuses: Args -> bool, log: R.Log, piece: Option<E.Record>,
                        file: string)
    requires Holds(c, coder, refuses, log, piece, file)
    ensures AtBoundary(Frames(c, coder, Whole(log, piece)), file) <==> piece.None?
  {
    FramesPrefix(c, coder, log, piece);
    CutInside(Frames(c, coder, Whole(log, piece)), |log|, file, piece.Some?);
  }

  /** Only the records before the cut lie wholly before it. */
  lemma WholeAre(frames: seq<string>, n: nat, file: string, cut: bool, m: nat)
    requires if cut then n + 1 == |frames| && |Join(frames[..n])| < |file| < |Join(frames)|
             else n == |frames| && |file| == |Join(frames)|
    requires WholeBefore(frames, |file|, m)
    ensures m == n
  {
    JoinWhole(frames);
    if m < n {
      JoinGrows(frames, m + 1, n);
    }
  }

  lemma WholeIsLog(c: Checksum, coder: Coder, refuses: Args -> bool, log: R.Log, piece: Option<E.Record>, file: string,
                   n: nat)
    requires Holds(c, coder, refuses, log, piece, file)
    requires WholeBefore(Frames(c, coder, Whole(log, piece)), |file|, n)
    ensures n == |log|
  {
    FramesPrefix(c, coder, log, piece);
    WholeAre(Frames(c, coder, Whole(log, piece)), |log|, file, piece.Some?, n);
  }

  /** One file: accepted unless it is cut where that is not allowed, and then its whole records are applied. */
  method ReadFile(c: Checksum, file: string, refuses: Args -> bool, allowTruncate: bool, ghost coder: Coder,
                  ghost log: R.Log, ghost piece: Option<E.Record>)
    returns (r: Result<seq<Args>, string>)
    ensures Holds(c, coder, refuses, log, piece, file) ==> (r.Ok? <==> allowTruncate || piece.None?)
    ensures Holds(c, coder, refuses, log, piece, file) && r.Ok? ==> r.value == Commands(coder, log)
  {
    ghost var all := Whole(log, piece);
    if Holds(c, coder, refuses, log, piece, file) {
      HoldsIsCut(c, coder, refuses, log, piece, file);
      HoldsAtBoundary(c, coder, refuses, log, piece, file);
    }
    var replayed := Replay(c, file, refuses, allowTruncate, Commands(coder, all), Frames(c, coder, all));
    if replayed.Err? {
      return Err(replayed.error);
    }
    if Holds(c, coder, refuses, log, piece, file) {
      WholeIsLog(c, coder, refuses, log, piece, file, |replayed.value.0|);
      FramesPrefix(c, coder, log, piece);
    }
    return Ok(replayed.value.0);
  }

  // --------------------------------------------------------------- all files

  /** The part of a record that file g ends with, if it does. */
  function PieceOf(torn: Option<nat>, piece: E.Record, g: nat): Option<E.Record> {
    if torn == Some(g) then Some(piece) else None
  }

  /** The texts are those of the disk's files, one of which may end in part of a record; an empty one may be missing. */
  ghost predicate OnDisk(c: Checksum, coder: Coder, refuses: Args -> bool, d: R.Disk, torn: Option<nat>,
                         piece: E.Record, texts: map<nat, string>, g: nat)
  {
    if g in texts then Holds(c, coder, refuses, R.FileOf(d.files, g), PieceOf(torn, piece, g), texts[g])
    else R.FileOf(d.files, g) == [] && torn != Some(g)
  }

  lemma CommandsJoin(coder: Coder, first: R.Log, second: R.Log)
    ensures Commands(coder, first + second) == Commands(coder, first) + Commands(coder, second)
  {
  }

  ghost predicate AllOnDisk(c: Checksum, coder: Coder, refuses: Args -> bool, d: R.Disk, torn: Option<nat>,
                            piece: E.Record, texts: map<nat, string>, aofs: seq<nat>)
  {
    forall g :: g in aofs ==> OnDisk(c, coder, refuses, d, torn, piece, texts, g)
  }

  lemma OnDiskAt(c: Checksum, coder: Coder, refuses: Args -> bool, d: R.Disk, torn: Option<nat>, piece: E.Record,
                 texts: map<nat, string>, aofs: seq<nat>, i: nat)
    requires AllOnDisk(c, coder, refuses, d, torn, piece, texts, aofs) && i < |aofs|
    ensures OnDisk(c, coder, refuses, d, torn, piece, texts, aofs[i])
  {
  }

  lemma AppliedOn(coder: Coder, d: R.Disk, aofs: seq<nat>, i: nat, applied: seq<Args>, more: seq<Args>)
    requires i < |aofs|
    ensures applied == Commands(coder, R.Records(d.files, aofs[..i])) &&
            more == Commands(coder, R.FileOf(d.files, aofs[i])) ==>
      applied + more == Commands(coder, R.Records(d.files, aofs[..i + 1]))
  {
    R.RecordsUpTo(d.files, aofs, i);
    CommandsJoin(coder, R.Records(d.files, aofs[..i]), R.FileOf(d.files, aofs[i]));
  }

  /** One of the listed files, which may be missing. */
  method ReadListed(c: Checksum, g: nat, texts: map<nat, string>, refuses: Args -> bool, allowTruncate: bool,
                    ghost coder: Coder, ghost d: R.Disk, ghost torn: Option<nat>, ghost piece: E.Record)
    returns (r: Result<seq<Args>, string>)
    ensures OnDisk(c, coder, refuses, d, torn, piece, texts, g) ==> (r.Ok? <==> allowTruncate || torn != Some(g))
    ensures OnDisk(c, coder, refuses, d, torn, piece, texts, g) && r.Ok? ==>
      r.value == Commands(coder, R.FileOf(d.files, g))
  {
    if g !in texts {
      return Ok([]);
    }
    r := ReadFile(c, texts[g], refuses, allowTruncate, coder, R.FileOf(d.files, g), PieceOf(torn, piece, g));
  }

  /**
   The files of the manifest in order, with a torn end allowed in the last only. That is refused exactly if
   another one has a torn end; otherwise what is applied is every record that the disk holds whole.
   */
  method ReadFiles(c: Checksum, aofs: seq<nat>, texts: map<nat, string>, refuses: Args -> bool, ghost coder: Coder,
                   ghost d: R.Disk, ghost torn: Option<nat>, ghost piece: E.Record)
    returns (r: Result<seq<Args>, string>)
    requires aofs != [] && Ascending(aofs)
    ensures AllOnDisk(c, coder, refuses, d, torn, piece, texts, aofs) ==>
      (r.Err? <==> torn.Some? && torn.value in aofs && torn.value != aofs[|aofs| - 1])
    ensures AllOnDisk(c, coder, refuses, d, torn, piece, texts, aofs) && r.Ok? ==>
      r.value == Commands(coder, R.Records(d.files, aofs))
  {
    ghost var ours := AllOnDisk(c, coder, refuses, d, torn, piece, texts, aofs);
    var applied: seq<Args> := [];
    for i := 0 to |aofs|
      invariant ours ==> applied == Commands(coder, R.Records(d.files, aofs[..i]))
      invariant ours ==> forall j :: 0 <= j < i && j < |aofs| - 1 ==> torn != Some(aofs[j])
    {
      var one := ReadListed(c, aofs[i], texts, refuses, i == |aofs| - 1, coder, d, torn, piece);
      if ours {
        OnDiskAt(c, coder, refuses, d, torn, piece, texts, aofs, i);
      }
      if one.Err? {
        return Err(one.error);
      }
      AppliedOn(coder, d, aofs, i, applied, one.value);
      applied := applied + one.value;
    }
    assert aofs[..|aofs|] == aofs;
    return Ok(applied);
  }

  /** The files a start reads; the first start lists file 1. */
  function Listed(d: R.Disk): seq<nat> {
    if d.saved.Some? then d.saved.value.aofs else [1]
  }

  /**
   Without a process: what reads the bytes is refused exactly if the start of the recovery model is, and
   otherwise applies the very records that start replays.
   */
  method ReadAfter(p: R.Persistence, c: Checksum, texts: map<nat, string>, refuses: Args -> bool, ghost coder: Coder,
                   ghost piece: E.Record)
    returns (r: Result<seq<Args>, string>)
    requires p.Valid() && !p.running
    ensures AllOnDisk(c, coder, refuses, p.disk, p.torn, piece, texts, Listed(p.disk)) ==>
      (r.Err? <==> R.Refused(p.Seen()))
    ensures AllOnDisk(c, coder, refuses, p.disk, p.torn, piece, texts, Listed(p.disk)) && r.Ok? ==>
      r.value == Commands(coder, R.Records(p.disk.files, Listed(p.disk)))
  {
    p.Parts();
    r := ReadFiles(c, Listed(p.disk), texts, refuses, coder, p.disk, p.torn, piece);
  }

  /**
   After any run from a new process, and a crash, also in the middle of a record: whatever the bytes of the
   files then are, reading them is not refused, and applies every record that had reached the disk whole.
   */
  method ReadAfterRun(numbers: E.Numbers, events: seq<R.Event>, clock: seq<int>, out: nat, part: bool, t: int,
                      c: Checksum, texts: map<nat, string>, refuses: Args -> bool, ghost coder: Coder,
                      ghost piece: E.Record)
    returns (r: Result<seq<Args>, string>, p: R.Persistence, ghost trace: seq<R.View>)
    requires |clock| == |events| && R.Ticks(0, clock + [t])
    ensures fresh(p) && p.Valid() && !p.running && R.AllFollow(numbers, events, clock, trace)
    ensures if trace[|events|].running then R.Cut(trace[|events|], p.Seen()) else p.Seen() == trace[|events|]
    ensures AllOnDisk(c, coder, refuses, p.disk, p.torn, piece, texts, Listed(p.disk)) ==>
      r == Ok(Commands(coder, R.Records(p.disk.files, Listed(p.disk))))
  {
    p := new R.Persistence(numbers);
    trace := p.RunAndCrash(events, clock, out, part, t);
    r := ReadAfter(p, c, texts, refuses, coder, piece);
  }
}
