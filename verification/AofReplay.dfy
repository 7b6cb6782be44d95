/**
 The append-only file: framed records, and a replay that stops at a tail torn
 by a crash and cuts it off.
 */
module AofReplay {
  import opened Resp
  import opened Wrappers

  const MAX_BULK: nat := 64 * 1024 * 1024

  // ------------------------------------------------------------ hexadecimal

  predicate IsHex(c: char) {
    '0' <= c <= '9' || 'a' <= c <= 'f' || 'A' <= c <= 'F'
  }

  function HexValue(c: char): (v: nat)
    requires IsHex(c)
    ensures v < 16
  {
    if c <= '9' then c as int - '0' as int
    else if c <= 'F' then c as int - 'A' as int + 10
    else c as int - 'a' as int + 10
  }

  function HexDigit(n: nat): (c: char)
    requires n < 16
    ensures IsHex(c) && HexValue(c) == n
  {
    if n < 10 then (n + '0' as int) as char else (n - 10 + 'a' as int) as char
  }

  /** n / 16, spelled out so that the proofs stay linear. */
  function Sixteenth(n: nat): (t: nat)
    ensures 16 * t <= n < 16 * t + 16
  {
    if n < 16 then 0 else 1 + Sixteenth(n - 16)
  }

  /** The last w hexadecimal digits of n. */
  function Hex(n: nat, w: nat): (s: string)
    ensures |s| == w
    decreases w
  {
    if w == 0 then "" else Hex(Sixteenth(n), w - 1) + [HexDigit(n - 16 * Sixteenth(n))]
  }

  /** int(text, 16), for plain digits. */
  function ParseHex(s: string, j: nat): Option<nat>
    decreases j
  {
    if j == 0 then Some(0)
    else if j > |s| || !IsHex(s[j - 1]) then None
    else
      var rest := ParseHex(s, j - 1);
      if rest.None? then None else Some(rest.value * 16 + HexValue(s[j - 1]))
  }

  function Power16(w: nat): nat {
    if w == 0 then 1 else 16 * Power16(w - 1)
  }

  lemma {:induction false} ParseHexWithin(s: string, t: string, j: nat)
    requires j <= |s|
    ensures ParseHex(s + t, j) == ParseHex(s, j)
  {
    if j > 0 {
      ParseHexWithin(s, t, j - 1);
      assert (s + t)[j - 1] == s[j - 1];
    }
  }

  lemma {:induction false} HexRoundTrip(n: nat, w: nat)
    requires n < Power16(w)
    ensures ParseHex(Hex(n, w), w) == Some(n) && forall i :: 0 <= i < w ==> IsHex(Hex(n, w)[i])
    decreases w
  {
    if w > 0 {
      var t := Sixteenth(n);
      HexRoundTrip(t, w - 1);
      var last := [HexDigit(n - 16 * t)];
      ParseHexWithin(Hex(t, w - 1), last, w - 1);
      assert Hex(n, w) == Hex(t, w - 1) + last;
    }
  }

  // ---------------------------------------------------------------- framing

  /** A checksum of 32 bits. */
  datatype Checksum = Checksum(of: string -> nat)
  {
    ghost predicate Is32() {
      forall p: string :: of(p) < Power16(8)
    }
  }

  function HeaderText(c: Checksum, payload: string): string {
    Hex(c.of(payload), 8) + " " + Decimal(|payload|)
  }

  /** frame_record: a header line, then the payload, whatever bytes it has. */
  function Frame(c: Checksum, payload: string): string {
    "#" + HeaderText(c, payload) + "\n" + payload
  }

  function Join(frames: seq<string>): string {
    if frames == [] then "" else Join(frames[..|frames| - 1]) + frames[|frames| - 1]
  }

  function RecordOf(c: Checksum, args: Args): string {
    Frame(c, EncodeCommand(args))
  }

  /** The i-th record is that of the i-th command, which is well-formed and not refused. */
  ghost predicate RecordAt(c: Checksum, refuses: Args -> bool, commands: seq<Args>, frames: seq<string>, i: nat) {
    i < |commands| && i < |frames| ==>
      frames[i] == RecordOf(c, commands[i]) && commands[i] != [] && Fits(commands[i], MAX_BULK) && !refuses(commands[i])
  }

  // ---------------------------------------------------------------- reading

  /** _v3_header: the checksum and the length in a header line. */
  function ParseHeader(line: string): Option<(nat, int)> {
    if line == "" then None
    else
      var words := Words(line[1..], 0);
      if |words| != 2 then None
      else
        var crc, length := ParseHex(words[0], |words[0]|), ParseInt(words[1]);
        if crc.None? || length.None? || words[0] == "" then None else Some((crc.value, length.value))
  }

  lemma {:induction false} WordEndAt(s: string, i: nat, e: nat)
    requires i <= e <= |s| && (forall k :: i <= k < e ==> !IsSpace(s[k])) && (e < |s| ==> IsSpace(s[e]))
    ensures WordEnd(s, i) == e
    decreases e - i
  {
    if i < e {
      WordEndAt(s, i + 1, e);
    }
  }

  /** Two words with a space between them. */
  lemma TwoWords(s: string, a: string, b: string)
    requires s == a + " " + b && a != "" && b != ""
    requires (forall i :: 0 <= i < |a| ==> !IsSpace(a[i])) && forall i :: 0 <= i < |b| ==> !IsSpace(b[i])
    ensures Words(s, 0) == [a, b]
  {
    assert forall i :: 0 <= i < |a| ==> s[i] == a[i];
    assert s[|a|] == ' ';
    assert forall i :: |a| < i < |s| ==> s[i] == b[i - |a| - 1];
    WordEndAt(s, 0, |a|);
    WordEndAt(s, |a| + 1, |s|);
    assert s[0..|a|] == a && s[|a| + 1..|s|] == b;
    assert Words(s, |s|) == [];
    assert SkipLeft(s, |a|) == |a| + 1;
    assert Words(s, |a|) == [b];
  }

  ghost predicate OneWord(s: string) {
    s != "" && forall i :: 0 <= i < |s| ==> !IsSpace(s[i])
  }

  lemma HeaderOf(hex: string, dec: string, crc: nat, n: int)
    requires OneWord(hex) && OneWord(dec) && ParseHex(hex, |hex|) == Some(crc) && ParseInt(dec) == Some(n)
    ensures ParseHeader("#" + (hex + " " + dec)) == Some((crc, n))
    ensures forall i :: 0 <= i < |hex + " " + dec| ==> (hex + " " + dec)[i] != '\n'
  {
    var text := hex + " " + dec;
    TwoWords(text, hex, dec);
    assert ("#" + text)[1..] == text;
  }

  lemma HeaderWords(c: Checksum, payload: string) returns (hex: string, dec: string)
    requires c.Is32()
    ensures HeaderText(c, payload) == hex + " " + dec && OneWord(hex) && OneWord(dec)
    ensures ParseHex(hex, |hex|) == Some(c.of(payload)) && ParseInt(dec) == Some(|payload|)
  {
    hex, dec := Hex(c.of(payload), 8), Decimal(|payload|);
    HexRoundTrip(c.of(payload), 8);
    DecimalDigits(|payload|);
    DecimalRoundTrip(|payload|);
  }

  /** A header reads back as the checksum and the length it was made from, and is one line. */
  lemma HeaderReads(c: Checksum, payload: string)
    requires c.Is32()
    ensures ParseHeader("#" + HeaderText(c, payload)) == Some((c.of(payload), |payload|))
    ensures forall i :: 0 <= i < |HeaderText(c, payload)| ==> HeaderText(c, payload)[i] != '\n'
  {
    var hex, dec := HeaderWords(c, payload);
    HeaderOf(hex, dec, c.of(payload), |payload|);
  }

  /** readline: up to and with the next newline, or what is left. */
  method ReadLine(file: string, pos: nat) returns (end: nat)
    requires pos <= |file|
    ensures pos <= end <= |file| && (end == pos ==> pos == |file|)
    ensures forall i :: pos <= i < end - 1 ==> file[i] != '\n'
    ensures end > pos && file[end - 1] != '\n' ==> end == |file|
  {
    end := pos;
    while end < |file|
      invariant pos <= end <= |file|
      invariant forall i :: pos <= i < end ==> file[i] != '\n'
    {
      end := end + 1;
      if file[end - 1] == '\n' {
        return;
      }
    }
  }

  /** Where the record that starts at the position ends, as the reader takes it. */
  method RecordEnd(file: string, pos: nat) returns (eol: nat, end: nat)
    requires pos < |file|
    ensures EndsAt(file, pos, eol, end)
  {
    eol := ReadLine(file, pos);
    end := eol;
    var line := if file[eol - 1] == '\n' then file[pos..eol - 1] else file[pos..eol];
    var header := ParseHeader(line);
    if header.Some? {
      end := TakeEnd(file, eol, header.value.1);
    }
  }

  /** What the reader makes of a record that may be cut: all of it, or everything up to the end of the file. */
  lemma RecordArrives(file: string, pos: nat, text: string, payload: string, eol: nat)
    requires pos < eol <= |file| && Agrees(file, pos, "#" + text + "\n" + payload)
    requires forall i :: 0 <= i < |text| ==> text[i] != '\n'
    requires forall i :: pos <= i < eol - 1 ==> file[i] != '\n'
    requires file[eol - 1] != '\n' ==> eol == |file|
    ensures |file| - pos >= |text| + 2 ==>
      eol == pos + |text| + 2 && file[eol - 1] == '\n' && file[pos..eol - 1] == "#" + text && Agrees(file, eol, payload)
    ensures |file| - pos < |text| + 2 ==> eol == |file| && file[eol - 1] != '\n'
  {
    var line := "#" + text;
    AgreesSplit(file, pos, line + "\n", payload);
    AgreesSplit(file, pos, line, "\n");
    forall i | pos <= i < |file| && i < pos + |line|
      ensures file[i] != '\n'
    {
      assert file[pos + (i - pos)] == line[i - pos];
    }
    if |file| - pos >= |line| + 1 {
      assert file[pos + |line| + 0] == "\n"[0];
      AgreesWhole(file, pos, line);
    }
  }

  /** A whole record of this payload. */
  ghost predicate Sound(c: Checksum, file: string, pos: nat, eol: nat, end: nat, payload: string) {
    && pos < eol <= end <= |file| && file[eol - 1] == '\n' && file[eol..end] == payload
    && ParseHeader(file[pos..eol - 1]) == Some((c.of(payload), |payload|))
  }

  /** decode_record, for a record of this version. */
  method Decode(c: Checksum, file: string, pos: nat, eol: nat, end: nat, ghost args: Args)
    returns (r: Result<Args, string>)
    requires pos < eol <= end <= |file|
    ensures Torn(file, pos, eol, end) ==> r.Err?
    ensures Sound(c, file, pos, eol, end, EncodeCommand(args)) && args != [] && Fits(args, MAX_BULK) ==> r == Ok(args)
  {
    if file[eol - 1] != '\n' {
      return Err("incomplete record");
    }
    var header := ParseHeader(file[pos..eol - 1]);
    if header.None? {
      return Err("malformed record header");
    }
    var payload := file[eol..end];
    if |payload| != header.value.1 {
      return Err("incomplete record");
    }
    if c.of(payload) != header.value.0 {
      return Err("checksum mismatch");
    }
    r := DecodePayload(payload, args);
  }

  method DecodePayload(payload: string, ghost args: Args) returns (r: Result<Args, string>)
    ensures payload == EncodeCommand(args) && args != [] && Fits(args, MAX_BULK) ==> r == Ok(args)
  {
    var parser := new RequestParser(MAX_BULK);
    ghost var ours := payload == EncodeCommand(args) && args != [] && Fits(args, MAX_BULK);
    if ours {
      assert [args][1..] == [];
      assert EncodeCommands([args]) == EncodeCommand(args) + "" == payload;
    }
    parser.Feed(payload, [args], "");
    var command := parser.NextCommand([args], "");
    if command.Err? {
      return Err(command.error);
    }
    if command.value.None? || command.value.value == [] {
      return Err("record is not a RESP command");
    }
    return Ok(command.value.value);
  }

  /** Decoding is bound to fail. */
  ghost predicate Torn(file: string, pos: nat, eol: nat, end: nat) {
    && pos < eol <= end == |file|
    && (file[eol - 1] != '\n' || (ParseHeader(file[pos..eol - 1]).Some? &&
                                  ParseHeader(file[pos..eol - 1]).value.1 != end - eol))
  }

  /** Where the reader ends a record whose header line is at hand. */
  ghost predicate EndsAt(file: string, pos: nat, eol: nat, end: nat) {
    && pos < eol <= end <= |file|
    && (forall i :: pos <= i < eol - 1 ==> file[i] != '\n')
    && (file[eol - 1] != '\n' ==> eol == |file|)
    && (file[eol - 1] == '\n' && ParseHeader(file[pos..eol - 1]).Some? ==>
          end == TakeEnd(file, eol, ParseHeader(file[pos..eol - 1]).value.1))
  }

  /** read(length): a negative length reads everything. */
  function TakeEnd(file: string, eol: nat, length: int): int {
    if length < 0 || eol + length > |file| then |file| else eol + length
  }

  lemma RecordTaken(c: Checksum, file: string, pos: nat, text: string, payload: string, eol: nat, end: nat)
    requires EndsAt(file, pos, eol, end) && Agrees(file, pos, "#" + text + "\n" + payload)
    requires forall i :: 0 <= i < |text| ==> text[i] != '\n'
    requires ParseHeader("#" + text) == Some((c.of(payload), |payload|))
    ensures |file| - pos >= |text| + 2 + |payload| ==>
      Sound(c, file, pos, eol, end, payload) && end == pos + |text| + 2 + |payload|
    ensures |file| - pos < |text| + 2 + |payload| ==> Torn(file, pos, eol, end)
  {
    RecordArrives(file, pos, text, payload, eol);
    if |file| - pos >= |text| + 2 + |payload| {
      AgreesWhole(file, eol, payload);
    }
  }

  lemma RecordText(c: Checksum, args: Args) returns (text: string)
    requires c.Is32()
    ensures var payload := EncodeCommand(args);
      && RecordOf(c, args) == "#" + text + "\n" + payload && |RecordOf(c, args)| == |text| + 2 + |payload|
      && ParseHeader("#" + text) == Some((c.of(payload), |payload|)) && forall i :: 0 <= i < |text| ==> text[i] != '\n'
  {
    text := HeaderText(c, EncodeCommand(args));
    HeaderReads(c, EncodeCommand(args));
  }

  /** One record of a log, perhaps cut: decoded if whole, else refused with nothing after it. */
  method ReadRecord(c: Checksum, file: string, pos: nat, ghost args: Args) returns (r: Result<Args, string>, end: nat)
    requires pos < |file| && file[pos] == '#'
    ensures pos < end <= |file|
    ensures c.Is32() && args != [] && Fits(args, MAX_BULK) && Agrees(file, pos, RecordOf(c, args)) ==>
      if |file| - pos >= |RecordOf(c, args)| then r == Ok(args) && end == pos + |RecordOf(c, args)|
      else r.Err? && end == |file|
  {
    var eol;
    eol, end := RecordEnd(file, pos);
    if c.Is32() && args != [] && Fits(args, MAX_BULK) && Agrees(file, pos, RecordOf(c, args)) {
      var text := RecordText(c, args);
      RecordTaken(c, file, pos, text, EncodeCommand(args), eol, end);
    }
    r := Decode(c, file, pos, eol, end, args);
  }

  // ----------------------------------------------------------------- replay

  /** Blank lines are skipped. */
  predicate Blank(line: string) {
    SkipLeft(line, 0) >= |line|
  }

  /** The first n records lie wholly before the cut, and the next one does not. */
  ghost predicate WholeBefore(frames: seq<string>, cut: nat, n: nat) {
    && n <= |frames| && |Join(frames[..n])| <= cut
    && (n < |frames| ==> cut < |Join(frames[..n + 1])|)
  }

  lemma {:induction false} JoinSplit(frames: seq<string>, n: nat)
    requires n <= |frames|
    ensures Join(frames[..n]) <= Join(frames)
  {
    if n == |frames| {
      assert frames[..n] == frames;
    } else {
      var init := frames[..|frames| - 1];
      JoinSplit(init, n);
      assert init[..n] == frames[..n];
    }
  }

  /** The file from the end of the first n records on. */
  lemma JoinAt(file: string, frames: seq<string>, n: nat)
    requires file <= Join(frames) && n < |frames| && |Join(frames[..n])| <= |file|
    ensures Agrees(file, |Join(frames[..n])|, frames[n])
    ensures |Join(frames[..n + 1])| == |Join(frames[..n])| + |frames[n]|
  {
    JoinSplit(frames, n + 1);
    var a := Join(frames[..n]);
    assert frames[..n + 1][..n] == frames[..n];
    var t := a + frames[n];
    assert t == Join(frames[..n + 1]);
    forall i | 0 <= i < |frames[n]| && |a| + i < |file|
      ensures file[|a| + i] == frames[n][i]
    {
      assert t[|a| + i] == frames[n][i];
    }
  }

  lemma JoinGrows(frames: seq<string>, m: nat, n: nat)
    requires m <= n <= |frames|
    ensures |Join(frames[..m])| <= |Join(frames[..n])|
  {
    JoinSplit(frames[..n], m);
    assert frames[..n][..m] == frames[..m];
  }

  /** A cut inside a record leaves no whole number of records. */
  lemma NotWhole(frames: seq<string>, cut: nat, n: nat)
    requires n < |frames| && |Join(frames[..n])| < cut < |Join(frames[..n + 1])|
    ensures forall m :: 0 <= m <= |frames| ==> |Join(frames[..m])| != cut
  {
    forall m | 0 <= m <= |frames|
      ensures |Join(frames[..m])| != cut
    {
      if m <= n {
        JoinGrows(frames, m, n);
      } else {
        JoinGrows(frames, n + 1, m);
      }
    }
  }

  /** The file is this log, cut anywhere; none of its commands is refused. */
  ghost predicate CutLog(c: Checksum, file: string, refuses: Args -> bool, commands: seq<Args>, frames: seq<string>) {
    && c.Is32() && |frames| == |commands| && file <= Join(frames)
    && forall i :: RecordAt(c, refuses, commands, frames, i)
  }

  /** So far n records of it have been applied, up to this position. */
  ghost predicate AppliedSome(file: string, frames: seq<string>, n: nat, pos: nat) {
    n <= |frames| && pos == |Join(frames[..n])| <= |file|
  }

  /** What is applied at the end is all that lies wholly before the cut. */
  lemma AllWhole(file: string, frames: seq<string>, n: nat, pos: nat)
    requires file <= Join(frames) && AppliedSome(file, frames, n, pos) &&
      (forall i :: 0 <= i < |frames| ==> frames[i] != "")
    requires pos < |file| ==> n < |frames| && |file| - pos < |frames[n]|
    ensures WholeBefore(frames, |file|, n) && file[..pos] == Join(frames[..n])
    ensures pos < |file| ==> forall m :: 0 <= m <= |frames| ==> |Join(frames[..m])| != |file|
  {
    JoinSplit(frames, n);
    if n < |frames| {
      JoinAt(file, frames, n);
      if pos < |file| {
        NotWhole(frames, |file|, n);
      }
    }
  }

  lemma JoinWhole(frames: seq<string>)
    ensures Join(frames[..|frames|]) == Join(frames)
  {
    assert frames[..|frames|] == frames;
  }

  /** The next record of the log, whole or cut. */
  lemma NextRecord(c: Checksum, file: string, refuses: Args -> bool, commands: seq<Args>, frames: seq<string>, n: nat,
                   pos: nat)
    requires CutLog(c, file, refuses, commands, frames)
    requires AppliedSome(file, frames, n, pos) && pos < |file|
    ensures n < |commands| && commands[n] != [] && Fits(commands[n], MAX_BULK) && !refuses(commands[n])
    ensures file[pos] == '#' && frames[n] == RecordOf(c, commands[n]) && Agrees(file, pos, frames[n])
    ensures |file| - pos >= |frames[n]| ==> AppliedSome(file, frames, n + 1, pos + |frames[n]|)
  {
    JoinWhole(frames);
    JoinAt(file, frames, n);
    assert RecordAt(c, refuses, commands, frames, n);
    RecordStarts(c, commands[n]);
    assert file[pos + 0] == frames[n][0];
  }

  lemma RecordStarts(c: Checksum, args: Args)
    ensures RecordOf(c, args) != "" && RecordOf(c, args)[0] == '#'
  {
  }

  lemma RecordsNonempty(c: Checksum, file: string, refuses: Args -> bool, commands: seq<Args>, frames: seq<string>)
    requires CutLog(c, file, refuses, commands, frames)
    ensures file <= Join(frames) && |frames| == |commands| && forall i :: 0 <= i < |frames| ==> frames[i] != ""
  {
    forall i | 0 <= i < |commands|
      ensures frames[i] != ""
    {
      assert RecordAt(c, refuses, commands, frames, i);
      RecordStarts(c, commands[i]);
    }
  }

  /** Exactly the commands before the cut were applied, and their records are what is kept. */
  ghost predicate Replayed(commands: seq<Args>, frames: seq<string>, file: string, applied: seq<Args>, good: nat) {
    && applied <= commands && WholeBefore(frames, |file|, |applied|)
    && good <= |file| && file[..good] == Join(frames[..|applied|])
  }

  /** The file ends where a record does. */
  ghost predicate AtBoundary(frames: seq<string>, file: string) {
    exists n :: 0 <= n <= |frames| && |Join(frames[..n])| == |file|
  }

  /** What one turn of the loop finds. */
  datatype Found = Took(args: Args, end: nat) | Skipped(end: nat) | Bad(error: string, end: nat)

  method ReadNext(c: Checksum, file: string, pos: nat, ghost ours: bool, ghost refuses: Args -> bool,
                  ghost commands: seq<Args>, ghost frames: seq<string>, ghost n: nat) returns (f: Found)
    requires pos < |file| && (ours ==> CutLog(c, file, refuses, commands, frames) && AppliedSome(file, frames, n, pos))
    ensures pos < f.end <= |file|
    ensures ours ==> n < |commands| && n < |frames| && !f.Skipped?
    ensures ours && f.Took? ==> f.args == commands[n] && !refuses(f.args) && AppliedSome(file, frames, n + 1, f.end)
    ensures ours && f.Bad? ==> f.end == |file| && |file| - pos < |frames[n]|
  {
    if ours {
      NextRecord(c, file, refuses, commands, frames, n, pos);
    }
    if file[pos] != '#' {
      var eol := ReadLine(file, pos);
      return if Blank(file[pos..eol]) then Skipped(eol) else Bad("not a record of this version", eol);
    }
    var record, end := ReadRecord(c, file, pos, if ours then commands[n] else []);
    return if record.Ok? then Took(record.value, end) else Bad(record.error, end);
  }

  /**
   replay_aof: every record is applied, until a bad one; a bad one with nothing after it is a torn
   tail and is cut off. Refused commands, and bad records elsewhere, stop the start.
   */
  method Replay(c: Checksum, file: string, refuses: Args -> bool, allowTruncate: bool, ghost commands: seq<Args>,
                ghost frames: seq<string>)
    returns (r: Result<(seq<Args>, nat), string>)
    ensures CutLog(c, file, refuses, commands, frames) && r.Ok? ==>
      Replayed(commands, frames, file, r.value.0, r.value.1)
    ensures CutLog(c, file, refuses, commands, frames) ==> (r.Ok? <==> allowTruncate || AtBoundary(frames, file))
  {
    ghost var ours := CutLog(c, file, refuses, commands, frames);
    if ours {
      RecordsNonempty(c, file, refuses, commands, frames);
    }
    var applied: seq<Args>, pos: nat := [], 0;
    var good: nat, torn: bool := 0, false;
    while pos < |file| && !torn
      invariant good <= pos <= |file| && (!torn ==> pos == good)
      invariant ours ==> applied <= commands && AppliedSome(file, frames, |applied|, good)
      invariant ours && torn ==>
        allowTruncate && good < |file| && |applied| < |frames| && |file| - good < |frames[|applied|]|
      decreases |file| - pos, !torn
    {
      var found := ReadNext(c, file, pos, ours, refuses, commands, frames, |applied|);
      match found
      case Skipped(end) => good, pos := end, end;
      case Took(args, end) =>
        if refuses(args) {
          return Err("cannot replay");
        }
        applied, good, pos := applied + [args], end, end;
      case Bad(error, end) =>
        if !allowTruncate || end != |file| {
          if ours {
            AllWhole(file, frames, |applied|, good);
          }
          return Err(error);
        }
        torn := true;
    }
    if ours {
      AllWhole(file, frames, |applied|, good);
    }
    return Ok((applied, good));
  }
}
