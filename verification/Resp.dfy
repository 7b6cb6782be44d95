/**
 The wire format (RESP2): encoding, and parsers that take the bytes in chunks
 of any size. Bytes are characters here.
 */
module Resp {
  import opened Wrappers

  const MAX_INLINE: nat := 64 * 1024
  const MAX_ARRAY: nat := 1024 * 1024
  const LENGTH_LIMIT: nat := 1000000000000
  const COMPACT: nat := 64 * 1024

  // ---------------------------------------------------------------- decimal

  predicate IsDigit(c: char) {
    '0' <= c <= '9'
  }

  function Digit(n: nat): (c: char)
    requires n < 10
    ensures IsDigit(c) && c as int - '0' as int == n
  {
    (n + '0' as int) as char
  }

  /** n / 10, spelled out so that the proofs stay linear. */
  function Tenth(n: nat): (t: nat)
    ensures 10 * t <= n < 10 * t + 10
  {
    if n < 10 then 0 else 1 + Tenth(n - 10)
  }

  function Decimal(n: nat): string {
    if n < 10 then [Digit(n)] else Decimal(Tenth(n)) + [Digit(n - 10 * Tenth(n))]
  }

  function DecimalInt(n: int): string {
    if n < 0 then "-" + Decimal(-n) else Decimal(n)
  }

  predicate IsSpace(c: char) {
    c == ' ' || c == '\t' || c == '\n' || c == '\r' || c == '\U{0b}' || c == '\U{0c}'
  }

  /** The first position from i on that is no space. */
  function SkipLeft(s: string, i: nat): (r: nat)
    ensures i <= r
    decreases |s| - i
  {
    if i < |s| && IsSpace(s[i]) then SkipLeft(s, i + 1) else i
  }

  /** The last position up to j that has no space before it. */
  function SkipRight(s: string, j: nat): (r: nat)
    ensures r <= j
  {
    if 0 < j <= |s| && IsSpace(s[j - 1]) then SkipRight(s, j - 1) else j
  }

  /** The digits from i up to j, with single underscores allowed between them. */
  function Digits(s: string, i: nat, j: nat): Option<int>
    decreases j
  {
    if i >= j || j > |s| || !IsDigit(s[j - 1]) then None
    else
      var d := s[j - 1] as int - '0' as int;
      if i + 1 == j then Some(d)
      else
        var rest := Digits(s, i, if i + 2 < j && s[j - 2] == '_' then j - 2 else j - 1);
        if rest.None? then None else Some(rest.value * 10 + d)
  }

  /** int() of a byte string. */
  function ParseInt(s: string): Option<int> {
    var i, j := SkipLeft(s, 0), SkipRight(s, |s|);
    if i >= j then None
    else if s[i] == '-' then
      var n := Digits(s, i + 1, j);
      if n.None? then None else Some(-n.value)
    else Digits(s, if s[i] == '+' then i + 1 else i, j)
  }

  ghost predicate AllDigits(s: string) {
    forall i :: 0 <= i < |s| ==> IsDigit(s[i])
  }

  /** What surrounds the digits does not matter. */
  lemma {:induction false} DigitsWithin(s: string, before: string, after: string, j: nat)
    requires j <= |s| && AllDigits(s)
    ensures Digits(before + s + after, |before|, |before| + j) == Digits(s, 0, j)
  {
    if j > 0 {
      DigitsWithin(s, before, after, j - 1);
      var t := before + s + after;
      assert t[|before| + j - 1] == s[j - 1];
      if j > 1 {
        assert t[|before| + j - 2] == s[j - 2];
      }
    }
  }

  lemma {:induction false} DecimalDigits(n: nat)
    ensures Decimal(n) != "" && AllDigits(Decimal(n)) && Digits(Decimal(n), 0, |Decimal(n)|) == Some(n)
  {
    if n >= 10 {
      DecimalDigits(Tenth(n));
      var d, s := Decimal(Tenth(n)), Decimal(n);
      var last := [Digit(n - 10 * Tenth(n))];
      DigitsWithin(d, "", last, |d|);
      assert "" + d + last == s;
      assert s[|s| - 2] == d[|d| - 1];
    }
  }

  /** Decimal text reads back as the number. */
  lemma DecimalRoundTrip(n: int)
    ensures ParseInt(DecimalInt(n)) == Some(n) && DecimalInt(n) != ""
  {
    var d := Decimal(if n < 0 then -n else n);
    DecimalDigits(if n < 0 then -n else n);
    if n < 0 {
      DigitsWithin(d, "-", "", |d|);
      assert "-" + d + "" == DecimalInt(n);
    }
    var s := DecimalInt(n);
    assert s[|s| - 1] == d[|d| - 1];
  }

  lemma {:induction false} DecimalLength(n: nat, k: nat, limit: nat)
    requires n < limit && limit == Power10(k) && k > 0
    ensures |Decimal(n)| <= k
  {
    if n >= 10 {
      DecimalLength(Tenth(n), k - 1, Power10(k - 1));
    }
  }

  function Power10(k: nat): nat {
    if k == 0 then 1 else 10 * Power10(k - 1)
  }

  // --------------------------------------------------------------- encoding

  const CRLF := "\r\n"

  type Args = seq<string>

  function Header(kind: char, n: int): string {
    [kind] + DecimalInt(n) + CRLF
  }

  function Bulk(data: string): string {
    Header('$', |data|) + data + CRLF
  }

  function Bulks(args: Args): string {
    if args == [] then "" else Bulk(args[0]) + Bulks(args[1..])
  }

  /** encode_command: an array of bulk strings. */
  function EncodeCommand(args: Args): string {
    Header('*', |args|) + Bulks(args)
  }

  function EncodeCommands(commands: seq<Args>): string {
    if commands == [] then "" else EncodeCommand(commands[0]) + EncodeCommands(commands[1..])
  }

  /** Within the limits of the parser. */
  ghost predicate Fits(args: Args, maxBulk: nat) {
    |args| <= MAX_ARRAY && forall i :: 0 <= i < |args| ==> |args[i]| <= maxBulk
  }

  // ------------------------------------------------------------------ lines

  predicate IsEol(s: string, i: int) {
    0 <= i < |s| - 1 && s[i] == '\r' && s[i + 1] == '\n'
  }

  /** find(CRLF, pos). */
  method FindEol(buf: string, pos: nat) returns (eol: Option<nat>)
    ensures eol.Some? ==> pos <= eol.value && IsEol(buf, eol.value)
    ensures eol.Some? ==> forall i :: pos <= i < eol.value ==> !IsEol(buf, i)
    ensures eol.None? ==> forall i :: pos <= i ==> !IsEol(buf, i)
  {
    var i := pos;
    while i + 1 < |buf|
      invariant pos <= i
      invariant forall j :: pos <= j < i ==> !IsEol(buf, j)
    {
      if IsEol(buf, i) {
        return Some(i);
      }
      i := i + 1;
    }
    return None;
  }

  /** Seen so far of a stream that starts with a header: its line ends where the header does, or has not come yet. */
  lemma HeaderLine(unread: string, kind: char, n: int, rest: string, eol: Option<nat>)
    requires unread <= Header(kind, n) + rest && kind != '\r'
    requires eol.Some? ==> IsEol(unread, eol.value) && forall i :: 0 <= i < eol.value ==> !IsEol(unread, i)
    requires eol.None? ==> forall i :: 0 <= i ==> !IsEol(unread, i)
    ensures eol.Some? <==> |unread| >= |Header(kind, n)|
    ensures eol.Some? ==>
      eol.value + 2 == |Header(kind, n)| && 1 <= eol.value && ParseInt(unread[1..eol.value]) == Some(n)
    ensures eol.None? ==> |unread| < |Header(kind, n)|
  {
    var h := Header(kind, n);
    var t := h + rest;
    DecimalRoundTrip(n);
    DecimalPlain(n);
    var e := 1 + |DecimalInt(n)|;
    assert h[e] == '\r' && h[e + 1] == '\n' && |h| == e + 2;
    assert forall i :: 0 <= i < e ==> h[i] != '\r';
    assert forall i :: 0 <= i < |unread| ==> unread[i] == t[i];
    if |unread| >= |h| {
      assert IsEol(unread, e);
      assert unread[1..e] == DecimalInt(n);
    }
  }

  /** The same, in the coordinates of the buffer. */
  lemma HeaderAt(buf: string, pos: nat, kind: char, n: int, rest: string, eol: Option<nat>)
    requires pos <= |buf| && buf[pos..] <= Header(kind, n) + rest && kind != '\r'
    requires eol.Some? ==> pos <= eol.value && IsEol(buf, eol.value) && forall i :: pos <= i < eol.value ==>
      !IsEol(buf, i)
    requires eol.None? ==> forall i :: pos <= i ==> !IsEol(buf, i)
    ensures eol.Some? <==> |buf| - pos >= |Header(kind, n)|
    ensures eol.Some? ==> eol.value + 2 == pos + |Header(kind, n)| && pos + 1 <= eol.value
    ensures eol.Some? ==> ParseInt(buf[pos + 1..eol.value]) == Some(n)
  {
    var u := buf[pos..];
    forall i: int
      ensures IsEol(u, i) <==> i >= 0 && IsEol(buf, pos + i)
    {
    }
    HeaderLine(u, kind, n, rest, if eol.None? then None else Some(eol.value - pos));
    if eol.Some? {
      assert u[1..eol.value - pos] == buf[pos + 1..eol.value];
    }
  }

  lemma DecimalPlain(n: int)
    ensures forall i :: 0 <= i < |DecimalInt(n)| ==> DecimalInt(n)[i] != '\r'
  {
    DecimalDigits(if n < 0 then -n else n);
  }

  // --------------------------------------------------------------- requests

  /** What is still to be read of a stream of commands, the first of them perhaps begun. */
  ghost function Tail(pending: Option<Args>, todo: seq<Args>): string {
    if pending.None? || todo == [] || |pending.value| > |todo[0]| then EncodeCommands(todo)
    else Bulks(todo[0][|pending.value|..]) + EncodeCommands(todo[1..])
  }

  function WordEnd(s: string, i: nat): (r: nat)
    ensures i <= r && (i < |s| && !IsSpace(s[i]) ==> i < r)
    decreases |s| - i
  {
    if i < |s| && !IsSpace(s[i]) then WordEnd(s, i + 1) else i
  }

  /** split(): the words between white space, from position i on. */
  function Words(s: string, i: nat): Args
    decreases |s| - i
  {
    var start := SkipLeft(s, i);
    var end := WordEnd(s, start);
    if start >= |s| || end > |s| || end == start then [] else [s[start..end]] + Words(s, end)
  }

  lemma Appended(buf: string, pos: nat, data: string, missing: string)
    requires pos <= |buf|
    ensures (buf + data)[pos..] + missing == buf[pos..] + (data + missing)
  {
  }

  /** The header of the first command comes next. */
  lemma TailOfCommand(todo: seq<Args>)
    requires todo != []
    ensures Tail(None, todo) == Header('*', |todo[0]|) + Tail(Some([]), todo)
  {
    var h, b, r := Header('*', |todo[0]|), Bulks(todo[0]), EncodeCommands(todo[1..]);
    assert todo[0][0..] == todo[0];
    assert h + b + r == h + (b + r);
  }

  /** The next bulk string of the command begun comes next. */
  lemma TailOfBulk(done: Args, todo: seq<Args>)
    requires todo != [] && done <= todo[0] && |done| < |todo[0]|
    ensures var a := todo[0][|done|];
      Tail(Some(done), todo) == Bulk(a) + Tail(Some(done + [a]), todo)
  {
    var a, rest, r := todo[0][|done|], todo[0][|done|..], EncodeCommands(todo[1..]);
    assert rest[1..] == todo[0][|done + [a]|..];
    var h, b := Bulk(a), Bulks(rest[1..]);
    assert h + b + r == h + (b + r);
  }

  /** Reading bytes off the front of what is expected. */
  lemma Consumed(buf: string, pos: nat, missing: string, first: string, rest: string)
    requires pos <= |buf| && buf[pos..] + missing == first + rest
    ensures Arrived(buf, pos, first + rest)
    ensures |buf| - pos >= |first| ==> buf[pos + |first|..] + missing == rest
    ensures missing == "" ==> |buf| - pos >= |first|
  {
    var u := buf[pos..];
    assert u <= u + missing;
    if |u| >= |first| {
      assert (u + missing)[|first|..] == rest;
      assert buf[pos + |first|..] == u[|first|..];
    }
  }

  /** A command read to its end. */
  lemma TailOfDone(done: Args, todo: seq<Args>)
    requires todo != [] && done == todo[0]
    ensures Tail(Some(done), todo) == Tail(None, todo[1..])
  {
    assert todo[0][|done|..] == [];
    assert "" + EncodeCommands(todo[1..]) == EncodeCommands(todo[1..]);
  }

  lemma LengthLimit()
    ensures Power10(12) == LENGTH_LIMIT
  {
    assert Power10(6) == 1000000;
  }

  lemma HeaderShort(kind: char, n: nat)
    requires n < LENGTH_LIMIT
    ensures |Header(kind, n)| <= 25
  {
    LengthLimit();
    DecimalLength(n, 12, LENGTH_LIMIT);
  }

  /** As far as the buffer goes, the bytes from the position on are these. */
  ghost predicate Agrees(buf: string, pos: nat, bytes: string) {
    pos <= |buf| && forall i :: 0 <= i < |bytes| && pos + i < |buf| ==> buf[pos + i] == bytes[i]
  }

  lemma AgreesSplit(buf: string, pos: nat, a: string, b: string)
    requires Agrees(buf, pos, a + b)
    ensures Agrees(buf, pos, a) && (|buf| - pos >= |a| ==> Agrees(buf, pos + |a|, b))
  {
    forall i | 0 <= i < |a| && pos + i < |buf|
      ensures buf[pos + i] == a[i]
    {
      assert (a + b)[i] == a[i];
    }
    if |buf| - pos >= |a| {
      forall i | 0 <= i < |b| && pos + |a| + i < |buf|
        ensures buf[pos + |a| + i] == b[i]
      {
        assert (a + b)[|a| + i] == b[i] && buf[pos + (|a| + i)] == (a + b)[|a| + i];
      }
    }
  }

  lemma AgreesWhole(buf: string, pos: nat, a: string)
    requires Agrees(buf, pos, a) && |buf| - pos >= |a|
    ensures buf[pos..pos + |a|] == a
  {
  }

  /** What has arrived of these bytes, from the position on. */
  ghost predicate Arrived(buf: string, pos: nat, bytes: string) {
    pos <= |buf| && buf[pos..] <= bytes
  }

  /** A header line at the position, if it has arrived: its number and the position after it. */
  method ReadHeader(buf: string, pos: nat, ghost kind: char, ghost n: int, ghost rest: string)
    returns (r: Result<Option<(int, nat)>, string>)
    requires pos < |buf|
    ensures r.Ok? && r.value.Some? ==> pos < r.value.value.1 <= |buf|
    ensures kind != '\r' && |Header(kind, n)| <= 25 && Arrived(buf, pos, Header(kind, n) + rest) ==>
      r == Ok(if |buf| - pos >= |Header(kind, n)| then Some((n, pos + |Header(kind, n)|)) else None)
  {
    var eol := FindEol(buf, pos);
    if kind != '\r' && Arrived(buf, pos, Header(kind, n) + rest) {
      HeaderAt(buf, pos, kind, n, rest, eol);
    }
    if eol.None? {
      return if |buf| - pos > MAX_INLINE then Err("too big request line") else Ok(None);
    }
    if eol.value == pos {
      return Err("invalid length");
    }
    var value := ParseInt(buf[pos + 1..eol.value]);
    return if value.None? then Err("invalid length") else Ok(Some((value.value, eol.value + 2)));
  }

  /** A bulk string that has arrived whole. */
  lemma BulkAt(buf: string, pos: nat, a: string, rest: string, start: nat)
    requires Arrived(buf, pos, Bulk(a) + rest) && start == pos + |Header('$', |a|)|
    ensures |buf| >= start + |a| + 2 ==> buf[start..start + |a|] == a && buf[start + |a|..start + |a| + 2] == CRLF
  {
    var h, t := Header('$', |a|), Bulk(a) + rest;
    assert t[|h|..|h| + |a|] == a && t[|h| + |a|..|h| + |a| + 2] == CRLF;
    if |buf| >= start + |a| + 2 {
      var u := buf[pos..];
      assert u[|h|..|h| + |a|] == t[|h|..|h| + |a|] && u[|h| + |a|..|h| + |a| + 2] == t[|h| + |a|..|h| + |a| + 2];
      assert buf[start..start + |a|] == u[|h|..|h| + |a|];
      assert buf[start + |a|..start + |a| + 2] == u[|h| + |a|..|h| + |a| + 2];
    }
  }

  /** The parts of an arriving bulk string, as the reader looks at them. */
  lemma BulkParts(buf: string, pos: nat, a: string, rest: string)
    requires pos < |buf| && Arrived(buf, pos, Bulk(a) + rest)
    ensures buf[pos] == '$' && |Bulk(a)| == |Header('$', |a|)| + |a| + 2
    ensures Arrived(buf, pos, Header('$', |a|) + (a + CRLF + rest))
    ensures var start := pos + |Header('$', |a|)|;
      |buf| >= start + |a| + 2 ==> buf[start..start + |a|] == a && buf[start + |a|..start + |a| + 2] == CRLF
  {
    var h := Header('$', |a|);
    assert Bulk(a) + rest == h + (a + CRLF + rest);
    BulkAt(buf, pos, a, rest, pos + |h|);
    assert (Bulk(a) + rest)[0] == '$' && buf[pos..][0] == buf[pos];
  }

  /** One bulk string at the position, if it has arrived whole: its data and the position after it. */
  method ReadBulk(buf: string, pos: nat, maxBulk: nat, ghost a: string, ghost rest: string)
    returns (r: Result<Option<(string, nat)>, string>)
    requires pos < |buf| && maxBulk < LENGTH_LIMIT
    ensures r.Ok? && r.value.Some? ==> pos < r.value.value.1 <= |buf|
    ensures Arrived(buf, pos, Bulk(a) + rest) && |a| <= maxBulk ==>
      r == Ok(if |buf| - pos >= |Bulk(a)| then Some((a, pos + |Bulk(a)|)) else None)
  {
    if Arrived(buf, pos, Bulk(a) + rest) && |a| <= maxBulk {
      HeaderShort('$', |a|);
      BulkParts(buf, pos, a, rest);
    }
    if buf[pos] != '$' {
      return Err("expected '$'");
    }
    var header := ReadHeader(buf, pos, '$', |a|, a + CRLF + rest);
    if header.Err? {
      return Err(header.error);
    }
    if header.value.None? {
      return Ok(None);
    }
    var (size, start) := header.value.value;
    if size < 0 || size > maxBulk {
      return Err("invalid bulk length");
    }
    var end := start + size;
    if end + 2 > |buf| {
      return Ok(None);
    }
    if buf[end..end + 2] != CRLF {
      return Err("invalid bulk string terminator");
    }
    return Ok(Some((buf[start..end], end + 2)));
  }

  ghost predicate AllFit(todo: seq<Args>, maxBulk: nat) {
    forall i :: 0 <= i < |todo| ==> Fits(todo[i], maxBulk)
  }

  /** In the middle of the encoding of these commands, of which these bytes have not arrived. */
  ghost predicate Reading(buf: string, pos: nat, pending: Option<Args>, remaining: nat, maxBulk: nat, todo: seq<Args>,
                          missing: string)
  {
    && pos <= |buf| && AllFit(todo, maxBulk)
    && buf[pos..] + missing == Tail(pending, todo)
    && (pending.Some? ==> todo != [] && pending.value <= todo[0] && remaining == |todo[0]| - |pending.value|)
  }

  /** The bulk string that comes next, and what taking it leads to. */
  lemma NextIsBulk(buf: string, pos: nat, done: Args, remaining: nat, maxBulk: nat, todo: seq<Args>, missing: string)
    requires Reading(buf, pos, Some(done), remaining, maxBulk, todo, missing) && remaining > 0
    ensures var a := todo[0][|done|];
      && |a| <= maxBulk && Arrived(buf, pos, Bulk(a) + Tail(Some(done + [a]), todo))
      && (missing == "" ==> |buf| - pos >= |Bulk(a)| > 0)
      && (|buf| - pos >= |Bulk(a)| ==>
            Reading(buf, pos + |Bulk(a)|, Some(done + [a]), remaining - 1, maxBulk, todo, missing))
  {
    TailOfBulk(done, todo);
    var a := todo[0][|done|];
    assert Fits(todo[0], maxBulk);
    Consumed(buf, pos, missing, Bulk(a), Tail(Some(done + [a]), todo));
  }

  lemma FirstByte(buf: string, pos: nat, first: string, rest: string)
    requires pos < |buf| && Arrived(buf, pos, first + rest) && first != ""
    ensures buf[pos] == first[0]
  {
    assert buf[pos] == buf[pos..][0] == (first + rest)[0];
  }

  /** The array header that comes next, and what taking it leads to. */
  lemma NextIsArray(buf: string, pos: nat, remaining: nat, maxBulk: nat, todo: seq<Args>, missing: string)
    requires Reading(buf, pos, None, remaining, maxBulk, todo, missing)
    ensures todo == [] ==> pos == |buf| && missing == ""
    ensures todo != [] ==>
      && |todo[0]| <= MAX_ARRAY && |Header('*', |todo[0]|)| <= 25
      && Arrived(buf, pos, Header('*', |todo[0]|) + Tail(Some([]), todo))
      && (pos < |buf| ==> buf[pos] == '*')
      && (missing == "" ==> |buf| - pos >= |Header('*', |todo[0]|)| > 0)
    ensures todo != [] && |buf| - pos >= |Header('*', |todo[0]|)| ==>
      Reading(buf, pos + |Header('*', |todo[0]|)|, Some([]), |todo[0]|, maxBulk, todo, missing)
  {
    if todo != [] {
      var h, rest := Header('*', |todo[0]|), Tail(Some([]), todo);
      assert Fits(todo[0], maxBulk);
      TailOfCommand(todo);
      HeaderShort('*', |todo[0]|);
      Consumed(buf, pos, missing, h, rest);
      if pos < |buf| {
        FirstByte(buf, pos, h, rest);
      }
    }
  }

  lemma CommandDone(buf: string, pos: nat, done: Args, maxBulk: nat, todo: seq<Args>, missing: string)
    requires Reading(buf, pos, Some(done), 0, maxBulk, todo, missing)
    ensures done == todo[0] && Reading(buf, pos, None, 0, maxBulk, todo[1..], missing)
  {
    TailOfDone(done, todo);
  }

  /** The header of an array, if it has arrived: how many bulk strings follow. */
  method ReadArray(buf: string, pos: nat, ghost remaining: nat, maxBulk: nat, ghost todo: seq<Args>,
                   ghost missing: string, ghost ours: bool)
    returns (r: Result<Option<nat>, string>, next: nat)
    requires pos < |buf| && buf[pos] == '*' && (ours ==> Reading(buf, pos, None, remaining, maxBulk, todo, missing))
    ensures pos <= next <= |buf| && (r.Ok? && r.value.None? ==> next == pos)
    ensures ours ==> todo != [] && r.Ok? && (missing == "" ==> r.value.Some?)
    ensures ours && r.value.Some? ==>
      r.value.value == |todo[0]| && Reading(buf, next, Some([]), |todo[0]|, maxBulk, todo, missing)
    ensures ours && r.value == Some(0) ==> todo[0] == [] && Reading(buf, next, None, 0, maxBulk, todo[1..], missing)
  {
    next := pos;
    if ours {
      NextIsArray(buf, pos, remaining, maxBulk, todo, missing);
    }
    var header := ReadHeader(buf, pos, '*', if ours then |todo[0]| else 0, if ours then Tail(Some([]), todo) else "");
    if header.Err? {
      return Err(header.error), pos;
    }
    if header.value.None? {
      return Ok(None), pos;
    }
    var (count, after) := header.value.value;
    if count > MAX_ARRAY {
      return Err("invalid multibulk length"), after;
    }
    if ours && todo[0] == [] {
      CommandDone(buf, after, [], maxBulk, todo, missing);
    }
    return Ok(Some(if count <= 0 then 0 else count)), after;
  }

  /** One turn of the loop over the bulk strings: the next one, if it has arrived. */
  method TakeBulk(buf: string, pos: nat, done: Args, remaining: nat, maxBulk: nat, ghost todo: seq<Args>,
                  ghost missing: string, ghost ours: bool)
    returns (r: Result<Option<(string, nat)>, string>)
    requires pos <= |buf| && maxBulk < LENGTH_LIMIT && remaining > 0
    requires ours ==> Reading(buf, pos, Some(done), remaining, maxBulk, todo, missing)
    ensures r.Ok? && r.value.Some? ==> pos < r.value.value.1 <= |buf|
    ensures ours ==> r.Ok? && (missing == "" ==> r.value.Some?)
    ensures ours && r.value.Some? ==>
      Reading(buf, r.value.value.1, Some(done + [r.value.value.0]), remaining - 1, maxBulk, todo, missing)
  {
    ghost var a := if ours then todo[0][|done|] else "";
    if ours {
      NextIsBulk(buf, pos, done, remaining, maxBulk, todo, missing);
    }
    if pos >= |buf| {
      return Ok(None);
    }
    r := ReadBulk(buf, pos, maxBulk, a, if ours then Tail(Some(done + [a]), todo) else "");
  }

  /** The loop over the bulk strings of a command: all of them, or those that have arrived. */
  method ReadBulks(buf: string, start: nat, before: Args, count: nat, maxBulk: nat, ghost todo: seq<Args>,
                   ghost missing: string, ghost ours: bool)
    returns (r: Result<bool, string>, pos: nat, done: Args, remaining: nat)
    requires start <= |buf| && maxBulk < LENGTH_LIMIT
    requires ours ==> Reading(buf, start, Some(before), count, maxBulk, todo, missing)
    ensures start <= pos <= |buf| && (ours ==> r.Ok? && (missing == "" ==> r.value))
    ensures ours && r.value ==> done == todo[0] && Reading(buf, pos, None, 0, maxBulk, todo[1..], missing)
    ensures ours && !r.value ==> Reading(buf, pos, Some(done), remaining, maxBulk, todo, missing)
  {
    pos, done, remaining := start, before, count;
    while remaining > 0
      invariant start <= pos <= |buf|
      invariant ours ==> Reading(buf, pos, Some(done), remaining, maxBulk, todo, missing)
    {
      var bulk := TakeBulk(buf, pos, done, remaining, maxBulk, todo, missing, ours);
      if bulk.Err? {
        r := Err(bulk.error);
        return;
      }
      if bulk.value.None? {
        r := Ok(false);
        return;
      }
      done, pos, remaining := done + [bulk.value.value.0], bulk.value.value.1, remaining - 1;
    }
    if ours {
      CommandDone(buf, pos, done, maxBulk, todo, missing);
    }
    r := Ok(true);
  }

  class RequestParser {
    const maxBulk: nat
    var buf: string
    var pos: nat
    var pending: Option<Args>
    var remaining: nat

    ghost predicate Valid()
      reads this
    {
      pos <= |buf| && maxBulk < LENGTH_LIMIT
    }

    ghost function Unread(): string
      requires pos <= |buf|
      reads this
    {
      buf[pos..]
    }

    /** The parser is in the middle of the encoding of these commands, of which these bytes have not arrived. */
    ghost predicate Reads(todo: seq<Args>, missing: string)
      reads this
    {
      Valid() && Reading(buf, pos, pending, remaining, maxBulk, todo, missing)
    }

    constructor (maxBulk: nat)
      requires maxBulk < LENGTH_LIMIT
      ensures Valid() && buf == "" && pos == 0 && pending.None? && this.maxBulk == maxBulk
    {
      this.maxBulk := maxBulk;
      buf, pos, pending, remaining := "", 0, None, 0;
    }

    method Feed(data: string, ghost todo: seq<Args>, ghost missing: string)
      requires Valid()
      modifies `buf
      ensures Valid() && buf == old(buf) + data
      ensures old(Reads(todo, data + missing)) ==> Reads(todo, missing)
    {
      Appended(buf, pos, data, missing);
      buf := buf + data;
    }

    /** Drop what has been read, when that is everything or enough. */
    method Compact()
      requires Valid()
      modifies `buf, `pos
      ensures Valid() && Unread() == old(Unread()) && (Unread() == "" ==> buf == "" && pos == 0)
    {
      if pos == |buf| {
        buf, pos := "", 0;
      } else if pos > COMPACT {
        buf, pos := buf[pos..], 0;
      }
    }

    /** An inline command: the words of a line. */
    method ParseInline() returns (r: Result<Option<Args>, string>)
      requires Valid() && pos < |buf|
      modifies `buf, `pos
      ensures Valid()
      ensures r.Ok? && r.value.Some? ==> |Unread()| < |old(Unread())|
    {
      var eol := pos;
      while eol < |buf| && buf[eol] != '\n'
        invariant pos <= eol <= |buf|
      {
        eol := eol + 1;
      }
      if eol == |buf| {
        return if |buf| - pos > MAX_INLINE then Err("too big request line") else Ok(None);
      }
      var line := StripCr(buf[pos..eol]);
      pos := eol + 1;
      Compact();
      return Ok(Some(Words(line, 0)));
    }

    /** next_command: the next complete command, or None for need more data. */
    method NextCommand(ghost todo: seq<Args>, ghost missing: string) returns (r: Result<Option<Args>, string>)
      requires Valid()
      modifies `buf, `pos, `pending, `remaining
      ensures Valid()
      ensures old(Reads(todo, missing)) ==> r.Ok?
      ensures old(Reads(todo, missing)) && r.value.None? ==>
        Reads(todo, missing) && (missing == "" ==> todo == [] && pending.None? && buf == "" && pos == 0)
      ensures old(Reads(todo, missing)) && r.value.Some? ==>
        todo != [] && r.value.value == todo[0] && Reads(todo[1..], missing)
    {
      ghost var ours := Reads(todo, missing);
      if pending.None? {
        if ours {
          NextIsArray(buf, pos, remaining, maxBulk, todo, missing);
        }
        if pos >= |buf| {
          Compact();
          return Ok(None);
        }
        if buf[pos] != '*' {
          r := ParseInline();
          return;
        }
        var begun: Result<Option<nat>, string>;
        begun, pos := ReadArray(buf, pos, remaining, maxBulk, todo, missing, ours);
        if begun.Err? {
          return Err(begun.error);
        }
        if begun.value.None? {
          return Ok(None);
        }
        if begun.value.value == 0 {
          return Ok(Some([]));
        }
        pending, remaining := Some([]), begun.value.value;
      }
      var done, whole;
      whole, pos, done, remaining := ReadBulks(buf, pos, pending.value, remaining, maxBulk, todo, missing, ours);
      pending := Some(done);
      if whole.Err? {
        return Err(whole.error);
      }
      if !whole.value {
        return Ok(None);
      }
      pending := None;
      Compact();
      return Ok(Some(done));
    }
  }

  /** rstrip of carriage returns. */
  function StripCr(s: string): string {
    if s != "" && s[|s| - 1] == '\r' then StripCr(s[..|s| - 1]) else s
  }

  function Concat(chunks: seq<string>): string {
    if chunks == [] then "" else chunks[0] + Concat(chunks[1..])
  }

  /**
   However the encoding of some commands is cut into chunks, the parser returns exactly those
   commands, and ends with nothing buffered and nothing begun.
   */
  method ParseAll(chunks: seq<string>, maxBulk: nat, ghost commands: seq<Args>)
    returns (out: seq<Args>, parser: RequestParser)
    requires maxBulk < LENGTH_LIMIT && Concat(chunks) == EncodeCommands(commands)
    requires AllFit(commands, maxBulk)
    ensures out == commands && parser.buf == "" && parser.pos == 0 && parser.pending.None?
  {
    parser := new RequestParser(maxBulk);
    out := [];
    ghost var todo := commands;
    assert chunks[0..] == chunks;
    for i := 0 to |chunks|
      invariant fresh(parser)
      invariant parser.Reads(todo, Concat(chunks[i..])) && out + todo == commands
    {
      assert chunks[i..][1..] == chunks[i + 1..];
      parser.Feed(chunks[i], todo, Concat(chunks[i + 1..]));
      out, todo := Drain(parser, out, todo, Concat(chunks[i + 1..]), commands);
    }
    assert chunks[|chunks|..] == [];
    out, todo := Drain(parser, out, todo, "", commands);
  }

  /** Every command that has arrived. */
  method Drain(parser: RequestParser, before: seq<Args>, ghost todo: seq<Args>, ghost missing: string,
               ghost commands: seq<Args>)
    returns (out: seq<Args>, ghost rest: seq<Args>)
    requires parser.Reads(todo, missing) && before + todo == commands
    modifies parser
    ensures parser.Reads(rest, missing) && out + rest == commands
    ensures missing == "" ==> rest == [] && parser.buf == "" && parser.pos == 0 && parser.pending.None?
  {
    out, rest := before, todo;
    var more := true;
    while more
      invariant parser.Reads(rest, missing) && out + rest == commands
      invariant !more && missing == "" ==> rest == [] && parser.buf == "" && parser.pos == 0 && parser.pending.None?
      decreases |rest|, more
    {
      var r := parser.NextCommand(rest, missing);
      if r.value.None? {
        more := false;
      } else {
        assert rest == [rest[0]] + rest[1..];
        out, rest := out + [r.value.value], rest[1..];
      }
    }
  }
}
