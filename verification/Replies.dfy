/** Replies of the wire format: nested values, encoded and parsed back however the bytes are cut. */
module Replies {
  import opened Resp
  import opened Wrappers

  datatype Reply =
    | Simple(text: string)
    | Error(text: string)
    | Integer(value: int)
    | Text(data: string)
    | Nil
    | Items(items: seq<Reply>)

  // --------------------------------------------------------------- encoding

  /** encode_error: line ends become spaces. */
  function OneLine(s: string): string {
    if s == "" then "" else [if s[0] == '\r' || s[0] == '\n' then ' ' else s[0]] + OneLine(s[1..])
  }

  function Encode(r: Reply): string {
    match r
    case Simple(text) => "+" + text + CRLF
    case Error(text) => "-" + OneLine(text) + CRLF
    case Integer(value) => Header(':', value)
    case Text(data) => Bulk(data)
    case Nil => Header('$', -1)
    case Items(items) => Header('*', |items|) + EncodeAll(items)
  }

  function EncodeAll(items: seq<Reply>): string {
    if items == [] then "" else Encode(items[0]) + EncodeAll(items[1..])
  }

  ghost predicate NoEol(s: string) {
    forall i :: 0 <= i < |s| ==> s[i] != '\r' && s[i] != '\n'
  }

  /** Status and error texts stay on their line. */
  ghost predicate Clean(r: Reply) {
    match r
    case Simple(text) => NoEol(text)
    case Error(text) => NoEol(text)
    case Items(items) => CleanAll(items)
    case _ => true
  }

  ghost predicate CleanAll(items: seq<Reply>) {
    items == [] || (Clean(items[0]) && CleanAll(items[1..]))
  }

  // ---------------------------------------------------------------- parsing

  datatype Parsed = NotReady | Malformed | Done(reply: Reply, next: nat)
  datatype ParsedAll = NotReadyYet | MalformedItem | DoneAll(items: seq<Reply>, next: nat)

  /** find(CRLF, pos). */
  function Eol(buf: string, pos: nat): (eol: Option<nat>)
    ensures eol.Some? ==> pos <= eol.value && IsEol(buf, eol.value)
    decreases |buf| - pos
  {
    if pos + 1 >= |buf| then None
    else if IsEol(buf, pos) then Some(pos)
    else Eol(buf, pos + 1)
  }

  /** _parse: one reply at the position, and the position after it. */
  function Parse(buf: string, pos: nat): (r: Parsed)
    ensures r.Done? ==> pos < r.next
    decreases |buf| - pos, 0
  {
    var eol := Eol(buf, pos);
    if eol.None? then NotReady
    else if eol.value == pos then Malformed
    else if buf[pos] == '*' then ParseArray(buf, buf[pos + 1..eol.value], eol.value + 2)
    else ParseFlat(buf, buf[pos], buf[pos + 1..eol.value], eol.value + 2)
  }

  function ParseFlat(buf: string, kind: char, line: string, after: nat): (r: Parsed)
    ensures r.Done? ==> after <= r.next
  {
    if kind == '+' then Done(Simple(line), after)
    else if kind == '-' then Done(Error(line), after)
    else if kind == ':' then ParseInteger(line, after)
    else if kind == '$' then ParseBulk(buf, line, after)
    else Malformed
  }

  function ParseArray(buf: string, line: string, after: nat): (r: Parsed)
    ensures r.Done? ==> after <= r.next
    decreases |buf| - after, 2
  {
    var count := ParseInt(line);
    if count.None? then Malformed
    else if count.value < 0 then Done(Nil, after)
    else
      var all := ParseItems(buf, after, count.value);
      match all
      case NotReadyYet => NotReady
      case MalformedItem => Malformed
      case DoneAll(items, next) => Done(Items(items), next)
  }

  function ParseInteger(line: string, after: nat): Parsed {
    var n := ParseInt(line);
    if n.None? then Malformed else Done(Integer(n.value), after)
  }

  function ParseBulk(buf: string, line: string, after: nat): (r: Parsed)
    ensures r.Done? ==> after <= r.next
  {
    var size := ParseInt(line);
    if size.None? then Malformed
    else if size.value < 0 then Done(Nil, after)
    else if after + size.value + 2 > |buf| then NotReady
    else Done(Text(buf[after..after + size.value]), after + size.value + 2)
  }

  function ParseItems(buf: string, pos: nat, count: nat): (r: ParsedAll)
    ensures r.DoneAll? ==> pos <= r.next
    decreases |buf| - pos, 1, count
  {
    if count == 0 then DoneAll([], pos)
    else
      var first := Parse(buf, pos);
      match first
      case NotReady => NotReadyYet
      case Malformed => MalformedItem
      case Done(item, next) =>
        if next > |buf| then MalformedItem
        else
          var rest := ParseItems(buf, next, count - 1);
          if rest.DoneAll? then DoneAll([item] + rest.items, rest.next) else rest
  }

  // ---------------------------------------------------------------- inverse

  lemma {:induction false} EolFirst(buf: string, pos: nat, e: nat)
    requires pos <= e && IsEol(buf, e) && forall i :: pos <= i < e ==> buf[i] != '\r'
    ensures Eol(buf, pos) == Some(e)
    decreases e - pos
  {
    if pos < e {
      EolFirst(buf, pos + 1, e);
    }
  }

  lemma {:induction false} EolNone(buf: string, pos: nat)
    requires forall i :: pos <= i < |buf| - 1 ==> buf[i] != '\r'
    ensures Eol(buf, pos) == None
    decreases |buf| - pos
  {
    if pos + 1 < |buf| {
      EolNone(buf, pos + 1);
    }
  }

  lemma NoCr(buf: string, pos: nat, text: string)
    requires Agrees(buf, pos, text) && forall i :: 0 <= i < |text| ==> text[i] != '\r'
    ensures forall i :: pos <= i < |buf| && i < pos + |text| ==> buf[i] != '\r'
  {
    forall i | pos <= i < |buf| && i < pos + |text|
      ensures buf[i] != '\r'
    {
      assert buf[pos + (i - pos)] == text[i - pos];
    }
  }

  /** A line arriving: found whole, or not yet. */
  lemma LineFound(buf: string, pos: nat, line: string)
    requires Agrees(buf, pos, line + CRLF) && forall i :: 0 <= i < |line| ==> line[i] != '\r'
    ensures Eol(buf, pos) == if |buf| - pos >= |line| + 2 then Some(pos + |line|) else None
    ensures |buf| - pos >= |line| ==> buf[pos..pos + |line|] == line
  {
    AgreesSplit(buf, pos, line, CRLF);
    NoCr(buf, pos, line);
    if |buf| - pos >= |line| {
      AgreesWhole(buf, pos, line);
    }
    if |buf| - pos >= |line| + 2 {
      var e := pos + |line|;
      assert buf[e + 0] == CRLF[0] && buf[e + 1] == CRLF[1];
      EolFirst(buf, pos, e);
    } else {
      EolNone(buf, pos);
    }
  }

  lemma KindAndText(buf: string, pos: nat, kind: char, text: string)
    requires pos + 1 + |text| <= |buf| && buf[pos..pos + 1 + |text|] == [kind] + text
    ensures buf[pos] == kind && buf[pos + 1..pos + 1 + |text|] == text
  {
    var l := buf[pos..pos + 1 + |text|];
    assert l[0] == kind && l[1..] == text;
    assert buf[pos + 1..pos + 1 + |text|] == l[1..];
  }

  /** Its first character is the kind of the reply, the rest its text. */
  lemma LineArrives(buf: string, pos: nat, kind: char, text: string)
    requires Agrees(buf, pos, [kind] + text + CRLF) && kind != '\r' && forall i :: 0 <= i < |text| ==> text[i] != '\r'
    ensures Eol(buf, pos) == if |buf| - pos >= |text| + 3 then Some(pos + 1 + |text|) else None
    ensures |buf| - pos >= |text| + 3 ==> buf[pos] == kind && buf[pos + 1..pos + 1 + |text|] == text
  {
    LineFound(buf, pos, [kind] + text);
    if |buf| - pos >= |text| + 3 {
      KindAndText(buf, pos, kind, text);
    }
  }

  lemma {:induction false} OneLineClean(s: string)
    requires NoEol(s)
    ensures OneLine(s) == s
  {
    if s != "" {
      OneLineClean(s[1..]);
    }
  }

  lemma HeaderParts(kind: char, n: int) returns (d: string)
    ensures Header(kind, n) == [kind] + d + CRLF && |Header(kind, n)| == |d| + 3
    ensures ParseInt(d) == Some(n) && forall i :: 0 <= i < |d| ==> d[i] != '\r'
  {
    d := DecimalInt(n);
    DecimalPlain(n);
    DecimalRoundTrip(n);
  }

  lemma Regroup(a: string, b: string, c: string)
    ensures a + b + c == a + (b + c)
  {
  }

  lemma HeaderArrives(buf: string, pos: nat, kind: char, n: int) returns (h: nat)
    requires Agrees(buf, pos, Header(kind, n)) && kind != '\r'
    ensures h == |Header(kind, n)| && h > 2
    ensures Eol(buf, pos) == if |buf| - pos >= h then Some(pos + h - 2) else None
    ensures |buf| - pos >= h ==> buf[pos] == kind && ParseInt(buf[pos + 1..pos + h - 2]) == Some(n)
  {
    var d := HeaderParts(kind, n);
    h := |d| + 3;
    LineArrives(buf, pos, kind, d);
  }

  /** The reply at the position, if its bytes have arrived. */
  ghost predicate Reads(buf: string, pos: nat, r: Reply) {
    Parse(buf, pos) == if |buf| - pos >= |Encode(r)| then Done(r, pos + |Encode(r)|) else NotReady
  }

  lemma ReadsLine(buf: string, pos: nat, r: Reply)
    requires (r.Simple? || r.Error?) && Clean(r) && Agrees(buf, pos, Encode(r))
    ensures Reads(buf, pos, r)
  {
    OneLineClean(r.text);
    var kind := if r.Simple? then '+' else '-';
    LineArrives(buf, pos, kind, r.text);
  }

  lemma ReadsNumber(buf: string, pos: nat, r: Reply)
    requires (r.Integer? || r.Nil?) && Agrees(buf, pos, Encode(r))
    ensures Reads(buf, pos, r)
  {
    if r.Integer? {
      var h := HeaderArrives(buf, pos, ':', r.value);
    } else {
      var h := HeaderArrives(buf, pos, '$', -1);
    }
  }

  /** Once the first line is there, the rest is read according to its kind. */
  lemma ParseStep(buf: string, pos: nat, h: nat)
    requires pos <= |buf| && h > 2 && Eol(buf, pos) == if |buf| - pos >= h then Some(pos + h - 2) else None
    ensures |buf| - pos < h ==> Parse(buf, pos) == NotReady
    ensures |buf| - pos >= h && buf[pos] == '*' ==>
      Parse(buf, pos) == ParseArray(buf, buf[pos + 1..pos + h - 2], pos + h)
    ensures |buf| - pos >= h && buf[pos] != '*' ==>
      Parse(buf, pos) == ParseFlat(buf, buf[pos], buf[pos + 1..pos + h - 2], pos + h)
  {
  }

  /** A size line and the data after it make a bulk reply. */
  lemma TextStep(buf: string, line: string, after: nat, data: string)
    requires ParseInt(line) == Some(|data|)
    requires |buf| >= after + |data| + 2 ==> buf[after..after + |data|] == data
    ensures ParseFlat(buf, '$', line, after) ==
      if |buf| >= after + |data| + 2 then Done(Text(data), after + |data| + 2) else NotReady
  {
  }

  lemma DataArrives(buf: string, pos: nat, data: string)
    requires Agrees(buf, pos, data + CRLF)
    ensures |buf| >= pos + |data| + 2 ==> buf[pos..pos + |data|] == data
  {
    AgreesSplit(buf, pos, data, CRLF);
    if |buf| >= pos + |data| {
      AgreesWhole(buf, pos, data);
    }
  }

  lemma ReadsText(buf: string, pos: nat, data: string)
    requires Agrees(buf, pos, Bulk(data))
    ensures Reads(buf, pos, Text(data))
  {
    Regroup(Header('$', |data|), data, CRLF);
    AgreesSplit(buf, pos, Header('$', |data|), data + CRLF);
    var h := HeaderArrives(buf, pos, '$', |data|);
    ParseStep(buf, pos, h);
    if |buf| - pos >= h {
      DataArrives(buf, pos + h, data);
      TextStep(buf, buf[pos + 1..pos + h - 2], pos + h, data);
    }
    assert |Encode(Text(data))| == h + |data| + 2;
  }

  /** A count line and the items after it make an array reply. */
  lemma ArrayStep(buf: string, line: string, after: nat, items: seq<Reply>, body: nat)
    requires ParseInt(line) == Some(|items|)
    requires ParseItems(buf, after, |items|) == if |buf| - after >= body then DoneAll(items, after + body)
      else NotReadyYet
    ensures ParseArray(buf, line, after) == if |buf| - after >= body then Done(Items(items), after + body) else NotReady
  {
  }

  /** One more item in front. */
  lemma ItemStep(buf: string, pos: nat, items: seq<Reply>, first: nat, more: nat)
    requires pos <= |buf| && items != []
    requires Parse(buf, pos) == if |buf| - pos >= first then Done(items[0], pos + first) else NotReady
    requires |buf| - pos >= first ==>
      ParseItems(buf, pos + first, |items| - 1) ==
        if |buf| - pos - first >= more then DoneAll(items[1..], pos + first + more) else NotReadyYet
    ensures ParseItems(buf, pos, |items|) ==
      if |buf| - pos >= first + more then DoneAll(items, pos + first + more) else NotReadyYet
  {
    assert items == [items[0]] + items[1..];
  }

  /** Whatever has arrived of a reply's encoding, the parser reads it back exactly when it is whole. */
  lemma {:induction false} ReadsReply(buf: string, pos: nat, r: Reply)
    requires Clean(r) && Agrees(buf, pos, Encode(r))
    ensures Reads(buf, pos, r)
    decreases r, 2
  {
    match r
    case Simple(_) => ReadsLine(buf, pos, r);
    case Error(_) => ReadsLine(buf, pos, r);
    case Integer(_) => ReadsNumber(buf, pos, r);
    case Nil => ReadsNumber(buf, pos, r);
    case Text(data) => ReadsText(buf, pos, data);
    case Items(items) => ReadsArray(buf, pos, items);
  }

  /** An array's encoding is its count line, of length h, and its items. */
  lemma ArrayParts(buf: string, pos: nat, items: seq<Reply>) returns (h: nat)
    requires Agrees(buf, pos, Encode(Items(items)))
    ensures h > 2 && |Encode(Items(items))| == h + |EncodeAll(items)|
    ensures Eol(buf, pos) == if |buf| - pos >= h then Some(pos + h - 2) else None
    ensures |buf| - pos >= h ==> buf[pos] == '*' && ParseInt(buf[pos + 1..pos + h - 2]) == Some(|items|)
    ensures |buf| - pos >= h ==> Agrees(buf, pos + h, EncodeAll(items))
  {
    AgreesSplit(buf, pos, Header('*', |items|), EncodeAll(items));
    h := HeaderArrives(buf, pos, '*', |items|);
  }

  /** An array is read if its count line has arrived and its items are. */
  lemma ArrayReads(buf: string, pos: nat, items: seq<Reply>, h: nat)
    requires h > 2 && |Encode(Items(items))| == h + |EncodeAll(items)| && |buf| - pos >= h
    requires Eol(buf, pos) == Some(pos + h - 2) && buf[pos] == '*' &&
      ParseInt(buf[pos + 1..pos + h - 2]) == Some(|items|)
    requires ParseItems(buf, pos + h, |items|) ==
      if |buf| - pos - h >= |EncodeAll(items)| then DoneAll(items, pos + h + |EncodeAll(items)|) else NotReadyYet
    ensures Reads(buf, pos, Items(items))
  {
    ParseStep(buf, pos, h);
    ArrayStep(buf, buf[pos + 1..pos + h - 2], pos + h, items, |EncodeAll(items)|);
  }

  lemma {:induction false} ReadsArray(buf: string, pos: nat, items: seq<Reply>)
    requires CleanAll(items) && Agrees(buf, pos, Encode(Items(items)))
    ensures Reads(buf, pos, Items(items))
    decreases items, 1
  {
    var h := ArrayParts(buf, pos, items);
    if |buf| - pos >= h {
      ReadsItems(buf, pos + h, items);
      ArrayReads(buf, pos, items, h);
    } else {
      ParseStep(buf, pos, h);
    }
  }

  lemma {:induction false} ReadsItems(buf: string, pos: nat, items: seq<Reply>)
    requires CleanAll(items) && Agrees(buf, pos, EncodeAll(items))
    ensures ParseItems(buf, pos, |items|) ==
      if |buf| - pos >= |EncodeAll(items)| then DoneAll(items, pos + |EncodeAll(items)|) else NotReadyYet
    decreases items, 0
  {
    if items != [] {
      var first, more := Encode(items[0]), EncodeAll(items[1..]);
      AgreesSplit(buf, pos, first, more);
      ReadsReply(buf, pos, items[0]);
      if |buf| - pos >= |first| {
        ReadsItems(buf, pos + |first|, items[1..]);
      }
      ItemStep(buf, pos, items, |first|, |more|);
    }
  }

  // ----------------------------------------------------------------- chunks

  /** What has been read of a stream of replies is gone; these are to come, of which these bytes have not arrived. */
  ghost predicate Expects(buf: string, pos: nat, todo: seq<Reply>, missing: string) {
    pos <= |buf| && CleanAll(todo) && buf[pos..] + missing == EncodeAll(todo)
  }

  lemma ExpectsFirst(buf: string, pos: nat, todo: seq<Reply>, missing: string)
    requires Expects(buf, pos, todo, missing)
    ensures todo == [] ==> pos == |buf| && missing == "" && Parse(buf, pos) == NotReady
    ensures todo != [] ==> Reads(buf, pos, todo[0]) && (missing == "" ==> |buf| - pos >= |Encode(todo[0])|)
    ensures todo != [] && |buf| - pos >= |Encode(todo[0])| ==>
      Expects(buf, pos + |Encode(todo[0])|, todo[1..], missing)
  {
    if todo == [] {
      EolNone(buf, pos);
    } else {
      var first, more := Encode(todo[0]), EncodeAll(todo[1..]);
      Consumed(buf, pos, missing, first, more);
      forall i | 0 <= i < |first| && pos + i < |buf|
        ensures buf[pos + i] == first[i]
      {
        assert buf[pos + i] == buf[pos..][i] == (first + more)[i];
      }
      ReadsReply(buf, pos, todo[0]);
    }
  }

  class ReplyParser {
    var buf: string
    var pos: nat

    ghost predicate Valid()
      reads this
    {
      pos <= |buf|
    }

    constructor ()
      ensures Valid() && buf == "" && pos == 0
    {
      buf, pos := "", 0;
    }

    method Feed(data: string, ghost todo: seq<Reply>, ghost missing: string)
      requires Valid()
      modifies `buf
      ensures Valid() && buf == old(buf) + data
      ensures old(Expects(buf, pos, todo, data + missing)) ==> Expects(buf, pos, todo, missing)
    {
      Appended(buf, pos, data, missing);
      buf := buf + data;
    }

    /** next_reply: the next complete reply, or NotReady; what has been read is dropped when that is worth it. */
    method NextReply(ghost todo: seq<Reply>, ghost missing: string) returns (r: Parsed)
      requires Valid()
      modifies `buf, `pos
      ensures Valid()
      ensures old(Expects(buf, pos, todo, missing)) ==> !r.Malformed?
      ensures old(Expects(buf, pos, todo, missing)) && r.Done? ==>
        todo != [] && r.reply == todo[0] && Expects(buf, pos, todo[1..], missing)
      ensures old(Expects(buf, pos, todo, missing)) && r.NotReady? ==>
        Expects(buf, pos, todo, missing) && (missing == "" ==> todo == [])
      ensures r.Done? && pos == |buf| ==> buf == "" && pos == 0
    {
      if Expects(buf, pos, todo, missing) {
        ExpectsFirst(buf, pos, todo, missing);
      }
      r := Parse(buf, pos);
      if r.Done? && r.next <= |buf| {
        pos := r.next;
        if pos == |buf| {
          buf, pos := "", 0;
        } else if pos > COMPACT {
          buf, pos := buf[pos..], 0;
        }
      }
    }
  }

  /** However the encoding of some replies is cut into chunks, the parser returns exactly those replies. */
  method ParseReplies(chunks: seq<string>, ghost replies: seq<Reply>) returns (out: seq<Reply>, parser: ReplyParser)
    requires CleanAll(replies) && Concat(chunks) == EncodeAll(replies)
    ensures out == replies && parser.pos == |parser.buf|
  {
    parser := new ReplyParser();
    out := [];
    ghost var todo := replies;
    assert chunks[0..] == chunks;
    for i := 0 to |chunks|
      invariant fresh(parser)
      invariant Expects(parser.buf, parser.pos, todo, Concat(chunks[i..])) && out + todo == replies
    {
      assert chunks[i..][1..] == chunks[i + 1..];
      parser.Feed(chunks[i], todo, Concat(chunks[i + 1..]));
      out, todo := Collect(parser, out, todo, Concat(chunks[i + 1..]), replies);
    }
    assert chunks[|chunks|..] == [];
    out, todo := Collect(parser, out, todo, "", replies);
  }

  /** Every reply that has arrived. */
  method Collect(parser: ReplyParser, before: seq<Reply>, ghost todo: seq<Reply>, ghost missing: string,
                 ghost replies: seq<Reply>)
    returns (out: seq<Reply>, ghost rest: seq<Reply>)
    requires Expects(parser.buf, parser.pos, todo, missing) && before + todo == replies
    modifies parser
    ensures Expects(parser.buf, parser.pos, rest, missing) && out + rest == replies
    ensures missing == "" ==> rest == []
  {
    out, rest := before, todo;
    var more := true;
    while more
      invariant Expects(parser.buf, parser.pos, rest, missing) && out + rest == replies
      invariant !more && missing == "" ==> rest == []
      decreases |rest|, more
    {
      var r := parser.NextReply(rest, missing);
      if r.Done? {
        assert rest == [rest[0]] + rest[1..];
        out, rest := out + [r.reply], rest[1..];
      } else {
        more := false;
      }
    }
  }
}
