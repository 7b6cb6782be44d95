/**
 The router's retries: what may be sent again after which outcome, under every
 schedule of failures and redirections.
 */
module Router {
  import opened Sequences
  import opened Wrappers

  type Address = nat
  type Shard = nat

  /**
   A command, with a number of its own so that its result can be told from others; a keyless one
   goes to every group.
   */
  datatype Command = Command(id: nat, write: bool, keyless: bool)

  /** Why there is a result: the command ran, was turned away, or something in between. */
  datatype Kind =
    | Value            // it ran
    | Failed           // an error reply that is final: it ran, or was refused for good
    | ConnectFailed    // never sent
    | Unavailable      // sent, outcome unknown
    | ReadOnly         // turned away by a replica
    | TryAgain         // turned away, its key is on the move
    | Ask(to: Address) // turned away, its key has moved
    | Unroutable       // no node to send it to

  datatype Res = Res(id: nat, kind: Kind)

  /** What one pipeline to one node comes to. */
  datatype Exchange = Refused | Lost | Replies(replies: seq<Res>)

  /** An exchange and, for each command, whether the node ran it. */
  datatype Outcome = Outcome(exchange: Exchange, ran: seq<bool>)

  /** A reply tells the truth about whether the command ran; only a key can have moved. */
  ghost predicate Truthful(c: Command, r: Res, ran: bool) {
    && r.id == c.id
    && (r.kind.Value? ==> ran)
    && (r.kind.ReadOnly? || r.kind.TryAgain? || r.kind.Ask? ==> !ran)
    && (r.kind.Ask? ==> !c.keyless)
    && !r.kind.ConnectFailed? && !r.kind.Unavailable? && !r.kind.Unroutable?
  }

  /** What can happen to a pipeline of these commands. */
  ghost predicate Possible(o: Outcome, commands: seq<Command>) {
    && |o.ran| == |commands|
    && (o.exchange.Refused? ==> forall j :: 0 <= j < |o.ran| ==> !o.ran[j])
    && (o.exchange.Replies? ==> |o.exchange.replies| == |commands|)
    && (o.exchange.Replies? ==>
          forall j :: 0 <= j < |commands| ==> Truthful(commands[j], o.exchange.replies[j], o.ran[j]))
  }

  /** The commands at these positions. */
  function Select(commands: seq<Command>, idxs: seq<nat>): (r: seq<Command>)
    requires forall j :: 0 <= j < |idxs| ==> idxs[j] < |commands|
    ensures |r| == |idxs| && forall j :: 0 <= j < |idxs| ==> r[j] == commands[idxs[j]]
  {
    seq(|idxs|, j requires 0 <= j < |idxs| => commands[idxs[j]])
  }

  /** Where a position stands. */
  ghost function At(idxs: seq<nat>, i: nat): (j: nat)
    requires i in idxs
    ensures j < |idxs| && idxs[j] == i
  {
    var j: nat :| j < |idxs| && idxs[j] == i;
    j
  }

  // ------------------------------------------------------------ what was sent

  /**
   A pipeline that was sent: in which attempt, when it was addressed and where to, whether its share
   only reads, which of the share's commands it held, and what came of it.
   */
  datatype Sent = Sent(attempt: nat, clock: nat, address: Address, readonly: bool, idxs: seq<nat>, outcome: Outcome)
  {
    ghost predicate Proper(commands: seq<Command>) {
      && Distinct(idxs)
      && (forall j :: 0 <= j < |idxs| ==> idxs[j] < |commands|)
      && Possible(outcome, Select(commands, idxs))
    }
  }

  /** The result a command gets from an exchange, and whether it is sent again. */
  function Verdict(o: Outcome, j: nat, id: nat, readonly: bool): (Res, bool) {
    match o.exchange
    case Refused => (Res(id, ConnectFailed), true)
    case Lost => (Res(id, Unavailable), readonly)
    case Replies(replies) =>
      if j < |replies| then
        (replies[j], replies[j].kind.Ask? || replies[j].kind.ReadOnly? || replies[j].kind.TryAgain?)
      else (Res(id, Unavailable), false)
  }

  /** What a pipeline brought the command at position i. */
  ghost function Brought(commands: seq<Command>, s: Sent, i: nat): (Res, bool)
    requires i < |commands| && i in s.idxs
  {
    Verdict(s.outcome, At(s.idxs, i), commands[i].id, s.readonly)
  }

  /** The pipeline is a reason to send the command at position i again. */
  ghost predicate Again(commands: seq<Command>, s: Sent, i: nat) {
    i < |commands| && i in s.idxs && Brought(commands, s, i).1
  }

  ghost predicate RanIn(s: Sent, i: nat) {
    i in s.idxs && At(s.idxs, i) < |s.outcome.ran| && s.outcome.ran[At(s.idxs, i)]
  }

  /** How often the command at position i ran. */
  ghost function Runs(log: seq<Sent>, i: nat): nat {
    if log == [] then 0 else Runs(log[..|log| - 1], i) + if RanIn(log[|log| - 1], i) then 1 else 0
  }

  lemma RunsOn(log: seq<Sent>, s: Sent, i: nat)
    ensures Runs(log + [s], i) == Runs(log, i) + if RanIn(s, i) then 1 else 0
  {
    assert (log + [s])[..|log|] == log;
  }

  /** The node a command has been sent on to, by the last reply that says. */
  ghost function Redirect(commands: seq<Command>, log: seq<Sent>, i: nat): Option<Address>
    requires i < |commands|
  {
    if log == [] then None
    else Redirected(commands, log[|log| - 1], i, Redirect(commands, log[..|log| - 1], i))
  }

  ghost function Redirected(commands: seq<Command>, s: Sent, i: nat, before: Option<Address>): Option<Address>
    requires i < |commands|
  {
    if i !in s.idxs then before
    else
      var kind := Brought(commands, s, i).0.kind;
      if kind.Ask? then Some(kind.to) else if kind.ReadOnly? || kind.TryAgain? then None else before
  }

  /** These are the redirections after these pipelines, and none is of a keyless command. */
  ghost predicate Redirects(commands: seq<Command>, log: seq<Sent>, redirect: map<nat, Address>) {
    forall i :: 0 <= i < |commands| ==> RedirectIs(commands, log, redirect, i)
  }

  ghost predicate RedirectIs(commands: seq<Command>, log: seq<Sent>, redirect: map<nat, Address>, i: nat)
    requires i < |commands|
  {
    && Sought(redirect, i) == Redirect(commands, log, i)
    && (commands[i].keyless ==> i !in redirect)
  }

  lemma RedirectsOn(commands: seq<Command>, log: seq<Sent>, s: Sent, before: map<nat, Address>,
                    redirect: map<nat, Address>)
    requires Redirects(commands, log, before) && s.Proper(commands) && RedirectNoted(commands, s, before, redirect)
    ensures Redirects(commands, log + [s], redirect)
  {
    assert (log + [s])[..|log|] == log;
    forall i | 0 <= i < |commands|
      ensures RedirectIs(commands, log + [s], redirect, i)
    {
      assert RedirectIs(commands, log, before, i);
      if i in s.idxs && s.outcome.exchange.Replies? {
        var j := At(s.idxs, i);
        assert Truthful(Select(commands, s.idxs)[j], s.outcome.exchange.replies[j], s.outcome.ran[j]);
      }
    }
  }

  ghost predicate RedirectNoted(commands: seq<Command>, s: Sent, before: map<nat, Address>,
                                redirect: map<nat, Address>)
  {
    forall i :: 0 <= i < |commands| ==> Sought(redirect, i) == Redirected(commands, s, i, Sought(before, i))
  }

  // ------------------------------------------------------------ results

  /** The result of a command, given how often it ran: a write ran once or never, as the result says. */
  ghost predicate Honest(c: Command, r: Res, runs: nat) {
    && r.id == c.id
    && (r.kind.Value? ==> runs >= 1)
    && (c.write ==> runs <= 1)
    && (c.write && (r.kind.ConnectFailed? || r.kind.ReadOnly? || r.kind.TryAgain? || r.kind.Ask? || r.kind.Unroutable?)
        ==> runs == 0)
  }

  /** Nothing is gained by sending it again, or it is not safe. */
  predicate Final(kind: Kind, readonly: bool) {
    && !kind.ConnectFailed? && !kind.ReadOnly? && !kind.TryAgain? && !kind.Ask?
    && (kind.Unavailable? ==> !readonly)
  }

  /** What the last pipeline that held a command brought it. */
  ghost function LastResult(commands: seq<Command>, log: seq<Sent>, i: nat): Option<Res>
    requires i < |commands|
  {
    if log == [] then None
    else if i in log[|log| - 1].idxs then Some(Brought(commands, log[|log| - 1], i).0)
    else LastResult(commands, log[..|log| - 1], i)
  }

  /** How far position i is: still to be sent, to be sent again, or settled. */
  ghost predicate PlacedAt(commands: seq<Command>, results: seq<Option<Res>>, log: seq<Sent>, waiting: set<nat>,
                           retry: set<nat>, readonly: bool, i: nat)
    requires |results| == |commands| && i < |commands|
  {
    && (i in waiting || i in retry ==> commands[i].write ==> Runs(log, i) == 0)
    && (i !in waiting ==> results[i].Some? && Honest(commands[i], results[i].value, Runs(log, i)))
    && (i !in waiting && i !in retry ==> Final(results[i].value.kind, readonly))
    && (i in retry ==> i !in waiting)
    && (i !in waiting ==> results[i] == LastResult(commands, log, i) || results[i].value.kind.Unroutable?)
  }

  ghost predicate AllPlaced(commands: seq<Command>, results: seq<Option<Res>>, log: seq<Sent>, waiting: set<nat>,
                            retry: set<nat>, readonly: bool)
  {
    && |results| == |commands|
    && forall i {:trigger PlacedAt(commands, results, log, waiting, retry, readonly, i)} ::
         0 <= i < |commands| ==> PlacedAt(commands, results, log, waiting, retry, readonly, i)
  }

  /** A write has run at most once, wherever the attempts stand. */
  lemma PlacedRuns(commands: seq<Command>, results: seq<Option<Res>>, log: seq<Sent>, waiting: set<nat>,
                   retry: set<nat>,
                   readonly: bool)
    requires AllPlaced(commands, results, log, waiting, retry, readonly)
    ensures AtMostOnce(commands, log)
  {
    forall i | 0 <= i < |commands| && commands[i].write
      ensures Runs(log, i) <= 1
    {
      assert PlacedAt(commands, results, log, waiting, retry, readonly, i);
    }
  }

  ghost predicate AtMostOnce(commands: seq<Command>, log: seq<Sent>) {
    forall i :: 0 <= i < |commands| && commands[i].write ==> Runs(log, i) <= 1
  }

  /** The results and the commands to send again, after one more pipeline. */
  ghost predicate ResultsNoted(commands: seq<Command>, s: Sent, before: seq<Option<Res>>, results: seq<Option<Res>>,
                               retry0: set<nat>, retry: set<nat>)
  {
    && |results| == |before| == |commands|
    && (forall i :: 0 <= i < |commands| ==> results[i] == if i in s.idxs then Some(Brought(commands, s, i).0)
        else before[i])
    && (forall i :: i in retry <==> i in retry0 || Again(commands, s, i))
  }

  /** Sending a write again is safe whenever the verdict says so. */
  lemma PlaceOne(commands: seq<Command>, before: seq<Option<Res>>, results: seq<Option<Res>>, log: seq<Sent>, s: Sent,
                 waiting: set<nat>, retry0: set<nat>, retry: set<nat>, readonly: bool, i: nat)
    requires |before| == |commands| && i < |commands|
    requires PlacedAt(commands, before, log, waiting, retry0, readonly, i) && (i in s.idxs ==> i in waiting)
    requires s.Proper(commands) && s.readonly == readonly && (readonly ==> !commands[i].write)
    requires ResultsNoted(commands, s, before, results, retry0, retry)
    ensures PlacedAt(commands, results, log + [s], waiting - ToSet(s.idxs), retry, readonly, i)
  {
    RunsOn(log, s, i);
    assert (log + [s])[..|log|] == log;
    if i in s.idxs {
      var j := At(s.idxs, i);
      assert Select(commands, s.idxs)[j] == commands[i];
      if s.outcome.exchange.Replies? {
        assert Truthful(commands[i], s.outcome.exchange.replies[j], s.outcome.ran[j]);
      }
    }
  }

  lemma PlaceAll(commands: seq<Command>, before: seq<Option<Res>>, results: seq<Option<Res>>, log: seq<Sent>, s: Sent,
                 waiting: set<nat>, retry0: set<nat>, retry: set<nat>, readonly: bool)
    requires AllPlaced(commands, before, log, waiting, retry0, readonly) && ToSet(s.idxs) <= waiting
    requires s.Proper(commands) && s.readonly == readonly && (readonly ==> OnlyReads(commands))
    requires ResultsNoted(commands, s, before, results, retry0, retry)
    ensures AllPlaced(commands, results, log + [s], waiting - ToSet(s.idxs), retry, readonly)
  {
    forall i | 0 <= i < |commands|
      ensures PlacedAt(commands, results, log + [s], waiting - ToSet(s.idxs), retry, readonly, i)
    {
      assert PlacedAt(commands, before, log, waiting, retry0, readonly, i);
      assert i in s.idxs ==> i in ToSet(s.idxs);
      PlaceOne(commands, before, results, log, s, waiting, retry0, retry, readonly, i);
    }
  }

  /** No pipeline says that a command is unroutable. */
  lemma BroughtRouted(commands: seq<Command>, before: seq<Option<Res>>, results: seq<Option<Res>>, retry0: set<nat>,
                      retry: set<nat>, s: Sent)
    requires s.Proper(commands) && ResultsNoted(commands, s, before, results, retry0, retry)
    ensures forall i :: 0 <= i < |results| && results[i] != before[i] ==>
      results[i].Some? && !results[i].value.kind.Unroutable?
  {
    forall i | 0 <= i < |results| && results[i] != before[i]
      ensures results[i].Some? && !results[i].value.kind.Unroutable?
    {
      var j := At(s.idxs, i);
      if s.outcome.exchange.Replies? {
        assert Truthful(Select(commands, s.idxs)[j], s.outcome.exchange.replies[j], s.outcome.ran[j]);
      }
    }
  }

  /** A command with nowhere to go is answered at once. */
  lemma PlaceUnroutable(commands: seq<Command>, before: seq<Option<Res>>, log: seq<Sent>, waiting: set<nat>,
                        readonly: bool, i: nat)
    requires AllPlaced(commands, before, log, waiting, {}, readonly) && i < |commands| && i in waiting
    ensures AllPlaced(commands, before[i := Some(Res(commands[i].id, Unroutable))], log, waiting - {i}, {}, readonly)
  {
    var results := before[i := Some(Res(commands[i].id, Unroutable))];
    forall k | 0 <= k < |commands|
      ensures PlacedAt(commands, results, log, waiting - {i}, {}, readonly, k)
    {
      assert PlacedAt(commands, before, log, waiting, {}, readonly, k);
    }
  }

  /** What is to be sent again waits again. */
  lemma Requeue(commands: seq<Command>, results: seq<Option<Res>>, log: seq<Sent>, retry: set<nat>, readonly: bool)
    requires AllPlaced(commands, results, log, {}, retry, readonly)
    ensures AllPlaced(commands, results, log, retry, {}, readonly)
  {
    forall i | 0 <= i < |commands|
      ensures PlacedAt(commands, results, log, retry, {}, readonly, i)
    {
      assert PlacedAt(commands, results, log, {}, retry, readonly, i);
    }
  }

  predicate OnlyReads(commands: seq<Command>) {
    forall i :: 0 <= i < |commands| ==> !commands[i].write
  }

  function Sought(redirect: map<nat, Address>, i: nat): Option<Address> {
    if i in redirect then Some(redirect[i]) else None
  }

  /** What a reply does to the redirections. */
  function Redirecting(redirect: map<nat, Address>, i: nat, kind: Kind): map<nat, Address> {
    if kind.Ask? then redirect[i := kind.to] else if kind.ReadOnly? || kind.TryAgain? then redirect - {i} else redirect
  }

  /** Results, redirections and what to send again. */
  datatype Notes = Notes(results: seq<Option<Res>>, redirect: map<nat, Address>, retry: set<nat>)

  /** Position i, changed as its reply says if that has been seen. */
  ghost predicate NotedAt(commands: seq<Command>, s: Sent, before: Notes, after: Notes, seen: bool, i: nat)
    requires |after.results| == |before.results| == |commands| && i < |commands|
  {
    if seen && i in s.idxs then
      && after.results[i] == Some(Brought(commands, s, i).0)
      && (i in after.retry <==> i in before.retry || Brought(commands, s, i).1)
      && Sought(after.redirect, i) == Redirected(commands, s, i, Sought(before.redirect, i))
    else
      && after.results[i] == before.results[i]
      && (i in after.retry <==> i in before.retry)
      && Sought(after.redirect, i) == Sought(before.redirect, i)
  }

  /** The replies to the positions in seen have been noted. */
  ghost predicate AllNoted(commands: seq<Command>, s: Sent, before: Notes, after: Notes, seen: set<nat>) {
    && |after.results| == |before.results| == |commands|
    && (forall i :: i in after.retry ==> i in before.retry || i < |commands|)
    && forall i :: 0 <= i < |commands| ==> NotedAt(commands, s, before, after, i in seen, i)
  }

  lemma NoteOne(commands: seq<Command>, s: Sent, before: Notes, after: Notes, seen: set<nat>, j: nat, r: Res,
                again: bool)
    requires s.Proper(commands) && AllNoted(commands, s, before, after, seen) && j < |s.idxs| && s.idxs[j] !in seen
    requires (r, again) == Verdict(s.outcome, j, commands[s.idxs[j]].id, s.readonly)
    ensures var i := s.idxs[j];
      AllNoted(commands, s, before,
               Notes(after.results[i := Some(r)], Redirecting(after.redirect, i, r.kind),
                     if again then after.retry + {i} else after.retry),
               seen + {i})
  {
    var i := s.idxs[j];
    assert At(s.idxs, i) == j;
    var next := Notes(after.results[i := Some(r)], Redirecting(after.redirect, i, r.kind),
                      if again then after.retry + {i} else after.retry);
    forall k | 0 <= k < |commands|
      ensures NotedAt(commands, s, before, next, k in seen + {i}, k)
    {
      assert NotedAt(commands, s, before, after, k in seen, k);
    }
  }

  /** Every reply has been noted. */
  lemma NotedAll(commands: seq<Command>, s: Sent, before: Notes, after: Notes)
    requires s.Proper(commands) && AllNoted(commands, s, before, after, ToSet(s.idxs))
    requires forall i :: i in before.retry ==> i < |commands|
    ensures ResultsNoted(commands, s, before.results, after.results, before.retry, after.retry)
    ensures RedirectNoted(commands, s, before.redirect, after.redirect)
  {
    forall i | 0 <= i < |commands|
      ensures NotedAt(commands, s, before, after, i in s.idxs, i)
    {
      assert NotedAt(commands, s, before, after, i in ToSet(s.idxs), i);
    }
    forall i: nat | i in before.retry || Again(commands, s, i)
      ensures i in after.retry
    {
      assert NotedAt(commands, s, before, after, i in s.idxs, i);
    }
  }

  /** The replies of one pipeline: results in place, redirections noted, and what to send again. */
  method Note(commands: seq<Command>, idxs: seq<nat>, o: Outcome, readonly: bool, before: Notes, ghost s: Sent)
    returns (notes: Notes)
    requires s.Proper(commands) && s.idxs == idxs && s.outcome == o && s.readonly == readonly
    requires |before.results| == |commands| && forall i :: i in before.retry ==> i < |commands|
    ensures ResultsNoted(commands, s, before.results, notes.results, before.retry, notes.retry)
    ensures RedirectNoted(commands, s, before.redirect, notes.redirect)
  {
    var results, redirect, retry := before.results, before.redirect, before.retry;
    ghost var seen: set<nat> := {};
    for j := 0 to |idxs|
      invariant AllNoted(commands, s, before, Notes(results, redirect, retry), seen) && seen == ToSet(idxs[..j])
    {
      var i := idxs[j];
      assert i !in idxs[..j] && idxs[..j + 1] == idxs[..j] + [i];
      var (r, again) := Verdict(o, j, commands[i].id, readonly);
      NoteOne(commands, s, before, Notes(results, redirect, retry), seen, j, r, again);
      results, redirect := results[i := Some(r)], Redirecting(redirect, i, r.kind);
      if again {
        retry := retry + {i};
      }
      seen := seen + {i};
    }
    assert idxs[..|idxs|] == idxs;
    notes := Notes(results, redirect, retry);
    NotedAll(commands, s, before, notes);
  }

  /** The positions of todo that go to one address, in order. */
  method Bound(todo: seq<nat>, dest: map<nat, nat>, address: nat) returns (idxs: seq<nat>)
    requires Distinct(todo)
    ensures Distinct(idxs) && forall i :: i in idxs <==> i in todo && i in dest && dest[i] == address
    ensures Ascending(todo) ==> Ascending(idxs)
  {
    idxs := [];
    for j := 0 to |todo|
      invariant Distinct(idxs) && forall i :: i in idxs <==> i in todo[..j] && i in dest && dest[i] == address
      invariant (Ascending(todo) ==> Ascending(idxs)) && forall k :: 0 <= k < |idxs| ==> idxs[k] in todo[..j]
    {
      assert todo[..j + 1] == todo[..j] + [todo[j]];
      if todo[j] in dest && dest[todo[j]] == address {
        assert todo[j] !in todo[..j];
        idxs := idxs + [todo[j]];
      }
    }
    assert todo[..|todo|] == todo;
  }

  /** sorted(retry). */
  method Sorted(retry: set<nat>, n: nat) returns (todo: seq<nat>)
    requires forall i :: i in retry ==> i < n
    ensures Distinct(todo) && ToSet(todo) == retry
    ensures Ascending(todo)
  {
    todo := [];
    for k := 0 to n
      invariant forall i :: i in todo <==> i in retry && i < k
      invariant forall i :: 0 <= i < |todo| ==> todo[i] < k
      invariant forall i, j :: 0 <= i < j < |todo| ==> todo[i] < todo[j]
    {
      if k in retry {
        todo := todo + [k];
      }
    }
  }

  // ------------------------------------------------------------ one share of a batch

  /** Halfway through an attempt: what is still to be sent stands as it did when the attempt began. */
  ghost predicate Untouched(commands: seq<Command>, log0: seq<Sent>, log: seq<Sent>, waiting: set<nat>) {
    && log0 <= log
    && (forall i :: i in waiting && i < |commands| ==> Redirect(commands, log, i) == Redirect(commands, log0, i))
    && (forall p, i :: |log0| <= p < |log| && i in log[p].idxs ==> i !in waiting)
  }

  lemma UntouchedOn(commands: seq<Command>, log0: seq<Sent>, log: seq<Sent>, waiting: set<nat>, s: Sent)
    requires Untouched(commands, log0, log, waiting)
    ensures Untouched(commands, log0, log + [s], waiting - ToSet(s.idxs))
  {
    var longer, left := log + [s], waiting - ToSet(s.idxs);
    assert longer[..|log|] == log;
    forall p, i | |log0| <= p < |longer| && i in longer[p].idxs
      ensures i !in left
    {
      assert p < |log| ==> longer[p] == log[p];
    }
  }

  /** These positions have been sent since pipeline n. */
  ghost predicate SentSince(log: seq<Sent>, n: nat, i: nat) {
    exists p :: n <= p < |log| && i in log[p].idxs
  }

  lemma SentSinceOn(log: seq<Sent>, n: nat, s: Sent, i: nat)
    requires n <= |log| && (SentSince(log, n, i) || i in s.idxs)
    ensures SentSince(log + [s], n, i)
  {
    var longer := log + [s];
    assert longer[|log|] == s;
    if SentSince(log, n, i) {
      var p :| n <= p < |log| && i in log[p].idxs;
      assert longer[p] == log[p];
    }
  }

  /** In the first attempt a keyless command failed in a way that is retried. */
  ghost predicate Aborts(commands: seq<Command>, log: seq<Sent>) {
    exists p, i :: 0 <= p < |log| && 0 <= i < |commands| && Stops(commands, log[p], i)
  }

  ghost predicate Stops(commands: seq<Command>, s: Sent, i: nat) {
    s.attempt == 0 && i < |commands| && commands[i].keyless && Again(commands, s, i)
  }

  /** Later attempts do not change that. */
  lemma AbortsLater(commands: seq<Command>, log: seq<Sent>, longer: seq<Sent>)
    requires log <= longer && forall p :: |log| <= p < |longer| ==> longer[p].attempt > 0
    ensures Aborts(commands, longer) <==> Aborts(commands, log)
  {
    if Aborts(commands, log) {
      var p, i :| 0 <= p < |log| && 0 <= i < |commands| && Stops(commands, log[p], i);
      assert longer[p] == log[p];
    }
    if Aborts(commands, longer) {
      var p, i :| 0 <= p < |longer| && 0 <= i < |commands| && Stops(commands, longer[p], i);
      assert p < |log| && longer[p] == log[p];
    }
  }

  /** The first attempt: a keyless command waits to be sent again exactly if one of its pipelines stops the batch. */
  lemma AbortsFirst(commands: seq<Command>, log: seq<Sent>, retry: set<nat>)
    requires forall p :: 0 <= p < |log| ==> log[p].attempt == 0
    requires forall i :: i in retry <==> SentAgain(commands, log, 0, i)
    ensures Aborts(commands, log) <==> exists i :: i in retry && i < |commands| && commands[i].keyless
  {
    if Aborts(commands, log) {
      var p, i :| 0 <= p < |log| && 0 <= i < |commands| && Stops(commands, log[p], i);
      assert SentAgain(commands, log, 0, i);
    }
    if i :| i in retry && i < |commands| && commands[i].keyless {
      assert SentAgain(commands, log, 0, i);
      var p :| 0 <= p < |log| && Again(commands, log[p], i);
      assert Stops(commands, log[p], i);
    }
  }

  /** Since pipeline n there was a reason to send the command at position i again. */
  ghost predicate SentAgain(commands: seq<Command>, log: seq<Sent>, n: nat, i: nat) {
    exists p :: n <= p < |log| && Again(commands, log[p], i)
  }

  lemma SentAgainOn(commands: seq<Command>, log: seq<Sent>, n: nat, s: Sent, i: nat)
    requires n <= |log|
    ensures SentAgain(commands, log + [s], n, i) <==> SentAgain(commands, log, n, i) || Again(commands, s, i)
  {
    var longer := log + [s];
    assert longer[|log|] == s;
    if SentAgain(commands, log, n, i) {
      var p :| n <= p < |log| && Again(commands, log[p], i);
      assert longer[p] == log[p];
    }
    if SentAgain(commands, longer, n, i) {
      var p :| n <= p < |longer| && Again(commands, longer[p], i);
      assert p < |log| ==> longer[p] == log[p];
    }
  }

  /** It was sent in the first attempt. */
  ghost predicate SentFirst(log: seq<Sent>, i: nat) {
    exists p :: 0 <= p < |log| && log[p].attempt == 0 && i in log[p].idxs
  }

  lemma FirstKept(log0: seq<Sent>, log: seq<Sent>, i: nat, attempt: nat)
    requires log0 <= log && forall p :: |log0| <= p < |log| ==> log[p].attempt == attempt
    requires if attempt == 0 then SentSince(log, |log0|, i) else SentFirst(log0, i)
    ensures SentFirst(log, i)
  {
    if attempt > 0 {
      var p :| 0 <= p < |log0| && log0[p].attempt == 0 && i in log0[p].idxs;
      assert log[p] == log0[p];
    }
  }

  /** Between attempts: what waits was to be sent again, and a keyless command among it is what stops the batch. */
  ghost predicate Waits(commands: seq<Command>, todo: seq<nat>, log: seq<Sent>, attempt: nat)
    requires attempt > 0
  {
    && (forall j :: 0 <= j < |todo| ==> todo[j] < |commands| && LastAgain(commands, log, attempt - 1, todo[j]))
    && (Aborts(commands, log) <==> exists j :: 0 <= j < |todo| && commands[todo[j]].keyless)
    && (attempt > 1 ==> !Aborts(commands, log))
  }

  ghost predicate LastAgain(commands: seq<Command>, log: seq<Sent>, attempt: nat, i: nat) {
    exists p :: 0 <= p < |log| && log[p].attempt == attempt && Again(commands, log[p], i)
  }

  lemma WaitsOn(commands: seq<Command>, todo0: seq<nat>, todo: seq<nat>, log0: seq<Sent>, log: seq<Sent>, attempt: nat)
    requires log0 <= log && forall p :: |log0| <= p < |log| ==> log[p].attempt == attempt
    requires if attempt == 0 then log0 == [] else Waits(commands, todo0, log0, attempt)
    requires forall j :: 0 <= j < |todo0| ==> todo0[j] < |commands| && (attempt > 0 ==> !commands[todo0[j]].keyless)
    requires forall i :: i in todo ==> i in todo0
    requires forall i :: i in todo <==> SentAgain(commands, log, |log0|, i)
    ensures Waits(commands, todo, log, attempt + 1)
  {
    forall j | 0 <= j < |todo|
      ensures LastAgain(commands, log, attempt, todo[j])
    {
      assert todo[j] in todo;
      var p :| |log0| <= p < |log| && Again(commands, log[p], todo[j]);
    }
    if attempt == 0 {
      AbortsFirst(commands, log, ToSet(todo));
      if i :| i in ToSet(todo) && i < |commands| && commands[i].keyless {
        assert i in todo;
      }
    } else {
      AbortsLater(commands, log0, log);
      assert forall j :: 0 <= j < |todo| ==> todo[j] in todo0;
    }
  }

  /** One pipeline goes out before another: in an earlier attempt, or to another address in the same one. */
  ghost predicate Sooner(a: Sent, b: Sent) {
    a.attempt < b.attempt || (a.attempt == b.attempt && a.clock == b.clock && a.address != b.address)
  }

  /** What is in a pipeline was in the attempt before it, and was to be sent again. */
  ghost predicate Resent(commands: seq<Command>, log: seq<Sent>, p: nat)
    requires p < |log|
  {
    log[p].attempt > 0 ==> forall i :: i in log[p].idxs ==> LastAgain(commands, log[..p], log[p].attempt - 1, i)
  }

  /** A share's pipelines go out attempt by attempt, each with its commands in their order. */
  ghost predicate InTurn(commands: seq<Command>, log: seq<Sent>) {
    && (forall p, q :: 0 <= p < q < |log| ==> Sooner(log[p], log[q]))
    && (forall p :: 0 <= p < |log| ==> Ascending(log[p].idxs) && log[p].idxs != [])
    && (forall p :: 0 <= p < |log| ==> Resent(commands, log, p))
  }

  lemma InTurnOn(commands: seq<Command>, log0: seq<Sent>, log: seq<Sent>, s: Sent)
    requires InTurn(commands, log) && Ascending(s.idxs) && s.idxs != [] && log0 <= log
    requires forall p :: 0 <= p < |log| ==> Sooner(log[p], s)
    requires s.attempt > 0 ==> forall i :: i in s.idxs ==> LastAgain(commands, log0, s.attempt - 1, i)
    ensures InTurn(commands, log + [s])
  {
    var longer := log + [s];
    forall p | 0 <= p < |longer|
      ensures Resent(commands, longer, p)
    {
      if p < |log| {
        assert Resent(commands, log, p);
        assert longer[..p] == log[..p];
      } else if s.attempt > 0 {
        assert longer[..p] == log;
        forall i | i in s.idxs
          ensures LastAgain(commands, log, s.attempt - 1, i)
        {
          var q :| 0 <= q < |log0| && log0[q].attempt == s.attempt - 1 && Again(commands, log0[q], i);
          assert log[q] == log0[q];
        }
      }
    }
  }

  /** How often a command has been answered that it is to be sent again. */
  ghost function Agains(commands: seq<Command>, log: seq<Sent>, i: nat): nat {
    if log == [] then 0
    else Agains(commands, log[..|log| - 1], i) + if Again(commands, log[|log| - 1], i) then 1 else 0
  }

  lemma {:induction false} AgainsSkip(commands: seq<Command>, log: seq<Sent>, r: nat, i: nat)
    requires r <= |log| && forall t :: r <= t < |log| ==> i !in log[t].idxs
    ensures Agains(commands, log, i) == Agains(commands, log[..r], i)
  {
    if r == |log| {
      assert log[..r] == log;
    } else {
      var init := log[..|log| - 1];
      AgainsSkip(commands, init, r, i);
      assert init[..r] == log[..r];
    }
  }

  lemma AgainsThrough(commands: seq<Command>, log: seq<Sent>, r: nat, p: nat, i: nat)
    requires r < p <= |log| && Again(commands, log[r], i) && forall t :: r < t < p ==> i !in log[t].idxs
    ensures Agains(commands, log[..p], i) == Agains(commands, log[..r], i) + 1
  {
    var before := log[..p];
    AgainsSkip(commands, before, r + 1, i);
    assert before[..r + 1][..r] == log[..r] && before[..r + 1][r] == log[r];
  }

  lemma DistinctAt(todo: seq<nat>, j: nat)
    requires Distinct(todo) && j < |todo|
    ensures todo[j] !in todo[..j] && todo[j] !in todo[j + 1..]
  {
  }

  lemma StillWaiting(todo: seq<nat>, j: nat, dest: map<nat, Address>, waiting: set<nat>)
    requires j < |todo| && waiting == dest.Keys + ToSet(todo[j..]) && todo[j] !in dest && todo[j] !in todo[j + 1..]
    ensures waiting - {todo[j]} == dest.Keys + ToSet(todo[j + 1..])
    ensures waiting == dest.Keys + {todo[j]} + ToSet(todo[j + 1..])
  {
    assert todo[j..] == [todo[j]] + todo[j + 1..];
  }

  /** What is kept for each address, with something for one more unless that is known. */
  function Noted<T>(kept: seq<T>, order: seq<Address>, address: Address, x: T): seq<T> {
    if address in order then kept else kept + [x]
  }

  /** A command that goes to each of the addresses. */
  ghost predicate Firsts(dest: map<nat, Address>, order: seq<Address>, firsts: seq<nat>) {
    && |firsts| == |order|
    && forall a {:trigger firsts[a]} :: 0 <= a < |order| ==> firsts[a] in dest && dest[firsts[a]] == order[a]
  }

  lemma FirstsOn(dest: map<nat, Address>, order: seq<Address>, firsts: seq<nat>, i: nat, address: Address,
                 order': seq<Address>, firsts': seq<nat>)
    requires Firsts(dest, order, firsts) && i !in dest
    requires if address in order then order' == order && firsts' == firsts
             else order' == order + [address] && firsts' == firsts + [i]
    ensures Firsts(dest[i := address], order', firsts')
  {
  }

  /** Halfway through an attempt: the pipelines to the first a addresses have been sent. */
  ghost predicate Underway(commands: seq<Command>, todo: seq<nat>, dest: map<nat, Address>, order: seq<Address>, a: nat,
                           attempt: nat, clock: nat, log0: seq<Sent>, log: seq<Sent>, retry: set<nat>,
                           waiting: set<nat>)
    requires a <= |order|
  {
    && InTurn(commands, log) && Untouched(commands, log0, log, waiting) && retry <= ToSet(todo)
    && (forall p :: |log0| <= p < |log| ==>
          log[p].attempt == attempt && log[p].clock == clock && log[p].address in order[..a])
    && (forall i :: i in waiting <==> i in dest && dest[i] !in order[..a])
    && (forall i :: i in retry <==> SentAgain(commands, log, |log0|, i))
    && (forall i :: i in dest && i !in waiting ==> SentSince(log, |log0|, i))
  }

  lemma BoundWaits(todo: seq<nat>, dest: map<nat, Address>, order: seq<Address>, firsts: seq<nat>, a: nat,
                   idxs: seq<nat>, waiting: set<nat>)
    requires a < |order| && Distinct(order) && forall i :: i in waiting <==> i in dest && dest[i] !in order[..a]
    requires forall i :: i in idxs <==> i in todo && i in dest && dest[i] == order[a]
    requires Firsts(dest, order, firsts) && forall i :: i in dest ==> i in todo
    ensures ToSet(idxs) <= waiting && forall j :: 0 <= j < |idxs| ==> idxs[j] in todo && idxs[j] in dest
    ensures idxs != []
  {
    assert firsts[a] in idxs;
    assert order[a] !in order[..a];
    assert forall j :: 0 <= j < |idxs| ==> idxs[j] in idxs;
  }

  lemma UnderwayOn(commands: seq<Command>, todo: seq<nat>, dest: map<nat, Address>, order: seq<Address>, a: nat,
                   attempt: nat, clock: nat, log0: seq<Sent>, log: seq<Sent>, retry0: set<nat>, retry: set<nat>,
                   waiting: set<nat>, s: Sent)
    requires a < |order| && Distinct(order)
    requires Underway(commands, todo, dest, order, a, attempt, clock, log0, log, retry0, waiting)
    requires s.attempt == attempt && s.clock == clock && s.address == order[a] && Ascending(s.idxs) && s.idxs != []
    requires forall p :: 0 <= p < |log0| ==> log0[p].attempt < attempt
    requires forall i :: i in s.idxs <==> i in todo && i in dest && dest[i] == order[a]
    requires forall i :: i in dest ==> i in todo
    requires attempt > 0 ==> forall j :: 0 <= j < |todo| ==> LastAgain(commands, log0, attempt - 1, todo[j])
    requires Untouched(commands, log0, log + [s], waiting - ToSet(s.idxs))
    requires forall i :: i in retry <==> i in retry0 || Again(commands, s, i)
    ensures Underway(commands, todo, dest, order, a + 1, attempt, clock, log0, log + [s], retry,
                     waiting - ToSet(s.idxs))
  {
    assert order[..a + 1] == order[..a] + [order[a]];
    assert order[a] !in order[..a];
    forall p | 0 <= p < |log|
      ensures Sooner(log[p], s)
    {
      assert p < |log0| ==> log[p] == log0[p];
    }
    InTurnOn(commands, log0, log, s);
    forall i: nat
      ensures i in retry <==> SentAgain(commands, log + [s], |log0|, i)
    {
      SentAgainOn(commands, log, |log0|, s, i);
    }
    forall i | i in dest && (i !in waiting || i in s.idxs)
      ensures SentSince(log + [s], |log0|, i)
    {
      SentSinceOn(log, |log0|, s, i);
    }
  }

  class ShardRouter {
    const retries: nat
    /** The group a command belongs to, the node that serves a group, and what the t-th pipeline comes to. */
    const owner: (nat, Command) -> Option<Shard>
    const node: (nat, Shard) -> Option<Address>
    const script: (nat, seq<Command>) -> Outcome
    /** Pipelines sent so far. */
    var turn: nat

    ghost predicate Fair() {
      forall t: nat, cs: seq<Command> :: Possible(script(t, cs), cs)
    }

    constructor (retries: nat, owner: (nat, Command) -> Option<Shard>, node: (nat, Shard) -> Option<Address>,
                 script: (nat, seq<Command>) -> Outcome)
      ensures this.retries == retries && this.owner == owner && this.node == node && this.script == script && turn == 0
    {
      this.retries, this.owner, this.node, this.script, turn := retries, owner, node, script, 0;
    }

    /** _address: the group's node in the first attempt; later the command is routed again. */
    function Route(shard: Shard, attempt: nat, clock: nat, c: Command): Option<Address> {
      if attempt == 0 then node(clock, shard)
      else if owner(clock, c).Some? then node(clock, owner(clock, c).value)
      else None
    }

    /** Where a command goes: the node it was sent on to, or its group's. */
    ghost function Target(commands: seq<Command>, shard: Shard, attempt: nat, clock: nat, log: seq<Sent>,
                          i: nat): Option<Address>
      requires i < |commands|
    {
      var redirect := Redirect(commands, log, i);
      if redirect.Some? then redirect else Route(shard, attempt, clock, commands[i])
    }

    /** The p-th pipeline of a share: it went where its commands belong, and came to what the nodes did. */
    ghost predicate StepOk(commands: seq<Command>, shard: Shard, start: nat, log: seq<Sent>, p: nat)
      requires p < |log|
    {
      && log[p].Proper(commands)
      && log[p].attempt <= retries
      && log[p].outcome == script(start + p, Select(commands, log[p].idxs))
      && forall i :: i in log[p].idxs ==>
           Some(log[p].address) == Target(commands, shard, log[p].attempt, log[p].clock, log[..p], i)
    }

    /** A share's pipelines: each in order, and no command twice in one attempt. */
    ghost predicate History(commands: seq<Command>, shard: Shard, start: nat, log: seq<Sent>) {
      && (forall p :: 0 <= p < |log| ==> StepOk(commands, shard, start, log, p))
      && (forall p, q, i :: 0 <= p < q < |log| && i in log[p].idxs && i in log[q].idxs ==>
          log[p].attempt < log[q].attempt)
    }

    lemma HistoryOn(commands: seq<Command>, shard: Shard, start: nat, log: seq<Sent>, s: Sent)
      requires History(commands, shard, start, log) && StepOk(commands, shard, start, log + [s], |log|)
      requires forall p, i :: 0 <= p < |log| && i in log[p].idxs && i in s.idxs ==> log[p].attempt < s.attempt
      ensures History(commands, shard, start, log + [s])
    {
      var longer := log + [s];
      forall p | 0 <= p < |longer|
        ensures StepOk(commands, shard, start, longer, p)
      {
        if p < |log| {
          assert StepOk(commands, shard, start, log, p);
          assert longer[..p] == log[..p];
        }
      }
    }

    /** At some time there was no node to send the command to. */
    ghost predicate Stranded(commands: seq<Command>, shard: Shard, start: nat, log: seq<Sent>, i: nat)
      requires i < |commands|
    {
      exists n: nat, a: nat :: NoNode(commands, shard, start, log, i, n, a)
    }

    ghost predicate NoNode(commands: seq<Command>, shard: Shard, start: nat, log: seq<Sent>, i: nat, n: nat, a: nat)
      requires i < |commands|
    {
      n <= |log| && a <= retries && Target(commands, shard, a, start + n, log[..n], i).None?
    }

    /** Whatever has been answered as unroutable was. */
    ghost predicate Routed(commands: seq<Command>, shard: Shard, start: nat, results: seq<Option<Res>>, log: seq<Sent>)
      requires |results| == |commands|
    {
      forall i :: 0 <= i < |results| && results[i].Some? && results[i].value.kind.Unroutable? ==>
        Stranded(commands, shard, start, log, i)
    }

    lemma RoutedOn(commands: seq<Command>, shard: Shard, start: nat, before: seq<Option<Res>>,
                   results: seq<Option<Res>>, log: seq<Sent>, longer: seq<Sent>)
      requires |before| == |results| == |commands| && Routed(commands, shard, start, before, log) && log <= longer
      requires forall i :: 0 <= i < |results| && results[i] != before[i] ==>
        results[i].Some? && !results[i].value.kind.Unroutable?
      ensures Routed(commands, shard, start, results, longer)
    {
      forall i | 0 <= i < |results| && results[i].Some? && results[i].value.kind.Unroutable?
        ensures Stranded(commands, shard, start, longer, i)
      {
        var n: nat, a: nat :| NoNode(commands, shard, start, log, i, n, a);
        assert longer[..n] == log[..n];
        assert NoNode(commands, shard, start, longer, i, n, a);
      }
    }

    lemma RoutedBut(commands: seq<Command>, shard: Shard, start: nat, before: seq<Option<Res>>, log: seq<Sent>, i: nat,
                    attempt: nat, r: Res)
      requires |before| == |commands| && Routed(commands, shard, start, before, log) && i < |commands|
      requires attempt <= retries && Target(commands, shard, attempt, start + |log|, log, i).None?
      ensures Routed(commands, shard, start, before[i := Some(r)], log)
    {
      assert log[..|log|] == log;
      assert NoNode(commands, shard, start, log, i, |log|, attempt);
    }

    /**
     The addresses of an attempt; a command without one is answered at once. Routing a keyless
     command again has no answer: the batch is aborted, exactly if one is to be retried.
     */
    method Addresses(commands: seq<Command>, shard: Shard, todo: seq<nat>, attempt: nat, redirect: map<nat, Address>,
                     before: seq<Option<Res>>, readonly: bool, ghost log: seq<Sent>, ghost start: nat)
      returns (aborted: bool, dest: map<nat, Address>, order: seq<Address>, results: seq<Option<Res>>,
               ghost firsts: seq<nat>)
      requires AllPlaced(commands, before, log, ToSet(todo), {}, readonly) && Distinct(todo) &&
        Redirects(commands, log, redirect)
      requires forall j :: 0 <= j < |todo| ==> todo[j] < |commands|
      requires turn == start + |log| && attempt <= retries && Routed(commands, shard, start, before, log)
      ensures |results| == |commands| && Routed(commands, shard, start, results, log)
      ensures aborted <==> attempt > 0 && exists j :: 0 <= j < |todo| && commands[todo[j]].keyless
      ensures !aborted ==> AllPlaced(commands, results, log, dest.Keys, {}, readonly) && Distinct(order)
      ensures !aborted ==> forall i :: i in dest <==> i in todo && Target(commands, shard, attempt, turn, log, i).Some?
      ensures !aborted ==> forall i :: i in dest ==>
        dest[i] in order && Some(dest[i]) == Target(commands, shard, attempt, turn, log, i)
      ensures !aborted ==> Firsts(dest, order, firsts)
    {
      aborted, dest, order, results, firsts := false, map[], [], before, [];
      ghost var waiting := ToSet(todo);
      for j := 0 to |todo|
        invariant Addressing(commands, shard, attempt, start, log, todo, j, dest, order, firsts, results, waiting,
                             readonly)
        invariant attempt > 0 ==> forall i :: 0 <= i < j ==> !commands[todo[i]].keyless
      {
        var i := todo[j];
        assert RedirectIs(commands, log, redirect, i);
        if i !in redirect && attempt > 0 && commands[i].keyless {
          aborted := true;
          return;
        }
        var address := if i in redirect then Some(redirect[i]) else Route(shard, attempt, turn, commands[i]);
        if address.None? {
          AddressingNone(commands, shard, attempt, start, log, todo, j, dest, order, firsts, results, waiting,
                         readonly);
          results := results[i := Some(Res(commands[i].id, Unroutable))];
          waiting := waiting - {i};
        } else {
          AddressingOn(commands, shard, attempt, start, log, todo, j, dest, order, firsts, results, waiting, readonly,
                       address.value);
          firsts := Noted(firsts, order, address.value, i);
          dest, order := dest[i := address.value], Noted(order, order, address.value, address.value);
        }
      }
      AddressingDone(commands, shard, attempt, start, log, todo, dest, order, firsts, results, waiting, readonly);
    }

    lemma AddressingDone(commands: seq<Command>, shard: Shard, attempt: nat, start: nat, log: seq<Sent>, todo: seq<nat>,
                         dest: map<nat, Address>, order: seq<Address>, firsts: seq<nat>, results: seq<Option<Res>>,
                         waiting: set<nat>, readonly: bool)
      requires forall i :: 0 <= i < |todo| ==> todo[i] < |commands|
      requires Addressing(commands, shard, attempt, start, log, todo, |todo|, dest, order, firsts, results, waiting,
                          readonly)
      ensures waiting == dest.Keys && Distinct(order)
      ensures forall i ::
        i in dest <==> i in todo && Target(commands, shard, attempt, start + |log|, log, i).Some?
      ensures forall i :: i in dest ==>
        dest[i] in order && Some(dest[i]) == Target(commands, shard, attempt, start + |log|, log, i)
    {
      assert todo[|todo|..] == [] && todo[..|todo|] == todo;
    }

    /** Addresses have been sought for the first j positions of todo. */
    ghost predicate Addressing(commands: seq<Command>, shard: Shard, attempt: nat, start: nat, log: seq<Sent>,
                               todo: seq<nat>, j: nat, dest: map<nat, Address>, order: seq<Address>,
                               firsts: seq<nat>, results: seq<Option<Res>>, waiting: set<nat>, readonly: bool)
      requires j <= |todo| && forall i :: 0 <= i < |todo| ==> todo[i] < |commands|
    {
      && |results| == |commands| && Routed(commands, shard, start, results, log)
      && AllPlaced(commands, results, log, waiting, {}, readonly)
      && waiting == dest.Keys + ToSet(todo[j..]) && Firsts(dest, order, firsts)
      && Assigned(commands, shard, attempt, start + |log|, log, todo, j, dest, order)
    }

    lemma AddressingNone(commands: seq<Command>, shard: Shard, attempt: nat, start: nat, log: seq<Sent>, todo: seq<nat>,
                         j: nat, dest: map<nat, Address>, order: seq<Address>, firsts: seq<nat>,
                         results: seq<Option<Res>>, waiting: set<nat>, readonly: bool)
      requires j < |todo| && Distinct(todo) && (forall i :: 0 <= i < |todo| ==> todo[i] < |commands|)
      requires attempt <= retries && Target(commands, shard, attempt, start + |log|, log, todo[j]).None?
      requires Addressing(commands, shard, attempt, start, log, todo, j, dest, order, firsts, results, waiting,
                          readonly)
      ensures Addressing(commands, shard, attempt, start, log, todo, j + 1, dest, order, firsts,
                         results[todo[j] := Some(Res(commands[todo[j]].id, Unroutable))], waiting - {todo[j]}, readonly)
    {
      var i := todo[j];
      DistinctAt(todo, j);
      AssignedNone(commands, shard, attempt, start + |log|, log, todo, j, dest, order);
      StillWaiting(todo, j, dest, waiting);
      PlaceUnroutable(commands, results, log, waiting, readonly, i);
      RoutedBut(commands, shard, start, results, log, i, attempt, Res(commands[i].id, Unroutable));
    }

    lemma AddressingOn(commands: seq<Command>, shard: Shard, attempt: nat, start: nat, log: seq<Sent>, todo: seq<nat>,
                       j: nat, dest: map<nat, Address>, order: seq<Address>, firsts: seq<nat>,
                       results: seq<Option<Res>>, waiting: set<nat>, readonly: bool, address: Address)
      requires j < |todo| && Distinct(todo) && (forall i :: 0 <= i < |todo| ==> todo[i] < |commands|)
      requires Target(commands, shard, attempt, start + |log|, log, todo[j]) == Some(address)
      requires Addressing(commands, shard, attempt, start, log, todo, j, dest, order, firsts, results, waiting,
                          readonly)
      ensures Addressing(commands, shard, attempt, start, log, todo, j + 1, dest[todo[j] := address],
                         Noted(order, order, address, address), Noted(firsts, order, address, todo[j]), results,
                         waiting, readonly)
    {
      DistinctAt(todo, j);
      var order', firsts' := Noted(order, order, address, address), Noted(firsts, order, address, todo[j]);
      AssignedOn(commands, shard, attempt, start + |log|, log, todo, j, dest, order, address, order');
      StillWaiting(todo, j, dest, waiting);
      FirstsOn(dest, order, firsts, todo[j], address, order', firsts');
    }

    /** The first n positions of todo have been given their addresses. */
    ghost predicate Assigned(commands: seq<Command>, shard: Shard, attempt: nat, clock: nat, log: seq<Sent>,
                             todo: seq<nat>, n: nat, dest: map<nat, Address>, order: seq<Address>)
      requires n <= |todo| && forall j :: 0 <= j < |todo| ==> todo[j] < |commands|
    {
      && Distinct(order)
      && (forall i :: i in dest <==> i in todo[..n] && Target(commands, shard, attempt, clock, log, i).Some?)
      && (forall i :: i in dest ==>
            dest[i] in order && Some(dest[i]) == Target(commands, shard, attempt, clock, log, i))
    }

    lemma AssignedNone(commands: seq<Command>, shard: Shard, attempt: nat, clock: nat, log: seq<Sent>, todo: seq<nat>,
                       n: nat, dest: map<nat, Address>, order: seq<Address>)
      requires n < |todo| && (forall j :: 0 <= j < |todo| ==> todo[j] < |commands|) && todo[n] !in todo[..n]
      requires Assigned(commands, shard, attempt, clock, log, todo, n, dest, order)
      requires Target(commands, shard, attempt, clock, log, todo[n]).None?
      ensures todo[n] !in dest && Assigned(commands, shard, attempt, clock, log, todo, n + 1, dest, order)
    {
      assert todo[..n + 1] == todo[..n] + [todo[n]];
    }

    lemma AssignedOn(commands: seq<Command>, shard: Shard, attempt: nat, clock: nat, log: seq<Sent>, todo: seq<nat>,
                     n: nat, dest: map<nat, Address>, order: seq<Address>, address: Address, order': seq<Address>)
      requires n < |todo| && (forall j :: 0 <= j < |todo| ==> todo[j] < |commands|) && todo[n] !in todo[..n]
      requires Assigned(commands, shard, attempt, clock, log, todo, n, dest, order)
      requires Target(commands, shard, attempt, clock, log, todo[n]) == Some(address)
      requires order' == if address in order then order else order + [address]
      ensures todo[n] !in dest
      ensures Assigned(commands, shard, attempt, clock, log, todo, n + 1, dest[todo[n] := address], order')
    {
      assert todo[..n + 1] == todo[..n] + [todo[n]];
      assert forall x :: x in order' <==> x in order || x == address;
    }

    /** One pipeline of an attempt, to one address. */
    method SendTo(commands: seq<Command>, shard: Shard, idxs: seq<nat>, address: Address, attempt: nat, clock: nat,
                  readonly: bool, before: seq<Option<Res>>, redirected: map<nat, Address>, retry0: set<nat>,
                  ghost log0: seq<Sent>, ghost log: seq<Sent>, ghost waiting: set<nat>, ghost start: nat)
      returns (results: seq<Option<Res>>, redirect: map<nat, Address>, retry: set<nat>, ghost s: Sent)
      requires Fair() && AllPlaced(commands, before, log, waiting, retry0, readonly) &&
        Redirects(commands, log, redirected)
      requires (readonly ==> OnlyReads(commands)) && attempt <= retries && turn == start + |log|
      requires Distinct(idxs) && ToSet(idxs) <= waiting && forall j :: 0 <= j < |idxs| ==> idxs[j] < |commands|
      requires forall i :: i in retry0 ==> i < |commands|
      requires History(commands, shard, start, log) && Untouched(commands, log0, log, waiting)
      requires forall p :: 0 <= p < |log0| ==> log0[p].attempt < attempt
      requires forall i :: i in idxs ==> Some(address) == Target(commands, shard, attempt, clock, log0, i)
      modifies `turn
      ensures turn == old(turn) + 1 && s.attempt == attempt && s.clock == clock && s.readonly == readonly &&
        s.idxs == idxs && s.address == address
      ensures AllPlaced(commands, results, log + [s], waiting - ToSet(idxs), retry, readonly)
      ensures forall i :: 0 <= i < |results| && results[i] != before[i] ==>
        results[i].Some? && !results[i].value.kind.Unroutable?
      ensures Redirects(commands, log + [s], redirect) && History(commands, shard, start, log + [s])
      ensures Untouched(commands, log0, log + [s], waiting - ToSet(idxs))
      ensures forall i :: i in retry <==> i in retry0 || Again(commands, s, i)
    {
      var o := script(turn, Select(commands, idxs));
      s := Sent(attempt, clock, address, readonly, idxs, o);
      assert Possible(o, Select(commands, idxs));
      turn := turn + 1;
      var notes := Note(commands, idxs, o, readonly, Notes(before, redirected, retry0), s);
      results, redirect, retry := notes.results, notes.redirect, notes.retry;
      PlaceAll(commands, before, results, log, s, waiting, retry0, retry, readonly);
      BroughtRouted(commands, before, results, retry0, retry, s);
      RedirectsOn(commands, log, s, redirected, redirect);
      UntouchedOn(commands, log0, log, waiting, s);
      SendsOne(commands, shard, start, log0, log, waiting, s);
    }

    lemma SendsOne(commands: seq<Command>, shard: Shard, start: nat, log0: seq<Sent>, log: seq<Sent>, waiting: set<nat>,
                   s: Sent)
      requires History(commands, shard, start, log) && Untouched(commands, log0, log, waiting) &&
        ToSet(s.idxs) <= waiting
      requires s.Proper(commands) && s.attempt <= retries && s.outcome ==
        script(start + |log|, Select(commands, s.idxs))
      requires forall p :: 0 <= p < |log0| ==> log0[p].attempt < s.attempt
      requires forall i :: i in s.idxs ==> Some(s.address) == Target(commands, shard, s.attempt, s.clock, log0, i)
      ensures History(commands, shard, start, log + [s])
    {
      var longer := log + [s];
      assert longer[..|log|] == log && longer[|log|] == s;
      forall i | i in s.idxs
        ensures Some(s.address) == Target(commands, shard, s.attempt, s.clock, log, i)
      {
        assert i in ToSet(s.idxs);
      }
      forall p, i | 0 <= p < |log| && i in log[p].idxs && i in s.idxs
        ensures log[p].attempt < s.attempt
      {
        assert i in ToSet(s.idxs);
        assert p < |log0|;
        assert log[p] == log0[p];
      }
      HistoryOn(commands, shard, start, log, s);
    }

    /** One attempt: a pipeline to each address, one after the other. */
    method Attempt(commands: seq<Command>, shard: Shard, todo: seq<nat>, attempt: nat, readonly: bool,
                   redirected: map<nat, Address>, before: seq<Option<Res>>, ghost log0: seq<Sent>, ghost start: nat)
      returns (aborted: bool, results: seq<Option<Res>>, redirect: map<nat, Address>, retry: set<nat>,
               ghost log: seq<Sent>)
      requires Fair() && AllPlaced(commands, before, log0, ToSet(todo), {}, readonly) && Distinct(todo)
      requires forall j :: 0 <= j < |todo| ==> todo[j] < |commands|
      requires (readonly ==> OnlyReads(commands)) && attempt <= retries && turn == start + |log0|
      requires History(commands, shard, start, log0) && Redirects(commands, log0, redirected)
      requires forall p :: 0 <= p < |log0| ==> log0[p].attempt < attempt
      requires InTurn(commands, log0) && Ascending(todo) && Routed(commands, shard, start, before, log0)
      requires attempt > 0 ==> forall j :: 0 <= j < |todo| ==> LastAgain(commands, log0, attempt - 1, todo[j])
      modifies `turn
      ensures InTurn(commands, log)
      ensures !aborted ==> |results| == |commands| && Routed(commands, shard, start, results, log)
      ensures aborted <==> attempt > 0 && exists j :: 0 <= j < |todo| && commands[todo[j]].keyless
      ensures aborted ==> log == log0
      ensures log0 <= log && turn == start + |log| && History(commands, shard, start, log)
      ensures forall p :: |log0| <= p < |log| ==> log[p].attempt == attempt
      ensures !aborted ==> AllPlaced(commands, results, log, {}, retry, readonly) && Redirects(commands, log, redirect)
      ensures !aborted ==> retry <= ToSet(todo) && forall i :: i in retry <==> SentAgain(commands, log, |log0|, i)
      ensures !aborted ==> forall i :: i in todo && Target(commands, shard, attempt, old(turn), log0, i).Some? ==>
        SentSince(log, |log0|, i)
    {
      redirect, retry, log := redirected, {}, log0;
      var dest, order;
      ghost var firsts;
      aborted, dest, order, results, firsts := Addresses(commands, shard, todo, attempt, redirect, before, readonly,
                                                         log,
                                                     start);
      if aborted {
        return;
      }
      ghost var waiting := dest.Keys;
      var clock := turn;
      for a := 0 to |order|
        invariant AllPlaced(commands, results, log, waiting, retry, readonly) && Redirects(commands, log, redirect)
        invariant turn == start + |log| && History(commands, shard, start, log)
        invariant Routed(commands, shard, start, results, log)
        invariant Underway(commands, todo, dest, order, a, attempt, clock, log0, log, retry, waiting)
      {
        var idxs := Bound(todo, dest, order[a]);
        BoundWaits(todo, dest, order, firsts, a, idxs, waiting);
        ghost var s;
        ghost var retry0, results0 := retry, results;
        results, redirect, retry, s := SendTo(commands, shard, idxs, order[a], attempt, clock, readonly, results,
                                              redirect,
                                              retry, log0, log, waiting, start);
        RoutedOn(commands, shard, start, results0, results, log, log + [s]);
        UnderwayOn(commands, todo, dest, order, a, attempt, clock, log0, log, retry0, retry, waiting, s);
        log, waiting := log + [s], waiting - ToSet(idxs);
      }
      assert order[..|order|] == order;
      assert waiting == {};
    }

    /** The results of a share: honest about what ran, and final unless every attempt was used. */
    ghost predicate ResultOk(commands: seq<Command>, results: seq<Res>, log: seq<Sent>, i: nat)
      requires |results| == |commands| && i < |commands|
    {
      && Honest(commands[i], results[i], Runs(log, i))
      && (Final(results[i].kind, OnlyReads(commands)) || LastAgain(commands, log, retries, i))
    }

    /** Where a result comes from: the last pipeline that held the command, or there was no node to send it to. */
    ghost predicate ResultFrom(commands: seq<Command>, shard: Shard, start: nat, results: seq<Res>, log: seq<Sent>,
                               i: nat)
      requires |results| == |commands| && i < |commands|
    {
      if results[i].kind.Unroutable? then Stranded(commands, shard, start, log, i)
      else LastResult(commands, log, i) == Some(results[i])
    }

    /**
     _send_with_retries: under every schedule of outcomes each write runs at most once, also in a batch
     that is aborted; each command gets one honest result at its own position, and is given up while
     another attempt could help only when all have been used. The batch is aborted exactly if the
     first attempt at a keyless command failed in a way that is retried.
     */
    method SendWithRetries(commands: seq<Command>, shard: Shard)
      returns (results: Option<seq<Res>>, ghost log: seq<Sent>)
      requires Fair()
      modifies `turn
      ensures History(commands, shard, old(turn), log) && InTurn(commands, log) && turn == old(turn) + |log|
      ensures AtMostOnce(commands, log)
      ensures results.None? <==> retries > 0 && Aborts(commands, log)
      ensures results.Some? ==> |results.value| == |commands|
      ensures results.Some? ==> forall i :: 0 <= i < |commands| ==> ResultOk(commands, results.value, log, i)
      ensures results.Some? ==>
        forall i :: 0 <= i < |commands| ==> ResultFrom(commands, shard, old(turn), results.value, log, i)
      ensures node(old(turn), shard).Some? ==> forall i :: 0 <= i < |commands| ==> SentFirst(log, i)
    {
      var n := |commands|;
      var answers: seq<Option<Res>> := seq(n, i => None);
      var todo: seq<nat> := seq(n, (i: nat) => i);
      var redirect: map<nat, Address> := map[];
      log := [];
      forall i | 0 <= i < n
        ensures PlacedAt(commands, answers, log, ToSet(todo), {}, OnlyReads(commands), i) && i in todo
      {
        assert todo[i] == i;
      }
      for attempt := 0 to retries + 1
        invariant Standing(commands, shard, old(turn), todo, answers, redirect, log, attempt)
        invariant turn == old(turn) + |log|
      {
        var aborted, todo', answers';
        aborted, todo', answers', redirect, log :=
          Round(commands, shard, todo, attempt, redirect, answers, log, old(turn));
        if aborted {
          PlacedRuns(commands, answers, log, ToSet(todo), {}, OnlyReads(commands));
          return None, log;
        }
        answers, todo := answers', todo';
        if todo == [] {
          break;
        }
      }
      PlacedRuns(commands, answers, log, {}, ToSet(todo), OnlyReads(commands));
      results := Answers(commands, answers, log, todo);
      forall i | 0 <= i < |commands|
        ensures ResultFrom(commands, shard, old(turn), results.value, log, i)
      {
        assert PlacedAt(commands, answers, log, {}, ToSet(todo), OnlyReads(commands), i);
      }
    }

    /** Between attempts. */
    ghost predicate Standing(commands: seq<Command>, shard: Shard, start: nat, todo: seq<nat>,
                             answers: seq<Option<Res>>,
                             redirect: map<nat, Address>, log: seq<Sent>, attempt: nat)
    {
      && Distinct(todo) && (forall j :: 0 <= j < |todo| ==> todo[j] < |commands|) && Redirects(commands, log, redirect)
      && InTurn(commands, log) && Ascending(todo)
      && |answers| == |commands| && Routed(commands, shard, start, answers, log)
      && AllPlaced(commands, answers, log, ToSet(todo), {}, OnlyReads(commands))
      && (attempt > 0 ==> AllPlaced(commands, answers, log, {}, ToSet(todo), OnlyReads(commands)))
      && History(commands, shard, start, log)
      && (forall p :: 0 <= p < |log| ==> log[p].attempt < attempt)
      && (if attempt == 0 then log == [] && forall i: nat :: i < |commands| ==> i in todo
          else Waits(commands, todo, log, attempt))
      && (attempt > 0 && node(start, shard).Some? ==> forall i :: 0 <= i < |commands| ==> SentFirst(log, i))
    }

    /** One attempt, and what it leaves for the next. */
    method Round(commands: seq<Command>, shard: Shard, todo0: seq<nat>, attempt: nat, redirected: map<nat, Address>,
                 before: seq<Option<Res>>, ghost log0: seq<Sent>, ghost start: nat)
      returns (aborted: bool, todo: seq<nat>, results: seq<Option<Res>>, redirect: map<nat, Address>,
               ghost log: seq<Sent>)
      requires Fair() && attempt <= retries && turn == start + |log0|
      requires Standing(commands, shard, start, todo0, before, redirected, log0, attempt)
      modifies `turn
      ensures turn == start + |log| && (aborted <==> attempt > 0 && exists j ::
        0 <= j < |todo0| && commands[todo0[j]].keyless)
      ensures aborted ==> log == log0
      ensures !aborted ==> Standing(commands, shard, start, todo, results, redirect, log, attempt + 1)
    {
      todo := todo0;
      var readonly, retry := OnlyReads(commands), {};
      aborted, results, redirect, retry, log := Attempt(commands, shard, todo, attempt, readonly, redirected, before,
                                                        log0, start);
      if aborted {
        return;
      }
      if node(start, shard).Some? {
        forall i | 0 <= i < |commands|
          ensures SentFirst(log, i)
        {
          FirstKept(log0, log, i, attempt);
        }
      }
      todo := Sorted(retry, |commands|);
      assert forall i :: i in todo <==> i in ToSet(todo);
      WaitsOn(commands, todo0, todo, log0, log, attempt);
      Requeue(commands, results, log, retry, readonly);
    }

    method Answers(commands: seq<Command>, answers: seq<Option<Res>>, ghost log: seq<Sent>, ghost todo: seq<nat>)
      returns (results: Option<seq<Res>>)
      requires AllPlaced(commands, answers, log, {}, ToSet(todo), OnlyReads(commands))
      requires forall j :: 0 <= j < |todo| ==> LastAgain(commands, log, retries, todo[j])
      ensures results.Some? && |results.value| == |commands|
      ensures forall i :: 0 <= i < |commands| ==> answers[i] == Some(results.value[i])
      ensures forall i :: 0 <= i < |commands| ==> ResultOk(commands, results.value, log, i)
    {
      forall i | 0 <= i < |commands|
        ensures answers[i].Some? && Honest(commands[i], answers[i].value, Runs(log, i))
        ensures Final(answers[i].value.kind, OnlyReads(commands)) || LastAgain(commands, log, retries, i)
      {
        assert PlacedAt(commands, answers, log, {}, ToSet(todo), OnlyReads(commands), i);
      }
      results := Some(seq(|commands|, i requires 0 <= i < |commands| => answers[i].value));
    }

    // ---------------------------------------------------------- order

    /** The command at position i, in pipeline p, ran before the one at position j, in pipeline q. */
    ghost predicate RanBefore(log: seq<Sent>, p: nat, i: nat, q: nat, j: nat)
      requires p < |log| && q < |log| && i in log[p].idxs && j in log[q].idxs
    {
      p < q || (p == q && At(log[p].idxs, i) < At(log[q].idxs, j))
    }

    /** The attempt a command is sent in is how often it has been answered that it is to be sent again. */
    lemma {:induction false} AttemptIsAgains(commands: seq<Command>, shard: Shard, start: nat, log: seq<Sent>, p: nat,
                                             i: nat)
      requires History(commands, shard, start, log) && InTurn(commands, log) && p < |log| && i in log[p].idxs
      ensures Agains(commands, log[..p], i) == log[p].attempt
    {
      var before := log[..p];
      if log[p].attempt == 0 {
        AgainsSkip(commands, before, 0, i);
        assert before[..0] == [];
      } else {
        assert Resent(commands, log, p);
        var r :| 0 <= r < |before| && before[r].attempt == log[p].attempt - 1 && Again(commands, before[r], i);
        assert before[r] == log[r];
        AttemptIsAgains(commands, shard, start, log, r, i);
        AgainsThrough(commands, log, r, p, i);
      }
    }

    /** The two belong to one group at any time, and had been sent on to the same node if their attempt was the same. */
    ghost predicate SameWay(commands: seq<Command>, log: seq<Sent>, p: nat, i: nat, q: nat, j: nat)
      requires p < |log| && q < |log| && i < |commands| && j < |commands|
    {
      && (forall t: nat :: owner(t, commands[i]) == owner(t, commands[j]))
      && (log[p].attempt == log[q].attempt ==>
            Redirect(commands, log[..p], i) == Redirect(commands, log[..q], j))
    }

    lemma SameAddress(commands: seq<Command>, shard: Shard, start: nat, log: seq<Sent>, p: nat, i: nat, q: nat, j: nat)
      requires p < |log| && q < |log| && i in log[p].idxs && j in log[q].idxs && i < |commands| && j < |commands|
      requires StepOk(commands, shard, start, log, p) && StepOk(commands, shard, start, log, q)
      requires log[p].attempt == log[q].attempt && log[p].clock == log[q].clock && SameWay(commands, log, p, i, q, j)
      ensures log[p].address == log[q].address
    {
      var clock := log[p].clock;
      assert owner(clock, commands[i]) == owner(clock, commands[j]);
    }

    lemma AttemptsInOrder(commands: seq<Command>, log: seq<Sent>, p: nat, i: nat, q: nat, j: nat)
      requires InTurn(commands, log) && i < j && p < |log| && q < |log| && i in log[p].idxs && j in log[q].idxs
      requires log[p].attempt == log[q].attempt && log[p].clock == log[q].clock ==> log[p].address == log[q].address
      ensures RanBefore(log, p, i, q, j) <==> log[p].attempt <= log[q].attempt
    {
      if p < q {
        assert Sooner(log[p], log[q]);
      } else if q < p {
        assert Sooner(log[q], log[p]);
      } else {
        var x, y := At(log[p].idxs, i), At(log[p].idxs, j);
        assert log[p].idxs[x] == i && log[p].idxs[y] == j && Ascending(log[p].idxs);
      }
    }

    /**
     When a share keeps the order of two writes that ran, as of two writes to one key: exactly if the
     first was not answered more often than the second that it is to be sent again.
     */
    lemma WritesInOrder(commands: seq<Command>, shard: Shard, start: nat, log: seq<Sent>, p: nat, i: nat, q: nat,
                        j: nat)
      requires History(commands, shard, start, log) && InTurn(commands, log) && i < j < |commands|
      requires p < |log| && q < |log| && RanIn(log[p], i) && RanIn(log[q], j) && SameWay(commands, log, p, i, q, j)
      ensures RanBefore(log, p, i, q, j) <==> Agains(commands, log[..p], i) <= Agains(commands, log[..q], j)
    {
      AttemptIsAgains(commands, shard, start, log, p, i);
      AttemptIsAgains(commands, shard, start, log, q, j);
      if log[p].attempt == log[q].attempt && log[p].clock == log[q].clock {
        SameAddress(commands, shard, start, log, p, i, q, j);
      }
      AttemptsInOrder(commands, log, p, i, q, j);
    }

    // ---------------------------------------------------------- a batch

    /** A share's pipelines are those of its commands, and its writes ran at most once. */
    ghost predicate ShareOk(commands: seq<Command>, plans: seq<Plan>, s: Share)
      requires |plans| == |commands|
    {
      && Distinct(s.idxs) && Inside(commands, s.idxs)
      && (forall j :: 0 <= j < |s.idxs| ==> !plans[s.idxs[j]].Here?)
      && History(Select(commands, s.idxs), s.shard, s.start, s.log)
      && AtMostOnce(Select(commands, s.idxs), s.log) && InTurn(Select(commands, s.idxs), s.log)
      && (node(s.start, s.shard).Some? ==> forall j :: 0 <= j < |s.idxs| ==> SentFirst(s.log, j))
    }

    /** r is an answer for position i that fits what its share went through. */
    ghost predicate Fits(commands: seq<Command>, s: Share, i: nat, r: Res) {
      && i in s.idxs && i < |commands| && Inside(commands, s.idxs)
      && var j, share := At(s.idxs, i), Select(commands, s.idxs);
         && Honest(commands[i], r, Runs(s.log, j))
         && (Final(r.kind, OnlyReads(share)) || LastAgain(share, s.log, retries, j))
    }

    /** Position i has been answered: here, by its group, or by all groups together. */
    ghost predicate Answered(commands: seq<Command>, plans: seq<Plan>, groups: nat, answers: seq<Option<Res>>,
                             shares: seq<Share>, i: nat)
      requires |answers| == |commands| == |plans| && i < |commands|
    {
      answers[i].Some? &&
      match plans[i]
      case Here(kind) => answers[i].value == Res(commands[i].id, kind)
      case Group(shard) => exists p ::
        0 <= p < |shares| && shares[p].shard == shard && Fits(commands, shares[p], i, answers[i].value)
      case Everywhere => exists p: nat, replies: seq<Res> :: Merges(commands, groups, shares, p, replies, i,
                                                                    answers[i].value)
    }

    /** Every group was sent the command at position i on its own, and r stands for their replies. */
    ghost predicate Merges(commands: seq<Command>, groups: nat, shares: seq<Share>, p: nat, replies: seq<Res>, i: nat,
                           r: Res)
      requires i < |commands|
    {
      && |replies| == groups && p + groups <= |shares| && r == Merged(commands[i], replies)
      && forall q :: p <= q < p + groups ==>
           shares[q].shard == q - p && shares[q].idxs == [i] && Fits(commands, shares[q], i, replies[q - p])
    }

    /** The shares from the p-th on are one for each group, with a fitting reply. */
    ghost predicate AllFit(commands: seq<Command>, shares: seq<Share>, p: nat, replies: seq<Res>, i: nat) {
      && |shares| == p + |replies|
      && forall q :: p <= q < |shares| ==>
           shares[q].shard == q - p && shares[q].idxs == [i] && Fits(commands, shares[q], i, replies[q - p])
    }

    lemma AllFitOn(commands: seq<Command>, shares: seq<Share>, p: nat, replies: seq<Res>, i: nat, s: Share, r: Res)
      requires AllFit(commands, shares, p, replies, i)
      requires s.shard == |replies| && s.idxs == [i] && Fits(commands, s, i, r)
      ensures AllFit(commands, shares + [s], p, replies + [r], i)
    {
      var shares', replies' := shares + [s], replies + [r];
      forall q | p <= q < |shares'|
        ensures shares'[q].shard == q - p && shares'[q].idxs == [i] && Fits(commands, shares'[q], i, replies'[q - p])
      {
        assert q < |shares| ==> shares'[q] == shares[q] && replies'[q - p] == replies[q - p];
      }
    }

    lemma AnsweredOn(commands: seq<Command>, plans: seq<Plan>, groups: nat, answers: seq<Option<Res>>,
                     shares: seq<Share>,
                     answers': seq<Option<Res>>, longer: seq<Share>, i: nat)
      requires |answers| == |answers'| == |commands| == |plans| && i < |commands| && shares <= longer &&
        answers'[i] == answers[i]
      requires Answered(commands, plans, groups, answers, shares, i)
      ensures Answered(commands, plans, groups, answers', longer, i)
    {
      match plans[i]
      case Here(kind) =>
      case Group(shard) =>
        var p :| 0 <= p < |shares| && shares[p].shard == shard && Fits(commands, shares[p], i, answers[i].value);
        assert longer[p] == shares[p];
      case Everywhere =>
        var p: nat, replies: seq<Res> :| Merges(commands, groups, shares, p, replies, i, answers[i].value);
        assert Merges(commands, groups, longer, p, replies, i, answers[i].value);
    }

    /** The shares so far, one after the other; what still waits comes after every barrier. */
    ghost predicate SharesOk(commands: seq<Command>, plans: seq<Plan>, shares: seq<Share>, waiting: set<nat>, k: nat)
      requires |plans| == |commands| && k <= |commands|
    {
      && (forall p :: 0 <= p < |shares| ==> ShareOk(commands, plans, shares[p]))
      && Sequential(plans, shares)
      && (forall p, a :: 0 <= p < |shares| && a in shares[p].idxs ==>
          a < k && a !in waiting && Precedes(plans, waiting, a))
      && (forall i :: i in waiting ==> i < k && plans[i].Group?)
    }

    lemma SharesOn(commands: seq<Command>, plans: seq<Plan>, shares: seq<Share>, waiting: set<nat>, k: nat, s: Share,
                   waiting': set<nat>, k': nat)
      requires |plans| == |commands| && k <= k' <= |commands|
      requires SharesOk(commands, plans, shares, waiting, k) && ShareOk(commands, plans, s) &&
        waiting' == waiting - ToSet(s.idxs)
      requires forall p :: 0 <= p < |shares| ==> shares[p].start + |shares[p].log| <= s.start
      requires forall b :: b in s.idxs ==> b < k' && Ready(plans, waiting, k, b)
      ensures SharesOk(commands, plans, shares + [s], waiting', k')
    {
      var longer := shares + [s];
      forall p | 0 <= p < |longer|
        ensures ShareOk(commands, plans, longer[p])
        ensures forall a :: a in longer[p].idxs ==> a < k' && a !in waiting' && Precedes(plans, waiting', a)
      {
        if p < |shares| {
          assert longer[p] == shares[p];
        } else {
          assert forall a :: a in s.idxs ==> a in ToSet(s.idxs);
        }
      }
      forall p, a, b | 0 <= p < |shares| && a in shares[p].idxs && b in s.idxs
        ensures InOrder(plans, a, b)
      {
        assert Precedes(plans, waiting, a) && Ready(plans, waiting, k, b);
      }
      SequentialOn(plans, shares, s);
    }

    /** Every share has been sent, and every position below k that does not wait has its answer. */
    ghost predicate BatchOk(commands: seq<Command>, plans: seq<Plan>, groups: nat, answers: seq<Option<Res>>,
                            shares: seq<Share>, waiting: set<nat>, k: nat, end: nat)
    {
      && |answers| == |plans| == |commands| && k <= |commands|
      && SharesOk(commands, plans, shares, waiting, k)
      && (forall p :: 0 <= p < |shares| ==> shares[p].start + |shares[p].log| <= end)
      && (forall i :: 0 <= i < k && i !in waiting ==> Answered(commands, plans, groups, answers, shares, i))
      && (retries > 0 ==> !Stopped(commands, shares))
    }

    /** One group's share of the batch, and every reply back to its own position. */
    method SendShare(commands: seq<Command>, plans: seq<Plan>, groups: nat, shard: Shard, idxs: seq<nat>,
                     before: seq<Option<Res>>, ghost shares: seq<Share>, ghost waiting: set<nat>, ghost k: nat)
      returns (answers: seq<Option<Res>>, ghost s: Share)
      requires Fair() && Planned(commands, plans) && BatchOk(commands, plans, groups, before, shares, waiting, k, turn)
      requires Distinct(idxs) && ToSet(idxs) <= waiting && forall i :: i in idxs ==>
        i < |commands| && plans[i] == Group(shard)
      modifies `turn
      ensures BatchOk(commands, plans, groups, answers, shares + [s], waiting - ToSet(idxs), k, turn)
    {
      ghost var start := turn;
      assert forall j :: 0 <= j < |idxs| ==> idxs[j] in idxs;
      var replies;
      ghost var log;
      replies, log := SendWithRetries(Select(commands, idxs), shard);
      s := Share(shard, start, idxs, log);
      assert !Aborts(Select(commands, idxs), log);
      answers := Scatter(idxs, replies.value, before);
      assert ShareOk(commands, plans, s);
      assert forall b :: b in idxs ==> b in ToSet(idxs) && Ready(plans, waiting, k, b);
      SharesOn(commands, plans, shares, waiting, k, s, waiting - ToSet(idxs), k);
      StoppedOn(commands, shares, s);
      forall i | 0 <= i < k && i !in waiting - ToSet(idxs)
        ensures Answered(commands, plans, groups, answers, shares + [s], i)
      {
        if i in idxs {
          var j := At(idxs, i);
          assert ResultOk(Select(commands, idxs), replies.value, log, j);
          assert (shares + [s])[|shares|] == s && Fits(commands, s, i, answers[i].value);
        } else {
          AnsweredOn(commands, plans, groups, before, shares, answers, shares + [s], i);
        }
      }
    }

    /** _flush: each group's share of what waits. */
    method Flush(commands: seq<Command>, plans: seq<Plan>, groups: nat, pending: seq<nat>, dest: map<nat, Shard>,
                 order: seq<Shard>, before: seq<Option<Res>>, ghost shares0: seq<Share>, ghost k: nat)
      returns (answers: seq<Option<Res>>, ghost shares: seq<Share>)
      requires Fair() && Planned(commands, plans)
      requires BatchOk(commands, plans, groups, before, shares0, ToSet(pending), k, turn)
      requires Grouped(plans, pending, dest, order, k)
      modifies `turn
      ensures BatchOk(commands, plans, groups, answers, shares, {}, k, turn)
    {
      answers, shares := before, shares0;
      ghost var waiting := ToSet(pending);
      for a := 0 to |order|
        invariant BatchOk(commands, plans, groups, answers, shares, waiting, k, turn)
        invariant forall i :: i in waiting <==> i in pending && dest[i] !in order[..a]
      {
        var idxs := Bound(pending, dest, order[a]);
        assert order[..a + 1] == order[..a] + [order[a]] && order[a] !in order[..a];
        ghost var s;
        answers, s := SendShare(commands, plans, groups, order[a], idxs, answers, shares, waiting, k);
        shares, waiting := shares + [s], waiting - ToSet(idxs);
      }
      assert order[..|order|] == order;
      assert waiting == {};
    }

    /** The command at position k, on one group. */
    method SendAlone(commands: seq<Command>, plans: seq<Plan>, k: nat, g: Shard)
      returns (sent: Option<Res>, ghost s: Share)
      requires Fair() && |plans| == |commands| && k < |commands| && plans[k].Everywhere?
      modifies `turn
      ensures s.shard == g && s.start == old(turn) && s.idxs == [k] && turn == s.start + |s.log|
      ensures ShareOk(commands, plans, s) && (sent.None? <==> retries > 0 && StoppedIn(commands, s))
      ensures sent.Some? ==> Fits(commands, s, k, sent.value)
    {
      ghost var start := turn;
      assert Select(commands, [k]) == [commands[k]];
      var results;
      ghost var log;
      results, log := SendWithRetries([commands[k]], g);
      s := Share(g, start, [k], log);
      if results.None? {
        return None, s;
      }
      assert ResultOk([commands[k]], results.value, log, 0);
      sent := Some(results.value[0]);
    }

    /**
     _fanout: the command at position k on every group, one reply for all. A group where the command
     cannot be retried aborts the batch; the other groups are sent it all the same.
     */
    method Fanout(commands: seq<Command>, plans: seq<Plan>, k: nat, groups: nat, ghost shares0: seq<Share>)
      returns (result: Option<Res>, ghost shares: seq<Share>, ghost replies: seq<Res>)
      requires Fair() && |plans| == |commands| && k < |commands| && plans[k].Everywhere?
      requires SharesOk(commands, plans, shares0, {}, k) && (retries > 0 ==> !Stopped(commands, shares0))
      requires forall p :: 0 <= p < |shares0| ==> shares0[p].start + |shares0[p].log| <= turn
      modifies `turn
      ensures SharesOk(commands, plans, shares, {}, k + 1) && shares0 <= shares
      ensures forall p :: 0 <= p < |shares| ==> shares[p].start + |shares[p].log| <= turn
      ensures result.None? <==> retries > 0 && Stopped(commands, shares)
      ensures result.Some? ==> Merges(commands, groups, shares, |shares0|, replies, k, result.value)
    {
      shares := shares0;
      var collected: seq<Res>, aborted := [], false;
      for g := 0 to groups
        invariant Fanned(commands, plans, shares0, shares, k, g, collected, aborted, turn)
      {
        var sent;
        ghost var s;
        ghost var collected0, aborted0 := collected, aborted;
        sent, s := SendAlone(commands, plans, k, g);
        if sent.None? {
          aborted := true;
        } else {
          collected := collected + [sent.value];
        }
        FannedOn(commands, plans, shares0, shares, k, g, collected0, aborted0, s, sent);
        shares := shares + [s];
      }
      replies := collected;
      if aborted {
        return None, shares, replies;
      }
      var merged := MergeReplies(commands[k], collected);
      result := Some(merged);
    }

    /** The command at position k has been sent to the first g groups. */
    ghost predicate Fanned(commands: seq<Command>, plans: seq<Plan>, shares0: seq<Share>, shares: seq<Share>, k: nat,
                           g: nat, collected: seq<Res>, aborted: bool, end: nat)
      requires |plans| == |commands| && k < |commands|
    {
      && SharesOk(commands, plans, shares, {}, if g == 0 then k else k + 1) && shares0 <= shares
      && |shares| == |shares0| + g
      && (forall p :: 0 <= p < |shares| ==> shares[p].start + |shares[p].log| <= end)
      && (aborted <==> retries > 0 && Stopped(commands, shares))
      && (!aborted ==> AllFit(commands, shares, |shares0|, collected, k))
    }

    lemma FannedOn(commands: seq<Command>, plans: seq<Plan>, shares0: seq<Share>, shares: seq<Share>, k: nat, g: nat,
                   collected: seq<Res>, aborted: bool, s: Share, sent: Option<Res>)
      requires |plans| == |commands| && k < |commands| && plans[k].Everywhere?
      requires Fanned(commands, plans, shares0, shares, k, g, collected, aborted, s.start)
      requires s.shard == g && s.idxs == [k] && ShareOk(commands, plans, s)
      requires sent.None? <==> retries > 0 && StoppedIn(commands, s)
      requires sent.Some? ==> Fits(commands, s, k, sent.value)
      ensures Fanned(commands, plans, shares0, shares + [s], k, g + 1,
                     if sent.Some? then collected + [sent.value] else collected, aborted || sent.None?,
                     s.start + |s.log|)
    {
      SharesOn(commands, plans, shares, {}, if g == 0 then k else k + 1, s, {}, k + 1);
      StoppedOn(commands, shares, s);
      if sent.Some? && !aborted {
        AllFitOn(commands, shares, |shares0|, collected, k, s, sent.value);
      }
    }

    /** What waits is answered first, then the command for all groups. */
    method Barrier(commands: seq<Command>, plans: seq<Plan>, groups: nat, pending: seq<nat>, dest: map<nat, Shard>,
                   order: seq<Shard>, before: seq<Option<Res>>, ghost shares0: seq<Share>, k: nat)
      returns (done: bool, answers: seq<Option<Res>>, ghost shares: seq<Share>)
      requires Fair() && Planned(commands, plans) && k < |commands| && plans[k].Everywhere?
      requires BatchOk(commands, plans, groups, before, shares0, ToSet(pending), k, turn)
      requires Grouped(plans, pending, dest, order, k)
      modifies `turn
      ensures SharesOk(commands, plans, shares, {}, k + 1)
      ensures !done <==> retries > 0 && Stopped(commands, shares)
      ensures done ==> BatchOk(commands, plans, groups, answers, shares, {}, k + 1, turn)
    {
      ghost var flushed, replies;
      answers, flushed := Flush(commands, plans, groups, pending, dest, order, before, shares0, k);
      var merged;
      merged, shares, replies := Fanout(commands, plans, k, groups, flushed);
      done := merged.Some?;
      if done {
        AnswerMerged(commands, plans, groups, answers, flushed, shares, k, merged.value, replies, turn);
        answers := answers[k := merged];
      }
    }

    /** A command that is answered here, or waits for its group's share. */
    method Enqueue(commands: seq<Command>, plans: seq<Plan>, groups: nat, pending0: seq<nat>, dest0: map<nat, Shard>,
                   order0: seq<Shard>, before: seq<Option<Res>>, ghost shares: seq<Share>, k: nat)
      returns (answers: seq<Option<Res>>, pending: seq<nat>, dest: map<nat, Shard>, order: seq<Shard>)
      requires BatchOk(commands, plans, groups, before, shares, ToSet(pending0), k, turn) && k < |commands|
      requires Grouped(plans, pending0, dest0, order0, k) && !plans[k].Everywhere?
      ensures BatchOk(commands, plans, groups, answers, shares, ToSet(pending), k + 1, turn)
      ensures Grouped(plans, pending, dest, order, k + 1)
    {
      answers, pending, dest, order := before, pending0, dest0, order0;
      match plans[k] {
        case Here(kind) =>
          AnswerHere(commands, plans, groups, answers, shares, ToSet(pending), k, turn);
          answers := answers[k := Some(Res(commands[k].id, kind))];
        case Group(shard) =>
          WaitOne(commands, plans, groups, answers, shares, pending, k, turn);
          GroupedOn(plans, pending, dest, order, k, shard);
          pending, dest := pending + [k], dest[k := shard];
          if shard !in order {
            order := order + [shard];
          }
      }
    }

    /**
     execute_batch: every command is answered at its own position, by its own group or by all, and a
     command for all groups waits for those before it and holds up those after it. Writes run at most
     once in each share, also in a batch that is aborted; it is aborted exactly if the first attempt
     at a command for all groups failed in a way that is retried.
     */
    method ExecuteBatch(commands: seq<Command>, plans: seq<Plan>, groups: nat)
      returns (results: Option<seq<Option<Res>>>, ghost shares: seq<Share>)
      requires Fair() && Planned(commands, plans)
      modifies `turn
      ensures Sequential(plans, shares) && forall p :: 0 <= p < |shares| ==> ShareOk(commands, plans, shares[p])
      ensures results.None? <==> retries > 0 && Stopped(commands, shares)
      ensures results.Some? ==> |results.value| == |commands|
      ensures results.Some? ==> forall i :: 0 <= i < |commands| ==>
        Answered(commands, plans, groups, results.value, shares, i)
    {
      var answers: seq<Option<Res>> := seq(|commands|, i => None);
      shares := [];
      var pending: seq<nat>, dest: map<nat, Shard>, order: seq<Shard> := [], map[], [];
      for k := 0 to |commands|
        invariant BatchOk(commands, plans, groups, answers, shares, ToSet(pending), k, turn)
        invariant Grouped(plans, pending, dest, order, k)
      {
        if plans[k].Everywhere? {
          var done;
          done, answers, shares := Barrier(commands, plans, groups, pending, dest, order, answers, shares, k);
          if !done {
            return None, shares;
          }
          pending, dest, order := [], map[], [];
          assert ToSet(pending) == {};
        } else {
          answers, pending, dest, order := Enqueue(commands, plans, groups, pending, dest, order, answers, shares, k);
        }
      }
      answers, shares := Flush(commands, plans, groups, pending, dest, order, answers, shares, |commands|);
      results := Some(answers);
    }

    /** A refused connection stops a keyless command that is alone in its share. */
    lemma RefusedStops(commands: seq<Command>, plans: seq<Plan>, s: Share)
      requires |plans| == |commands| && ShareOk(commands, plans, s) && |s.idxs| == 1 && commands[s.idxs[0]].keyless
      requires node(s.start, s.shard).Some? && forall t, cs :: script(t, cs).exchange.Refused?
      ensures StoppedIn(commands, s)
    {
      var share := Select(commands, s.idxs);
      assert SentFirst(s.log, 0);
      var p :| 0 <= p < |s.log| && s.log[p].attempt == 0 && 0 in s.log[p].idxs;
      assert StepOk(share, s.shard, s.start, s.log, p);
      assert Stops(share, s.log[p], 0);
    }

    lemma AnswerHere(commands: seq<Command>, plans: seq<Plan>, groups: nat, answers: seq<Option<Res>>,
                     shares: seq<Share>,
                     waiting: set<nat>, k: nat, end: nat)
      requires BatchOk(commands, plans, groups, answers, shares, waiting, k, end) && k < |commands| && plans[k].Here?
      ensures BatchOk(commands, plans, groups, answers[k := Some(Res(commands[k].id, plans[k].kind))], shares, waiting,
                      k + 1, end)
    {
      var answers' := answers[k := Some(Res(commands[k].id, plans[k].kind))];
      forall i | 0 <= i < k + 1 && i !in waiting
        ensures Answered(commands, plans, groups, answers', shares, i)
      {
        if i < k {
          AnsweredOn(commands, plans, groups, answers, shares, answers', shares, i);
        }
      }
    }

    lemma WaitOne(commands: seq<Command>, plans: seq<Plan>, groups: nat, answers: seq<Option<Res>>, shares: seq<Share>,
                  pending: seq<nat>, k: nat, end: nat)
      requires BatchOk(commands, plans, groups, answers, shares, ToSet(pending), k, end) && k < |commands| &&
        plans[k].Group?
      ensures BatchOk(commands, plans, groups, answers, shares, ToSet(pending + [k]), k + 1, end)
    {
      var waiting := ToSet(pending + [k]);
      assert waiting == ToSet(pending) + {k};
      forall p, a | 0 <= p < |shares| && a in shares[p].idxs
        ensures a < k + 1 && a !in waiting && Precedes(plans, waiting, a)
      {
        assert a < k && a !in ToSet(pending) && Precedes(plans, ToSet(pending), a);
      }
    }

    lemma AnswerMerged(commands: seq<Command>, plans: seq<Plan>, groups: nat, answers: seq<Option<Res>>,
                       shares: seq<Share>,
                       longer: seq<Share>, k: nat, r: Res, replies: seq<Res>, end: nat)
      requires |answers| == |plans| == |commands| && k < |commands| && plans[k].Everywhere? && shares <= longer
      requires forall i :: 0 <= i < k ==> Answered(commands, plans, groups, answers, shares, i)
      requires SharesOk(commands, plans, longer, {}, k + 1) && (retries > 0 ==> !Stopped(commands, longer))
      requires forall p :: 0 <= p < |longer| ==> longer[p].start + |longer[p].log| <= end
      requires Merges(commands, groups, longer, |shares|, replies, k, r)
      ensures BatchOk(commands, plans, groups, answers[k := Some(r)], longer, {}, k + 1, end)
    {
      var answers' := answers[k := Some(r)];
      forall i | 0 <= i < k + 1
        ensures Answered(commands, plans, groups, answers', longer, i)
      {
        if i < k {
          AnsweredOn(commands, plans, groups, answers, shares, answers', longer, i);
        } else {
          assert Merges(commands, groups, longer, |shares|, replies, k, answers'[i].value);
        }
      }
    }
  }

  // ------------------------------------------------------------ a batch

  /** Where a command goes: answered here (or refused), to one group, or to all. */
  datatype Plan = Here(kind: Kind) | Group(shard: Shard) | Everywhere

  /** A share of a batch: the group it goes to, the pipelines sent before it, its positions and its pipelines. */
  datatype Share = Share(shard: Shard, start: nat, idxs: seq<nat>, log: seq<Sent>)

  predicate Inside(commands: seq<Command>, idxs: seq<nat>) {
    forall j :: 0 <= j < |idxs| ==> idxs[j] < |commands|
  }

  /** _fanout: the first error stands for all replies; without one they are merged. */
  function Merged(c: Command, replies: seq<Res>): Res {
    if replies == [] then Res(c.id, Value)
    else if !replies[0].kind.Value? then Res(c.id, replies[0].kind)
    else Merged(c, replies[1..])
  }

  method MergeReplies(c: Command, replies: seq<Res>) returns (r: Res)
    ensures r == Merged(c, replies)
  {
    for g := 0 to |replies|
      invariant Merged(c, replies) == Merged(c, replies[g..])
    {
      if !replies[g].kind.Value? {
        return Res(c.id, replies[g].kind);
      }
    }
    return Res(c.id, Value);
  }

  /** A barrier that has been sent came before all that waits. */
  ghost predicate Precedes(plans: seq<Plan>, waiting: set<nat>, a: nat) {
    a < |plans| && plans[a].Everywhere? ==> forall b :: b in waiting ==> a < b
  }

  /**
   One share after the other: a command for one group is in one share only, and what a barrier
   separates is sent in the order of the batch.
   */
  ghost predicate Sequential(plans: seq<Plan>, shares: seq<Share>) {
    && (forall p, q :: 0 <= p < q < |shares| ==> shares[p].start + |shares[p].log| <= shares[q].start)
    && (forall p, q, a, b :: 0 <= p < q < |shares| && a in shares[p].idxs && b in shares[q].idxs ==>
        InOrder(plans, a, b))
  }

  lemma SequentialOn(plans: seq<Plan>, shares: seq<Share>, s: Share)
    requires Sequential(plans, shares)
    requires forall p :: 0 <= p < |shares| ==> shares[p].start + |shares[p].log| <= s.start
    requires forall p, a, b :: 0 <= p < |shares| && a in shares[p].idxs && b in s.idxs ==> InOrder(plans, a, b)
    ensures Sequential(plans, shares + [s])
  {
    var longer := shares + [s];
    forall p, q, a, b | 0 <= p < q < |longer| && a in longer[p].idxs && b in longer[q].idxs
      ensures InOrder(plans, a, b)
    {
      assert longer[p] == shares[p];
      assert q < |shares| ==> longer[q] == shares[q];
    }
  }

  /** It may be sent now: it waits for its group, or it is a barrier and nothing before it waits. */
  ghost predicate Ready(plans: seq<Plan>, waiting: set<nat>, k: nat, b: nat) {
    b < |plans| && if plans[b].Everywhere? then waiting == {} && k <= b + 1 else b in waiting
  }

  ghost predicate InOrder(plans: seq<Plan>, a: nat, b: nat) {
    a < |plans| && b < |plans| ==>
      && (plans[a].Group? && plans[b].Group? ==> a != b)
      && (plans[a].Everywhere? || plans[b].Everywhere? ==> a <= b)
  }

  /** What waits, and the groups it waits for in the order they came up. */
  ghost predicate Grouped(plans: seq<Plan>, pending: seq<nat>, dest: map<nat, Shard>, order: seq<Shard>, k: nat) {
    && Distinct(pending) && Distinct(order) && k <= |plans|
    && forall i :: i in pending ==> i < k && i in dest && dest[i] in order && plans[i] == Group(dest[i])
  }

  lemma GroupedOn(plans: seq<Plan>, pending: seq<nat>, dest: map<nat, Shard>, order: seq<Shard>, k: nat, shard: Shard)
    requires Grouped(plans, pending, dest, order, k) && k < |plans| && plans[k] == Group(shard)
    ensures Grouped(plans, pending + [k], dest[k := shard], if shard in order then order else order + [shard], k + 1)
  {
    assert forall i :: 0 <= i < |pending| ==> pending[i] in pending;
    assert forall i :: 0 <= i < |order| ==> order[i] in order;
  }

  /** Only a command without keys goes to every group. */
  ghost predicate Planned(commands: seq<Command>, plans: seq<Plan>) {
    |plans| == |commands| && forall i :: 0 <= i < |plans| ==> (plans[i].Group? ==> !commands[i].keyless)
  }

  /** A share was stopped by a keyless command. */
  ghost predicate Stopped(commands: seq<Command>, shares: seq<Share>) {
    exists p :: 0 <= p < |shares| && StoppedIn(commands, shares[p])
  }

  ghost predicate StoppedIn(commands: seq<Command>, s: Share) {
    Inside(commands, s.idxs) && Aborts(Select(commands, s.idxs), s.log)
  }

  lemma StoppedOn(commands: seq<Command>, shares: seq<Share>, s: Share)
    ensures Stopped(commands, shares + [s]) <==> Stopped(commands, shares) || StoppedIn(commands, s)
  {
    var longer := shares + [s];
    assert longer[|shares|] == s;
    if Stopped(commands, shares) {
      var p :| 0 <= p < |shares| && StoppedIn(commands, shares[p]);
      assert longer[p] == shares[p];
    }
    if Stopped(commands, longer) {
      var p :| 0 <= p < |longer| && StoppedIn(commands, longer[p]);
      assert p < |shares| ==> longer[p] == shares[p];
    }
  }

  /** The replies of a group go to the positions its commands came from. */
  method Scatter(idxs: seq<nat>, replies: seq<Res>, before: seq<Option<Res>>) returns (answers: seq<Option<Res>>)
    requires Distinct(idxs) && |replies| == |idxs| && forall j :: 0 <= j < |idxs| ==> idxs[j] < |before|
    ensures |answers| == |before| && forall i :: 0 <= i < |before| && i !in idxs ==> answers[i] == before[i]
    ensures forall j :: 0 <= j < |idxs| ==> answers[idxs[j]] == Some(replies[j])
  {
    answers := before;
    for j := 0 to |idxs|
      invariant |answers| == |before| && forall i :: 0 <= i < |before| && i !in idxs ==> answers[i] == before[i]
      invariant forall h :: 0 <= h < j ==> answers[idxs[h]] == Some(replies[h])
    {
      answers := answers[idxs[j] := Some(replies[j])];
    }
  }

  /**
   FLUSHALL on one group whose node refuses the first connection: with a retry left the whole batch is
   aborted, though nothing ran and a retry would have been safe.
   */
  method KeylessAborts(id: nat, retries: nat) returns (results: Option<seq<Option<Res>>>)
    requires retries > 0
    ensures results.None?
  {
    var router := new ShardRouter(retries, (t: nat, c: Command) => None, (t: nat, s: Shard) => Some(0),
                                  (t: nat, cs: seq<Command>) => Outcome(Refused, seq(|cs|, i => false)));
    var commands := [Command(id, true, true)];
    ghost var shares;
    results, shares := router.ExecuteBatch(commands, [Everywhere], 1);
    if results.Some? {
      assert router.Answered(commands, [Everywhere], 1, results.value, shares, 0);
      ghost var p: nat, replies: seq<Res> :|
        router.Merges(commands, 1, shares, p, replies, 0, results.value[0].value);
      router.RefusedStops(commands, [Everywhere], shares[p]);
    }
  }

  // ------------------------------------------------------------ order lost

  /** Every command runs, but the first of the first pipeline: that is turned away, its key is on the move. */
  function TurnsFirstAway(t: nat, commands: seq<Command>): Outcome {
    Outcome(Replies(seq(|commands|, k requires 0 <= k < |commands| =>
                                      Res(commands[k].id, if t == 0 && k == 0 then TryAgain else Value))),
            seq(|commands|, k => !(t == 0 && k == 0)))
  }

  /** A cluster of one node that turns the first command of the first pipeline away. */
  ghost predicate OneNode(router: ShardRouter) {
    && (forall t: nat, c: Command :: router.owner(t, c) == Some(0))
    && (forall t: nat, s: Shard :: router.node(t, s) == Some(0))
    && (forall t: nat, cs: seq<Command> :: router.script(t, cs) == TurnsFirstAway(t, cs))
  }

  lemma OneNodeFair(router: ShardRouter)
    requires OneNode(router)
    ensures router.Fair()
  {
    forall t: nat, cs: seq<Command>
      ensures Possible(router.script(t, cs), cs)
    {
      assert router.script(t, cs) == TurnsFirstAway(t, cs);
    }
  }

  lemma {:induction false} NeverSentOn(router: ShardRouter, commands: seq<Command>, log: seq<Sent>, n: nat, i: nat)
    requires OneNode(router) && router.History(commands, 0, 0, log) && n <= |log| && i < |commands|
    ensures Redirect(commands, log[..n], i) == None
  {
    if n > 0 {
      NeverSentOn(router, commands, log, n - 1, i);
      assert log[..n][..n - 1] == log[..n - 1];
      assert router.StepOk(commands, 0, 0, log, n - 1);
    }
  }

  /** All goes to the one node, so there is one pipeline to an attempt. */
  lemma OnePipeline(router: ShardRouter, commands: seq<Command>, log: seq<Sent>, p: nat, q: nat, i: nat, j: nat)
    requires OneNode(router) && router.History(commands, 0, 0, log) && InTurn(commands, log) && p < q < |log|
    requires i in log[p].idxs && j in log[q].idxs
    ensures log[p].attempt < log[q].attempt
  {
    assert router.StepOk(commands, 0, 0, log, p) && router.StepOk(commands, 0, 0, log, q);
    NeverSentOn(router, commands, log, p, i);
    NeverSentOn(router, commands, log, q, j);
    assert Sooner(log[p], log[q]);
  }

  lemma NotStranded(router: ShardRouter, commands: seq<Command>, log: seq<Sent>, i: nat)
    requires OneNode(router) && router.History(commands, 0, 0, log) && i < |commands|
    ensures !router.Stranded(commands, 0, 0, log, i)
  {
    forall n: nat, a: nat
      ensures !router.NoNode(commands, 0, 0, log, i, n, a)
    {
      if n <= |log| {
        NeverSentOn(router, commands, log, n, i);
      }
    }
  }

  lemma {:induction false} LastResultFrom(commands: seq<Command>, log: seq<Sent>, i: nat) returns (p: nat)
    requires i < |commands| && LastResult(commands, log, i).Some?
    ensures p < |log| && i in log[p].idxs && LastResult(commands, log, i) == Some(Brought(commands, log[p], i).0)
  {
    p := |log| - 1;
    if i !in log[p].idxs {
      p := LastResultFrom(commands, log[..p], i);
    }
  }

  /** What the pipelines of this cluster bring. */
  lemma BroughtThere(router: ShardRouter, commands: seq<Command>, log: seq<Sent>, p: nat, i: nat)
    requires OneNode(router) && router.History(commands, 0, 0, log) && p < |log| && i in log[p].idxs
    requires i < |commands|
    ensures var away := p == 0 && At(log[p].idxs, i) == 0;
      && Brought(commands, log[p], i) == (Res(commands[i].id, if away then TryAgain else Value), away)
      && (RanIn(log[p], i) <==> !away)
  {
    assert router.StepOk(commands, 0, 0, log, p);
    var j := At(log[p].idxs, i);
    assert log[p].outcome == TurnsFirstAway(p, Select(commands, log[p].idxs));
  }

  lemma TwoAscending(idxs: seq<nat>)
    requires Ascending(idxs) && 0 in idxs && 1 in idxs && forall k :: 0 <= k < |idxs| ==> idxs[k] < 2
    ensures idxs == [0, 1]
  {
    var a :| 0 <= a < |idxs| && idxs[a] == 0;
    var b :| 0 <= b < |idxs| && idxs[b] == 1;
    assert a == 0 && b > 0;
    if b > 1 || |idxs| > 2 {
      var c := if b > 1 then 1 else 2;
      assert false;
    }
  }

  lemma FirstIsFirst(router: ShardRouter, commands: seq<Command>, log: seq<Sent>, p: nat, i: nat)
    requires OneNode(router) && router.History(commands, 0, 0, log) && InTurn(commands, log)
    requires p < |log| && log[p].attempt == 0 && i in log[p].idxs
    ensures p == 0
  {
    if p > 0 {
      OnePipeline(router, commands, log, 0, p, log[0].idxs[0], i);
    }
  }

  lemma FirstPipeline(router: ShardRouter, commands: seq<Command>, log: seq<Sent>)
    requires OneNode(router) && router.History(commands, 0, 0, log) && InTurn(commands, log) && |commands| == 2
    requires SentFirst(log, 0) && SentFirst(log, 1)
    ensures |log| > 0 && log[0].attempt == 0 && log[0].idxs == [0, 1]
  {
    var p :| 0 <= p < |log| && log[p].attempt == 0 && 0 in log[p].idxs;
    var q :| 0 <= q < |log| && log[q].attempt == 0 && 1 in log[q].idxs;
    FirstIsFirst(router, commands, log, p, 0);
    FirstIsFirst(router, commands, log, q, 1);
    assert router.StepOk(commands, 0, 0, log, 0);
    TwoAscending(log[0].idxs);
  }

  /** The first command is not answered by the first pipeline for good. */
  lemma FirstRunsLater(router: ShardRouter, commands: seq<Command>, log: seq<Sent>, results: seq<Res>) returns (p: nat)
    requires OneNode(router) && router.History(commands, 0, 0, log) && InTurn(commands, log) && router.retries > 0
    requires |log| > 0 && log[0].attempt == 0 && log[0].idxs == [0, 1] && |commands| == 2 == |results|
    requires router.ResultOk(commands, results, log, 0) && router.ResultFrom(commands, 0, 0, results, log, 0)
    ensures 0 < p < |log| && RanIn(log[p], 0) && results[0].kind.Value?
  {
    NotStranded(router, commands, log, 0);
    p := LastResultFrom(commands, log, 0);
    BroughtThere(router, commands, log, p, 0);
    if LastAgain(commands, log, router.retries, 0) {
      var r :| 0 <= r < |log| && log[r].attempt == router.retries && Again(commands, log[r], 0);
      BroughtThere(router, commands, log, r, 0);
    }
    assert [0, 1][0] == 0;
  }

  lemma Inverted(router: ShardRouter, commands: seq<Command>, log: seq<Sent>, results: seq<Res>) returns (p: nat)
    requires OneNode(router) && router.History(commands, 0, 0, log) && InTurn(commands, log) && router.retries > 0
    requires |commands| == 2 == |results| && SentFirst(log, 0) && SentFirst(log, 1)
    requires router.ResultOk(commands, results, log, 0)
    requires forall i :: 0 <= i < |commands| ==> router.ResultFrom(commands, 0, 0, results, log, i)
    ensures 0 < p < |log| && RanIn(log[p], 0) && RanIn(log[0], 1)
    ensures results[0].kind.Value? && results[1].kind.Value?
  {
    FirstPipeline(router, commands, log);
    BroughtThere(router, commands, log, 0, 1);
    assert [0, 1][1] == 1;
    assert router.ResultFrom(commands, 0, 0, results, log, 0) && router.ResultFrom(commands, 0, 0, results, log, 1);
    p := FirstRunsLater(router, commands, log, results);
    NotStranded(router, commands, log, 1);
    var q := LastResultFrom(commands, log, 1);
    BroughtThere(router, commands, log, q, 1);
  }

  /**
   Two writes to one key in one pipeline, the first of which is turned away: it is sent again and both
   succeed, the second before the first.
   */
  method SecondRunsFirst(a: nat, b: nat, retries: nat)
    returns (results: Option<seq<Res>>, ghost log: seq<Sent>, ghost p: nat)
    requires retries > 0
    ensures results.Some? && |results.value| == 2 && results.value[0].kind.Value? && results.value[1].kind.Value?
    ensures 0 < p < |log| && RanIn(log[0], 1) && RanIn(log[p], 0)
  {
    var router := new ShardRouter(retries, (t: nat, c: Command) => Some(0), (t: nat, s: Shard) => Some(0),
                                  TurnsFirstAway);
    var commands := [Command(a, true, false), Command(b, true, false)];
    OneNodeFair(router);
    results, log := router.SendWithRetries(commands, 0);
    p := Inverted(router, commands, log, results.value);
  }
}
