/**
 One AOF commit for every connection served in an event-loop iteration: which replies are released,
 and whether what they acknowledge has been committed.
 */
module GroupCommit {
  import opened Wrappers

  datatype Future = Pending | Done | Failed

  datatype Stage = Waiting | Released | Dropped

  /** A connection's batch: the commit it waits for, and the stretch of the log its commands wrote. */
  datatype Batch = Batch(future: nat, start: nat, end: nat, stage: Stage)
  {
    predicate Covered(durable: nat) {
      start == end || end <= durable
    }
  }

  /** A command and, for each effect it logs, whether the write to the file's buffer succeeds. */
  datatype Command = Command(isWrite: bool, appends: seq<bool>)

  /** How a commit that reaches the file ends, and how much a failing one still writes out. */
  datatype Outcome = Succeeds | Fails(written: nat)

  datatype Event =
    | Batches(commands: seq<Command>)
    | Elsewhere(command: Command, outcome: Outcome)
    | Flushes(outcome: Outcome)
    | Resumes(batch: nat)
    | FsyncFails

  /** How many effects are logged before the first append that fails. */
  function Leading(appends: seq<bool>, n: nat): nat
    requires n <= |appends|
  {
    if n == 0 then 0
    else if Leading(appends, n - 1) == n - 1 && appends[n - 1] then n
    else Leading(appends, n - 1)
  }

  lemma {:induction false} LeadingBound(appends: seq<bool>, n: nat)
    requires n <= |appends|
    ensures Leading(appends, n) <= n
  {
    if n > 0 {
      LeadingBound(appends, n - 1);
    }
  }

  lemma {:induction false} LeadingStops(appends: seq<bool>, n: nat)
    requires n <= |appends| && Leading(appends, n) < n
    ensures Leading(appends, |appends|) == Leading(appends, n)
    decreases |appends| - n
  {
    if n < |appends| {
      LeadingBound(appends, n);
      LeadingStops(appends, n + 1);
    }
  }

  /** What a command logs on a healthy log. */
  function LoggedBy(command: Command): nat {
    Leading(command.appends, |command.appends|)
  }

  predicate Breaks(command: Command) {
    LoggedBy(command) < |command.appends|
  }

  /** What the first n commands log, and whether one of them has broken the log. */
  function Tally(commands: seq<Command>, n: nat): (nat, bool)
    requires n <= |commands|
  {
    if n == 0 then (0, false)
    else
      var (k, broken) := Tally(commands, n - 1);
      if broken then (k, true) else (k + LoggedBy(commands[n - 1]), Breaks(commands[n - 1]))
  }

  /** The batch's stage agrees with its commit, and a commit that succeeded covers what it wrote. */
  ghost predicate BatchOk(b: Batch, futures: seq<Future>, broke: seq<bool>, error: bool, logged: nat, durable: nat) {
    && b.start <= b.end <= logged && b.future < |futures| == |broke|
    && match futures[b.future]
       case Pending => b.stage.Waiting? && (error && !broke[b.future] ==> b.start == b.end)
       case Done => !b.stage.Dropped? && (b.Covered(durable) || broke[b.future])
       case Failed => !b.stage.Released?
  }

  ghost predicate AllOk(batches: seq<Batch>, futures: seq<Future>, broke: seq<bool>, error: bool, logged: nat,
                        durable: nat)
  {
    forall i :: 0 <= i < |batches| ==> BatchOk(batches[i], futures, broke, error, logged, durable)
  }

  /** The log, its errors, the commit that is being waited for, and every commit and batch so far. */
  datatype View = View(logged: nat, durable: nat, writeError: bool, backgroundError: bool, waiter: Option<nat>,
                       futures: seq<Future>, batches: seq<Batch>)

  /** What an event makes of a view. */
  ghost predicate Becomes(e: Event, a: View, b: View) {
    match e
    case Batches(commands) =>
      && b.waiter == Some(if a.waiter.Some? then a.waiter.value else |a.futures|) && b.durable == a.durable
      && b.batches == a.batches + [Batch(b.waiter.value, a.logged, b.logged, Waiting)]
      && if a.writeError then b.logged == a.logged
        else Tally(commands, |commands|) == (b.logged - a.logged, b.writeError)
    case Elsewhere(command, _) =>
      && b.waiter == a.waiter && b.futures == a.futures && b.batches == a.batches
      && if a.writeError then b.logged == a.logged else b.logged == a.logged + LoggedBy(command)
    case Flushes(_) => if a.waiter.None? then b == a else Committed(a, b)
    case Resumes(i) => b == if Decided(a, i) then Resumed(a, i) else a
    case FsyncFails => b == a.(backgroundError := true)
  }

  /** The pending commit succeeds or fails; after a write error it succeeds without writing anything. */
  ghost predicate Committed(a: View, b: View) {
    && a.waiter.Some? && a.waiter.value < |a.futures| && b.waiter.None? && b.logged == a.logged &&
      b.batches == a.batches
    && (b.futures == a.futures[a.waiter.value := Done] ||
        (b.futures == a.futures[a.waiter.value := Failed] && !a.writeError))
    && (a.writeError ==> b.durable == a.durable)
    && (!a.writeError && b.futures[a.waiter.value].Done? ==> b.durable == b.logged)
  }

  predicate Decided(v: View, i: nat) {
    && i < |v.batches| && v.batches[i].stage.Waiting? && v.batches[i].future < |v.futures|
    && !v.futures[v.batches[i].future].Pending?
  }

  /** The batch is answered, or dropped if its commit failed. */
  function Resumed(v: View, i: nat): View
    requires Decided(v, i)
  {
    var b := v.batches[i];
    v.(batches := v.batches[i := b.(stage := if v.futures[b.future].Done? then Released else Dropped)])
  }

  class Shard {
    // The log: effects appended, those a commit or a full buffer has written out, and the writer's errors.
    var logged: nat
    var durable: nat
    var writeError: bool
    var backgroundError: bool
    // The engine's holds, and the group commit.
    var depth: nat
    var waiter: Option<nat>
    var joined: nat
    var commits: nat
    var observed: nat
    var futures: seq<Future>
    var batches: seq<Batch>
    /** Per commit: an append failed while batches were waiting for it. */
    ghost var broke: seq<bool>

    ghost predicate Valid()
      reads this
    {
      && durable <= logged && |broke| == |futures| && observed + joined == |batches|
      && depth == (if waiter.Some? then 1 else 0)
      && (waiter.Some? ==> waiter.value == |futures| - 1 && futures[waiter.value].Pending?)
      && (forall f :: 0 <= f < |futures| && futures[f].Pending? ==> waiter == Some(f))
      && AllOk(batches, futures, broke, writeError, logged, durable)
    }

    /** Decided commits and answered batches stay as they are. */
    twostate predicate Settled()
      reads this
    {
      && |old(futures)| <= |futures| && |old(batches)| <= |batches|
      && (forall f :: 0 <= f < |old(futures)| && !old(futures)[f].Pending? ==> futures[f] == old(futures)[f])
      && (forall i :: 0 <= i < |old(batches)| ==>
            batches[i] == if old(batches)[i].stage.Waiting? then old(batches)[i].(stage := batches[i].stage)
              else old(batches)[i])
      && old(durable) <= durable && old(logged) <= logged && (old(writeError) ==> writeError)
    }

    ghost function Seen(): View
      reads this
    {
      View(logged, durable, writeError, backgroundError, waiter, futures, batches)
    }

    constructor ()
      ensures Valid() && batches == [] && waiter.None? && !writeError && logged == 0
    {
      logged, durable, writeError, backgroundError, depth := 0, 0, false, false, 0;
      waiter, joined, commits, observed, futures, batches, broke := None, 0, 0, 0, [], [], [];
    }

    // ------------------------------------------------------------ the log
    /** What running commands may do while others wait: log, or break the pending commit. */
    twostate predicate Ran()
      reads this
    {
      && Settled() && waiter == old(waiter) && |broke| == |old(broke)|
      && (forall f :: 0 <= f < |broke| && old(broke)[f] ==> broke[f])
      && (old(writeError) ==> logged == old(logged))
      && (writeError && !old(writeError) && waiter.Some? && waiter.value < |broke| ==> broke[waiter.value])
    }

    /** Log one effect; after a write error nothing is logged any more. */
    method Append(succeeds: bool) returns (raised: bool)
      requires Valid()
      modifies `logged, `writeError, `broke
      ensures Valid() && Ran()
      ensures raised <==> !old(writeError) && !succeeds
      ensures logged == old(logged) + if !old(writeError) && succeeds then 1 else 0
      ensures writeError == (old(writeError) || raised)
    {
      if writeError {
        return false;
      }
      if succeeds {
        logged := logged + 1;
        return false;
      }
      writeError := true;
      if waiter.Some? {
        broke := broke[waiter.value := true];
      }
      return true;
    }

    /** Write out what is buffered; once a write has failed this does nothing, and reports nothing. */
    method WriteOut(outcome: Outcome) returns (raised: bool)
      requires durable <= logged
      modifies `durable, `writeError, `backgroundError
      ensures old(durable) <= durable <= logged
      ensures !raised ==>
        writeError == old(writeError) && (durable == logged <==> !writeError || old(durable) == logged)
      ensures raised ==> writeError
      ensures old(writeError) ==> !raised && durable == old(durable)
    {
      if writeError {
        return false;
      }
      if backgroundError {
        backgroundError, writeError := false, true;
        return true;
      }
      match outcome
      case Succeeds =>
        durable := logged;
        return false;
      case Fails(n) =>
        durable := if durable + n <= logged then durable + n else logged;
        writeError := true;
        return true;
    }

    /** Run a command's effects; the first append that fails ends it. */
    method Effects(appends: seq<bool>) returns (raised: bool)
      requires Valid()
      modifies `logged, `writeError, `broke
      ensures Valid() && Ran() && writeError == (old(writeError) || raised)
      ensures old(writeError) ==> !raised
      ensures !old(writeError) ==> logged == old(logged) + Leading(appends, |appends|)
      ensures !old(writeError) ==> (raised <==> Leading(appends, |appends|) < |appends|)
    {
      raised := false;
      var i := 0;
      while i < |appends| && !raised
        invariant 0 <= i <= |appends| && Valid() && Ran() && writeError == (old(writeError) || raised)
        invariant old(writeError) ==> !raised
        invariant !old(writeError) ==> logged == old(logged) + Leading(appends, i)
        invariant !old(writeError) ==> Leading(appends, i) == if raised then i - 1 else i
      {
        raised := Append(appends[i]);
        i := i + 1;
      }
      if Leading(appends, i) < i {
        LeadingStops(appends, i);
      }
    }

    /**
     Execute one command. Without a hold it commits before returning; under one it returns at once,
     so the caller may answer only after the commit that ends the hold.
     */
    method Execute(command: Command, outcome: Outcome) returns (raised: bool)
      requires Valid()
      modifies `logged, `durable, `writeError, `backgroundError, `broke
      ensures Valid() && Ran()
      ensures command.isWrite && old(writeError) ==> raised && logged == old(logged)
      ensures !old(writeError) ==> logged == old(logged) + LoggedBy(command)
      ensures !old(writeError) && (waiter.Some? || Breaks(command)) ==> (writeError <==> Breaks(command))
      ensures waiter.None? && !raised && !old(writeError) ==> durable == logged
      ensures waiter.Some? ==> durable == old(durable) && backgroundError == old(backgroundError)
    {
      if command.isWrite && writeError {
        return true;
      }
      raised := Effects(command.appends);
      if !raised && depth == 0 {
        raised := WriteOut(outcome);
      }
    }

    // ------------------------------------------------------- group commit
    /** Join the pending commit, or begin one and schedule its flush. */
    method Join() returns (batch: nat)
      requires Valid()
      modifies `depth, `waiter, `joined, `futures, `batches, `broke
      ensures Valid() && Settled() && waiter.Some? && batch == |old(batches)| == |batches| - 1
      ensures batches == old(batches) + [Batch(waiter.value, logged, logged, Waiting)]
      ensures old(waiter).Some? ==> waiter == old(waiter) && broke == old(broke)
      ensures old(waiter).None? ==> waiter == Some(|old(futures)|) && broke == old(broke) + [false]
    {
      if waiter.None? {
        depth := depth + 1;
        waiter, futures, broke := Some(|futures|), futures + [Pending], broke + [false];
      }
      joined := joined + 1;
      batch := |batches|;
      batches := batches + [Batch(waiter.value, logged, logged, Waiting)];
    }

    /** Join, then run every command without yielding; the connection now waits. */
    method Serve(commands: seq<Command>) returns (batch: nat)
      requires Valid()
      modifies this
      ensures Valid() && Settled() && waiter.Some? && durable == old(durable)
      ensures batch == |old(batches)| == |batches| - 1
      ensures batches == old(batches) + [Batch(waiter.value, old(logged), logged, Waiting)]
      ensures waiter == Some(if old(waiter).Some? then old(waiter).value else |old(futures)|)
      ensures old(writeError) ==> logged == old(logged)
      ensures !old(writeError) ==> Tally(commands, |commands|) == (logged - old(logged), writeError)
    {
      batch := Join();
      label Joined:
      var i := 0;
      while i < |commands|
        invariant Valid() && Ran@Joined() && Settled() && waiter.Some?
        invariant 0 <= i <= |commands| && batches == old@Joined(batches) && durable == old(durable)
        invariant !old(writeError) ==> Tally(commands, i) == (logged - old(logged), writeError)
      {
        var _ := Execute(commands[i], Succeeds);
        i := i + 1;
      }
      batches := batches[batch := batches[batch].(end := logged)];
    }

    /** End the hold: commit once for every batch that joined, and settle their future. */
    method Flush(outcome: Outcome) returns (raised: bool)
      requires Valid() && waiter.Some?
      modifies this
      ensures Valid() && Settled() && waiter.None? && batches == old(batches)
      ensures futures == old(futures)[old(waiter).value := if raised then Failed else Done]
      ensures logged == old(logged) && (old(writeError) ==> !raised && durable == old(durable))
      ensures !raised ==> (durable == logged <==> !old(writeError) || old(durable) == logged)
    {
      var w := waiter.value;
      waiter, commits, observed, joined := None, commits + 1, observed + joined, 0;
      depth := depth - 1;
      raised := false;
      if depth == 0 {
        raised := WriteOut(outcome);
      }
      futures := futures[w := if raised then Failed else Done];
    }

    /** A waiting connection whose commit is decided sends its replies or is dropped. */
    method Resume(batch: nat)
      requires Valid() && batch < |batches| && batches[batch].stage.Waiting? && !futures[batches[batch].future].Pending?
      modifies `batches
      ensures Valid() && Settled()
      ensures batches == old(batches)[batch := old(batches)[batch].(stage :=
                if futures[old(batches)[batch].future].Done? then Released else Dropped)]
    {
      var b := batches[batch];
      batches := batches[batch := b.(stage := if futures[b.future].Done? then Released else Dropped)];
    }

    method Handle(event: Event)
      requires Valid()
      modifies this
      ensures Valid() && Settled() && Becomes(event, old(Seen()), Seen())
    {
      match event {
        case Batches(commands) =>
          var _ := Serve(commands);
        case Elsewhere(command, outcome) =>
          var _ := Execute(command, outcome);
        case Flushes(outcome) =>
          if waiter.Some? {
            var _ := Flush(outcome);
          }
        case Resumes(i) =>
          if i < |batches| && batches[i].stage.Waiting? && !futures[batches[i].future].Pending? {
            Resume(i);
          }
        case FsyncFails =>
          backgroundError := true;
      }
    }

    /**
     Under every interleaving each event has its effect; replies that are out acknowledge only committed
     writes unless an append failed while they waited, and no batch whose commit failed is ever answered.
     */
    method Run(events: seq<Event>) returns (ghost trace: seq<View>)
      requires Valid()
      modifies this
      ensures Valid() && Settled() && |trace| == |events| + 1 && trace[0] == old(Seen()) && trace[|events|] == Seen()
      ensures forall i :: 0 <= i < |events| ==> Becomes(events[i], trace[i], trace[i + 1])
      ensures forall i :: 0 <= i < |batches| && batches[i].stage.Released? ==>
        futures[batches[i].future].Done? && (batches[i].Covered(durable) || broke[batches[i].future])
      ensures forall i :: 0 <= i < |batches| && futures[batches[i].future].Failed? ==> !batches[i].stage.Released?
    {
      trace := [Seen()];
      for i := 0 to |events|
        invariant Valid() && Settled() && |trace| == i + 1 && trace[0] == old(Seen()) && trace[i] == Seen()
        invariant forall j :: 0 <= j < i ==> Becomes(events[j], trace[j], trace[j + 1])
      {
        Handle(events[i]);
        trace := trace + [Seen()];
      }
      assert forall i :: 0 <= i < |batches| ==> BatchOk(batches[i], futures, broke, writeError, logged, durable);
    }
  }

  /**
   The exception is real: an effect is logged, another batch's append fails, and the commit then
   returns without writing or reporting anything, so the first batch is answered uncommitted.
   */
  method AnsweredUncommitted(shard: Shard) returns (batch: nat)
    requires shard.Valid() && shard.waiter.None? && !shard.writeError && shard.durable == shard.logged
    modifies shard
    ensures shard.Valid() && batch < |shard.batches| && shard.batches[batch].stage.Released?
    ensures !shard.batches[batch].Covered(shard.durable)
  {
    var logs, fails := Command(true, [true]), Command(true, [false]);
    assert LoggedBy(logs) == 1 && LoggedBy(fails) == 0;
    assert Tally([logs], 0) == (0, false) && Tally([fails], 0) == (0, false);
    batch := shard.Serve([logs]);
    var other := shard.Serve([fails]);
    var raised := shard.Flush(Succeeds);
    shard.Resume(batch);
  }
}
