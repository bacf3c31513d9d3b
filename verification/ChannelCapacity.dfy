/** One device's bounded channel while its initial sync runs: the sync looks its
    sender up in the subscriber table before each send, a broadcast keeps the
    table locked while it sends, and nothing is received before the sync is over,
    because only then is the response stream handed out. */
module ChannelCapacity {
  import opened Notifications

  datatype Sync =
    | Looking      // about to look its sender up, or done
    | LookedUp     // about to send
    | Over         // the response stream is handed out

  /** The subscriber table: free, or locked by a broadcast that is about to send
      into this channel, or has. */
  datatype Table = Free | Sending | Sent

  /** `left`: files the sync has yet to send; `broadcasts`: updates broadcast into
      the channel so far. */
  datatype State = State(queue: nat, left: nat, broadcasts: nat, sync: Sync, table: Table)

  datatype Step = Lookup | Send | Finish | BroadcastBegins | BroadcastSends | BroadcastEnds | Receive

  function Start(files: nat): State {
    State(0, files, 0, Looking, Free)
  }

  predicate Enabled(s: State, step: Step) {
    match step
    case Lookup => s.sync.Looking? && s.left > 0 && s.table.Free?
    case Send => s.sync.LookedUp? && s.left > 0 && s.queue < CAPACITY
    case Finish => s.sync.Looking? && s.left == 0
    case BroadcastBegins => s.table.Free?
    case BroadcastSends => s.table.Sending? && s.queue < CAPACITY
    case BroadcastEnds => s.table.Sent?
    case Receive => s.sync.Over? && s.queue > 0
  }

  function Next(s: State, step: Step): State {
    if !Enabled(s, step) then s
    else
      match step
      case Lookup => s.(sync := LookedUp)
      case Send => s.(queue := s.queue + 1, left := s.left - 1, sync := Looking)
      case Finish => s.(sync := Over)
      case BroadcastBegins => s.(table := Sending)
      case BroadcastSends => s.(queue := s.queue + 1, broadcasts := s.broadcasts + 1, table := Sent)
      case BroadcastEnds => s.(table := Free)
      case Receive => s.(queue := s.queue - 1)
  }

  function Run(s: State, steps: seq<Step>): State
    decreases |steps|
  {
    if steps == [] then s else Run(Next(s, steps[0]), steps[1..])
  }

  // ------------------------------------------------------ what every run keeps

  /** Until the sync is over nothing leaves the channel. */
  predicate Valid(s: State, files: nat) {
    && s.queue <= CAPACITY
    && (s.sync.LookedUp? ==> s.left > 0)
    && (!s.sync.Over? ==> s.queue + s.left == s.broadcasts + files)
  }

  lemma {:induction false} ValidRun(s: State, files: nat, steps: seq<Step>)
    requires Valid(s, files)
    ensures Valid(Run(s, steps), files)
    decreases |steps|
  {
    if steps != [] {
      ValidRun(Next(s, steps[0]), files, steps[1..]);
    }
  }

  // ------------------------------------------------------- when the sync can end

  /** A broadcast that holds the table has to get its update in before the sync
      can look its sender up again. */
  function Debt(s: State): nat {
    if s.table.Sending? && s.left > (if s.sync.LookedUp? then 1 else 0) then 1 else 0
  }

  /** All that has to go into the channel before the sync is over fits. */
  predicate Fits(s: State) {
    s.sync.Over? || s.queue + s.left + Debt(s) <= CAPACITY
  }

  predicate Ends(s: State, steps: seq<Step>) {
    Run(s, steps).sync.Over?
  }

  lemma {:induction false} DoomedForEver(s: State, files: nat, steps: seq<Step>)
    requires Valid(s, files) && !Fits(s)
    ensures !Fits(Run(s, steps)) && !Ends(s, steps)
    decreases |steps|
  {
    if steps != [] {
      assert Valid(Next(s, steps[0]), files) && !Fits(Next(s, steps[0]));
      DoomedForEver(Next(s, steps[0]), files, steps[1..]);
    }
  }

  /** How the sync ends if it is given every turn it can use. */
  lemma {:induction false} FittingEnds(s: State, files: nat) returns (steps: seq<Step>)
    requires Valid(s, files) && Fits(s)
    ensures Ends(s, steps)
    decreases s.left, if s.sync.LookedUp? then 0 else 1, if s.table.Sending? then 2 else if s.table.Sent? then 1 else 0
  {
    if s.sync.Over? {
      steps := [];
    } else {
      var step :=
        if s.sync.LookedUp? && Debt(s) == 0 then Send
        else if s.left == 0 then Finish
        else if s.table.Sending? then BroadcastSends
        else if s.table.Sent? then BroadcastEnds
        else Lookup;
      if step == Finish {
        steps := [Finish];
        assert Run(Next(s, Finish), []) == Next(s, Finish);
      } else {
        var rest := FittingEnds(Next(s, step), files);
        steps := [step] + rest;
        assert steps[1..] == rest;
      }
    }
  }

  /** At any moment of any run, whatever was broadcast meanwhile: the initial sync
      can still end exactly if its files, the updates broadcast into its channel
      so far, and one more if a broadcast stands in its way, fit the channel. */
  lemma SyncEndsIff(files: nat, steps: seq<Step>)
    requires !Run(Start(files), steps).sync.Over?
    ensures var s := Run(Start(files), steps);
      (exists more :: Ends(s, more)) <==> s.broadcasts + files + Debt(s) <= 1024
  {
    var s := Run(Start(files), steps);
    ValidRun(Start(files), files, steps);
    if Fits(s) {
      var more := FittingEnds(s, files);
    } else {
      forall more
        ensures !Ends(s, more)
      {
        DoomedForEver(s, files, more);
      }
    }
  }

  // -------------------------------------------------------------- the deadlock

  /** A broadcast waits on the full channel with the table locked, and the sync,
      which has files left, waits for the table or for the channel. */
  predicate Deadlocked(s: State) {
    !s.sync.Over? && s.left > 0 && s.queue == CAPACITY && s.table.Sending?
  }

  predicate Locks(s: State, steps: seq<Step>) {
    Deadlocked(Run(s, steps))
  }

  lemma {:induction false} DeadlockForEver(s: State, steps: seq<Step>)
    requires Deadlocked(s)
    ensures Run(s, steps) == s
    decreases |steps|
  {
    if steps != [] {
      DeadlockForEver(s, steps[1..]);
    }
  }

  /** Updates keep coming, and the sync gets no turn. */
  lemma {:induction false} FillsUp(s: State, files: nat) returns (steps: seq<Step>)
    requires Valid(s, files) && !s.sync.Over? && s.left > 0
    ensures Locks(s, steps)
    decreases CAPACITY - s.queue, if s.table.Sent? then 2 else if s.table.Free? then 1 else 0
  {
    if Deadlocked(s) {
      steps := [];
    } else {
      var step := if s.table.Sending? then BroadcastSends else if s.table.Sent? then BroadcastEnds else BroadcastBegins;
      var rest := FillsUp(Next(s, step), files);
      steps := [step] + rest;
      assert steps[1..] == rest;
    }
  }

  lemma {:induction false} NothingLeftNoDeadlock(s: State, steps: seq<Step>)
    requires s.left == 0
    ensures !Locks(s, steps)
    decreases |steps|
  {
    if steps != [] {
      NothingLeftNoDeadlock(Next(s, steps[0]), steps[1..]);
    }
  }

  /** At any moment of any run, the sync and a broadcast can still come to wait for
      each other for ever, exactly while the sync has a file left to send. */
  lemma DeadlockReachableIff(files: nat, steps: seq<Step>)
    requires !Run(Start(files), steps).sync.Over?
    ensures var s := Run(Start(files), steps);
      (exists more :: Locks(s, more)) <==> s.left > 0
  {
    var s := Run(Start(files), steps);
    ValidRun(Start(files), files, steps);
    if s.left > 0 {
      var more := FillsUp(s, files);
    } else {
      forall more
        ensures !Locks(s, more)
      {
        NothingLeftNoDeadlock(s, more);
      }
    }
  }

  /** As long as the files and all updates broadcast so far, or about to be, fit
      the channel together, no send has to wait. */
  lemma NothingWaits(files: nat, steps: seq<Step>)
    requires var s := Run(Start(files), steps);
      !s.sync.Over? && s.broadcasts + (if s.table.Sending? then 1 else 0) + files <= 1024
    ensures var s := Run(Start(files), steps);
      (s.sync.LookedUp? ==> Enabled(s, Send)) && (s.table.Sending? ==> Enabled(s, BroadcastSends))
  {
    ValidRun(Start(files), files, steps);
  }
}
