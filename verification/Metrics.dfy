/** Request metrics: atomic counters that concurrent requests update one access
    at a time, and the percentile computed from them. */
module Metrics {

  const U64: nat := 0x1_0000_0000_0000_0000

  // ------------------------------------------------- every atomic access a step

  /** How far a request has got through `record_request_start` and
      `record_request_complete`. */
  datatype Phase =
    | NotStarted
    | Counted                 // total incremented
    | Active                  // active incremented: the start call is over
    | Left                    // active decremented
    | Tallied                 // success or failure counted
    | Timed                   // response time added
    | MaxRead(seen: nat)
    | MaxDone
    | MinRead(seen: nat)
    | Done

  datatype Request = Request(duration: nat, success: bool, phase: Phase)

  datatype State = State(
    requests: seq<Request>,
    total: int, successful: int, failed: int, active: int,
    responseTime: nat, max: nat, min: nat)

  function Init(requests: seq<Request>): State {
    State(requests, 0, 0, 0, 0, 0, 0, 0)
  }

  function At(s: State, i: nat, phase: Phase): State
    requires i < |s.requests|
  {
    s.(requests := s.requests[i := s.requests[i].(phase := phase)])
  }

  /** Request `i` performs its next access. */
  function Next(s: State, i: nat): State {
    if i >= |s.requests| then s
    else
      var q := s.requests[i];
      match q.phase
      case NotStarted => At(s, i, Counted).(total := s.total + 1)
      case Counted => At(s, i, Active).(active := s.active + 1)
      case Active => At(s, i, Left).(active := s.active - 1)
      case Left =>
        if q.success then At(s, i, Tallied).(successful := s.successful + 1)
        else At(s, i, Tallied).(failed := s.failed + 1)
      case Tallied => At(s, i, Timed).(responseTime := (s.responseTime + q.duration) % U64)
      case Timed => At(s, i, MaxRead(s.max))
      case MaxRead(seen) => At(s, i, MaxDone).(max := if q.duration > seen then q.duration else s.max)
      case MaxDone => At(s, i, MinRead(s.min))
      case MinRead(seen) => At(s, i, Done).(min := if seen == 0 || q.duration < seen then q.duration else s.min)
      case Done => s
  }

  /** A schedule says whose turn it is, access by access. */
  function Run(s: State, schedule: seq<nat>): State {
    if schedule == [] then s else Next(Run(s, schedule[..|schedule| - 1]), schedule[|schedule| - 1])
  }

  // -------------------------------------------------------------- conservation

  function Sum(requests: seq<Request>, weight: Request -> int): int {
    if requests == [] then 0 else Sum(requests[..|requests| - 1], weight) + weight(requests[|requests| - 1])
  }

  function Bit(b: bool): int {
    if b then 1 else 0
  }

  function Rank(p: Phase): nat {
    match p
    case NotStarted => 0
    case Counted => 1
    case Active => 2
    case Left => 3
    case Tallied => 4
    case Timed => 5
    case MaxRead(_) => 6
    case MaxDone => 7
    case MinRead(_) => 8
    case Done => 9
  }

  // What a request in a given phase has contributed to each counter.
  const TOTAL: Request -> int := (q: Request) => Bit(Rank(q.phase) >= 1)
  const ACTIVE: Request -> int := (q: Request) => Bit(q.phase == Active)
  const SUCCESSFUL: Request -> int := (q: Request) => Bit(Rank(q.phase) >= 4 && q.success)
  const FAILED: Request -> int := (q: Request) => Bit(Rank(q.phase) >= 4 && !q.success)
  const BETWEEN: Request -> int := (q: Request) => Bit(q.phase == Counted || q.phase == Left)
  const TIME: Request -> int := (q: Request) => if Rank(q.phase) >= 5 then q.duration else 0

  ghost predicate Accounted(s: State) {
    && s.total == Sum(s.requests, TOTAL)
    && s.active == Sum(s.requests, ACTIVE)
    && s.successful == Sum(s.requests, SUCCESSFUL)
    && s.failed == Sum(s.requests, FAILED)
    && s.responseTime == Sum(s.requests, TIME) % U64
  }

  lemma {:induction false} SumUpdate(requests: seq<Request>, i: nat, q: Request, weight: Request -> int)
    requires i < |requests|
    ensures Sum(requests[i := q], weight) == Sum(requests, weight) - weight(requests[i]) + weight(q)
  {
    var n := |requests| - 1;
    if i < n {
      SumUpdate(requests[..n], i, q, weight);
      assert requests[i := q][..n] == requests[..n][i := q];
    } else {
      assert requests[i := q][..n] == requests[..n];
    }
  }

  /** A step changes one request, so each sum changes by that request's weight. */
  lemma SumStep(s: State, i: nat, weight: Request -> int)
    requires i < |s.requests|
    ensures Next(s, i).requests == s.requests[i := Next(s, i).requests[i]]
    ensures Sum(Next(s, i).requests, weight)
         == Sum(s.requests, weight) - weight(s.requests[i]) + weight(Next(s, i).requests[i])
  {
    assert s.requests == s.requests[i := s.requests[i]];
    SumUpdate(s.requests, i, Next(s, i).requests[i], weight);
  }

  lemma TotalAndActiveKept(s: State, i: nat)
    requires i < |s.requests| && s.total == Sum(s.requests, TOTAL) && s.active == Sum(s.requests, ACTIVE)
    ensures var t := Next(s, i); t.total == Sum(t.requests, TOTAL) && t.active == Sum(t.requests, ACTIVE)
  {
    SumStep(s, i, TOTAL);
    SumStep(s, i, ACTIVE);
  }

  lemma SuccessfulKept(s: State, i: nat)
    requires i < |s.requests| && s.successful == Sum(s.requests, SUCCESSFUL)
    ensures Next(s, i).successful == Sum(Next(s, i).requests, SUCCESSFUL)
  {
    SumStep(s, i, SUCCESSFUL);
  }

  lemma FailedKept(s: State, i: nat)
    requires i < |s.requests| && s.failed == Sum(s.requests, FAILED)
    ensures Next(s, i).failed == Sum(Next(s, i).requests, FAILED)
  {
    SumStep(s, i, FAILED);
  }

  lemma TimeKept(s: State, i: nat)
    requires i < |s.requests| && s.responseTime == Sum(s.requests, TIME) % U64
    ensures var t := Next(s, i); t.responseTime == Sum(t.requests, TIME) % U64
  {
    SumStep(s, i, TIME);
    if s.requests[i].phase == Tallied {
      ModAdd(Sum(s.requests, TIME), s.requests[i].duration);
    }
  }

  lemma ModAdd(a: int, d: nat)
    ensures (a % U64 + d) % U64 == (a + d) % U64
  {
  }

  lemma AccountedKept(s: State, i: nat)
    requires Accounted(s)
    ensures Accounted(Next(s, i))
  {
    if i < |s.requests| {
      TotalAndActiveKept(s, i);
      SuccessfulKept(s, i);
      FailedKept(s, i);
      TimeKept(s, i);
    }
  }

  lemma {:induction false} SumBalances(requests: seq<Request>)
    ensures Sum(requests, TOTAL)
         == Sum(requests, ACTIVE) + Sum(requests, SUCCESSFUL) + Sum(requests, FAILED) + Sum(requests, BETWEEN)
    ensures Sum(requests, ACTIVE) >= 0 && Sum(requests, BETWEEN) >= 0
  {
    if requests != [] {
      SumBalances(requests[..|requests| - 1]);
    }
  }

  lemma {:induction false} SumAtRest(requests: seq<Request>)
    requires forall q :: q in requests ==> q.phase == NotStarted || q.phase == Done
    ensures Sum(requests, ACTIVE) == 0 && Sum(requests, BETWEEN) == 0
  {
    if requests != [] {
      SumAtRest(requests[..|requests| - 1]);
    }
  }

  lemma {:induction false} SumFresh(requests: seq<Request>)
    requires forall q :: q in requests ==> q.phase == NotStarted
    ensures Accounted(Init(requests))
  {
    if requests != [] {
      SumFresh(requests[..|requests| - 1]);
    }
  }

  lemma {:induction false} AccountedRun(requests: seq<Request>, schedule: seq<nat>)
    requires forall q :: q in requests ==> q.phase == NotStarted
    ensures Accounted(Run(Init(requests), schedule))
  {
    if schedule == [] {
      SumFresh(requests);
    } else {
      AccountedRun(requests, schedule[..|schedule| - 1]);
      AccountedKept(Run(Init(requests), schedule[..|schedule| - 1]), schedule[|schedule| - 1]);
    }
  }

  /** Conservation, in every interleaving: each counted request is active,
      finished, or caught between two paired updates; the active count never
      goes below zero; and at rest the response time is the sum of durations. */
  lemma Conservation(requests: seq<Request>, schedule: seq<nat>)
    requires forall q :: q in requests ==> q.phase == NotStarted
    ensures var s := Run(Init(requests), schedule);
      && s.total == s.active + s.successful + s.failed + Sum(s.requests, BETWEEN)
      && 0 <= s.active <= s.total
      && s.responseTime == Sum(s.requests, TIME) % U64
      && ((forall q :: q in s.requests ==> q.phase == NotStarted || q.phase == Done) ==>
            s.active == 0 && s.total == s.successful + s.failed)
  {
    AccountedRun(requests, schedule);
    var s := Run(Init(requests), schedule);
    SumBalances(s.requests);
    SumNotNegative(s.requests);
    if forall q :: q in s.requests ==> q.phase == NotStarted || q.phase == Done {
      SumAtRest(s.requests);
    }
  }

  lemma {:induction false} SumNotNegative(requests: seq<Request>)
    ensures Sum(requests, SUCCESSFUL) >= 0 && Sum(requests, FAILED) >= 0
  {
    if requests != [] {
      SumNotNegative(requests[..|requests| - 1]);
    }
  }

  // ------------------------------------------------------- extremes under races

  /** Some request that got far enough took this long. */
  predicate Recorded(s: State, duration: nat, rank: nat) {
    exists i :: 0 <= i < |s.requests| && s.requests[i].duration == duration && Rank(s.requests[i].phase) >= rank
  }

  /** Each extreme is zero or the duration of a request that has stored it. */
  predicate ExtremesRecorded(s: State) {
    (s.max == 0 || Recorded(s, s.max, 7)) && (s.min == 0 || Recorded(s, s.min, 9))
  }

  lemma RecordedKept(s: State, i: nat, duration: nat, rank: nat)
    requires Recorded(s, duration, rank)
    ensures Recorded(Next(s, i), duration, rank)
  {
    var j :| 0 <= j < |s.requests| && s.requests[j].duration == duration && Rank(s.requests[j].phase) >= rank;
    var t := Next(s, i);
    assert t.requests[j].duration == duration && Rank(t.requests[j].phase) >= rank;
  }

  lemma ExtremesKept(s: State, i: nat)
    requires ExtremesRecorded(s)
    ensures ExtremesRecorded(Next(s, i))
  {
    if s.max != 0 {
      RecordedKept(s, i, s.max, 7);
    }
    if s.min != 0 {
      RecordedKept(s, i, s.min, 9);
    }
    if i < |s.requests| {
      assert Next(s, i).requests[i].duration == s.requests[i].duration;
    }
  }

  lemma {:induction false} ExtremesRun(requests: seq<Request>, schedule: seq<nat>)
    ensures ExtremesRecorded(Run(Init(requests), schedule))
  {
    if schedule != [] {
      ExtremesRun(requests, schedule[..|schedule| - 1]);
      ExtremesKept(Run(Init(requests), schedule[..|schedule| - 1]), schedule[|schedule| - 1]);
    }
  }

  /** The accesses between reading the maximum and storing the minimum. */
  predicate Updating(p: Phase) {
    p.MaxRead? || p.MaxDone? || p.MinRead?
  }

  predicate Exclusive(s: State) {
    forall i, j :: 0 <= i < j < |s.requests| ==> !(Updating(s.requests[i].phase) && Updating(s.requests[j].phase))
  }

  /** What a request in the middle of its update has seen is still so. */
  predicate Current(s: State, q: Request) {
    match q.phase
    case MaxRead(seen) => seen == s.max
    case MaxDone => q.duration <= s.max
    case MinRead(seen) => seen == s.min && q.duration <= s.max
    case _ => true
  }

  predicate Ordered(s: State) {
    s.min <= s.max && forall i :: 0 <= i < |s.requests| ==> Current(s, s.requests[i])
  }

  lemma OrderedKept(s: State, i: nat)
    requires Ordered(s) && Exclusive(s)
    ensures Ordered(Next(s, i))
  {
    if i < |s.requests| {
      var t := Next(s, i);
      assert Current(s, s.requests[i]);
      forall j | 0 <= j < |t.requests|
        ensures Current(t, t.requests[j])
      {
        assert j != i ==> t.requests[j] == s.requests[j] && Current(s, s.requests[j]);
      }
    }
  }

  ghost predicate ExclusiveRun(s: State, schedule: seq<nat>) {
    forall n :: 0 <= n < |schedule| ==> Exclusive(Run(s, schedule[..n]))
  }

  /** In every interleaving in which no two requests update the extremes at the
      same time, the minimum is at most the maximum in every state. */
  lemma {:induction false} ExclusiveOrdered(requests: seq<Request>, schedule: seq<nat>)
    requires (forall q :: q in requests ==> q.phase == NotStarted) && ExclusiveRun(Init(requests), schedule)
    ensures Ordered(Run(Init(requests), schedule))
  {
    if schedule != [] {
      var before := schedule[..|schedule| - 1];
      assert forall n :: 0 <= n < |before| ==> before[..n] == schedule[..n];
      ExclusiveOrdered(requests, before);
      OrderedKept(Run(Init(requests), before), schedule[|schedule| - 1]);
    }
  }

  /** An access puts the minimum above the maximum exactly if it stores a
      duration as maximum that is below the minimum, or one as minimum that is
      above the maximum: both take a reading that is out of date. */
  predicate Inverts(s: State, q: Request) {
    match q.phase
    case MaxRead(seen) => seen < q.duration < s.min
    case MinRead(seen) => (seen == 0 || q.duration < seen) && s.max < q.duration
    case _ => false
  }

  lemma StepInvertsIff(s: State, i: nat)
    requires s.min <= s.max && i < |s.requests|
    ensures Next(s, i).max < Next(s, i).min <==> Inverts(s, s.requests[i])
    ensures Inverts(s, s.requests[i]) ==> !Current(s, s.requests[i])
  {
  }

  lemma {:induction false} RunSnoc(s: State, schedule: seq<nat>, i: nat)
    ensures Run(s, schedule + [i]) == Next(Run(s, schedule), i)
  {
    assert (schedule + [i])[..|schedule|] == schedule;
  }

  lemma {:induction false} Four(s: State, schedule: seq<nat>, i: nat, j: nat, k: nat, l: nat)
    ensures Run(s, schedule + [i] + [j] + [k] + [l]) == Next(Next(Next(Next(Run(s, schedule), i), j), k), l)
  {
    RunSnoc(s, schedule, i);
    RunSnoc(s, schedule + [i], j);
    RunSnoc(s, schedule + [i] + [j], k);
    RunSnoc(s, schedule + [i] + [j] + [k], l);
  }

  /** The part of a state the extremes depend on. */
  predicate Shows(s: State, requests: seq<Request>, max: nat, min: nat) {
    s.requests == requests && s.max == max && s.min == min
  }

  function WithPhase(requests: seq<Request>, i: nat, p: Phase): seq<Request>
    requires i < |requests|
  {
    requests[i := requests[i].(phase := p)]
  }

  lemma Starts(s: State, i: nat)
    requires i < |s.requests| && s.requests[i].phase == NotStarted
    ensures Shows(Next(Next(s, i), i), WithPhase(s.requests, i, Active), s.max, s.min)
  {
    assert Shows(Next(s, i), WithPhase(s.requests, i, Counted), s.max, s.min);
  }

  lemma Leaves(s: State, i: nat)
    requires i < |s.requests| && s.requests[i].phase == Active
    ensures Shows(Next(Next(s, i), i), WithPhase(s.requests, i, Tallied), s.max, s.min)
  {
    assert Shows(Next(s, i), WithPhase(s.requests, i, Left), s.max, s.min);
  }

  lemma AddsTime(s: State, i: nat)
    requires i < |s.requests| && s.requests[i].phase == Tallied
    ensures Shows(Next(s, i), WithPhase(s.requests, i, Timed), s.max, s.min)
  {
  }

  function Approach(schedule: seq<nat>, i: nat): seq<nat> {
    schedule + [i] + [i] + [i] + [i] + [i]
  }

  lemma {:induction false} Five(s: State, schedule: seq<nat>, i: nat)
    ensures Run(s, Approach(schedule, i)) == Next(Next(Next(Next(Next(Run(s, schedule), i), i), i), i), i)
  {
    Four(s, schedule, i, i, i, i);
    RunSnoc(s, schedule + [i] + [i] + [i] + [i], i);
  }

  /** A request gets as far as recording its duration, untouched by others. */
  lemma {:induction false} Approaches(s: State, schedule: seq<nat>, i: nat)
    requires var t := Run(s, schedule); i < |t.requests| && t.requests[i].phase == NotStarted
    ensures var t := Run(s, schedule);
      Shows(Run(s, Approach(schedule, i)), WithPhase(t.requests, i, Timed), t.max, t.min)
  {
    var t := Run(s, schedule);
    Five(s, schedule, i);
    Starts(t, i);
    var t2 := Next(Next(t, i), i);
    Leaves(t2, i);
    AddsTime(Next(Next(t2, i), i), i);
  }

  lemma ReadsMax(s: State, i: nat)
    requires i < |s.requests| && s.requests[i].phase == Timed
    ensures Shows(Next(s, i), WithPhase(s.requests, i, MaxRead(s.max)), s.max, s.min)
  {
  }

  lemma StoresMax(s: State, i: nat)
    requires i < |s.requests| && s.requests[i].phase.MaxRead? && s.requests[i].phase.seen < s.requests[i].duration
    ensures Shows(Next(s, i), WithPhase(s.requests, i, MaxDone), s.requests[i].duration, s.min)
  {
  }

  lemma ReadsMin(s: State, i: nat)
    requires i < |s.requests| && s.requests[i].phase == MaxDone
    ensures Shows(Next(s, i), WithPhase(s.requests, i, MinRead(s.min)), s.max, s.min)
  {
  }

  lemma StoresMin(s: State, i: nat)
    requires i < |s.requests| && s.requests[i].phase == MinRead(0)
    ensures Shows(Next(s, i), WithPhase(s.requests, i, Done), s.max, s.requests[i].duration)
  {
  }

  /** Both read the maximum before either stores it: the last to store wins. */
  lemma RacesMax(s: State, i: nat, j: nat)
    requires i < |s.requests| && j < |s.requests| && i != j
    requires s.requests[i].phase == Timed && s.requests[j].phase == Timed
    requires s.max < s.requests[i].duration && s.max < s.requests[j].duration
    ensures var t := Next(Next(Next(Next(s, i), j), j), i);
      && t.max == s.requests[i].duration && t.min == s.min && |t.requests| == |s.requests|
      && t.requests[i] == s.requests[i].(phase := MaxDone) && t.requests[j] == s.requests[j].(phase := MaxDone)
  {
    ReadsMax(s, i);
    ReadsMax(Next(s, i), j);
    var a := Next(Next(s, i), j);
    StoresMax(a, j);
    StoresMax(Next(a, j), i);
  }

  lemma RacesMin(s: State, i: nat, j: nat)
    requires i < |s.requests| && j < |s.requests| && i != j
    requires s.requests[i].phase == MaxDone && s.requests[j].phase == MaxDone && s.min == 0
    ensures var t := Next(Next(Next(Next(s, i), j), i), j); t.max == s.max && t.min == s.requests[j].duration
  {
    ReadsMin(s, i);
    ReadsMin(Next(s, i), j);
    var a := Next(Next(s, i), j);
    StoresMin(a, i);
    StoresMin(Next(a, i), j);
  }

  /** Both requests have come as far as recording their durations. */
  lemma {:induction false} BothApproach(a: Request, b: Request)
    requires a.phase == NotStarted && b.phase == NotStarted
    ensures Shows(Run(Init([a, b]), Approach(Approach([], 0), 1)), [a.(phase := Timed), b.(phase := Timed)], 0, 0)
  {
    var s := Init([a, b]);
    assert Run(s, []) == s;
    Approaches(s, [], 0);
    Approaches(s, Approach([], 0), 1);
  }

  /** The load-then-store updates race: for any two durations there is a schedule
      of two requests that leaves the smaller as maximum and the larger as
      minimum. */
  lemma RaceInvertsExtremes(a: Request, b: Request) returns (schedule: seq<nat>)
    requires a.phase == NotStarted && b.phase == NotStarted && 0 < a.duration < b.duration
    ensures var t := Run(Init([a, b]), schedule); t.max == a.duration < t.min == b.duration
  {
    var s, ready := Init([a, b]), Approach(Approach([], 0), 1);
    BothApproach(a, b);
    RacesMax(Run(s, ready), 0, 1);
    Four(s, ready, 0, 1, 1, 0);
    var half := ready + [0] + [1] + [1] + [0];
    RacesMin(Run(s, half), 0, 1);
    Four(s, half, 0, 1, 0, 1);
    schedule := half + [0] + [1] + [0] + [1];
  }

  // ----------------------------------------------------- one request at a time

  class PerformanceMonitor {
    var total: int
    var successful: int
    var failed: int
    var active: int
    var responseTime: nat
    var max: nat
    var min: nat
    ghost var durations: seq<nat>     // of the completed requests, in order

    /** The counters are what the completed requests make them. */
    ghost predicate Valid()
      reads this
    {
      && total == active + successful + failed
      && |durations| == successful + failed
      && max == MaxAfter(durations) && min == MinAfter(durations)
      && responseTime == Total(durations) % U64
    }

    constructor ()
      ensures Valid() && total == 0 && active == 0 && durations == []
    {
      total, successful, failed, active := 0, 0, 0, 0;
      responseTime, max, min, durations := 0, 0, 0, [];
    }

    method RecordRequestStart()
      requires Valid()
      modifies this
      ensures Valid() && active == old(active) + 1 && total == old(total) + 1 && durations == old(durations)
    {
      total := total + 1;
      active := active + 1;
    }

    method RecordRequestComplete(duration: nat, success: bool)
      requires Valid()
      modifies this
      ensures Valid() && active == old(active) - 1 && total == old(total) && durations == old(durations) + [duration]
      ensures successful == old(successful) + Bit(success)
    {
      Appended(durations, duration);
      active := active - 1;
      if success {
        successful := successful + 1;
      } else {
        failed := failed + 1;
      }
      responseTime := (responseTime + duration) % U64;
      if duration > max {
        max := duration;
      }
      if min == 0 || duration < min {
        min := duration;
      }
      durations := durations + [duration];
    }

    method CalculatePercentile() returns (p: nat)
      requires Valid() && forall d :: d in durations ==> d < U64
      ensures MinAfter(durations) <= p <= MaxAfter(durations)
      ensures p == Percentile(MinAfter(durations), MaxAfter(durations))
    {
      ExtremesOrdered(durations);
      MaxIsMember(durations);
      PercentileInRange(min, max);
      p := Percentile(min, max);
    }
  }

  function Total(ds: seq<nat>): nat {
    if ds == [] then 0 else Total(ds[..|ds| - 1]) + ds[|ds| - 1]
  }

  function MaxAfter(ds: seq<nat>): nat {
    if ds == [] then 0
    else
      var m := MaxAfter(ds[..|ds| - 1]);
      if ds[|ds| - 1] > m then ds[|ds| - 1] else m
  }

  function MinAfter(ds: seq<nat>): nat {
    if ds == [] then 0
    else
      var m := MinAfter(ds[..|ds| - 1]);
      if m == 0 || ds[|ds| - 1] < m then ds[|ds| - 1] else m
  }

  lemma Appended(ds: seq<nat>, d: nat)
    ensures MaxAfter(ds + [d]) == if d > MaxAfter(ds) then d else MaxAfter(ds)
    ensures MinAfter(ds + [d]) == if MinAfter(ds) == 0 || d < MinAfter(ds) then d else MinAfter(ds)
    ensures Total(ds + [d]) % U64 == (Total(ds) % U64 + d) % U64
  {
    assert (ds + [d])[..|ds|] == ds;
    ModAdd(Total(ds), d);
  }

  lemma {:induction false} MaxIsMember(ds: seq<nat>)
    ensures forall d :: d in ds ==> d <= MaxAfter(ds)
    ensures MaxAfter(ds) == 0 || MaxAfter(ds) in ds
  {
    if ds != [] {
      MaxIsMember(ds[..|ds| - 1]);
      assert ds == ds[..|ds| - 1] + [ds[|ds| - 1]];
    }
  }

  lemma {:induction false} ExtremesOrdered(ds: seq<nat>)
    ensures MinAfter(ds) <= MaxAfter(ds)
  {
    if ds != [] {
      ExtremesOrdered(ds[..|ds| - 1]);
    }
  }

  function AfterLastZero(ds: seq<nat>): seq<nat> {
    if ds == [] || ds[|ds| - 1] == 0 then [] else AfterLastZero(ds[..|ds| - 1]) + [ds[|ds| - 1]]
  }

  predicate IsMinimum(m: nat, ds: seq<nat>) {
    m in ds && forall d :: d in ds ==> m <= d
  }

  /** Zero doubles as "no minimum yet", so the recorded minimum only covers the
      durations since the last zero. */
  lemma {:induction false} MinAfterExact(ds: seq<nat>)
    ensures var tail := AfterLastZero(ds);
      && (forall d :: d in tail ==> d > 0)
      && if tail == [] then MinAfter(ds) == 0 else IsMinimum(MinAfter(ds), tail)
  {
    if ds != [] {
      MinAfterExact(ds[..|ds| - 1]);
    }
  }

  lemma {:induction false} NoZeroNoReset(ds: seq<nat>)
    ensures 0 !in ds <==> AfterLastZero(ds) == ds
  {
    if ds != [] {
      NoZeroNoReset(ds[..|ds| - 1]);
      assert ds == ds[..|ds| - 1] + [ds[|ds| - 1]];
      AfterLastZeroShorter(ds[..|ds| - 1]);
    }
  }

  lemma {:induction false} AfterLastZeroShorter(ds: seq<nat>)
    ensures |AfterLastZero(ds)| <= |ds|
    ensures |AfterLastZero(ds)| == |ds| ==> AfterLastZero(ds) == ds
  {
    if ds != [] {
      AfterLastZeroShorter(ds[..|ds| - 1]);
    }
  }

  /** The recorded minimum is the true one exactly when no request took zero
      milliseconds, or the last one did. */
  lemma MinIsMinimumIff(ds: seq<nat>)
    requires ds != []
    ensures IsMinimum(MinAfter(ds), ds) <==> 0 !in ds || ds[|ds| - 1] == 0
  {
    MinAfterExact(ds);
    NoZeroNoReset(ds);
    if 0 in ds && ds[|ds| - 1] != 0 {
      assert ds[|ds| - 1] in AfterLastZero(ds);
      assert MinAfter(ds) > 0;
    } else if 0 in ds {
      assert AfterLastZero(ds) == [];
    }
  }

  // --------------------------------------------------------------- percentile

  /** `min + ((max - min) * 95 / 100)` in wrapping 64-bit arithmetic. */
  function Percentile(min: nat, max: nat): nat {
    var spread := (max - min) % U64;
    (min + spread * 95 % U64 / 100) % U64
  }

  /** The estimate lies between the extremes whenever they are ordered, even if
      the product wraps. */
  lemma PercentileInRange(min: nat, max: nat)
    requires min <= max < U64
    ensures min <= Percentile(min, max) <= max
  {
    var spread := max - min;
    assert spread % U64 == spread;
    if spread * 95 < U64 {
      assert spread * 95 % U64 == spread * 95;
    } else {
      assert spread * 95 % U64 / 100 <= spread;
    }
  }

  /** It is the intended 95 percent point exactly when the product fits. */
  lemma PercentileExactIff(min: nat, max: nat)
    requires min <= max < U64
    ensures Percentile(min, max) == min + (max - min) * 95 / 100 <==> (max - min) * 95 < 0x1_0000_0000_0000_0000
  {
    var spread := max - min;
    assert spread % U64 == spread;
    if spread * 95 < U64 {
      assert spread * 95 % U64 == spread * 95;
    } else {
      assert spread * 95 % U64 <= spread * 95 - U64;
    }
  }
}
