/** The message consumer: any number of tasks share one set of seen payload
    ids, against a broker that may deliver anything ever put on the main
    exchange, to any task, any number of times. */
module Consumer {
  import opened Basics

  const U32: nat := 0x1_0000_0000

  type Body = seq<bv8>

  type Int32 = i: int | -0x8000_0000 <= i < 0x8000_0000
  type UInt32 = u: int | 0 <= u < U32

  /** The `x-retry-count` header as AMQP carries it. */
  datatype Header = NoHeader | LongInt(i: Int32) | LongUInt(u: UInt32) | OtherType

  datatype Message = Message(body: Body, header: Header)

  /** What the JSON parser makes of a body; `id` is its string field "id". */
  datatype Parsed = Invalid | Json(id: Option<string>)

  datatype Config = Config(parse: Body -> Parsed, maxRetries: UInt32)

  // ------------------------------------------------------------- payload ids

  function Digit(n: nat): char
    requires n < 10
  {
    "0123456789"[n]
  }

  function Decimal(n: nat): string {
    if n < 10 then [Digit(n)] else Decimal(n / 10) + [Digit(n % 10)]
  }

  function PayloadId(c: Config, body: Body): string {
    match c.parse(body)
    case Json(Some(id)) => id
    case _ => "h:" + Decimal(|body|)
  }

  predicate HasOwnId(c: Config, body: Body) {
    c.parse(body).Json? && c.parse(body).id.Some?
  }

  lemma DigitInjective(m: nat, n: nat)
    requires m < 10 && n < 10 && Digit(m) == Digit(n)
    ensures m == n
  {
  }

  lemma {:induction false} DecimalInjective(m: nat, n: nat)
    ensures Decimal(m) == Decimal(n) <==> m == n
    decreases m
  {
    if Decimal(m) == Decimal(n) {
      assert Decimal(m)[|Decimal(m)| - 1] == Digit(m % 10);
      assert Decimal(n)[|Decimal(n)| - 1] == Digit(n % 10);
      DigitInjective(m % 10, n % 10);
      if m >= 10 && n >= 10 {
        assert Decimal(m / 10) == Decimal(m)[..|Decimal(m)| - 1];
        assert Decimal(n / 10) == Decimal(n)[..|Decimal(n)| - 1];
        DecimalInjective(m / 10, n / 10);
      } else {
        DecimalLength(m);
        DecimalLength(n);
      }
    }
  }

  lemma DecimalLength(n: nat)
    ensures |Decimal(n)| >= 1 && (|Decimal(n)| == 1 <==> n < 10)
  {
  }

  /** Bodies without an id of their own are told apart by their length alone. */
  lemma FallbackIdsCollideIff(c: Config, a: Body, b: Body)
    requires !HasOwnId(c, a) && !HasOwnId(c, b)
    ensures PayloadId(c, a) == PayloadId(c, b) <==> |a| == |b|
  {
    DecimalInjective(|a|, |b|);
    if PayloadId(c, a) == PayloadId(c, b) {
      assert Decimal(|a|) == PayloadId(c, a)[2..];
      assert Decimal(|b|) == PayloadId(c, b)[2..];
    }
  }

  /** The number a string of digits stands for. */
  function ReadDecimal(s: string): int {
    if s == "" then 0 else 10 * ReadDecimal(s[..|s| - 1]) + (s[|s| - 1] as int - '0' as int)
  }

  lemma DigitReads(n: nat)
    requires n < 10
    ensures Digit(n) as int - '0' as int == n
  {
  }

  /** Lengths are printed in decimal, most significant digit first. */
  lemma {:induction false} DecimalReads(n: nat)
    ensures ReadDecimal(Decimal(n)) == n
    ensures forall i :: 0 <= i < |Decimal(n)| ==> '0' <= Decimal(n)[i] <= '9'
    ensures Decimal(n)[0] == '0' <==> n == 0
  {
    DigitReads(n % 10);
    if n < 10 {
      assert Decimal(n)[..0] == "";
    } else {
      DecimalReads(n / 10);
      assert Decimal(n)[..|Decimal(n)| - 1] == Decimal(n / 10);
    }
  }

  /** What dedupe takes for the same message, in terms of the bodies: equal ids if
      both have one, equal lengths if neither has, and otherwise an id that spells
      the other's length. */
  predicate Alike(c: Config, a: Body, b: Body) {
    match (c.parse(a), c.parse(b))
    case (Json(Some(x)), Json(Some(y))) => x == y
    case (Json(Some(x)), _) => Spells(x, |b|)
    case (_, Json(Some(y))) => Spells(y, |a|)
    case _ => |a| == |b|
  }

  predicate Spells(id: string, n: nat) {
    id == "h:" + Decimal(n)
  }

  lemma CollideIffAlike(c: Config, a: Body, b: Body)
    ensures PayloadId(c, a) == PayloadId(c, b) <==> Alike(c, a, b)
  {
    if !HasOwnId(c, a) && !HasOwnId(c, b) {
      FallbackIdsCollideIff(c, a, b);
    }
  }

  // ------------------------------------------------------------ the protocol

  function Attempts(h: Header): UInt32 {
    match h
    case LongInt(i) => if i > 0 then i else 0
    case LongUInt(u) => u
    case _ => 0
  }

  /** `attempts + 1` in 32 bits. */
  function NextAttempt(h: Header): UInt32 {
    (Attempts(h) + 1) % U32
  }

  /** The count a failed message goes on with, for each kind of header. */
  lemma NextAttemptExact(h: Header)
    ensures NextAttempt(h) ==
      match h
      case LongInt(i) => if i <= 0 then 1 else i + 1
      case LongUInt(u) => if u == 0xFFFF_FFFF then 0 else u + 1
      case _ => 1
  {
  }

  /** One pass of a task's loop over a delivery. */
  datatype Task =
    | Idle
    | Taken(tag: nat, msg: Message)     // before the dedupe check
    | Fresh(tag: nat, msg: Message)     // passed it
    | Handled(tag: nat)                 // only the ack is left

  /** A pass through the dedupe check, and what it found. */
  datatype Marking = Marking(msg: Message, passes: bool)

  datatype State = State(
    tasks: map<nat, Task>,
    main: set<Message>,        // everything ever put on the main exchange
    dead: seq<Message>,        // dead letters that arrived
    seen: set<string>,
    marked: seq<Marking>,      // all dedupe checks, in order
    passed: seq<string>,       // ids that passed, in order
    published: seq<string>,    // ids of retry and dead-letter publishes
    acked: seq<nat>,
    nextTag: nat)

  datatype Step =
    | Produce(msg: Message)
    | Take(t: nat, msg: Message)
    | Mark(t: nat)
    | Handle(t: nat, lost: bool)     // `lost`: a publish that fails silently
    | Ack(t: nat)

  const INIT := State(map[], {}, [], {}, [], [], [], [], 0)

  function TaskOf(s: State, t: nat): Task {
    if t in s.tasks then s.tasks[t] else Idle
  }

  function Id(c: Config, msg: Message): string {
    PayloadId(c, msg.body)
  }

  function Retried(msg: Message): Message {
    msg.(header := LongUInt(NextAttempt(msg.header)))
  }

  predicate Enabled(s: State, step: Step) {
    match step
    case Produce(_) => true
    case Take(t, msg) => TaskOf(s, t).Idle? && msg in s.main
    case Mark(t) => TaskOf(s, t).Taken?
    case Handle(t, _) => TaskOf(s, t).Fresh?
    case Ack(t) => TaskOf(s, t).Handled?
  }

  function Apply(c: Config, s: State, step: Step): State
    requires Enabled(s, step)
  {
    match step
    case Produce(msg) => s.(main := s.main + {msg})
    case Take(t, msg) => s.(tasks := s.tasks[t := Taken(s.nextTag, msg)], nextTag := s.nextTag + 1)
    case Mark(t) =>
      var k := TaskOf(s, t);
      var id := Id(c, k.msg);
      var logged := s.(marked := s.marked + [Marking(k.msg, id !in s.seen)]);
      if id in s.seen then logged.(tasks := s.tasks[t := Handled(k.tag)])
      else logged.(tasks := s.tasks[t := Fresh(k.tag, k.msg)], seen := s.seen + {id}, passed := s.passed + [id])
    case Handle(t, lost) =>
      var k := TaskOf(s, t);
      var done := s.(tasks := s.tasks[t := Handled(k.tag)]);
      if c.parse(k.msg.body).Json? then done
      else
        var sent := done.(published := s.published + [Id(c, k.msg)]);
        if lost then sent
        else if NextAttempt(k.msg.header) >= c.maxRetries then sent.(dead := s.dead + [Retried(k.msg)])
        else sent.(main := s.main + {Retried(k.msg)})
    case Ack(t) => s.(tasks := s.tasks[t := Idle], acked := s.acked + [TaskOf(s, t).tag])
  }

  function Next(c: Config, s: State, step: Step): State {
    if Enabled(s, step) then Apply(c, s, step) else s
  }

  function Run(c: Config, steps: seq<Step>): State {
    if steps == [] then INIT else Next(c, Run(c, steps[..|steps| - 1]), steps[|steps| - 1])
  }

  // --------------------------------------------------------------- invariants

  /** The dedupe set is the list of ids that passed, each once; publishes are
      for ids that passed, each once; and an id in handling is unpublished. */
  ghost predicate OncePerId(c: Config, s: State) {
    && Distinct(s.passed) && (forall id :: id in s.passed <==> id in s.seen)
    && Distinct(s.published) && (forall id :: id in s.published ==> id in s.seen)
    && (forall t :: TaskOf(s, t).Fresh? ==>
          Id(c, TaskOf(s, t).msg) in s.seen && Id(c, TaskOf(s, t).msg) !in s.published)
    && (forall t, u :: TaskOf(s, t).Fresh? && TaskOf(s, u).Fresh? ==>
          Id(c, TaskOf(s, t).msg) == Id(c, TaskOf(s, u).msg) ==> t == u)
  }

  /** Every delivery tag handed out is acked once, or held by one task. */
  ghost predicate OncePerDelivery(s: State) {
    && Distinct(s.acked) && (forall tag :: tag in s.acked ==> tag < s.nextTag)
    && (forall t :: !TaskOf(s, t).Idle? ==> TaskOf(s, t).tag < s.nextTag && TaskOf(s, t).tag !in s.acked)
    && (forall t, u :: !TaskOf(s, t).Idle? && !TaskOf(s, u).Idle? && TaskOf(s, t).tag == TaskOf(s, u).tag ==> t == u)
    && (forall tag :: 0 <= tag < s.nextTag && tag !in s.acked ==>
          exists t :: !TaskOf(s, t).Idle? && TaskOf(s, t).tag == tag)
  }

  lemma OncePerIdKept(c: Config, s: State, step: Step)
    requires OncePerId(c, s) && Enabled(s, step)
    ensures OncePerId(c, Apply(c, s, step))
  {
    OtherTasksUntouched(c, s, step);
  }

  lemma OtherTasksUntouched(c: Config, s: State, step: Step)
    requires Enabled(s, step)
    ensures var r := Apply(c, s, step);
      && (forall u :: step.Produce? || u != step.t ==> TaskOf(r, u) == TaskOf(s, u))
      && (step.Mark? || step.Handle? ==> !TaskOf(r, step.t).Idle? && TaskOf(r, step.t).tag == TaskOf(s, step.t).tag)
      && (step.Take? ==> TaskOf(r, step.t) == Taken(s.nextTag, step.msg))
      && (step.Ack? ==> TaskOf(r, step.t).Idle?)
  {
  }

  lemma TagsStayHeld(c: Config, s: State, step: Step, tag: nat)
    requires OncePerDelivery(s) && Enabled(s, step)
    requires var r := Apply(c, s, step); tag < r.nextTag && tag !in r.acked
    ensures exists t :: !TaskOf(Apply(c, s, step), t).Idle? && TaskOf(Apply(c, s, step), t).tag == tag
  {
    var r := Apply(c, s, step);
    OtherTasksUntouched(c, s, step);
    if tag < s.nextTag {
      var u :| !TaskOf(s, u).Idle? && TaskOf(s, u).tag == tag;
      assert !TaskOf(r, u).Idle? && TaskOf(r, u).tag == tag;
    } else {
      assert !TaskOf(r, step.t).Idle? && TaskOf(r, step.t).tag == tag;
    }
  }

  lemma OncePerDeliveryKept(c: Config, s: State, step: Step)
    requires OncePerDelivery(s) && Enabled(s, step)
    ensures OncePerDelivery(Apply(c, s, step))
  {
    var r := Apply(c, s, step);
    OtherTasksUntouched(c, s, step);
    forall tag | 0 <= tag < r.nextTag && tag !in r.acked
      ensures exists t :: !TaskOf(r, t).Idle? && TaskOf(r, t).tag == tag
    {
      TagsStayHeld(c, s, step, tag);
    }
  }

  /** At-most-once handling and bounded publishing, for every interleaving of
      consumer loops and every redelivery. */
  lemma {:induction false} AtMostOnce(c: Config, steps: seq<Step>)
    ensures var s := Run(c, steps); OncePerId(c, s) && OncePerDelivery(s)
  {
    if steps != [] {
      var before := steps[..|steps| - 1];
      AtMostOnce(c, before);
      var s := Run(c, before);
      if Enabled(s, steps[|steps| - 1]) {
        OncePerIdKept(c, s, steps[|steps| - 1]);
        OncePerDeliveryKept(c, s, steps[|steps| - 1]);
      }
    }
  }

  /** Retry and dead-letter publishes together never outnumber the distinct ids;
      and when all tasks are idle every delivery taken has been acked, once. */
  lemma PublishesAndAcks(c: Config, steps: seq<Step>)
    ensures var s := Run(c, steps);
      && |s.published| <= |s.seen| == |s.passed|
      && ((forall t :: TaskOf(s, t).Idle?) ==>
            Distinct(s.acked) && forall tag :: tag in s.acked <==> 0 <= tag < s.nextTag)
  {
    AtMostOnce(c, steps);
    var s := Run(c, steps);
    DistinctFits(s.published, s.seen);
    EnumerationSize(s.passed, s.seen);
  }

  // ------------------------------------------------------------- retry counts

  predicate SetsNoHeader(step: Step) {
    step.Produce? ==> step.msg.header == NoHeader
  }

  /** Republished copies carry the count one and an id already seen, so none of
      them ever passes the dedupe check again. */
  ghost predicate CountsAreOne(c: Config, s: State) {
    && (forall m :: m in s.main ==>
          m.header == NoHeader || (m.header == LongUInt(1) && 1 < c.maxRetries && Id(c, m) in s.seen))
    && (forall t :: TaskOf(s, t).Taken? ==> TaskOf(s, t).msg in s.main)
    && (forall t :: TaskOf(s, t).Fresh? ==> TaskOf(s, t).msg.header == NoHeader && Id(c, TaskOf(s, t).msg) in s.seen)
    && (forall m :: m in s.dead ==> m.header == LongUInt(1))
    && (s.dead != [] ==> c.maxRetries <= 1)
  }

  lemma CountsKept(c: Config, s: State, step: Step)
    requires CountsAreOne(c, s) && Enabled(s, step) && SetsNoHeader(step)
    ensures CountsAreOne(c, Apply(c, s, step))
  {
    OtherTasksUntouched(c, s, step);
    if step.Handle? {
      assert Retried(TaskOf(s, step.t).msg).header == LongUInt(1);
    }
  }

  lemma {:induction false} CountsRun(c: Config, steps: seq<Step>)
    requires forall step :: step in steps ==> SetsNoHeader(step)
    ensures CountsAreOne(c, Run(c, steps))
  {
    if steps != [] {
      var before, last := steps[..|steps| - 1], steps[|steps| - 1];
      CountsRun(c, before);
      assert last in steps;
      if Enabled(Run(c, before), last) {
        CountsKept(c, Run(c, before), last);
      }
    }
  }

  /** If producers set no retry header, counts on the main exchange stay below
      max(1, max_retries), dead letters carry exactly that value, and no count
      that a task is about to write overflows. */
  lemma RetryCountsBounded(c: Config, steps: seq<Step>)
    requires forall step :: step in steps ==> SetsNoHeader(step)
    ensures var s := Run(c, steps);
      && (forall m :: m in s.main ==> Attempts(m.header) < Max(1, c.maxRetries))
      && (forall m :: m in s.dead ==> m.header == LongUInt(Max(1, c.maxRetries)))
      && (forall t :: TaskOf(s, t).Fresh? ==>
            NextAttempt(TaskOf(s, t).msg.header) == Attempts(TaskOf(s, t).msg.header) + 1)
  {
    CountsRun(c, steps);
  }

  // -------------------------------------------------------------- dead letters

  predicate SendsArrive(step: Step) {
    step.Handle? ==> !step.lost
  }

  function Ids(c: Config, messages: seq<Message>): seq<string> {
    seq(|messages|, i requires 0 <= i < |messages| => Id(c, messages[i]))
  }

  lemma DeadLettersKept(c: Config, s: State, step: Step)
    requires CountsAreOne(c, s) && c.maxRetries <= 1 && Ids(c, s.dead) == s.published && SendsArrive(step)
    ensures Ids(c, Next(c, s, step).dead) == Next(c, s, step).published
  {
    if Enabled(s, step) && step.Handle? {
      var m := TaskOf(s, step.t).msg;
      assert NextAttempt(m.header) == 1;
      assert Ids(c, s.dead + [Retried(m)]) == Ids(c, s.dead) + [Id(c, m)];
    }
  }

  /** With at most one try allowed, and every publish arriving, there is one dead
      letter for each publish, in order. */
  lemma {:induction false} DeadLettersMatchPublishes(c: Config, steps: seq<Step>)
    requires c.maxRetries <= 1 && forall step :: step in steps ==> SetsNoHeader(step) && SendsArrive(step)
    ensures Ids(c, Run(c, steps).dead) == Run(c, steps).published
  {
    if steps != [] {
      var before, last := steps[..|steps| - 1], steps[|steps| - 1];
      DeadLettersMatchPublishes(c, before);
      CountsRun(c, before);
      assert last in steps;
      DeadLettersKept(c, Run(c, before), last);
    }
  }

  // ------------------------------------------------- who gets past the dedupe

  /** No message checked before this one had its id. */
  predicate FirstOfItsId(c: Config, marked: seq<Marking>, i: nat)
    requires i < |marked|
  {
    forall j :: 0 <= j < i ==> Id(c, marked[j].msg) != Id(c, marked[i].msg)
  }

  predicate Checked(c: Config, marked: seq<Marking>, id: string) {
    exists i :: 0 <= i < |marked| && Id(c, marked[i].msg) == id
  }

  ghost predicate MarkedRightly(c: Config, marked: seq<Marking>, seen: set<string>) {
    && (forall id :: id in seen <==> Checked(c, marked, id))
    && (forall i :: 0 <= i < |marked| ==> (marked[i].passes <==> FirstOfItsId(c, marked, i)))
  }

  lemma CheckedSnoc(c: Config, marked: seq<Marking>, k: Marking, id: string)
    ensures Checked(c, marked + [k], id) <==> Checked(c, marked, id) || Id(c, k.msg) == id
  {
    var more := marked + [k];
    if Checked(c, marked, id) {
      var i :| 0 <= i < |marked| && Id(c, marked[i].msg) == id;
      assert Id(c, more[i].msg) == id;
    }
    if Id(c, k.msg) == id {
      assert Id(c, more[|marked|].msg) == id;
    }
  }

  lemma FirstSnoc(c: Config, marked: seq<Marking>, k: Marking, i: nat)
    requires i <= |marked|
    ensures i < |marked| ==> (FirstOfItsId(c, marked + [k], i) <==> FirstOfItsId(c, marked, i))
    ensures FirstOfItsId(c, marked + [k], |marked|) <==> !Checked(c, marked, Id(c, k.msg))
  {
    var more := marked + [k];
    assert forall j :: 0 <= j < |marked| ==> more[j] == marked[j];
  }

  lemma MarkedKept(c: Config, marked: seq<Marking>, seen: set<string>, k: Marking, more: seq<Marking>, all: set<string>)
    requires MarkedRightly(c, marked, seen) && (k.passes <==> Id(c, k.msg) !in seen)
    requires more == marked + [k] && all == seen + {Id(c, k.msg)}
    ensures MarkedRightly(c, more, all)
  {
    forall id
      ensures id in all <==> Checked(c, more, id)
    {
      CheckedSnoc(c, marked, k, id);
    }
    forall i | 0 <= i < |more|
      ensures more[i].passes <==> FirstOfItsId(c, more, i)
    {
      FirstSnoc(c, marked, k, i);
    }
  }

  /** In every run, a message passes the dedupe check exactly if none with its id
      was checked before it. */
  lemma {:induction false} PassesIffFirst(c: Config, steps: seq<Step>)
    ensures MarkedRightly(c, Run(c, steps).marked, Run(c, steps).seen)
  {
    if steps != [] {
      var before, last := steps[..|steps| - 1], steps[|steps| - 1];
      PassesIffFirst(c, before);
      var s := Run(c, before);
      if Enabled(s, last) {
        if last.Mark? {
          var r := Apply(c, s, last);
          MarkedKept(c, s.marked, s.seen, r.marked[|s.marked|], r.marked, r.seen);
        } else {
          assert Apply(c, s, last).marked == s.marked && Apply(c, s, last).seen == s.seen;
        }
      }
    }
  }

  /** No message checked before this one was alike. */
  predicate NoneAlikeBefore(c: Config, marked: seq<Marking>, i: nat)
    requires i < |marked|
  {
    forall j :: 0 <= j < i ==> !Alike(c, marked[j].msg.body, marked[i].msg.body)
  }

  lemma FirstIffNoneAlike(c: Config, marked: seq<Marking>, i: nat)
    requires i < |marked|
    ensures FirstOfItsId(c, marked, i) <==> NoneAlikeBefore(c, marked, i)
  {
    forall j | 0 <= j < i
      ensures Id(c, marked[j].msg) == Id(c, marked[i].msg) <==> Alike(c, marked[j].msg.body, marked[i].msg.body)
    {
      CollideIffAlike(c, marked[j].msg.body, marked[i].msg.body);
    }
  }

  /** In every run, a message passes the dedupe check exactly if none alike was
      checked before it. */
  lemma PassesIffNoneAlike(c: Config, steps: seq<Step>, i: nat)
    requires i < |Run(c, steps).marked|
    ensures var marked := Run(c, steps).marked; marked[i].passes <==> NoneAlikeBefore(c, marked, i)
  {
    PassesIffFirst(c, steps);
    FirstIffNoneAlike(c, Run(c, steps).marked, i);
  }

  // ------------------------------------------------- who becomes a dead letter

  predicate Poison(c: Config, m: Message) {
    c.parse(m.body) == Invalid
  }

  predicate PassedPoison(c: Config, s: State, m: Message) {
    Poison(c, m) && Marking(m, true) in s.marked
  }

  predicate InHand(s: State, m: Message) {
    exists t :: t in s.tasks && s.tasks[t].Fresh? && s.tasks[t].msg == m
  }

  /** Dead letters are poison messages that passed the check; each of those is a
      dead letter, or about to be. */
  ghost predicate DeadAccounted(c: Config, s: State) {
    && (forall d :: d in s.dead ==> exists m :: PassedPoison(c, s, m) && d == Retried(m))
    && (forall m :: PassedPoison(c, s, m) ==> Retried(m) in s.dead || InHand(s, m))
    && (forall m :: InHand(s, m) ==> Marking(m, true) in s.marked)
  }

  lemma InHandAfter(c: Config, s: State, step: Step, m: Message)
    requires Enabled(s, step)
    ensures InHand(Apply(c, s, step), m) ==>
      InHand(s, m) || (step.Mark? && TaskOf(s, step.t).msg == m && Id(c, m) !in s.seen)
    ensures InHand(s, m) ==> InHand(Apply(c, s, step), m) || (step.Handle? && TaskOf(s, step.t).msg == m)
    ensures step.Mark? && TaskOf(s, step.t).msg == m && Id(c, m) !in s.seen ==> InHand(Apply(c, s, step), m)
  {
    var r := Apply(c, s, step);
    if InHand(r, m) {
      var t :| t in r.tasks && r.tasks[t].Fresh? && r.tasks[t].msg == m;
      assert step.Produce? || t != step.t ==> t in s.tasks && s.tasks[t] == r.tasks[t];
    }
    if InHand(s, m) {
      var t :| t in s.tasks && s.tasks[t].Fresh? && s.tasks[t].msg == m;
      assert step.Produce? || t != step.t ==> t in r.tasks && r.tasks[t] == s.tasks[t];
    }
    if step.Mark? && TaskOf(s, step.t).msg == m && Id(c, m) !in s.seen {
      assert r.tasks[step.t].Fresh? && r.tasks[step.t].msg == m;
    }
  }

  lemma MarkAccounts(c: Config, s: State, t: nat)
    requires DeadAccounted(c, s) && TaskOf(s, t).Taken?
    ensures DeadAccounted(c, Apply(c, s, Mark(t)))
  {
    var r, k := Apply(c, s, Mark(t)), TaskOf(s, t).msg;
    assert r.marked == s.marked + [Marking(k, Id(c, k) !in s.seen)] && r.dead == s.dead;
    forall m
      ensures PassedPoison(c, r, m) ==> Retried(m) in r.dead || InHand(r, m)
      ensures InHand(r, m) ==> Marking(m, true) in r.marked
      ensures PassedPoison(c, s, m) ==> PassedPoison(c, r, m)
    {
      InHandAfter(c, s, Mark(t), m);
    }
  }

  lemma HandleAccounts(c: Config, s: State, t: nat)
    requires DeadAccounted(c, s) && CountsAreOne(c, s) && c.maxRetries <= 1 && TaskOf(s, t).Fresh?
    ensures DeadAccounted(c, Apply(c, s, Handle(t, false)))
  {
    var r, k := Apply(c, s, Handle(t, false)), TaskOf(s, t).msg;
    assert NextAttempt(k.header) == 1 && InHand(s, k);
    assert r.marked == s.marked && r.dead == if Poison(c, k) then s.dead + [Retried(k)] else s.dead;
    forall m
      ensures PassedPoison(c, r, m) ==> Retried(m) in r.dead || InHand(r, m)
      ensures InHand(r, m) ==> Marking(m, true) in r.marked
      ensures PassedPoison(c, r, m) <==> PassedPoison(c, s, m)
    {
      InHandAfter(c, s, Handle(t, false), m);
    }
    forall d | d in r.dead
      ensures exists m :: PassedPoison(c, r, m) && d == Retried(m)
    {
      if d in s.dead {
        var m :| PassedPoison(c, s, m) && d == Retried(m);
        assert PassedPoison(c, r, m);
      } else {
        assert PassedPoison(c, r, k);
      }
    }
  }

  lemma OthersAccount(c: Config, s: State, step: Step)
    requires DeadAccounted(c, s) && Enabled(s, step) && !step.Mark? && !step.Handle?
    ensures DeadAccounted(c, Apply(c, s, step))
  {
    var r := Apply(c, s, step);
    assert r.marked == s.marked && r.dead == s.dead;
    forall m
      ensures InHand(r, m) <==> InHand(s, m)
      ensures PassedPoison(c, r, m) <==> PassedPoison(c, s, m)
    {
      InHandAfter(c, s, step, m);
    }
  }

  lemma {:induction false} DeadAccountedRun(c: Config, steps: seq<Step>)
    requires c.maxRetries <= 1 && forall step :: step in steps ==> SetsNoHeader(step) && SendsArrive(step)
    ensures DeadAccounted(c, Run(c, steps))
  {
    if steps != [] {
      var before, last := steps[..|steps| - 1], steps[|steps| - 1];
      DeadAccountedRun(c, before);
      CountsRun(c, before);
      assert last in steps;
      var s := Run(c, before);
      if Enabled(s, last) {
        if last.Mark? {
          MarkAccounts(c, s, last.t);
        } else if last.Handle? {
          HandleAccounts(c, s, last.t);
        } else {
          OthersAccount(c, s, last);
        }
      }
    }
  }

  /** With at most one try allowed, no producer headers and every publish
      arriving: once the consumers are idle, a poison body is among the dead
      letters exactly if it came to the dedupe check, and no body alike came
      before it. */
  lemma DeadLettersExact(c: Config, steps: seq<Step>, body: Body)
    requires c.maxRetries <= 1 && forall step :: step in steps ==> SetsNoHeader(step) && SendsArrive(step)
    requires c.parse(body) == Invalid && forall t :: TaskOf(Run(c, steps), t).Idle?
    ensures var s := Run(c, steps);
      Message(body, LongUInt(1)) in s.dead
      <==> exists i :: 0 <= i < |s.marked| && s.marked[i].msg.body == body && NoneAlikeBefore(c, s.marked, i)
  {
    var s := Run(c, steps);
    DeadAccountedRun(c, steps);
    PassesIffFirst(c, steps);
    CountsRun(c, steps);
    MarkedHeaders(c, steps);
    if Message(body, LongUInt(1)) in s.dead {
      var m :| PassedPoison(c, s, m) && Message(body, LongUInt(1)) == Retried(m);
      var i :| 0 <= i < |s.marked| && s.marked[i] == Marking(m, true);
      FirstIffNoneAlike(c, s.marked, i);
    }
    if i :| 0 <= i < |s.marked| && s.marked[i].msg.body == body && NoneAlikeBefore(c, s.marked, i) {
      FirstIffNoneAlike(c, s.marked, i);
      var m := s.marked[i].msg;
      assert s.marked[i] == Marking(m, true) && PassedPoison(c, s, m);
      assert !InHand(s, m) by {
        forall t | t in s.tasks
          ensures !s.tasks[t].Fresh?
        {
          assert TaskOf(s, t).Idle?;
        }
      }
      assert Retried(m) == Message(body, LongUInt(1));
    }
  }

  /** Without producer headers, what comes to the check has none, or is a copy. */
  lemma {:induction false} MarkedHeaders(c: Config, steps: seq<Step>)
    requires c.maxRetries <= 1 && forall step :: step in steps ==> SetsNoHeader(step)
    ensures forall i :: 0 <= i < |Run(c, steps).marked| ==> Run(c, steps).marked[i].msg.header == NoHeader
  {
    if steps != [] {
      var before, last := steps[..|steps| - 1], steps[|steps| - 1];
      MarkedHeaders(c, before);
      CountsRun(c, before);
    }
  }

  /** One message on its way through one consumer. */
  function Passage(m: Message): seq<Step> {
    [Produce(m), Take(0, m), Mark(0), Handle(0, false)]
  }

  /** The whole outcome of a poison message that arrives first: it becomes a dead
      letter exactly if the incremented count has reached the limit. */
  lemma PoisonOutcome(c: Config, m: Message)
    requires c.parse(m.body) == Invalid
    ensures var s := Run(c, Passage(m));
      && s.tasks == map[0 := Handled(0)] && s.acked == [] && s.nextTag == 1 && s.seen == {Id(c, m)}
      && if NextAttempt(m.header) >= c.maxRetries then s.dead == [Retried(m)] && s.main == {m}
         else s.dead == [] && s.main == {m, Retried(m)}
  {
    var steps := Passage(m);
    assert steps[..3][..2] == steps[..2] && steps[..2][..1] == steps[..1] && steps[..1][..0] == [];
    var s1 := Next(c, INIT, steps[0]);
    var s2 := Next(c, s1, steps[1]);
    var s3 := Next(c, s2, steps[2]);
    assert Run(c, []) == INIT;
    assert Run(c, steps[..1]) == s1;
    assert Run(c, steps[..2]) == s2;
    assert Run(c, steps[..3]) == s3;
    assert TaskOf(s3, 0) == Fresh(0, m) && s3.dead == [] && s3.main == {m};
  }

  /** Without producer headers, some run has a dead letter exactly if at most one
      try is allowed: with more, the republished copy is taken for a duplicate. */
  lemma DeadLetterReachableIff(c: Config, body: Body)
    requires c.parse(body) == Invalid
    ensures (exists steps :: (forall step :: step in steps ==> SetsNoHeader(step)) && Run(c, steps).dead != [])
       <==> c.maxRetries <= 1
  {
    if c.maxRetries <= 1 {
      var m := Message(body, NoHeader);
      PoisonOutcome(c, m);
      assert forall step :: step in Passage(m) ==> SetsNoHeader(step);
    } else {
      forall steps | forall step :: step in steps ==> SetsNoHeader(step)
        ensures Run(c, steps).dead == []
      {
        CountsRun(c, steps);
      }
    }
  }

  /** A poison message that is acknowledged and never becomes a dead letter: its
      body has no id of its own and the length of one seen before. */
  lemma PoisonOvershadowed(c: Config, x: Body, y: Body) returns (steps: seq<Step>)
    requires c.maxRetries <= 1 && c.parse(x) == Invalid && c.parse(y) == Invalid && x != y && |x| == |y|
    ensures forall step :: step in steps ==> SetsNoHeader(step) && SendsArrive(step)
    ensures var s := Run(c, steps);
      && (forall t :: TaskOf(s, t).Idle?) && s.acked == [0, 1] && Marking(Message(y, NoHeader), false) in s.marked
      && forall m :: m in s.dead ==> m.body != y
  {
    var mx, my := Message(x, NoHeader), Message(y, NoHeader);
    FallbackIdsCollideIff(c, x, y);
    steps := Passage(mx) + [Ack(0), Produce(my), Take(0, my), Mark(0), Ack(0)];
    FirstRound(c, mx);
    assert steps[..4] == Passage(mx);
    var s5 := Next(c, Run(c, steps[..4]), steps[4]);
    assert steps[..5][..4] == steps[..4];
    assert Run(c, steps[..5]) == s5;
    SecondRound(c, steps, s5, my);
  }

  lemma FirstRound(c: Config, m: Message)
    requires Poison(c, m) && m.header == NoHeader && c.maxRetries <= 1
    ensures var s := Run(c, Passage(m));
      && s.tasks == map[0 := Handled(0)] && s.acked == [] && s.nextTag == 1 && s.seen == {Id(c, m)}
      && s.dead == [Retried(m)] && s.main == {m}
  {
    PoisonOutcome(c, m);
  }

  lemma SecondRound(c: Config, steps: seq<Step>, s: State, m: Message)
    requires |steps| == 9 && Run(c, steps[..5]) == s && steps[5..] == [Produce(m), Take(0, m), Mark(0), Ack(0)]
    requires s.tasks == map[0 := Idle] && s.acked == [0] && s.nextTag == 1 && Id(c, m) in s.seen
    ensures var r := Run(c, steps);
      && r.tasks == map[0 := Idle] && r.acked == [0, 1] && r.dead == s.dead && Marking(m, false) in r.marked
  {
    assert forall i :: 5 <= i < 9 ==> steps[i] == steps[5..][i - 5];
    assert steps[..6][..5] == steps[..5] && steps[..7][..6] == steps[..6] && steps[..8][..7] == steps[..7];
    var s6 := Next(c, s, steps[5]);
    var s7 := Next(c, s6, steps[6]);
    var s8 := Next(c, s7, steps[7]);
    assert Run(c, steps[..6]) == s6;
    assert Run(c, steps[..7]) == s7;
    assert Run(c, steps[..8]) == s8;
    assert s8.tasks == map[0 := Handled(1)] && Marking(m, false) in s8.marked && s8.dead == s.dead;
  }

  /** The increment wraps for exactly one header, and a poison message that
      carries it goes back to the main exchange with count zero, unless the limit
      is zero. */
  lemma CountWrapsIff(c: Config, m: Message)
    requires c.parse(m.body) == Invalid
    ensures NextAttempt(m.header) != Attempts(m.header) + 1 <==> m.header == LongUInt(0xFFFF_FFFF)
    ensures m.header == LongUInt(0xFFFF_FFFF) ==>
      (m.(header := LongUInt(0)) in Run(c, Passage(m)).main <==> c.maxRetries > 0)
  {
    PoisonOutcome(c, m);
  }
}
