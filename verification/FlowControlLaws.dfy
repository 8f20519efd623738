/** Conservation of credit on a stream, over every run. */
module FlowControlLaws {
  import opened Frames
  import opened Allowances
  import opened Credits
  import opened FlowControl

  function Total(wire: seq<Credit>): nat {
    if wire == [] then 0 else wire[0].n + Total(wire[1..])
  }

  lemma {:induction false} TotalAppends(a: seq<Credit>, b: seq<Credit>)
    ensures Total(a + b) == Total(a) + Total(b)
  {
    if a == [] {
      assert a + b == b;
    } else {
      TotalAppends(a[1..], b);
      assert (a + b)[1..] == a[1..] + b;
    }
  }

  /** Credit that has reached the publishing side. */
  function Arrived(f: Flow): nat {
    match f.publisher
    case None => 0
    case Some(p) => p.initialRequestN + p.granted
  }

  /** Credit told to the other side so far. */
  function Told(f: Flow): nat {
    Total(f.wire) + Arrived(f)
  }

  /** Frames that the wire format can carry: REQUEST_N between 1 and its maximum, and the opening frame up to it. */
  predicate Carried(c: Credit) {
    c.n <= MAX_REQUEST_N && (c.More? ==> c.n >= 1)
  }

  /** The opening frame comes first, once. */
  predicate InOrder(f: Flow) {
    && (forall i | 1 <= i < |f.wire| :: f.wire[i].More?)
    && (f.publisher.Some? ==> (f.wire != [] ==> f.wire[0].More?))
    && (f.publisher.None? && f.started ==> f.wire != [] && f.wire[0].Start?)
    && (!f.started ==> f.wire == [] && f.publisher.None?)
  }

  /** What holds of the consuming side whatever the responder does. */
  predicate ConsumerOk(f: Flow) {
    && (!f.started ==> f.consumer == Consumer(0, 0) && f.early == f.demand && f.delivered == 0)
    && (f.started ==> f.early == 0 && f.consumer.allowance + f.delivered == f.demand && Told(f) + f.consumer.pending == f.demand)
    && (forall c | c in f.wire :: Carried(c))
  }

  predicate PublisherOk(f: Flow) {
    && f.produced == f.delivered + f.inFlight
    && (f.publisher.None? ==> f.produced == 0)
    && (f.publisher.Some? ==>
          f.produced <= f.publisher.value.granted && (f.publisher.value.subscribed ==> f.publisher.value.initialRequestN == 0))
    && !f.failed
  }

  /** While some credit has not been told, more has been told than used: a payload is still to come, and with it the
      next REQUEST_N. */
  predicate Progressing(f: Flow) {
    f.consumer.pending > 0 ==> Told(f) > f.delivered
  }

  lemma SendRequestsOk(c: Consumer)
    requires c.pending < INFINITE
    ensures var w, told := SendRequests(c), if c.pending < MAX_REQUEST_N then c.pending else MAX_REQUEST_N;
      w == Written(c.(pending := c.pending - told), if c.pending > 0 then [told] else [])
  {
  }

  /** What becomes of the state when the consuming half writes what it owes. */
  lemma SyncOk(f: Flow, c: Consumer)
    requires c.pending < INFINITE
    ensures var g, told := Sent(f, SendRequests(c)), if c.pending < MAX_REQUEST_N then c.pending else MAX_REQUEST_N;
      && g.consumer == c.(pending := c.pending - told)
      && Total(g.wire) == Total(f.wire) + told
      && g.wire == f.wire + (if c.pending > 0 then [More(told)] else [])
      && g == f.(consumer := g.consumer, wire := g.wire)
  {
    SendRequestsOk(c);
    var w := SendRequests(c);
    if c.pending > 0 {
      MoresOfOne(w.requests[0]);
    }
    var mores := Mores(w.requests);
    TotalAppends(f.wire, mores);
  }

  lemma MoresOfOne(n: nat)
    ensures Mores([n]) == [More(n)] && Total([More(n)]) == n
  {
    assert [n][1..] == [] && Mores([]) == [];
    assert [More(n)][1..] == [] && Total([]) == 0;
  }

  /** Asking for `n` more: the consuming side stays balanced, and more credit than payloads has been told as long as
      some is still owed. */
  lemma GenerateOk(f: Flow, n: Size)
    requires n <= f.demand < INFINITE
    requires ConsumerOk(f.(demand := f.demand - n)) && InOrder(f) && f.started
    ensures var g := Sent(f, GenerateRequest(f.consumer, n));
      && ConsumerOk(g) && InOrder(g)
      && g == f.(consumer := g.consumer, wire := g.wire)
      && Arrived(g) == Arrived(f)
      && (g.consumer.pending > 0 ==> Told(g) > Told(f))
  {
    ReleaseSaturates(f.consumer.allowance, n);
    ReleaseSaturates(f.consumer.pending, n);
    SyncOk(f, Consumer(Released(f.consumer.allowance, n), Released(f.consumer.pending, n)));
  }

  /** The opening frame tells `initial`. */
  lemma StartedOk(f: Flow, initial: Size)
    requires ConsumerOk(f.(demand := 0)) && InOrder(f) && !f.started && f.publisher.None?
    requires initial <= MAX_REQUEST_N && f.early == 0
    ensures var o := f.(started := true, consumer := AddImplicitAllowance(f.consumer, initial), wire := f.wire + [Start(initial)]);
      && ConsumerOk(o.(demand := initial)) && InOrder(o) && Told(o) == initial
      && o.wire == [Start(initial)] && o.consumer == Consumer(initial, 0)
  {
    var o := f.(started := true, consumer := AddImplicitAllowance(f.consumer, initial), wire := f.wire + [Start(initial)]);
    ReleaseSaturates(0, initial);
    assert o.wire == [Start(initial)] && o.wire[1..] == [] && Total([]) == 0;
  }

  lemma OpenedOk(f: Flow, initial: Size, remaining: Size)
    requires ConsumerOk(f.(demand := 0)) && InOrder(f) && !f.started && f.publisher.None?
    requires initial <= MAX_REQUEST_N && initial + remaining < INFINITE
    requires f.demand == initial + remaining && f.early == 0
    ensures var g := Opened(f, initial, remaining);
      && ConsumerOk(g) && InOrder(g)
      && g == f.(started := true, consumer := g.consumer, wire := g.wire)
      && (g.consumer.pending > 0 ==> Told(g) > 0)
  {
    hide GenerateRequest, Sent, ConsumerOk, InOrder, Told, AddImplicitAllowance;
    var o := f.(started := true, consumer := AddImplicitAllowance(f.consumer, initial), wire := f.wire + [Start(initial)]);
    StartedOk(f, initial);
    if remaining > 0 {
      GenerateOk(o, remaining);
    }
  }

  lemma RequestOk(f: Flow, n: Count)
    requires n >= 0 && ConsumerOk(f) && InOrder(f) && f.demand + n < INFINITE
    requires StartsBy(f)
    ensures var g := Request(f, n);
      && ConsumerOk(g) && InOrder(g)
      && g == f.(started := g.started, early := g.early, demand := f.demand + n, consumer := g.consumer, wire := g.wire)
      && Arrived(g) == Arrived(f)
      && StartsBy(g)
      && (Progressing(f) ==> Progressing(g))
  {
    hide GenerateRequest, Opened, Sent;
    ReleaseSaturates(f.early, n);
    var g := f.(demand := f.demand + n);
    if f.started {
      GenerateOk(g, n);
    } else if f.mode == STREAM && n > 0 {
      OpenedOk(g, InitialPart(n), RemainingPart(n));
    }
  }

  lemma FirstPayloadOk(f: Flow)
    requires ConsumerOk(f) && InOrder(f) && !f.started && f.demand < INFINITE
    ensures var g := FirstPayload(f);
      && ConsumerOk(g) && InOrder(g)
      && g == f.(started := true, early := 0, consumer := g.consumer, wire := g.wire)
      && Progressing(g)
  {
    var initial := Drained(f.early, MAX_REQUEST_N);
    OpenedOk(f.(early := 0), initial, f.early - initial);
  }

  lemma CreditArrivesOk(f: Flow)
    requires ConsumerOk(f) && InOrder(f) && Enabled(f, CreditArrives) && f.demand < INFINITE
    ensures var g := Apply(f, CreditArrives);
      && ConsumerOk(g) && InOrder(g) && Told(g) == Told(f)
      && g == f.(wire := f.wire[1..], publisher := g.publisher)
      && (PublisherOk(f) ==> PublisherOk(g))
  {
    var credit := f.wire[0];
    assert f.wire == [credit] + f.wire[1..];
    if credit.More? {
      ReleaseSaturates(f.publisher.value.initialRequestN, credit.n);
    }
    assert forall c | c in f.wire[1..] :: c in f.wire;
  }

  lemma PayloadArrivesOk(f: Flow)
    requires ConsumerOk(f) && InOrder(f) && Enabled(f, PayloadArrives) && f.demand < INFINITE
    ensures var g := Apply(f, PayloadArrives);
      && ConsumerOk(g) && InOrder(g) && Arrived(g) == Arrived(f)
      && g.failed == (f.delivered == f.demand)
      && (!g.failed ==> g == f.(inFlight := f.inFlight - 1, delivered := f.delivered + 1, consumer := g.consumer, wire := g.wire))
      && (!g.failed && Progressing(f) ==> Progressing(g))
  {
    if f.consumer.allowance >= 1 {
      var c := f.consumer.(allowance := Acquired(f.consumer.allowance, 1));
      SyncOk(f.(inFlight := f.inFlight - 1, delivered := f.delivered + 1), c);
    }
  }

  /** Only a channel gathers credit before it is opened. */
  predicate StartsBy(f: Flow) {
    match f.mode
    case STREAM => f.started || f.demand == 0
    case CHANNEL => true
    case CHANNEL_BACK => f.started
  }

  /** What holds whatever the responder does. */
  predicate DemandOk(f: Flow) {
    ConsumerOk(f) && InOrder(f) && StartsBy(f)
  }

  /** What holds if the responder stays within its credit. */
  predicate FlowOk(f: Flow) {
    DemandOk(f) && PublisherOk(f) && Progressing(f)
  }

  lemma DemandGrows(f: Flow, a: Action)
    requires Enabled(f, a)
    ensures Apply(f, a).demand == f.demand + if a.Demand? then a.n else 0
  {
  }

  lemma StepDemandOk(f: Flow, a: Action)
    requires DemandOk(f) && Enabled(f, a) && Apply(f, a).demand < INFINITE
    ensures DemandOk(Apply(f, a))
  {
    hide Request, FirstPayload;
    DemandGrows(f, a);
    match a
    case Demand(n) => RequestOk(f, n);
    case OpenChannel => FirstPayloadOk(f);
    case CreditArrives => CreditArrivesOk(f);
    case PublisherSubscribes =>
    case Produce =>
    case Surplus =>
    case PayloadArrives => PayloadArrivesOk(f);
  }

  lemma StepFlowOk(f: Flow, a: Action)
    requires FlowOk(f) && Enabled(f, a) && !a.Surplus? && Apply(f, a).demand < INFINITE
    ensures FlowOk(Apply(f, a))
  {
    hide Request, FirstPayload;
    DemandGrows(f, a);
    StepDemandOk(f, a);
    match a
    case Demand(n) => RequestOk(f, n);
    case OpenChannel => FirstPayloadOk(f);
    case CreditArrives => CreditArrivesOk(f);
    case PublisherSubscribes =>
    case Produce =>
    case PayloadArrives => PayloadArrivesOk(f);
  }

  lemma {:induction false} DemandGrowsOverRuns(f: Flow, actions: seq<Action>)
    requires IsRun(f, actions)
    ensures After(f, actions).demand >= f.demand
    decreases |actions|
  {
    if actions != [] {
      DemandGrows(f, actions[0]);
      DemandGrowsOverRuns(Apply(f, actions[0]), actions[1..]);
    }
  }

  lemma {:induction false} RunOk(f: Flow, actions: seq<Action>)
    requires DemandOk(f) && IsRun(f, actions) && After(f, actions).demand < INFINITE
    ensures DemandOk(After(f, actions))
    ensures FlowOk(f) && WellBehaved(actions) ==> FlowOk(After(f, actions))
    decreases |actions|
  {
    hide Apply, Enabled, DemandOk, FlowOk;
    if actions != [] {
      var g := Apply(f, actions[0]);
      DemandGrowsOverRuns(g, actions[1..]);
      StepDemandOk(f, actions[0]);
      if FlowOk(f) && WellBehaved(actions) {
        StepFlowOk(f, actions[0]);
        assert WellBehaved(actions[1..]);
      }
      RunOk(g, actions[1..]);
    }
  }

  lemma InitConsumerOk(mode: Mode)
    ensures ConsumerOk(Init(mode)) && StartsBy(Init(mode))
  {
    NothingTold(Init(mode));
  }

  lemma InitPublisherOk(mode: Mode)
    ensures InOrder(Init(mode)) && PublisherOk(Init(mode)) && Progressing(Init(mode))
  {
  }

  lemma InitOk(mode: Mode)
    ensures DemandOk(Init(mode)) && FlowOk(Init(mode))
  {
    hide Init, ConsumerOk, InOrder, StartsBy, PublisherOk, Progressing;
    InitConsumerOk(mode);
    InitPublisherOk(mode);
  }

  lemma NothingTold(f: Flow)
    requires f.wire == [] && Arrived(f) == 0
    ensures Told(f) == 0
  {
  }

  lemma RunFromInit(mode: Mode, actions: seq<Action>)
    requires IsRun(Init(mode), actions) && After(Init(mode), actions).demand < INFINITE
    ensures DemandOk(After(Init(mode), actions))
    ensures WellBehaved(actions) ==> FlowOk(After(Init(mode), actions))
  {
    hide *;
    InitOk(mode);
    RunOk(Init(mode), actions);
  }

  lemma OwedHasCredit(f: Flow)
    requires FlowOk(f) && f.consumer.pending > 0
    ensures Told(f) > f.delivered
    ensures Total(f.wire) > 0 || f.inFlight > 0 || PublisherHasCredit(f)
  {
  }

  predicate PublisherHasCredit(f: Flow) {
    f.publisher.Some? && (f.publisher.value.initialRequestN > 0 || f.produced < f.publisher.value.granted)
  }

  predicate Quiet(f: Flow) {
    && f.started && f.wire == [] && f.inFlight == 0
    && f.publisher.Some? && f.publisher.value.subscribed && f.produced == f.publisher.value.granted
  }

  lemma QuietIsSatisfied(f: Flow)
    requires FlowOk(f) && Quiet(f)
    ensures f.delivered == f.demand
  {
    assert Total([]) == 0;
  }

  // ---- The theorems ----

  /** Over every run, while the total demand is finite and whatever the responder does: the credit told plus the credit
      still owed is the total demand, the allowance is the demand less what was delivered, and every credit frame is one
      that the wire can carry. */
  lemma CreditIsConserved(mode: Mode, actions: seq<Action>)
    requires IsRun(Init(mode), actions) && After(Init(mode), actions).demand < INFINITE
    ensures var f := After(Init(mode), actions);
      && (f.started ==> Told(f) + f.consumer.pending == f.demand)
      && (f.started ==> f.consumer.allowance == f.demand - f.delivered)
      && f.delivered <= f.demand
      && forall c | c in f.wire :: Carried(c)
  {
    hide After, IsRun, WellBehaved, Told, InOrder;
    RunFromInit(mode, actions);
  }

  /** The next payload is a flow-control error exactly if everything asked for has been delivered. */
  lemma SurplusIsCaughtIff(mode: Mode, actions: seq<Action>)
    requires IsRun(Init(mode), actions) && After(Init(mode), actions).demand < INFINITE
    requires Enabled(After(Init(mode), actions), PayloadArrives)
    ensures var f := After(Init(mode), actions);
      Apply(f, PayloadArrives).failed <==> f.delivered == f.demand
  {
    hide After, IsRun, WellBehaved, Apply, Enabled, ConsumerOk, InOrder, StartsBy;
    RunFromInit(mode, actions);
    PayloadArrivesOk(After(Init(mode), actions));
  }

  /** A responder that stays within its credit never causes a flow-control error. */
  lemma WellBehavedNeverFails(mode: Mode, actions: seq<Action>)
    requires IsRun(Init(mode), actions) && WellBehaved(actions) && After(Init(mode), actions).demand < INFINITE
    ensures var f := After(Init(mode), actions);
      !f.failed && f.produced <= f.demand && f.delivered + f.inFlight == f.produced
  {
    hide *;
    RunFromInit(mode, actions);
    FlowOkStaysInDemand(After(Init(mode), actions));
  }

  lemma FlowOkStaysInDemand(f: Flow)
    requires FlowOk(f)
    ensures !f.failed && f.produced <= f.demand && f.delivered + f.inFlight == f.produced
  {
  }

  /** No deadlock: while credit is owed, more has been told than delivered, and so there is credit on the wire, credit
      that the other side has not used, waiting for a subscription or granted to its publisher, or a payload under way.
      */
  lemma OwedCreditIsFollowedByPayloads(mode: Mode, actions: seq<Action>)
    requires IsRun(Init(mode), actions) && WellBehaved(actions) && After(Init(mode), actions).demand < INFINITE
    ensures var f := After(Init(mode), actions);
      f.consumer.pending > 0 ==>
        Told(f) > f.delivered && (Total(f.wire) > 0 || f.inFlight > 0 || PublisherHasCredit(f))
  {
    hide *;
    RunFromInit(mode, actions);
    if After(Init(mode), actions).consumer.pending > 0 {
      OwedHasCredit(After(Init(mode), actions));
    }
  }

  /** When nothing is under way and the publisher has used all its credit, the subscriber has everything it asked for.
      */
  lemma QuietMeansSatisfied(mode: Mode, actions: seq<Action>)
    requires IsRun(Init(mode), actions) && WellBehaved(actions) && After(Init(mode), actions).demand < INFINITE
    ensures var f := After(Init(mode), actions);
      Quiet(f) ==> f.delivered == f.demand
  {
    hide *;
    RunFromInit(mode, actions);
    if Quiet(After(Init(mode), actions)) {
      QuietIsSatisfied(After(Init(mode), actions));
    }
  }

  /** The consuming side writes a count that fits a REQUEST_N frame exactly while the credit it owes is finite: once it
      has saturated, the limit of the drain is ignored. */
  lemma RequestIsCarriedIffFinite(c: Consumer)
    requires c.pending > 0
    ensures |SendRequests(c).requests| == 1
    ensures Carried(More(SendRequests(c).requests[0])) <==> c.pending < INFINITE
  {
    if c.pending < INFINITE {
      SendRequestsOk(c);
    }
  }

  /** The first request of a stream is told to the other side, or stays owed, in full exactly if it is not negative: a
      negative one is a huge allowance on this side, and its low 32 bits in the opening frame. */
  lemma FirstRequestIsToldIff(n: Count)
    requires n != 0
    ensures var f := Request(Init(STREAM), n);
      && f.consumer.allowance == AsSize(n)
      && (Told(f) + f.consumer.pending == AsSize(n) <==> n >= 0)
  {
    ReleaseSaturates(0, InitialPart(n));
    if n > 0 {
      InitOk(STREAM);
      RequestOk(Init(STREAM), n);
    } else {
      var f := Request(Init(STREAM), n);
      assert f.wire == [Start(AsSize(n) % 0x1_0000_0000)] && f.wire[1..] == [] && Total([]) == 0;
    }
  }

  /** It takes three requests to get there: the count that is written then reads as -1 on the other side, and the same
      credit stays owed. */
  lemma UnlimitedDemandBreaksRequestN()
    ensures var largest: Count := 0x7FFF_FFFF_FFFF_FFFF;
      var f := Request(Request(Request(Init(CHANNEL_BACK), largest), largest), largest);
      && f.demand >= INFINITE
      && f.wire[|f.wire| - 1] == More(0xFFFF_FFFF)
      && f.consumer.pending == INFINITE
  {
  }
}
