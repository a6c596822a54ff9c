/** Subscriptions and tenant plans under Stripe webhooks and API calls, handled one at a time. */
module Billing {
  import opened Basics

  datatype Sub = Sub(tenant: string, plan: string, status: string, stripeId: Option<string>, customer: Option<string>,
                     seats: int, cancelAtEnd: bool, start: Option<int>, end: Option<int>)

  /** `plans` holds the plan of every tenant row. A subscription row of another tenant breaks its foreign key. */
  datatype State = State(subs: seq<Sub>, plans: map<string, string>)

  /** The billing period in Stripe's answer; absent when Stripe has no such subscription. */
  datatype Period = Period(start: Option<int>, end: Option<int>)

  /** Empty strings stand for missing fields. */
  datatype Event =
    | CheckoutCompleted(tenant: string, plan: string, customerId: Option<string>, stripeId: string,
                        period: Option<Period>, now: int)
    | PaymentSucceeded(customer: string)
    | PaymentFailed(customer: string)
    | SubscriptionUpdated(stripeId: string, status: Option<string>, cancelAtEnd: bool,
                          start: Option<int>, end: Option<int>, plan: string)
    | SubscriptionDeleted(stripeId: string)
    | OtherEvent

  /** API calls, with what Stripe answered, and how many admins the tenant has. */
  datatype Call =
    | ChangePlan(tenant: string, plan: string, accepted: bool)
    | Cancel(tenant: string, atPeriodEnd: bool, accepted: bool)
    | EnsureCustomer(tenant: string, admins: nat, created: Option<string>)

  // ---------------------------------------------------------------- queries

  datatype Query = ByTenant(tenant: string) | ByCustomer(customer: string) | ByStripeId(stripeId: string)

  /** Looking for one row: none, one, or several, which raises. */
  datatype Found = Missing | One(index: nat) | Several

  predicate Matches(q: Query, row: Sub) {
    match q
    case ByTenant(t) => row.tenant == t
    case ByCustomer(c) => row.customer == Some(c)
    case ByStripeId(s) => row.stripeId == Some(s)
  }

  function Find(rows: seq<Sub>, q: Query): (f: Found)
    ensures f.Missing? <==> forall i :: 0 <= i < |rows| ==> !Matches(q, rows[i])
    ensures f.One? ==> f.index < |rows| && Matches(q, rows[f.index])
                       && forall i :: 0 <= i < |rows| && i != f.index ==> !Matches(q, rows[i])
    ensures f.Several? ==> exists i, j :: 0 <= i < j < |rows| && Matches(q, rows[i]) && Matches(q, rows[j])
  {
    if rows == [] then Missing
    else
      var n := |rows| - 1;
      var f := Find(rows[..n], q);
      if !Matches(q, rows[n]) then
        assert f.Several? ==> exists i, j :: 0 <= i < j < |rows[..n]| && Matches(q, rows[i]) && Matches(q, rows[j]);
        f
      else if f.Missing? then One(n)
      else
        assert f.One? ==> Matches(q, rows[f.index]);
        Several
  }

  function SeatsOf(plan: string): int {
    if plan == "free" then 3 else if plan == "starter" then 10 else if plan == "professional" then 25
    else if plan == "enterprise" then -1 else 5
  }

  // ---------------------------------------------------------------- specification

  function SetPlan(plans: map<string, string>, tenant: string, plan: string): map<string, string> {
    if tenant in plans then plans[tenant := plan] else plans
  }

  function Activated(row: Sub, e: Event): Sub
    requires e.CheckoutCompleted?
  {
    row.(plan := e.plan, status := "active", stripeId := Some(e.stripeId), customer := e.customerId,
         cancelAtEnd := false,
         start := if e.period.Some? then e.period.value.start else row.start,
         end := if e.period.Some? then e.period.value.end else row.end)
  }

  function NewSub(e: Event): Sub
    requires e.CheckoutCompleted?
  {
    Sub(e.tenant, e.plan, "active", Some(e.stripeId), e.customerId, SeatsOf(e.plan), false,
        if e.period.Some? then e.period.value.start else Some(e.now),
        if e.period.Some? then e.period.value.end else Some(e.now))
  }

  function Checkout(s: State, e: Event): State
    requires e.CheckoutCompleted?
  {
    if e.tenant == "" || e.stripeId == "" then s
    else
      match Find(s.subs, ByTenant(e.tenant))
      case Several => s
      case One(i) => State(s.subs[i := Activated(s.subs[i], e)], SetPlan(s.plans, e.tenant, e.plan))
      case Missing =>
        if e.tenant in s.plans then State(s.subs + [NewSub(e)], SetPlan(s.plans, e.tenant, e.plan)) else s
  }

  function SetStatus(s: State, customer: string, status: string): State {
    if customer == "" then s
    else
      match Find(s.subs, ByCustomer(customer))
      case One(i) => s.(subs := s.subs[i := s.subs[i].(status := status)])
      case _ => s
  }

  function Updated(row: Sub, e: Event): Sub
    requires e.SubscriptionUpdated?
  {
    row.(status := if e.status.Some? then e.status.value else row.status,
         cancelAtEnd := e.cancelAtEnd,
         start := if e.start.Some? then e.start else row.start,
         end := if e.end.Some? then e.end else row.end,
         plan := if e.plan != "" then e.plan else row.plan)
  }

  function Update(s: State, e: Event): State
    requires e.SubscriptionUpdated?
  {
    if e.stripeId == "" then s
    else
      match Find(s.subs, ByStripeId(e.stripeId))
      case One(i) =>
        State(s.subs[i := Updated(s.subs[i], e)],
              if e.plan != "" && e.plan != s.subs[i].plan then SetPlan(s.plans, s.subs[i].tenant, e.plan) else s.plans)
      case _ => s
  }

  function Delete(s: State, stripeId: string): State {
    if stripeId == "" then s
    else
      match Find(s.subs, ByStripeId(stripeId))
      case One(i) => State(s.subs[i := s.subs[i].(status := "canceled")], SetPlan(s.plans, s.subs[i].tenant, "free"))
      case _ => s
  }

  /** One webhook; a handler that raises is rolled back. */
  function Handle(s: State, e: Event): State {
    match e
    case CheckoutCompleted(_, _, _, _, _, _) => Checkout(s, e)
    case PaymentSucceeded(customer) => SetStatus(s, customer, "active")
    case PaymentFailed(customer) => SetStatus(s, customer, "past_due")
    case SubscriptionUpdated(_, _, _, _, _, _) => Update(s, e)
    case SubscriptionDeleted(stripeId) => Delete(s, stripeId)
    case OtherEvent => s
  }

  predicate Truthy(text: Option<string>) { text.Some? && text.value != "" }

  /** One API call; a call that raises is rolled back. */
  function Serve(s: State, c: Call): State {
    match Find(s.subs, ByTenant(c.tenant))
    case Several => s
    case Missing =>
      if c.EnsureCustomer? && c.admins <= 1 && Truthy(c.created) && c.tenant in s.plans
      then s.(subs := s.subs + [Sub(c.tenant, "free", "active", None, c.created, 3, false, None, None)])
      else s
    case One(i) =>
      var row := s.subs[i];
      match c
      case ChangePlan(tenant, plan, accepted) =>
        if Truthy(row.stripeId) && accepted && tenant in s.plans
        then State(s.subs[i := row.(plan := plan)], s.plans[tenant := plan]) else s
      case Cancel(_, atPeriodEnd, accepted) =>
        if Truthy(row.stripeId) && accepted
        then s.(subs := s.subs[i := row.(cancelAtEnd := atPeriodEnd,
                                         status := if atPeriodEnd then row.status else "canceled")]) else s
      case EnsureCustomer(_, admins, created) =>
        if !Truthy(row.customer) && admins <= 1 && Truthy(created)
        then s.(subs := s.subs[i := row.(customer := created)]) else s
  }

  /** What the caller of an API call is told. */
  datatype Answer = Done | NoSubscription | NoTenant | StripeFailed | SeveralRows

  function AnswerTo(s: State, c: Call): Answer {
    var f := Find(s.subs, ByTenant(c.tenant));
    if f.Several? then SeveralRows
    else
      match c
      case ChangePlan(tenant, _, accepted) =>
        if f.Missing? || !Truthy(s.subs[f.index].stripeId) then NoSubscription
        else if accepted && tenant !in s.plans then NoTenant
        else Done
      case Cancel(_, _, _) => if f.Missing? || !Truthy(s.subs[f.index].stripeId) then NoSubscription else Done
      case EnsureCustomer(_, admins, created) =>
        if f.One? && Truthy(s.subs[f.index].customer) then Done
        else if admins > 1 then SeveralRows
        else if !Truthy(created) then StripeFailed
        else if f.Missing? && c.tenant !in s.plans then NoTenant
        else Done
  }

  /** A call that raises changes nothing; a customer that is answered is stored. */
  lemma AnswersHonest(s: State, c: Call)
    ensures !AnswerTo(s, c).Done? ==> Serve(s, c) == s
    ensures c.EnsureCustomer? && AnswerTo(s, c).Done? ==>
              exists i :: 0 <= i < |Serve(s, c).subs| && Serve(s, c).subs[i].tenant == c.tenant
                          && Truthy(Serve(s, c).subs[i].customer)
  {
    var f := Find(s.subs, ByTenant(c.tenant));
    if c.EnsureCustomer? && AnswerTo(s, c).Done? {
      var i := if f.One? then f.index else |s.subs|;
      assert Serve(s, c).subs[i].tenant == c.tenant && Truthy(Serve(s, c).subs[i].customer);
    }
  }

  /** Row `i` and its tenant are on the plan. */
  predicate OnPlan(s: State, i: nat, plan: string) {
    i < |s.subs| && s.subs[i].plan == plan && s.subs[i].tenant in s.plans && s.plans[s.subs[i].tenant] == plan
  }

  /** Row `i` is canceled, or will be at the end of its period. */
  predicate IsCanceled(s: State, i: nat, atPeriodEnd: bool) {
    i < |s.subs| && s.subs[i].cancelAtEnd == atPeriodEnd && (!atPeriodEnd ==> s.subs[i].status == "canceled")
  }

  /**
   * A plan change answered with "updated" leaves row and tenant on the plan if and only if Stripe
   * accepted it or both were there already; a cancellation answered with "canceled" leaves the
   * row canceled if and only if Stripe accepted it or it was so already.
   */
  lemma DoneMeansDoneIff(s: State, c: Call)
    requires (c.ChangePlan? || c.Cancel?) && AnswerTo(s, c).Done?
    ensures var f := Find(s.subs, ByTenant(c.tenant));
            && f.One?
            && (c.ChangePlan? ==>
                  (OnPlan(Serve(s, c), f.index, c.plan) <==> c.accepted || OnPlan(s, f.index, c.plan)))
            && (c.Cancel? ==>
                  (IsCanceled(Serve(s, c), f.index, c.atPeriodEnd)
                   <==> c.accepted || IsCanceled(s, f.index, c.atPeriodEnd)))
  {
  }

  // ---------------------------------------------------------------- the service itself

  class BillingService {
    var subs: seq<Sub>
    var plans: map<string, string>

    ghost function Contents(): State
      reads this
    {
      State(subs, plans)
    }

    method OnCheckoutCompleted(e: Event)
      requires e.CheckoutCompleted?
      modifies this
      ensures Contents() == Checkout(old(Contents()), e)
    {
      if e.tenant == "" || e.stripeId == "" { return; }
      var existing := Find(subs, ByTenant(e.tenant));
      if existing.Several? { return; }
      if existing.One? {
        var row := subs[existing.index];
        row := row.(plan := e.plan, status := "active");
        row := row.(stripeId := Some(e.stripeId), customer := e.customerId, cancelAtEnd := false);
        if e.period.Some? { row := row.(start := e.period.value.start, end := e.period.value.end); }
        subs := subs[existing.index := row];
      } else {
        if e.tenant !in plans { return; }
        subs := subs + [NewSub(e)];
      }
      if e.tenant in plans { plans := plans[e.tenant := e.plan]; }
    }

    method OnPayment(customer: string, status: string)
      modifies this`subs
      ensures Contents() == SetStatus(old(Contents()), customer, status)
    {
      if customer == "" { return; }
      var sub := Find(subs, ByCustomer(customer));
      if sub.One? { subs := subs[sub.index := subs[sub.index].(status := status)]; }
    }

    method OnSubscriptionUpdated(e: Event)
      requires e.SubscriptionUpdated?
      modifies this
      ensures Contents() == Update(old(Contents()), e)
    {
      if e.stripeId == "" { return; }
      var sub := Find(subs, ByStripeId(e.stripeId));
      if !sub.One? { return; }
      var row := subs[sub.index];
      if e.status.Some? { row := row.(status := e.status.value); }
      row := row.(cancelAtEnd := e.cancelAtEnd);
      if e.start.Some? { row := row.(start := e.start); }
      if e.end.Some? { row := row.(end := e.end); }
      if e.plan != "" && e.plan != row.plan {
        row := row.(plan := e.plan);
        if row.tenant in plans { plans := plans[row.tenant := e.plan]; }
      }
      subs := subs[sub.index := row];
    }

    method OnSubscriptionDeleted(stripeId: string)
      modifies this
      ensures Contents() == Delete(old(Contents()), stripeId)
    {
      if stripeId == "" { return; }
      var sub := Find(subs, ByStripeId(stripeId));
      if !sub.One? { return; }
      var row := subs[sub.index];
      subs := subs[sub.index := row.(status := "canceled")];
      if row.tenant in plans { plans := plans[row.tenant := "free"]; }
    }

    method HandleWebhook(e: Event)
      modifies this
      ensures Contents() == Handle(old(Contents()), e)
    {
      match e
      case CheckoutCompleted(_, _, _, _, _, _) => OnCheckoutCompleted(e);
      case PaymentSucceeded(customer) => OnPayment(customer, "active");
      case PaymentFailed(customer) => OnPayment(customer, "past_due");
      case SubscriptionUpdated(_, _, _, _, _, _) => OnSubscriptionUpdated(e);
      case SubscriptionDeleted(stripeId) => OnSubscriptionDeleted(stripeId);
      case OtherEvent =>
    }

    method ServeCall(c: Call) returns (answer: Answer)
      modifies this
      ensures Contents() == Serve(old(Contents()), c)
      ensures answer == AnswerTo(old(Contents()), c)
    {
      answer := Done;
      var sub := Find(subs, ByTenant(c.tenant));
      if sub.Several? { return SeveralRows; }
      match c
      case ChangePlan(tenant, plan, accepted) =>
        if sub.Missing? || !Truthy(subs[sub.index].stripeId) { return NoSubscription; }
        if accepted {
          if tenant !in plans { return NoTenant; }
          subs := subs[sub.index := subs[sub.index].(plan := plan)];
          plans := plans[tenant := plan];
        }
      case Cancel(_, atPeriodEnd, accepted) =>
        if sub.Missing? || !Truthy(subs[sub.index].stripeId) { return NoSubscription; }
        if accepted {
          var row := subs[sub.index].(cancelAtEnd := atPeriodEnd);
          if !atPeriodEnd { row := row.(status := "canceled"); }
          subs := subs[sub.index := row];
        }
      case EnsureCustomer(tenant, admins, created) =>
        if sub.One? && Truthy(subs[sub.index].customer) { return; }
        if admins > 1 { return SeveralRows; }
        if !Truthy(created) { return StripeFailed; }
        if sub.One? {
          subs := subs[sub.index := subs[sub.index].(customer := created)];
        } else {
          if tenant !in plans { return NoTenant; }
          subs := subs + [Sub(tenant, "free", "active", None, created, 3, false, None, None)];
        }
    }
  }

  // ---------------------------------------------------------------- replay

  /** The same webhook, delivered again at another time, when Stripe may answer otherwise. */
  function Again(e: Event, now: int, period: Option<Period>): Event {
    if e.CheckoutCompleted? then e.(now := now, period := period) else e
  }

  /** The webhook with Stripe's later answer, if there is one. */
  function Latest(e: Event, period: Option<Period>): Event {
    if e.CheckoutCompleted? && period.Some? then e.(period := period) else e
  }

  lemma FindAgain(rows: seq<Sub>, q: Query, i: nat)
    requires i < |rows| && Matches(q, rows[i])
    requires forall j :: 0 <= j < |rows| && j != i ==> !Matches(q, rows[j])
    ensures Find(rows, q) == One(i)
  {
  }

  /** A second checkout leaves what one with its answer from Stripe would have. */
  lemma CheckoutTwice(s: State, paid: State, e: Event, i: nat, row: Sub, now: int, period: Option<Period>)
    requires e.CheckoutCompleted? && e.tenant != "" && e.stripeId != ""
    requires Find(paid.subs, ByTenant(e.tenant)) == One(i)
    requires paid.plans == SetPlan(s.plans, e.tenant, e.plan)
    requires Activated(paid.subs[i], Again(e, now, period)) == row
    ensures Checkout(paid, Again(e, now, period)) == State(paid.subs[i := row], paid.plans)
  {
  }

  lemma CheckoutReplay(s: State, e: Event, now: int, period: Option<Period>)
    requires e.CheckoutCompleted?
    ensures Checkout(Checkout(s, e), Again(e, now, period)) == Checkout(s, Latest(e, period))
  {
    if e.tenant != "" && e.stripeId != "" {
      var paid, e' := Checkout(s, e), Latest(e, period);
      match Find(s.subs, ByTenant(e.tenant))
      case Several =>
      case One(i) =>
        FindAgain(paid.subs, ByTenant(e.tenant), i);
        CheckoutTwice(s, paid, e, i, Activated(s.subs[i], e'), now, period);
        assert paid.subs[i := Activated(s.subs[i], e')] == s.subs[i := Activated(s.subs[i], e')];
      case Missing =>
        if e.tenant in s.plans {
          FindAgain(paid.subs, ByTenant(e.tenant), |s.subs|);
          CheckoutTwice(s, paid, e, |s.subs|, NewSub(e'), now, period);
          assert paid.subs[|s.subs| := NewSub(e')] == s.subs + [NewSub(e')];
        }
    }
  }

  lemma UpdateReplay(s: State, e: Event)
    requires e.SubscriptionUpdated?
    ensures Update(Update(s, e), e) == Update(s, e)
  {
  }

  lemma StatusReplay(s: State, customer: string, status: string)
    ensures SetStatus(SetStatus(s, customer, status), customer, status) == SetStatus(s, customer, status)
  {
  }

  lemma DeleteReplay(s: State, stripeId: string)
    ensures Delete(Delete(s, stripeId), stripeId) == Delete(s, stripeId)
  {
  }

  /**
   * Delivering a webhook twice in succession, the second time at any other time and with any other
   * answer of Stripe to the question that a checkout asks, leaves rows and plans as delivering it
   * once with the second answer, or with the first if Stripe gave none the second time: for every
   * event and every state, even one with several rows.
   */
  lemma WebhookReplay(s: State, e: Event, now: int, period: Option<Period>)
    ensures Handle(Handle(s, e), Again(e, now, period)) == Handle(s, Latest(e, period))
  {
    match e
    case CheckoutCompleted(_, _, _, _, _, _) => CheckoutReplay(s, e, now, period);
    case PaymentSucceeded(customer) => StatusReplay(s, customer, "active");
    case PaymentFailed(customer) => StatusReplay(s, customer, "past_due");
    case SubscriptionUpdated(_, _, _, _, _, _) => UpdateReplay(s, e);
    case SubscriptionDeleted(stripeId) => DeleteReplay(s, stripeId);
    case OtherEvent =>
  }

  // ---------------------------------------------------------------- consistency over runs

  datatype Input = Webhook(event: Event) | Api(call: Call)

  function Step(s: State, i: Input): State {
    match i
    case Webhook(e) => Handle(s, e)
    case Api(c) => Serve(s, c)
  }

  function Run(s: State, inputs: seq<Input>): State
    decreases inputs
  {
    if inputs == [] then s else Run(Step(s, inputs[0]), inputs[1..])
  }

  /** Stripe gives every customer and every subscription to one tenant. */
  datatype Owners = Owners(ofCustomer: string -> string, ofStripeId: string -> string)

  ghost predicate Owned(o: Owners, i: Input) {
    match i
    case Webhook(CheckoutCompleted(tenant, _, customer, stripeId, _, _)) =>
      o.ofStripeId(stripeId) == tenant && (customer.Some? ==> o.ofCustomer(customer.value) == tenant)
    case Api(EnsureCustomer(tenant, _, created)) => created.Some? ==> o.ofCustomer(created.value) == tenant
    case _ => true
  }

  ghost predicate RowOwned(o: Owners, row: Sub) {
    && (row.stripeId.Some? ==> o.ofStripeId(row.stripeId.value) == row.tenant)
    && (row.customer.Some? ==> o.ofCustomer(row.customer.value) == row.tenant)
  }

  ghost predicate OneRowEach(subs: seq<Sub>) {
    forall i, j :: 0 <= i < j < |subs| ==> subs[i].tenant != subs[j].tenant
  }

  /** A tenant's plan is its row's plan or "free"; without a row it is "free". */
  ghost predicate PlanOk(s: State, t: string) {
    t in s.plans && s.plans[t] != "free" ==>
      exists i :: 0 <= i < |s.subs| && s.subs[i].tenant == t && s.subs[i].plan == s.plans[t]
  }

  ghost predicate Consistent(o: Owners, s: State) {
    && OneRowEach(s.subs)
    && (forall i :: 0 <= i < |s.subs| ==> RowOwned(o, s.subs[i]) && s.subs[i].tenant in s.plans)
    && (forall t :: PlanOk(s, t))
  }

  /** In a consistent state every query finds at most one row. */
  lemma NeverSeveral(o: Owners, s: State, q: Query)
    requires Consistent(o, s)
    ensures !Find(s.subs, q).Several?
  {
  }

  /** Changing row `i` and its tenant's plan together keeps consistency. */
  lemma ChangedRow(o: Owners, s: State, i: nat, row: Sub, plans: map<string, string>)
    requires Consistent(o, s) && i < |s.subs| && row.tenant == s.subs[i].tenant && RowOwned(o, row)
    requires plans.Keys == s.plans.Keys
    requires forall t :: t in plans && t != row.tenant ==> plans[t] == s.plans[t]
    requires row.tenant in plans ==> plans[row.tenant] == "free" || plans[row.tenant] == row.plan
    ensures Consistent(o, State(s.subs[i := row], plans))
  {
    var s' := State(s.subs[i := row], plans);
    forall t ensures PlanOk(s', t) {
      assert PlanOk(s, t);
      if t in s'.plans && s'.plans[t] != "free" {
        if t == row.tenant {
          assert s'.subs[i].plan == s'.plans[t];
        } else {
          var j :| 0 <= j < |s.subs| && s.subs[j].tenant == t && s.subs[j].plan == s.plans[t];
          assert s'.subs[j] == s.subs[j];
        }
      }
    }
  }

  lemma AddedRow(o: Owners, s: State, row: Sub, plans: map<string, string>)
    requires Consistent(o, s) && RowOwned(o, row) && Find(s.subs, ByTenant(row.tenant)).Missing?
    requires row.tenant in plans && plans.Keys == s.plans.Keys
    requires forall t :: t in plans && t != row.tenant ==> plans[t] == s.plans[t]
    requires plans[row.tenant] == "free" || plans[row.tenant] == row.plan
    ensures Consistent(o, State(s.subs + [row], plans))
  {
    var s' := State(s.subs + [row], plans);
    assert forall i :: 0 <= i < |s.subs| ==> !Matches(ByTenant(row.tenant), s.subs[i]);
    assert s'.subs[|s.subs|] == row;
    forall t ensures PlanOk(s', t) {
      assert PlanOk(s, t);
      if t in s'.plans && s'.plans[t] != "free" && t != row.tenant {
        var j :| 0 <= j < |s.subs| && s.subs[j].tenant == t && s.subs[j].plan == s.plans[t];
        assert s'.subs[j] == s.subs[j];
      }
    }
  }

  /** The plan of a tenant, as its own row sees it. */
  lemma OwnPlan(o: Owners, s: State, i: nat)
    requires Consistent(o, s) && i < |s.subs| && s.subs[i].tenant in s.plans
    ensures s.plans[s.subs[i].tenant] == "free" || s.plans[s.subs[i].tenant] == s.subs[i].plan
  {
    var t := s.subs[i].tenant;
    assert PlanOk(s, t);
    if s.plans[t] != "free" {
      var j :| 0 <= j < |s.subs| && s.subs[j].tenant == t && s.subs[j].plan == s.plans[t];
      assert j == i;
    }
  }

  lemma HandleConsistent(o: Owners, s: State, e: Event)
    requires Consistent(o, s) && Owned(o, Webhook(e))
    ensures Consistent(o, Handle(s, e))
  {
    var s' := Handle(s, e);
    match e
    case CheckoutCompleted(tenant, plan, _, stripeId, _, _) =>
      if tenant != "" && stripeId != "" {
        match Find(s.subs, ByTenant(tenant))
        case Several =>
        case One(i) => ChangedRow(o, s, i, Activated(s.subs[i], e), SetPlan(s.plans, tenant, plan));
        case Missing => if tenant in s.plans { AddedRow(o, s, NewSub(e), SetPlan(s.plans, tenant, plan)); }
      }
    case PaymentSucceeded(customer) => StatusConsistent(o, s, customer, "active");
    case PaymentFailed(customer) => StatusConsistent(o, s, customer, "past_due");
    case SubscriptionUpdated(stripeId, _, _, _, _, _) =>
      var f := Find(s.subs, ByStripeId(stripeId));
      if stripeId != "" && f.One? {
        assert RowOwned(o, s.subs[f.index]);
        if s.subs[f.index].tenant in s.plans { OwnPlan(o, s, f.index); }
        ChangedRow(o, s, f.index, Updated(s.subs[f.index], e), s'.plans);
      }
    case SubscriptionDeleted(stripeId) =>
      var f := Find(s.subs, ByStripeId(stripeId));
      if stripeId != "" && f.One? {
        assert RowOwned(o, s.subs[f.index]);
        ChangedRow(o, s, f.index, s.subs[f.index].(status := "canceled"), s'.plans);
      }
    case OtherEvent =>
  }

  lemma StatusConsistent(o: Owners, s: State, customer: string, status: string)
    requires Consistent(o, s)
    ensures Consistent(o, SetStatus(s, customer, status))
  {
    var f := Find(s.subs, ByCustomer(customer));
    if customer != "" && f.One? {
      assert RowOwned(o, s.subs[f.index]);
      if s.subs[f.index].tenant in s.plans { OwnPlan(o, s, f.index); }
      ChangedRow(o, s, f.index, s.subs[f.index].(status := status), s.plans);
    }
  }

  lemma ServeConsistent(o: Owners, s: State, c: Call)
    requires Consistent(o, s) && Owned(o, Api(c))
    ensures Consistent(o, Serve(s, c))
  {
    match Find(s.subs, ByTenant(c.tenant))
    case Several =>
    case Missing =>
      if c.EnsureCustomer? && c.admins <= 1 && Truthy(c.created) && c.tenant in s.plans {
        assert PlanOk(s, c.tenant);
        AddedRow(o, s, Sub(c.tenant, "free", "active", None, c.created, 3, false, None, None), s.plans);
      }
    case One(i) =>
      assert RowOwned(o, s.subs[i]);
      if s.subs[i].tenant in s.plans { OwnPlan(o, s, i); }
      if Serve(s, c) != s {
        assert Serve(s, c).subs == s.subs[i := Serve(s, c).subs[i]];
        ChangedRow(o, s, i, Serve(s, c).subs[i], Serve(s, c).plans);
      }
  }

  /**
   * From tenants on the free plan without any subscription row, in every run of webhooks and API
   * calls: no tenant has two rows, no lookup meets two rows, and every tenant's plan is its row's
   * plan or "free", and "free" without a row.
   */
  lemma {:induction false} RunConsistent(o: Owners, s: State, inputs: seq<Input>)
    requires Consistent(o, s) && forall i :: 0 <= i < |inputs| ==> Owned(o, inputs[i])
    ensures Consistent(o, Run(s, inputs))
    decreases inputs
  {
    if inputs != [] {
      assert Owned(o, inputs[0]);
      match inputs[0] {
        case Webhook(e) => HandleConsistent(o, s, e);
        case Api(c) => ServeConsistent(o, s, c);
      }
      assert forall i :: 0 <= i < |inputs[1..]| ==> inputs[1..][i] == inputs[i + 1];
      RunConsistent(o, Step(s, inputs[0]), inputs[1..]);
    }
  }

  lemma BillingConsistent(o: Owners, plans: map<string, string>, inputs: seq<Input>, q: Query)
    requires forall t :: t in plans ==> plans[t] == "free"
    requires forall i :: 0 <= i < |inputs| ==> Owned(o, inputs[i])
    ensures Consistent(o, Run(State([], plans), inputs))
    ensures !Find(Run(State([], plans), inputs).subs, q).Several?
  {
    assert Consistent(o, State([], plans)) by { assert forall t :: PlanOk(State([], plans), t); }
    RunConsistent(o, State([], plans), inputs);
    NeverSeveral(o, Run(State([], plans), inputs), q);
  }

  // ---------------------------------------------------------------- across operations

  /** In a consistent state a row is found by its tenant and by each of its Stripe ids. */
  lemma RowFound(o: Owners, s: State, i: nat)
    requires Consistent(o, s) && i < |s.subs|
    ensures Find(s.subs, ByTenant(s.subs[i].tenant)) == One(i)
    ensures s.subs[i].stripeId.Some? ==> Find(s.subs, ByStripeId(s.subs[i].stripeId.value)) == One(i)
    ensures s.subs[i].customer.Some? ==> Find(s.subs, ByCustomer(s.subs[i].customer.value)) == One(i)
  {
    assert RowOwned(o, s.subs[i]);
    forall j | 0 <= j < |s.subs| && j != i
      ensures s.subs[j].tenant != s.subs[i].tenant && RowOwned(o, s.subs[j])
    {
    }
  }

  /** After a checkout the tenant's one row is also the one row of the Stripe subscription. */
  lemma PaidRow(o: Owners, s: State, e: Event) returns (i: nat)
    requires Consistent(o, s) && Owned(o, Webhook(e))
    requires e.CheckoutCompleted? && e.tenant != "" && e.stripeId != "" && e.tenant in s.plans
    ensures var paid := Checkout(s, e);
            && Find(paid.subs, ByTenant(e.tenant)) == One(i) && Find(paid.subs, ByStripeId(e.stripeId)) == One(i)
            && paid.subs[i].tenant == e.tenant && Activated(paid.subs[i], e) == paid.subs[i]
            && paid.plans == s.plans[e.tenant := e.plan]
  {
    NeverSeveral(o, s, ByTenant(e.tenant));
    i := CheckoutRow(s, e);
    HandleConsistent(o, s, e);
    RowFound(o, Checkout(s, e), i);
  }

  /** The row that a checkout changes or adds. */
  lemma CheckoutRow(s: State, e: Event) returns (i: nat)
    requires e.CheckoutCompleted? && e.tenant != "" && e.stripeId != "" && e.tenant in s.plans
    requires !Find(s.subs, ByTenant(e.tenant)).Several?
    ensures var paid := Checkout(s, e);
            && i < |paid.subs| && paid.subs[i].tenant == e.tenant && paid.subs[i].stripeId == Some(e.stripeId)
            && Activated(paid.subs[i], e) == paid.subs[i] && paid.plans == s.plans[e.tenant := e.plan]
  {
    var f := Find(s.subs, ByTenant(e.tenant));
    i := if f.One? then f.index else |s.subs|;
  }

  /**
   * Checking out, losing the subscription and checking out again is the same as checking out:
   * in between the tenant is on the free plan with a canceled row.
   */
  lemma ResubscribeRestores(o: Owners, s: State, e: Event)
    requires Consistent(o, s) && Owned(o, Webhook(e))
    requires e.CheckoutCompleted? && e.tenant != "" && e.stripeId != "" && e.tenant in s.plans
    ensures var paid := Checkout(s, e);
            var lost := Delete(paid, e.stripeId);
            var f := Find(lost.subs, ByTenant(e.tenant));
            && paid.plans[e.tenant] == e.plan
            && lost.plans == s.plans[e.tenant := "free"]
            && f.One? && lost.subs[f.index].status == "canceled" && lost.subs[f.index].plan == e.plan
            && Checkout(lost, e) == paid
  {
    var paid := Checkout(s, e);
    var i := PaidRow(o, s, e);
    CanceledRow(paid, e, i);
  }

  lemma CanceledRow(paid: State, e: Event, i: nat)
    requires e.CheckoutCompleted? && e.tenant != "" && e.stripeId != "" && e.tenant in paid.plans
    requires Find(paid.subs, ByTenant(e.tenant)) == One(i) && Find(paid.subs, ByStripeId(e.stripeId)) == One(i)
    requires Activated(paid.subs[i], e) == paid.subs[i] && paid.plans[e.tenant] == e.plan
    ensures var lost := Delete(paid, e.stripeId);
            && lost.plans == paid.plans[e.tenant := "free"]
            && Find(lost.subs, ByTenant(e.tenant)) == One(i)
            && lost.subs[i].status == "canceled" && lost.subs[i].plan == e.plan
            && Checkout(lost, e) == paid
  {
    var lost := Delete(paid, e.stripeId);
    FindAgain(lost.subs, ByTenant(e.tenant), i);
    assert Activated(lost.subs[i], e) == paid.subs[i];
    assert lost.subs[i := paid.subs[i]] == paid.subs;
    assert lost.plans[e.tenant := e.plan] == paid.plans;
  }

  /** A plan change that Stripe refuses right after a checkout is answered with "updated", and the old plan stays. */
  lemma RefusedPlanChange(o: Owners, s: State, e: Event, plan: string)
    requires Consistent(o, s) && Owned(o, Webhook(e))
    requires e.CheckoutCompleted? && e.tenant != "" && e.stripeId != "" && e.tenant in s.plans && plan != e.plan
    ensures var paid, c := Checkout(s, e), ChangePlan(e.tenant, plan, false);
            var f := Find(paid.subs, ByTenant(e.tenant));
            && AnswerTo(paid, c) == Done && Serve(paid, c) == paid
            && f.One? && OnPlan(paid, f.index, e.plan) && !OnPlan(paid, f.index, plan)
  {
    var i := PaidRow(o, s, e);
  }

  // ---------------------------------------------------------------- when row and tenant agree

  /** The input sets the plan of row and tenant together. */
  predicate SetsPlan(s: State, i: Input, t: string) {
    match i
    case Webhook(CheckoutCompleted(tenant, _, _, stripeId, _, _)) => tenant == t && t != "" && stripeId != ""
    case Webhook(SubscriptionUpdated(stripeId, _, _, _, _, plan)) =>
      var f := Find(s.subs, ByStripeId(stripeId));
      stripeId != "" && f.One? && s.subs[f.index].tenant == t && plan != "" && plan != s.subs[f.index].plan
    case Api(ChangePlan(tenant, _, accepted)) =>
      var f := Find(s.subs, ByTenant(tenant));
      tenant == t && f.One? && Truthy(s.subs[f.index].stripeId) && accepted
    case _ => false
  }

  /** The input takes the tenant's subscription away. */
  predicate TakesAway(s: State, i: Input, t: string) {
    match i
    case Webhook(SubscriptionDeleted(stripeId)) =>
      var f := Find(s.subs, ByStripeId(stripeId));
      stripeId != "" && f.One? && s.subs[f.index].tenant == t
    case _ => false
  }

  /** The last input of the run that set the tenant's plan or took its subscription away took it away. */
  predicate LeftFree(s: State, inputs: seq<Input>, t: string, before: bool)
    decreases inputs
  {
    if inputs == [] then before
    else LeftFree(Step(s, inputs[0]), inputs[1..], t,
                  TakesAway(s, inputs[0], t) || (before && !SetsPlan(s, inputs[0], t)))
  }

  ghost predicate Agreement(s: State, t: string, leftFree: bool) {
    && t in s.plans
    && (leftFree ==> s.plans[t] == "free")
    && (!leftFree ==> forall i :: 0 <= i < |s.subs| && s.subs[i].tenant == t ==> s.subs[i].plan == s.plans[t])
  }

  lemma CheckoutAgreement(o: Owners, s: State, e: Event, t: string, leftFree: bool)
    requires Consistent(o, s) && e.CheckoutCompleted? && Agreement(s, t, leftFree)
    ensures Agreement(Checkout(s, e), t, leftFree && !SetsPlan(s, Webhook(e), t))
  {
    NeverSeveral(o, s, ByTenant(e.tenant));
  }

  lemma UpdateAgreement(o: Owners, s: State, e: Event, t: string, leftFree: bool)
    requires Consistent(o, s) && e.SubscriptionUpdated? && Agreement(s, t, leftFree)
    ensures Agreement(Update(s, e), t, leftFree && !SetsPlan(s, Webhook(e), t))
  {
  }

  lemma DeleteAgreement(o: Owners, s: State, stripeId: string, t: string, leftFree: bool)
    requires Consistent(o, s) && Agreement(s, t, leftFree)
    ensures Agreement(Delete(s, stripeId), t, TakesAway(s, Webhook(SubscriptionDeleted(stripeId)), t) || leftFree)
  {
  }

  lemma StatusAgreement(s: State, customer: string, status: string, t: string, leftFree: bool)
    requires Agreement(s, t, leftFree)
    ensures Agreement(SetStatus(s, customer, status), t, leftFree)
  {
  }

  lemma ServeAgreement(o: Owners, s: State, c: Call, t: string, leftFree: bool)
    requires Consistent(o, s) && Agreement(s, t, leftFree)
    ensures Agreement(Serve(s, c), t, leftFree && !SetsPlan(s, Api(c), t))
  {
    assert PlanOk(s, t);
    NeverSeveral(o, s, ByTenant(c.tenant));
  }

  lemma StepAgreement(o: Owners, s: State, i: Input, t: string, leftFree: bool)
    requires Consistent(o, s) && Agreement(s, t, leftFree)
    ensures Agreement(Step(s, i), t, TakesAway(s, i, t) || (leftFree && !SetsPlan(s, i, t)))
  {
    match i
    case Api(c) => ServeAgreement(o, s, c, t, leftFree);
    case Webhook(e) =>
      match e
      case CheckoutCompleted(_, _, _, _, _, _) => CheckoutAgreement(o, s, e, t, leftFree);
      case PaymentSucceeded(customer) => StatusAgreement(s, customer, "active", t, leftFree);
      case PaymentFailed(customer) => StatusAgreement(s, customer, "past_due", t, leftFree);
      case SubscriptionUpdated(_, _, _, _, _, _) => UpdateAgreement(o, s, e, t, leftFree);
      case SubscriptionDeleted(stripeId) => DeleteAgreement(o, s, stripeId, t, leftFree);
      case OtherEvent =>
  }

  lemma {:induction false} RunAgreement(o: Owners, s: State, inputs: seq<Input>, t: string, leftFree: bool)
    requires Consistent(o, s) && Agreement(s, t, leftFree)
    requires forall i :: 0 <= i < |inputs| ==> Owned(o, inputs[i])
    ensures Agreement(Run(s, inputs), t, LeftFree(s, inputs, t, leftFree))
    decreases inputs
  {
    if inputs != [] {
      var i, rest := inputs[0], inputs[1..];
      assert Owned(o, i);
      StepAgreement(o, s, i, t, leftFree);
      RunConsistent(o, s, [i]);
      assert Run(s, [i]) == Step(s, i) by { assert [i][1..] == []; }
      assert forall j :: 0 <= j < |rest| ==> rest[j] == inputs[j + 1];
      RunAgreement(o, Step(s, i), rest, t, TakesAway(s, i, t) || (leftFree && !SetsPlan(s, i, t)));
    }
  }

  /**
   * From free tenants without rows, in every run: a tenant's plan is that of its row if and only
   * if the last input that set the plan or took the subscription away set it, or the row's plan
   * is "free" itself. Whether the row is active plays no part.
   */
  lemma PlansAgreeIff(o: Owners, plans: map<string, string>, inputs: seq<Input>, t: string, i: nat)
    requires forall t :: t in plans ==> plans[t] == "free"
    requires forall i :: 0 <= i < |inputs| ==> Owned(o, inputs[i])
    requires t in plans
    ensures var s := Run(State([], plans), inputs);
            && t in s.plans
            && (i < |s.subs| && s.subs[i].tenant == t ==>
                  (s.plans[t] == s.subs[i].plan
                   <==> !LeftFree(State([], plans), inputs, t, false) || s.subs[i].plan == "free"))
  {
    assert Consistent(o, State([], plans)) by { assert forall t :: PlanOk(State([], plans), t); }
    RunAgreement(o, State([], plans), inputs, t, false);
  }

  // ---------------------------------------------------------------- one tenant alone

  /** What billing knows about one tenant: its subscription row, if any, and its plan. */
  datatype Ledger = Ledger(row: Option<Sub>, plan: string)

  predicate PaysAs(l: Ledger, customer: string) {
    customer != "" && l.row.Some? && l.row.value.customer == Some(customer)
  }

  predicate Holds(l: Ledger, stripeId: string) {
    stripeId != "" && l.row.Some? && l.row.value.stripeId == Some(stripeId)
  }

  /** An input that concerns the tenant, written into its ledger; every other input leaves it alone. */
  function Entered(l: Ledger, t: string, i: Input): Ledger {
    match i
    case Webhook(CheckoutCompleted(tenant, plan, customer, stripeId, period, now)) =>
      if tenant != t || t == "" || stripeId == "" then l
      else
        var seats := if l.row.Some? then l.row.value.seats
                     else if plan == "free" then 3 else if plan == "starter" then 10
                     else if plan == "professional" then 25 else if plan == "enterprise" then -1 else 5;
        var start := if period.Some? then period.value.start
                     else if l.row.Some? then l.row.value.start else Some(now);
        var end := if period.Some? then period.value.end else if l.row.Some? then l.row.value.end else Some(now);
        Ledger(Some(Sub(t, plan, "active", Some(stripeId), customer, seats, false, start, end)), plan)
    case Webhook(PaymentSucceeded(customer)) =>
      if PaysAs(l, customer) then l.(row := Some(l.row.value.(status := "active"))) else l
    case Webhook(PaymentFailed(customer)) =>
      if PaysAs(l, customer) then l.(row := Some(l.row.value.(status := "past_due"))) else l
    case Webhook(SubscriptionUpdated(stripeId, status, cancelAtEnd, start, end, plan)) =>
      if !Holds(l, stripeId) then l
      else
        var row := l.row.value;
        Ledger(Some(row.(status := if status.Some? then status.value else row.status, cancelAtEnd := cancelAtEnd,
                         start := if start.Some? then start else row.start, end := if end.Some? then end else row.end,
                         plan := if plan != "" then plan else row.plan)),
               if plan != "" && plan != row.plan then plan else l.plan)
    case Webhook(SubscriptionDeleted(stripeId)) =>
      if Holds(l, stripeId) then Ledger(Some(l.row.value.(status := "canceled")), "free") else l
    case Webhook(OtherEvent) => l
    case Api(ChangePlan(tenant, plan, accepted)) =>
      if tenant == t && l.row.Some? && l.row.value.stripeId.Some? && l.row.value.stripeId.value != "" && accepted
      then Ledger(Some(l.row.value.(plan := plan)), plan) else l
    case Api(Cancel(tenant, atPeriodEnd, accepted)) =>
      if tenant == t && l.row.Some? && l.row.value.stripeId.Some? && l.row.value.stripeId.value != "" && accepted
      then l.(row := Some(l.row.value.(cancelAtEnd := atPeriodEnd,
                                       status := if atPeriodEnd then l.row.value.status else "canceled"))) else l
    case Api(EnsureCustomer(tenant, admins, created)) =>
      if tenant != t || 1 < admins || created.None? || created.value == "" then l
      else if l.row.None? then l.(row := Some(Sub(t, "free", "active", None, created, 3, false, None, None)))
      else if l.row.value.customer.None? || l.row.value.customer.value == ""
      then l.(row := Some(l.row.value.(customer := created)))
      else l
  }

  function Kept(l: Ledger, t: string, inputs: seq<Input>): Ledger
    decreases inputs
  {
    if inputs == [] then l else Kept(Entered(l, t, inputs[0]), t, inputs[1..])
  }

  /** The tenant's row and plan in the whole state. */
  function LedgerOf(s: State, t: string): Ledger
    requires t in s.plans
  {
    var f := Find(s.subs, ByTenant(t));
    Ledger(if f.One? then Some(s.subs[f.index]) else None, s.plans[t])
  }

  /** Row `j` changes, and perhaps the plan of its tenant. */
  lemma ChangedLedger(o: Owners, s: State, j: nat, row: Sub, plans: map<string, string>, t: string)
    requires Consistent(o, s) && j < |s.subs| && row.tenant == s.subs[j].tenant && t in s.plans && t in plans
    ensures LedgerOf(State(s.subs[j := row], plans), t)
         == Ledger(if row.tenant == t then Some(row) else LedgerOf(s, t).row, plans[t])
  {
    var subs := s.subs[j := row];
    NeverSeveral(o, s, ByTenant(t));
    var f := Find(s.subs, ByTenant(t));
    if row.tenant == t {
      FindAgain(subs, ByTenant(t), j);
    } else if f.One? {
      FindAgain(subs, ByTenant(t), f.index);
    } else {
      assert forall i :: 0 <= i < |subs| ==> !Matches(ByTenant(t), subs[i]);
    }
  }

  lemma AddedLedger(o: Owners, s: State, row: Sub, plans: map<string, string>, t: string)
    requires Consistent(o, s) && Find(s.subs, ByTenant(row.tenant)).Missing? && t in s.plans && t in plans
    ensures LedgerOf(State(s.subs + [row], plans), t)
         == Ledger(if row.tenant == t then Some(row) else LedgerOf(s, t).row, plans[t])
  {
    var subs := s.subs + [row];
    NeverSeveral(o, s, ByTenant(t));
    var f := Find(s.subs, ByTenant(t));
    if row.tenant == t {
      FindAgain(subs, ByTenant(t), |s.subs|);
    } else if f.One? {
      FindAgain(subs, ByTenant(t), f.index);
    } else {
      assert forall i :: 0 <= i < |subs| ==> !Matches(ByTenant(t), subs[i]);
    }
  }

  /** A tenant's own row is the one that its Stripe ids find. */
  lemma LedgerFound(o: Owners, s: State, t: string, q: Query)
    requires Consistent(o, s) && t in s.plans && !q.ByTenant?
    ensures var f, row := Find(s.subs, q), LedgerOf(s, t).row;
            && (row.Some? && Matches(q, row.value) ==> f.One? && s.subs[f.index] == row.value)
            && (f.One? && s.subs[f.index].tenant == t ==> row == Some(s.subs[f.index]))
  {
    var f, g := Find(s.subs, q), Find(s.subs, ByTenant(t));
    NeverSeveral(o, s, q);
    NeverSeveral(o, s, ByTenant(t));
  }

  lemma CheckoutEntered(o: Owners, s: State, e: Event, t: string)
    requires Consistent(o, s) && e.CheckoutCompleted? && t in s.plans
    ensures t in Checkout(s, e).plans && LedgerOf(Checkout(s, e), t) == Entered(LedgerOf(s, t), t, Webhook(e))
  {
    NeverSeveral(o, s, ByTenant(e.tenant));
    if e.tenant != "" && e.stripeId != "" {
      match Find(s.subs, ByTenant(e.tenant))
      case One(i) => ChangedLedger(o, s, i, Activated(s.subs[i], e), SetPlan(s.plans, e.tenant, e.plan), t);
      case Missing => if e.tenant in s.plans { AddedLedger(o, s, NewSub(e), SetPlan(s.plans, e.tenant, e.plan), t); }
      case Several =>
    }
  }

  lemma StatusEntered(o: Owners, s: State, customer: string, status: string, t: string)
    requires Consistent(o, s) && t in s.plans
    ensures var l, s' := LedgerOf(s, t), SetStatus(s, customer, status);
            && t in s'.plans
            && LedgerOf(s', t) == if PaysAs(l, customer) then l.(row := Some(l.row.value.(status := status))) else l
  {
    var f := Find(s.subs, ByCustomer(customer));
    LedgerFound(o, s, t, ByCustomer(customer));
    if customer != "" && f.One? { ChangedLedger(o, s, f.index, s.subs[f.index].(status := status), s.plans, t); }
  }

  lemma UpdateEntered(o: Owners, s: State, e: Event, t: string)
    requires Consistent(o, s) && (e.SubscriptionUpdated? || e.SubscriptionDeleted?) && t in s.plans
    ensures t in Handle(s, e).plans && LedgerOf(Handle(s, e), t) == Entered(LedgerOf(s, t), t, Webhook(e))
  {
    var f := Find(s.subs, ByStripeId(e.stripeId));
    LedgerFound(o, s, t, ByStripeId(e.stripeId));
    if e.stripeId != "" && f.One? {
      var row := s.subs[f.index];
      ChangedLedger(o, s, f.index, if e.SubscriptionUpdated? then Updated(row, e) else row.(status := "canceled"),
                    Handle(s, e).plans, t);
    }
  }

  lemma ServeEntered(o: Owners, s: State, c: Call, t: string)
    requires Consistent(o, s) && t in s.plans
    ensures t in Serve(s, c).plans && LedgerOf(Serve(s, c), t) == Entered(LedgerOf(s, t), t, Api(c))
  {
    NeverSeveral(o, s, ByTenant(c.tenant));
    match Find(s.subs, ByTenant(c.tenant))
    case Several =>
    case Missing =>
      if Serve(s, c) != s {
        AddedLedger(o, s, Sub(c.tenant, "free", "active", None, c.created, 3, false, None, None), s.plans, t);
      }
    case One(i) =>
      ServedRow(s, c, t, i);
      ChangedLedger(o, s, i, Serve(s, c).subs[i], Serve(s, c).plans, t);
  }

  /** A call that finds row `i` changes that row alone, as the ledger of its tenant has it. */
  lemma ServedRow(s: State, c: Call, t: string, i: nat)
    requires t in s.plans && Find(s.subs, ByTenant(c.tenant)) == One(i)
    ensures var s' := Serve(s, c);
            && |s'.subs| == |s.subs| && s'.subs == s.subs[i := s'.subs[i]] && s'.subs[i].tenant == c.tenant
            && t in s'.plans
            && (c.tenant != t ==> s'.plans[t] == s.plans[t])
            && (c.tenant == t ==> Ledger(Some(s'.subs[i]), s'.plans[t])
                                  == Entered(Ledger(Some(s.subs[i]), s.plans[t]), t, Api(c)))
  {
    assert Matches(ByTenant(c.tenant), s.subs[i]);
  }

  lemma StepEntered(o: Owners, s: State, i: Input, t: string)
    requires Consistent(o, s) && t in s.plans
    ensures t in Step(s, i).plans && LedgerOf(Step(s, i), t) == Entered(LedgerOf(s, t), t, i)
  {
    match i
    case Api(c) => ServeEntered(o, s, c, t);
    case Webhook(e) =>
      match e
      case CheckoutCompleted(_, _, _, _, _, _) => CheckoutEntered(o, s, e, t);
      case PaymentSucceeded(customer) => StatusEntered(o, s, customer, "active", t);
      case PaymentFailed(customer) => StatusEntered(o, s, customer, "past_due", t);
      case SubscriptionUpdated(_, _, _, _, _, _) => UpdateEntered(o, s, e, t);
      case SubscriptionDeleted(_) => UpdateEntered(o, s, e, t);
      case OtherEvent =>
  }

  lemma {:induction false} RunKept(o: Owners, s: State, inputs: seq<Input>, t: string)
    requires Consistent(o, s) && t in s.plans && forall i :: 0 <= i < |inputs| ==> Owned(o, inputs[i])
    ensures t in Run(s, inputs).plans && LedgerOf(Run(s, inputs), t) == Kept(LedgerOf(s, t), t, inputs)
    decreases inputs
  {
    if inputs != [] {
      var i, rest := inputs[0], inputs[1..];
      assert Owned(o, i);
      StepEntered(o, s, i, t);
      match i {
        case Webhook(e) => HandleConsistent(o, s, e);
        case Api(c) => ServeConsistent(o, s, c);
      }
      assert forall j :: 0 <= j < |rest| ==> rest[j] == inputs[j + 1];
      RunKept(o, Step(s, i), rest, t);
    }
  }

  /**
   * From free tenants without rows, in every run: a tenant's row, column by column, and its plan
   * are what its own ledger says, into which only the inputs that concern it are written.
   */
  lemma TenantAlone(o: Owners, plans: map<string, string>, inputs: seq<Input>, t: string)
    requires forall t :: t in plans ==> plans[t] == "free"
    requires forall i :: 0 <= i < |inputs| ==> Owned(o, inputs[i])
    requires t in plans
    ensures t in Run(State([], plans), inputs).plans
    ensures LedgerOf(Run(State([], plans), inputs), t) == Kept(Ledger(None, "free"), t, inputs)
  {
    assert Consistent(o, State([], plans)) by { assert forall t :: PlanOk(State([], plans), t); }
    RunKept(o, State([], plans), inputs, t);
  }

  /** What a call is answered, from the ledger of its tenant. */
  lemma AnswerByLedger(o: Owners, s: State, c: Call)
    requires Consistent(o, s) && c.tenant in s.plans
    ensures var row := LedgerOf(s, c.tenant).row;
            AnswerTo(s, c) ==
              match c
              case ChangePlan(_, _, _) =>
                if row.Some? && row.value.stripeId.Some? && row.value.stripeId.value != "" then Done else NoSubscription
              case Cancel(_, _, _) =>
                if row.Some? && row.value.stripeId.Some? && row.value.stripeId.value != "" then Done else NoSubscription
              case EnsureCustomer(_, admins, created) =>
                if row.Some? && row.value.customer.Some? && row.value.customer.value != "" then Done
                else if 1 < admins then SeveralRows
                else if created.Some? && created.value != "" then Done
                else StripeFailed
  {
    NeverSeveral(o, s, ByTenant(c.tenant));
  }

  // ---------------------------------------------------------------- the status

  /** The status that an input gives to the tenant's row, if it is one that does. */
  function GivenStatus(l: Ledger, t: string, i: Input): Option<string> {
    match i
    case Webhook(CheckoutCompleted(tenant, _, _, stripeId, _, _)) =>
      if tenant == t && t != "" && stripeId != "" then Some("active") else None
    case Webhook(PaymentSucceeded(customer)) => if PaysAs(l, customer) then Some("active") else None
    case Webhook(PaymentFailed(customer)) => if PaysAs(l, customer) then Some("past_due") else None
    case Webhook(SubscriptionUpdated(stripeId, status, _, _, _, _)) => if Holds(l, stripeId) then status else None
    case Webhook(SubscriptionDeleted(stripeId)) => if Holds(l, stripeId) then Some("canceled") else None
    case Webhook(OtherEvent) => None
    case Api(ChangePlan(_, _, _)) => None
    case Api(Cancel(tenant, atPeriodEnd, accepted)) =>
      if tenant == t && accepted && !atPeriodEnd
         && l.row.Some? && l.row.value.stripeId.Some? && l.row.value.stripeId.value != ""
      then Some("canceled") else None
    case Api(EnsureCustomer(tenant, admins, created)) =>
      if tenant == t && l.row.None? && admins <= 1 && created.Some? && created.value != "" then Some("active") else None
  }

  /** The status that the last input gave that gave one. */
  function LastStatus(l: Ledger, t: string, inputs: seq<Input>, before: string): string
    decreases inputs
  {
    if inputs == [] then before
    else
      var given := GivenStatus(l, t, inputs[0]);
      LastStatus(Entered(l, t, inputs[0]), t, inputs[1..], if given.Some? then given.value else before)
  }

  lemma {:induction false} KeptStatus(l: Ledger, t: string, inputs: seq<Input>, before: string)
    requires l.row.Some? ==> l.row.value.status == before
    ensures Kept(l, t, inputs).row.Some? ==> Kept(l, t, inputs).row.value.status == LastStatus(l, t, inputs, before)
    decreases inputs
  {
    if inputs != [] {
      var given := GivenStatus(l, t, inputs[0]);
      KeptStatus(Entered(l, t, inputs[0]), t, inputs[1..], if given.Some? then given.value else before);
    }
  }

  /**
   * From free tenants without rows, in every run: the status of a row is fixed by the last input
   * that gave it one: "active" by a checkout or a payment, "past_due" by a failed payment, the
   * event's own by an update that carries one, "canceled" by a deletion or an accepted immediate
   * cancellation.
   */
  lemma StatusIsLast(o: Owners, plans: map<string, string>, inputs: seq<Input>, t: string, i: nat)
    requires forall t :: t in plans ==> plans[t] == "free"
    requires forall i :: 0 <= i < |inputs| ==> Owned(o, inputs[i])
    requires t in plans
    ensures var s := Run(State([], plans), inputs);
            i < |s.subs| && s.subs[i].tenant == t ==>
              s.subs[i].status == LastStatus(Ledger(None, "free"), t, inputs, "")
  {
    var s := Run(State([], plans), inputs);
    TenantAlone(o, plans, inputs, t);
    KeptStatus(Ledger(None, "free"), t, inputs, "");
    BillingConsistent(o, plans, inputs, ByTenant(t));
    if i < |s.subs| && s.subs[i].tenant == t { RowFound(o, s, i); }
  }

  /**
   * A payment that arrives after the subscription was deleted makes the row active again, on its
   * old plan, and leaves the tenant on the free one.
   */
  lemma ActiveYetFree(o: Owners, s: State, e: Event)
    requires Consistent(o, s) && Owned(o, Webhook(e))
    requires e.CheckoutCompleted? && e.tenant != "" && e.stripeId != "" && e.tenant in s.plans
    requires e.customerId.Some? && e.customerId.value != ""
    ensures var s' := Handle(Handle(Handle(s, e), SubscriptionDeleted(e.stripeId)),
                             PaymentSucceeded(e.customerId.value));
            var f := Find(s'.subs, ByTenant(e.tenant));
            && f.One? && s'.subs[f.index].status == "active" && s'.subs[f.index].plan == e.plan
            && s'.plans[e.tenant] == "free"
  {
    var paid := Checkout(s, e);
    var i := PaidRow(o, s, e);
    var lost := Delete(paid, e.stripeId);
    HandleConsistent(o, s, e);
    HandleConsistent(o, paid, SubscriptionDeleted(e.stripeId));
    CanceledRow(paid, e, i);
    RowFound(o, lost, i);
    StatusConsistent(o, lost, e.customerId.value, "active");
    RowFound(o, SetStatus(lost, e.customerId.value, "active"), i);
  }
}
