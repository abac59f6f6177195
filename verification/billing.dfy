/** The local subscription record and the Stripe webhook transitions over it
    (`subscriptions/models.py`, `stripe_webhook_view` in `subscriptions/views.py`), and the
    push-device upsert of `save_push_subscription_view`. Stripe's API and the database's
    failures are inputs. Statuses are the strings Stripe sends: the model field lists seven
    choices, but Django does not check choices when saving, so the record stores whatever
    status arrives. */
module Billing {
  import opened Wrappers

  // ---------------------------------------------------------------------------------------
  // Status

  /** The seven status choices of the model field. */
  const StatusChoices: seq<string> :=
    ["active", "trialing", "incomplete", "incomplete_expired", "past_due", "canceled", "unpaid"]

  const DefaultStatus: string := "incomplete"

  const PastDue: string := "past_due"

  const Canceled: string := "canceled"

  /** `is_active`: the subscription grants access while active or trialing. */
  predicate IsActive(status: string)
  {
    status in StatusChoices[..2]
  }

  /** Of the seven choices exactly the first two are active, and a record created without a
      status starts as a valid, inactive one. */
  lemma ActiveChoices()
    ensures forall s :: s in StatusChoices && IsActive(s) <==> s == "active" || s == "trialing"
    ensures DefaultStatus in StatusChoices && !IsActive(DefaultStatus)
    ensures PastDue in StatusChoices && !IsActive(PastDue)
    ensures Canceled in StatusChoices && !IsActive(Canceled)
  {
    assert StatusChoices[..2] == ["active", "trialing"];
  }

  /** One row per user; `plan` is the plan's key. Times are Unix seconds. */
  datatype Subscription = Subscription(user: nat, plan: nat, subscriptionId: string, customerId: string,
                                       status: string, periodEnd: Option<int>)

  type Store = seq<Subscription>

  /** The uniqueness the table enforces: one row per user, and unique Stripe subscription and
      customer ids. */
  predicate Unique(store: Store)
  {
    forall i, j :: 0 <= i < |store| && 0 <= j < |store| && i != j ==>
      && store[i].user != store[j].user
      && store[i].subscriptionId != store[j].subscriptionId
      && store[i].customerId != store[j].customerId
  }

  predicate StatusesValid(store: Store)
  {
    forall i :: 0 <= i < |store| ==> store[i].status in StatusChoices
  }

  /** The first subscription row of `user`: the one-to-one key the billing views look up.
      It has the shape of `AccountRules.IndexOfPk`, but it searches subscription rows by
      their user rather than locations by their key, and the billing module does not
      otherwise depend on the account rules. */
  function IndexOfUser(store: Store, user: nat): (r: Option<nat>)
    ensures r.None? <==> forall i :: 0 <= i < |store| ==> store[i].user != user
    ensures r.Some? ==> r.value < |store| && store[r.value].user == user
  {
    if |store| == 0 then None
    else if store[0].user == user then Some(0)
    else
      var rest := IndexOfUser(store[1..], user);
      assert forall i :: 0 < i < |store| ==> store[i] == store[1..][i - 1];
      if rest.None? then None else Some(rest.value + 1)
  }

  function IndexOfSubscription(store: Store, id: string): (r: Option<nat>)
    ensures r.None? <==> forall i :: 0 <= i < |store| ==> store[i].subscriptionId != id
    ensures r.Some? ==> r.value < |store| && store[r.value].subscriptionId == id
  {
    if |store| == 0 then None
    else if store[0].subscriptionId == id then Some(0)
    else
      var rest := IndexOfSubscription(store[1..], id);
      assert forall i :: 0 < i < |store| ==> store[i] == store[1..][i - 1];
      if rest.None? then None else Some(rest.value + 1)
  }

  /** Another user's row already uses one of the ids: the write violates a unique constraint. */
  predicate Clashes(store: Store, rec: Subscription)
  {
    exists i :: 0 <= i < |store| && store[i].user != rec.user
      && (store[i].subscriptionId == rec.subscriptionId || store[i].customerId == rec.customerId)
  }

  /** `update_or_create` keyed by user. */
  function Upsert(store: Store, rec: Subscription): (r: Store)
    ensures forall i :: 0 <= i < |r| ==> r[i] == rec || r[i] in store
    ensures rec in r
    ensures forall s :: s in store && s.user != rec.user ==> s in r
    ensures Unique(store) && !Clashes(store, rec) ==> Unique(r)
  {
    match IndexOfUser(store, rec.user)
    case Some(k) =>
      var r := store[k := rec];
      assert forall i :: 0 <= i < |store| && i != k ==> r[i] == store[i];
      assert r[k] == rec;
      r
    case None =>
      var r := store + [rec];
      assert forall i :: 0 <= i < |store| ==> r[i] == store[i];
      assert r[|store|] == rec;
      r
  }

  /** Replaces row `k` by `rec`, which keeps its user and ids. */
  function Overwrite(store: Store, k: nat, rec: Subscription): (r: Store)
    requires k < |store|
    requires rec.user == store[k].user && rec.subscriptionId == store[k].subscriptionId
    requires rec.customerId == store[k].customerId
    ensures |r| == |store| && r[k] == rec
    ensures forall i :: 0 <= i < |store| && i != k ==> r[i] == store[i]
    ensures Unique(store) ==> Unique(r)
  {
    store[k := rec]
  }

  // ---------------------------------------------------------------------------------------
  // Webhook

  /** What the webhook reads from an event. A missing or empty id is `None`. */
  datatype StripeEvent =
    | Unverified
    | CheckoutCompleted(clientReference: Option<nat>, customer: string, subscription: Option<string>)
    | InvoicePaid(paidSubscription: Option<string>)
    | SubscriptionChanged(id: string, newStatus: string, newPeriodEnd: Option<int>, canceledAt: Option<int>)
    | PaymentFailed(failedSubscription: Option<string>)
    | Unhandled(kind: string)

  /** A subscription as Stripe's API returns it. */
  datatype StripeSubscription = StripeSubscription(status: string, priceId: string, periodEnd: Option<int>)

  /** The Stripe lookup; `None` when the API call raises. */
  type Retrieve = string -> Option<StripeSubscription>

  datatype Response = Ok | BadRequest | ServerError

  datatype WebhookResult = WebhookResult(store: Store, response: Response)

  /** A timestamp is used only when it is truthy: present and non-zero. */
  predicate Truthy(t: Option<int>) { t.Some? && t.value != 0 }

  function Checkout(store: Store, e: StripeEvent, users: set<nat>, retrieve: Retrieve, plans: map<string, nat>): (r: WebhookResult)
    requires e.CheckoutCompleted?
    ensures r.response != Ok ==> r.store == store
    ensures r.response == BadRequest <==>
      e.clientReference.None? || e.clientReference.value !in users || e.subscription.None?
    ensures r.response == Ok ==>
      && retrieve(e.subscription.value).Some? && retrieve(e.subscription.value).value.priceId in plans
      && r.store == Upsert(store, Subscription(e.clientReference.value, plans[retrieve(e.subscription.value).value.priceId],
                                               e.subscription.value, e.customer,
                                               retrieve(e.subscription.value).value.status,
                                               retrieve(e.subscription.value).value.periodEnd))
    ensures r.response == ServerError <==>
      && e.clientReference.Some? && e.clientReference.value in users && e.subscription.Some?
      && (|| retrieve(e.subscription.value).None?
          || retrieve(e.subscription.value).value.priceId !in plans
          || Clashes(store, Subscription(e.clientReference.value, plans[retrieve(e.subscription.value).value.priceId],
                                         e.subscription.value, e.customer,
                                         retrieve(e.subscription.value).value.status,
                                         retrieve(e.subscription.value).value.periodEnd)))
  {
    if e.clientReference.None? || e.clientReference.value !in users || e.subscription.None? then
      WebhookResult(store, BadRequest)
    else
      match retrieve(e.subscription.value)
      case None => WebhookResult(store, ServerError)
      case Some(s) =>
        if s.priceId !in plans then WebhookResult(store, ServerError)
        else
          var rec := Subscription(e.clientReference.value, plans[s.priceId], e.subscription.value, e.customer,
                                  s.status, s.periodEnd);
          if Clashes(store, rec) then WebhookResult(store, ServerError)
          else WebhookResult(Upsert(store, rec), Ok)
  }

  /** `invoice.paid`: copies Stripe's current status, and its period end when truthy, into the
      row with the id. A missing id, a failed lookup or a missing row changes nothing. */
  function Renew(store: Store, id: Option<string>, retrieve: Retrieve): (r: Store)
    ensures id.None? || retrieve(id.value).None? || IndexOfSubscription(store, id.value).None? ==> r == store
    ensures id.Some? && retrieve(id.value).Some? && IndexOfSubscription(store, id.value).Some? ==>
      var k := IndexOfSubscription(store, id.value).value;
      var s := retrieve(id.value).value;
      && |r| == |store|
      && r[k] == store[k].(status := s.status, periodEnd := if Truthy(s.periodEnd) then s.periodEnd else store[k].periodEnd)
      && forall i :: 0 <= i < |store| && i != k ==> r[i] == store[i]
    ensures Unique(store) ==> Unique(r)
  {
    if id.None? then store
    else
      match retrieve(id.value)
      case None => store
      case Some(s) =>
        UpdateById(store, id.value, s.status, stored => if Truthy(s.periodEnd) then s.periodEnd else stored)
  }

  /** The period end after a `customer.subscription.updated` or `.deleted` event: the event's
      own period end when truthy; otherwise, for a cancellation, the truthy cancellation time;
      otherwise the stored one. */
  function ChangedPeriodEnd(stored: Option<int>, status: string, periodEnd: Option<int>, canceledAt: Option<int>): (r: Option<int>)
    ensures Truthy(periodEnd) ==> r == periodEnd
    ensures !Truthy(periodEnd) && status == Canceled && Truthy(canceledAt) ==> r == canceledAt
    ensures !Truthy(periodEnd) && (status != Canceled || !Truthy(canceledAt)) ==> r == stored
  {
    if Truthy(periodEnd) then periodEnd
    else if status == Canceled && Truthy(canceledAt) then canceledAt
    else stored
  }

  /** Sets one field group of the row with the given Stripe id; no row, no change. */
  function UpdateById(store: Store, id: string, status: string, periodEnd: Option<int> -> Option<int>): (r: Store)
    ensures |r| == |store|
    ensures IndexOfSubscription(store, id).None? ==> r == store
    ensures IndexOfSubscription(store, id).Some? ==>
      var k := IndexOfSubscription(store, id).value;
      && r[k] == store[k].(status := status, periodEnd := periodEnd(store[k].periodEnd))
      && forall i :: 0 <= i < |store| && i != k ==> r[i] == store[i]
    ensures Unique(store) ==> Unique(r)
  {
    match IndexOfSubscription(store, id)
    case None => store
    case Some(k) => Overwrite(store, k, store[k].(status := status, periodEnd := periodEnd(store[k].periodEnd)))
  }

  /** `stripe_webhook_view` after the event is parsed. An event that fails verification is
      refused; every handled event other than a failed checkout is acknowledged, whether or not
      a row was found. */
  function HandleEvent(store: Store, e: StripeEvent, users: set<nat>, retrieve: Retrieve, plans: map<string, nat>): (r: WebhookResult)
    ensures r.response != Ok ==> r.store == store
    ensures e.Unverified? ==> r == WebhookResult(store, BadRequest)
    ensures e.Unhandled? ==> r == WebhookResult(store, Ok)
    ensures !e.CheckoutCompleted? && !e.Unverified? ==> r.response == Ok
    ensures Unique(store) ==> Unique(r.store)
  {
    match e
    case Unverified => WebhookResult(store, BadRequest)
    case CheckoutCompleted(_, _, _) => Checkout(store, e, users, retrieve, plans)
    case InvoicePaid(id) => WebhookResult(Renew(store, id, retrieve), Ok)
    case SubscriptionChanged(id, status, periodEnd, canceledAt) =>
      WebhookResult(UpdateById(store, id, status, stored => ChangedPeriodEnd(stored, status, periodEnd, canceledAt)), Ok)
    case PaymentFailed(id) =>
      if id.None? then WebhookResult(store, Ok)
      else WebhookResult(UpdateById(store, id.value, PastDue, stored => stored), Ok)
    case Unhandled(_) => WebhookResult(store, Ok)
  }

  /** A failed payment marks the matching subscription past due and touches nothing else. */
  lemma PaymentFailedMarksPastDue(store: Store, id: string, users: set<nat>, retrieve: Retrieve, plans: map<string, nat>, k: nat)
    requires Unique(store) && k < |store| && store[k].subscriptionId == id
    ensures var r := HandleEvent(store, PaymentFailed(Some(id)), users, retrieve, plans);
      && r.response == Ok
      && r.store[k] == store[k].(status := PastDue)
      && !IsActive(r.store[k].status)
      && forall i :: 0 <= i < |store| && i != k ==> r.store[i] == store[i]
  {
    var j := IndexOfSubscription(store, id).value;
    assert j == k;
    ActiveChoices();
  }

  /** A completed checkout leaves exactly one row for the user, carrying the new ids. */
  lemma CheckoutOneRowPerUser(store: Store, e: StripeEvent, users: set<nat>, retrieve: Retrieve, plans: map<string, nat>)
    requires Unique(store) && e.CheckoutCompleted?
    requires Checkout(store, e, users, retrieve, plans).response == Ok
    ensures var r := Checkout(store, e, users, retrieve, plans).store;
      && Unique(r)
      && IndexOfUser(r, e.clientReference.value).Some?
      && r[IndexOfUser(r, e.clientReference.value).value].subscriptionId == e.subscription.value
      && r[IndexOfUser(r, e.clientReference.value).value].customerId == e.customer
  {
    var s := retrieve(e.subscription.value).value;
    var rec := Subscription(e.clientReference.value, plans[s.priceId], e.subscription.value, e.customer, s.status, s.periodEnd);
    var r := Upsert(store, rec);
    assert rec in r;
    var k := IndexOfUser(r, rec.user).value;
    assert r[k] == rec;
  }

  /** If Stripe only ever sends one of the seven statuses, every stored status stays one of them. */
  lemma StatusesStayValid(store: Store, e: StripeEvent, users: set<nat>, retrieve: Retrieve, plans: map<string, nat>)
    requires StatusesValid(store)
    requires forall id :: retrieve(id).Some? ==> retrieve(id).value.status in StatusChoices
    requires e.SubscriptionChanged? ==> e.newStatus in StatusChoices
    ensures StatusesValid(HandleEvent(store, e, users, retrieve, plans).store)
  {
    match e
    case CheckoutCompleted(_, _, _) => CheckoutStatuses(store, e, users, retrieve, plans);
    case InvoicePaid(_) => RenewStatuses(store, e, users, retrieve, plans);
    case SubscriptionChanged(_, _, _, _) => ChangeStatuses(store, e, users, retrieve, plans);
    case PaymentFailed(_) => FailureStatuses(store, e, users, retrieve, plans);
    case _ =>
  }

  /** A checkout stores the status Stripe reports for the new subscription. */
  lemma CheckoutStatuses(store: Store, e: StripeEvent, users: set<nat>, retrieve: Retrieve, plans: map<string, nat>)
    requires e.CheckoutCompleted? && StatusesValid(store)
    requires forall id :: retrieve(id).Some? ==> retrieve(id).value.status in StatusChoices
    ensures StatusesValid(HandleEvent(store, e, users, retrieve, plans).store)
  {
    var res := Checkout(store, e, users, retrieve, plans);
    assert HandleEvent(store, e, users, retrieve, plans) == res;
    if res.response == Ok {
      var r := res.store;
      forall i | 0 <= i < |r| ensures r[i].status in StatusChoices {
        if r[i] !in store {
          assert r[i].status == retrieve(e.subscription.value).value.status;
        } else {
          var j :| 0 <= j < |store| && store[j] == r[i];
        }
      }
    }
  }

  /** A renewal stores the status Stripe reports for the subscription. */
  lemma RenewStatuses(store: Store, e: StripeEvent, users: set<nat>, retrieve: Retrieve, plans: map<string, nat>)
    requires e.InvoicePaid? && StatusesValid(store)
    requires forall id :: retrieve(id).Some? ==> retrieve(id).value.status in StatusChoices
    ensures StatusesValid(HandleEvent(store, e, users, retrieve, plans).store)
  {
    var id := e.paidSubscription;
    assert HandleEvent(store, e, users, retrieve, plans).store == Renew(store, id, retrieve);
    if id.Some? && retrieve(id.value).Some? {
      var s := retrieve(id.value).value;
      UpdateStatuses(store, id.value, s.status);
      assert Renew(store, id, retrieve) == UpdateById(store, id.value, s.status, stored => if Truthy(s.periodEnd) then s.periodEnd else stored);
    }
  }

  /** An update or deletion stores the status the event carries. */
  lemma ChangeStatuses(store: Store, e: StripeEvent, users: set<nat>, retrieve: Retrieve, plans: map<string, nat>)
    requires e.SubscriptionChanged? && StatusesValid(store) && e.newStatus in StatusChoices
    ensures StatusesValid(HandleEvent(store, e, users, retrieve, plans).store)
  {
    match e
    case SubscriptionChanged(id, status, periodEnd, canceledAt) =>
      UpdateStatuses(store, id, status);
      assert HandleEvent(store, e, users, retrieve, plans).store
        == UpdateById(store, id, status, stored => ChangedPeriodEnd(stored, status, periodEnd, canceledAt));
  }

  /** A failed payment stores `past_due`, one of the choices. */
  lemma FailureStatuses(store: Store, e: StripeEvent, users: set<nat>, retrieve: Retrieve, plans: map<string, nat>)
    requires e.PaymentFailed? && StatusesValid(store)
    ensures StatusesValid(HandleEvent(store, e, users, retrieve, plans).store)
  {
    ActiveChoices();
    match e
    case PaymentFailed(id) =>
      if id.Some? {
        UpdateStatuses(store, id.value, PastDue);
        assert HandleEvent(store, e, users, retrieve, plans).store == UpdateById(store, id.value, PastDue, stored => stored);
      }
  }

  /** Setting one row's status to a valid status keeps every status valid. */
  lemma UpdateStatuses(store: Store, id: string, status: string)
    requires StatusesValid(store) && status in StatusChoices
    ensures forall periodEnd: Option<int> -> Option<int> {:trigger UpdateById(store, id, status, periodEnd)} ::
      StatusesValid(UpdateById(store, id, status, periodEnd))
  {
  }

  // ---------------------------------------------------------------------------------------
  // Push devices

  datatype Device = Device(user: nat, endpoint: string, p256dh: string, auth: string, active: bool)

  /** One member of the JSON body: absent, JSON `null`, or a string. */
  datatype Member = Absent | Null | Str(text: string)

  datatype PushKeys = PushKeys(p256dh: Member, auth: Member)

  /** The request body: not JSON, or an object with its `endpoint` and `keys` members. */
  datatype PushBody = NotJson | Body(endpoint: Member, keys: Option<PushKeys>)

  /** The view's format check: the endpoint and both keys are present, whatever their value. */
  predicate HasAllFields(b: PushBody)
  {
    b.Body? && !b.endpoint.Absent? && b.keys.Some? && !b.keys.value.p256dh.Absent? && !b.keys.value.auth.Absent?
  }

  /** Present, and a string for each of the three columns the device row stores. */
  predicate WellFormedBody(b: PushBody)
  {
    HasAllFields(b) && b.endpoint.Str? && b.keys.value.p256dh.Str? && b.keys.value.auth.Str?
  }

  /** One device per (user, endpoint). */
  predicate DevicesUnique(devices: seq<Device>)
  {
    forall i, j :: 0 <= i < |devices| && 0 <= j < |devices| && i != j ==>
      (devices[i].user, devices[i].endpoint) != (devices[j].user, devices[j].endpoint)
  }

  function IndexOfDevice(devices: seq<Device>, user: nat, endpoint: string): (r: Option<nat>)
    ensures r.None? <==> forall i :: 0 <= i < |devices| ==> (devices[i].user, devices[i].endpoint) != (user, endpoint)
    ensures r.Some? ==> r.value < |devices| && devices[r.value].user == user && devices[r.value].endpoint == endpoint
  {
    if |devices| == 0 then None
    else if devices[0].user == user && devices[0].endpoint == endpoint then Some(0)
    else
      var rest := IndexOfDevice(devices[1..], user, endpoint);
      assert forall i :: 0 < i < |devices| ==> devices[i] == devices[1..][i - 1];
      if rest.None? then None else Some(rest.value + 1)
  }

  datatype SaveResult = SaveResult(devices: seq<Device>, status: nat)

  /** `save_push_subscription_view` for a logged-in user. A body that is not JSON or lacks the
      endpoint or either key is refused with 400. A `null` value passes that check, and the
      device table's NOT NULL columns then make `update_or_create` raise inside the handler,
      so it gives 500, as does any other database failure (`dbOk` false). Otherwise the device
      keyed by (user, endpoint) is created or updated, and is active. */
  function SavePushSubscription(devices: seq<Device>, user: nat, body: PushBody, dbOk: bool): (r: SaveResult)
    ensures r.status in {200, 400, 500}
    ensures r.status == 400 <==> !HasAllFields(body)
    ensures r.status == 500 <==> HasAllFields(body) && (!WellFormedBody(body) || !dbOk)
    ensures r.status != 200 ==> r.devices == devices
    ensures r.status == 200 ==>
      && WellFormedBody(body)
      && Device(user, body.endpoint.text, body.keys.value.p256dh.text, body.keys.value.auth.text, true) in r.devices
      && (forall d :: d in devices && (d.user, d.endpoint) != (user, body.endpoint.text) ==> d in r.devices)
      && (forall d :: d in r.devices ==> d in devices || (d.user == user && d.endpoint == body.endpoint.text && d.active))
    ensures DevicesUnique(devices) ==> DevicesUnique(r.devices)
  {
    if !HasAllFields(body) then SaveResult(devices, 400)
    else if !WellFormedBody(body) || !dbOk then SaveResult(devices, 500)
    else
      var d := Device(user, body.endpoint.text, body.keys.value.p256dh.text, body.keys.value.auth.text, true);
      match IndexOfDevice(devices, user, d.endpoint)
      case Some(k) =>
        var r := devices[k := d];
        assert forall i :: 0 <= i < |devices| && i != k ==> r[i] == devices[i];
        assert r[k] == d;
        SaveResult(r, 200)
      case None =>
        var r := devices + [d];
        assert forall i :: 0 <= i < |devices| ==> r[i] == devices[i];
        assert r[|devices|] == d;
        SaveResult(r, 200)
  }

  /** Saving the same body twice is the same as saving it once. */
  lemma SaveIdempotent(devices: seq<Device>, user: nat, body: PushBody)
    requires DevicesUnique(devices)
    ensures var once := SavePushSubscription(devices, user, body, true).devices;
            SavePushSubscription(once, user, body, true).devices == once
  {
    if WellFormedBody(body) {
      var once := SavePushSubscription(devices, user, body, true).devices;
      var d := Device(user, body.endpoint.text, body.keys.value.p256dh.text, body.keys.value.auth.text, true);
      var k := IndexOfDevice(once, user, body.endpoint.text).value;
      assert d in once;
      assert once[k] == d;
    }
  }

  /** A `null` endpoint or key passes the format check but never reaches a device row: the
      answer is 500 and the devices are unchanged, whether or not the database is otherwise up. */
  lemma NullMemberFails(devices: seq<Device>, user: nat, endpoint: Member, p256dh: Member, auth: Member, dbOk: bool)
    requires !endpoint.Absent? && !p256dh.Absent? && !auth.Absent?
    requires endpoint.Null? || p256dh.Null? || auth.Null?
    ensures var r := SavePushSubscription(devices, user, Body(endpoint, Some(PushKeys(p256dh, auth))), dbOk);
            r.status == 500 && r.devices == devices
  {
  }
}
