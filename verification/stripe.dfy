/** The payment webhook (src/routes/api/webhooks/stripe/+server.ts): a
    verified event names a rescue in its metadata and, by its type, rewrites
    that rescue's billing columns. Signature checking is an oracle, the
    rescues table a map from id to billing columns. */
module Stripe {
  import opened Wrappers
  import opened Strings
  import opened Js

  const CheckoutCompleted := "checkout.session.completed"
  const SubscriptionCreated := "customer.subscription.created"
  const SubscriptionUpdated := "customer.subscription.updated"
  const SubscriptionDeleted := "customer.subscription.deleted"

  /** The largest time value a JavaScript `Date` holds, in milliseconds. */
  const MaxTimeValue := 8_640_000_000_000_000

  /** The billing columns of a `rescues` row. Ids and status are kept as the
      JSON values written; `periodEnd` is milliseconds, None for null. */
  datatype Billing = Billing(
    planTier: string,
    customerId: Json,
    subscriptionId: Json,
    subscriptionStatus: Json,
    periodEnd: Option<int>)

  /** An update body: None for a key whose value is `undefined`, which the
      JSON encoding drops, so that column keeps its value. */
  datatype Patch = Patch(
    planTier: Option<string>,
    customerId: Option<Json>,
    subscriptionId: Option<Json>,
    subscriptionStatus: Option<Json>,
    periodEnd: Option<Option<int>>)

  function Apply(b: Billing, p: Patch): (r: Billing)
    ensures p.planTier.Some? ==> r.planTier == p.planTier.value
    ensures p.planTier.None? ==> r.planTier == b.planTier
    ensures p.subscriptionStatus.Some? ==> r.subscriptionStatus == p.subscriptionStatus.value
    ensures p.subscriptionStatus.None? ==> r.subscriptionStatus == b.subscriptionStatus
  {
    Billing(
      p.planTier.GetOr(b.planTier),
      p.customerId.GetOr(b.customerId),
      p.subscriptionId.GetOr(b.subscriptionId),
      p.subscriptionStatus.GetOr(b.subscriptionStatus),
      p.periodEnd.GetOr(b.periodEnd))
  }

  /** Writing the same patch twice is the same as writing it once. */
  lemma ApplyIdempotent(b: Billing, p: Patch)
    ensures Apply(Apply(b, p), p) == Apply(b, p)
  {
  }

  /** `v?.key` on a value that may already be undefined. */
  function Chain(v: Option<Json>, key: string): (r: Option<Json>)
    ensures v.None? ==> r.None?
  {
    if v.None? then None else GetOpt(v.value, key)
  }

  /** `v?.[0]`: the first element of an array, or the property "0" of an object. */
  function ChainFirst(v: Option<Json>): (r: Option<Json>)
    ensures v.None? ==> r.None?
  {
    if v.None? then None
    else match v.value
      case JArr(items) => if items == [] then None else Some(items[0])
      case JObj(fields) => if "0" in fields then Some(fields["0"]) else None
      case _ => None
  }

  /** The result of `v?.toLowerCase()`: undefined for null or undefined, a
      TypeError for a value that is not a string. */
  datatype Lowered = Undefined | LoweredTo(s: string) | LowerThrows

  function LowerOpt(v: Option<Json>): (r: Lowered)
    ensures v.Some? && v.value.JStr? ==> r == LoweredTo(Lower(v.value.s))
    ensures v.None? || v.value.JNull? ==> r == Undefined
  {
    if v.None? || v.value.JNull? then Undefined
    else if v.value.JStr? then LoweredTo(Lower(v.value.s))
    else LowerThrows
  }

  /** `Truthy(v) ? new Date(v * 1000).toISOString() : null`, in milliseconds;
      None inside Some is null, and an invalid date throws a RangeError. */
  function PeriodEnd(v: Option<Json>): (r: Option<Option<int>>)
    ensures !TruthyOpt(v) ==> r == Some(None)
    ensures TruthyOpt(v) && v.value.JNum? && -MaxTimeValue <= v.value.n * 1000 <= MaxTimeValue ==>
      r == Some(Some(v.value.n * 1000))
  {
    if !TruthyOpt(v) then Some(None)
    else
      var seconds := match v.value
        case JNum(n) => Some(n)
        case JBool(_) => Some(1)
        case _ => None;
      if seconds.None? || seconds.value * 1000 < -MaxTimeValue || seconds.value * 1000 > MaxTimeValue then None
      else Some(Some(seconds.value * 1000))
  }

  const Supporter := "supporter"
  const Pro := "pro"
  const Free := "free"

  /** The checkout tier: `(plan_tier?.toLowerCase() || 'pro') === 'supporter'`. */
  function CheckoutTier(planTier: Option<Json>): (r: Option<string>)
    ensures r.None? <==> LowerOpt(planTier).LowerThrows?
    ensures r.Some? ==> (r.value == Supporter <==> LowerOpt(planTier) == LoweredTo(Supporter))
    ensures r.Some? ==> r.value == Supporter || r.value == Pro
  {
    match LowerOpt(planTier)
    case LowerThrows => None
    case Undefined => Some(Pro)
    case LoweredTo(s) => Some(if s == Supporter then Supporter else Pro)
  }

  /** The subscription tier: `(nickname?.toLowerCase() ?? 'pro').includes('support')`. */
  function SubscriptionTier(nickname: Option<Json>): (r: Option<string>)
    ensures r.None? <==> LowerOpt(nickname).LowerThrows?
    ensures r.Some? ==> (r.value == Supporter <==>
      LowerOpt(nickname).LoweredTo? && Contains(LowerOpt(nickname).s, "support"))
    ensures r.Some? ==> r.value == Supporter || r.value == Pro
  {
    match LowerOpt(nickname)
    case LowerThrows => None
    case Undefined => Some(Pro)
    case LoweredTo(s) => Some(if Contains(s, "support") then Supporter else Pro)
  }

  /** A property of the event object, which is never null (`?? {}`). */
  function Prop(obj: Json, key: string): Option<Json>
    requires !obj.JNull?
  {
    Get(obj, key).v
  }

  /** The object and metadata the handler reads: `event?.data?.object ?? {}`
      and `object?.metadata ?? {}`. */
  function ObjectOf(event: Json): (r: Json)
    ensures !r.JNull?
  {
    Coalesce(Chain(Chain(Some(event), "data"), "object"), EmptyObject)
  }

  function MetadataOf(obj: Json): (r: Json)
    ensures !r.JNull?
  {
    Coalesce(GetOpt(obj, "metadata"), EmptyObject)
  }

  /** `metadata.rescue_id || metadata.rescueId`, if truthy. */
  function RescueIdOf(metadata: Json): (r: Option<Json>)
    requires !metadata.JNull?
    ensures r.Some? ==> Truthy(r.value)
    ensures TruthyOpt(Prop(metadata, "rescue_id")) ==> r == Prop(metadata, "rescue_id")
    ensures r.None? <==> !TruthyOpt(Prop(metadata, "rescue_id")) && !TruthyOpt(Prop(metadata, "rescueId"))
  {
    var a := Prop(metadata, "rescue_id");
    if TruthyOpt(a) then a
    else
      var b := Prop(metadata, "rescueId");
      if TruthyOpt(b) then b else None
  }

  /** The update an event asks for, None for an event that asks for none, or
      a thrown error. `now` is the clock in milliseconds. */
  datatype Plan = NoUpdate | Update(p: Patch) | PlanThrows

  function CheckoutPatch(obj: Json, metadata: Json): (r: Plan)
    requires !obj.JNull? && !metadata.JNull?
    ensures r.Update? ==> r.p.subscriptionStatus == Some(if TruthyOpt(Prop(obj, "subscription")) then JStr("active") else JNull)
    ensures r.Update? ==> r.p.planTier == CheckoutTier(Prop(metadata, "plan_tier"))
    ensures r.PlanThrows? <==> CheckoutTier(Prop(metadata, "plan_tier")).None?
    ensures !r.NoUpdate?
  {
    var tier := CheckoutTier(Prop(metadata, "plan_tier"));
    if tier.None? then PlanThrows
    else
      var sub := Prop(obj, "subscription");
      Update(Patch(
        tier,
        Prop(obj, "customer"),
        sub,
        Some(if TruthyOpt(sub) then JStr("active") else JNull),
        None))
  }

  function Nickname(obj: Json): Option<Json>
    requires !obj.JNull?
  {
    Chain(Chain(ChainFirst(Chain(Prop(obj, "items"), "data")), "price"), "nickname")
  }

  function SubscriptionPatch(obj: Json): (r: Plan)
    requires !obj.JNull?
    ensures r.Update? ==> r.p.planTier == SubscriptionTier(Nickname(obj))
    ensures r.Update? ==> r.p.subscriptionStatus == Prop(obj, "status")
    ensures r.Update? ==> r.p.periodEnd == PeriodEnd(Prop(obj, "current_period_end"))
    ensures r.PlanThrows? <==> PeriodEnd(Prop(obj, "current_period_end")).None? || SubscriptionTier(Nickname(obj)).None?
    ensures !r.NoUpdate?
  {
    var period := PeriodEnd(Prop(obj, "current_period_end"));
    var tier := SubscriptionTier(Nickname(obj));
    if period.None? || tier.None? then PlanThrows
    else
      Update(Patch(tier, Prop(obj, "customer"), Prop(obj, "id"), Prop(obj, "status"), period))
  }

  function DeletedPatch(now: int): (r: Patch)
    ensures r.planTier == Some(Free) && r.subscriptionStatus == Some(JStr("canceled"))
    ensures r.periodEnd == Some(Some(now))
    ensures r.customerId.None? && r.subscriptionId.None?
  {
    Patch(Some(Free), None, None, Some(JStr("canceled")), Some(Some(now)))
  }

  /** The update the event's type selects. */
  function PlanFor(eventType: Option<Json>, obj: Json, metadata: Json, now: int): (r: Plan)
    requires !obj.JNull? && !metadata.JNull?
    ensures eventType != Some(JStr(CheckoutCompleted)) && eventType != Some(JStr(SubscriptionCreated))
      && eventType != Some(JStr(SubscriptionUpdated)) && eventType != Some(JStr(SubscriptionDeleted))
      ==> r == NoUpdate
    ensures eventType == Some(JStr(SubscriptionDeleted)) ==> r == Update(DeletedPatch(now))
  {
    if eventType == Some(JStr(CheckoutCompleted)) then CheckoutPatch(obj, metadata)
    else if eventType == Some(JStr(SubscriptionUpdated)) || eventType == Some(JStr(SubscriptionCreated)) then SubscriptionPatch(obj)
    else if eventType == Some(JStr(SubscriptionDeleted)) then Update(DeletedPatch(now))
    else NoUpdate
  }

  datatype WebhookResponse =
    | WebhookNotConfigured   // 500 "Webhook not configured"
    | BadSignature           // 400 "Signature verification failed"
    | Received               // 200 {received: true}
    | WebhookThrew           // an uncaught TypeError or RangeError

  type Rescues = map<string, Billing>

  /** Writes the patch to the row whose id is `String(rescueId)`, if any;
      a store error is only logged, so it leaves the table as it was. */
  function Write(table: Rescues, id: string, p: Patch, dbError: bool): (t: Rescues)
    ensures t.Keys == table.Keys
    ensures forall k :: k in table && k != id ==> t[k] == table[k]
    ensures id in table && !dbError ==> t[id] == Apply(table[id], p)
    ensures dbError ==> t == table
  {
    if id in table && !dbError then table[id := Apply(table[id], p)] else table
  }

  /** `POST`: `configured` says whether both the client and the secret are
      set, and `verified` is the event `constructEvent` returns, or None
      when it throws. `serviceConfigured` says whether the service-role
      settings are set; when they are not, `getServiceSupabase()` throws
      for every event that names a rescue, whatever its type. */
  function Webhook(configured: bool, serviceConfigured: bool, verified: Option<Json>, now: int, dbError: bool,
                   table: Rescues)
    : (r: (WebhookResponse, Rescues))
    ensures !configured ==> r == (WebhookNotConfigured, table)
    ensures configured && verified.None? ==> r == (BadSignature, table)
    ensures configured && !serviceConfigured && verified.Some? && RescueIdOf(MetadataOf(ObjectOf(verified.value))).Some?
      ==> r == (WebhookThrew, table)
    ensures r.0 != Received ==> r.1 == table
    ensures r.1.Keys == table.Keys
  {
    if !configured then (WebhookNotConfigured, table)
    else if verified.None? then (BadSignature, table)
    else
      var event := verified.value;
      var obj := ObjectOf(event);
      var metadata := MetadataOf(obj);
      var rid := RescueIdOf(metadata);
      if rid.None? then (Received, table)
      else if !serviceConfigured then (WebhookThrew, table)
      else
        match PlanFor(GetOpt(event, "type"), obj, metadata, now)
        case NoUpdate => (Received, table)
        case PlanThrows => (WebhookThrew, table)
        case Update(p) => (Received, Write(table, ToStr(rid.value), p, dbError))
  }

  /** An event whose metadata names no rescue is acknowledged and changes nothing. */
  lemma NoRescueIdNoUpdate(event: Json, serviceConfigured: bool, now: int, dbError: bool, table: Rescues)
    requires RescueIdOf(MetadataOf(ObjectOf(event))).None?
    ensures Webhook(true, serviceConfigured, Some(event), now, dbError, table) == (Received, table)
  {
  }

  /** Only the named rescue's row can change. */
  lemma WebhookTouchesOneRow(configured: bool, serviceConfigured: bool, verified: Option<Json>, now: int, dbError: bool, table: Rescues, k: string)
    requires k in table
    requires verified.None? || RescueIdOf(MetadataOf(ObjectOf(verified.value))).None?
      || k != ToStr(RescueIdOf(MetadataOf(ObjectOf(verified.value))).value)
    ensures Webhook(configured, serviceConfigured, verified, now, dbError, table).1[k] == table[k]
  {
  }

  /** A completed checkout makes the tier `supporter` exactly when the
      lower-cased metadata plan is `supporter`, otherwise `pro`, and marks the
      subscription active exactly when one is present. */
  lemma CheckoutBilling(event: Json, now: int, table: Rescues)
    requires GetOpt(event, "type") == Some(JStr(CheckoutCompleted))
    requires RescueIdOf(MetadataOf(ObjectOf(event))).Some?
    requires ToStr(RescueIdOf(MetadataOf(ObjectOf(event))).value) in table
    requires LowerOpt(Prop(MetadataOf(ObjectOf(event)), "plan_tier")) != LowerThrows
    ensures var id := ToStr(RescueIdOf(MetadataOf(ObjectOf(event))).value);
      var (resp, t) := Webhook(true, true, Some(event), now, false, table);
      && resp == Received
      && (t[id].planTier == Supporter <==> LowerOpt(Prop(MetadataOf(ObjectOf(event)), "plan_tier")) == LoweredTo(Supporter))
      && (t[id].planTier == Supporter || t[id].planTier == Pro)
      && (t[id].subscriptionStatus == JStr("active") <==> TruthyOpt(Prop(ObjectOf(event), "subscription")))
      && (t[id].subscriptionStatus != JStr("active") ==> t[id].subscriptionStatus == JNull)
  {
  }

  /** A subscription event sets the tier from the price nickname and the
      period end from the event's seconds, in milliseconds. */
  lemma SubscriptionBilling(event: Json, now: int, table: Rescues)
    requires GetOpt(event, "type") == Some(JStr(SubscriptionUpdated)) || GetOpt(event, "type") == Some(JStr(SubscriptionCreated))
    requires RescueIdOf(MetadataOf(ObjectOf(event))).Some?
    requires ToStr(RescueIdOf(MetadataOf(ObjectOf(event))).value) in table
    requires SubscriptionPatch(ObjectOf(event)).Update?
    ensures var id := ToStr(RescueIdOf(MetadataOf(ObjectOf(event))).value);
      var obj := ObjectOf(event);
      var (resp, t) := Webhook(true, true, Some(event), now, false, table);
      && resp == Received
      && (t[id].planTier == Supporter <==>
            LowerOpt(Nickname(obj)).LoweredTo? && Contains(LowerOpt(Nickname(obj)).s, "support"))
      && (t[id].planTier == Supporter || t[id].planTier == Pro)
      && (!TruthyOpt(Prop(obj, "current_period_end")) ==> t[id].periodEnd.None?)
      && (TruthyOpt(Prop(obj, "current_period_end")) && Prop(obj, "current_period_end").value.JNum? ==>
            t[id].periodEnd == Some(Prop(obj, "current_period_end").value.n * 1000))
  {
    var obj := ObjectOf(event);
    var v := Prop(obj, "current_period_end");
    if TruthyOpt(v) && v.value.JNum? {
      assert PeriodEnd(v).Some?;
      assert -MaxTimeValue <= v.value.n * 1000 <= MaxTimeValue;
    }
  }

  /** A deleted subscription drops the rescue to `free` and `canceled`,
      whatever it held before. */
  lemma DeletedBilling(event: Json, now: int, table: Rescues)
    requires GetOpt(event, "type") == Some(JStr(SubscriptionDeleted))
    requires RescueIdOf(MetadataOf(ObjectOf(event))).Some?
    requires ToStr(RescueIdOf(MetadataOf(ObjectOf(event))).value) in table
    ensures var id := ToStr(RescueIdOf(MetadataOf(ObjectOf(event))).value);
      var (resp, t) := Webhook(true, true, Some(event), now, false, table);
      resp == Received && t[id].planTier == Free && t[id].subscriptionStatus == JStr("canceled")
      && t[id].periodEnd == Some(now)
      && t[id].customerId == table[id].customerId
  {
  }

  /** Delivering the same event twice leaves the table as one delivery does:
      every update is a plain overwrite that ignores the row's prior values. */
  lemma WebhookRedeliveryIdempotent(configured: bool, serviceConfigured: bool, verified: Option<Json>, now: int,
                                     table: Rescues)
    ensures var t1 := Webhook(configured, serviceConfigured, verified, now, false, table).1;
      Webhook(configured, serviceConfigured, verified, now, false, t1).1 == t1
  {
    if configured && serviceConfigured && verified.Some? {
      var event := verified.value;
      var obj := ObjectOf(event);
      var metadata := MetadataOf(obj);
      var rid := RescueIdOf(metadata);
      if rid.Some? {
        var plan := PlanFor(GetOpt(event, "type"), obj, metadata, now);
        if plan.Update? {
          var id := ToStr(rid.value);
          if id in table {
            ApplyIdempotent(table[id], plan.p);
            var t1 := Write(table, id, plan.p, false);
            assert Write(t1, id, plan.p, false) == t1;
          }
        }
      }
    }
  }
}
