/**
 * The status and tier mapping of the Stripe webhook
 * (`app/api/stripe/webhook/route.ts`): which row a subscription event writes,
 * and the row a completed checkout creates, checked against the entitlement
 * predicate that reads those rows.
 */
module StripeWebhook {
  import opened Wrappers
  import opened Text
  import opened Subscription

  /** `toSubscriptionStatus`: Stripe's lower-case status, upper-cased. */
  function ToSubscriptionStatus(status: string): (r: string)
    ensures |r| == |status|
    ensures forall i :: 0 <= i < |r| ==> !('a' <= r[i] <= 'z')
    ensures ToUpper(r) == r
    ensures forall i :: 0 <= i < |status| ==>
              ('a' <= status[i] <= 'z' ==> r[i] as int == status[i] as int - 32)
              && (!('a' <= status[i] <= 'z') ==> r[i] == status[i])
    ensures ToLower(r) == ToLower(status)
  {
    ToUpperIdempotent(status);
    LowerOfUpper(status);
    ToUpper(status)
  }

  /** The statuses that the webhook stores with the premium tier. */
  predicate PremiumStatus(status: string) {
    status == Active || status == Trialing || status == PastDue
  }

  /** `toTier`: "PREMIUM" for the three premium statuses, "FREE" for any other. */
  function ToTier(status: string): (tier: string)
    ensures tier == Premium || tier == Free
    ensures tier == Premium <==> PremiumStatus(status)
  {
    if PremiumStatus(status) then Premium else Free
  }

  /** The status and tier a `customer.subscription.*` event writes for a Stripe status. */
  function SubscriptionUpdate(stripeStatus: string): (row: SubscriptionState)
    ensures row.status == ToSubscriptionStatus(stripeStatus)
    ensures row.tier == ToTier(row.status)
  {
    var status := ToSubscriptionStatus(stripeStatus);
    SubscriptionState(ToTier(status), status)
  }

  /**
   * A row written by the webhook is premium-active exactly when its status is
   * ACTIVE or TRIALING, and then its tier is PREMIUM.
   */
  lemma WrittenRowEntitlement(stripeStatus: string)
    ensures var row := SubscriptionUpdate(stripeStatus);
            IsPremiumActive(Some(row)) <==> Entitling(row.status)
    ensures var row := SubscriptionUpdate(stripeStatus);
            IsPremiumActive(Some(row)) ==> row.tier == Premium
  {
  }

  /** The one disagreement: a PAST_DUE row carries the PREMIUM tier yet is not premium-active. */
  lemma PastDueKeepsTierNotAccess(stripeStatus: string)
    ensures var row := SubscriptionUpdate(stripeStatus);
            row.tier == Premium && !IsPremiumActive(Some(row)) <==> row.status == PastDue
  {
    var row := SubscriptionUpdate(stripeStatus);
    if row.status == PastDue {
      PastDueNotPremium(row.tier);
    }
  }

  /** The row a completed checkout creates when the user has none. */
  function CheckoutCreate(): (row: SubscriptionState)
    ensures !IsPremiumActive(Some(row))
    ensures row.tier != Premium
  {
    SubscriptionState(Free, Inactive)
  }
}
