/**
 * The entitlement predicate of `lib/subscription.ts`: a stored subscription
 * (tier and status strings, or no row at all) grants premium features only
 * for the exact tier "PREMIUM" with an active or trialing status.
 */
module Subscription {
  import opened Wrappers
  import opened Text

  const Premium: string := "PREMIUM"
  const Free: string := "FREE"
  const Active: string := "ACTIVE"
  const Trialing: string := "TRIALING"
  const PastDue: string := "PAST_DUE"
  const Inactive: string := "INACTIVE"

  /** The selected columns of a subscription row. */
  datatype SubscriptionState = SubscriptionState(tier: string, status: string)

  /** The status values that keep premium features on. */
  predicate Entitling(status: string) {
    status == Active || status == Trialing
  }

  /**
   * `isPremiumActive`: no row is never premium; the tier is compared exactly,
   * the status after upper-casing.
   */
  function IsPremiumActive(state: Option<SubscriptionState>): (premium: bool)
    ensures state.None? ==> !premium
    ensures premium ==> state.Some? && state.value.tier == Premium
    ensures state.Some? ==> (premium <==> state.value.tier == Premium && Entitling(ToUpper(state.value.status)))
  {
    match state
    case None => false
    case Some(s) =>
      var normalized := ToUpper(s.status);
      s.tier == Premium && (normalized == Active || normalized == Trialing)
  }

  /** The status comparison ignores case: a row and its upper-cased copy get the same answer. */
  lemma StatusCaseIgnored(tier: string, status: string)
    ensures IsPremiumActive(Some(SubscriptionState(tier, status)))
            == IsPremiumActive(Some(SubscriptionState(tier, ToUpper(status))))
  {
    ToUpperIdempotent(status);
  }

  /** The tier comparison does not: a lower-case "premium" tier is never premium. */
  lemma TierCaseMatters(status: string)
    ensures !IsPremiumActive(Some(SubscriptionState("premium", status)))
  {
    assert "premium"[0] != Premium[0];
  }

  /** Only ACTIVE and TRIALING, in any case, entitle: an upper-case status outside them never does. */
  lemma OtherStatusNotPremium(tier: string, status: string)
    requires ToUpper(status) != Active && ToUpper(status) != Trialing
    ensures !IsPremiumActive(Some(SubscriptionState(tier, status)))
  {
  }

  lemma PastDueNotPremium(tier: string)
    ensures !IsPremiumActive(Some(SubscriptionState(tier, PastDue)))
  {
    assert ToUpper(PastDue) == PastDue;
    assert PastDue[0] != Active[0] && PastDue[0] != Trialing[0];
  }
}
