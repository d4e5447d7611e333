/**
 * The pricing engine of the itinerary builder: three participant tiers, the
 * automatic package amount, and the 18% GST. Amounts are whole rupees; the GST
 * and the total are kept in hundredths of a rupee so that 18% is exact.
 */
module Pricing {
  /** One tier of travellers: how many, and the price for each. */
  datatype Tier = Tier(count: nat, costPerHead: nat)

  /** The `participants` record: adults, children and infants. */
  datatype Participants = Participants(adults: Tier, children: Tier, infants: Tier)

  /** The `category` argument of `updateParticipants`. */
  datatype Category = Adults | Children | Infants

  /** The `field` argument of `updateParticipants`. */
  datatype TierField = Count | CostPerHead

  /** The state the session starts with: every count and cost is 0. */
  const NoParticipants := Participants(Tier(0, 0), Tier(0, 0), Tier(0, 0))

  /** The GST rate, in percent. */
  const GstPercent: nat := 18

  function TierOf(p: Participants, c: Category): Tier
  {
    match c
    case Adults => p.adults
    case Children => p.children
    case Infants => p.infants
  }

  function FieldOf(t: Tier, f: TierField): nat
  {
    match f
    case Count => t.count
    case CostPerHead => t.costPerHead
  }

  /** count × costPerHead: the subtotal printed for a tier. */
  function Subtotal(t: Tier): nat
  {
    t.count * t.costPerHead
  }

  /** `calculateAutoTotal`: the sum of the three tier subtotals. */
  function AutoTotal(p: Participants): (total: nat)
    ensures Subtotal(p.adults) <= total && Subtotal(p.children) <= total && Subtotal(p.infants) <= total
    ensures p == NoParticipants ==> total == 0
  {
    Subtotal(p.adults) + Subtotal(p.children) + Subtotal(p.infants)
  }

  /**
   * The new participants record of `updateParticipants(category, field, value)`:
   * the named field of the named tier becomes `value`, nothing else moves.
   */
  function WithField(p: Participants, c: Category, f: TierField, value: nat): (r: Participants)
    ensures FieldOf(TierOf(r, c), f) == value
    ensures forall c', f' :: (c', f') != (c, f) ==> FieldOf(TierOf(r, c'), f') == FieldOf(TierOf(p, c'), f')
  {
    var t := TierOf(p, c);
    var t' := match f
      case Count => t.(count := value)
      case CostPerHead => t.(costPerHead := value);
    match c
    case Adults => p.(adults := t')
    case Children => p.(children := t')
    case Infants => p.(infants := t')
  }

  /** A tier edit moves the automatic total by exactly the change in that tier's subtotal. */
  lemma WithFieldAutoTotal(p: Participants, c: Category, f: TierField, value: nat)
    ensures AutoTotal(WithField(p, c, f, value))
      == AutoTotal(p) - Subtotal(TierOf(p, c)) + Subtotal(TierOf(WithField(p, c, f, value), c))
  {
  }

  /** Writing back a field's current value changes nothing. */
  lemma WithFieldSameValue(p: Participants, c: Category, f: TierField)
    ensures WithField(p, c, f, FieldOf(TierOf(p, c), f)) == p
  {
  }

  /**
   * `gstAmount` in hundredths of a rupee: nothing when GST is off, and 18% of
   * the package amount when it is on (`packageAmount * 0.18`).
   */
  function GstHundredths(packageAmount: nat, includeGst: bool): (g: nat)
    ensures !includeGst ==> g == 0
    ensures includeGst ==> 100 * g == GstPercent * (100 * packageAmount)
  {
    if includeGst then GstPercent * packageAmount else 0
  }

  /** `totalAmount = packageAmount + gstAmount`, in hundredths of a rupee. */
  function TotalHundredths(packageAmount: nat, includeGst: bool): (t: nat)
    ensures t >= 100 * packageAmount
    ensures t - 100 * packageAmount == GstHundredths(packageAmount, includeGst)
    ensures includeGst ==> 100 * t == 118 * (100 * packageAmount)
  {
    100 * packageAmount + GstHundredths(packageAmount, includeGst)
  }

  /** The GST and the total never decrease when the package amount grows. */
  lemma TotalMonotonic(a: nat, b: nat, includeGst: bool)
    requires a <= b
    ensures GstHundredths(a, includeGst) <= GstHundredths(b, includeGst)
    ensures TotalHundredths(a, includeGst) <= TotalHundredths(b, includeGst)
  {
  }

  /**
   * 2 adults at 5000, 1 child at 3000, no infants, GST on: the package is
   * 13000, the GST 2340.00 and the total 15340.00.
   */
  lemma QuoteExample()
    ensures var p := Participants(Tier(2, 5000), Tier(1, 3000), Tier(0, 0));
      AutoTotal(p) == 13000
      && GstHundredths(AutoTotal(p), true) == 234000
      && TotalHundredths(AutoTotal(p), true) == 1534000
  {
  }
}
