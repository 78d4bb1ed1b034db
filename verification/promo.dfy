/**
 * Promo codes: the ledger record, the applicability filter shared by the booking
 * transaction and the preview endpoint, the discount formula, and POST
 * /promo/validate (bookit-backend/routes/promo.js), which only reads the ledger.
 */
module Promo {
  import opened Wrappers
  import opened Text

  /** `discount_type`; any value but 'percentage' or 'fixed' gives no discount. */
  datatype DiscountType = Percentage | Fixed | OtherType

  datatype PromoCode = PromoCode(
    code: string,
    description: string,
    discountType: DiscountType,
    discountValue: real,
    maxDiscountAmount: Option<real>,
    minOrderAmount: real,
    isActive: bool,
    validFrom: int,
    validUntil: int,
    usageLimit: Option<int>,
    usedCount: int)

  /** The ledger, keyed by the stored code, which is unique. */
  type Ledger = map<string, PromoCode>

  /** Every record sits under its own code and has not been used beyond its limit. */
  ghost predicate LedgerValid(promos: Ledger)
  {
    forall c | c in promos ::
      promos[c].code == c && (promos[c].usageLimit.Some? ==> promos[c].usedCount <= promos[c].usageLimit.value)
  }

  /** The `WHERE` clause: active, inside its validity window at `now`, and not used up. */
  predicate Usable(p: PromoCode, now: int)
  {
    p.isActive && p.validFrom <= now <= p.validUntil && (p.usageLimit.None? || p.usedCount < p.usageLimit.value)
  }

  /** The code a request is looked up by: trimmed by the request validator, then upper-cased. */
  function LookupKey(code: string): string
  {
    ToUpper(Trim(code))
  }

  /** The usable record stored under the request's code, if any. */
  function Lookup(promos: Ledger, code: string, now: int): (r: Option<PromoCode>)
    ensures r.Some? <==> LookupKey(code) in promos && Usable(promos[LookupKey(code)], now)
    ensures r.Some? ==> r.value == promos[LookupKey(code)]
  {
    var key := LookupKey(code);
    if key in promos && Usable(promos[key], now) then Some(promos[key]) else None
  }

  /**
   * The cap of a percentage discount applies whenever `max_discount_amount` is set.
   * DECIMAL columns reach the routes as text (hence their `parseFloat`), and any
   * non-empty text is truthy, so a stored cap of 0.00 applies too; only NULL skips it.
   */
  predicate Capped(p: PromoCode)
  {
    p.maxDiscountAmount.Some?
  }

  /**
   * The discount of `p` on an order of `amount`: a percentage of the amount, capped
   * when a cap is set; or the fixed value; or nothing for an unknown type.
   */
  function Discount(p: PromoCode, amount: real): (d: real)
    ensures p.discountType == Percentage && Capped(p) ==> d <= p.maxDiscountAmount.value
    ensures p.discountType == Percentage ==> d <= amount * p.discountValue / 100.0
    ensures p.discountType == Percentage ==> d == amount * p.discountValue / 100.0 || (Capped(p) && d == p.maxDiscountAmount.value)
    ensures p.discountType == Fixed ==> d == p.discountValue
    ensures p.discountType == OtherType ==> d == 0.0
  {
    match p.discountType
    case Percentage =>
      var d := amount * p.discountValue / 100.0;
      if Capped(p) then Min(d, p.maxDiscountAmount.value) else d
    case Fixed => p.discountValue
    case OtherType => 0.0
  }

  /** The product of two non-negative amounts is non-negative. */
  lemma ProductNonNegative(a: real, b: real)
    requires a >= 0.0 && b >= 0.0
    ensures a * b >= 0.0
  {
  }

  /** A percentage promo of at most 100% with a non-negative cap never discounts more than the order, nor below zero. */
  lemma PercentageWithinOrder(p: PromoCode, amount: real)
    requires p.discountType == Percentage && 0.0 <= p.discountValue <= 100.0 && amount >= 0.0
    requires p.maxDiscountAmount.Some? ==> p.maxDiscountAmount.value >= 0.0
    ensures 0.0 <= Discount(p, amount) <= amount
  {
    var x := amount * p.discountValue;
    ProductNonNegative(amount, p.discountValue);
    ProductNonNegative(amount, 100.0 - p.discountValue);
    assert amount * (100.0 - p.discountValue) == amount * 100.0 - x;
    assert 0.0 <= x / 100.0 <= amount;
  }

  /** A stored cap of zero is still a set cap: a percentage promo with it discounts nothing. */
  lemma ZeroCapGivesNoDiscount(p: PromoCode, amount: real)
    requires p.discountType == Percentage && p.maxDiscountAmount == Some(0.0)
    requires p.discountValue >= 0.0 && amount >= 0.0
    ensures Discount(p, amount) == 0.0
  {
    ProductNonNegative(amount, p.discountValue);
  }

  /** A fixed discount does not depend on the order, so it can exceed it: the final amount has no floor at zero. */
  lemma FixedMayExceedOrder(p: PromoCode, amount: real)
    requires p.discountType == Fixed && p.discountValue > amount
    ensures amount - Discount(p, amount) < 0.0
  {
  }

  datatype Rejection =
    | InvalidOrExpired             // 404 "Invalid or expired promo code"
    | BelowMinimum(minimum: real)  // 400 "Minimum order amount of Rs. <minimum> required ..."

  datatype Quote = Quote(
    code: string,
    discountType: DiscountType,
    discountValue: real,
    discountAmount: real,
    originalAmount: real,
    finalAmount: real,
    savings: real)

  /**
   * POST /promo/validate for `code` and `orderAmount` at time `now`. A missing,
   * inactive, out-of-window or used-up code is InvalidOrExpired; an order below the
   * record's minimum is BelowMinimum with that minimum; otherwise the quote.
   */
  function Validate(promos: Ledger, code: string, orderAmount: real, now: int): (r: Result<Quote, Rejection>)
    ensures r == Failure(InvalidOrExpired) <==> Lookup(promos, code, now).None?
    ensures r.Failure? && r.error.BelowMinimum? <==>
      Lookup(promos, code, now).Some? && orderAmount < Lookup(promos, code, now).value.minOrderAmount
    ensures r.Failure? && r.error.BelowMinimum? ==> r.error.minimum == promos[LookupKey(code)].minOrderAmount
    ensures r.Success? ==>
      && LookupKey(code) in promos
      && r.value.code == promos[LookupKey(code)].code
      && r.value.discountAmount == Discount(promos[LookupKey(code)], orderAmount)
      && r.value.originalAmount == orderAmount
      && r.value.finalAmount == orderAmount - r.value.discountAmount
      && r.value.savings == r.value.discountAmount
  {
    match Lookup(promos, code, now)
    case None => Failure(InvalidOrExpired)
    case Some(p) =>
      if orderAmount < p.minOrderAmount then
        Failure(BelowMinimum(p.minOrderAmount))
      else
        var d := Discount(p, orderAmount);
        Success(Quote(p.code, p.discountType, p.discountValue, d, orderAmount, orderAmount - d, d))
  }

  /** Codes that differ only in letter case (or in surrounding whitespace) are validated alike. */
  lemma ValidateIgnoresCase(promos: Ledger, a: string, b: string, orderAmount: real, now: int)
    requires SameIgnoringCase(Trim(a), Trim(b))
    ensures Validate(promos, a, orderAmount, now) == Validate(promos, b, orderAmount, now)
  {
    SameIgnoringCaseAgree(Trim(a), Trim(b));
  }

  /** Upper-casing a code before sending it does not change how it is looked up. */
  lemma LookupKeyOfUpper(code: string)
    ensures LookupKey(ToUpper(code)) == LookupKey(code)
  {
    TrimCommutesWithCase(code);
    UpperIdempotent(Trim(code));
  }

  /** The checkout page upper-cases the typed code; the preview of the upper-cased code is the preview of the code. */
  lemma ValidateOfUpper(promos: Ledger, code: string, orderAmount: real, now: int)
    ensures Validate(promos, ToUpper(code), orderAmount, now) == Validate(promos, code, orderAmount, now)
  {
    LookupKeyOfUpper(code);
    var key := LookupKey(code);
    assert Lookup(promos, ToUpper(code), now) == Lookup(promos, code, now) by {
      assert LookupKey(ToUpper(code)) == key;
    }
  }

  /** The promo code field of a booking request: present and not blank. */
  predicate HasCode(code: Option<string>)
  {
    code.Some? && Trim(code.value) != ""
  }

  /**
   * What the booking transaction applies for its promo field: the quote the
   * preview endpoint would give for the same ledger, code, amount and time, or
   * nothing, when no code was given or the preview would reject it.
   */
  function AppliedQuote(promos: Ledger, code: Option<string>, totalPrice: real, now: int): (q: Option<Quote>)
    ensures q.Some? <==> HasCode(code) && Validate(promos, code.value, totalPrice, now).Success?
    ensures q.Some? ==> q.value == Validate(promos, code.value, totalPrice, now).value
  {
    if HasCode(code) then
      match Validate(promos, code.value, totalPrice, now)
      case Success(q) => Some(q)
      case Failure(_) => None
    else None
  }

  /**
   * Using a quote for a booking adds one to its record's `used_count`; the record
   * stays within its usage limit and every other record is unchanged.
   */
  function Redeem(promos: Ledger, key: string): (r: Ledger)
    requires key in promos
    ensures r.Keys == promos.Keys
    ensures r[key] == promos[key].(usedCount := promos[key].usedCount + 1)
    ensures forall c | c in promos && c != key :: r[c] == promos[c]
  {
    promos[key := promos[key].(usedCount := promos[key].usedCount + 1)]
  }

  /** Redeeming a usable record keeps the ledger valid: `used_count` never passes `usage_limit`. */
  lemma RedeemKeepsLedgerValid(promos: Ledger, key: string, now: int)
    requires LedgerValid(promos) && key in promos && Usable(promos[key], now)
    ensures LedgerValid(Redeem(promos, key))
  {
  }
}
