/**
 * The booking transaction of POST /bookings (bookit-backend/routes/bookings.js):
 * find the slot of the experience, check seats and status, price the order,
 * apply a promo code if it qualifies, record the booking and take the seats.
 * The transaction holds the slot row under an exclusive lock and rolls back on
 * every failure, so it is modelled as one atomic method on the stored tables.
 */
module Reservation {
  import opened Wrappers
  import opened Text
  import opened Catalog
  import Promo

  /** The request body, after the request validator has run. */
  datatype BookingRequest = BookingRequest(
    experienceId: int,
    slotId: int,
    userName: string,
    userEmail: string,
    userPhone: Option<string>,
    numberOfPeople: int,
    promoCode: Option<string>)

  /** A row of the bookings table. */
  datatype Booking = Booking(
    experienceId: int,
    slotId: int,
    userName: string,
    userEmail: string,
    userPhone: Option<string>,
    numberOfPeople: int,
    totalPrice: real,
    promoCode: Option<string>,
    discountAmount: real,
    finalPrice: real)

  datatype BookingError =
    | SlotNotFound                        // 404 "Slot not found"
    | InsufficientCapacity(available: int) // 400 "Only <available> spots available. ..."
    | SlotUnavailable                     // 400 "This slot is no longer available"
    | ExperienceNotFound                  // 404 "Experience not found"

  /** The slot row is selected by both its id and its experience's id. */
  predicate SlotMatches(slots: map<int, Slot>, req: BookingRequest)
  {
    req.slotId in slots && slots[req.slotId].experienceId == req.experienceId
  }

  /** The `promo_code` column: `promoCode || null`, the code as the validator trimmed it. */
  function StoredCode(code: Option<string>): (r: Option<string>)
    ensures r.Some? <==> Promo.HasCode(code)
    ensures r.Some? ==> r.value == Trim(code.value) && r.value != [] && Trim(r.value) == r.value
  {
    if Promo.HasCode(code) then
      TrimIdempotent(code.value);
      Some(Trim(code.value))
    else None
  }

  /** The slot after `n` seats are taken: seats drop by `n`, status is sold out exactly when none are left. */
  function Reserve(s: Slot, n: int): Slot
  {
    var left := s.availableCapacity - n;
    s.(availableCapacity := left, status := if left == 0 then SoldOut else Available)
  }

  /** People booked on slot `slotId` over all bookings. */
  function Booked(bookings: seq<Booking>, slotId: int): int
  {
    if bookings == [] then 0
    else
      var b := bookings[|bookings| - 1];
      Booked(bookings[..|bookings| - 1], slotId) + (if b.slotId == slotId then b.numberOfPeople else 0)
  }

  /**
   * The stored state is consistent: every booking is for at least one person, and
   * for each slot the seats left plus the people booked make up its capacity,
   * the seats left are never negative, and the slot is sold out exactly when no
   * seat is left.
   */
  ghost predicate Consistent(slots: map<int, Slot>, bookings: seq<Booking>)
  {
    && (forall k | 0 <= k < |bookings| :: bookings[k].numberOfPeople >= 1)
    && forall id | id in slots ::
      && slots[id].id == id
      && slots[id].availableCapacity >= 0
      && (slots[id].status == SoldOut <==> slots[id].availableCapacity == 0)
      && Booked(bookings, id) + slots[id].availableCapacity == slots[id].totalCapacity
  }

  lemma {:induction false} BookedNonNegative(bookings: seq<Booking>, slotId: int)
    requires forall k | 0 <= k < |bookings| :: bookings[k].numberOfPeople >= 1
    ensures Booked(bookings, slotId) >= 0
  {
    if bookings != [] {
      BookedNonNegative(bookings[..|bookings| - 1], slotId);
    }
  }

  /** No oversell: in a consistent state the people booked on a slot never exceed its capacity. */
  lemma NoOversell(slots: map<int, Slot>, bookings: seq<Booking>, id: int)
    requires Consistent(slots, bookings) && id in slots
    ensures 0 <= Booked(bookings, id) <= slots[id].totalCapacity
    ensures slots[id].availableCapacity <= slots[id].totalCapacity
  {
    BookedNonNegative(bookings, id);
  }

  /**
   * Taking `b.numberOfPeople` seats of an available slot that has that many left,
   * while recording `b`, keeps the state consistent.
   */
  lemma ReserveKeepsConsistent(slots: map<int, Slot>, bookings: seq<Booking>, b: Booking)
    requires Consistent(slots, bookings)
    requires b.slotId in slots && b.numberOfPeople >= 1
    requires slots[b.slotId].availableCapacity >= b.numberOfPeople
    ensures Consistent(slots[b.slotId := Reserve(slots[b.slotId], b.numberOfPeople)], bookings + [b])
  {
    var bookings' := bookings + [b];
    assert bookings'[..|bookings|] == bookings;
  }

  /** In a consistent state a slot that passes the seat check is available, so "no longer available" never fires. */
  lemma CapacityCheckSubsumesStatus(slots: map<int, Slot>, bookings: seq<Booking>, id: int, n: int)
    requires Consistent(slots, bookings) && id in slots && n >= 1
    requires slots[id].availableCapacity >= n
    ensures slots[id].status == Available
  {
  }

  /**
   * The promo step of the transaction, on the ledger as the transaction sees it:
   * with a non-blank code whose record is usable and whose minimum the total
   * meets, the discount of that record and the total less it, and the key of the
   * record to use once more; otherwise no discount and nothing to use. This is
   * exactly what the preview endpoint quotes for the same ledger, code, total and time.
   */
  method PricePromo(promos: Promo.Ledger, code: Option<string>, totalPrice: real, now: int)
    returns (discountAmount: real, finalPrice: real, redeemed: Option<string>)
    ensures var quote := Promo.AppliedQuote(promos, code, totalPrice, now);
      && (quote.Some? ==>
            && discountAmount == quote.value.discountAmount && finalPrice == quote.value.finalAmount
            && redeemed == Some(Promo.LookupKey(code.value))
            && redeemed.value in promos && Promo.Usable(promos[redeemed.value], now))
      && (quote.None? ==> discountAmount == 0.0 && finalPrice == totalPrice && redeemed == None)
  {
    discountAmount := 0.0;
    finalPrice := totalPrice;
    redeemed := None;
    if code.Some? && Trim(code.value) != "" {
      var found := Promo.Lookup(promos, code.value, now);
      if found.Some? {
        var promo := found.value;
        if totalPrice >= promo.minOrderAmount {
          if promo.discountType == Promo.Percentage {
            discountAmount := totalPrice * promo.discountValue / 100.0;
            if promo.maxDiscountAmount.Some? {
              discountAmount := Min(discountAmount, promo.maxDiscountAmount.value);
            }
          } else if promo.discountType == Promo.Fixed {
            discountAmount := promo.discountValue;
          }
          finalPrice := totalPrice - discountAmount;
          redeemed := Some(Promo.LookupKey(code.value));
        }
      }
    }
  }

  class BookingService {
    var slots: map<int, Slot>
    var experiences: map<int, Experience>
    var promos: Promo.Ledger
    var bookings: seq<Booking>

    ghost predicate Valid()
      reads this
    {
      Consistent(slots, bookings) && Promo.LedgerValid(promos)
    }

    /**
     * The tables as the database holds them. They are taken as they are: the
     * service is in a valid state exactly when the stored tables are consistent,
     * and every booking then keeps it valid.
     */
    constructor (slots: map<int, Slot>, experiences: map<int, Experience>, promos: Promo.Ledger, bookings: seq<Booking>)
      ensures this.slots == slots && this.experiences == experiences
      ensures this.promos == promos && this.bookings == bookings
      ensures Valid() <==> Consistent(slots, bookings) && Promo.LedgerValid(promos)
    {
      this.slots := slots;
      this.experiences := experiences;
      this.promos := promos;
      this.bookings := bookings;
    }

    /**
     * The writes of a successful transaction, in order: the promo record's use,
     * the booking row, and the slot's seats and status.
     */
    method Commit(booking: Booking, redeemed: Option<string>)
      requires booking.slotId in slots
      requires redeemed.Some? ==> redeemed.value in promos
      modifies this
      ensures promos == if redeemed.Some? then Promo.Redeem(old(promos), redeemed.value) else old(promos)
      ensures bookings == old(bookings) + [booking]
      ensures slots == old(slots)[booking.slotId := Reserve(old(slots)[booking.slotId], booking.numberOfPeople)]
      ensures experiences == old(experiences)
    {
      if redeemed.Some? {
        var key := redeemed.value;
        promos := promos[key := promos[key].(usedCount := promos[key].usedCount + 1)];
      }
      bookings := bookings + [booking];
      var slot := slots[booking.slotId];
      var newAvailableCapacity := slot.availableCapacity - booking.numberOfPeople;
      var newStatus := if newAvailableCapacity == 0 then SoldOut else Available;
      slots := slots[booking.slotId := slot.(availableCapacity := newAvailableCapacity, status := newStatus)];
    }

    /**
     * POST /bookings at time `now`. The checks run in order: slot of that
     * experience, seats, status, experience. A failed check changes nothing. On
     * success exactly one booking is appended, the slot loses the booked seats, and
     * the promo code is applied exactly when the preview would accept it for the
     * order's total, in which case its record is used once more.
     */
    method CreateBooking(req: BookingRequest, now: int) returns (r: Result<Booking, BookingError>)
      requires req.numberOfPeople >= 1
      modifies this
      ensures experiences == old(experiences)
      ensures !SlotMatches(old(slots), req) ==> r == Failure(SlotNotFound)
      ensures SlotMatches(old(slots), req) && old(slots)[req.slotId].availableCapacity < req.numberOfPeople ==>
        r == Failure(InsufficientCapacity(old(slots)[req.slotId].availableCapacity))
      ensures (SlotMatches(old(slots), req) && old(slots)[req.slotId].availableCapacity >= req.numberOfPeople
               && old(slots)[req.slotId].status != Available) ==> r == Failure(SlotUnavailable)
      ensures (SlotMatches(old(slots), req) && old(slots)[req.slotId].availableCapacity >= req.numberOfPeople
               && old(slots)[req.slotId].status == Available && req.experienceId !in old(experiences)) ==>
        r == Failure(ExperienceNotFound)
      ensures r.Failure? ==> slots == old(slots) && promos == old(promos) && bookings == old(bookings)
      ensures r.Success? <==>
        && SlotMatches(old(slots), req)
        && old(slots)[req.slotId].availableCapacity >= req.numberOfPeople
        && old(slots)[req.slotId].status == Available
        && req.experienceId in old(experiences)
      ensures r.Success? ==>
        var total := old(experiences)[req.experienceId].price * (req.numberOfPeople as real);
        var quote := Promo.AppliedQuote(old(promos), req.promoCode, total, now);
        && r.value == Booking(req.experienceId, req.slotId, Trim(req.userName), req.userEmail, req.userPhone,
                              req.numberOfPeople, total, StoredCode(req.promoCode),
                              if quote.Some? then quote.value.discountAmount else 0.0,
                              if quote.Some? then quote.value.finalAmount else total)
        && bookings == old(bookings) + [r.value]
        && slots == old(slots)[req.slotId := Reserve(old(slots)[req.slotId], req.numberOfPeople)]
        && promos == if quote.Some? then Promo.Redeem(old(promos), Promo.LookupKey(req.promoCode.value)) else old(promos)
      ensures old(Valid()) ==> Valid()
      ensures old(Valid()) ==> r != Failure(SlotUnavailable)
    {
      if !(req.slotId in slots && slots[req.slotId].experienceId == req.experienceId) {
        return Failure(SlotNotFound);
      }
      var slot := slots[req.slotId];
      if slot.availableCapacity < req.numberOfPeople {
        return Failure(InsufficientCapacity(slot.availableCapacity));
      }
      if slot.status != Available {
        return Failure(SlotUnavailable);
      }
      if req.experienceId !in experiences {
        return Failure(ExperienceNotFound);
      }

      var totalPrice := experiences[req.experienceId].price * (req.numberOfPeople as real);
      var discountAmount, finalPrice, redeemed := PricePromo(promos, req.promoCode, totalPrice, now);
      var booking := Booking(req.experienceId, req.slotId, Trim(req.userName), req.userEmail, req.userPhone,
                             req.numberOfPeople, totalPrice, StoredCode(req.promoCode), discountAmount, finalPrice);
      Commit(booking, redeemed);

      if old(Valid()) {
        ReserveKeepsConsistent(old(slots), old(bookings), booking);
        if redeemed.Some? {
          Promo.RedeemKeepsLedgerValid(old(promos), Promo.LookupKey(req.promoCode.value), now);
        }
      }
      r := Success(booking);
    }
  }
}
