/**
 * The experience details page (bookit-frontend/src/pages/DetailsPage.tsx): it
 * shows the dates and time slots that GET /experiences/:id returned, keeps the
 * visitor's choice of date, slot and party size, and hands a priced selection
 * on to checkout.
 */
module DetailsPage {
  import opened Wrappers
  import opened Ordering
  import opened Catalog

  /** Dates ordered by value (ISO date keys sort as text in the same order). */
  function DateRank(d: int): Rank
  {
    Rank(d as real, 0.0)
  }

  predicate Ascending(s: seq<int>)
  {
    forall i, j | 0 <= i < j < |s| :: s[i] <= s[j]
  }

  /** `Object.keys(slots).sort()`: the dates the page offers, in ascending order. */
  function AvailableDates(groups: seq<DateGroup>): (dates: seq<int>)
    ensures multiset(dates) == multiset(DateList(groups))
    ensures Ascending(dates)
  {
    var r := Sort(DateList(groups), DateRank);
    assert forall i, j | 0 <= i < j < |r| :: RankLe(DateRank(r[i]), DateRank(r[j]));
    r
  }

  /** The head of an ascending sequence is no larger than any of its values. */
  lemma HeadIsLeast(s: seq<int>, x: int)
    requires Ascending(s) && x in multiset(s)
    ensures s[0] <= x
  {
    var i :| 0 <= i < |s| && s[i] == x;
    assert i == 0 || s[0] <= s[i];
  }

  /** Dropping the head of an ascending sequence leaves an ascending sequence with one copy fewer of the head. */
  lemma DropHead(s: seq<int>)
    requires s != [] && Ascending(s)
    ensures Ascending(s[1..])
    ensures multiset(s[1..]) == multiset(s) - multiset{s[0]}
  {
    assert s == [s[0]] + s[1..];
  }

  /** Two ascending sequences holding the same values are the same sequence. */
  lemma {:induction false} AscendingUnique(a: seq<int>, b: seq<int>)
    requires Ascending(a) && Ascending(b) && multiset(a) == multiset(b)
    ensures a == b
    decreases |a|
  {
    assert |a| == |multiset(a)| == |multiset(b)| == |b|;
    if a != [] {
      HeadIsLeast(b, a[0]);
      HeadIsLeast(a, b[0]);
      var x := a[0];
      assert b[0] == x;
      DropHead(a);
      DropHead(b);
      AscendingUnique(a[1..], b[1..]);
      assert a == [x] + a[1..];
      assert b == [x] + b[1..];
    }
  }

  /**
   * The page's own sort changes nothing in the order the route sends: the dates
   * come out exactly as the route grouped them.
   */
  lemma SortKeepsRouteOrder(groups: seq<DateGroup>)
    requires DatesAscending(groups)
    ensures AvailableDates(groups) == DateList(groups)
  {
    AscendingUnique(AvailableDates(groups), DateList(groups));
  }

  /** The date selected on load is the earliest date on offer. */
  lemma FirstDateIsEarliest(groups: seq<DateGroup>)
    requires groups != []
    ensures |AvailableDates(groups)| > 0
    ensures AvailableDates(groups)[0] in Dates(groups)
    ensures forall d | d in Dates(groups) :: AvailableDates(groups)[0] <= d
  {
    var dates := AvailableDates(groups);
    assert DateList(groups)[0] in multiset(dates);
    assert dates[0] in multiset(DateList(groups));
    forall d | d in Dates(groups)
      ensures dates[0] <= d
    {
      var k :| 0 <= k < |groups| && groups[k].date == d;
      assert DateList(groups)[k] == d;
      assert d in multiset(dates);
    }
  }

  /**
   * `handleQuantityChange`: `Math.max(1, Math.min(value, cap || 1))` where `cap`
   * is the selected slot's available capacity. The party size is at least one,
   * never above a positive capacity, kept as asked when it fits, and one when no
   * slot is selected or the slot has no room.
   */
  function ClampQuantity(value: int, slot: Option<Slot>): (n: int)
    ensures n >= 1
    ensures slot.Some? && slot.value.availableCapacity >= 1 ==> n <= slot.value.availableCapacity
    ensures slot.Some? && 1 <= value <= slot.value.availableCapacity ==> n == value
    ensures slot.Some? && 1 <= slot.value.availableCapacity < value ==> n == slot.value.availableCapacity
    ensures value < 1 || slot.None? || slot.value.availableCapacity <= 1 ==> n == 1
  {
    var cap := if slot.Some? && slot.value.availableCapacity != 0 then slot.value.availableCapacity else 1;
    var m := if value < cap then value else cap;
    if 1 < m then m else 1
  }

  /** What the page passes to checkout: the experience, the slot, the party size and its price. */
  datatype Handoff = Handoff(experience: Experience, slot: Slot, numberOfPeople: int, totalPrice: real)

  /**
   * `handleBooking`: nothing when no slot or experience is selected or the party
   * is larger than the slot's available capacity; otherwise the selection priced
   * at the experience price times the party size.
   */
  function RequestCheckout(experience: Option<Experience>, slot: Option<Slot>, numberOfPeople: int): (r: Option<Handoff>)
    ensures r.Some? <==> experience.Some? && slot.Some? && numberOfPeople <= slot.value.availableCapacity
    ensures r.Some? ==>
      && r.value.experience == experience.value && r.value.slot == slot.value
      && r.value.numberOfPeople == numberOfPeople
      && r.value.totalPrice == experience.value.price * numberOfPeople as real
  {
    if slot.None? || experience.None? then None
    else if numberOfPeople > slot.value.availableCapacity then None
    else Some(Handoff(experience.value, slot.value, numberOfPeople, experience.value.price * numberOfPeople as real))
  }

  /** A party size set through the quantity control always fits the slot it was set for. */
  lemma ClampedQuantityFits(experience: Experience, slot: Slot, value: int)
    requires slot.availableCapacity >= 1
    ensures RequestCheckout(Some(experience), Some(slot), ClampQuantity(value, Some(slot))).Some?
  {
  }

  /** The page's state. */
  class DetailsView {
    var experience: Option<Experience>
    var slots: seq<DateGroup>
    var selectedDate: Option<int>
    var selectedSlot: Option<Slot>
    var numberOfPeople: int

    /** The party size is always at least one. */
    predicate Valid()
      reads this
    {
      numberOfPeople >= 1
    }

    constructor ()
      ensures Valid()
      ensures experience == None && slots == [] && selectedDate == None && selectedSlot == None
      ensures numberOfPeople == 1
    {
      experience := None;
      slots := [];
      selectedDate := None;
      selectedSlot := None;
      numberOfPeople := 1;
    }

    /** The details arrived: keep them and select the first date, if there is one. */
    method Load(details: ExperienceDetails)
      modifies this
      ensures experience == Some(details.experience) && slots == details.slots
      ensures selectedDate == if details.slots == [] then old(selectedDate) else Some(AvailableDates(details.slots)[0])
      ensures selectedSlot == old(selectedSlot) && numberOfPeople == old(numberOfPeople)
    {
      experience := Some(details.experience);
      slots := details.slots;
      var dates := AvailableDates(details.slots);
      if details.slots != [] {
        assert DateList(details.slots)[0] in multiset(dates);
      }
      if |dates| > 0 {
        selectedDate := Some(dates[0]);
      }
    }

    /** A date button: selects the date and clears the slot choice. */
    method ChooseDate(date: int)
      modifies this
      ensures selectedDate == Some(date) && selectedSlot == None
      ensures experience == old(experience) && slots == old(slots) && numberOfPeople == old(numberOfPeople)
    {
      selectedDate := Some(date);
      selectedSlot := None;
    }

    /** A time button: disabled, and so without effect, when the slot has no room left. */
    method ChooseSlot(slot: Slot)
      modifies this
      ensures selectedSlot == if slot.availableCapacity == 0 then old(selectedSlot) else Some(slot)
      ensures experience == old(experience) && slots == old(slots)
      ensures selectedDate == old(selectedDate) && numberOfPeople == old(numberOfPeople)
    {
      if slot.availableCapacity != 0 {
        selectedSlot := Some(slot);
      }
    }

    /** The quantity control (the minus and plus buttons pass the current size minus or plus one). */
    method ChangeQuantity(value: int)
      modifies this
      ensures numberOfPeople == ClampQuantity(value, selectedSlot)
      ensures Valid()
      ensures experience == old(experience) && slots == old(slots)
      ensures selectedDate == old(selectedDate) && selectedSlot == old(selectedSlot)
    {
      numberOfPeople := ClampQuantity(value, selectedSlot);
    }

    /**
     * Confirm: the selection handed to checkout, or nothing (the page alerts
     * instead). A handoff always carries a party size that is at least one and
     * fits the selected slot.
     */
    method Book() returns (r: Option<Handoff>)
      ensures r == RequestCheckout(experience, selectedSlot, numberOfPeople)
      ensures Valid() && r.Some? ==> 1 <= r.value.numberOfPeople <= r.value.slot.availableCapacity
    {
      if selectedSlot.None? || experience.None? {
        return None;
      }
      if numberOfPeople > selectedSlot.value.availableCapacity {
        return None;
      }
      var exp := experience.value;
      r := Some(Handoff(exp, selectedSlot.value, numberOfPeople, exp.price * numberOfPeople as real));
      assert RequestCheckout(experience, selectedSlot, numberOfPeople).value.totalPrice == exp.price * numberOfPeople as real;
    }
  }
}
