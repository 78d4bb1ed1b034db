/**
 * The experience catalogue and its slots, and the two read endpoints of
 * bookit-backend/routes/experiences.js: the list of all experiences, ordered by
 * rating and age, and one experience with its open slots grouped by date.
 * Dates and time slots are opaque ordered values, modelled as integers.
 */
module Catalog {
  import opened Wrappers
  import opened Ordering

  datatype Experience = Experience(
    id: int,
    title: string,
    description: string,
    location: string,
    price: real,
    category: string,
    rating: real,
    createdAt: int)

  datatype SlotStatus = Available | SoldOut

  datatype Slot = Slot(
    id: int,
    experienceId: int,
    date: int,
    timeSlot: int,
    totalCapacity: int,
    availableCapacity: int,
    status: SlotStatus)

  // ---------------------------------------------------------------- GET /experiences

  /** `ORDER BY rating DESC, created_at DESC`. */
  function ExperienceRank(e: Experience): Rank
  {
    Rank(-e.rating, -(e.createdAt as real))
  }

  /** The experiences table, highest rated first, newer first among equal ratings. */
  function ListExperiences(table: seq<Experience>): (r: seq<Experience>)
    ensures multiset(r) == multiset(table)
    ensures forall i, j | 0 <= i < j < |r| ::
      r[i].rating > r[j].rating || (r[i].rating == r[j].rating && r[i].createdAt >= r[j].createdAt)
  {
    var r := Sort(table, ExperienceRank);
    assert forall i, j | 0 <= i < j < |r| :: RankLe(ExperienceRank(r[i]), ExperienceRank(r[j]));
    r
  }

  // ---------------------------------------------------------------- GET /experiences/:id

  /** The slot filter of the query: this experience, today or later, seats left, status available. */
  predicate IsOpen(s: Slot, experienceId: int, today: int)
  {
    s.experienceId == experienceId && s.date >= today && s.availableCapacity > 0 && s.status == Available
  }

  /** The open slots of an experience, in table order. */
  function SelectOpen(table: seq<Slot>, experienceId: int, today: int): (r: seq<Slot>)
    ensures forall s :: multiset(r)[s] == if IsOpen(s, experienceId, today) then multiset(table)[s] else 0
  {
    if table == [] then []
    else
      var rest := SelectOpen(table[..|table| - 1], experienceId, today);
      var last := table[|table| - 1];
      assert table == table[..|table| - 1] + [last];
      if IsOpen(last, experienceId, today) then rest + [last] else rest
  }

  /** `ORDER BY date ASC, time_slot ASC`. */
  function SlotRank(s: Slot): Rank
  {
    Rank(s.date as real, s.timeSlot as real)
  }

  predicate SlotsInOrder(slots: seq<Slot>)
  {
    forall i, j | 0 <= i < j < |slots| ::
      slots[i].date < slots[j].date || (slots[i].date == slots[j].date && slots[i].timeSlot <= slots[j].timeSlot)
  }

  /**
   * The slot query: exactly the open slots of the experience (each as often as in
   * the table), ordered by date and then by time slot.
   */
  function OpenSlots(table: seq<Slot>, experienceId: int, today: int): (r: seq<Slot>)
    ensures forall s :: multiset(r)[s] == if IsOpen(s, experienceId, today) then multiset(table)[s] else 0
    ensures forall s | s in r :: IsOpen(s, experienceId, today)
    ensures SlotsInOrder(r)
  {
    var r := Sort(SelectOpen(table, experienceId, today), SlotRank);
    assert forall i, j | 0 <= i < j < |r| :: RankLe(SlotRank(r[i]), SlotRank(r[j]));
    assert forall s | s in r :: multiset(r)[s] > 0;
    r
  }

  /** One entry of `slotsByDate`: a date and the slots on it. */
  datatype DateGroup = DateGroup(date: int, slots: seq<Slot>)

  /** The slots of `slots` on date `d`, in their order. */
  function OnDate(slots: seq<Slot>, d: int): (r: seq<Slot>)
    ensures |r| <= |slots|
  {
    if slots == [] then []
    else
      var last := slots[|slots| - 1];
      OnDate(slots[..|slots| - 1], d) + (if last.date == d then [last] else [])
  }

  function Dates(groups: seq<DateGroup>): set<int>
  {
    set k | 0 <= k < |groups| :: groups[k].date
  }

  /** The number of slots over all groups. */
  function TotalSize(groups: seq<DateGroup>): nat
  {
    if groups == [] then 0 else TotalSize(groups[..|groups| - 1]) + |groups[|groups| - 1].slots|
  }

  lemma {:induction false} TotalSizeUpdate(groups: seq<DateGroup>, k: int, g: DateGroup)
    requires 0 <= k < |groups|
    ensures TotalSize(groups[k := g]) == TotalSize(groups) - |groups[k].slots| + |g.slots|
  {
    var n := |groups|;
    if k < n - 1 {
      assert groups[k := g][..n - 1] == groups[..n - 1][k := g];
      TotalSizeUpdate(groups[..n - 1], k, g);
    } else {
      assert groups[k := g][..n - 1] == groups[..n - 1];
    }
  }

  /** The position of the group for date `d`, if there is one. */
  function FindDate(groups: seq<DateGroup>, d: int): (k: Option<nat>)
    ensures k.Some? ==> k.value < |groups| && groups[k.value].date == d
    ensures k.None? ==> d !in Dates(groups)
  {
    if groups == [] then None
    else if groups[0].date == d then Some(0)
    else match FindDate(groups[1..], d)
      case None => assert Dates(groups) == {groups[0].date} + Dates(groups[1..]); None
      case Some(k) => Some(k + 1)
  }

  /** The dates of the groups, in group order. */
  function DateList(groups: seq<DateGroup>): (r: seq<int>)
    ensures |r| == |groups| && forall k | 0 <= k < |groups| :: r[k] == groups[k].date
  {
    seq(|groups|, k requires 0 <= k < |groups| => groups[k].date)
  }

  predicate StrictlyIncreasing(s: seq<int>)
  {
    forall k, l | 0 <= k < l < |s| :: s[k] < s[l]
  }

  /** Group dates strictly increase. */
  predicate DatesAscending(groups: seq<DateGroup>)
  {
    StrictlyIncreasing(DateList(groups))
  }

  /**
   * `groups` is a grouping of `slots` by date: one non-empty group per distinct
   * date, holding exactly that date's slots in order, every slot in one group.
   */
  ghost predicate GroupsSlots(slots: seq<Slot>, groups: seq<DateGroup>)
  {
    && (forall k | 0 <= k < |groups| :: groups[k].slots == OnDate(slots, groups[k].date))
    && (forall k | 0 <= k < |groups| :: groups[k].slots != [])
    && (forall k, l | 0 <= k < l < |groups| :: groups[k].date != groups[l].date)
    && (forall j | 0 <= j < |slots| :: slots[j].date in Dates(groups))
    && TotalSize(groups) == |slots|
  }

  lemma OnDateAppend(slots: seq<Slot>, slot: Slot, d: int)
    ensures OnDate(slots + [slot], d) == OnDate(slots, d) + (if slot.date == d then [slot] else [])
  {
    assert (slots + [slot])[..|slots|] == slots;
  }

  /** Pushing a slot onto the existing group of its date keeps a grouping. */
  lemma PushOntoGroup(slots: seq<Slot>, groups: seq<DateGroup>, slot: Slot, k: int)
    requires GroupsSlots(slots, groups)
    requires 0 <= k < |groups| && groups[k].date == slot.date
    ensures GroupsSlots(slots + [slot], groups[k := DateGroup(slot.date, groups[k].slots + [slot])])
  {
    var g := DateGroup(slot.date, groups[k].slots + [slot]);
    PushHoldsItsDate(slots, groups, slot, k);
    PushKeepsDates(groups, k, g);
    PushCovers(slots, groups, slot, k);
    TotalSizeUpdate(groups, k, g);
  }

  /** After pushing a slot onto its date's group, every group holds exactly its date's slots. */
  lemma PushHoldsItsDate(slots: seq<Slot>, groups: seq<DateGroup>, slot: Slot, k: int)
    requires forall l | 0 <= l < |groups| :: groups[l].slots == OnDate(slots, groups[l].date)
    requires forall l, m | 0 <= l < m < |groups| :: groups[l].date != groups[m].date
    requires 0 <= k < |groups| && groups[k].date == slot.date
    ensures var groups' := groups[k := DateGroup(slot.date, groups[k].slots + [slot])];
      forall l | 0 <= l < |groups'| :: groups'[l].slots == OnDate(slots + [slot], groups'[l].date)
  {
    var groups' := groups[k := DateGroup(slot.date, groups[k].slots + [slot])];
    forall l | 0 <= l < |groups'| ensures groups'[l].slots == OnDate(slots + [slot], groups'[l].date) {
      OnDateAppend(slots, slot, groups'[l].date);
      if l != k {
        assert groups'[l] == groups[l];
        assert groups[l].date != slot.date by {
          if l < k { assert groups[l].date != groups[k].date; }
          else { assert groups[k].date != groups[l].date; }
        }
      }
    }
  }

  /** Replacing a group by one for the same date with more slots keeps the dates, and keeps every group non-empty. */
  lemma PushKeepsDates(groups: seq<DateGroup>, k: int, g: DateGroup)
    requires forall l | 0 <= l < |groups| :: groups[l].slots != []
    requires forall l, m | 0 <= l < m < |groups| :: groups[l].date != groups[m].date
    requires 0 <= k < |groups| && g.date == groups[k].date && g.slots != []
    ensures var groups' := groups[k := g]; forall l | 0 <= l < |groups'| :: groups'[l].slots != []
    ensures var groups' := groups[k := g];
      forall l, m | 0 <= l < m < |groups'| :: groups'[l].date != groups'[m].date
    ensures Dates(groups[k := g]) == Dates(groups)
  {
    var groups' := groups[k := g];
    assert forall l | 0 <= l < |groups| :: groups'[l].date == groups[l].date;
    assert Dates(groups') == Dates(groups);
  }

  /** With the slot pushed onto the group of its date, every slot's date is still a group date. */
  lemma PushCovers(slots: seq<Slot>, groups: seq<DateGroup>, slot: Slot, k: int)
    requires forall j | 0 <= j < |slots| :: slots[j].date in Dates(groups)
    requires 0 <= k < |groups| && groups[k].date == slot.date
    ensures forall j | 0 <= j < |slots + [slot]| :: (slots + [slot])[j].date in Dates(groups)
  {
    var slots' := slots + [slot];
    forall j | 0 <= j < |slots'| ensures slots'[j].date in Dates(groups) {
      if j < |slots| {
        assert slots'[j] == slots[j];
      }
    }
  }

  /** A group added at the end adds its date to the dates of the groups. */
  lemma DatesAppend(groups: seq<DateGroup>, g: DateGroup)
    ensures Dates(groups + [g]) == Dates(groups) + {g.date}
  {
    var groups' := groups + [g];
    forall d ensures d in Dates(groups') <==> d in Dates(groups) + {g.date} {
      if d in Dates(groups') {
        var k :| 0 <= k < |groups'| && groups'[k].date == d;
        if k < |groups| {
          assert groups[k].date == d;
        }
      }
      if d in Dates(groups) {
        var k :| 0 <= k < |groups| && groups[k].date == d;
        assert groups'[k].date == d;
      }
      if d == g.date {
        assert groups'[|groups|].date == d;
      }
    }
  }

  /** Opening a group for a date not seen before keeps a grouping. */
  lemma OpenGroup(slots: seq<Slot>, groups: seq<DateGroup>, slot: Slot)
    requires GroupsSlots(slots, groups)
    requires slot.date !in Dates(groups)
    ensures GroupsSlots(slots + [slot], groups + [DateGroup(slot.date, [slot])])
  {
    var g := DateGroup(slot.date, [slot]);
    OpenGroupHoldsItsDate(slots, groups, slot);
    OpenGroupNonEmpty(groups, g);
    OpenGroupDistinct(groups, g);
    OpenGroupCovers(slots, groups, slot);
    TotalSizeAppend(groups, g);
  }

  /** A group added at the end adds its slots to the total. */
  lemma TotalSizeAppend(groups: seq<DateGroup>, g: DateGroup)
    ensures TotalSize(groups + [g]) == TotalSize(groups) + |g.slots|
  {
    assert (groups + [g])[..|groups|] == groups;
  }

  /** A non-empty group added at the end keeps every group non-empty. */
  lemma OpenGroupNonEmpty(groups: seq<DateGroup>, g: DateGroup)
    requires forall k | 0 <= k < |groups| :: groups[k].slots != []
    requires g.slots != []
    ensures forall k | 0 <= k < |groups + [g]| :: (groups + [g])[k].slots != []
  {
    forall k | 0 <= k < |groups + [g]| ensures (groups + [g])[k].slots != [] {
      if k < |groups| { assert (groups + [g])[k] == groups[k]; }
    }
  }

  /** A group for a date not seen before keeps the group dates distinct. */
  lemma OpenGroupDistinct(groups: seq<DateGroup>, g: DateGroup)
    requires forall k, l | 0 <= k < l < |groups| :: groups[k].date != groups[l].date
    requires g.date !in Dates(groups)
    ensures forall k, l | 0 <= k < l < |groups + [g]| :: (groups + [g])[k].date != (groups + [g])[l].date
  {
    var groups' := groups + [g];
    forall k, l | 0 <= k < l < |groups'| ensures groups'[k].date != groups'[l].date {
      if l == |groups| {
        assert groups[k].date in Dates(groups);
      } else {
        assert groups'[k] == groups[k] && groups'[l] == groups[l];
      }
    }
  }

  /** With a group opened for the new slot's date, every slot's date is still a group date. */
  lemma OpenGroupCovers(slots: seq<Slot>, groups: seq<DateGroup>, slot: Slot)
    requires forall j | 0 <= j < |slots| :: slots[j].date in Dates(groups)
    ensures forall j | 0 <= j < |slots + [slot]| ::
      (slots + [slot])[j].date in Dates(groups + [DateGroup(slot.date, [slot])])
  {
    var slots' := slots + [slot];
    DatesAppend(groups, DateGroup(slot.date, [slot]));
    forall j | 0 <= j < |slots'| ensures slots'[j].date in Dates(groups) + {slot.date} {
      if j < |slots| {
        assert slots'[j] == slots[j];
      }
    }
  }

  /** After opening a group for a new date, every group holds exactly its date's slots. */
  lemma OpenGroupHoldsItsDate(slots: seq<Slot>, groups: seq<DateGroup>, slot: Slot)
    requires forall k | 0 <= k < |groups| :: groups[k].slots == OnDate(slots, groups[k].date)
    requires slot.date !in Dates(groups)
    requires forall j | 0 <= j < |slots| :: slots[j].date in Dates(groups)
    ensures var groups' := groups + [DateGroup(slot.date, [slot])];
      forall l | 0 <= l < |groups'| :: groups'[l].slots == OnDate(slots + [slot], groups'[l].date)
  {
    var groups' := groups + [DateGroup(slot.date, [slot])];
    forall l | 0 <= l < |groups'| ensures groups'[l].slots == OnDate(slots + [slot], groups'[l].date) {
      OnDateAppend(slots, slot, groups'[l].date);
      if l == |groups| {
        assert OnDate(slots, slot.date) == [] by {
          if OnDate(slots, slot.date) != [] {
            assert false by { OnDateOnlyThatDate(slots, slot.date); }
          }
        }
      } else {
        assert groups'[l] == groups[l];
      }
    }
  }

  lemma {:induction false} OnDateOnlyThatDate(slots: seq<Slot>, d: int)
    ensures OnDate(slots, d) != [] ==> exists j | 0 <= j < |slots| :: slots[j].date == d
  {
    if slots != [] {
      var init := slots[..|slots| - 1];
      OnDateOnlyThatDate(init, d);
      if OnDate(init, d) != [] {
        var j :| 0 <= j < |init| && init[j].date == d;
        assert slots[j] == init[j];
      }
    }
  }

  /** The last group is the one for date `d`. */
  ghost predicate LastDateIs(groups: seq<DateGroup>, d: int)
  {
    groups != [] && groups[|groups| - 1].date == d
  }

  /** For slots in date order, pushing the next slot onto its existing group keeps the group dates ascending. */
  lemma PushKeepsAscending(groups: seq<DateGroup>, k: int, g: DateGroup, prev: int)
    requires DatesAscending(groups) && LastDateIs(groups, prev)
    requires 0 <= k < |groups| && g.date == groups[k].date && prev <= g.date
    ensures DatesAscending(groups[k := g]) && LastDateIs(groups[k := g], g.date)
  {
    assert DateList(groups[k := g]) == DateList(groups);
  }

  /** For slots in date order, a group opened for a later date keeps the group dates ascending. */
  lemma OpenKeepsAscending(groups: seq<DateGroup>, g: DateGroup, prev: int)
    requires DatesAscending(groups) && (groups != [] ==> LastDateIs(groups, prev))
    requires prev <= g.date && g.date !in Dates(groups)
    ensures DatesAscending(groups + [g]) && LastDateIs(groups + [g], g.date)
  {
    if groups != [] {
      assert groups[|groups| - 1].date in Dates(groups);
      assert DateList(groups + [g]) == DateList(groups) + [g.date];
    }
  }

  /** One step of the `reduce`: push `slot` onto its date's group, opening the group if needed. */
  function AddSlot(groups: seq<DateGroup>, slot: Slot): seq<DateGroup>
  {
    match FindDate(groups, slot.date)
    case Some(k) => groups[k := DateGroup(slot.date, groups[k].slots + [slot])]
    case None => groups + [DateGroup(slot.date, [slot])]
  }

  /** The accumulator of the `reduce` after the slots of `slots`. */
  function Grouped(slots: seq<Slot>): seq<DateGroup>
  {
    if slots == [] then [] else AddSlot(Grouped(slots[..|slots| - 1]), slots[|slots| - 1])
  }

  /** The `reduce` builds a grouping of its input by date. */
  lemma {:induction false} GroupedGroups(slots: seq<Slot>)
    ensures GroupsSlots(slots, Grouped(slots))
  {
    if slots != [] {
      var init, slot := slots[..|slots| - 1], slots[|slots| - 1];
      assert slots == init + [slot];
      GroupedGroups(init);
      var groups := Grouped(init);
      match FindDate(groups, slot.date)
      case Some(k) => PushOntoGroup(init, groups, slot, k);
      case None => OpenGroup(init, groups, slot);
    }
  }

  lemma InOrderPrefix(slots: seq<Slot>, n: int)
    requires SlotsInOrder(slots) && 0 <= n <= |slots|
    ensures SlotsInOrder(slots[..n])
  {
  }

  /** On slots in date order, the `reduce` yields groups in ascending date order, the last one for the last slot. */
  lemma {:induction false} GroupedAscending(slots: seq<Slot>)
    requires SlotsInOrder(slots)
    ensures DatesAscending(Grouped(slots))
    ensures slots != [] ==> LastDateIs(Grouped(slots), slots[|slots| - 1].date)
  {
    if slots != [] {
      var init, slot := slots[..|slots| - 1], slots[|slots| - 1];
      InOrderPrefix(slots, |slots| - 1);
      GroupedAscending(init);
      var groups := Grouped(init);
      var prev := if init == [] then slot.date else init[|init| - 1].date;
      assert prev <= slot.date;
      GroupedGroups(init);
      assert init == [] ==> groups == [];
      match FindDate(groups, slot.date)
      case Some(k) => PushKeepsAscending(groups, k, DateGroup(slot.date, groups[k].slots + [slot]), prev);
      case None => OpenKeepsAscending(groups, DateGroup(slot.date, [slot]), prev);
    }
  }

  /**
   * The `reduce` that builds `slotsByDate`: one group per distinct date, created
   * when the date is first met, each slot pushed onto its date's group. Every group
   * is non-empty and holds exactly that date's slots in input order; the groups
   * together hold every slot once; for slots ordered by date the groups come in
   * ascending date order.
   */
  method GroupByDate(slots: seq<Slot>) returns (groups: seq<DateGroup>)
    ensures groups == Grouped(slots)
    ensures forall k | 0 <= k < |groups| :: groups[k].slots == OnDate(slots, groups[k].date)
    ensures forall k | 0 <= k < |groups| :: groups[k].slots != []
    ensures forall k, l | 0 <= k < l < |groups| :: groups[k].date != groups[l].date
    ensures forall i | 0 <= i < |slots| :: slots[i].date in Dates(groups)
    ensures TotalSize(groups) == |slots|
    ensures SlotsInOrder(slots) ==> DatesAscending(groups)
  {
    groups := [];
    var i := 0;
    while i < |slots|
      invariant 0 <= i <= |slots|
      invariant groups == Grouped(slots[..i])
    {
      var slot := slots[i];
      assert slots[..i + 1][..i] == slots[..i];
      var found := FindDate(groups, slot.date);
      match found {
        case Some(k) =>
          groups := groups[k := DateGroup(slot.date, groups[k].slots + [slot])];
        case None =>
          groups := groups + [DateGroup(slot.date, [slot])];
      }
      i := i + 1;
    }
    assert slots[..i] == slots;
    GroupedGroups(slots);
    if SlotsInOrder(slots) {
      GroupedAscending(slots);
    }
  }

  /** The body of a successful GET /experiences/:id. */
  datatype ExperienceDetails = ExperienceDetails(experience: Experience, slots: seq<DateGroup>, totalSlots: nat)

  /** 404 "Experience not found". */
  datatype CatalogError = UnknownExperience

  /**
   * GET /experiences/:id: an unknown id is NotFound; otherwise the experience, its
   * open slots grouped by date (dates ascending, times ascending within a date) and
   * the number of open slots, which is the number of slots over all groups.
   */
  method GetExperience(experiences: map<int, Experience>, table: seq<Slot>, id: int, today: int)
    returns (r: Result<ExperienceDetails, CatalogError>)
    ensures r.Failure? <==> id !in experiences
    ensures r.Success? ==>
      var open := OpenSlots(table, id, today);
      && r.value.experience == experiences[id]
      && r.value.totalSlots == |open| == TotalSize(r.value.slots)
      && DatesAscending(r.value.slots)
      && (forall k | 0 <= k < |r.value.slots| ::
            r.value.slots[k].slots == OnDate(open, r.value.slots[k].date) && r.value.slots[k].slots != [])
      && (forall s | s in open :: s.date in Dates(r.value.slots))
  {
    if id !in experiences {
      return Failure(UnknownExperience);
    }
    var open := OpenSlots(table, id, today);
    var groups := GroupByDate(open);
    forall s | s in open ensures s.date in Dates(groups) {
      var i :| 0 <= i < |open| && open[i] == s;
    }
    r := Success(ExperienceDetails(experiences[id], groups, |open|));
  }
}
