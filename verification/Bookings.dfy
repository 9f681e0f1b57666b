/** The lanes of a device: lists of booked intervals. */
module Bookings {
  import opened Programs
  import opened Simulator
  import opened Actions
  import opened Timing
  import opened RunTheorems

  datatype Booking = Booking(start: nat, end: nat)

  /** Every lane starts out with this entry. */
  const SENTINEL := Booking(0, 0)

  /** A lane a booking can be searched in: the source reads past a single entry that is not
      the initial one. */
  predicate Searchable(lane: seq<Booking>) {
    lane != [] && (|lane| == 1 ==> lane[0] == SENTINEL)
  }

  /** The gap test between two neighbouring entries. */
  predicate Fits(a: Booking, b: Booking, start: nat, exec: nat) {
    a.end <= start && b.start < start + exec
  }

  /** The first gap from position i on, as the position of its second entry; |lane| if none. */
  function FindGap(lane: seq<Booking>, start: nat, exec: nat, i: nat): (k: nat)
    requires i < |lane|
    ensures i < k <= |lane|
    decreases |lane| - i
  {
    if i + 1 == |lane| then |lane|
    else if Fits(lane[i], lane[i + 1], start, exec) then i + 1
    else FindGap(lane, start, exec, i + 1)
  }

  /** The position a booking is inserted at, and its start. */
  function Place(lane: seq<Booking>, start: nat, exec: nat): (r: (nat, nat))
    requires Searchable(lane)
    ensures r.0 <= |lane|
  {
    if |lane| == 1 then (0, start)
    else
      var k := FindGap(lane, start, exec, 0);
      if k < |lane| then (k, start) else (k, lane[|lane| - 1].end)
  }

  function Book(lane: seq<Booking>, start: nat, exec: nat): (lane': seq<Booking>)
    requires Searchable(lane)
    ensures Searchable(lane')
  {
    if exec == 0 then lane
    else
      var (k, at) := Place(lane, start, exec);
      lane[..k] + [Booking(at, at + exec)] + lane[k..]
  }

  /** The end time the caller is told. */
  function BookedEnd(lane: seq<Booking>, start: nat, exec: nat): nat
    requires Searchable(lane)
  {
    if exec == 0 then start else Place(lane, start, exec).1 + exec
  }

  class Device {
    var events: seq<seq<Booking>>

    ghost predicate Valid()
      reads this
    {
      forall i :: 0 <= i < |events| ==> Searchable(events[i])
    }

    constructor (lanes: nat)
      ensures Valid() && |events| == lanes && forall i :: 0 <= i < lanes ==> events[i] == [SENTINEL]
    {
      events := seq(lanes, i => [SENTINEL]);
    }

    /** Forget what ended long ago, but keep the last such entry. */
    method DeleteOutdatedEvents(idx: nat, now: nat)
      requires Valid() && idx < |events|
      modifies this
      ensures Valid() && events == old(events)[idx := Cleaned(old(events)[idx], now)]
      ensures OutdatedDropped(old(events)[idx], now, events[idx])
    {
      CleanedEffect(events[idx], now);
      CleanedSearchable(events[idx], now);
      EraseOutdated(idx, now);
      hide *;
    }

    method EraseOutdated(idx: nat, now: nat)
      requires idx < |events|
      modifies this
      ensures events == old(events)[idx := Cleaned(old(events)[idx], now)]
    {
      var lane := events[idx];
      var it := 0;
      while it != |lane|
        invariant it <= |lane| && FirstLater(lane, now, 0) == FirstLater(lane, now, it)
        invariant events == old(events)
      {
        if lane[it].end > now {
          if it != 0 {
            it := it - 1;
            events := events[idx := lane[it..]];
          }
          return;
        }
        it := it + 1;
      }
    }

    /** Book `exec` cycles on a lane, after cleaning it where that is asked for. */
    method ScheduleEvent(idx: nat, start: nat, exec: nat, cleanEvents: bool) returns (end: nat)
      requires Valid() && idx < |events|
      modifies this
      ensures Valid()
      ensures var lane := Prepared(old(events)[idx], start, exec, cleanEvents);
              && end == BookedEnd(lane, start, exec)
              && events == old(events)[idx := Book(lane, start, exec)]
              && (if cleanEvents && exec > 0 then OutdatedDropped(old(events)[idx], start, lane)
                  else lane == old(events)[idx])
              && BookedInto(lane, start, exec, end, events[idx])
    {
      CleanedEffect(events[idx], start);
      BookEffect(events[idx], start, 0);
      hide OutdatedDropped, BookedInto, Cleaned, Book, BookedEnd;
      if exec == 0 {
        assert Prepared(events[idx], start, exec, cleanEvents) == events[idx];
        NothingBooked(events[idx], start);
        return start;
      }
      if cleanEvents {
        DeleteOutdatedEvents(idx, start);
      }
      end := InsertEvent(idx, start, exec);
    }

    /** The search for a slot, and the insertion. */
    method InsertEvent(idx: nat, start: nat, exec: nat) returns (end: nat)
      requires Valid() && idx < |events| && exec > 0
      modifies this
      ensures Valid() && end == BookedEnd(old(events)[idx], start, exec)
      ensures events == old(events)[idx := Book(old(events)[idx], start, exec)]
      ensures BookedInto(old(events)[idx], start, exec, end, events[idx])
    {
      var lane := events[idx];
      BookEffect(lane, start, exec);
      hide BookedInto;
      var iter, at := 0, start;
      if |lane| > 1 {
        var slotFound := false;
        while iter + 1 != |lane|
          invariant iter < |lane|
          invariant FindGap(lane, start, exec, 0) == FindGap(lane, start, exec, iter)
          invariant events == old(events)
        {
          if Fits(lane[iter], lane[iter + 1], start, exec) {
            slotFound := true;
            iter := iter + 1;
            break;
          }
          iter := iter + 1;
        }
        if !slotFound {
          at := lane[|lane| - 1].end;
          iter := |lane|;
        }
      }
      events := events[idx := lane[..iter] + [Booking(at, at + exec)] + lane[iter..]];
      return at + exec;
    }
  }

  // ----- Cleaning -----

  /** The first entry from position i on that ends after now; |lane| if there is none. */
  function FirstLater(lane: seq<Booking>, now: nat, i: nat): (k: nat)
    requires i <= |lane|
    ensures i <= k <= |lane|
    ensures k < |lane| ==> lane[k].end > now
    ensures forall j :: i <= j < k ==> lane[j].end <= now
    decreases |lane| - i
  {
    if i == |lane| || lane[i].end > now then i else FirstLater(lane, now, i + 1)
  }

  function Cleaned(lane: seq<Booking>, now: nat): seq<Booking> {
    var k := FirstLater(lane, now, 0);
    if k == |lane| || k == 0 then lane else lane[k - 1..]
  }

  /** The lane a request is placed in. */
  function Prepared(lane: seq<Booking>, start: nat, exec: nat, clean: bool): (lane': seq<Booking>)
    requires Searchable(lane)
    ensures Searchable(lane')
  {
    CleanedSearchable(lane, start);
    if clean && exec > 0 then Cleaned(lane, start) else lane
  }

  lemma CleanedSearchable(lane: seq<Booking>, now: nat)
    requires Searchable(lane)
    ensures Searchable(Cleaned(lane, now))
  {
  }

  /** Entries that are over go from the front, all but the last of them; when nothing ends
      later, nothing goes. */
  ghost predicate OutdatedDropped(lane: seq<Booking>, now: nat, lane': seq<Booking>) {
    if forall j :: 0 <= j < |lane| ==> lane[j].end <= now then lane' == lane
    else exists k: nat :: k < |lane| && lane[k].end > now && (forall j :: 0 <= j < k ==> lane[j].end <= now)
                          && lane' == if k == 0 then lane else lane[k - 1..]
  }

  lemma CleanedEffect(lane: seq<Booking>, now: nat)
    ensures OutdatedDropped(lane, now, Cleaned(lane, now))
  {
    var k := FirstLater(lane, now, 0);
    assert k < |lane| ==> lane[k].end > now;
  }

  /** Cleaning only drops entries that are over, from the front, and leaves at most one of
      those in front; when nothing ends later it drops nothing, so it does not matter to
      requests in order. */
  lemma CleanedDrops(lane: seq<Booking>, now: nat)
    requires lane != []
    ensures Cleaned(lane, now) != [] && Cleaned(lane, now)[|Cleaned(lane, now)| - 1] == lane[|lane| - 1]
    ensures var n := |lane| - |Cleaned(lane, now)|;
            && 0 <= n && lane[n..] == Cleaned(lane, now)
            && forall j :: 0 <= j < n ==> lane[j].end <= now
    ensures (forall j :: 0 <= j < |lane| ==> lane[j].end <= now) ==> Cleaned(lane, now) == lane
    ensures (exists j :: 0 <= j < |lane| && lane[j].end > now) ==>
              var left := Cleaned(lane, now);
              left[0].end > now || (|left| > 1 && left[1].end > now)
  {
    var k := FirstLater(lane, now, 0);
    if j :| 0 <= j < |lane| && lane[j].end > now {
      assert k < |lane|;
    }
  }

  // ----- What a lane records -----

  /** A request is granted in front of entry k: at the time asked for in a lane with nothing
      but its first entry; else between the first neighbours that leave a gap in the sense of
      the test; else, when none do, after the last entry and from its end on. */
  ghost predicate GrantedAt(lane: seq<Booking>, start: nat, exec: nat, k: nat, end: nat) {
    if |lane| == 1 then k == 0 && end == start + exec
    else
      && 0 < k <= |lane|
      && (forall j :: 0 < j < k ==> !(lane[j - 1].end <= start && lane[j].start < start + exec))
      && if k < |lane| then lane[k - 1].end <= start && lane[k].start < start + exec && end == start + exec
         else end == lane[k - 1].end + exec
  }

  /** The lane records what it tells the caller, at the place where that was granted. */
  ghost predicate BookedInto(lane: seq<Booking>, start: nat, exec: nat, end: nat, lane': seq<Booking>) {
    if exec == 0 then end == start && lane' == lane
    else
      && end >= exec
      && exists k: nat {:trigger GrantedAt(lane, start, exec, k, end)} :: k <= |lane|
           && GrantedAt(lane, start, exec, k, end) && lane' == lane[..k] + [Booking(end - exec, end)] + lane[k..]
  }

  lemma NothingBooked(lane: seq<Booking>, start: nat)
    requires Searchable(lane)
    ensures BookedEnd(lane, start, 0) == start && Book(lane, start, 0) == lane
  {
  }

  lemma BookEffect(lane: seq<Booking>, start: nat, exec: nat)
    requires Searchable(lane)
    ensures BookedInto(lane, start, exec, BookedEnd(lane, start, exec), Book(lane, start, exec))
  {
    if exec > 0 {
      var k := Place(lane, start, exec).0;
      if |lane| > 1 {
        FindGapFirst(lane, start, exec, 0);
      }
      assert GrantedAt(lane, start, exec, k, BookedEnd(lane, start, exec));
    }
  }

  lemma {:induction false} FindGapFirst(lane: seq<Booking>, start: nat, exec: nat, i: nat)
    requires i < |lane|
    ensures var k := FindGap(lane, start, exec, i);
            && (forall j :: i < j < k ==> !(lane[j - 1].end <= start && lane[j].start < start + exec))
            && (k < |lane| ==> lane[k - 1].end <= start && lane[k].start < start + exec)
    decreases |lane| - i
  {
    if i + 1 < |lane| && !Fits(lane[i], lane[i + 1], start, exec) {
      FindGapFirst(lane, start, exec, i + 1);
    }
  }

  /** Every lane holds, besides what it held before, exactly the interval its caller was told. */
  lemma BookingEntered(lane: seq<Booking>, start: nat, exec: nat)
    requires Searchable(lane) && exec > 0
    ensures var end := BookedEnd(lane, start, exec);
            && exec <= end
            && multiset(Book(lane, start, exec)) == multiset(lane) + multiset{Booking(end - exec, end)}
  {
    var k := Place(lane, start, exec).0;
    assert lane == lane[..k] + lane[k..];
  }

  // ----- When a booking is exact -----

  predicate HasGap(lane: seq<Booking>, start: nat, exec: nat) {
    exists i :: 0 <= i < |lane| - 1 && Fits(lane[i], lane[i + 1], start, exec)
  }

  lemma {:induction false} FindGapIff(lane: seq<Booking>, start: nat, exec: nat, i: nat)
    requires i < |lane|
    ensures var k := FindGap(lane, start, exec, i);
            && (k < |lane| ==> Fits(lane[k - 1], lane[k], start, exec))
            && (k == |lane| ==> forall j :: i <= j < |lane| - 1 ==> !Fits(lane[j], lane[j + 1], start, exec))
    decreases |lane| - i
  {
    if i + 1 < |lane| && !Fits(lane[i], lane[i + 1], start, exec) {
      FindGapIff(lane, start, exec, i + 1);
    }
  }

  /** Once a lane holds bookings in front of its first entry, a request is granted at the time
      it asked for exactly when some gap passes the test, or it asks for time zero; otherwise
      it is booked at time zero, however late it was made. */
  lemma ExactBooking(lane: seq<Booking>, start: nat, exec: nat)
    requires |lane| > 1 && lane[|lane| - 1] == SENTINEL && exec > 0
    ensures BookedEnd(lane, start, exec) == start + exec <==> HasGap(lane, start, exec) || start == 0
    ensures !HasGap(lane, start, exec) ==> BookedEnd(lane, start, exec) == exec
  {
    FindGapIff(lane, start, exec, 0);
  }

  /** Such a request is told an end that lies before it exactly when no gap passes the test and
      it was made later than it takes. */
  lemma BookedNotBefore(lane: seq<Booking>, start: nat, exec: nat)
    requires |lane| > 1 && lane[|lane| - 1] == SENTINEL && exec > 0
    ensures start <= BookedEnd(lane, start, exec) <==> HasGap(lane, start, exec) || start <= exec
  {
    FindGapIff(lane, start, exec, 0);
    ExactBooking(lane, start, exec);
  }

  /** With cycles 5 to 10 booked, a request for cycle 7 is granted for cycles 0 to 3; a bank
      that is busy from 10 to 110 answers 100 to a request of 100 cycles at 105. */
  lemma BookedInThePast()
    ensures BookedEnd([Booking(5, 10), SENTINEL], 7, 3) == 3
    ensures BookedEnd(Prepared([Booking(10, 110), SENTINEL], 105, 100, true), 105, 100) == 100
    ensures Book([Booking(10, 110), SENTINEL], 105, 100) == [Booking(10, 110), SENTINEL, Booking(0, 100)]
  {
  }

  /** All bookings of the lane, in front of its first entry, are over by `time`. */
  ghost predicate DoneBy(lane: seq<Booking>, time: nat) {
    && lane != []
    && lane[|lane| - 1] == SENTINEL
    && (forall i :: 0 <= i < |lane| ==> lane[i].start <= lane[i].end <= time)
    && (forall i, j :: 0 <= i < j < |lane| - 1 ==> Apart(lane[i], lane[j]))
  }

  predicate Apart(a: Booking, b: Booking) {
    a.end <= b.start || b.end <= a.start
  }

  /** A request made when all bookings are over is granted as asked, and keeps the bookings
      disjoint and the first entry last. */
  lemma InOrderBooking(lane: seq<Booking>, start: nat, exec: nat)
    requires DoneBy(lane, start)
    ensures Searchable(lane) && BookedEnd(lane, start, exec) == start + exec
    ensures DoneBy(Book(lane, start, exec), start + exec)
    ensures multiset(Book(lane, start, exec))
         == multiset(lane) + if exec == 0 then multiset{} else multiset{Booking(start, start + exec)}
  {
    if exec > 0 {
      var k := LastGap(lane, start, exec);
      var x := Booking(start, start + exec);
      assert lane == lane[..k] + lane[k..];
      hide *;
      InsertKeepsApart(lane, k, x);
    }
  }

  /** Such a request always finds a gap in front of the first entry. */
  lemma LastGap(lane: seq<Booking>, start: nat, exec: nat) returns (k: nat)
    requires DoneBy(lane, start) && exec > 0
    ensures k < |lane| && Searchable(lane)
    ensures Book(lane, start, exec) == lane[..k] + [Booking(start, start + exec)] + lane[k..]
    ensures BookedEnd(lane, start, exec) == start + exec
  {
    k := Place(lane, start, exec).0;
    if |lane| > 1 {
      assert Fits(lane[|lane| - 2], lane[|lane| - 1], start, exec);
      FindGapIff(lane, start, exec, 0);
    }
  }

  lemma InsertKeepsApart(lane: seq<Booking>, k: nat, x: Booking)
    requires DoneBy(lane, x.start) && k < |lane| && x.start <= x.end
    ensures DoneBy(lane[..k] + [x] + lane[k..], x.end)
  {
    var lane' := lane[..k] + [x] + lane[k..];
    forall i, j | 0 <= i < j < |lane'| - 1 ensures Apart(lane'[i], lane'[j]) {
      assert lane'[i] == if i < k then lane[i] else if i == k then x else lane[i - 1];
      assert lane'[j] == if j < k then lane[j] else if j == k then x else lane[j - 1];
    }
  }

  // ----- The memcpys of a DMA engine -----

  /** Every interval ends no earlier than it starts. */
  predicate Forward(ivs: seq<Interval>) {
    forall i :: 0 <= i < |ivs| ==> ivs[i].start <= ivs[i].end
  }

  /** Book a series of intervals, one after the other. */
  function BookAll(lane: seq<Booking>, ivs: seq<Interval>): seq<Booking>
    requires Searchable(lane) && Forward(ivs)
    decreases |ivs|
  {
    if ivs == [] then lane
    else BookAll(Book(lane, ivs[0].start, ivs[0].end - ivs[0].start), ivs[1..])
  }

  /** The device confirms every interval of the series as asked. */
  predicate AllExact(lane: seq<Booking>, ivs: seq<Interval>)
    requires Searchable(lane) && Forward(ivs)
    decreases |ivs|
  {
    ivs != [] ==>
      var exec := ivs[0].end - ivs[0].start;
      && BookedEnd(lane, ivs[0].start, exec) == ivs[0].end
      && AllExact(Book(lane, ivs[0].start, exec), ivs[1..])
  }

  lemma {:induction false} InOrderPositive(ivs: seq<Interval>, from: nat)
    requires InOrder(ivs, from)
    ensures Forward(ivs)
  {
    if ivs != [] {
      InOrderPositive(ivs[1..], ivs[0].end);
      assert forall i :: 1 <= i < |ivs| ==> ivs[i] == ivs[1..][i - 1];
    }
  }

  lemma FirstInOrder(ivs: seq<Interval>, from: nat)
    requires InOrder(ivs, from)
    ensures ivs != [] ==> from <= ivs[0].start <= ivs[0].end && InOrder(ivs[1..], ivs[0].end)
  {
  }

  lemma DoneLater(lane: seq<Booking>, time: nat, later: nat)
    requires DoneBy(lane, time) && time <= later
    ensures DoneBy(lane, later)
  {
  }

  lemma BookFirst(lane: seq<Booking>, ivs: seq<Interval>)
    requires ivs != [] && Searchable(lane)
    requires Forward(ivs)
    requires BookedEnd(lane, ivs[0].start, ivs[0].end - ivs[0].start) == ivs[0].end
    ensures var lane' := Book(lane, ivs[0].start, ivs[0].end - ivs[0].start);
            && Forward(ivs[1..])
            && BookAll(lane, ivs) == BookAll(lane', ivs[1..])
            && (AllExact(lane, ivs) <==> AllExact(lane', ivs[1..]))
  {
    hide Book, BookedEnd, Searchable;
  }

  lemma NothingToBook(lane: seq<Booking>, time: nat)
    requires DoneBy(lane, time)
    ensures Searchable(lane) && BookAll(lane, []) == lane && AllExact(lane, [])
  {
  }

  lemma {:induction false} InOrderAllExact(lane: seq<Booking>, ivs: seq<Interval>, from: nat) returns (time: nat)
    requires DoneBy(lane, from) && InOrder(ivs, from)
    ensures Searchable(lane) && Forward(ivs)
    ensures AllExact(lane, ivs)
    ensures DoneBy(BookAll(lane, ivs), time)
    decreases |ivs|
  {
    hide *;
    InOrderPositive(ivs, from);
    NothingToBook(lane, from);
    FirstInOrder(ivs, from);
    if ivs == [] {
      time := from;
    } else {
      DoneLater(lane, from, ivs[0].start);
      InOrderBooking(lane, ivs[0].start, ivs[0].end - ivs[0].start);
      BookFirst(lane, ivs);
      time := InOrderAllExact(Book(lane, ivs[0].start, ivs[0].end - ivs[0].start), ivs[1..], ivs[0].end);
    }
  }

  function MemCopiesOf(p: Program, ivs: seq<Interval>): seq<Interval> {
    if ivs == [] then []
    else (if IsRef(p, ivs[0].op) && OpAt(p, ivs[0].op).MemCopy? then [ivs[0]] else []) + MemCopiesOf(p, ivs[1..])
  }

  lemma {:induction false} MemCopiesInOrder(p: Program, ivs: seq<Interval>, from: nat)
    requires InOrder(ivs, from)
    ensures InOrder(MemCopiesOf(p, ivs), from)
    decreases |ivs|
  {
    if ivs != [] {
      var rest := MemCopiesOf(p, ivs[1..]);
      MemCopiesInOrder(p, ivs[1..], ivs[0].end);
      if IsRef(p, ivs[0].op) && OpAt(p, ivs[0].op).MemCopy? {
        assert ([ivs[0]] + rest)[1..] == rest;
      } else {
        InOrderFrom(rest, from, ivs[0].end);
        assert [] + rest == rest;
      }
    }
  }

  /** Along every run in time, a DMA engine's memcpys can be booked on its lane in the order they were
      started: each booking is confirmed for exactly the interval the simulator keeps it busy,
      and the bookings are disjoint. */
  lemma DmaBookingsExact(p: Program, acts: seq<Action>, t: State, i: nat)
    requires Valid(p) && Reaches(p, Init(p), acts, t) && InTime(p, Init(p), acts) && i < p.launchers
    ensures var ivs := MemCopiesOf(p, BusyIntervals(p, Init(p), acts, t, i));
            && Forward(ivs)
            && AllExact([SENTINEL], ivs)
            && exists time :: DoneBy(BookAll([SENTINEL], ivs), time)
  {
    BusyInOrder(p, Init(p), acts, t, i);
    var ivs := BusyIntervals(p, Init(p), acts, t, i);
    InOrderFrom(ivs, 0, FreeAt(Init(p), i));
    MemCopiesInOrder(p, ivs, 0);
    var time := InOrderAllExact([SENTINEL], MemCopiesOf(p, ivs), 0);
  }
}
