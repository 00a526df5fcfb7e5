/** The value objects of data/entities/value_objects.py: the timeline's
    chronological views and the zero-denominator guards of the statistics
    records. The clock read by each timeline property is the parameter
    `now`. */
module ValueObjects {
  import opened Wrappers
  import opened Seqs
  import opened Calendar
  import opened GrantEntity
  import FunderEntity

  // ----- sequences ------------------------------------------------------------

  /** The list comprehension `[e for e in s if p(e)]`. */
  function Filter<T>(s: seq<T>, p: T -> bool): (r: seq<T>)
    ensures |r| <= |s|
  {
    if s == [] then [] else (if p(s[0]) then [s[0]] else []) + Filter(s[1..], p)
  }

  /** One step of the filter, on a list written as head and tail. */
  lemma FilterCons<T>(x: T, s: seq<T>, p: T -> bool)
    ensures Filter([x] + s, p) == if p(x) then [x] + Filter(s, p) else Filter(s, p)
  {
    assert ([x] + s)[1..] == s;
  }

  /** The filter keeps exactly the elements that satisfy `p`. */
  lemma {:induction false} FilterMembers<T>(s: seq<T>, p: T -> bool)
    ensures forall x :: x in Filter(s, p) <==> x in s && p(x)
  {
    if s != [] {
      var t := s[1..];
      assert s == [s[0]] + t;
      FilterMembers(t, p);
      FilterCons(s[0], t, p);
    }
  }

  lemma {:induction false} FilterAppend<T>(a: seq<T>, b: seq<T>, p: T -> bool)
    ensures Filter(a + b, p) == Filter(a, p) + Filter(b, p)
  {
    if a == [] {
      assert a + b == b;
    } else {
      var x, t := a[0], a[1..];
      assert a == [x] + t;
      AppendAssoc([x], t, b);
      FilterCons(x, t + b, p);
      FilterCons(x, t, p);
      FilterAppend(t, b, p);
      AppendAssoc([x], Filter(t, p), Filter(b, p));
    }
  }

  // ----- timeline -------------------------------------------------------------

  datatype TimelineEvent = TimelineEvent(
    date: DateTime,
    eventType: string,
    description: string,
    grantId: Option<int> := None)

  /** No event is followed by a strictly earlier one. */
  predicate SortedByDate(s: seq<TimelineEvent>) {
    forall i, j :: 0 <= i < j < |s| ==> !Before(s[j].date, s[i].date)
  }

  /** Inserting `e` in front of the first event not earlier than it keeps
      the events of `e`'s date in their original relative order. */
  function Insert(e: TimelineEvent, s: seq<TimelineEvent>): (r: seq<TimelineEvent>)
    ensures multiset(r) == multiset(s) + multiset{e}
  {
    if s == [] then [e]
    else if !Before(s[0].date, e.date) then [e] + s
    else
      assert s == [s[0]] + s[1..];
      [s[0]] + Insert(e, s[1..])
  }

  lemma {:induction false} InsertSorted(e: TimelineEvent, s: seq<TimelineEvent>)
    requires SortedByDate(s)
    ensures SortedByDate(Insert(e, s))
  {
    if s == [] {
    } else if !Before(s[0].date, e.date) {
      forall x | x in s
        ensures !Before(x.date, e.date)
      {
        var k :| 0 <= k < |s| && s[k] == x;
        AfterNotBefore(e.date, s[0].date, x.date);
      }
      ConsSorted(e, s);
    } else {
      assert SortedByDate(s[1..]);
      InsertSorted(e, s[1..]);
      InsertedNotBefore(e, s);
      ConsSorted(s[0], Insert(e, s[1..]));
    }
  }

  /** A head no later than every element of a sorted list keeps it sorted. */
  lemma ConsSorted(h: TimelineEvent, rest: seq<TimelineEvent>)
    requires SortedByDate(rest)
    requires forall x :: x in rest ==> !Before(x.date, h.date)
    ensures SortedByDate([h] + rest)
  {
    var r := [h] + rest;
    forall i, j | 0 <= i < j < |r|
      ensures !Before(r[j].date, r[i].date)
    {
      assert r[j] == rest[j - 1];
      if i == 0 {
        assert rest[j - 1] in rest;
      } else {
        assert r[i] == rest[i - 1];
      }
    }
  }

  /** When `e` goes past the head of a sorted list, nothing it is inserted
      among is earlier than that head. */
  lemma InsertedNotBefore(e: TimelineEvent, s: seq<TimelineEvent>)
    requires SortedByDate(s) && s != [] && Before(s[0].date, e.date)
    ensures forall x :: x in Insert(e, s[1..]) ==> !Before(x.date, s[0].date)
  {
    var rest := Insert(e, s[1..]);
    forall x | x in rest
      ensures !Before(x.date, s[0].date)
    {
      assert x in multiset(rest);
      if x == e {
        if Before(e.date, s[0].date) {
          BeforeTransitive(e.date, s[0].date, e.date);
          BeforeIrreflexive(e.date);
        }
      } else {
        assert x in multiset(s[1..]);
        var k :| 0 <= k < |s[1..]| && s[1..][k] == x;
        assert s[k + 1] == x;
      }
    }
  }

  /** `a <= b <= c` in the datetime order, read through `!Before`. */
  lemma AfterNotBefore(a: DateTime, b: DateTime, c: DateTime)
    requires !Before(b, a) && !Before(c, b)
    ensures !Before(c, a)
  {
    BeforeTotal(a, b);
    BeforeTotal(b, c);
    if Before(c, a) {
      if b == c {
      } else if a == b {
      } else {
        BeforeTransitive(b, c, a);
      }
    }
  }

  /** `sorted(events, key=lambda e: e.date)`: a stable insertion sort. */
  function SortByDate(events: seq<TimelineEvent>): (r: seq<TimelineEvent>)
    ensures SortedByDate(r)
    ensures multiset(r) == multiset(events)
    ensures |r| == |events|
  {
    if events == [] then []
    else
      assert events == [events[0]] + events[1..];
      InsertSorted(events[0], SortByDate(events[1..]));
      Insert(events[0], SortByDate(events[1..]))
  }

  /** The events with a given date, in order. */
  function WithDate(s: seq<TimelineEvent>, d: DateTime): seq<TimelineEvent> {
    Filter(s, (e: TimelineEvent) => e.date == d)
  }

  lemma {:induction false} InsertWithDate(e: TimelineEvent, s: seq<TimelineEvent>, d: DateTime)
    ensures WithDate(Insert(e, s), d) == (if e.date == d then [e] else []) + WithDate(s, d)
  {
    var p := (x: TimelineEvent) => x.date == d;
    if s == [] {
    } else if !Before(s[0].date, e.date) {
      assert ([e] + s)[1..] == s;
    } else {
      assert s[0].date != e.date;
      InsertWithDate(e, s[1..], d);
      assert ([s[0]] + Insert(e, s[1..]))[1..] == Insert(e, s[1..]);
    }
  }

  /** The sort is stable: events with equal dates keep their input order. */
  lemma {:induction false} SortByDateStable(events: seq<TimelineEvent>, d: DateTime)
    ensures WithDate(SortByDate(events), d) == WithDate(events, d)
  {
    if events != [] {
      SortByDateStable(events[1..], d);
      InsertWithDate(events[0], SortByDate(events[1..]), d);
    }
  }

  /** A timeline's events, in no particular order. */
  datatype Timeline = Timeline(events: seq<TimelineEvent>)
  {
    /** `sorted_events` */
    function SortedEvents(): (r: seq<TimelineEvent>)
      ensures SortedByDate(r) && multiset(r) == multiset(events)
    {
      SortByDate(events)
    }

    /** `past_events`: before `now`. */
    function PastEvents(now: DateTime): seq<TimelineEvent> {
      Filter(SortedEvents(), (e: TimelineEvent) => Before(e.date, now))
    }

    /** `future_events`: at or after `now`. */
    function FutureEvents(now: DateTime): seq<TimelineEvent> {
      Filter(SortedEvents(), (e: TimelineEvent) => !Before(e.date, now))
    }

    /** `next_deadline`: the first deadline event strictly after `now`. */
    function NextDeadline(now: DateTime): (r: Option<TimelineEvent>)
      ensures r.Some? ==> IsUpcomingDeadline(r.value, now)
    {
      var upcoming := Filter(SortedEvents(), (e: TimelineEvent) => IsUpcomingDeadline(e, now));
      if upcoming == [] then None
      else
        FilterMembers(SortedEvents(), (e: TimelineEvent) => IsUpcomingDeadline(e, now));
        assert upcoming[0] in upcoming;
        Some(upcoming[0])
    }
  }

  /** A deadline event strictly after `now`. */
  predicate IsUpcomingDeadline(e: TimelineEvent, now: DateTime) {
    e.eventType == "deadline" && Before(now, e.date)
  }

  /** In a date-sorted list the past events form a prefix, so the past
      events followed by the future ones give the list back. */
  lemma SplitSorted(s: seq<TimelineEvent>, now: DateTime)
    requires SortedByDate(s)
    ensures Filter(s, (e: TimelineEvent) => Before(e.date, now))
          + Filter(s, (e: TimelineEvent) => !Before(e.date, now)) == s
  {
    var past := (e: TimelineEvent) => Before(e.date, now);
    var future := (e: TimelineEvent) => !Before(e.date, now);
    forall i, j | 0 <= i < j < |s| && !past(s[i])
      ensures !past(s[j])
    {
      AfterNotBefore(now, s[i].date, s[j].date);
    }
    FilterSplitsPrefix(s, past, future);
  }

  /** When `p` holds on a prefix of `s` and `q` is its negation, filtering
      by `p` then by `q` gives `s` back. */
  lemma {:induction false} FilterSplitsPrefix<T>(s: seq<T>, p: T -> bool, q: T -> bool)
    requires forall x :: q(x) == !p(x)
    requires forall i, j :: 0 <= i < j < |s| && !p(s[i]) ==> !p(s[j])
    ensures Filter(s, p) + Filter(s, q) == s
  {
    if s != [] {
      var t := s[1..];
      assert s == [s[0]] + t;
      FilterCons(s[0], t, p);
      FilterCons(s[0], t, q);
      if p(s[0]) {
        assert forall i, j :: 0 <= i < j < |t| ==> t[i] == s[i + 1] && t[j] == s[j + 1];
        FilterSplitsPrefix(t, p, q);
        AppendAssoc([s[0]], Filter(t, p), Filter(t, q));
      } else {
        assert forall i :: 0 <= i < |t| ==> t[i] == s[i + 1];
        FilterNone(t, p, q);
      }
    }
  }

  /** Where `p` holds nowhere, filtering by `p` keeps nothing and filtering
      by its negation keeps everything. */
  lemma {:induction false} FilterNone<T>(s: seq<T>, p: T -> bool, q: T -> bool)
    requires forall x :: q(x) == !p(x)
    requires forall i :: 0 <= i < |s| ==> !p(s[i])
    ensures Filter(s, p) == [] && Filter(s, q) == s
  {
    if s != [] {
      var t := s[1..];
      assert s == [s[0]] + t;
      FilterCons(s[0], t, p);
      FilterCons(s[0], t, q);
      FilterNone(t, p, q);
    }
  }

  /** `past_events + future_events == sorted_events`, and the two parts
      are disjoint. */
  lemma PastThenFuture(t: Timeline, now: DateTime)
    ensures t.PastEvents(now) + t.FutureEvents(now) == t.SortedEvents()
    ensures forall e :: e in t.PastEvents(now) ==> e !in t.FutureEvents(now)
  {
    SplitSorted(t.SortedEvents(), now);
    FilterMembers(t.SortedEvents(), (e: TimelineEvent) => Before(e.date, now));
    FilterMembers(t.SortedEvents(), (e: TimelineEvent) => !Before(e.date, now));
  }

  /** `next_deadline` is None exactly when no event is a deadline after
      `now`; otherwise it is such an event, and no such event is earlier. */
  lemma NextDeadlineIsEarliest(t: Timeline, now: DateTime)
    ensures t.NextDeadline(now).None? <==> forall e :: e in t.events ==> !IsUpcomingDeadline(e, now)
    ensures t.NextDeadline(now).Some? ==>
      var n := t.NextDeadline(now).value;
      n in t.events && IsUpcomingDeadline(n, now)
      && forall e :: e in t.events && IsUpcomingDeadline(e, now) ==> !Before(e.date, n.date)
  {
    var s := t.SortedEvents();
    var p := (e: TimelineEvent) => IsUpcomingDeadline(e, now);
    var upcoming := Filter(s, p);
    FilterMembers(s, p);
    assert forall e :: e in t.events <==> e in s by {
      assert forall e :: e in t.events <==> e in multiset(t.events);
      assert forall e :: e in s <==> e in multiset(s);
    }
    if upcoming != [] {
      var n := upcoming[0];
      assert n in upcoming;
      FirstOfFilterIsEarliest(s, p);
    }
  }

  /** The first element a filter keeps from a sorted list is not later than
      any element it keeps. */
  lemma {:induction false} FirstOfFilterIsEarliest(s: seq<TimelineEvent>, p: TimelineEvent -> bool)
    requires SortedByDate(s) && Filter(s, p) != []
    ensures forall e :: e in s && p(e) ==> !Before(e.date, Filter(s, p)[0].date)
  {
    if p(s[0]) {
      forall e | e in s && p(e)
        ensures !Before(e.date, s[0].date)
      {
        var i :| 0 <= i < |s| && s[i] == e;
        if i > 0 {
        }
      }
    } else {
      assert SortedByDate(s[1..]);
      assert Filter(s, p) == Filter(s[1..], p);
      forall e | e in s && p(e)
        ensures e in s[1..]
      {
        var i :| 0 <= i < |s| && s[i] == e;
        assert i > 0;
        assert s[1..][i - 1] == e;
      }
      FirstOfFilterIsEarliest(s[1..], p);
    }
  }

  // ----- statistics -----------------------------------------------------------

  /** Dashboard statistics; float amounts are `real`s. */
  datatype GrantStatistics = GrantStatistics(
    totalGrants: int,
    activeGrants: int,
    urgentGrants: int,
    overdueGrants: int,
    totalAmountRequested: real,
    totalAmountAwarded: real,
    averageAward: real,
    submittedCount: int,
    awardedCount: int,
    deniedCount: int,
    earliestDeadline: Option<DateTime>,
    latestDeadline: Option<DateTime>)
  {
    /** `success_rate`: None when no grant was decided; otherwise the
        awarded share of decided grants, in percent. */
    function SuccessRate(): (r: Option<real>)
      ensures r.None? <==> awardedCount + deniedCount == 0
      ensures r.Some? && awardedCount >= 0 && deniedCount >= 0 ==> 0.0 <= r.value <= 100.0
      ensures r.Some? ==> r.value * (awardedCount + deniedCount) as real == awardedCount as real * 100.0
    {
      var denominator := awardedCount + deniedCount;
      if denominator == 0 then None
      else
        RatioInPercent(awardedCount, denominator);
        Some((awardedCount as real / denominator as real) * 100.0)
    }

    /** `pending_rate`: zero for an empty collection; otherwise the active
        share, in percent. */
    function PendingRate(): (r: real)
      ensures totalGrants == 0 ==> r == 0.0
      ensures 0 <= activeGrants <= totalGrants && totalGrants != 0 ==> 0.0 <= r <= 100.0
      ensures totalGrants != 0 ==> r * totalGrants as real == activeGrants as real * 100.0
    {
      if totalGrants == 0 then 0.0
      else
        RatioInPercent(activeGrants, totalGrants);
        (activeGrants as real / totalGrants as real) * 100.0
    }
  }

  /** `part / whole * 100` undoes multiplication by `whole` and lies in
      0..100 when `part` is a share of `whole`. */
  lemma RatioInPercent(part: int, whole: int)
    requires whole != 0
    ensures (part as real / whole as real) * 100.0 * whole as real == part as real * 100.0
    ensures 0 <= part <= whole ==> 0.0 <= (part as real / whole as real) * 100.0 <= 100.0
  {
    var q := part as real / whole as real;
    assert q * whole as real == part as real;
    if 0 <= part <= whole {
      assert 0.0 < whole as real;
    }
  }

  datatype FunderStatistics = FunderStatistics(
    totalOpportunities: int,
    activeOpportunities: int,
    totalAwarded: real,
    averageAward: real,
    yearsActive: int,
    firstGrantDate: Option<DateTime>,
    mostRecentGrantDate: Option<DateTime>,
    avgCycleDays: Option<real>)
  {
    /** `grants_per_year`: zero when no year is recorded. */
    function GrantsPerYear(): (r: real)
      ensures yearsActive == 0 ==> r == 0.0
      ensures yearsActive != 0 ==> r * yearsActive as real == totalOpportunities as real
      ensures yearsActive > 0 && totalOpportunities >= 0 ==> r >= 0.0
    {
      if yearsActive == 0 then 0.0
      else totalOpportunities as real / yearsActive as real
    }
  }

  /** A historical file mapped to a bernie number. */
  datatype HistoricalDocument = HistoricalDocument(
    filePath: string,
    folderPath: string,
    fileName: string,
    bernieNumber: string,
    fileSize: Option<int> := None,
    modifiedDate: Option<DateTime> := None,
    fileType: Option<string> := None)

  /** A funder's profile. The CRM payload is not modelled. */
  datatype FunderOverview = FunderOverview(
    funder: FunderEntity.Funder,
    grants: seq<Grant>,
    documents: seq<HistoricalDocument>,
    timeline: Timeline,
    statistics: FunderStatistics)
  {
    /** `has_active_grants` */
    predicate HasActiveGrants() {
      exists i :: 0 <= i < |grants| && grants[i].IsActive()
    }

    /** `has_urgent_grants`, with the default seven-day threshold. */
    predicate HasUrgentGrants(now: DateTime)
      requires IsValid(now) && forall i :: 0 <= i < |grants| ==> grants[i].DeadlineValid()
    {
      exists i :: 0 <= i < |grants| && grants[i].IsUrgent(now)
    }

    /** `next_deadline`: the date of the timeline's next deadline. */
    function NextDeadline(now: DateTime): (r: Option<DateTime>)
      ensures r.None? <==> timeline.NextDeadline(now).None?
      ensures r.Some? ==> Before(now, r.value)
    {
      match timeline.NextDeadline(now)
      case None => None
      case Some(e) => Some(e.date)
    }

    function GrantCount(): nat { |grants| }

    function DocumentCount(): nat { |documents| }
  }

  /** A funder has urgent grants exactly when one of its deadlines has not
      passed and is less than eight days away. */
  lemma UrgentGrantsWindow(o: FunderOverview, now: DateTime)
    requires IsValid(now) && forall i :: 0 <= i < |o.grants| ==> o.grants[i].DeadlineValid()
    ensures o.HasUrgentGrants(now) <==> exists i :: 0 <= i < |o.grants| && DueWithinWeek(o.grants[i], now)
  {
    forall i | 0 <= i < |o.grants|
      ensures o.grants[i].IsUrgent(now) <==> DueWithinWeek(o.grants[i], now)
    {
      UrgentWindow(o.grants[i], now, DefaultUrgencyThreshold);
    }
  }

  /** The deadline is at or after `now` and less than eight days later. */
  predicate DueWithinWeek(g: Grant, now: DateTime)
    requires IsValid(now) && g.DeadlineValid()
  {
    && g.deadline.Some?
    && !Before(g.deadline.value, now)
    && Micros(g.deadline.value) < Micros(now) + (DefaultUrgencyThreshold + 1) * MicrosPerDay
  }

  /** A funder with an active, submitted or awarded grant has active grants;
      one whose grants are all denied, withdrawn or completed has none. */
  lemma ActiveGrantsByStatus(o: FunderOverview)
    ensures (exists i :: 0 <= i < |o.grants| && o.grants[i].status in OpenStatuses) ==> o.HasActiveGrants()
    ensures (forall i :: 0 <= i < |o.grants| ==> o.grants[i].status in InactiveStatuses) ==> !o.HasActiveGrants()
  {
    forall i | 0 <= i < |o.grants| && o.grants[i].status in OpenStatuses
      ensures o.grants[i].IsActive()
    {
      OpenStatusActive(o.grants[i]);
    }
    forall i | 0 <= i < |o.grants| && o.grants[i].status in InactiveStatuses
      ensures !o.grants[i].IsActive()
    {
      ClosedStatusInactive(o.grants[i]);
    }
  }

  /** The dashboard's view of a filtered grant list. */
  datatype DashboardData = DashboardData(
    grants: seq<Grant>,
    statistics: GrantStatistics,
    timeline: Timeline,
    currentView: string,
    lastUpdated: DateTime,
    totalCount: int)
  {
    /** `has_urgent_items` */
    predicate HasUrgentItems() {
      statistics.urgentGrants > 0 || statistics.overdueGrants > 0
    }

    /** `filtered_count` */
    function FilteredCount(): nat { |grants| }
  }
}
