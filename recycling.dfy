/**
 * Selection of the next bin collection from the council's calendar
 * (server/dashboard/recycling.py). The HTTP download, the iCalendar parsing
 * and the expansion of recurring events are the calendar library's; the model
 * receives that library's answer as the function `between`.
 */
module Recycling {
  import opened Wrappers
  import opened Text

  /** A calendar date, as a day number (like Python's `date.toordinal()`). */
  type Date = int

  /** How far ahead the calendar is queried. */
  const LOOKAHEAD_DAYS := 30

  const RECYCLING := "Recycling"
  const GENERAL_WASTE := "General Waste"
  /** The keyword whose presence in a summary marks a recycling collection. */
  const KEYWORD := "RECYCLING"

  /** An event's DTSTART: a plain date (an all-day event) or a date with a time. */
  datatype Start = AllDay(date: Date) | Timed(date: Date, secondOfDay: int)

  datatype Event = Event(start: Start, summary: string)

  /** The `RecyclingCollection` record: a date and a type. */
  datatype Collection = Collection(date: Date, kind: string)

  /** Indexing the empty candidate list raises IndexError. */
  datatype CollectionError = NoCollection

  /** The collection type of an event, from its stripped summary. */
  function Classify(summary: string): (kind: string)
    ensures kind == RECYCLING || kind == GENERAL_WASTE
  {
    if Contains(Strip(summary), KEYWORD) then RECYCLING else GENERAL_WASTE
  }

  /** Stripping the summary never changes its type: only the keyword decides. */
  lemma ClassifyByKeyword(summary: string)
    ensures Classify(summary) == RECYCLING <==> Contains(summary, KEYWORD)
    ensures Classify(summary) == GENERAL_WASTE <==> !Contains(summary, KEYWORD)
  {
    ContainsStrip(summary, KEYWORD);
  }

  /** The collection an all-day event stands for. */
  function Candidate(e: Event): Collection
    requires e.start.AllDay?
  {
    Collection(e.start.date, Classify(e.summary))
  }

  /** The candidate list the loop builds: one entry per all-day event, in order. */
  function Candidates(events: seq<Event>): (r: seq<Collection>)
    ensures |r| <= |events|
    ensures (forall i | 0 <= i < |events| :: events[i].start.AllDay?) ==> |r| == |events|
  {
    if events == [] then []
    else
      var rest := Candidates(events[..|events| - 1]);
      var e := events[|events| - 1];
      if e.start.AllDay? then rest + [Candidate(e)] else rest
  }

  /** Every candidate comes from an all-day event, and every all-day event gives one. */
  lemma {:induction false} CandidatesAreAllDayEvents(events: seq<Event>)
    ensures forall k | 0 <= k < |Candidates(events)| ::
      exists i | 0 <= i < |events| :: events[i].start.AllDay? && Candidates(events)[k] == Candidate(events[i])
    ensures forall i | 0 <= i < |events| && events[i].start.AllDay? :: Candidate(events[i]) in Candidates(events)
    ensures Candidates(events) == [] <==> forall i | 0 <= i < |events| :: !events[i].start.AllDay?
  {
    if events != [] {
      var front := events[..|events| - 1];
      CandidatesAreAllDayEvents(front);
      var cs := Candidates(events);
      forall k | 0 <= k < |cs|
        ensures exists i | 0 <= i < |events| :: events[i].start.AllDay? && cs[k] == Candidate(events[i])
      {
        if k < |Candidates(front)| {
          var i :| 0 <= i < |front| && front[i].start.AllDay? && Candidates(front)[k] == Candidate(front[i]);
          assert events[i] == front[i];
        } else {
          assert events[|events| - 1].start.AllDay? && cs[k] == Candidate(events[|events| - 1]);
        }
      }
      forall i | 0 <= i < |events| && events[i].start.AllDay?
        ensures Candidate(events[i]) in cs
      {
        if i < |front| {
          assert front[i] == events[i];
        }
      }
      if cs != [] {
        var i :| 0 <= i < |events| && events[i].start.AllDay? && cs[0] == Candidate(events[i]);
      }
    } else {
      assert Candidates(events) == [];
    }
  }

  /** c is the earliest-dated collection of cs, and the first of those in list order. */
  predicate FirstEarliest(cs: seq<Collection>, c: Collection) {
    exists i | 0 <= i < |cs| :: cs[i] == c && EarliestAt(cs, i)
  }

  predicate EarliestAt(cs: seq<Collection>, i: int)
    requires 0 <= i < |cs|
  {
    && (forall j | 0 <= j < |cs| :: cs[i].date <= cs[j].date)
    && (forall j | 0 <= j < i :: cs[i].date < cs[j].date)
  }

  /** Inserts c in front of the first element that is not earlier than it. */
  function Insert(c: Collection, sorted: seq<Collection>): (r: seq<Collection>)
    ensures |r| == |sorted| + 1
    ensures multiset(r) == multiset(sorted) + multiset{c}
  {
    if sorted == [] || c.date <= sorted[0].date then [c] + sorted
    else
      assert sorted == [sorted[0]] + sorted[1..];
      [sorted[0]] + Insert(c, sorted[1..])
  }

  /**
   * `collections.sort(key=date)`: a stable sort by date. Elements are inserted
   * from the back, each in front of its equals, so equal dates keep input order.
   */
  function SortByDate(cs: seq<Collection>): (r: seq<Collection>)
    ensures multiset(r) == multiset(cs)
  {
    if cs == [] then []
    else
      assert cs == [cs[0]] + cs[1..];
      Insert(cs[0], SortByDate(cs[1..]))
  }

  predicate SortedByDate(cs: seq<Collection>) {
    forall i, j | 0 <= i < j < |cs| :: cs[i].date <= cs[j].date
  }

  lemma {:induction false} InsertSorted(c: Collection, sorted: seq<Collection>)
    requires SortedByDate(sorted)
    ensures SortedByDate(Insert(c, sorted))
  {
    if sorted != [] && c.date > sorted[0].date {
      var tail := Insert(c, sorted[1..]);
      InsertSorted(c, sorted[1..]);
      assert sorted[0].date <= tail[0].date by {
        if |sorted| > 1 && c.date > sorted[1].date {
          assert tail[0] == sorted[1];
        }
      }
      var r := [sorted[0]] + tail;
      forall i, j | 0 <= i < j < |r|
        ensures r[i].date <= r[j].date
      {
        if i == 0 {
          assert r[j] == tail[j - 1];
          assert tail[0].date <= tail[j - 1].date;
        } else {
          assert r[i] == tail[i - 1] && r[j] == tail[j - 1];
        }
      }
    } else {
      var r := Insert(c, sorted);
      forall i, j | 0 <= i < j < |r|
        ensures r[i].date <= r[j].date
      {
        assert r[j] == sorted[j - 1];
        if i > 0 {
          assert r[i] == sorted[i - 1];
        }
      }
    }
  }

  /** The sort's result is ordered by date and is a permutation of its input. */
  lemma {:induction false} SortByDateCorrect(cs: seq<Collection>)
    ensures SortedByDate(SortByDate(cs))
    ensures multiset(SortByDate(cs)) == multiset(cs)
  {
    if cs != [] {
      SortByDateCorrect(cs[1..]);
      InsertSorted(cs[0], SortByDate(cs[1..]));
    }
  }

  /** Putting c in front of tail moves the first earliest element to c exactly when c is no later. */
  lemma EarliestCons(c: Collection, tail: seq<Collection>, i: nat)
    requires i < |tail| && EarliestAt(tail, i)
    ensures c.date <= tail[i].date ==> EarliestAt([c] + tail, 0)
    ensures c.date > tail[i].date ==> EarliestAt([c] + tail, i + 1)
  {
    var cs := [c] + tail;
    assert forall j | 0 < j < |cs| :: cs[j] == tail[j - 1];
  }

  /** The head of the stable sort is the first of the earliest-dated elements. */
  lemma {:induction false} SortedHeadIsFirstEarliest(cs: seq<Collection>)
    requires cs != []
    ensures FirstEarliest(cs, SortByDate(cs)[0])
  {
    var tail := cs[1..];
    var rest := SortByDate(tail);
    assert cs == [cs[0]] + tail;
    if tail == [] {
      assert EarliestAt(cs, 0);
    } else {
      SortedHeadIsFirstEarliest(tail);
      var i :| 0 <= i < |tail| && tail[i] == rest[0] && EarliestAt(tail, i);
      EarliestCons(cs[0], tail, i);
      if cs[0].date > rest[0].date {
        assert cs[i + 1] == rest[0];
      }
    }
  }

  /**
   * `get_next_recycling_collection`: queries the calendar from today to
   * LOOKAHEAD_DAYS later, keeps the all-day events, classifies each, sorts the
   * candidates by date and returns the first; with no candidate it fails.
   */
  method NextCollection(today: Date, between: (Date, Date) -> seq<Event>)
    returns (r: Result<Collection, CollectionError>)
    ensures var cs := Candidates(between(today, today + LOOKAHEAD_DAYS));
      && (r.Failure? <==> cs == [])
      && (r.Success? ==> FirstEarliest(cs, r.value))
  {
    var events := between(today, today + LOOKAHEAD_DAYS);
    var collections: seq<Collection> := [];
    for k := 0 to |events|
      invariant collections == Candidates(events[..k])
    {
      assert events[..k + 1][..k] == events[..k];
      var e := events[k];
      if e.start.AllDay? {
        var kind := Classify(e.summary);
        collections := collections + [Collection(e.start.date, kind)];
      }
    }
    assert events[..|events|] == events;
    var sorted := SortByDate(collections);
    if |sorted| == 0 {
      return Failure(NoCollection);
    }
    SortedHeadIsFirstEarliest(collections);
    r := Success(sorted[0]);
  }
}
