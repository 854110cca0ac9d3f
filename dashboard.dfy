/**
 * The dashboard server's core (server/dashboard/__init__.py): the fixed
 * registry of four data sources, the shared cache `DATA` of the last raw value
 * each source fetched, cold-start population, and the per-request snapshot
 * that formats every cached value at read time.
 *
 * Times are whole seconds of naive local wall-clock time, counted from a local
 * midnight, so that the hour and minute of an instant are plain arithmetic.
 */
module Dashboard {
  import opened Wrappers
  import opened Text
  import Recycling

  type Instant = int

  const SECONDS_PER_MINUTE := 60
  const SECONDS_PER_HOUR := 3600
  const SECONDS_PER_DAY := 86400

  function HourOf(t: Instant): (h: nat)
    ensures h < 24
  {
    (t % SECONDS_PER_DAY) / SECONDS_PER_HOUR
  }

  function MinuteOf(t: Instant): (m: nat)
    ensures m < 60
  {
    (t % SECONDS_PER_HOUR) / SECONDS_PER_MINUTE
  }

  /** `%M`: a minute as exactly two digits. */
  function TwoDigits(m: nat): (s: string)
    requires m < 100
    ensures |s| == 2 && AllDigits(s) && DigitsValue(s) == m
  {
    var s := [Digit(m / 10), Digit(m % 10)];
    assert s[..1] == [Digit(m / 10)] && s[..1][..0] == [];
    assert DigitsValue(s[..1]) == m / 10;
    assert DigitsValue(s) == 10 * (m / 10) + m % 10;
    s
  }

  /** Reads an `H:MM` or `HH:MM` clock text back into its hour and minute. */
  function ParseClock(s: string): Option<(nat, nat)> {
    if |s| >= 4 && s[|s| - 3] == ':' && AllDigits(s[..|s| - 3]) && AllDigits(s[|s| - 2..]) then
      Some((DigitsValue(s[..|s| - 3]), DigitsValue(s[|s| - 2..])))
    else None
  }

  /**
   * `strftime('%-H:%M')`: the hour without a leading zero, a colon, two-digit
   * minutes; four characters before ten o'clock and five from then on, and it
   * reads back as the instant's hour and minute.
   */
  function ClockText(t: Instant): (s: string)
    ensures |s| == (if HourOf(t) < 10 then 4 else 5)
    ensures s[|s| - 3] == ':'
    ensures ParseClock(s) == Some((HourOf(t), MinuteOf(t)))
  {
    var h, m := HourOf(t), MinuteOf(t);
    assert h >= 10 ==> |Decimal(h)| == 2 by {
      if h >= 10 {
        DecimalTwoDigits(h);
      }
    }
    DecimalValue(h);
    var s := Decimal(h) + ":" + TwoDigits(m);
    assert s[..|s| - 3] == Decimal(h);
    assert s[|s| - 2..] == TwoDigits(m);
    s
  }

  /** `math.ceil(seconds / 60)` for a positive whole number of seconds. */
  function CeilMinutes(seconds: int): (minutes: int)
    requires seconds > 0
    ensures (minutes - 1) * SECONDS_PER_MINUTE < seconds <= minutes * SECONDS_PER_MINUTE
    ensures minutes >= 1
  {
    if seconds % SECONDS_PER_MINUTE == 0 then seconds / SECONDS_PER_MINUTE
    else seconds / SECONDS_PER_MINUTE + 1
  }

  /** `BusDataSource._format_due`: how long until a bus is due, as shown on the display. */
  function FormatDue(due: Instant, now: Instant): (text: string)
    ensures || text == "due" || text == "1 min"
            || (|text| > 5 && text[|text| - 5..] == " mins")
            || ParseClock(text) == Some((HourOf(due), MinuteOf(due)))
  {
    var seconds := due - now;
    if seconds <= 0 then "due"
    else if seconds < 61 then "1 min"
    else
      var minutes := CeilMinutes(seconds);
      if minutes <= 60 then
        var text := Decimal(minutes) + " mins";
        assert text[|text| - 5..] == " mins";
        text
      else ClockText(due)
  }

  lemma SameSuffix(a: string, b: string, suffix: string)
    requires a + suffix == b + suffix
    ensures a == b
  {
    assert a == (a + suffix)[..|a|];
    assert b == (b + suffix)[..|b|];
  }

  /** "due" exactly when the bus is due now or overdue. */
  lemma FormatDueIsDue(due: Instant, now: Instant)
    ensures FormatDue(due, now) == "due" <==> due - now <= 0
  {
    var seconds := due - now;
    if seconds > 60 {
      var minutes := CeilMinutes(seconds);
      if minutes > 60 {
      }
    }
  }

  /** "1 min" exactly when the bus is due within the next minute. */
  lemma FormatDueIsOneMinute(due: Instant, now: Instant)
    ensures FormatDue(due, now) == "1 min" <==> 0 < due - now <= 60
  {
    var seconds := due - now;
    if seconds > 60 {
      var minutes := CeilMinutes(seconds);
      if minutes > 60 {
        assert "1 min"[2] != ':';
      } else {
        var r := Decimal(minutes) + " mins";
        assert |r| >= 6;
      }
    }
  }

  /**
   * "<n> mins" exactly when the bus is due in more than n - 1 and at most n
   * minutes, for n from 2 to 60: the text names the rounded-up wait.
   */
  lemma FormatDueIsMinutes(due: Instant, now: Instant, n: nat)
    ensures FormatDue(due, now) == Decimal(n) + " mins" <==>
      2 <= n <= 60 && (n - 1) * SECONDS_PER_MINUTE < due - now <= n * SECONDS_PER_MINUTE
  {
    var seconds := due - now;
    var text := Decimal(n) + " mins";
    assert |text| >= 6;
    assert text[|text| - 3] == 'i';
    if seconds > 60 {
      var minutes := CeilMinutes(seconds);
      if minutes > 60 {
      } else if FormatDue(due, now) == text {
        SameSuffix(Decimal(minutes), Decimal(n), " mins");
        DecimalInjective(minutes, n);
      }
    }
    if 2 <= n <= 60 && (n - 1) * SECONDS_PER_MINUTE < seconds <= n * SECONDS_PER_MINUTE {
      assert CeilMinutes(seconds) == n;
    }
  }

  /** Beyond an hour away the due clock time is shown instead. */
  lemma FormatDueIsClockTime(due: Instant, now: Instant)
    ensures due - now > SECONDS_PER_HOUR ==> FormatDue(due, now) == ClockText(due)
    ensures due - now <= SECONDS_PER_HOUR ==> FormatDue(due, now) != ClockText(due)
  {
    var seconds := due - now;
    if 60 < seconds <= SECONDS_PER_HOUR {
      var text := Decimal(CeilMinutes(seconds)) + " mins";
      assert text[|text| - 3] == 'i';
    } else if 0 < seconds <= 60 {
      assert "1 min"[2] != ':';
    }
  }

  /**
   * The text is relative to the time of the read, not of the fetch: two reads
   * of one cached due time five minutes apart show different text whenever
   * the first read shows a count of minutes above five.
   */
  lemma FormatDueIsTimeRelative(due: Instant, now: Instant)
    requires 5 * SECONDS_PER_MINUTE < due - now <= SECONDS_PER_HOUR
    ensures FormatDue(due, now) != FormatDue(due, now + 5 * SECONDS_PER_MINUTE)
  {
    var n := CeilMinutes(due - now);
    FormatDueIsMinutes(due, now, n);
    FormatDueIsMinutes(due, now + 5 * SECONDS_PER_MINUTE, n);
  }

  /** Sample values with the clock at 10:00:00; a bus 30 s away already reads "1 min". */
  lemma FormatDueExamples()
    ensures FormatDue(10 * 3600, 10 * 3600) == "due"
    ensures FormatDue(10 * 3600 + 30, 10 * 3600) == "1 min"
    ensures FormatDue(10 * 3600 + 45, 10 * 3600) == "1 min"
    ensures FormatDue(10 * 3600 + 300, 10 * 3600) == "5 mins"
    ensures FormatDue(11 * 3600 + 600, 10 * 3600) == "11:10"
  {
    assert Decimal(11) == "11";
    assert TwoDigits(10) == "10";
  }

  /** One arrival as fetched: route, destination and due time. */
  datatype Arrival = Arrival(route: string, destination: string, due: Instant)
  /** One stop as fetched: its name and its arrivals. */
  datatype Stop = Stop(name: string, arrivals: seq<Arrival>)
  /** One arrival as served: the due time replaced by its text. */
  datatype ArrivalView = ArrivalView(route: string, destination: string, due: string)
  datatype StopView = StopView(name: string, buses: seq<ArrivalView>)

  predicate ArrivalFormatted(a: Arrival, v: ArrivalView, now: Instant) {
    v.route == a.route && v.destination == a.destination && v.due == FormatDue(a.due, now)
  }

  /** Every stop and every arrival kept, in order, with only the due times replaced. */
  predicate StopsFormatted(stops: seq<Stop>, views: seq<StopView>, now: Instant) {
    && |views| == |stops|
    && forall i | 0 <= i < |stops| ::
      && views[i].name == stops[i].name
      && |views[i].buses| == |stops[i].arrivals|
      && forall j | 0 <= j < |stops[i].arrivals| ::
        ArrivalFormatted(stops[i].arrivals[j], views[i].buses[j], now)
  }

  /** The list comprehension over one stop's arrivals. */
  function FormatArrivals(arrivals: seq<Arrival>, now: Instant): (views: seq<ArrivalView>)
    ensures |views| == |arrivals|
    ensures forall j | 0 <= j < |arrivals| :: ArrivalFormatted(arrivals[j], views[j], now)
  {
    seq(|arrivals|, j requires 0 <= j < |arrivals| =>
      ArrivalView(arrivals[j].route, arrivals[j].destination, FormatDue(arrivals[j].due, now)))
  }

  /** `BusDataSource.format_data`: one entry appended per stop. */
  method FormatBusStops(stops: seq<Stop>, now: Instant) returns (views: seq<StopView>)
    ensures StopsFormatted(stops, views, now)
  {
    views := [];
    for i := 0 to |stops|
      invariant StopsFormatted(stops[..i], views, now)
    {
      views := views + [StopView(stops[i].name, FormatArrivals(stops[i].arrivals, now))];
    }
    assert stops[..|stops|] == stops;
  }

  datatype SunView = SunView(event: string, time: string)

  /** The next sun event: sunset while the sun is up (strictly between), else sunrise. */
  function SunEvent(sunrise: Instant, sunset: Instant, now: Instant): (sun: SunView)
    ensures sun.event == "Sunset" <==> sunrise < now < sunset
    ensures sun.event == "Sunset" || sun.event == "Sunrise"
    ensures sun.time == ClockText(if sun.event == "Sunset" then sunset else sunrise)
  {
    if sunrise < now < sunset then SunView("Sunset", ClockText(sunset))
    else SunView("Sunrise", ClockText(sunrise))
  }

  /**
   * The locale- and float-dependent renderings the formatters use, passed in:
   * `strftime('%A %d %B')` of a date and `f'{x:.0f}'` of a float.
   */
  datatype Renderers = Renderers(longDate: Recycling.Date -> string, wholeNumber: real -> string)

  /** The raw value each source fetches. */
  datatype Raw =
    | DateRaw(text: string)
    | BusRaw(stops: seq<Stop>)
    | WeatherRaw(temperature: real, rain: real, sunrise: Instant, sunset: Instant)
    | RecyclingRaw(collection: Recycling.Collection)

  /** The formatted value each source contributes to a snapshot. */
  datatype View =
    | DateView(text: string)
    | BusView(stops: seq<StopView>)
    | WeatherView(temperature: string, rain: string, sun: SunView)
    | RecyclingView(date: string, kind: string)

  /** The four concrete data sources. */
  datatype Source = DateSource | BusSource | WeatherSource | RecyclingSource {
    /** `get_name`: the cache key and JSON key. */
    function Name(): string {
      match this
      case DateSource => "date"
      case BusSource => "bus_stops"
      case WeatherSource => "weather"
      case RecyclingSource => "recycling"
    }

    /** The raw value has the shape this source's `get_data` returns. */
    predicate Produces(raw: Raw) {
      match this
      case DateSource => raw.DateRaw?
      case BusSource => raw.BusRaw?
      case WeatherSource => raw.WeatherRaw?
      case RecyclingSource => raw.RecyclingRaw?
    }
  }

  /** `DATA_SOURCES`, in registry order. */
  const DATA_SOURCES: seq<Source> := [DateSource, BusSource, WeatherSource, RecyclingSource]

  /** The registered source with a given name, if any. */
  function SourceNamed(name: string): (r: Option<Source>)
    ensures r.Some? ==> r.value in DATA_SOURCES && r.value.Name() == name
    ensures r.None? ==> forall i | 0 <= i < |DATA_SOURCES| :: DATA_SOURCES[i].Name() != name
  {
    if name == "date" then Some(DateSource)
    else if name == "bus_stops" then Some(BusSource)
    else if name == "weather" then Some(WeatherSource)
    else if name == "recycling" then Some(RecyclingSource)
    else None
  }

  /** Registered sources have distinct names, so each owns one cache key. */
  lemma NamesIdentifySources(s: Source, t: Source)
    ensures s.Name() == t.Name() <==> s == t
    ensures SourceNamed(s.Name()) == Some(s)
  {
  }

  /** What `format_data` of each source gives for a raw value at time now. */
  predicate Formatted(source: Source, raw: Raw, view: View, now: Instant, render: Renderers) {
    match source
    case DateSource => raw.DateRaw? && view == DateView(raw.text)
    case BusSource => raw.BusRaw? && view.BusView? && StopsFormatted(raw.stops, view.stops, now)
    case WeatherSource =>
      && raw.WeatherRaw?
      && view == WeatherView(render.wholeNumber(raw.temperature), render.wholeNumber(raw.rain) + "%",
                             SunEvent(raw.sunrise, raw.sunset, now))
    case RecyclingSource =>
      && raw.RecyclingRaw?
      && view == RecyclingView(render.longDate(raw.collection.date), raw.collection.kind)
  }

  /**
   * The first n registered sources all have entries in both maps, and each
   * view is the formatting of the cached raw value.
   */
  predicate FormattedUpTo(data: map<string, Raw>, views: map<string, View>, n: nat, now: Instant, render: Renderers)
    requires n <= |DATA_SOURCES|
  {
    n > 0 ==>
      var source := DATA_SOURCES[n - 1];
      && FormattedUpTo(data, views, n - 1, now, render)
      && source.Name() in data && source.Name() in views
      && Formatted(source, data[source.Name()], views[source.Name()], now, render)
  }

  lemma {:induction false} FormattedUpToMeans(data: map<string, Raw>, views: map<string, View>, n: nat, now: Instant, render: Renderers)
    requires n <= |DATA_SOURCES|
    requires FormattedUpTo(data, views, n, now, render)
    ensures forall i | 0 <= i < n ::
      var name := DATA_SOURCES[i].Name();
      name in data && name in views && Formatted(DATA_SOURCES[i], data[name], views[name], now, render)
  {
    if n > 0 {
      FormattedUpToMeans(data, views, n - 1, now, render);
    }
  }

  /** Adding the view of a later source keeps the views of earlier sources. */
  lemma {:induction false} FormattedUpToExtend(data: map<string, Raw>, views: map<string, View>, n: nat, now: Instant, render: Renderers, view: View)
    requires n < |DATA_SOURCES|
    requires FormattedUpTo(data, views, n, now, render)
    requires DATA_SOURCES[n].Name() in data
    requires Formatted(DATA_SOURCES[n], data[DATA_SOURCES[n].Name()], view, now, render)
    ensures FormattedUpTo(data, views[DATA_SOURCES[n].Name() := view], n + 1, now, render)
  {
    var name := DATA_SOURCES[n].Name();
    NamesDistinct();
    FormattedUpToKeep(data, views, n, now, render, name, view);
  }

  lemma {:induction false} FormattedUpToKeep(data: map<string, Raw>, views: map<string, View>, n: nat, now: Instant, render: Renderers, name: string, view: View)
    requires n <= |DATA_SOURCES|
    requires FormattedUpTo(data, views, n, now, render)
    requires forall k | 0 <= k < n :: DATA_SOURCES[k].Name() != name
    ensures FormattedUpTo(data, views[name := view], n, now, render)
  {
    if n > 0 {
      FormattedUpToKeep(data, views, n - 1, now, render, name, view);
      var other := DATA_SOURCES[n - 1].Name();
      assert views[name := view][other] == views[other];
    }
  }

  /** `format_data`, dispatched on the source. */
  method FormatData(source: Source, raw: Raw, now: Instant, render: Renderers) returns (view: View)
    requires source.Produces(raw)
    ensures Formatted(source, raw, view, now, render)
  {
    match source
    case DateSource =>
      view := DateView(raw.text);
    case BusSource =>
      var stops := FormatBusStops(raw.stops, now);
      view := BusView(stops);
    case WeatherSource =>
      var sun := SunEvent(raw.sunrise, raw.sunset, now);
      view := WeatherView(render.wholeNumber(raw.temperature), render.wholeNumber(raw.rain) + "%", sun);
    case RecyclingSource =>
      view := RecyclingView(render.longDate(raw.collection.date), raw.collection.kind);
  }

  /** The exception a source's `get_data` raised. */
  datatype FetchError = FetchError(message: string)

  /** `KeyError(name)` from reading a source that has no cache entry. */
  datatype KeyError = KeyError(key: string)

  /** One fetch of one source and its outcome. */
  datatype Update = Update(source: Source, outcome: Result<Raw, FetchError>)

  /** Every cache key belongs to a registered source and holds that source's kind of value. */
  predicate WellTyped(data: map<string, Raw>) {
    forall name | name in data :: SourceNamed(name).Some? && SourceNamed(name).value.Produces(data[name])
  }

  /**
   * The cache after one fetch: a success replaces the source's own entry, a
   * failure changes nothing; no other entry is ever touched.
   */
  function Updated(data: map<string, Raw>, u: Update): (r: map<string, Raw>)
    ensures u.outcome.Success? ==> r.Keys == data.Keys + {u.source.Name()} && r[u.source.Name()] == u.outcome.value
    ensures u.outcome.Failure? ==> r == data
    ensures forall name | name != u.source.Name() :: (name in r <==> name in data) && (name in r ==> r[name] == data[name])
  {
    if u.outcome.Success? then data[u.source.Name() := u.outcome.value] else data
  }

  /** The cache after a series of fetches, in order. */
  function ApplyAll(data: map<string, Raw>, updates: seq<Update>): (r: map<string, Raw>)
    ensures data.Keys <= r.Keys
    ensures forall name | name in r && name !in data :: exists k | 0 <= k < |updates| :: Refreshes(updates[k], name)
    decreases |updates|
  {
    if updates == [] then data
    else
      var r := ApplyAll(Updated(data, updates[0]), updates[1..]);
      assert forall name | name in r && name !in data :: exists k | 0 <= k < |updates| :: Refreshes(updates[k], name) by {
        forall name | name in r && name !in data
          ensures exists k | 0 <= k < |updates| :: Refreshes(updates[k], name)
        {
          if name in Updated(data, updates[0]) {
            assert Refreshes(updates[0], name);
          } else {
            var k :| 0 <= k < |updates| - 1 && Refreshes(updates[1..][k], name);
            assert Refreshes(updates[k + 1], name);
          }
        }
      }
      r
  }

  /** A fetch that succeeded for `name`. */
  predicate Refreshes(u: Update, name: string) {
    u.outcome.Success? && u.source.Name() == name
  }

  lemma {:induction false} ApplyAllAppend(data: map<string, Raw>, a: seq<Update>, b: seq<Update>)
    ensures ApplyAll(data, a + b) == ApplyAll(ApplyAll(data, a), b)
    decreases |a|
  {
    if a == [] {
      assert a + b == b;
    } else {
      assert (a + b)[1..] == a[1..] + b;
      ApplyAllAppend(Updated(data, a[0]), a[1..], b);
    }
  }

  /**
   * Isolation: fetches that never succeed for `name` (failures of any source,
   * successes of other sources) leave its entry, or its absence, as it was.
   */
  lemma {:induction false} EntryUntouched(data: map<string, Raw>, updates: seq<Update>, name: string)
    requires forall k | 0 <= k < |updates| :: !Refreshes(updates[k], name)
    ensures name in ApplyAll(data, updates) <==> name in data
    ensures name in data ==> ApplyAll(data, updates)[name] == data[name]
    decreases |updates|
  {
    if updates != [] {
      assert !Refreshes(updates[0], name);
      EntryUntouched(Updated(data, updates[0]), updates[1..], name);
    }
  }

  /**
   * Staleness over loss: after a successful fetch followed by any number of
   * fetches none of which succeed for that source, the entry still holds the
   * value of that last success.
   */
  lemma LastSuccessKept(data: map<string, Raw>, before: seq<Update>, source: Source, raw: Raw, after: seq<Update>)
    requires forall k | 0 <= k < |after| :: !Refreshes(after[k], source.Name())
    ensures var final := ApplyAll(data, before + [Update(source, Success(raw))] + after);
      source.Name() in final && final[source.Name()] == raw
  {
    var success := Update(source, Success(raw));
    ApplyAllAppend(data, before + [success], after);
    ApplyAllAppend(data, before, [success]);
    var mid := ApplyAll(data, before + [success]);
    assert ApplyAll(ApplyAll(data, before), [success]) == Updated(ApplyAll(data, before), success);
    EntryUntouched(mid, after, source.Name());
  }

  /** The names of the first n registered sources. */
  function NamesUpTo(n: nat): set<string>
    requires n <= |DATA_SOURCES|
  {
    if n == 0 then {} else NamesUpTo(n - 1) + {DATA_SOURCES[n - 1].Name()}
  }

  /** The names of all registered sources. */
  function RegisteredNames(): set<string> {
    NamesUpTo(|DATA_SOURCES|)
  }

  /** The registered names are exactly the four source names, one per registry slot. */
  lemma RegisteredNamesAre()
    ensures RegisteredNames() == {"date", "bus_stops", "weather", "recycling"}
    ensures forall i | 0 <= i < |DATA_SOURCES| :: DATA_SOURCES[i].Name() in RegisteredNames()
  {
    assert NamesUpTo(1) == {"date"};
    assert NamesUpTo(2) == {"date", "bus_stops"};
    assert NamesUpTo(3) == {"date", "bus_stops", "weather"};
  }

  /** Distinct registry slots hold sources with distinct names. */
  lemma NamesDistinct()
    ensures forall j, k | 0 <= j < k < |DATA_SOURCES| :: DATA_SOURCES[j].Name() != DATA_SOURCES[k].Name()
  {
  }

  /** `NamesUpTo(n)` holds the names of registry slots below n and no others. */
  lemma {:induction false} NamesUpToMembers(n: nat)
    requires n <= |DATA_SOURCES|
    ensures forall x :: x in NamesUpTo(n) <==> exists k | 0 <= k < n :: DATA_SOURCES[k].Name() == x
  {
    if n > 0 {
      NamesUpToMembers(n - 1);
    }
  }

  /** A well-typed cache holds entries for registered sources only. */
  lemma WellTypedKeys(data: map<string, Raw>)
    requires WellTyped(data)
    ensures data.Keys <= RegisteredNames()
  {
    RegisteredNamesAre();
  }

  /** The fetches `initialise_data_fetching` makes: one per source, in registry order. */
  function InitialUpdates(fetched: seq<Result<Raw, FetchError>>): (us: seq<Update>)
    requires |fetched| == |DATA_SOURCES|
    ensures |us| == |fetched|
    ensures forall i | 0 <= i < |us| :: us[i].source == DATA_SOURCES[i] && us[i].outcome == fetched[i]
  {
    seq(|fetched|, i requires 0 <= i < |fetched| => Update(DATA_SOURCES[i], fetched[i]))
  }

  /**
   * After the initial round each source's entry holds what its own fetch
   * returned, or, if that fetch failed, whatever it held before (nothing, at
   * start-up): no source's failure or success affects another's entry.
   */
  lemma InitialisedEntries(data: map<string, Raw>, fetched: seq<Result<Raw, FetchError>>, i: nat)
    requires |fetched| == |DATA_SOURCES| && i < |DATA_SOURCES|
    ensures var final := ApplyAll(data, InitialUpdates(fetched));
      var name := DATA_SOURCES[i].Name();
      && (fetched[i].Success? ==> name in final && final[name] == fetched[i].value)
      && (fetched[i].Failure? ==> (name in final <==> name in data) && (name in final ==> final[name] == data[name]))
  {
    var us := InitialUpdates(fetched);
    var name := DATA_SOURCES[i].Name();
    var before, after := us[..i], us[i + 1..];
    assert us == before + [us[i]] + after;
    forall k | 0 <= k < |after|
      ensures !Refreshes(after[k], name)
    {
      assert after[k] == us[i + 1 + k];
    }
    if fetched[i].Success? {
      LastSuccessKept(data, before, DATA_SOURCES[i], fetched[i].value, after);
    } else {
      forall k | 0 <= k < |us|
        ensures !Refreshes(us[k], name)
      {
      }
      EntryUntouched(data, us, name);
    }
  }

  /** The module-level state: `DATA`, the last successfully fetched raw value per source. */
  class Cache {
    var data: map<string, Raw>

    /** `DATA = {}` at import time. */
    constructor ()
      ensures data == map[]
    {
      data := map[];
    }

    /**
     * `_update_data_source`: the fetched value replaces the source's entry; an
     * exception from the fetch is logged and the cache is left as it was.
     */
    method UpdateDataSource(source: Source, fetched: Result<Raw, FetchError>)
      requires WellTyped(data)
      requires fetched.Success? ==> source.Produces(fetched.value)
      modifies this
      ensures WellTyped(data)
      ensures data == Updated(old(data), Update(source, fetched))
    {
      match fetched
      case Success(raw) =>
        data := data[source.Name() := raw];
      case Failure(_) =>
    }

    /**
     * The sequential part of `initialise_data_fetching`: every registered
     * source is fetched once, in registry order; `fetched[i]` is the outcome of
     * the fetch of `DATA_SOURCES[i]`.
     */
    method InitialiseDataFetching(fetched: seq<Result<Raw, FetchError>>)
      requires WellTyped(data)
      requires |fetched| == |DATA_SOURCES|
      requires forall i | 0 <= i < |fetched| :: fetched[i].Success? ==> DATA_SOURCES[i].Produces(fetched[i].value)
      modifies this
      ensures WellTyped(data)
      ensures data == ApplyAll(old(data), InitialUpdates(fetched))
    {
      ghost var us := InitialUpdates(fetched);
      for i := 0 to |DATA_SOURCES|
        invariant WellTyped(data)
        invariant data == ApplyAll(old(data), us[..i])
      {
        ApplyAllAppend(old(data), us[..i], [us[i]]);
        assert us[..i + 1] == us[..i] + [us[i]];
        UpdateDataSource(DATA_SOURCES[i], fetched[i]);
      }
      assert us[..|DATA_SOURCES|] == us;
    }

    /**
     * `get_data`: one entry per registered source, each the source's
     * `format_data` of its cached value at the time of the read. A source with
     * no cache entry raises KeyError for the first such source in registry
     * order; nothing is omitted.
     */
    method GetData(now: Instant, render: Renderers) returns (r: Result<map<string, View>, KeyError>)
      requires WellTyped(data)
      ensures r.Success? <==> forall i | 0 <= i < |DATA_SOURCES| :: DATA_SOURCES[i].Name() in data
      ensures r.Success? ==> r.value.Keys == RegisteredNames()
      ensures r.Success? ==> forall i | 0 <= i < |DATA_SOURCES| ::
        var name := DATA_SOURCES[i].Name();
        name in data && name in r.value && Formatted(DATA_SOURCES[i], data[name], r.value[name], now, render)
      ensures r.Failure? ==> exists i | 0 <= i < |DATA_SOURCES| ::
        && DATA_SOURCES[i].Name() == r.error.key
        && r.error.key !in data
        && forall k | 0 <= k < i :: DATA_SOURCES[k].Name() in data
    {
      RegisteredNamesAre();
      NamesDistinct();
      var result: map<string, View> := map[];
      for i := 0 to |DATA_SOURCES|
        invariant result.Keys == NamesUpTo(i)
        invariant forall k | 0 <= k < i :: DATA_SOURCES[k].Name() in data
        invariant FormattedUpTo(data, result, i, now, render)
      {
        var source := DATA_SOURCES[i];
        var name := source.Name();
        if name !in data {
          return Failure(KeyError(name));
        }
        var view := FormatData(source, data[name], now, render);
        FormattedUpToExtend(data, result, i, now, render, view);
        result := result[name := view];
      }
      NamesUpToMembers(|DATA_SOURCES|);
      FormattedUpToMeans(data, result, |DATA_SOURCES|, now, render);
      r := Success(result);
    }
  }
}
