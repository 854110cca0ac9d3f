/**
 * The e-ink client's copy of the dashboard (client/lib/State/State.h) and the
 * decoder that fills it from the server's JSON (`fetchState` in
 * client/lib/State/State.cpp). Every text field is a fixed-size C character
 * buffer written with `strcpy`; the two bus stops and five people are
 * fixed-size arrays written in place.
 *
 * The decoder checks none of its bounds. Each `strcpy` needs a source
 * shorter than its buffer, the bus list of a stop may hold at most five
 * entries, and the `at_home` object at most five pairs. Writing past any of
 * them is undefined behaviour in C, so here they are the predicate `Fits`,
 * required of the document.
 */
module ClientState {
  import opened Wrappers

  const BUS_STOPS := 2
  const BUS_TIMES := 5
  const PEOPLE_COUNT := 5

  const DATE_SIZE := 22
  const TEMPERATURE_SIZE := 4
  const RAIN_SIZE := 4
  const SUN_EVENT_SIZE := 9
  const SUN_TIME_SIZE := 6
  const ROUTE_SIZE := 4
  const DESTINATION_SIZE := 32
  const DUE_SIZE := 8
  const STOP_NAME_SIZE := 32
  const PERSON_NAME_SIZE := 6

  const NUL: char := '\0'

  /** The text type that marks a general-waste collection; any other is recycling. */
  const GENERAL_WASTE_TEXT := "General Waste"

  /** The C string a character sequence holds: everything before the first NUL. */
  function CString(buf: seq<char>): (s: string)
    ensures |s| <= |buf| && s == buf[..|s|]
    ensures NUL !in s
    ensures |s| < |buf| ==> buf[|s|] == NUL
  {
    if buf == [] || buf[0] == NUL then []
    else [buf[0]] + CString(buf[1..])
  }

  lemma {:induction false} CStringTerminated(s: string, tail: seq<char>)
    requires NUL !in s
    ensures CString(s + [NUL] + tail) == s
  {
    if s != [] {
      assert (s + [NUL] + tail)[1..] == s[1..] + [NUL] + tail;
      CStringTerminated(s[1..], tail);
    }
  }

  /** The source text fits a buffer of the given size, terminator included. */
  predicate FitsIn(src: string, size: nat) {
    |CString(src)| < size
  }

  /**
   * `strcpy(dst, src)` into a buffer: the C string of src, then a NUL, then
   * whatever the buffer held after that.
   */
  function StrCpy(dst: seq<char>, src: string): (r: seq<char>)
    requires FitsIn(src, |dst|)
    ensures |r| == |dst|
    ensures CString(r) == CString(src)
    ensures r[|CString(src)| + 1..] == dst[|CString(src)| + 1..]
  {
    var s := CString(src);
    CStringTerminated(s, dst[|s| + 1..]);
    s + [NUL] + dst[|s| + 1..]
  }

  /** A buffer of n NUL characters: how a zero-initialised global starts. */
  function Zeros(n: nat): (buf: seq<char>)
    ensures |buf| == n && CString(buf) == []
  {
    seq(n, _ => NUL)
  }

  datatype Weather = Weather(outsideTemperature: seq<char>, rainChance: seq<char>, sunEvent: seq<char>, sunTime: seq<char>)

  datatype CollectionType = GeneralWaste | Recycling

  datatype Collection = Collection(date: seq<char>, kind: CollectionType)

  datatype BusTime = BusTime(route: seq<char>, destination: seq<char>, due: seq<char>)

  datatype BusStop = BusStop(name: seq<char>, timeCount: nat, times: seq<BusTime>)

  datatype Person = Person(name: seq<char>, atHome: bool)

  /** The whole `State` struct as a value. */
  datatype Snapshot = Snapshot(
    currentDate: seq<char>,
    weather: Weather,
    recycling: Collection,
    busStops: seq<BusStop>,
    people: seq<Person>)

  predicate BusTimeShaped(t: BusTime) {
    |t.route| == ROUTE_SIZE && |t.destination| == DESTINATION_SIZE && |t.due| == DUE_SIZE
  }

  predicate BusStopShaped(stop: BusStop) {
    && |stop.name| == STOP_NAME_SIZE
    && |stop.times| == BUS_TIMES
    && forall j | 0 <= j < BUS_TIMES :: BusTimeShaped(stop.times[j])
  }

  predicate PersonShaped(p: Person) {
    |p.name| == PERSON_NAME_SIZE
  }

  /** Every buffer and array has the size State.h declares. */
  predicate Shaped(s: Snapshot) {
    && |s.currentDate| == DATE_SIZE
    && |s.weather.outsideTemperature| == TEMPERATURE_SIZE
    && |s.weather.rainChance| == RAIN_SIZE
    && |s.weather.sunEvent| == SUN_EVENT_SIZE
    && |s.weather.sunTime| == SUN_TIME_SIZE
    && |s.recycling.date| == DATE_SIZE
    && |s.busStops| == BUS_STOPS
    && (forall i | 0 <= i < BUS_STOPS :: BusStopShaped(s.busStops[i]))
    && |s.people| == PEOPLE_COUNT
    && (forall k | 0 <= k < PEOPLE_COUNT :: PersonShaped(s.people[k]))
  }

  /** A bus stop as a zero-initialised global holds it: empty texts and no buses. */
  function ZeroStop(): BusStop {
    BusStop(Zeros(STOP_NAME_SIZE), 0, seq(BUS_TIMES, _ => BusTime(Zeros(ROUTE_SIZE), Zeros(DESTINATION_SIZE), Zeros(DUE_SIZE))))
  }

  function ZeroPerson(): Person {
    Person(Zeros(PERSON_NAME_SIZE), false)
  }

  /**
   * The `State` global before anything is written to it: every byte zero,
   * so every text empty, every count zero, every flag false and the
   * collection type the enum's first value, GENERAL_WASTE.
   */
  function ZeroSnapshot(): (z: Snapshot)
    ensures Shaped(z)
    ensures CString(z.currentDate) == [] && CString(z.recycling.date) == [] && z.recycling.kind == GeneralWaste
    ensures && CString(z.weather.outsideTemperature) == [] && CString(z.weather.rainChance) == []
            && CString(z.weather.sunEvent) == [] && CString(z.weather.sunTime) == []
    ensures forall i | 0 <= i < BUS_STOPS ::
      && z.busStops[i].timeCount == 0 && CString(z.busStops[i].name) == []
      && forall j | 0 <= j < BUS_TIMES ::
        && CString(z.busStops[i].times[j].route) == []
        && CString(z.busStops[i].times[j].destination) == []
        && CString(z.busStops[i].times[j].due) == []
    ensures forall k | 0 <= k < PEOPLE_COUNT :: CString(z.people[k].name) == [] && !z.people[k].atHome
  {
    Snapshot(
      Zeros(DATE_SIZE),
      Weather(Zeros(TEMPERATURE_SIZE), Zeros(RAIN_SIZE), Zeros(SUN_EVENT_SIZE), Zeros(SUN_TIME_SIZE)),
      Collection(Zeros(DATE_SIZE), GeneralWaste),
      seq(BUS_STOPS, _ => ZeroStop()),
      seq(PEOPLE_COUNT, _ => ZeroPerson()))
  }

  /** One bus in the JSON: `{"route", "destination", "due"}`. */
  datatype BusDoc = BusDoc(route: string, destination: string, due: string)

  /** One stop in the JSON: `{"name", "buses"}`. */
  datatype StopDoc = StopDoc(name: string, buses: seq<BusDoc>)

  /**
   * The JSON document the client reads. `atHome` lists the pairs of the
   * `at_home` object in document order; a missing object has none.
   */
  datatype Document = Document(
    date: string,
    temperature: string,
    rain: string,
    sunEvent: string,
    sunTime: string,
    recyclingDate: string,
    recyclingType: string,
    busStops: seq<StopDoc>,
    atHome: seq<(string, bool)>)

  predicate BusFits(b: BusDoc) {
    FitsIn(b.route, ROUTE_SIZE) && FitsIn(b.destination, DESTINATION_SIZE) && FitsIn(b.due, DUE_SIZE)
  }

  predicate StopFits(sd: StopDoc) {
    && FitsIn(sd.name, STOP_NAME_SIZE)
    && |sd.buses| <= BUS_TIMES
    && forall j | 0 <= j < |sd.buses| :: BusFits(sd.buses[j])
  }

  /**
   * What `fetchState` assumes of the document and never checks: every copied
   * text fits its buffer, there are at least two stops (only the first two are
   * read), each read stop has at most five buses, and there are at most five people.
   */
  predicate Fits(doc: Document) {
    && FitsIn(doc.date, DATE_SIZE)
    && FitsIn(doc.temperature, TEMPERATURE_SIZE)
    && FitsIn(doc.rain, RAIN_SIZE)
    && FitsIn(doc.sunEvent, SUN_EVENT_SIZE)
    && FitsIn(doc.sunTime, SUN_TIME_SIZE)
    && FitsIn(doc.recyclingDate, DATE_SIZE)
    && |doc.busStops| >= BUS_STOPS
    && (forall i | 0 <= i < BUS_STOPS :: StopFits(doc.busStops[i]))
    && |doc.atHome| <= PEOPLE_COUNT
    && (forall k | 0 <= k < |doc.atHome| :: FitsIn(doc.atHome[k].0, PERSON_NAME_SIZE))
  }

  /** `strcmp(type, "General Waste") == 0` decides the collection type. */
  /**
   * The `strcmp` against "General Waste": equal exactly when the text starts
   * with those thirteen characters and ends or is terminated right after them.
   */
  function TypeOf(text: string): (kind: CollectionType)
    ensures kind == GeneralWaste <==>
      |text| >= |GENERAL_WASTE_TEXT| && text[..|GENERAL_WASTE_TEXT|] == GENERAL_WASTE_TEXT
      && (|text| == |GENERAL_WASTE_TEXT| || text[|GENERAL_WASTE_TEXT|] == NUL)
  {
    var n := |GENERAL_WASTE_TEXT|;
    assert |text| >= n && text[..n] == GENERAL_WASTE_TEXT && (|text| == n || text[n] == NUL) ==>
        CString(text) == GENERAL_WASTE_TEXT by {
      if |text| > n && text[..n] == GENERAL_WASTE_TEXT && text[n] == NUL {
        CStringTerminated(GENERAL_WASTE_TEXT, text[n + 1..]);
        assert text == GENERAL_WASTE_TEXT + [NUL] + text[n + 1..];
      }
    }
    if CString(text) == GENERAL_WASTE_TEXT then GeneralWaste else Recycling
  }

  function DecodeTime(t: BusTime, b: BusDoc): BusTime
    requires BusTimeShaped(t) && BusFits(b)
  {
    BusTime(StrCpy(t.route, b.route), StrCpy(t.destination, b.destination), StrCpy(t.due, b.due))
  }

  /** One stop: its name, its bus count, and its first `|buses|` time slots overwritten. */
  function DecodeStop(stop: BusStop, sd: StopDoc): BusStop
    requires BusStopShaped(stop) && StopFits(sd)
  {
    BusStop(
      StrCpy(stop.name, sd.name),
      |sd.buses|,
      seq(BUS_TIMES, j requires 0 <= j < BUS_TIMES =>
        if j < |sd.buses| then DecodeTime(stop.times[j], sd.buses[j]) else stop.times[j]))
  }

  function DecodePerson(p: Person, pair: (string, bool)): Person
    requires PersonShaped(p) && FitsIn(pair.0, PERSON_NAME_SIZE)
  {
    Person(StrCpy(p.name, pair.0), pair.1)
  }

  /** The state after a successful `fetchState` on a state s; every buffer and array keeps its declared size. */
  function Decode(s: Snapshot, doc: Document): (r: Snapshot)
    requires Shaped(s) && Fits(doc)
    ensures Shaped(r)
  {
    var r :=
      Snapshot(
        StrCpy(s.currentDate, doc.date),
        Weather(
          StrCpy(s.weather.outsideTemperature, doc.temperature),
          StrCpy(s.weather.rainChance, doc.rain),
          StrCpy(s.weather.sunEvent, doc.sunEvent),
          StrCpy(s.weather.sunTime, doc.sunTime)),
        Collection(StrCpy(s.recycling.date, doc.recyclingDate), TypeOf(doc.recyclingType)),
        seq(BUS_STOPS, i requires 0 <= i < BUS_STOPS => DecodeStop(s.busStops[i], doc.busStops[i])),
        seq(PEOPLE_COUNT, k requires 0 <= k < PEOPLE_COUNT =>
          if k < |doc.atHome| then DecodePerson(s.people[k], doc.atHome[k]) else s.people[k]));
    assert forall i | 0 <= i < BUS_STOPS :: BusStopShaped(r.busStops[i]) by {
      forall i | 0 <= i < BUS_STOPS
        ensures BusStopShaped(r.busStops[i])
      {
        assert BusStopShaped(s.busStops[i]);
      }
    }
    r
  }



  /**
   * Every text read back from the decoded state is the document's text, the
   * collection type is general waste exactly for the text "General Waste",
   * the first two stops are filled in document order with their bus counts,
   * and people are filled from slot 0 in document order.
   */
  lemma DecodeReadsBack(s: Snapshot, doc: Document)
    requires Shaped(s) && Fits(doc)
    ensures var r := Decode(s, doc);
      && CString(r.currentDate) == CString(doc.date)
      && CString(r.weather.outsideTemperature) == CString(doc.temperature)
      && CString(r.weather.rainChance) == CString(doc.rain)
      && CString(r.weather.sunEvent) == CString(doc.sunEvent)
      && CString(r.weather.sunTime) == CString(doc.sunTime)
      && CString(r.recycling.date) == CString(doc.recyclingDate)
      && (r.recycling.kind == GeneralWaste <==> CString(doc.recyclingType) == GENERAL_WASTE_TEXT)
    ensures var r := Decode(s, doc);
      forall i | 0 <= i < BUS_STOPS ::
        && CString(r.busStops[i].name) == CString(doc.busStops[i].name)
        && r.busStops[i].timeCount == |doc.busStops[i].buses|
        && forall j | 0 <= j < |doc.busStops[i].buses| ::
          && CString(r.busStops[i].times[j].route) == CString(doc.busStops[i].buses[j].route)
          && CString(r.busStops[i].times[j].destination) == CString(doc.busStops[i].buses[j].destination)
          && CString(r.busStops[i].times[j].due) == CString(doc.busStops[i].buses[j].due)
    ensures var r := Decode(s, doc);
      forall k | 0 <= k < |doc.atHome| ::
        CString(r.people[k].name) == CString(doc.atHome[k].0) && r.people[k].atHome == doc.atHome[k].1
  {
    var r := Decode(s, doc);
    forall i, j | 0 <= i < BUS_STOPS && 0 <= j < |doc.busStops[i].buses|
      ensures CString(r.busStops[i].times[j].route) == CString(doc.busStops[i].buses[j].route)
      ensures CString(r.busStops[i].times[j].destination) == CString(doc.busStops[i].buses[j].destination)
      ensures CString(r.busStops[i].times[j].due) == CString(doc.busStops[i].buses[j].due)
    {
      assert StopFits(doc.busStops[i]) && BusStopShaped(s.busStops[i]);
      assert r.busStops[i].times[j] == DecodeTime(s.busStops[i].times[j], doc.busStops[i].buses[j]);
    }
  }

  /**
   * Time slots from the stop's bus count on, and person slots from the number
   * of pairs on, keep what they held before.
   */
  lemma DecodeKeepsUnusedSlots(s: Snapshot, doc: Document)
    requires Shaped(s) && Fits(doc)
    ensures var r := Decode(s, doc);
      forall i, j | 0 <= i < BUS_STOPS && |doc.busStops[i].buses| <= j < BUS_TIMES ::
        r.busStops[i].times[j] == s.busStops[i].times[j]
    ensures var r := Decode(s, doc);
      forall k | |doc.atHome| <= k < PEOPLE_COUNT :: r.people[k] == s.people[k]
  {
  }

  /** The buffer `after` is `before` with `src` copied in, and the bytes after the terminator kept. */
  predicate TailKept(after: seq<char>, before: seq<char>, src: string) {
    && |after| == |before| && |CString(src)| < |before|
    && CString(after) == CString(src)
    && after[|CString(src)| + 1..] == before[|CString(src)| + 1..]
  }

  /**
   * Every buffer the decoder copies into reads back as its document text and
   * keeps the bytes after the new terminator: `strcpy` writes no further.
   */
  lemma DecodeKeepsTrailingBytes(s: Snapshot, doc: Document)
    requires Shaped(s) && Fits(doc)
    ensures var r := Decode(s, doc);
      && TailKept(r.currentDate, s.currentDate, doc.date)
      && TailKept(r.weather.outsideTemperature, s.weather.outsideTemperature, doc.temperature)
      && TailKept(r.weather.rainChance, s.weather.rainChance, doc.rain)
      && TailKept(r.weather.sunEvent, s.weather.sunEvent, doc.sunEvent)
      && TailKept(r.weather.sunTime, s.weather.sunTime, doc.sunTime)
      && TailKept(r.recycling.date, s.recycling.date, doc.recyclingDate)
    ensures var r := Decode(s, doc);
      forall i | 0 <= i < BUS_STOPS :: TailKept(r.busStops[i].name, s.busStops[i].name, doc.busStops[i].name)
    ensures var r := Decode(s, doc);
      forall i, j | 0 <= i < BUS_STOPS && 0 <= j < |doc.busStops[i].buses| ::
        && TailKept(r.busStops[i].times[j].route, s.busStops[i].times[j].route, doc.busStops[i].buses[j].route)
        && TailKept(r.busStops[i].times[j].destination, s.busStops[i].times[j].destination,
                    doc.busStops[i].buses[j].destination)
        && TailKept(r.busStops[i].times[j].due, s.busStops[i].times[j].due, doc.busStops[i].buses[j].due)
    ensures var r := Decode(s, doc);
      forall k | 0 <= k < |doc.atHome| :: TailKept(r.people[k].name, s.people[k].name, doc.atHome[k].0)
  {
  }

  /** Stops after the second are never read. */
  lemma DecodeReadsTwoStops(s: Snapshot, doc: Document)
    requires Shaped(s) && Fits(doc)
    ensures Fits(doc.(busStops := doc.busStops[..BUS_STOPS]))
    ensures Decode(s, doc) == Decode(s, doc.(busStops := doc.busStops[..BUS_STOPS]))
  {
  }

  /** The inner loop of the bus decoding: one stop's name, count and times. */
  method CopyStop(stop: BusStop, sd: StopDoc) returns (r: BusStop)
    requires BusStopShaped(stop) && StopFits(sd)
    ensures r == DecodeStop(stop, sd)
  {
    r := stop.(name := StrCpy(stop.name, sd.name));
    r := r.(timeCount := |sd.buses|);
    for j := 0 to r.timeCount
      invariant r.name == StrCpy(stop.name, sd.name) && r.timeCount == |sd.buses|
      invariant |r.times| == BUS_TIMES
      invariant forall t | 0 <= t < BUS_TIMES ::
        r.times[t] == if t < j then DecodeTime(stop.times[t], sd.buses[t]) else stop.times[t]
    {
      r := r.(times := r.times[j := DecodeTime(r.times[j], sd.buses[j])]);
    }
  }

  /** The `State` global: buffers as fields, the stop and person arrays in place. */
  class State {
    var currentDate: seq<char>
    var weather: Weather
    var recycling: Collection
    const busStops: array<BusStop>
    const people: array<Person>

    ghost predicate Valid()
      reads this, busStops, people
    {
      busStops.Length == BUS_STOPS && people.Length == PEOPLE_COUNT && Shaped(Value())
    }

    /** The struct's current contents. */
    function Value(): Snapshot
      reads this, busStops, people
    {
      Snapshot(currentDate, weather, recycling, busStops[..], people[..])
    }

    /** A zero-initialised `State`: every buffer empty, every count zero. */
    constructor ()
      ensures Valid() && fresh(busStops) && fresh(people)
      ensures Value() == ZeroSnapshot()
    {
      currentDate := Zeros(DATE_SIZE);
      weather := Weather(Zeros(TEMPERATURE_SIZE), Zeros(RAIN_SIZE), Zeros(SUN_EVENT_SIZE), Zeros(SUN_TIME_SIZE));
      recycling := Collection(Zeros(DATE_SIZE), GeneralWaste);
      busStops := new BusStop[BUS_STOPS](_ => ZeroStop());
      people := new Person[PEOPLE_COUNT](_ => ZeroPerson());
    }

    /**
     * `fetchState`: `response` is the document `getJsonFromUrl` produced, or
     * None when it failed. On failure nothing changes and false is returned;
     * on success the state becomes `Decode` of the old state and true is returned.
     */
    method FetchState(response: Option<Document>) returns (ok: bool)
      requires Valid()
      requires response.Some? ==> Fits(response.value)
      modifies this, busStops, people
      ensures Valid()
      ensures ok <==> response.Some?
      ensures !ok ==> Value() == old(Value())
      ensures ok ==> Value() == Decode(old(Value()), response.value)
    {
      if response.None? {
        return false;
      }
      var doc := response.value;
      ghost var before := Value();
      CopyTexts(doc);
      FillBusStops(doc.busStops);
      FillPeople(doc.atHome);
      assert busStops[..] == Decode(before, doc).busStops;
      assert people[..] == Decode(before, doc).people;
      assert Value() == Decode(before, doc);
      ok := true;
    }

    /** The text fields: each string into its buffer, and the collection type from its text. */
    method CopyTexts(doc: Document)
      requires Valid() && Fits(doc)
      modifies this`currentDate, this`weather, this`recycling
      ensures currentDate == Decode(old(Value()), doc).currentDate
      ensures weather == Decode(old(Value()), doc).weather
      ensures recycling == Decode(old(Value()), doc).recycling
    {
      currentDate := StrCpy(currentDate, doc.date);

      weather := weather.(outsideTemperature := StrCpy(weather.outsideTemperature, doc.temperature));
      weather := weather.(rainChance := StrCpy(weather.rainChance, doc.rain));
      weather := weather.(sunEvent := StrCpy(weather.sunEvent, doc.sunEvent));
      weather := weather.(sunTime := StrCpy(weather.sunTime, doc.sunTime));

      recycling := recycling.(date := StrCpy(recycling.date, doc.recyclingDate));
      if CString(doc.recyclingType) == GENERAL_WASTE_TEXT {
        recycling := recycling.(kind := GeneralWaste);
      } else {
        recycling := recycling.(kind := Recycling);
      }
    }

    /** The outer bus loop: stop i of the document into `busStops[i]`, for the first two. */
    method FillBusStops(stops: seq<StopDoc>)
      requires busStops.Length == BUS_STOPS
      requires forall i | 0 <= i < BUS_STOPS :: BusStopShaped(busStops[i])
      requires |stops| >= BUS_STOPS && forall i | 0 <= i < BUS_STOPS :: StopFits(stops[i])
      modifies busStops
      ensures forall i | 0 <= i < BUS_STOPS :: busStops[i] == DecodeStop(old(busStops[i]), stops[i])
    {
      for i := 0 to BUS_STOPS
        invariant forall k | 0 <= k < i :: busStops[k] == DecodeStop(old(busStops[k]), stops[k])
        invariant forall k | i <= k < BUS_STOPS :: busStops[k] == old(busStops[k])
      {
        var stop := CopyStop(busStops[i], stops[i]);
        busStops[i] := stop;
      }
    }

    /** The people loop: pair k of `at_home` into `people[k]`, advancing a running index. */
    method FillPeople(pairs: seq<(string, bool)>)
      requires people.Length == PEOPLE_COUNT
      requires forall t | 0 <= t < PEOPLE_COUNT :: PersonShaped(people[t])
      requires |pairs| <= PEOPLE_COUNT && forall t | 0 <= t < |pairs| :: FitsIn(pairs[t].0, PERSON_NAME_SIZE)
      modifies people
      ensures forall t | 0 <= t < PEOPLE_COUNT ::
        people[t] == if t < |pairs| then DecodePerson(old(people[t]), pairs[t]) else old(people[t])
    {
      var index := 0;
      for k := 0 to |pairs|
        invariant index == k
        invariant forall t | 0 <= t < PEOPLE_COUNT ::
          people[t] == if t < k then DecodePerson(old(people[t]), pairs[t]) else old(people[t])
      {
        people[index] := DecodePerson(people[index], pairs[k]);
        index := index + 1;
      }
    }
  }
}
