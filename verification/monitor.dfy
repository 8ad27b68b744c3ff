/** The train monitor's ticket logic (main.py): classifying a train number,
    evaluating one raw record of the 12306 left-ticket feed (seat fields,
    "has tickets", the S-train highlight, the offered seats, the filters), and
    the loop of `parse_and_print` that collects the records into the list of
    all tickets and the list of trains with tickets. Table printing and ANSI
    colours are not modelled; the highlight is a boolean. */
module Monitor {
  import opened Wrappers
  import opened Strings
  import opened Base

  // ---------------------------------------------------------------------
  // Train classification (classify_train)
  // ---------------------------------------------------------------------

  const ORDINARY: string := "普通车"
  const HIGH_SPEED: string := "高铁动车"
  const OTHER: string := "其他"

  /** The threshold used when the configuration has no `smart_threshold`. */
  const DEFAULT_SMART_THRESHOLD: int := 899
  /** The number taken for a train number without any digit. */
  const NO_NUMBER: int := 9999

  /** The `dc_classification` section of the configuration. */
  datatype DcConfig = DcConfig(
    defaultMode: Option<string>,
    smartThreshold: Option<int>,
    customMapping: map<string, string>)

  /** The first run of digits of a train number as an integer, 9999 without one. */
  function TrainNumber(trainNo: string): int {
    match FirstDigitRun(trainNo)
    case Some(run) => DecimalValue(run)
    case None => NO_NUMBER
  }

  /** The smart-mode test for a D/C train: a small number means an ordinary train. */
  predicate SmartCountsAsOrdinary(trainNo: string, conf: DcConfig) {
    conf.defaultMode != Some("official") &&
    TrainNumber(trainNo) <= conf.smartThreshold.GetOr(DEFAULT_SMART_THRESHOLD)
  }

  /** The class of a train. `None` is the IndexError raised for an empty train
      number that the custom mapping does not cover. */
  function ClassifyTrain(trainNo: string, conf: DcConfig): (r: Option<string>)
    ensures trainNo in conf.customMapping ==> r == Some(conf.customMapping[trainNo])
    ensures trainNo !in conf.customMapping ==> (r.None? <==> trainNo == "")
    ensures trainNo !in conf.customMapping && trainNo != "" ==>
      var p := UpperChar(trainNo[0]);
      var dc := p == 'D' || p == 'C';
      && (r == Some(ORDINARY) <==>
            p == 'K' || p == 'T' || p == 'Z' || IsDigits(trainNo) ||
            (dc && SmartCountsAsOrdinary(trainNo, conf)))
      && (r == Some(HIGH_SPEED) <==> p == 'G' || (dc && !SmartCountsAsOrdinary(trainNo, conf)))
      && (r == Some(OTHER) <==> !(p in "KTZGDC") && !IsDigits(trainNo))
  {
    if trainNo in conf.customMapping then Some(conf.customMapping[trainNo])
    else if trainNo == "" then None
    else
      var prefix := UpperChar(trainNo[0]);
      if prefix == 'K' || prefix == 'T' || prefix == 'Z' || IsDigits(trainNo) then Some(ORDINARY)
      else if prefix == 'G' then Some(HIGH_SPEED)
      else if prefix == 'D' || prefix == 'C' then
        if conf.defaultMode == Some("official") then Some(HIGH_SPEED)
        else if TrainNumber(trainNo) <= conf.smartThreshold.GetOr(DEFAULT_SMART_THRESHOLD) then Some(ORDINARY)
        else Some(HIGH_SPEED)
      else Some(OTHER)
  }

  // ---------------------------------------------------------------------
  // Seats of one record
  // ---------------------------------------------------------------------

  /** The eight seat fields of a record, after an empty field became "--". */
  datatype Seats = Seats(
    business: string,     // 商/特
    firstClass: string,   // 一等座
    secondClass: string,  // 二等座
    softSleeper: string,  // 一等/软卧
    hardSleeper: string,  // 二等/硬卧
    softSeat: string,     // 软座
    hardSeat: string,     // 硬座
    standing: string)     // 无座

  /** The texts that mean "no ticket": 无, --, the empty text and 0. */
  predicate IsNoTicket(v: string) {
    v == "无" || v == "--" || v == "" || v == "0"
  }

  /** `d[i] or "--"`. */
  function OrDash(v: string): string {
    if v == "" then "--" else v
  }

  /** The feed positions of the eight seat fields, in declared order. */
  const SEAT_FIELDS: seq<nat> := [32, 31, 30, 23, 28, 24, 29, 26]

  /** The seat fields of a split record. No seat text is empty afterwards:
      every non-empty raw field is kept as it is, and an empty one reads `--`. */
  function SeatsOf(d: seq<string>): (s: Seats)
    requires |d| >= 33
    ensures forall i :: 0 <= i < 8 ==> SeatEntries(s)[i].1 != ""
    ensures forall i :: 0 <= i < 8 && d[SEAT_FIELDS[i]] != "" ==> SeatEntries(s)[i].1 == d[SEAT_FIELDS[i]]
    ensures forall i :: 0 <= i < 8 && d[SEAT_FIELDS[i]] == "" ==> SeatEntries(s)[i].1 == "--"
  {
    var v := seq(8, i requires 0 <= i < 8 => OrDash(d[SEAT_FIELDS[i]]));
    var s := Seats(v[0], v[1], v[2], v[3], v[4], v[5], v[6], v[7]);
    assert forall i :: 0 <= i < 8 ==> SeatEntries(s)[i].1 == v[i];
    s
  }

  /** The seat dictionary of a record, in its declared order. */
  function SeatEntries(s: Seats): seq<(string, string)> {
    [("商/特", s.business), ("一等座", s.firstClass), ("二等座", s.secondClass),
     ("一等/软卧", s.softSleeper), ("二等/硬卧", s.hardSleeper), ("软座", s.softSeat),
     ("硬座", s.hardSeat), ("无座", s.standing)]
  }

  /** The ordinary "has tickets" rule: one of the seven seated or sleeper classes
      has tickets. Standing (the eighth entry) never counts. */
  function HasTicket(s: Seats): (r: bool)
    ensures r <==> exists i :: 0 <= i < 7 && !IsNoTicket(SeatEntries(s)[i].1)
  {
    var e := SeatEntries(s);
    assert e[0].1 == s.business && e[1].1 == s.firstClass && e[2].1 == s.secondClass &&
           e[3].1 == s.softSleeper && e[4].1 == s.hardSleeper && e[5].1 == s.softSeat &&
           e[6].1 == s.hardSeat;
    !IsNoTicket(s.business) || !IsNoTicket(s.firstClass) || !IsNoTicket(s.secondClass) ||
    !IsNoTicket(s.softSleeper) || !IsNoTicket(s.hardSleeper) || !IsNoTicket(s.softSeat) ||
    !IsNoTicket(s.hardSeat)
  }

  /** `train_no.upper().startswith('S')`. */
  predicate IsSTrain(trainNo: string) {
    |trainNo| > 0 && UpperChar(trainNo[0]) == 'S'
  }

  /** The S-train colouring rule, with its two cases. The second case is
      subsumed by the first: the rule amounts to "second class or standing has
      tickets". */
  function SRuleGreen(s: Seats): (r: bool)
    ensures r <==> !IsNoTicket(s.secondClass) || !IsNoTicket(s.standing)
  {
    var edHas := !IsNoTicket(s.secondClass);
    var wzHas := !IsNoTicket(s.standing);
    if (s.secondClass != "--" || s.standing != "--") && (edHas || wzHas) then true
    else if s.secondClass == "--" && s.firstClass == "--" && s.softSeat == "--" &&
            s.standing != "--" && wzHas then true
    else false
  }

  /** Whether the train number is shown highlighted: by the S rule for S trains,
      by the ordinary rule otherwise. */
  function Highlight(trainNo: string, s: Seats): bool {
    if IsSTrain(trainNo) then SRuleGreen(s) else HasTicket(s)
  }

  /** The S rule only decides the colour: an S train whose only tickets are
      standing ones is highlighted, yet by the ordinary rule it has no tickets
      and records no seats. */
  lemma STrainStandingOnly(trainNo: string, s: Seats)
    requires IsSTrain(trainNo)
    requires forall i :: 0 <= i < 7 ==> IsNoTicket(SeatEntries(s)[i].1)
    requires !IsNoTicket(s.standing)
    ensures Highlight(trainNo, s)
    ensures !HasTicket(s) && AvailableSeats(s) == []
  {
  }

  /** `a` is `b` with some entries dropped, the rest kept in order. */
  predicate IsSubsequence<T(==)>(a: seq<T>, b: seq<T>)
    decreases |b|
  {
    a == [] ||
    (b != [] && ((a[0] == b[0] && IsSubsequence(a[1..], b[1..])) || IsSubsequence(a, b[1..])))
  }

  /** The seat entries that do have tickets, in their original order. */
  function Offered(entries: seq<(string, string)>): seq<(string, string)> {
    if entries == [] then []
    else if IsNoTicket(entries[0].1) then Offered(entries[1..])
    else [entries[0]] + Offered(entries[1..])
  }

  /** `Offered` keeps exactly the entries with tickets, in their order. */
  lemma {:induction false} OfferedExact(entries: seq<(string, string)>)
    ensures forall e :: e in Offered(entries) <==> e in entries && !IsNoTicket(e.1)
    ensures IsSubsequence(Offered(entries), entries)
    decreases |entries|
  {
    if entries != [] {
      var rest := Offered(entries[1..]);
      OfferedExact(entries[1..]);
      assert forall e :: e in entries <==> e == entries[0] || e in entries[1..];
      if !IsNoTicket(entries[0].1) {
        assert ([entries[0]] + rest)[1..] == rest;
      }
    }
  }

  /** The offered seats recorded for a train: the entries with tickets when the
      ordinary rule says it has tickets, and none otherwise. */
  function AvailableSeats(s: Seats): seq<(string, string)> {
    if HasTicket(s) then Offered(SeatEntries(s)) else []
  }

  /** The recorded seats are exactly the seat classes with tickets, standing
      included, in declared order, when the train has tickets; none otherwise. */
  lemma AvailableSeatsExact(s: Seats)
    ensures HasTicket(s) ==> IsSubsequence(AvailableSeats(s), SeatEntries(s))
    ensures HasTicket(s) ==>
      forall e :: e in AvailableSeats(s) <==> e in SeatEntries(s) && !IsNoTicket(e.1)
    ensures !HasTicket(s) ==> AvailableSeats(s) == []
  {
    OfferedExact(SeatEntries(s));
  }

  // ---------------------------------------------------------------------
  // One record of the feed
  // ---------------------------------------------------------------------

  /** The optional arguments of `parse_and_print`. */
  datatype Filters = Filters(
    targetTrains: Option<seq<string>>,
    typeFilter: Option<string>,
    selFrom: Option<string>,
    selTo: Option<string>,
    date: Option<string>)

  /** Python truthiness of an optional string. */
  predicate Given(o: Option<string>) {
    o.Some? && o.value != ""
  }

  /** Python truthiness of an optional list. */
  predicate GivenList(o: Option<seq<string>>) {
    o.Some? && o.value != []
  }

  /** `code_to_name.get(code, code)`. */
  function StationName(codeToName: map<string, string>, code: string): string {
    if code in codeToName then codeToName[code] else code
  }

  /** Every filter of `parse_and_print` lets the record through. */
  predicate Accepted(f: Filters, trainType: string, trainNo: string, fromName: string, toName: string) {
    && (Given(f.typeFilter) ==> Contains(trainType, f.typeFilter.value))
    && (GivenList(f.targetTrains) ==> trainNo in f.targetTrains.value)
    && (Given(f.selFrom) ==> fromName == f.selFrom.value)
    && (Given(f.selTo) ==> toName == f.selTo.value)
  }

  /** What the loop body does with one record: it raises IndexError, skips the
      record at a filter, or shows it as a table row (and, when a date is
      given, makes its ticket information). */
  datatype Evaluation =
    | Raised
    | Skipped
    | Row(trainNo: string, highlight: bool, hasTicket: bool, info: Option<TicketInfo>)

  /** The body of the loop of `parse_and_print` for one raw record. */
  function EvaluateRecord(item: string, conf: DcConfig, codeToName: map<string, string>, f: Filters): Evaluation
  {
    var d := Split(item, '|');
    if |d| < 4 then Raised
    else
      var trainNo := d[3];
      match ClassifyTrain(trainNo, conf)
      case None => Raised
      case Some(trainType) =>
        if Given(f.typeFilter) && !Contains(trainType, f.typeFilter.value) then Skipped
        else if GivenList(f.targetTrains) && trainNo !in f.targetTrains.value then Skipped
        else if |d| < 8 then Raised
        else
          var fromName := StationName(codeToName, d[6]);
          var toName := StationName(codeToName, d[7]);
          if Given(f.selFrom) && fromName != f.selFrom.value then Skipped
          else if Given(f.selTo) && toName != f.selTo.value then Skipped
          else if |d| < 33 then Raised
          else
            var seats := SeatsOf(d);
            var hasTicket := HasTicket(seats);
            var info :=
              if Given(f.date) then
                Some(TicketInfo(trainNo, fromName, toName, f.date.value, d[8], d[10], AvailableSeats(seats)))
              else None;
            Row(trainNo, Highlight(trainNo, seats), hasTicket, info)
  }

  /** What each outcome of one record says about it. A row passed every filter
      and carries the seat rules' verdicts and, when a date is given, the
      ticket information; a skipped record failed a filter (the type or the
      train filter when it is too short to reach the stations); a record raises
      exactly when it is too short for the first field read after the filters
      it passed, or its train number is empty and not custom-mapped. */
  lemma EvaluateRecordOutcomes(item: string, conf: DcConfig, codeToName: map<string, string>, f: Filters)
    ensures
      var r := EvaluateRecord(item, conf, codeToName, f);
      var d := Split(item, '|');
      r.Row? ==>
        && |d| >= 33
        && r.trainNo == d[3]
        && ClassifyTrain(d[3], conf).Some?
        && Accepted(f, ClassifyTrain(d[3], conf).value, d[3],
                    StationName(codeToName, d[6]), StationName(codeToName, d[7]))
        && r.hasTicket == HasTicket(SeatsOf(d))
        && r.highlight == Highlight(d[3], SeatsOf(d))
        && (r.info.Some? <==> Given(f.date))
        && (r.info.Some? ==> r.info.value == TicketInfo(d[3],
              StationName(codeToName, d[6]), StationName(codeToName, d[7]),
              f.date.value, d[8], d[10], AvailableSeats(SeatsOf(d))))
    ensures
      var r := EvaluateRecord(item, conf, codeToName, f);
      var d := Split(item, '|');
      r.Skipped? ==>
        && |d| >= 4
        && ClassifyTrain(d[3], conf).Some?
        && !(|d| >= 8 && Accepted(f, ClassifyTrain(d[3], conf).value, d[3],
                                  StationName(codeToName, d[6]), StationName(codeToName, d[7])))
    ensures
      var r := EvaluateRecord(item, conf, codeToName, f);
      var d := Split(item, '|');
      |d| >= 33 && ClassifyTrain(d[3], conf).Some? ==> !r.Raised?
    ensures
      var r := EvaluateRecord(item, conf, codeToName, f);
      var d := Split(item, '|');
      r.Raised? <==>
        || |d| < 4
        || ClassifyTrain(d[3], conf).None?
        || (&& !(Given(f.typeFilter) && !Contains(ClassifyTrain(d[3], conf).value, f.typeFilter.value))
            && !(GivenList(f.targetTrains) && d[3] !in f.targetTrains.value)
            && (|d| < 8 ||
                (|d| < 33 && Accepted(f, ClassifyTrain(d[3], conf).value, d[3],
                                      StationName(codeToName, d[6]), StationName(codeToName, d[7])))))
    ensures
      var r := EvaluateRecord(item, conf, codeToName, f);
      var d := Split(item, '|');
      r.Skipped? && |d| < 8 ==>
        && |d| >= 4
        && ClassifyTrain(d[3], conf).Some?
        && ((Given(f.typeFilter) && !Contains(ClassifyTrain(d[3], conf).value, f.typeFilter.value)) ||
            (GivenList(f.targetTrains) && d[3] !in f.targetTrains.value))
  {
  }

  // ---------------------------------------------------------------------
  // The loop of parse_and_print
  // ---------------------------------------------------------------------

  /** The ticket information the loop appends for a list of evaluated records:
      every row that made one, or only those with tickets. */
  function Collected(evs: seq<Evaluation>, onlyAvailable: bool): seq<TicketInfo> {
    if evs == [] then []
    else
      var rest := Collected(evs[..|evs| - 1], onlyAvailable);
      var e := evs[|evs| - 1];
      if e.Row? && e.info.Some? && (e.hasTicket || !onlyAvailable) then rest + [e.info.value] else rest
  }

  /** A ticket is collected exactly when some evaluated row made it (and, for the
      list of trains with tickets, that row has tickets). Skipped records
      contribute nothing. */
  lemma {:induction false} CollectedMembers(evs: seq<Evaluation>, onlyAvailable: bool, t: TicketInfo)
    ensures t in Collected(evs, onlyAvailable) <==>
      exists i :: 0 <= i < |evs| && evs[i].Row? && evs[i].info == Some(t) &&
                  (evs[i].hasTicket || !onlyAvailable)
    decreases |evs|
  {
    if evs != [] {
      var init := evs[..|evs| - 1];
      CollectedMembers(init, onlyAvailable, t);
      assert forall i :: 0 <= i < |init| ==> init[i] == evs[i];
    }
  }

  /** The list of trains with tickets is the list of all tickets with the
      ticketless trains dropped, in the same order. */
  lemma {:induction false} AvailableWithinAll(evs: seq<Evaluation>)
    ensures IsSubsequence(Collected(evs, true), Collected(evs, false))
    decreases |evs|
  {
    if evs != [] {
      var init := evs[..|evs| - 1];
      var e := evs[|evs| - 1];
      AvailableWithinAll(init);
      if e.Row? && e.info.Some? {
        SubsequenceAppend(Collected(init, true), Collected(init, false), e.info.value, e.hasTicket);
      }
    }
  }

  lemma {:induction false} SubsequenceAppend<T>(a: seq<T>, b: seq<T>, x: T, keep: bool)
    requires IsSubsequence(a, b)
    ensures IsSubsequence(if keep then a + [x] else a, b + [x])
    decreases |b|
  {
    var a' := if keep then a + [x] else a;
    if a == [] {
      if keep {
        assert a + [x] == [x];
        SubsequenceSingleton(x, b);
      }
    } else {
      assert (b + [x])[1..] == b[1..] + [x];
      if a[0] == b[0] && IsSubsequence(a[1..], b[1..]) {
        SubsequenceAppend(a[1..], b[1..], x, keep);
        assert a'[0] == a[0];
        assert a'[1..] == if keep then a[1..] + [x] else a[1..];
      } else {
        SubsequenceAppend(a, b[1..], x, keep);
      }
    }
  }

  lemma {:induction false} SubsequenceSingleton<T>(x: T, b: seq<T>)
    ensures IsSubsequence([x], b + [x])
    decreases |b|
  {
    if b == [] {
      assert [x][1..] == [];
    } else {
      assert (b + [x])[1..] == b[1..] + [x];
      SubsequenceSingleton(x, b[1..]);
    }
  }

  /** The records of one response, each evaluated. */
  function Evaluations(rawData: seq<string>, conf: DcConfig, codeToName: map<string, string>, f: Filters): (evs: seq<Evaluation>)
    ensures |evs| == |rawData|
  {
    seq(|rawData|, i requires 0 <= i < |rawData| => EvaluateRecord(rawData[i], conf, codeToName, f))
  }

  /** No evaluation raised. */
  predicate NoneRaised(evs: seq<Evaluation>) {
    evs == [] || (NoneRaised(evs[..|evs| - 1]) && !evs[|evs| - 1].Raised?)
  }

  lemma {:induction false} NoneRaisedAll(evs: seq<Evaluation>)
    requires NoneRaised(evs)
    ensures forall j :: 0 <= j < |evs| ==> !evs[j].Raised?
    decreases |evs|
  {
    if evs != [] {
      var init := evs[..|evs| - 1];
      NoneRaisedAll(init);
      assert forall j :: 0 <= j < |init| ==> init[j] == evs[j];
    }
  }

  /** One more evaluation: how the prefix facts grow. */
  lemma PrefixStep(evs: seq<Evaluation>, i: nat)
    requires i < |evs|
    ensures NoneRaised(evs[..i + 1]) <==> NoneRaised(evs[..i]) && !evs[i].Raised?
    ensures Collected(evs[..i + 1], false) ==
      Collected(evs[..i], false) + (if evs[i].Row? && evs[i].info.Some? then [evs[i].info.value] else [])
    ensures Collected(evs[..i + 1], true) ==
      Collected(evs[..i], true) + (if evs[i].Row? && evs[i].info.Some? && evs[i].hasTicket then [evs[i].info.value] else [])
  {
    assert evs[..i + 1][..i] == evs[..i];
  }

  /** `parse_and_print` without the printing. `None` is the IndexError that
      escapes when some record is too short; otherwise the result is the list
      of every ticket made (with `returnAll`) or of the trains with tickets. */
  method ParseAndPrint(rawData: seq<string>, conf: DcConfig, codeToName: map<string, string>,
                       f: Filters, returnAll: bool)
    returns (r: Option<seq<TicketInfo>>)
    ensures r.None? <==> exists i :: 0 <= i < |rawData| && EvaluateRecord(rawData[i], conf, codeToName, f).Raised?
    ensures r.Some? ==> r.value == Collected(Evaluations(rawData, conf, codeToName, f), !returnAll)
  {
    ghost var evs := Evaluations(rawData, conf, codeToName, f);
    var availableTickets: seq<TicketInfo> := [];
    var allTickets: seq<TicketInfo> := [];
    var i := 0;
    while i < |rawData|
      invariant 0 <= i <= |rawData|
      invariant NoneRaised(evs[..i])
      invariant allTickets == Collected(evs[..i], false)
      invariant availableTickets == Collected(evs[..i], true)
    {
      var e := EvaluateRecord(rawData[i], conf, codeToName, f);
      assert e == evs[i];
      PrefixStep(evs, i);
      if e.Raised? {
        return None;
      }
      if e.Row? && e.info.Some? {
        allTickets := allTickets + [e.info.value];
        if e.hasTicket {
          availableTickets := availableTickets + [e.info.value];
        }
      }
      i := i + 1;
    }
    assert evs[..i] == evs;
    NoneRaisedAll(evs);
    forall j | 0 <= j < |rawData| ensures !EvaluateRecord(rawData[j], conf, codeToName, f).Raised? {
      assert evs[j] == EvaluateRecord(rawData[j], conf, codeToName, f);
    }
    r := Some(if returnAll then allTickets else availableTickets);
  }
}
