/**
 * The staff flight listing's filter builder (`build_staff_query`): from the
 * staff member's airline and seven optional text filters it builds the WHERE
 * list of the listing query and the values bound to its placeholders.
 * The database evaluates the predicates (`CURRENT_DATE`, `DATE_ADD`, `LIKE`);
 * here they are symbolic.
 */
module StaffQuery {
  import opened Wrappers
  import opened Text
  import opened Bindings

  /** The predicates the builder can put in the WHERE list, in the order it considers them. */
  datatype Clause =
    | AirlineIs              // f.airline_name = %s
    | DepartsOnOrAfter       // f.departure_date_time >= %s
    | DepartsBeforeDayAfter  // f.departure_date_time < DATE_ADD(%s, INTERVAL 1 DAY)
    | DepartsToday           // DATE(f.departure_date_time) = CURRENT_DATE
    | DepartsFromNow         // f.departure_date_time >= CURRENT_TIMESTAMP
    | DepartedBeforeNow      // f.departure_date_time < CURRENT_TIMESTAMP
    | DepartsFromToday       // f.departure_date_time >= CURRENT_DATE
    | DepartsWithin30Days    // f.departure_date_time < DATE_ADD(CURRENT_DATE, INTERVAL 30 DAY)
    | DepAirportIs           // f.departure_airport = %s
    | ArrAirportIs           // f.arrival_airport = %s
    | DepCityLike            // da.city LIKE %s
    | ArrCityLike            // aa.city LIKE %s
  {
    /** The number of `%s` placeholders in the predicate's SQL text. */
    function Arity(): nat {
      match this
      case DepartsToday | DepartsFromNow | DepartedBeforeNow
        | DepartsFromToday | DepartsWithin30Days => 0
      case _ => 1
    }

    /** The position of the predicate in the builder's fixed order. */
    function Rank(): nat {
      match this
      case AirlineIs => 0
      case DepartsOnOrAfter => 1
      case DepartsBeforeDayAfter => 2
      case DepartsToday => 3
      case DepartsFromNow => 4
      case DepartedBeforeNow => 5
      case DepartsFromToday => 6
      case DepartsWithin30Days => 7
      case DepAirportIs => 8
      case ArrAirportIs => 9
      case DepCityLike => 10
      case ArrCityLike => 11
    }

    /** A predicate on the departure date: an explicit range or a period. */
    predicate OnDate() {
      1 <= Rank() <= 7
    }

    /** A predicate chosen by the `period` shorthand. */
    predicate OnPeriod() {
      3 <= Rank() <= 7
    }
  }

  function ArityOf(c: Clause): nat {
    c.Arity()
  }

  /** The query arguments of the staff home page; None when an argument is absent. */
  datatype Inputs = Inputs(
    period: Option<string>,
    startDate: Option<string>,
    endDate: Option<string>,
    fromAirport: Option<string>,
    toAirport: Option<string>,
    fromCity: Option<string>,
    toCity: Option<string>)

  /** The same inputs with the two dates exchanged. */
  function SwapDates(q: Inputs): Inputs {
    q.(startDate := q.endDate, endDate := q.startDate)
  }

  /** The predicates are in strictly increasing rank: the fixed order, none twice. */
  predicate Ordered(fs: seq<Filter<Clause>>) {
    forall i, j :: 0 <= i < j < |fs| ==> fs[i].clause.Rank() < fs[j].clause.Rank()
  }

  /** Every predicate's rank lies in `lo..hi - 1`. */
  predicate RanksIn(fs: seq<Filter<Clause>>, lo: nat, hi: nat) {
    forall i :: 0 <= i < |fs| ==> lo <= fs[i].clause.Rank() < hi
  }

  lemma OrderedConcat(a: seq<Filter<Clause>>, b: seq<Filter<Clause>>, lo: nat, mid: nat, hi: nat)
    requires lo <= mid <= hi
    requires Ordered(a) && RanksIn(a, lo, mid)
    requires Ordered(b) && RanksIn(b, mid, hi)
    ensures Ordered(a + b) && RanksIn(a + b, lo, hi)
  {
  }

  lemma RanksConcat(a: seq<Filter<Clause>>, b: seq<Filter<Clause>>, lo: nat, mid: nat, hi: nat)
    requires lo <= mid <= hi && RanksIn(a, lo, mid) && RanksIn(b, mid, hi)
    ensures RanksIn(a + b, lo, hi)
  {
  }

  lemma WellBoundConcat(a: seq<Filter<Clause>>, b: seq<Filter<Clause>>)
    requires WellBound(a, ArityOf) && WellBound(b, ArityOf)
    ensures WellBound(a + b, ArityOf)
  {
  }

  /**
   * The date filters, from the trimmed dates and the trimmed, lower-cased period:
   * an explicit range when both dates are given (put in order first), else the
   * period's predicate, else the 30-day window.
   */
  function DateFilters(period: string, start: string, end: string): (fs: seq<Filter<Clause>>)
    ensures 1 <= |fs| <= 2
  {
    if start != "" && end != "" then
      var lo, hi := if StrLess(end, start) then end else start, if StrLess(end, start) then start else end;
      [Filter(DepartsOnOrAfter, [lo]), Filter(DepartsBeforeDayAfter, [hi])]
    else if period == "current" then [Filter(DepartsToday, [])]
    else if period == "future" then [Filter(DepartsFromNow, [])]
    else if period == "past" then [Filter(DepartedBeforeNow, [])]
    else [Filter(DepartsFromToday, []), Filter(DepartsWithin30Days, [])]
  }

  lemma DateFiltersShape(period: string, start: string, end: string)
    ensures var fs := DateFilters(period, start, end);
      WellBound(fs, ArityOf) && Ordered(fs) && RanksIn(fs, 1, 8)
  {
  }

  /** An equality or LIKE filter with one bound value, present only when the value is. */
  function Optional(c: Clause, value: string, bound: string): (fs: seq<Filter<Clause>>)
    ensures fs == [] <==> value == ""
  {
    if value == "" then [] else [Filter(c, [bound])]
  }

  /** `%x%`: the LIKE pattern for "contains x". */
  function Contains(x: string): string {
    "%" + x + "%"
  }

  /**
   * The filters after the date part, from the normalised inputs: departure and
   * arrival airport, then departure and arrival city as substrings.
   */
  function PlaceFilters(fromAp: string, toAp: string, fromCity: string, toCity: string): (fs: seq<Filter<Clause>>)
    ensures WellBound(fs, ArityOf) && Ordered(fs) && RanksIn(fs, 8, 12)
  {
    var a := Optional(DepAirportIs, fromAp, fromAp);
    var b := Optional(ArrAirportIs, toAp, toAp);
    var c := Optional(DepCityLike, fromCity, Contains(fromCity));
    var d := Optional(ArrCityLike, toCity, Contains(toCity));
    assert Ordered(a) && RanksIn(a, 8, 9) && WellBound(a, ArityOf);
    assert Ordered(b) && RanksIn(b, 9, 10) && WellBound(b, ArityOf);
    assert Ordered(c) && RanksIn(c, 10, 11) && WellBound(c, ArityOf);
    assert Ordered(d) && RanksIn(d, 11, 12) && WellBound(d, ArityOf);
    OrderedConcat(a, b, 8, 9, 10);
    OrderedConcat(a + b, c, 8, 10, 11);
    OrderedConcat(a + b + c, d, 8, 11, 12);
    WellBoundConcat(a, b);
    WellBoundConcat(a + b, c);
    WellBoundConcat(a + b + c, d);
    a + b + c + d
  }

  /** An airport code as the builder uses it: trimmed and upper-cased. */
  function AirportCode(x: Option<string>): string {
    Upper(Trim(x))
  }

  /** The period shorthand as the builder compares it: trimmed and lower-cased. */
  function PeriodOf(x: Option<string>): string {
    Lower(Trim(x))
  }

  /**
   * An airport code is trimmed, has no lower-case ASCII letter, is empty exactly
   * when the trimmed input is, and keeps the trimmed input's length.
   */
  lemma AirportCodeNormalised(x: Option<string>)
    ensures Trimmed(AirportCode(x)) && NoLower(AirportCode(x))
    ensures AirportCode(x) == "" <==> Trim(x) == ""
    ensures |AirportCode(x)| == |Trim(x)|
  {
    TrimNormalised(x, [], [], []);
    CaseKeepsTrimmed(Trim(x));
    UpperNoLower(Trim(x));
  }

  /** The period is trimmed and has no upper-case ASCII letter, so only lower-case names can match. */
  lemma PeriodNormalised(x: Option<string>)
    ensures Trimmed(PeriodOf(x)) && NoUpper(PeriodOf(x))
    ensures PeriodOf(x) == "" <==> Trim(x) == ""
  {
    TrimNormalised(x, [], [], []);
    CaseKeepsTrimmed(Trim(x));
    LowerNoUpper(Trim(x));
  }

  /**
   * The staff listing's filters: the airline, the date filters, then the place
   * filters. `Clauses` of the result is the WHERE list and `Args` the parameters.
   */
  function StaffFilters(airline: string, q: Inputs): (fs: seq<Filter<Clause>>)
    ensures |fs| >= 2 && fs[0] == Filter(AirlineIs, [airline])
    ensures WellBound(fs, ArityOf)
    ensures Ordered(fs)
  {
    var head := [Filter(AirlineIs, [airline])];
    var dates := DateFilters(PeriodOf(q.period), Trim(q.startDate), Trim(q.endDate));
    var places := PlaceFilters(AirportCode(q.fromAirport), AirportCode(q.toAirport), Trim(q.fromCity), Trim(q.toCity));
    DateFiltersShape(PeriodOf(q.period), Trim(q.startDate), Trim(q.endDate));
    OrderedConcat(head, dates, 0, 1, 8);
    OrderedConcat(head + dates, places, 0, 8, 12);
    WellBoundConcat(head, dates);
    WellBoundConcat(head + dates, places);
    head + dates + places
  }

  /**
   * The builder's date step: an explicit range (swapped into order first) when
   * both dates are given, else the predicate the period selects; `fs` is the
   * filter list that `where` and `params` stand for so far.
   */
  method AppendDateFilters(where: seq<Clause>, params: seq<string>, period: string, start: string, end: string,
                           ghost fs: seq<Filter<Clause>>)
    returns (where': seq<Clause>, params': seq<string>)
    requires where == Clauses(fs) && params == Args(fs)
    ensures where' == Clauses(fs + DateFilters(period, start, end))
    ensures params' == Args(fs + DateFilters(period, start, end))
  {
    where', params' := where, params;
    ghost var fs' := fs;
    var startDate, endDate := start, end;
    if startDate != "" && endDate != "" {
      if StrLess(endDate, startDate) {
        startDate, endDate := endDate, startDate;
      }
      where' := where' + [DepartsOnOrAfter];
      params' := params' + [startDate];
      Append(fs', Filter(DepartsOnOrAfter, [startDate]));
      fs' := fs' + [Filter(DepartsOnOrAfter, [startDate])];
      where' := where' + [DepartsBeforeDayAfter];
      params' := params' + [endDate];
      Append(fs', Filter(DepartsBeforeDayAfter, [endDate]));
      fs' := fs' + [Filter(DepartsBeforeDayAfter, [endDate])];
    } else if period == "current" {
      where' := where' + [DepartsToday];
      Append(fs', Filter(DepartsToday, []));
      fs' := fs' + [Filter(DepartsToday, [])];
    } else if period == "future" {
      where' := where' + [DepartsFromNow];
      Append(fs', Filter(DepartsFromNow, []));
      fs' := fs' + [Filter(DepartsFromNow, [])];
    } else if period == "past" {
      where' := where' + [DepartedBeforeNow];
      Append(fs', Filter(DepartedBeforeNow, []));
      fs' := fs' + [Filter(DepartedBeforeNow, [])];
    } else {
      where' := where' + [DepartsFromToday];
      Append(fs', Filter(DepartsFromToday, []));
      fs' := fs' + [Filter(DepartsFromToday, [])];
      where' := where' + [DepartsWithin30Days];
      Append(fs', Filter(DepartsWithin30Days, []));
      fs' := fs' + [Filter(DepartsWithin30Days, [])];
    }
    assert fs' == fs + DateFilters(period, start, end);
  }

  /**
   * One of the builder's four `if x: where.append(c); params.append(v)` steps;
   * `fs` is the filter list that `where` and `params` stand for so far.
   */
  method AppendIfPresent(where: seq<Clause>, params: seq<string>, c: Clause, value: string, bound: string,
                         ghost fs: seq<Filter<Clause>>)
    returns (where': seq<Clause>, params': seq<string>)
    requires where == Clauses(fs) && params == Args(fs)
    ensures where' == Clauses(fs + Optional(c, value, bound))
    ensures params' == Args(fs + Optional(c, value, bound))
  {
    where', params' := where, params;
    if value != "" {
      where' := where' + [c];
      params' := params' + [bound];
      Append(fs, Filter(c, [bound]));
    } else {
      assert fs + [] == fs;
    }
  }

  /**
   * `build_staff_query` as written: normalise the inputs, then append to the
   * WHERE list and the parameter list branch by branch.
   */
  method BuildStaffQuery(airline: string, q: Inputs) returns (where: seq<Clause>, params: seq<string>)
    ensures where == Clauses(StaffFilters(airline, q))
    ensures params == Args(StaffFilters(airline, q))
  {
    var period := PeriodOf(q.period);
    var fromAp := AirportCode(q.fromAirport);
    var toAp := AirportCode(q.toAirport);
    var fromCity := Trim(q.fromCity);
    var toCity := Trim(q.toCity);
    var startDate := Trim(q.startDate);
    var endDate := Trim(q.endDate);

    where, params := [AirlineIs], [airline];
    ghost var fs := [Filter(AirlineIs, [airline])];
    assert where == Clauses(fs) && params == Args(fs) by {
      assert Args(fs) == [airline] + Args(fs[1..]);
    }

    where, params := AppendDateFilters(where, params, period, startDate, endDate, fs);
    fs := fs + DateFilters(period, startDate, endDate);
    ghost var dated := fs;

    where, params := AppendIfPresent(where, params, DepAirportIs, fromAp, fromAp, fs);
    fs := fs + Optional(DepAirportIs, fromAp, fromAp);
    where, params := AppendIfPresent(where, params, ArrAirportIs, toAp, toAp, fs);
    fs := fs + Optional(ArrAirportIs, toAp, toAp);
    where, params := AppendIfPresent(where, params, DepCityLike, fromCity, Contains(fromCity), fs);
    fs := fs + Optional(DepCityLike, fromCity, Contains(fromCity));
    where, params := AppendIfPresent(where, params, ArrCityLike, toCity, Contains(toCity), fs);
    fs := fs + Optional(ArrCityLike, toCity, Contains(toCity));
    ConcatAssoc(dated, Optional(DepAirportIs, fromAp, fromAp), Optional(ArrAirportIs, toAp, toAp),
      Optional(DepCityLike, fromCity, Contains(fromCity)), Optional(ArrCityLike, toCity, Contains(toCity)));
  }

  /**
   * Placeholders match parameters: the WHERE list has exactly as many `%s` as
   * there are parameters, and the first predicate binds the airline.
   */
  lemma PlaceholdersMatchParams(airline: string, q: Inputs)
    ensures var fs := StaffFilters(airline, q);
      && Placeholders(Clauses(fs), ArityOf) == |Args(fs)|
      && Clauses(fs)[0] == AirlineIs
      && Args(fs)[0] == airline
  {
    var fs := StaffFilters(airline, q);
    PlaceholdersMatchArgs(fs, ArityOf);
    assert Args(fs) == [airline] + Args(fs[1..]);
  }

  /** The date filters do not depend on the order in which the two dates are given. */
  lemma DateFiltersSymmetric(period: string, start: string, end: string)
    ensures DateFilters(period, start, end) == DateFilters(period, end, start)
  {
    if start != "" && end != "" && start != end {
      StrLessTotal(start, end);
      if StrLess(start, end) {
        StrLessAsymmetric(start, end);
      } else {
        StrLessAsymmetric(end, start);
      }
    }
  }

  /** Exchanging the start and end date never changes the query. */
  lemma SwapDatesInvariant(airline: string, q: Inputs)
    ensures StaffFilters(airline, SwapDates(q)) == StaffFilters(airline, q)
  {
    DateFiltersSymmetric(PeriodOf(q.period), Trim(q.startDate), Trim(q.endDate));
  }

  /** The parts of the staff filters: airline, date filters, place filters. */
  lemma StaffFiltersParts(airline: string, q: Inputs)
    ensures var dates := DateFilters(PeriodOf(q.period), Trim(q.startDate), Trim(q.endDate));
      var places := PlaceFilters(AirportCode(q.fromAirport), AirportCode(q.toAirport), Trim(q.fromCity), Trim(q.toCity));
      && StaffFilters(airline, q) == [Filter(AirlineIs, [airline])] + dates + places
      && RanksIn(places, 8, 12)
  {
  }

  /**
   * Both dates given: the range predicates come right after the airline, bound
   * to the two dates in string order, and no period predicate is emitted.
   */
  lemma DateRange(airline: string, q: Inputs)
    requires Trim(q.startDate) != "" && Trim(q.endDate) != ""
    ensures var fs, s, e := StaffFilters(airline, q), Trim(q.startDate), Trim(q.endDate);
      && |fs| >= 3
      && fs[1].clause == DepartsOnOrAfter && fs[2].clause == DepartsBeforeDayAfter
      && |fs[1].args| == 1 && |fs[2].args| == 1
      && multiset{fs[1].args[0], fs[2].args[0]} == multiset{s, e}
      && !StrLess(fs[2].args[0], fs[1].args[0])
      && (forall i :: 0 <= i < |fs| ==> !fs[i].clause.OnPeriod())
  {
    StaffFiltersParts(airline, q);
    DateRangeParts(airline, PeriodOf(q.period), Trim(q.startDate), Trim(q.endDate),
      PlaceFilters(AirportCode(q.fromAirport), AirportCode(q.toAirport), Trim(q.fromCity), Trim(q.toCity)));
  }

  lemma DateRangeParts(airline: string, p: string, s: string, e: string, places: seq<Filter<Clause>>)
    requires s != "" && e != "" && RanksIn(places, 8, 12)
    ensures var fs := [Filter(AirlineIs, [airline])] + DateFilters(p, s, e) + places;
      && |fs| >= 3
      && fs[1].clause == DepartsOnOrAfter && fs[2].clause == DepartsBeforeDayAfter
      && |fs[1].args| == 1 && |fs[2].args| == 1
      && multiset{fs[1].args[0], fs[2].args[0]} == multiset{s, e}
      && !StrLess(fs[2].args[0], fs[1].args[0])
      && (forall i :: 0 <= i < |fs| ==> !fs[i].clause.OnPeriod())
  {
    var fs := [Filter(AirlineIs, [airline])] + DateFilters(p, s, e) + places;
    if StrLess(e, s) {
      StrLessAsymmetric(e, s);
    }
    forall i | 3 <= i < |fs| ensures !fs[i].clause.OnPeriod() {
      assert fs[i] == places[i - 3];
    }
  }

  /**
   * Not both dates given: the period alone decides, compared after trimming and
   * lower-casing; `current`, `future` and `past` give one predicate and anything
   * else (absent or empty included) the two-predicate 30-day window. None of
   * them binds a parameter, and no range predicate is emitted.
   */
  lemma PeriodFallback(airline: string, q: Inputs)
    requires Trim(q.startDate) == "" || Trim(q.endDate) == ""
    ensures var fs, p := StaffFilters(airline, q), PeriodOf(q.period);
      && (p == "current" ==> fs[1] == Filter(DepartsToday, []))
      && (p == "future" ==> fs[1] == Filter(DepartsFromNow, []))
      && (p == "past" ==> fs[1] == Filter(DepartedBeforeNow, []))
      && (p == "current" || p == "future" || p == "past" ==> |fs| == 2 || !fs[2].clause.OnDate())
      && (p != "current" && p != "future" && p != "past" ==>
            |fs| >= 3 && fs[1] == Filter(DepartsFromToday, []) && fs[2] == Filter(DepartsWithin30Days, []))
      && (forall i :: 0 <= i < |fs| && fs[i].clause.OnDate() ==> fs[i].clause.OnPeriod() && fs[i].args == [])
  {
    StaffFiltersParts(airline, q);
    PeriodFallbackParts(airline, PeriodOf(q.period), Trim(q.startDate), Trim(q.endDate),
      PlaceFilters(AirportCode(q.fromAirport), AirportCode(q.toAirport), Trim(q.fromCity), Trim(q.toCity)));
  }

  lemma PeriodFallbackParts(airline: string, p: string, s: string, e: string, places: seq<Filter<Clause>>)
    requires (s == "" || e == "") && RanksIn(places, 8, 12)
    ensures var fs := [Filter(AirlineIs, [airline])] + DateFilters(p, s, e) + places;
      && (p == "current" ==> fs[1] == Filter(DepartsToday, []))
      && (p == "future" ==> fs[1] == Filter(DepartsFromNow, []))
      && (p == "past" ==> fs[1] == Filter(DepartedBeforeNow, []))
      && (p == "current" || p == "future" || p == "past" ==> |fs| == 2 || !fs[2].clause.OnDate())
      && (p != "current" && p != "future" && p != "past" ==>
            |fs| >= 3 && fs[1] == Filter(DepartsFromToday, []) && fs[2] == Filter(DepartsWithin30Days, []))
      && (forall i :: 0 <= i < |fs| && fs[i].clause.OnDate() ==> fs[i].clause.OnPeriod() && fs[i].args == [])
  {
    var dates := DateFilters(p, s, e);
    var fs := [Filter(AirlineIs, [airline])] + dates + places;
    forall i | 1 + |dates| <= i < |fs| ensures !fs[i].clause.OnDate() {
      assert fs[i] == places[i - 1 - |dates|];
    }
  }

  /** The period is compared case-insensitively, and an absent period is an empty one. */
  lemma PeriodIgnoresCase(airline: string, q: Inputs, p: string)
    ensures StaffFilters(airline, q.(period := Some(Upper(p)))) == StaffFilters(airline, q.(period := Some(p)))
    ensures StaffFilters(airline, q.(period := None)) == StaffFilters(airline, q.(period := Some("")))
  {
    assert PeriodOf(Some(Upper(p))) == PeriodOf(Some(p)) by {
      UpperStrip(p);
      LowerUpper(Strip(p));
    }
    SamePeriod(airline, q.(period := Some(Upper(p))), q.(period := Some(p)));
    SamePeriod(airline, q.(period := None), q.(period := Some("")));
  }

  /** The period reaches the query only through its normalised form. */
  lemma SamePeriod(airline: string, q1: Inputs, q2: Inputs)
    requires q1.(period := None) == q2.(period := None)
    requires PeriodOf(q1.period) == PeriodOf(q2.period)
    ensures StaffFilters(airline, q1) == StaffFilters(airline, q2)
  {
    assert q1.startDate == q2.startDate && q1.endDate == q2.endDate;
    assert q1.fromAirport == q2.fromAirport && q1.toAirport == q2.toAirport;
    assert q1.fromCity == q2.fromCity && q1.toCity == q2.toCity;
  }

  /**
   * Input normalisation: an airport filter is present exactly when the trimmed
   * input is non-empty and binds the trimmed, upper-cased code; a city filter
   * likewise, binding `%city%` with the trimmed city.
   */
  lemma PlaceFiltersNormalised(airline: string, q: Inputs)
    ensures var fs := StaffFilters(airline, q);
      && ((exists f :: f in fs && f.clause == DepAirportIs) <==> Trim(q.fromAirport) != "")
      && ((exists f :: f in fs && f.clause == ArrAirportIs) <==> Trim(q.toAirport) != "")
      && ((exists f :: f in fs && f.clause == DepCityLike) <==> Trim(q.fromCity) != "")
      && ((exists f :: f in fs && f.clause == ArrCityLike) <==> Trim(q.toCity) != "")
      && (forall f :: f in fs && f.clause == DepAirportIs ==> f.args == [Upper(Trim(q.fromAirport))])
      && (forall f :: f in fs && f.clause == ArrAirportIs ==> f.args == [Upper(Trim(q.toAirport))])
      && (forall f :: f in fs && f.clause == DepCityLike ==> f.args == ["%" + Trim(q.fromCity) + "%"])
      && (forall f :: f in fs && f.clause == ArrCityLike ==> f.args == ["%" + Trim(q.toCity) + "%"])
  {
    StaffFiltersParts(airline, q);
    var dates := DateFilters(PeriodOf(q.period), Trim(q.startDate), Trim(q.endDate));
    DateFiltersShape(PeriodOf(q.period), Trim(q.startDate), Trim(q.endDate));
    PlacePartsNormalised(airline, dates, AirportCode(q.fromAirport), AirportCode(q.toAirport), Trim(q.fromCity), Trim(q.toCity));
  }

  lemma PlacePartsNormalised(airline: string, dates: seq<Filter<Clause>>,
                             fromAp: string, toAp: string, fromCity: string, toCity: string)
    requires RanksIn(dates, 1, 8)
    ensures var fs := [Filter(AirlineIs, [airline])] + dates + PlaceFilters(fromAp, toAp, fromCity, toCity);
      && Present(fs, DepAirportIs, fromAp, fromAp)
      && Present(fs, ArrAirportIs, toAp, toAp)
      && Present(fs, DepCityLike, fromCity, Contains(fromCity))
      && Present(fs, ArrCityLike, toCity, Contains(toCity))
  {
    var head := [Filter(AirlineIs, [airline])];
    var places := PlaceFilters(fromAp, toAp, fromCity, toCity);
    RanksConcat(head, dates, 0, 1, 8);
    assert head + dates + places == (head + dates) + places;
    PlacesPresent(fromAp, toAp, fromCity, toCity);
    PresentAfter(head + dates, places, DepAirportIs, fromAp, fromAp);
    PresentAfter(head + dates, places, ArrAirportIs, toAp, toAp);
    PresentAfter(head + dates, places, DepCityLike, fromCity, Contains(fromCity));
    PresentAfter(head + dates, places, ArrCityLike, toCity, Contains(toCity));
  }

  lemma PlacesPresent(fromAp: string, toAp: string, fromCity: string, toCity: string)
    ensures var fs := PlaceFilters(fromAp, toAp, fromCity, toCity);
      && Present(fs, DepAirportIs, fromAp, fromAp)
      && Present(fs, ArrAirportIs, toAp, toAp)
      && Present(fs, DepCityLike, fromCity, Contains(fromCity))
      && Present(fs, ArrCityLike, toCity, Contains(toCity))
  {
    DepAirportPresent(fromAp, toAp, fromCity, toCity);
    ArrAirportPresent(fromAp, toAp, fromCity, toCity);
    DepCityPresent(fromAp, toAp, fromCity, toCity);
    ArrCityPresent(fromAp, toAp, fromCity, toCity);
  }

  lemma DepAirportPresent(fromAp: string, toAp: string, fromCity: string, toCity: string)
    ensures Present(PlaceFilters(fromAp, toAp, fromCity, toCity), DepAirportIs, fromAp, fromAp)
  {
    var a := Optional(DepAirportIs, fromAp, fromAp);
    var b := Optional(ArrAirportIs, toAp, toAp);
    var c := Optional(DepCityLike, fromCity, Contains(fromCity));
    var d := Optional(ArrCityLike, toCity, Contains(toCity));
    assert RanksIn(b, 9, 10) && RanksIn(c, 10, 11) && RanksIn(d, 11, 12);
    OptionalPresent(DepAirportIs, fromAp, fromAp);
    PresentBefore(a, b, DepAirportIs, fromAp, fromAp);
    PresentBefore(a + b, c, DepAirportIs, fromAp, fromAp);
    PresentBefore(a + b + c, d, DepAirportIs, fromAp, fromAp);
  }

  lemma ArrAirportPresent(fromAp: string, toAp: string, fromCity: string, toCity: string)
    ensures Present(PlaceFilters(fromAp, toAp, fromCity, toCity), ArrAirportIs, toAp, toAp)
  {
    var a := Optional(DepAirportIs, fromAp, fromAp);
    var b := Optional(ArrAirportIs, toAp, toAp);
    var c := Optional(DepCityLike, fromCity, Contains(fromCity));
    var d := Optional(ArrCityLike, toCity, Contains(toCity));
    assert RanksIn(a, 8, 9) && RanksIn(c, 10, 11) && RanksIn(d, 11, 12);
    OptionalPresent(ArrAirportIs, toAp, toAp);
    PresentAfter(a, b, ArrAirportIs, toAp, toAp);
    PresentBefore(a + b, c, ArrAirportIs, toAp, toAp);
    PresentBefore(a + b + c, d, ArrAirportIs, toAp, toAp);
  }

  lemma DepCityPresent(fromAp: string, toAp: string, fromCity: string, toCity: string)
    ensures Present(PlaceFilters(fromAp, toAp, fromCity, toCity), DepCityLike, fromCity, Contains(fromCity))
  {
    var a := Optional(DepAirportIs, fromAp, fromAp);
    var b := Optional(ArrAirportIs, toAp, toAp);
    var c := Optional(DepCityLike, fromCity, Contains(fromCity));
    var d := Optional(ArrCityLike, toCity, Contains(toCity));
    assert RanksIn(a, 8, 9) && RanksIn(b, 9, 10) && RanksIn(d, 11, 12);
    RanksConcat(a, b, 8, 9, 10);
    OptionalPresent(DepCityLike, fromCity, Contains(fromCity));
    PresentAfter(a + b, c, DepCityLike, fromCity, Contains(fromCity));
    PresentBefore(a + b + c, d, DepCityLike, fromCity, Contains(fromCity));
  }

  lemma ArrCityPresent(fromAp: string, toAp: string, fromCity: string, toCity: string)
    ensures Present(PlaceFilters(fromAp, toAp, fromCity, toCity), ArrCityLike, toCity, Contains(toCity))
  {
    var a := Optional(DepAirportIs, fromAp, fromAp);
    var b := Optional(ArrAirportIs, toAp, toAp);
    var c := Optional(DepCityLike, fromCity, Contains(fromCity));
    var d := Optional(ArrCityLike, toCity, Contains(toCity));
    assert RanksIn(a, 8, 9) && RanksIn(b, 9, 10) && RanksIn(c, 10, 11);
    RanksConcat(a, b, 8, 9, 10);
    RanksConcat(a + b, c, 8, 10, 11);
    OptionalPresent(ArrCityLike, toCity, Contains(toCity));
    PresentAfter(a + b + c, d, ArrCityLike, toCity, Contains(toCity));
  }

  /** Some filter has clause `c` iff `value` is non-empty, and every such filter binds `bound`. */
  predicate Present(fs: seq<Filter<Clause>>, c: Clause, value: string, bound: string) {
    && ((exists f :: f in fs && f.clause == c) <==> value != "")
    && (forall f :: f in fs && f.clause == c ==> f.args == [bound])
  }

  lemma OptionalPresent(c: Clause, value: string, bound: string)
    ensures Present(Optional(c, value, bound), c, value, bound)
  {
    if value != "" { assert Optional(c, value, bound)[0] == Filter(c, [bound]); }
  }

  /** Filters of lower rank in front leave clause `c`'s presence as it was. */
  lemma PresentAfter(pre: seq<Filter<Clause>>, fs: seq<Filter<Clause>>, c: Clause, value: string, bound: string)
    requires RanksIn(pre, 0, c.Rank()) && Present(fs, c, value, bound)
    ensures Present(pre + fs, c, value, bound)
  {
    if value != "" {
      var f :| f in fs && f.clause == c;
      assert f in pre + fs;
    }
  }

  /** Filters of higher rank behind leave clause `c`'s presence as it was. */
  lemma PresentBefore(fs: seq<Filter<Clause>>, post: seq<Filter<Clause>>, c: Clause, value: string, bound: string)
    requires RanksIn(post, c.Rank() + 1, 12) && Present(fs, c, value, bound)
    ensures Present(fs + post, c, value, bound)
  {
    if value != "" {
      var f :| f in fs && f.clause == c;
      assert f in fs + post;
    }
  }
}
