/**
 * The flight search shared by the public search page and the customer search
 * page (`public_search`, `customer_search`): upcoming flights, narrowed by an
 * optional departure airport, arrival airport and departure day. Both handlers
 * build the same WHERE list and argument list; this module models it once.
 */
module FlightSearch {
  import opened Wrappers
  import opened Text
  import opened Bindings
  import StaffQuery

  /** The predicates of the search, in the order the handlers add them. */
  datatype Clause =
    | Upcoming            // departure_date_time >= NOW()
    | DepartureAirportIs  // departure_airport=%s
    | ArrivalAirportIs    // arrival_airport=%s
    | DepartsOn           // DATE(departure_date_time)=%s
  {
    /** The number of `%s` placeholders in the predicate's SQL text. */
    function Arity(): nat {
      if this == Upcoming then 0 else 1
    }

    /** The position of the predicate in the handlers' fixed order. */
    function Rank(): nat {
      match this
      case Upcoming => 0
      case DepartureAirportIs => 1
      case ArrivalAirportIs => 2
      case DepartsOn => 3
    }
  }

  function ArityOf(c: Clause): nat {
    c.Arity()
  }

  /** The posted search form; None when a field is absent. */
  datatype Form = Form(depart: Option<string>, arrive: Option<string>, date: Option<string>)

  /** An airport field as the search reads it: upper-cased, then stripped. */
  function Code(x: Option<string>): string {
    Strip(Upper(OrEmpty(x)))
  }

  /** A one-value filter, present only when the value is non-empty. */
  function Optional(c: Clause, value: string): (fs: seq<Filter<Clause>>)
    ensures fs == [] <==> value == ""
  {
    if value == "" then [] else [Filter(c, [value])]
  }

  /** The predicates are in strictly increasing rank: the fixed order, none twice. */
  predicate Ordered(fs: seq<Filter<Clause>>) {
    forall i, j :: 0 <= i < j < |fs| ==> fs[i].clause.Rank() < fs[j].clause.Rank()
  }

  /** Every predicate's rank is below `n`. */
  predicate RanksBelow(fs: seq<Filter<Clause>>, n: nat) {
    forall i :: 0 <= i < |fs| ==> fs[i].clause.Rank() < n
  }

  /** Some filter has clause `c` iff `value` is non-empty, and every such filter binds `value`. */
  predicate Bound(fs: seq<Filter<Clause>>, c: Clause, value: string) {
    && ((exists f :: f in fs && f.clause == c) <==> value != "")
    && (forall f :: f in fs && f.clause == c ==> f.args == [value])
  }

  /** The filters of a search, from the normalised fields: always upcoming flights, then each non-empty field. */
  function Filters(dep: string, arr: string, day: string): (fs: seq<Filter<Clause>>)
    ensures |fs| >= 1 && fs[0] == Filter(Upcoming, [])
    ensures WellBound(fs, ArityOf)
  {
    [Filter(Upcoming, [])]
      + Optional(DepartureAirportIs, dep)
      + Optional(ArrivalAirportIs, arr)
      + Optional(DepartsOn, day)
  }

  function SearchFilters(form: Form): (fs: seq<Filter<Clause>>) {
    Filters(Code(form.depart), Code(form.arrive), Trim(form.date))
  }

  /** The values of `vs` that are non-empty, in order. */
  function NonEmpty(vs: seq<string>): (r: seq<string>)
    ensures |r| <= |vs|
    ensures forall i :: 0 <= i < |r| ==> r[i] != "" && r[i] in vs
  {
    if vs == [] then []
    else if vs[0] == "" then NonEmpty(vs[1..])
    else [vs[0]] + NonEmpty(vs[1..])
  }

  /** Appends a filter for `value` when it is non-empty, as each `if dep: ...` line does. */
  method AppendIfPresent(where: seq<Clause>, args: seq<string>, c: Clause, value: string,
                         ghost fs: seq<Filter<Clause>>)
    returns (where': seq<Clause>, args': seq<string>)
    requires where == Clauses(fs) && args == Args(fs)
    ensures where' == Clauses(fs + Optional(c, value))
    ensures args' == Args(fs + Optional(c, value))
  {
    where', args' := where, args;
    if value != "" {
      Append(fs, Filter(c, [value]));
      where' := where' + [c];
      args' := args' + [value];
    } else {
      assert fs + Optional(c, value) == fs;
    }
  }

  /** The WHERE list and the argument list of a search, built as the handlers build them. */
  method BuildSearch(form: Form) returns (where: seq<Clause>, args: seq<string>)
    ensures where == Clauses(SearchFilters(form))
    ensures args == Args(SearchFilters(form))
  {
    var dep := Code(form.depart);
    var arr := Code(form.arrive);
    var date := Trim(form.date);
    where, args := BuildFromFields(dep, arr, date);
  }

  /** The appends of a search once its three fields are normalised. */
  method BuildFromFields(dep: string, arr: string, day: string) returns (where: seq<Clause>, args: seq<string>)
    ensures where == Clauses(Filters(dep, arr, day))
    ensures args == Args(Filters(dep, arr, day))
  {
    ghost var fs := [Filter(Upcoming, [])];
    assert Args(fs) == [] + Args(fs[1..]);
    where, args := [Upcoming], [];
    where, args := AppendIfPresent(where, args, DepartureAirportIs, dep, fs);
    fs := fs + Optional(DepartureAirportIs, dep);
    where, args := AppendIfPresent(where, args, ArrivalAirportIs, arr, fs);
    fs := fs + Optional(ArrivalAirportIs, arr);
    where, args := AppendIfPresent(where, args, DepartsOn, day, fs);
  }

  /** The arguments are exactly the non-empty normalised fields: departure, arrival, day. */
  lemma SearchArgs(form: Form)
    ensures Args(SearchFilters(form)) == NonEmpty([Code(form.depart), Code(form.arrive), Trim(form.date)])
  {
    FiltersArgs(Code(form.depart), Code(form.arrive), Trim(form.date));
  }

  lemma FiltersArgs(dep: string, arr: string, day: string)
    ensures Args(Filters(dep, arr, day)) == NonEmpty([dep, arr, day])
  {
    var head := [Filter(Upcoming, [])];
    var h1 := head + Optional(DepartureAirportIs, dep);
    var h2 := h1 + Optional(ArrivalAirportIs, arr);
    assert Args(head) == [] by {
      assert Args(head) == [] + Args(head[1..]);
    }
    OptionalStep(head, DepartureAirportIs, dep);
    OptionalStep(h1, ArrivalAirportIs, arr);
    OptionalStep(h2, DepartsOn, day);
    NonEmptyThree(dep, arr, day);
    assert [] + NonEmpty([dep]) == NonEmpty([dep]);
  }

  /** Appending an optional filter appends its predicate and its value exactly when the value is non-empty. */
  lemma OptionalStep(fs: seq<Filter<Clause>>, c: Clause, value: string)
    ensures Args(fs + Optional(c, value)) == Args(fs) + NonEmpty([value])
    ensures Clauses(fs + Optional(c, value)) == Clauses(fs) + (if value == "" then [] else [c])
  {
    ArgsConcat(fs, Optional(c, value));
    OptionalArgs(c, value);
    ClausesConcat(fs, Optional(c, value));
  }

  lemma NonEmptyThree(a: string, b: string, c: string)
    ensures NonEmpty([a, b, c]) == NonEmpty([a]) + NonEmpty([b]) + NonEmpty([c])
  {
    assert [a, b, c][1..] == [b, c];
    assert [b, c][1..] == [c];
    assert [a][1..] == [] && [b][1..] == [] && [c][1..] == [];
  }

  lemma OptionalArgs(c: Clause, value: string)
    ensures Args(Optional(c, value)) == NonEmpty([value])
  {
    if value != "" {
      assert Args([Filter(c, [value])]) == [value] + Args([Filter(c, [value])][1..]);
    }
    assert [value][1..] == [];
  }

  /** The placeholders of the WHERE list and the arguments line up, so the query is well formed. */
  lemma SearchPlaceholders(form: Form)
    ensures var fs := SearchFilters(form);
      Placeholders(Clauses(fs), ArityOf) == |Args(fs)| <= 3
  {
    var fs := SearchFilters(form);
    PlaceholdersMatchArgs(fs, ArityOf);
    SearchArgs(form);
  }

  /**
   * Each predicate of a search binds its own field: the departure airport
   * predicate the departure code, the arrival one the arrival code, the day
   * one the day; they come in that order after the upcoming-flights predicate.
   */
  lemma FiltersBound(dep: string, arr: string, day: string)
    ensures Ordered(Filters(dep, arr, day))
    ensures Bound(Filters(dep, arr, day), DepartureAirportIs, dep)
    ensures Bound(Filters(dep, arr, day), ArrivalAirportIs, arr)
    ensures Bound(Filters(dep, arr, day), DepartsOn, day)
  {
    var head := [Filter(Upcoming, [])];
    var h1 := head + Optional(DepartureAirportIs, dep);
    var h2 := h1 + Optional(ArrivalAirportIs, arr);
    OptionalOrdered(head, DepartureAirportIs, dep);
    OptionalOrdered(h1, ArrivalAirportIs, arr);
    OptionalOrdered(h2, DepartsOn, day);
    assert Bound(h1, DepartureAirportIs, dep) by {
      BoundNew(head, DepartureAirportIs, dep);
    }
    assert Bound(h2, DepartureAirportIs, dep) && Bound(h2, ArrivalAirportIs, arr) by {
      BoundStep(h1, ArrivalAirportIs, arr, DepartureAirportIs, dep);
      BoundNew(h1, ArrivalAirportIs, arr);
    }
    BoundStep(h2, DepartsOn, day, DepartureAirportIs, dep);
    BoundStep(h2, DepartsOn, day, ArrivalAirportIs, arr);
    BoundNew(h2, DepartsOn, day);
  }

  /** The same for the posted form: each predicate binds its own normalised field. */
  lemma SearchBound(form: Form)
    ensures Ordered(SearchFilters(form))
    ensures Bound(SearchFilters(form), DepartureAirportIs, Code(form.depart))
    ensures Bound(SearchFilters(form), ArrivalAirportIs, Code(form.arrive))
    ensures Bound(SearchFilters(form), DepartsOn, Trim(form.date))
  {
    FiltersBound(Code(form.depart), Code(form.arrive), Trim(form.date));
  }

  /** An optional filter of rank above everything before it keeps the order. */
  lemma OptionalOrdered(fs: seq<Filter<Clause>>, c: Clause, value: string)
    requires Ordered(fs) && RanksBelow(fs, c.Rank())
    ensures Ordered(fs + Optional(c, value)) && RanksBelow(fs + Optional(c, value), c.Rank() + 1)
  {
    if value != "" {
      var g := fs + [Filter(c, [value])];
      assert forall i :: 0 <= i < |fs| ==> g[i] == fs[i];
    }
  }

  /** An optional filter of a rank not yet present binds its own predicate, if any, to its value. */
  lemma BoundNew(fs: seq<Filter<Clause>>, c: Clause, value: string)
    requires RanksBelow(fs, c.Rank())
    ensures Bound(fs + Optional(c, value), c, value)
  {
    OptionalBound(c, value);
    forall f | f in fs ensures f.clause != c {
      var i :| 0 <= i < |fs| && fs[i] == f;
    }
    if value != "" {
      assert Filter(c, [value]) in fs + Optional(c, value);
    }
  }

  /** An optional filter of another predicate leaves what `x` binds as it was. */
  lemma BoundStep(fs: seq<Filter<Clause>>, c: Clause, value: string, x: Clause, v: string)
    requires x != c && Bound(fs, x, v)
    ensures Bound(fs + Optional(c, value), x, v)
  {
    OptionalBound(c, value);
    if v != "" {
      var f :| f in fs && f.clause == x;
      assert f in fs + Optional(c, value);
    }
  }

  /** An optional filter holds its one predicate, bound to its value, exactly when the value is non-empty. */
  lemma OptionalBound(c: Clause, value: string)
    ensures Bound(Optional(c, value), c, value)
    ensures forall f :: f in Optional(c, value) ==> f == Filter(c, [value])
  {
    if value != "" {
      assert Optional(c, value)[0] == Filter(c, [value]);
    }
  }

  /** Each field narrows the search exactly when it is non-empty after normalisation. */
  lemma SearchClauses(form: Form)
    ensures var cs := Clauses(SearchFilters(form));
      && (DepartureAirportIs in cs <==> Code(form.depart) != "")
      && (ArrivalAirportIs in cs <==> Code(form.arrive) != "")
      && (DepartsOn in cs <==> Trim(form.date) != "")
  {
    FiltersClauses(Code(form.depart), Code(form.arrive), Trim(form.date));
  }

  lemma FiltersClauses(dep: string, arr: string, day: string)
    ensures var cs := Clauses(Filters(dep, arr, day));
      && (DepartureAirportIs in cs <==> dep != "")
      && (ArrivalAirportIs in cs <==> arr != "")
      && (DepartsOn in cs <==> day != "")
  {
    var head := [Filter(Upcoming, [])];
    var h1 := head + Optional(DepartureAirportIs, dep);
    var h2 := h1 + Optional(ArrivalAirportIs, arr);
    assert Clauses(head) == [Upcoming];
    forall x | x != Upcoming
      ensures x in Clauses(h2 + Optional(DepartsOn, day))
          <==> (x == DepartureAirportIs && dep != "") || (x == ArrivalAirportIs && arr != "")
               || (x == DepartsOn && day != "")
    {
      ClauseStep(head, DepartureAirportIs, dep, x);
      ClauseStep(h1, ArrivalAirportIs, arr, x);
      ClauseStep(h2, DepartsOn, day, x);
    }
  }

  /** A predicate is in the WHERE list after an optional filter iff it was before, or it is that filter's and the value is non-empty. */
  lemma ClauseStep(fs: seq<Filter<Clause>>, c: Clause, value: string, x: Clause)
    ensures x in Clauses(fs + Optional(c, value)) <==> x in Clauses(fs) || (x == c && value != "")
  {
    OptionalStep(fs, c, value);
  }

  /**
   * Upper-casing before stripping, as the search does, gives the staff listing's
   * strip-then-upper airport code: both pages read an airport field alike.
   */
  lemma CodeAsStaff(x: Option<string>)
    ensures Code(x) == StaffQuery.AirportCode(x)
  {
    UpperStrip(OrEmpty(x));
  }

  /**
   * A searched airport code is trimmed, has no lower-case ASCII letter, and is
   * empty exactly when the field is absent or all whitespace.
   */
  lemma CodeNormalised(x: Option<string>)
    ensures Trimmed(Code(x)) && NoLower(Code(x))
    ensures Code(x) == "" <==> Blank(OrEmpty(x))
  {
    CodeAsStaff(x);
    StaffQuery.AirportCodeNormalised(x);
    TrimNormalised(x, [], [], []);
  }
}
