/**
 * The dashboard header (`src/components/dashboard/header.tsx`): the selected
 * date range, the active filters, the filter-removal callback, and the two
 * effects that write the state to the URL query and read it back.
 *
 * Dates are timestamps; turning one into the `dd/MM/yyyy` text of the URL and
 * back is a pair of function parameters (`fmt`, `parse`).
 */
module Header {
  import opened Wrappers
  import opened Seqs
  import opened JsObject

  datatype HeaderState = HeaderState(selectedDates: seq<int>, activeFilters: Record)

  /** One `name=value` pair of a query string. */
  datatype Param = Param(name: string, value: string)

  function Without(value: string): string -> bool
  {
    v => v != value
  }

  // ---------------------------------------------------------------------------
  // removeFilter

  /** `removeFilter(key, value)`. The key `"date"` clears the date range. Any
      other key loses every occurrence of `value`, and the key disappears once
      its list is empty. A key that is not in the object makes the source call
      `.filter` on `undefined`, a `TypeError`, modelled as `Err`. */
  function RemoveFilter(st: HeaderState, key: string, value: string): (r: Result<HeaderState>)
    ensures key == "date" ==> r.Ok? && r.value.selectedDates == [] && r.value.activeFilters == st.activeFilters
    ensures key != "date" ==> (r.Ok? <==> Get(st.activeFilters, key).Some?)
    ensures key != "date" && r.Ok? ==> r.value.selectedDates == st.selectedDates
    ensures key != "date" && r.Ok? ==>
      forall k :: k != key ==> Get(r.value.activeFilters, k) == Get(st.activeFilters, k)
    ensures key != "date" && r.Ok? ==>
      var before := Get(st.activeFilters, key).value;
      var after := Get(r.value.activeFilters, key);
      && (after.None? <==> forall v :: v in before ==> v == value)
      && (after.Some? ==> IsSubseq(after.value, before) && value !in after.value
                          && forall v :: v in after.value <==> v in before && v != value)
      && (after.Some? ==> after.value == Filter(before, Without(value)))
    ensures key != "date" && r.Ok? ==>
      if Get(r.value.activeFilters, key).Some? then Keys(r.value.activeFilters) == Keys(st.activeFilters)
      else Keys(r.value.activeFilters) == Filter(Keys(st.activeFilters), OtherKey(key))
    ensures r.Ok? && WellFormed(st.activeFilters) ==> WellFormed(r.value.activeFilters)
  {
    if key == "date" then Ok(st.(selectedDates := []))
    else match Get(st.activeFilters, key)
      case None => Err("TypeError: cannot read properties of undefined")
      case Some(before) =>
        var kept := Filter(before, Without(value));
        FilterIsSubseq(before, Without(value));
        PutKeys(st.activeFilters, key, kept);
        DeleteKeys(st.activeFilters, key);
        var updated := if |kept| == 0 then Delete(st.activeFilters, key)
                       else Put(st.activeFilters, key, kept);
        Ok(st.(activeFilters := updated))
  }

  /** Removing a value that is not listed, from a non-empty list, changes nothing. */
  lemma RemoveAbsentValue(st: HeaderState, key: string, value: string)
    requires key != "date"
    requires WellFormed(st.activeFilters)
    requires Get(st.activeFilters, key).Some?
    requires |Get(st.activeFilters, key).value| > 0
    requires value !in Get(st.activeFilters, key).value
    ensures RemoveFilter(st, key, value) == Ok(st)
  {
    var before := Get(st.activeFilters, key).value;
    FilterKeepsAll(before, Without(value));
    PutSame(st.activeFilters, key);
  }

  // ---------------------------------------------------------------------------
  // URL serialisation

  /** Number of values over all keys. */
  function ValueCount(r: Record): nat
  {
    if |r| == 0 then 0 else |r[0].values| + ValueCount(r[1..])
  }

  /** `values.forEach((value) => newParams.append(key, value))` for one entry. */
  function EntryParams(e: Entry): (ps: seq<Param>)
    ensures |ps| == |e.values|
    ensures forall i :: 0 <= i < |ps| ==> ps[i] == Param(e.key, e.values[i])
    decreases |e.values|
  {
    if |e.values| == 0 then []
    else [Param(e.key, e.values[0])] + EntryParams(Entry(e.key, e.values[1..]))
  }

  /** `Object.entries(activeFilters).forEach(...)`: key by key, value by value. */
  function FilterParams(r: Record): (ps: seq<Param>)
    ensures |ps| == ValueCount(r)
  {
    if |r| == 0 then [] else EntryParams(r[0]) + FilterParams(r[1..])
  }

  /** `startDate` and `endDate`, present only when exactly two dates are selected. */
  function DateParams(dates: seq<int>, fmt: int -> string): (ps: seq<Param>)
    ensures |ps| == if |dates| == 2 then 2 else 0
    ensures |dates| == 2 ==> ps == [Param("startDate", fmt(dates[0])), Param("endDate", fmt(dates[1]))]
  {
    if |dates| == 2 then [Param("startDate", fmt(dates[0])), Param("endDate", fmt(dates[1]))] else []
  }

  /** The query string built by the second effect. */
  function Serialize(st: HeaderState, fmt: int -> string): (ps: seq<Param>)
    ensures |ps| == |DateParams(st.selectedDates, fmt)| + ValueCount(st.activeFilters)
    ensures ps[..|DateParams(st.selectedDates, fmt)|] == DateParams(st.selectedDates, fmt)
    ensures ps[|DateParams(st.selectedDates, fmt)|..] == FilterParams(st.activeFilters)
  {
    var d := DateParams(st.selectedDates, fmt);
    var f := FilterParams(st.activeFilters);
    assert (d + f)[..|d|] == d;
    assert (d + f)[|d|..] == f;
    d + f
  }

  // ---------------------------------------------------------------------------
  // Reading the query back

  function Named(name: string): Param -> bool
  {
    (p: Param) => p.name == name
  }

  /** The values of a list of parameters, in order. */
  function Values(ps: seq<Param>): (vs: seq<string>)
    ensures |vs| == |ps|
  {
    if |ps| == 0 then [] else [ps[0].value] + Values(ps[1..])
  }

  /** `URLSearchParams.getAll(name)`: every value under `name`, in order. */
  function GetAll(ps: seq<Param>, name: string): (vs: seq<string>)
    ensures vs == Values(Filter(ps, Named(name)))
    ensures forall v :: v in vs <==> Param(name, v) in ps
  {
    if |ps| == 0 then []
    else
      assert ps == [ps[0]] + ps[1..];
      if ps[0].name == name then
        assert ([ps[0]] + Filter(ps[1..], Named(name)))[1..] == Filter(ps[1..], Named(name));
        [ps[0].value] + GetAll(ps[1..], name)
      else GetAll(ps[1..], name)
  }

  /** `getAll` returns each value as often as a parameter carries it under
      `name`: no repeat is dropped and no value is added. */
  lemma {:induction false} GetAllCounts(ps: seq<Param>, name: string, v: string)
    ensures multiset(GetAll(ps, name))[v] == multiset(ps)[Param(name, v)]
  {
    if |ps| > 0 {
      assert ps == [ps[0]] + ps[1..];
      GetAllCounts(ps[1..], name, v);
    }
  }

  /** `URLSearchParams.get(name)`: the first value under `name`, `None` for `null`. */
  function GetFirst(ps: seq<Param>, name: string): (v: Option<string>)
    ensures v.None? <==> GetAll(ps, name) == []
    ensures v.Some? ==> v.value == GetAll(ps, name)[0]
  {
    if |ps| == 0 then None
    else if ps[0].name == name then Some(ps[0].value)
    else GetFirst(ps[1..], name)
  }

  /** The first effect: both date texts must be non-empty to select a range, and
      the only filter it restores is `transactionType`. */
  function ReadParams(ps: seq<Param>, parse: string -> int): (st: HeaderState)
    ensures |st.selectedDates| == 0 || |st.selectedDates| == 2
    ensures |st.selectedDates| == 2 <==>
      GetFirst(ps, "startDate").Some? && GetFirst(ps, "startDate").value != "" &&
      GetFirst(ps, "endDate").Some? && GetFirst(ps, "endDate").value != ""
    ensures |st.selectedDates| == 2 ==>
      st.selectedDates == [parse(GetFirst(ps, "startDate").value), parse(GetFirst(ps, "endDate").value)]
    ensures WellFormed(st.activeFilters)
    ensures forall k :: k != "transactionType" ==> Get(st.activeFilters, k) == None
    ensures Get(st.activeFilters, "transactionType") ==
      if |GetAll(ps, "transactionType")| > 0 then Some(GetAll(ps, "transactionType")) else None
  {
    var start := GetFirst(ps, "startDate");
    var end := GetFirst(ps, "endDate");
    var dates := if start.Some? && start.value != "" && end.Some? && end.value != ""
                 then [parse(start.value), parse(end.value)] else [];
    var types := GetAll(ps, "transactionType");
    HeaderState(dates, if |types| > 0 then [Entry("transactionType", types)] else [])
  }

  /** `getAll` of one entry's parameters. */
  lemma {:induction false} GetAllEntry(e: Entry, name: string)
    ensures GetAll(EntryParams(e), name) == if e.key == name then e.values else []
    decreases |e.values|
  {
    if |e.values| > 0 {
      GetAllEntry(Entry(e.key, e.values[1..]), name);
      assert e.values == [e.values[0]] + e.values[1..];
    }
  }

  lemma {:induction false} ValuesAppend(a: seq<Param>, b: seq<Param>)
    ensures Values(a + b) == Values(a) + Values(b)
  {
    if |a| > 0 {
      assert (a + b)[1..] == a[1..] + b;
      ValuesAppend(a[1..], b);
    } else {
      assert a + b == b;
    }
  }

  /** `getAll` distributes over concatenation. */
  lemma GetAllAppend(a: seq<Param>, b: seq<Param>, name: string)
    ensures GetAll(a + b, name) == GetAll(a, name) + GetAll(b, name)
  {
    FilterAppend(a, b, Named(name));
    ValuesAppend(Filter(a, Named(name)), Filter(b, Named(name)));
  }

  /** Reading a key back from the serialised filters gives its list, or nothing
      for a missing key. */
  lemma {:induction false} FilterParamsRoundTrip(r: Record, name: string)
    requires WellFormed(r)
    ensures GetAll(FilterParams(r), name) == Get(r, name).GetOr([])
  {
    if |r| > 0 {
      GetAllEntry(r[0], name);
      GetAllAppend(EntryParams(r[0]), FilterParams(r[1..]), name);
      FilterParamsRoundTrip(r[1..], name);
    }
  }

  /** The date parameters are read back as the two selected dates when the
      formatter writes non-empty texts that `parse` inverts. */
  lemma DatesRoundTrip(st: HeaderState, fmt: int -> string, parse: string -> int)
    requires |st.selectedDates| == 2
    requires fmt(st.selectedDates[0]) != "" && fmt(st.selectedDates[1]) != ""
    requires parse(fmt(st.selectedDates[0])) == st.selectedDates[0]
    requires parse(fmt(st.selectedDates[1])) == st.selectedDates[1]
    ensures ReadParams(Serialize(st, fmt), parse).selectedDates == st.selectedDates
  {
    var a, b := Param("startDate", fmt(st.selectedDates[0])), Param("endDate", fmt(st.selectedDates[1]));
    var f := FilterParams(st.activeFilters);
    var ps := Serialize(st, fmt);
    assert ps == [a] + ([b] + f);
    GetFirstCons(a, [b] + f, "startDate");
    GetFirstCons(a, [b] + f, "endDate");
    GetFirstCons(b, f, "endDate");
  }

  lemma GetFirstCons(p: Param, rest: seq<Param>, name: string)
    ensures GetFirst([p] + rest, name) == if p.name == name then Some(p.value) else GetFirst(rest, name)
  {
    assert ([p] + rest)[1..] == rest;
  }

  /** A state whose only filter is a non-empty `transactionType` list survives
      the trip through the URL. */
  lemma TransactionTypeRoundTrip(st: HeaderState, fmt: int -> string, parse: string -> int)
    requires |st.activeFilters| == 1 && st.activeFilters[0].key == "transactionType"
    requires |st.activeFilters[0].values| > 0
    ensures ReadParams(Serialize(st, fmt), parse).activeFilters == st.activeFilters
  {
    var f := st.activeFilters;
    var vs := f[0].values;
    assert f == [Entry("transactionType", vs)];
    var d := DateParams(st.selectedDates, fmt);
    var ps := Serialize(st, fmt);
    assert ps == d + FilterParams(f);
    NoTypeInDates(st.selectedDates, fmt);
    FilterParamsRoundTrip(f, "transactionType");
    GetAllAppend(d, FilterParams(f), "transactionType");
    assert GetAll(ps, "transactionType") == vs;
  }

  lemma NoTypeInDates(dates: seq<int>, fmt: int -> string)
    ensures GetAll(DateParams(dates, fmt), "transactionType") == []
  {
    var d := DateParams(dates, fmt);
    if |d| == 2 {
      assert d[1..][1..] == [];
    }
  }
}
