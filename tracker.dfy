/**
 * The in-memory expense store and the handlers that change or query it:
 * add (menu entry 1), remove (entry 2), filter by category (entry 4) and
 * filter by date (entry 5).
 */
module Tracker {
  import opened Wrappers
  import opened Text
  import opened Records

  /**
   * The library parsers the handlers call: whether
   * `datetime.strptime(text, "%Y-%m-%d")` succeeds, and the value `float(text)`
   * returns, or None where it raises ValueError.
   */
  datatype Parsers = Parsers(validDate: string -> bool, parseFloat: string -> Option<real>)

  /** The four lines the add handler reads, as typed. */
  datatype AddRequest = AddRequest(date: string, category: string, description: string, amount: string)

  datatype AddError = InvalidDate | UnknownCategory | NonNumericAmount

  /** The category as the add handler compares and stores it: stripped, then capitalized. */
  function NormalizeCategory(raw: string): (c: string)
    ensures IsCapitalized(c) && IsStripped(c)
    ensures Lower(c) == Lower(Strip(raw))
  {
    CapitalizeKeepsStripped(Strip(raw));
    Capitalize(Strip(raw))
  }

  /** Normalizing an already normalized category changes nothing. */
  lemma NormalizeIdempotent(raw: string)
    ensures NormalizeCategory(NormalizeCategory(raw)) == NormalizeCategory(raw)
  {
    var c := NormalizeCategory(raw);
    StripNoop(c);
    CapitalizeIdempotent(Strip(raw));
  }

  /**
   * The add handler's decision: the checks in source order (date, category,
   * amount), then the record it appends.
   */
  function Added(parsers: Parsers, categories: seq<string>, expenses: seq<Expense>, req: AddRequest): (r: Result<Expense, AddError>)
    ensures r.Success? ==> r.value.id == NextIdOf(expenses)
    ensures r.Success? ==> forall k :: 0 <= k < |expenses| ==> expenses[k].id < r.value.id
  {
    var category := NormalizeCategory(req.category);
    if !parsers.validDate(req.date) then Failure(InvalidDate)
    else if category !in categories then Failure(UnknownCategory)
    else if parsers.parseFloat(req.amount).None? then Failure(NonNumericAmount)
    else Success(Expense(NextIdOf(expenses), req.date, category,
                         Capitalize(req.description), parsers.parseFloat(req.amount).value))
  }

  /** The expense list after an add request: one record appended, or unchanged. */
  function AfterAdd(parsers: Parsers, categories: seq<string>, expenses: seq<Expense>, req: AddRequest): (r: seq<Expense>)
    ensures r == expenses || (|r| == |expenses| + 1 && r[..|expenses|] == expenses)
  {
    match Added(parsers, categories, expenses, req)
    case Success(e) => expenses + [e]
    case Failure(_) => expenses
  }

  /**
   * The error reported is the first failing check, in the order date,
   * category, amount; the add succeeds exactly when all three pass.
   */
  lemma AddedChecksInOrder(parsers: Parsers, categories: seq<string>, expenses: seq<Expense>, req: AddRequest)
    ensures var r := Added(parsers, categories, expenses, req);
            && (r == Failure(InvalidDate) <==> !parsers.validDate(req.date))
            && (r == Failure(UnknownCategory) <==>
                  parsers.validDate(req.date) && NormalizeCategory(req.category) !in categories)
            && (r == Failure(NonNumericAmount) <==>
                  parsers.validDate(req.date) && NormalizeCategory(req.category) in categories &&
                  parsers.parseFloat(req.amount).None?)
            && (AfterAdd(parsers, categories, expenses, req) == expenses <==> r.Failure?)
  {
    if Added(parsers, categories, expenses, req).Success? {
      assert |AfterAdd(parsers, categories, expenses, req)| == |expenses| + 1;
    }
  }

  /**
   * A successful add appends one record whose id is above every existing id
   * (one more than the largest, or 1 on an empty list), so unique ids stay unique.
   */
  lemma AddedFreshId(parsers: Parsers, categories: seq<string>, expenses: seq<Expense>, req: AddRequest)
    requires Added(parsers, categories, expenses, req).Success?
    ensures var e := Added(parsers, categories, expenses, req).value;
            (forall k :: 0 <= k < |expenses| ==> expenses[k].id < e.id) &&
            (expenses == [] ==> e.id == 1) &&
            (expenses != [] ==> e.id == MaxId(expenses) + 1)
    ensures UniqueIds(expenses) ==> UniqueIds(AfterAdd(parsers, categories, expenses, req))
  {
    var e := Added(parsers, categories, expenses, req).value;
    assert AfterAdd(parsers, categories, expenses, req) == expenses + [e];
    if UniqueIds(expenses) {
      AppendFreshKeepsUnique(expenses, e);
    }
  }

  /**
   * The appended record holds the typed date, a listed category in its
   * normalized form, the capitalized description and the parsed amount.
   */
  lemma AddedRecord(parsers: Parsers, categories: seq<string>, expenses: seq<Expense>, req: AddRequest)
    requires Added(parsers, categories, expenses, req).Success?
    ensures var e := Added(parsers, categories, expenses, req).value;
            e.date == req.date && parsers.validDate(e.date) &&
            e.category in categories && e.category == NormalizeCategory(req.category) &&
            Capitalize(e.category) == e.category &&
            e.description == Capitalize(req.description) && Capitalize(e.description) == e.description &&
            parsers.parseFloat(req.amount) == Some(e.amount)
  {
    CapitalizeIdempotent(Strip(req.category));
    CapitalizeIdempotent(req.description);
  }

  /**
   * A listed category whose spelling is not already capitalized (such as
   * "Eating Out") can never be given to a new record.
   */
  lemma UnreachableCategory(parsers: Parsers, categories: seq<string>, expenses: seq<Expense>, req: AddRequest, c: string)
    requires Capitalize(c) != c
    ensures Added(parsers, categories, expenses, req).Success? ==>
              Added(parsers, categories, expenses, req).value.category != c
  {
    CapitalizeIdempotent(Strip(req.category));
  }

  datatype RemoveOutcome = MalformedId | NotFound(id: int) | Deleted(expense: Expense)

  /** The outcome of the category menu, given the parsed choice (None: `int()` failed). */
  datatype CategoryView =
    | MalformedChoice
    | Back
    | InvalidSelection
    | CategoryListing(category: string, matches: seq<Expense>, total: real, found: bool)

  datatype DateView =
    | InvalidDateQuery
    | DateListing(matches: seq<Expense>, total: real, found: bool)

  /** The single expense store of a session: the loaded document's categories and expenses. */
  class Store {
    const parsers: Parsers
    var categories: seq<string>
    var expenses: seq<Expense>

    constructor (parsers: Parsers, categories: seq<string>, expenses: seq<Expense>)
      ensures this.parsers == parsers && this.categories == categories && this.expenses == expenses
    {
      this.parsers := parsers;
      this.categories := categories;
      this.expenses := expenses;
    }

    /** The id for a new record: the largest id plus one, found by a scan, or 1 when there are none. */
    method NextId() returns (id: int)
      ensures forall k :: 0 <= k < |expenses| ==> expenses[k].id < id
      ensures id == NextIdOf(expenses)
    {
      if |expenses| == 0 {
        return 1;
      }
      var m := expenses[0].id;
      var i := 1;
      while i < |expenses|
        invariant 1 <= i <= |expenses|
        invariant m == MaxId(expenses[..i])
      {
        assert expenses[..i + 1][..i] == expenses[..i];
        if expenses[i].id > m {
          m := expenses[i].id;
        }
        i := i + 1;
      }
      assert expenses[..i] == expenses;
      id := m + 1;
    }

    /** Menu entry 1: validate, normalize, allocate the id, append. */
    method Add(req: AddRequest) returns (r: Result<Expense, AddError>)
      modifies this`expenses
      ensures r == Added(parsers, categories, old(expenses), req)
      ensures expenses == AfterAdd(parsers, categories, old(expenses), req)
    {
      var category := Capitalize(Strip(req.category));
      if !parsers.validDate(req.date) {
        return Failure(InvalidDate);
      }
      if category !in categories {
        return Failure(UnknownCategory);
      }
      if parsers.parseFloat(req.amount).None? {
        return Failure(NonNumericAmount);
      }
      var id := NextId();
      var e := Expense(id, req.date, category, Capitalize(req.description), parsers.parseFloat(req.amount).value);
      expenses := expenses + [e];
      r := Success(e);
    }

    /**
     * Menu entry 2: scan for the first record with the id and remove it with
     * `list.remove`; report when the id is missing or not a number.
     */
    method Remove(target: Option<int>) returns (r: RemoveOutcome)
      modifies this`expenses
      ensures target.None? ==> r == MalformedId && expenses == old(expenses)
      ensures target.Some? ==> expenses == RemovedId(old(expenses), target.value)
      ensures target.Some? ==>
                match FirstWithId(old(expenses), target.value)
                case None => r == NotFound(target.value)
                case Some(k) => r == Deleted(old(expenses)[k])
    {
      if target.None? {
        return MalformedId;
      }
      var id := target.value;
      var i := 0;
      while i < |expenses|
        invariant 0 <= i <= |expenses|
        invariant expenses == old(expenses)
        invariant forall k :: 0 <= k < i ==> expenses[k].id != id
      {
        if expenses[i].id == id {
          var e := expenses[i];
          RemoveFirstAt(expenses, i);
          expenses := RemoveFirst(expenses, e);
          return Deleted(e);
        }
        i := i + 1;
      }
      return NotFound(id);
    }

    /** The shared scan of entries 4 and 5: matching records, running total and found flag. */
    method Scan(key: Key) returns (matches: seq<Expense>, total: real, found: bool)
      ensures matches == Where(expenses, key)
      ensures total == Sum(matches)
      ensures found <==> exists i :: 0 <= i < |expenses| && Matches(expenses[i], key)
    {
      matches, total, found := [], 0.0, false;
      var i := 0;
      while i < |expenses|
        invariant 0 <= i <= |expenses|
        invariant matches == Where(expenses[..i], key)
        invariant total == Sum(matches)
        invariant found <==> exists j :: 0 <= j < i && Matches(expenses[j], key)
      {
        assert expenses[..i + 1][..i] == expenses[..i];
        var e := expenses[i];
        if Matches(e, key) {
          assert (matches + [e])[..|matches|] == matches;
          matches := matches + [e];
          total := total + e.amount;
          found := true;
        }
        i := i + 1;
      }
      assert expenses[..i] == expenses;
    }

    /**
     * Menu entry 4: the choice one past the list returns, a choice outside
     * 1..|categories| is rejected, otherwise the records of the chosen category.
     */
    method FilterByCategory(choice: Option<int>) returns (v: CategoryView)
      ensures choice.None? <==> v == MalformedChoice
      ensures v == Back <==> choice == Some(|categories| + 1)
      ensures v == InvalidSelection <==>
                choice.Some? && choice.value != |categories| + 1 && !(1 <= choice.value <= |categories|)
      ensures v.CategoryListing? ==>
                choice.Some? && 1 <= choice.value <= |categories| &&
                v.category == categories[choice.value - 1] &&
                v.matches == Where(expenses, ByCategory(v.category)) &&
                v.total == Sum(v.matches) && (v.found <==> v.matches != [])
    {
      if choice.None? {
        return MalformedChoice;
      }
      var n := choice.value;
      if n == |categories| + 1 {
        return Back;
      }
      if !(1 <= n <= |categories|) {
        return InvalidSelection;
      }
      var selected := categories[n - 1];
      var matches, total, found := Scan(ByCategory(selected));
      WhereEmpty(expenses, ByCategory(selected));
      v := CategoryListing(selected, matches, total, found);
    }

    /** Menu entry 5: the records of a date, after the date-format check. */
    method FilterByDate(query: string) returns (v: DateView)
      ensures v == InvalidDateQuery <==> !parsers.validDate(query)
      ensures v.DateListing? ==>
                v.matches == Where(expenses, ByDate(query)) &&
                v.total == Sum(v.matches) && (v.found <==> v.matches != [])
    {
      if !parsers.validDate(query) {
        return InvalidDateQuery;
      }
      var matches, total, found := Scan(ByDate(query));
      WhereEmpty(expenses, ByDate(query));
      v := DateListing(matches, total, found);
    }
  }
}
