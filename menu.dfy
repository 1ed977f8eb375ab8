/**
 * The main menu loop: read a choice, run the matching handler, repeat until
 * "8". The lines typed at the console are the sequence of requests the loop
 * consumes, one per pass.
 */
module Menu {
  import opened Wrappers
  import opened Records
  import opened Tracker

  datatype Action =
    | AddExpense | RemoveExpense | ViewAll | FilterCategory | FilterDate
    | ViewCategories | About | Exit | Invalid

  /** The eight menu entries, as the exact text the user must type. */
  const Labels: seq<string> := ["1", "2", "3", "4", "5", "6", "7", "8"]

  /** Exact string match against the labels; everything else is an invalid selection. */
  function Dispatch(choice: string): (a: Action)
    ensures a != Invalid <==> choice in Labels
    ensures a == Exit <==> choice == "8"
  {
    if choice == "1" then AddExpense
    else if choice == "2" then RemoveExpense
    else if choice == "3" then ViewAll
    else if choice == "4" then FilterCategory
    else if choice == "5" then FilterDate
    else if choice == "6" then ViewCategories
    else if choice == "7" then About
    else if choice == "8" then Exit
    else Invalid
  }

  /**
   * One pass of the loop: the menu line and the lines the chosen handler then
   * reads. `removeId` and `categoryChoice` are the results of `int()` on the
   * typed text (None where it raises ValueError).
   */
  datatype Request = Request(choice: string, add: AddRequest, removeId: Option<int>,
                             categoryChoice: Option<int>, dateQuery: string)

  /** The expense list after one pass of the loop. */
  function Step(parsers: Parsers, categories: seq<string>, expenses: seq<Expense>, req: Request): (r: seq<Expense>)
    ensures |r| <= |expenses| + 1
  {
    match Dispatch(req.choice)
    case AddExpense => AfterAdd(parsers, categories, expenses, req.add)
    case RemoveExpense =>
      if req.removeId.Some? then RemovedId(expenses, req.removeId.value) else expenses
    case _ => expenses
  }

  /** The expense list after a run of passes, in order. */
  function Replay(parsers: Parsers, categories: seq<string>, expenses: seq<Expense>, reqs: seq<Request>): (r: seq<Expense>)
    ensures |r| <= |expenses| + |reqs|
    ensures (forall k :: 0 <= k < |reqs| ==> reqs[k].choice != "1" && reqs[k].choice != "2") ==> r == expenses
  {
    if reqs == [] then expenses
    else
      var before := Replay(parsers, categories, expenses, reqs[..|reqs| - 1]);
      OnlyAddAndRemoveChange(parsers, categories, before, reqs[|reqs| - 1]);
      Step(parsers, categories, before, reqs[|reqs| - 1])
  }

  /** Only entries 1 and 2 change the expenses; any other line, valid or not, leaves them as they are. */
  lemma OnlyAddAndRemoveChange(parsers: Parsers, categories: seq<string>, expenses: seq<Expense>, req: Request)
    ensures Step(parsers, categories, expenses, req) != expenses ==>
              req.choice == "1" || req.choice == "2"
  {
    if req.choice != "1" && req.choice != "2" {
      var a := Dispatch(req.choice);
      assert a != AddExpense && a != RemoveExpense;
    }
  }

  /** Every session keeps the ids unique: adds allocate fresh ids and removes only delete. */
  lemma {:induction false} ReplayKeepsIdsUnique(parsers: Parsers, categories: seq<string>, expenses: seq<Expense>, reqs: seq<Request>)
    requires UniqueIds(expenses)
    ensures UniqueIds(Replay(parsers, categories, expenses, reqs))
  {
    if reqs != [] {
      ReplayKeepsIdsUnique(parsers, categories, expenses, reqs[..|reqs| - 1]);
      var before := Replay(parsers, categories, expenses, reqs[..|reqs| - 1]);
      var req := reqs[|reqs| - 1];
      match Dispatch(req.choice)
      case AddExpense =>
        if Added(parsers, categories, before, req.add).Success? {
          AddedFreshId(parsers, categories, before, req.add);
        }
      case RemoveExpense =>
        if req.removeId.Some? {
          RemovedIdKeepsUnique(before, req.removeId.value);
        }
      case _ =>
    }
  }

  /** One pass of `main`'s loop after the menu line was read and was not "8". */
  method RunOnce(store: Store, req: Request)
    requires req.choice != "8"
    modifies store`expenses
    ensures store.expenses == Step(store.parsers, store.categories, old(store.expenses), req)
  {
    match Dispatch(req.choice) {
      case AddExpense =>
        var added := store.Add(req.add);
      case RemoveExpense =>
        var removed := store.Remove(req.removeId);
      case ViewAll =>
      case FilterCategory =>
        var view := store.FilterByCategory(req.categoryChoice);
      case FilterDate =>
        var view := store.FilterByDate(req.dateQuery);
      case ViewCategories =>
      case About =>
      case Invalid =>
    }
  }

  /**
   * `main`: runs the requests in order until the first "8", which ends the
   * loop; returns how many passes ran and whether "8" was read.
   */
  method RunMenu(store: Store, inputs: seq<Request>) returns (steps: nat, exited: bool)
    modifies store`expenses
    ensures steps <= |inputs|
    ensures exited <==> exists k :: 0 <= k < |inputs| && inputs[k].choice == "8"
    ensures exited ==> steps > 0 && inputs[steps - 1].choice == "8"
    ensures forall k :: 0 <= k < steps && (exited ==> k < steps - 1) ==> inputs[k].choice != "8"
    ensures !exited ==> steps == |inputs|
    ensures store.expenses == Replay(store.parsers, store.categories, old(store.expenses), inputs[..steps])
  {
    ghost var start := store.expenses;
    var i := 0;
    while i < |inputs|
      invariant 0 <= i <= |inputs|
      invariant forall k :: 0 <= k < i ==> inputs[k].choice != "8"
      invariant store.expenses == Replay(store.parsers, store.categories, start, inputs[..i])
    {
      if inputs[i].choice == "8" {
        ReplayExit(store.parsers, store.categories, start, inputs, i);
        return i + 1, true;
      }
      RunNext(store, start, inputs, i);
      NoExitExtends(inputs, i);
      i := i + 1;
    }
    assert inputs[..i] == inputs;
    return i, false;
  }

  /** One pass of the loop, as the next step of the replayed session. */
  method RunNext(store: Store, ghost start: seq<Expense>, inputs: seq<Request>, i: nat)
    requires i < |inputs| && inputs[i].choice != "8"
    requires store.expenses == Replay(store.parsers, store.categories, start, inputs[..i])
    modifies store`expenses
    ensures store.expenses == Replay(store.parsers, store.categories, start, inputs[..i + 1])
  {
    RunOnce(store, inputs[i]);
    ReplayNext(store.parsers, store.categories, start, inputs, i);
  }

  /** The "no exit so far" fact extends past a line that is not "8". */
  lemma NoExitExtends(inputs: seq<Request>, i: nat)
    requires i < |inputs| && inputs[i].choice != "8"
    requires forall k :: 0 <= k < i ==> inputs[k].choice != "8"
    ensures forall k :: 0 <= k < i + 1 ==> inputs[k].choice != "8"
  {
  }

  /** Running one more request is one more `Step`. */
  lemma ReplayNext(parsers: Parsers, categories: seq<string>, expenses: seq<Expense>, reqs: seq<Request>, i: nat)
    requires i < |reqs|
    ensures Replay(parsers, categories, expenses, reqs[..i + 1]) ==
            Step(parsers, categories, Replay(parsers, categories, expenses, reqs[..i]), reqs[i])
  {
    assert reqs[..i + 1][..i] == reqs[..i];
  }

  /** The pass that reads "8" leaves the expenses as they are. */
  lemma ReplayExit(parsers: Parsers, categories: seq<string>, expenses: seq<Expense>, reqs: seq<Request>, i: nat)
    requires i < |reqs| && reqs[i].choice == "8"
    ensures Replay(parsers, categories, expenses, reqs[..i + 1]) == Replay(parsers, categories, expenses, reqs[..i])
  {
    ReplayNext(parsers, categories, expenses, reqs, i);
    assert Dispatch(reqs[i].choice) == Exit;
  }
}
