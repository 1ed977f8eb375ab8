/**
 * The expense record and the pure functions over a list of records that the
 * handlers are specified by: id allocation, lookup by id, Python's
 * `list.remove`, selection by a field and the sum of amounts.
 */
module Records {
  import opened Wrappers

  /** One expense as stored under "expenses"; `amount` is the finite value `float()` produced. */
  datatype Expense = Expense(id: int, date: string, category: string, description: string, amount: real)

  /** No two records share an id. */
  predicate UniqueIds(s: seq<Expense>) {
    forall i, j :: 0 <= i < j < |s| ==> s[i].id != s[j].id
  }

  /** Python's `max(exp["id"] for exp in s)`, a left fold over the list. */
  function MaxId(s: seq<Expense>): (m: int)
    requires s != []
    ensures exists k :: 0 <= k < |s| && s[k].id == m
    ensures forall k :: 0 <= k < |s| ==> s[k].id <= m
  {
    if |s| == 1 then s[0].id
    else
      var m := MaxId(s[..|s| - 1]);
      if s[|s| - 1].id > m then s[|s| - 1].id else m
  }

  /** The id the add handler allocates: one more than the largest, or 1 for an empty list. */
  function NextIdOf(s: seq<Expense>): (r: int)
    ensures forall k :: 0 <= k < |s| ==> s[k].id < r
    ensures s == [] ==> r == 1
    ensures s != [] ==> exists k :: 0 <= k < |s| && s[k].id == r - 1
  {
    if s == [] then 1 else MaxId(s) + 1
  }

  /** Appending a record carrying the allocated id keeps the ids unique. */
  lemma AppendFreshKeepsUnique(s: seq<Expense>, e: Expense)
    requires UniqueIds(s) && e.id == NextIdOf(s)
    ensures UniqueIds(s + [e])
  {
    var t := s + [e];
    forall i, j | 0 <= i < j < |t|
      ensures t[i].id != t[j].id
    {
      if j == |s| {
        assert t[i] == s[i];
      } else {
        assert t[i] == s[i] && t[j] == s[j];
      }
    }
  }

  /** Index of the first record with the given id, if any. */
  function FirstWithId(s: seq<Expense>, id: int): (r: Option<nat>)
    ensures r.Some? ==> r.value < |s| && s[r.value].id == id
    ensures r.Some? ==> forall k :: 0 <= k < r.value ==> s[k].id != id
    ensures r.None? <==> forall k :: 0 <= k < |s| ==> s[k].id != id
  {
    if s == [] then None
    else if s[0].id == id then Some(0)
    else match FirstWithId(s[1..], id)
      case None => None
      case Some(k) => Some(k + 1)
  }

  /** The list after removing the first record with the given id; unchanged if there is none. */
  function RemovedId(s: seq<Expense>, id: int): (r: seq<Expense>)
    ensures FirstWithId(s, id).None? ==> r == s
    ensures FirstWithId(s, id).Some? ==> |r| == |s| - 1
    ensures multiset(r) <= multiset(s)
  {
    match FirstWithId(s, id)
    case None => s
    case Some(k) =>
      assert s == s[..k] + [s[k]] + s[k + 1..];
      s[..k] + s[k + 1..]
  }

  /**
   * What removal by id does: with the id present, exactly one record, the
   * first with that id, goes and the rest keep their order; otherwise the
   * list is unchanged.
   */
  lemma {:induction false} RemovedIdSpec(s: seq<Expense>, id: int)
    ensures (exists k :: 0 <= k < |s| && s[k].id == id) ==>
              |RemovedId(s, id)| == |s| - 1 &&
              multiset(RemovedId(s, id)) + multiset{s[FirstWithId(s, id).value]} == multiset(s)
    ensures (forall k :: 0 <= k < |s| ==> s[k].id != id) ==> RemovedId(s, id) == s
  {
    match FirstWithId(s, id)
    case None =>
    case Some(k) =>
      assert s == s[..k] + [s[k]] + s[k + 1..];
      assert multiset(s) == multiset(s[..k]) + multiset{s[k]} + multiset(s[k + 1..]);
  }

  /** Position in the list of the record at position `i` of the list without position `k`. */
  function Skip(i: nat, k: nat): nat {
    if i < k then i else i + 1
  }

  /** Deleting position `k` keeps every other record, in order. */
  lemma DeleteAt(s: seq<Expense>, k: nat)
    requires k < |s|
    ensures |s[..k] + s[k + 1..]| == |s| - 1
    ensures forall i :: 0 <= i < |s| - 1 ==> Skip(i, k) < |s| && (s[..k] + s[k + 1..])[i] == s[Skip(i, k)]
  {
  }

  /** With unique ids, removal leaves no record with that id and keeps the others unique. */
  lemma RemovedIdKeepsUnique(s: seq<Expense>, id: int)
    requires UniqueIds(s)
    ensures UniqueIds(RemovedId(s, id))
    ensures forall k :: 0 <= k < |RemovedId(s, id)| ==> RemovedId(s, id)[k].id != id
  {
    match FirstWithId(s, id)
    case None =>
    case Some(k) =>
      DeleteAt(s, k);
      var t := s[..k] + s[k + 1..];
      forall i, j | 0 <= i < j < |t|
        ensures t[i].id != t[j].id
      {
        assert Skip(i, k) < Skip(j, k);
      }
      forall i | 0 <= i < |t|
        ensures t[i].id != id
      {
        assert Skip(i, k) != k;
      }
  }

  /**
   * Ids are allocated from the current maximum, not from a history: after the
   * record with the largest id is removed, the next id allocated is no larger
   * than that id (for positive ids), so allocation is not monotonic.
   */
  lemma RemovingMaxIdFreesIt(s: seq<Expense>)
    requires s != [] && UniqueIds(s)
    requires forall k :: 0 <= k < |s| ==> s[k].id >= 1
    ensures NextIdOf(RemovedId(s, MaxId(s))) <= MaxId(s)
  {
    var m := MaxId(s);
    var k := FirstWithId(s, m).value;
    var t := s[..k] + s[k + 1..];
    assert RemovedId(s, m) == t;
    BelowAfterDelete(s, m, k, t);
    assert s[0].id <= m;
    NextIdAtMost(t, m);
  }

  /**
   * When the list also holds the id just below the maximum, removing the
   * maximum makes the next add hand out the removed id again.
   */
  lemma RemovingMaxIdReusesIt(s: seq<Expense>, p: nat)
    requires s != [] && UniqueIds(s)
    requires p < |s| && s[p].id == MaxId(s) - 1
    ensures NextIdOf(RemovedId(s, MaxId(s))) == MaxId(s)
  {
    var m := MaxId(s);
    var k := FirstWithId(s, m).value;
    var t := s[..k] + s[k + 1..];
    assert RemovedId(s, m) == t;
    BelowAfterDelete(s, m, k, t);
    var q := KeptAt(s, k, p);
    NextIdAbove(t, m, q);
  }

  /** Deleting the only record with the maximum id leaves every id below it. */
  lemma BelowAfterDelete(s: seq<Expense>, m: int, k: nat, t: seq<Expense>)
    requires UniqueIds(s) && k < |s| && s[k].id == m && t == s[..k] + s[k + 1..]
    requires forall i :: 0 <= i < |s| ==> s[i].id <= m
    ensures forall i :: 0 <= i < |t| ==> t[i].id < m
  {
    DeleteAt(s, k);
    forall i | 0 <= i < |t|
      ensures t[i].id < m
    {
      assert Skip(i, k) != k;
    }
  }

  /** A record at a position other than the deleted one is still in the list, at position `q`. */
  lemma KeptAt(s: seq<Expense>, k: nat, p: nat) returns (q: nat)
    requires k < |s| && p < |s| && p != k
    ensures q < |s| - 1 && (s[..k] + s[k + 1..])[q] == s[p]
  {
    q := if p < k then p else p - 1;
    DeleteAt(s, k);
    assert Skip(q, k) == p;
  }

  /** A list whose ids are all below `m` and that holds `m - 1` allocates exactly `m`. */
  lemma NextIdAbove(t: seq<Expense>, m: int, q: nat)
    requires q < |t| && t[q].id == m - 1
    requires forall i :: 0 <= i < |t| ==> t[i].id < m
    ensures NextIdOf(t) == m
  {
    assert t[q].id <= MaxId(t);
    var j :| 0 <= j < |t| && t[j].id == MaxId(t);
  }

  /** A list whose ids are all below a positive bound allocates an id no larger than the bound. */
  lemma NextIdAtMost(t: seq<Expense>, m: int)
    requires m >= 1
    requires forall i :: 0 <= i < |t| ==> t[i].id < m
    ensures NextIdOf(t) <= m
  {
    if t != [] {
      var j :| 0 <= j < |t| && t[j].id == NextIdOf(t) - 1;
    }
  }

  /**
   * Python's `list.remove(x)`: drops the first element equal to `x`.
   * The handler only calls it with an element of the list.
   */
  function RemoveFirst(s: seq<Expense>, x: Expense): (r: seq<Expense>)
    requires x in s
    ensures |r| == |s| - 1
  {
    if s[0] == x then s[1..] else [s[0]] + RemoveFirst(s[1..], x)
  }

  /**
   * `list.remove(s[i])` deletes position `i` when no earlier element equals
   * `s[i]`, the situation of the remove handler's scan.
   */
  lemma {:induction false} RemoveFirstAt(s: seq<Expense>, i: nat)
    requires i < |s|
    requires forall k :: 0 <= k < i ==> s[k] != s[i]
    ensures RemoveFirst(s, s[i]) == s[..i] + s[i + 1..]
  {
    if i == 0 {
      assert s[..0] + s[1..] == s[1..];
    } else {
      var t := s[1..];
      assert s[0] != s[i] && t[i - 1] == s[i];
      forall k | 0 <= k < i - 1
        ensures t[k] != t[i - 1]
      {
        assert t[k] == s[k + 1];
      }
      RemoveFirstAt(t, i - 1);
      assert RemoveFirst(s, s[i]) == [s[0]] + (t[..i - 1] + t[i..]);
      assert t[..i - 1] == s[1..i] && t[i..] == s[i + 1..];
      assert [s[0]] + s[1..i] == s[..i];
    }
  }

  /** The field a filter handler compares against: the category or the date string. */
  datatype Key = ByCategory(category: string) | ByDate(date: string)

  predicate Matches(e: Expense, key: Key) {
    match key
    case ByCategory(c) => e.category == c
    case ByDate(d) => e.date == d
  }

  /** The records that match the key, in list order. */
  function Where(s: seq<Expense>, key: Key): (r: seq<Expense>)
    ensures |r| <= |s|
    ensures forall j :: 0 <= j < |r| ==> Matches(r[j], key) && r[j] in s
  {
    if s == [] then []
    else Where(s[..|s| - 1], key) + (if Matches(s[|s| - 1], key) then [s[|s| - 1]] else [])
  }

  /** The positions of the matching records, in increasing order. */
  function Positions(s: seq<Expense>, key: Key): (ps: seq<nat>)
    ensures forall j :: 0 <= j < |ps| ==> ps[j] < |s| && Matches(s[ps[j]], key)
    ensures forall j1, j2 :: 0 <= j1 < j2 < |ps| ==> ps[j1] < ps[j2]
    ensures forall i :: 0 <= i < |s| && Matches(s[i], key) ==> i in ps
  {
    if s == [] then []
    else Positions(s[..|s| - 1], key) + (if Matches(s[|s| - 1], key) then [|s| - 1] else [])
  }

  /**
   * The filter is an order-preserving selection: its j-th record is the
   * record at the j-th matching position of the list.
   */
  lemma {:induction false} WhereSelects(s: seq<Expense>, key: Key)
    ensures |Where(s, key)| == |Positions(s, key)|
    ensures forall j :: 0 <= j < |Where(s, key)| ==> Where(s, key)[j] == s[Positions(s, key)[j]]
  {
    if s != [] {
      var init, last := s[..|s| - 1], s[|s| - 1];
      WhereSelects(init, key);
      var w0, p0 := Where(init, key), Positions(init, key);
      var w, p := Where(s, key), Positions(s, key);
      var extra := if Matches(last, key) then [last] else [];
      assert w == w0 + extra;
      assert p == p0 + (if Matches(last, key) then [|s| - 1] else []);
      forall j | 0 <= j < |w|
        ensures w[j] == s[p[j]]
      {
        if j < |w0| {
          assert w[j] == w0[j] == init[p0[j]];
          assert p[j] == p0[j];
        }
      }
    }
  }

  /** The filter finds something exactly when some record matches. */
  lemma WhereEmpty(s: seq<Expense>, key: Key)
    ensures Where(s, key) == [] <==> forall i :: 0 <= i < |s| ==> !Matches(s[i], key)
  {
    WhereSelects(s, key);
    if exists i :: 0 <= i < |s| && Matches(s[i], key) {
      var i :| 0 <= i < |s| && Matches(s[i], key);
      assert i in Positions(s, key);
    }
  }

  /**
   * The sum of the amounts, added up in list order: the handlers' running
   * `total`, which stays 0 when nothing matched.
   */
  function Sum(s: seq<Expense>): (r: real)
    ensures s == [] ==> r == 0.0
  {
    if s == [] then 0.0 else Sum(s[..|s| - 1]) + s[|s| - 1].amount
  }
}
