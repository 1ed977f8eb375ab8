# Smart Expense Tracker: a verified model of its expense store

This project models the core of a single-file interactive expense tracker
(`expense_tracker/expense_tracker.py.py`). The script keeps one JSON document
in memory: a list of category names and a list of expense records. Its menu
handlers change or query that document:

- **add** (menu entry 1) checks the date, then the category, then the amount.
  It strips and capitalizes the category and capitalizes the description.
  It allocates the id `max(ids) + 1`, or 1 for an empty list, and appends the record.
- **remove** (entry 2) scans for the first record with the typed id and deletes it
  with `list.remove`.
- **filter by category** (entry 4) checks a 1-based menu choice, then scans the records
  of that category, keeping a running total and a `found` flag.
- **filter by date** (entry 5) does the same scan keyed on the date string,
  after a date-format check.
- **main** dispatches on the exact strings "1" to "8" and stops at "8".

The modules follow the script's structure:

- `Text` holds `str.strip()` and `str.capitalize()`.
- `Records` holds the expense record and the pure list functions the handlers
  are specified by: id allocation, lookup by id, `list.remove`, selection by a
  field, and the sum of amounts.
- `Tracker` holds the `Store` class. Its fields `categories` and `expenses` are
  the module-level `data` dictionary. Its methods are the handlers. Next to it are
  the pure definition of add (`Added`, `AfterAdd`) and its lemmas.
- `Menu` holds the dispatch and the main loop. `Step` and `Replay` specify it,
  and the loop is proved against them.

The library calls are parameters:

- `Parsers.validDate` says whether `datetime.strptime(text, "%Y-%m-%d")` succeeds.
- `Parsers.parseFloat` is the value `float(text)` returns, or None where it raises.
- `int(input(...))` results are `Option<int>` values.
- The console input stream is the sequence of `Request`s that `RunMenu` consumes,
  one per pass of the loop.

Three behaviours of the code are worth knowing:

- Ids are allocated from the current maximum, so allocation is not monotonic.
  After the record with the largest id is deleted, the next id is no larger than
  the deleted one (`Records.RemovingMaxIdFreesIt`). When the list also holds the id
  just below it, the next add hands the deleted id out again
  (`Records.RemovingMaxIdReusesIt`).
- A date is valid when `strptime(text, "%Y-%m-%d")` accepts it, and that includes
  `2024-1-5`. The model leaves date validity to the `validDate` parameter.
- The typed category is capitalized, but the stored names are compared exactly as
  they are. So a listed name that is not already in capitalized form, such as
  "Eating Out", can never be given to a new record (`Tracker.UnreachableCategory`).

## Model

| member | source | states |
|---|---|---|
| `Text.Capitalize` | expense_tracker/expense_tracker.py.py:55 | the result has the input's length, is in capitalized form (first character not lower case, the rest not upper case) and equals the input ignoring case |
| `Text.CapitalizeUnique` | expense_tracker/expense_tracker.py.py:55 | the only capitalized text equal to `s` ignoring case is `Capitalize(s)`: an independent characterisation of `capitalize` |
| `Text.CapitalizeIdempotent` | expense_tracker/expense_tracker.py.py:98 | capitalizing an already capitalized description or category changes nothing |
| `Text.CapitalizeCaseless` | expense_tracker/expense_tracker.py.py:55 | two texts capitalize to the same text exactly when they agree ignoring case (both directions) |
| `Text.CapitalizeAt` | expense_tracker/expense_tracker.py.py:98 | position 0 of the capitalized text is the upper-case form of the input's first character, and every later position is the lower-case form |
| `Text.LStrip` | expense_tracker/expense_tracker.py.py:55 | the result is a suffix of the input, everything dropped is whitespace, and the result does not start with whitespace |
| `Text.RStrip` | expense_tracker/expense_tracker.py.py:55 | the result is a prefix of the input, everything dropped is whitespace, and the result does not end with whitespace |
| `Text.Strip` | expense_tracker/expense_tracker.py.py:55 | the stripped category has whitespace at neither end; `StripIsMiddle` says which text it is |
| `Text.StripIsMiddle` | expense_tracker/expense_tracker.py.py:55 | the stripped text is a slice `s[i..j]` of the input, everything before `i` and from `j` on is whitespace, and (by `Strip`'s contract) the slice has whitespace at neither end: exactly the input without its surrounding whitespace |
| `Text.StripNoop` | expense_tracker/expense_tracker.py.py:55 | stripping text with no surrounding whitespace returns it unchanged |
| `Text.CapitalizeKeepsStripped` | expense_tracker/expense_tracker.py.py:55 | capitalizing stripped text leaves it without surrounding whitespace |
| `Records.MaxId` | expense_tracker/expense_tracker.py.py:89 | `max` over the ids of a non-empty list is one of the ids and no id exceeds it |
| `Records.NextIdOf` | expense_tracker/expense_tracker.py.py:88-91 | the new id is above every existing id; it is 1 for an empty list and otherwise one more than an existing id |
| `Records.AppendFreshKeepsUnique` | expense_tracker/expense_tracker.py.py:88-102 | appending a record with the allocated id keeps the ids unique |
| `Records.RemovingMaxIdFreesIt` | expense_tracker/expense_tracker.py.py:88-91 | with positive unique ids, after the largest id is removed the next allocated id is no larger than that id, so allocation is not monotonic |
| `Records.RemovingMaxIdReusesIt` | expense_tracker/expense_tracker.py.py:88-91 | with unique ids, when the list holds the id just below the largest, removing the largest makes the next allocated id exactly the removed one: the id is reused |
| `Records.FirstWithId` | expense_tracker/expense_tracker.py.py:125-126 | the scan finds the first record with the id (no earlier one has it), or reports none exactly when no record has it |
| `Records.RemovedId` | expense_tracker/expense_tracker.py.py:125-131 | the effect of the remove handler: the list is unchanged when no record has the id, otherwise it is one record shorter and holds only records it held before |
| `Records.RemovedIdSpec` | expense_tracker/expense_tracker.py.py:125-140 | with the id present exactly one record goes (the list shrinks by one and loses that first matching record); with it absent the list is unchanged |
| `Records.RemovedIdKeepsUnique` | expense_tracker/expense_tracker.py.py:125-131 | on a list with unique ids, removal leaves no record with that id and keeps the ids unique |
| `Records.RemoveFirst` | expense_tracker/expense_tracker.py.py:131 | `list.remove` of a present element shortens the list by one |
| `Records.RemoveFirstAt` | expense_tracker/expense_tracker.py.py:125-131 | `list.remove(s[i])` deletes exactly position `i` when no earlier element equals `s[i]`, which holds at the point where the scan stops |
| `Records.Where` | expense_tracker/expense_tracker.py.py:185-186 | every selected record matches the key and is a record of the list |
| `Records.Positions` | expense_tracker/expense_tracker.py.py:185-186 | the matching positions are in range, strictly increasing, and include every position whose record matches |
| `Records.WhereSelects` | expense_tracker/expense_tracker.py.py:185-192 | the filter's j-th record is the record at the j-th matching position: an order-preserving selection of exactly the matches |
| `Records.WhereEmpty` | expense_tracker/expense_tracker.py.py:194-198 | the filter is empty exactly when no record matches |
| `Records.Sum` | expense_tracker/expense_tracker.py.py:191 | the running `total += amount` of the filter loops; the total of no records is 0 (`Tracker.Store.Scan` ties the loop's total to it) |
| `Tracker.NormalizeCategory` | expense_tracker/expense_tracker.py.py:55 | the normalized category is capitalized, has no surrounding whitespace, and equals the stripped input ignoring case |
| `Tracker.NormalizeIdempotent` | expense_tracker/expense_tracker.py.py:55 | a category already in normalized form, as every record the add handler creates has, normalizes to itself |
| `Tracker.Added` | expense_tracker/expense_tracker.py.py:75-100 | the add handler's decision: on success the new record's id is `NextIdOf` the list, above every existing id |
| `Tracker.AfterAdd` | expense_tracker/expense_tracker.py.py:75-102 | the add handler's effect: the list is unchanged, or it is the old list with one record appended at the end |
| `Tracker.AddedChecksInOrder` | expense_tracker/expense_tracker.py.py:75-85 | the error is the first failing check in the order date, category, amount (each as an if-and-only-if), and the list is unchanged exactly when the add fails |
| `Tracker.AddedFreshId` | expense_tracker/expense_tracker.py.py:88-91 | a successful add's id is above every existing id, 1 on an empty list and otherwise max plus one; unique ids stay unique |
| `Tracker.AddedRecord` | expense_tracker/expense_tracker.py.py:94-100 | the appended record holds the typed valid date, a listed category in normalized (capitalized) form, the capitalized description and the parsed amount |
| `Tracker.UnreachableCategory` | expense_tracker/expense_tracker.py.py:79 | a listed category not already in capitalized form is never given to a new record |
| `Tracker.Store.constructor` | expense_tracker/expense_tracker.py.py:11-13 | the store holds the loaded categories and expenses |
| `Tracker.Store.NextId` | expense_tracker/expense_tracker.py.py:88-91 | the scanned id is above every existing id and equals `NextIdOf` of the list |
| `Tracker.Store.Add` | expense_tracker/expense_tracker.py.py:49-102 | the outcome is `Added` of the old list and the new list is the old one plus the new record, or unchanged on any error |
| `Tracker.Store.Remove` | expense_tracker/expense_tracker.py.py:114-140 | a malformed id changes nothing; otherwise the list becomes `RemovedId` of the old list and the outcome is the deleted first match or not-found |
| `Tracker.Store.Scan` | expense_tracker/expense_tracker.py.py:182-192 | the loop's matches are `Where` of the list, its total is their sum, and `found` holds exactly when some record matches |
| `Tracker.Store.FilterByCategory` | expense_tracker/expense_tracker.py.py:168-198 | a malformed choice, the choice one past the list (return) and a choice outside 1..n (rejected) are told apart exactly; otherwise the listing is of `categories[choice-1]`, with the matching records in order, their total, and `found` iff any matched |
| `Tracker.Store.FilterByDate` | expense_tracker/expense_tracker.py.py:204-229 | an invalid date is rejected exactly when `strptime` fails; otherwise the records of that date in order, their total, and `found` iff any matched |
| `Menu.Dispatch` | expense_tracker/expense_tracker.py.py:277-295 | a handler is chosen exactly for the strings "1" to "8", and the loop exit exactly for "8" |
| `Menu.Step` | expense_tracker/expense_tracker.py.py:277-295 | one pass of the loop for one typed line: the list grows by at most one record |
| `Menu.Replay` | expense_tracker/expense_tracker.py.py:261-295 | a run of passes grows the list by at most one record per pass, and leaves it unchanged when no line was "1" or "2" |
| `Menu.OnlyAddAndRemoveChange` | expense_tracker/expense_tracker.py.py:277-295 | a pass changes the expenses only when the line read was "1" or "2"; every other line, invalid ones included, leaves them as they are |
| `Menu.ReplayKeepsIdsUnique` | expense_tracker/expense_tracker.py.py:261-295 | any sequence of passes keeps the ids unique |
| `Menu.RunOnce` | expense_tracker/expense_tracker.py.py:277-295 | one pass with a line other than "8" runs the chosen handler and leaves the expenses as `Step` says |
| `Menu.RunMenu` | expense_tracker/expense_tracker.py.py:260-295 | the loop stops right after the first "8" (or when the input ends); it reports whether "8" was read; the expenses are `Replay` of the passes it ran |

## Left out

- Reading and writing `expenses.json` are not modelled. This covers the load at start-up, the missing-file exit and the rewrite after each add and remove. It is file I/O, and its round trip is a property of the JSON library. The store is built from already loaded lists.
- The loading animations with their `time.sleep` pauses are not modelled. They are cosmetic and have no effect on the data.
- Printed messages are not modelled. Neither are "view all expenses" (3), "view all categories" (6) and "about" (7), which only print. The metadata object is read only by "about", so it is not part of the store. Records the filters print are returned as `matches`.
- `Parsers`: the exact behaviour of `datetime.strptime` and `float()` is library behaviour, so both are parameters. The model assumes each gives the same answer for the same text. `float()` results that are not finite ("nan", "inf", "1e400") have no `real` counterpart and are not modelled.
- `Records.Sum`: its own contract fixes only the empty total; the value is the exact-real sum its body defines, which `Tracker.Store.Scan` proves the loop computes.
- `Tracker.Store.Scan`: the total is the exact sum of `real` amounts. Python adds floating-point numbers with rounding, starting from the integer 0.
- `Text.Capitalize`: only ASCII letters change case. Python's `capitalize` also maps non-ASCII letters and title-cases the first character.
- `Text.Strip`: only whitespace in the Latin-1 range is stripped. Python's `strip` also strips the other Unicode space characters.
- `Menu.RunMenu`: when the requests run out, the loop just stops. In Python, `input()` raises `EOFError` at the end of input and the script crashes.
- The model assumes a well-formed document: integer ids and records with all five keys. The script does not check this, so a malformed document makes it fail with `KeyError` or `TypeError`.
