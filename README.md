# Personal wallet ledger — a Dafny model

A model of the core of a single-user personal finance ledger. The original is a
Python program with a text menu. The model covers two things:

- **Entry validation** (`Entry` and its `check_*` methods). Four raw fields
  (date, category, amount, description) become a record, or the first failing
  check reports an error. The checks run in the order date, category, amount.
  On success the category is title-cased to `Доход` (income) or `Расход`
  (expense), and the amount becomes an integer of at least 1.
- **The ledger** (`Book`). It is an ordered list of stored records addressed by
  1-based position, with `add`, `edit`, `delete`, `get_all`, `get_one`,
  `balance` and `filter`, plus the range check of `validate_number`.

Modules, one per component:

| file | module | models |
|---|---|---|
| wrappers.dfy | `Wrappers` | `Option` / `Result`, standing for `None` returns and raised exceptions |
| numbers.dfy | `Numbers` | `int(text)` on an optionally signed decimal string, `str(n)` |
| dates.dfy | `Dates` | `datetime.strptime(text, "%Y-%m-%d")` succeeding |
| casing.dfy | `Casing` | `str.lower()` and one-word `str.title()` |
| entry.dfy | `Entries` | `Entry`: `check_date`, `check_category`, `check_amount`, `check_args` |
| book.dfy | `Ledger` | `Book` (a class over a `seq` of records), `validate_number` |
| scenarios.dfy | `Scenarios` | the five-record fixture and the add/get and delete/list sequences |

Entry construction is a function, `CheckArgs`, returning `Result<Entry, Error>`.
It has one error kind per check: `InvalidDate`, `InvalidCategory`,
`InvalidAmount` and `AmountTooSmall`. These follow the code's four `ValueError`
messages (main.py:54, 59, 67, 69), checked in the same order and on the same
conditions. The Python code assigns the normalised
fields during construction, but a failed construction leaves no object behind.
So the all-or-nothing function is the observable behaviour.

The `Book` class owns `entries: seq<Entry>`, a record with the four fields in
the shape of `Entry.__dict__`. `Add`, `Edit` and `Delete` reassign that
sequence. Their `ensures` give the whole new state, and each keeps the class
invariant `Valid()`: every stored record is one the constructor could have
built. `get_all` and `get_one` run the constructor again on stored records
(`Entry(**record)`), and that can raise for data loaded from a file. The model
keeps this: `GetAll` and `GetOne` return a `Result`. `ListingOfValid` proves
that under `Valid()` they succeed and return the records unchanged.

Date check. `strptime` reads `%Y-%m-%d` with the regular-expression
alternatives of Python's `_strptime` module:
- a year of four digits;
- a month written `1[0-2]`, `0[1-9]` or `[1-9]`;
- a day written `3[01]`, `[12]\d`, `0[1-9]`, `[1-9]` or a space followed by `[1-9]`.

Each field takes the first alternative that matches. Trailing text is refused,
and then the date must exist in the Gregorian calendar, with a year of at
least 1. `ParseFormatDate` and `FormatParseDate` tie this to the canonical
`YYYY-MM-DD` text.

Where the program's own text promises more than its code does, or two of its parts disagree, the model follows the code:
- the date prompt (main.py:169) and the date error message (main.py:54) ask for
  `YYYY-MM-DD`, yet `strptime` also accepts `2024-5-1` and `2024-05- 1`
  (`ShortFormsAccepted`);
- the category prompt (main.py:170) offers only `Доход` and `Расход`, yet
  `balance` (main.py:119-122) counts every record whose category is not exactly
  `Доход` as an expense (`ExpenseOf`). `ExpenseIsFilteredSum` proves that this
  is the sum over `Расход` when every category is one of the two labels;
- `balance` (main.py:119) compares the category as stored, while `filter`
  (main.py:132) searches the records `get_all` rebuilds, whose category is
  title-cased (main.py:60, main.py:105). So a stored record with category
  `доход` counts as an expense, yet a search for `Доход` finds it
  (`LowerCaseIncomeSplits`). Over valid records the two agree
  (`BalanceMatchesFilter`).

## Model

| member | source | states |
|---|---|---|
| Dates.ValidDate | main.py:52 | text that strptime accepts is 8 to 10 characters long, has `-` at index 4 and starts with four digits |
| Dates.ParseDate | main.py:49-54 | text that `%Y-%m-%d` matches is 8 to 10 characters with `-` at index 4, and gives a month in 1..12 and a day in 1..31 |
| Dates.ParseFormatDate | main.py:49-54 | every real date with a year up to 9999, written `YYYY-MM-DD`, passes the date check and reads back as the same date |
| Dates.FormatParseDate | main.py:49-54 | accepted text of ten characters without a space is exactly the canonical `YYYY-MM-DD` text of the date it denotes |
| Dates.ShortFormsAccepted | main.py:52 | one-digit months and days, and a day after a space, are accepted |
| Dates.LeapDayChecked | main.py:52 | February 29th passes in a leap year and fails otherwise |
| Dates.YearZeroRefused | main.py:52 | year 0000 fails |
| Dates.MalformedRefused | main.py:52-54 | month 13, day 32, trailing text and day-first order all fail |
| Entries.CheckDate | main.py:49-54 | no error exactly when the date is valid; otherwise the error is `InvalidDate` |
| Entries.CheckCategory | main.py:56-60 | succeeds iff the lower-cased text is `доход` or `расход`; the result is exactly `Доход` or `Расход`, has the same lower-cased form as the input, and is `Доход` iff the input lower-cases to `доход`; failure is `InvalidCategory` |
| Entries.TitleOfLabel | main.py:60 | title-casing text whose lower-cased form is a label gives that label with a capital first letter |
| Casing.Lower | main.py:58 | `.lower()` keeps the length and lower-cases each character |
| Casing.TitleWord | main.py:60 | `.title()` of one word keeps the length, upper-cases the first character and lower-cases the rest |
| Casing.LowerOfTitle | main.py:60 | title-casing keeps the lower-cased form of a word |
| Entries.CheckAmount | main.py:62-69 | an integer amount passes iff it is at least 1; text that is not a number fails with `InvalidAmount`; a number below 1 fails with `AmountTooSmall`; a success is at least 1 |
| Entries.CheckArgs | main.py:71-74 | date first, category second, amount third: a bad date is reported whatever the other fields are; success iff all three checks pass; a success keeps the date and description, has a valid category and amount, and keeps the category's lower-cased form |
| Entries.RevalidateValid | main.py:112 | rebuilding an entry from a valid stored record returns that record unchanged |
| Entries.CheckArgsIdempotent | main.py:34-39 | what the constructor builds passes the constructor again unchanged |
| Entries.AcceptsAnyCase | main.py:56-60 | lower-case `доход` becomes `Доход`; upper-case `РАСХОД` with the amount typed as text becomes `Расход` with that integer |
| Entries.BadAmountAlwaysFails | main.py:62-69 | an amount below 1, or text that is not a number, never yields an entry, whatever the other fields |
| Numbers.ParseShowInt | main.py:65 | the modelled `int` reads back the modelled `str` of every integer: `ParseInt(ShowInt(n)) == Some(n)` |
| Numbers.ParseInt | main.py:65 | `int(text)` succeeds iff the text is an optional sign followed by at least one digit; a negative result comes only from a leading `-`, and text without `-` gives a value ≥ 0 |
| Numbers.NotANumber | main.py:64-67 | text holding a character that is neither a digit nor a leading sign is not a number |
| Ledger.Book.constructor | main.py:80-81 | the ledger holds exactly the records it is given |
| Ledger.Book.Length | main.py:83-84 | the number of stored records |
| Ledger.Book.Add | main.py:86-88 | length grows by one, the new last record is the entry, all earlier records are unchanged, the invariant is kept |
| Ledger.Book.Edit | main.py:90-93 | for 1 ≤ number ≤ length, only record number−1 is replaced by the entry; length and all other records unchanged; invariant kept |
| Ledger.Book.Delete | main.py:95-98 | for 1 ≤ number ≤ length, length drops by one, earlier records unchanged, later records move down one place; invariant kept |
| Ledger.Book.GetAll | main.py:100-108 | the result is the listing of the stored records (first rebuild failure raised), and under the invariant it is every record paired with positions 1..N in order |
| Ledger.Book.GetOne | main.py:110-112 | a success is a valid entry with the stored date; under the invariant it is exactly the stored record at number−1 |
| Ledger.Book.Balance | main.py:114-123 | profit is the income sum, expenses the sum of all other amounts, net = profit − expenses |
| Ledger.Book.Filter | main.py:130-136 | fails iff listing fails; the result is the selection from the listing, a subsequence of the listing holding exactly its pairs whose field equals the value, with increasing positions; under the invariant it succeeds and holds exactly the (position, record) pairs of stored records that match |
| Ledger.Rebuild | main.py:105 | `Entry(**record)` on a stored record: a success is a valid entry with the record's date and description, and a valid record comes back unchanged |
| Ledger.RebuildAll | main.py:104-106 | rebuilding the records one by one, in order, gives one entry per record when it succeeds |
| Ledger.Listing | main.py:100-108 | `get_all` fails exactly when some record does not rebuild; otherwise it gives, for each record i, the pair (i+1, rebuilt record i) |
| Ledger.RebuildAllSuccess | main.py:104-106 | rebuilding all records succeeds iff each one rebuilds, and then yields them in order |
| Ledger.NumberedRebuildAll | main.py:100-108 | rebuilding succeeds iff every record rebuilds, and then the numbered result pairs record i's rebuilt entry with position i+1 |
| Ledger.RebuildAllFailure | main.py:104-106 | when rebuilding fails, the error is that of the first record that does not rebuild |
| Ledger.RebuildAllPrefixFailure | main.py:104-106 | a failure in a prefix of the records is the failure of the whole listing |
| Ledger.ListingOfValid | main.py:100-108 | valid records are rebuilt unchanged, so listing them gives them numbered 1..N |
| Ledger.Numbered | main.py:102-107 | the i-th listed pair is (i+1, i-th record), one pair per record |
| Ledger.Matches | main.py:134 | an entry matches a field query exactly when the query is its own date, its own category or its own amount |
| Ledger.Select | main.py:133-135 | the comprehension keeps at most as many pairs as it is given |
| Ledger.SelectMembers | main.py:133-135 | a pair is kept iff it is in the listing and its field equals the value |
| Ledger.SelectSubsequence | main.py:133-135 | the kept pairs are a subsequence of the listing |
| Ledger.SelectIncreasing | main.py:133-135 | kept pairs of a listing with increasing positions have increasing positions |
| Ledger.GetOneIsListed | main.py:110-112 | when every stored record rebuilds (so `get_all` succeeds), `get_one(n)` is the entry `get_all` lists at position n |
| Ledger.FilterOfValid | main.py:130-136 | over valid records listing succeeds, and the search over it keeps exactly the (position, record) pairs of stored records that match |
| Ledger.FilterIncreasing | main.py:130-136 | whenever listing succeeds, the pairs the search keeps have increasing positions |
| Ledger.IncomeOf | main.py:116-122 | the income accumulator is ≥ 0 when no amount is negative, and 0 when no category is exactly `Доход` |
| Ledger.ExpenseOf | main.py:116-122 | the expense accumulator is ≥ 0 when no amount is negative, and 0 when every category is exactly `Доход` |
| Ledger.IncomeIsFilteredSum | main.py:118-122 | income is the sum of the amounts of the stored records, numbered 1..N, whose category is exactly `Доход` |
| Ledger.ExpenseIsFilteredSum | main.py:118-122 | when every stored category is a label, expenses are the sum of the amounts of the stored records whose category is `Расход` |
| Ledger.BalanceMatchesFilter | main.py:116-135 | over valid records listing succeeds, and income and expenses are the sums of the amounts `filter` finds for `Доход` and for `Расход` |
| Ledger.BalanceSplitsTotal | main.py:116-123 | income plus expenses is the sum of all amounts; over valid records neither is negative |
| Ledger.ValidateNumber | main.py:139-151 | a position is accepted iff it reads as an integer in 1..len(book), and is then that integer |
| Ledger.ValidateNumberAcceptsPositions | main.py:143-151 | every existing position, typed in decimal, is accepted as itself |
| Scenarios.FiveRecordsListed | tests/test_main.py:83-89 | the five fixture records are valid, so `get_all` rebuilds them unchanged and numbers them 1..5 |
| Scenarios.SearchFiveRecords | tests/test_main.py:83-107 | `Book.Filter` on a book holding the five fixture records finds positions [3, 5] by date, [2, 3, 4, 5] by category `Расход` and [3, 4] by amount 20000 |
| Scenarios.FiveRecordsByDate | tests/test_main.py:83-89 | searching the listing of the five fixture records for date `2024-05-01` finds positions [3, 5] |
| Scenarios.FiveRecordsByCategory | tests/test_main.py:92-98 | searching that listing for category `Расход` finds positions [2, 3, 4, 5] |
| Scenarios.FiveRecordsByAmount | tests/test_main.py:101-107 | searching that listing for amount 20000 finds positions [3, 4] |
| Scenarios.FiveRecordsBalance | tests/test_main.py:51-60 | the five records give income 100000 and expenses 100000 |
| Scenarios.EmptyLedger | tests/test_main.py:4-19 | an empty ledger lists nothing and gives 0 income and 0 expenses |
| Scenarios.AddThenGetOne | tests/test_main.py:22-33 | after adding a valid entry to any ledger, the record at the last position is that entry; a valid ledger stays valid |
| Scenarios.LowerCaseIncomeSplits | main.py:116-135 | a stored record with category `доход` gives income 0 and expenses 5 in `balance`, yet `filter` finds it, title-cased, under `Доход` |
| Scenarios.DeleteThenGetAll | main.py:95-108 | after deleting from a valid ledger, listing succeeds with one record fewer, numbered 1..N−1 |

## Left out

- `DataBase` (`open_json`, `create_json`, `save_json`): file input and output, with JSON encoding done by the `json` library. The ledger is built from a given sequence of records.
- The interactive shell (`input_number`, `input_data`, `confirmation`, the module-level `filter` prompt, `select_entry_for_action`, `menu`, `main`): console input and output. The messages `validate_number` prints are left out too.
- `Entry.__str__` and the text `balance` formats: display only. `Balance` returns the three integers.
- Ledger.ValidateNumber: `int(number)` is modelled on an optional sign and ASCII digits only, so typed positions such as ` 2` or `1_0`, which Python accepts, are refused. It takes a string. The shell's `None` (the "back to menu" answer) is treated like the empty string, which gives the same result.
- Entries.CheckAmount: `int()` is modelled on an optional sign and ASCII digits only. Surrounding whitespace, `_` separators, non-ASCII digits, the truncation of a float and `bool` values are not modelled. Nor is the limit of recent Python versions, whose `int()` raises for text of more than 4300 digits: the model accepts such an amount.
- Dates.ParseDate: `\d` is ASCII digits only, while Python's regular expressions also accept other Unicode decimal digits.
- Entries.CheckCategory: case mapping covers ASCII and the Cyrillic block U+0400–U+045F, and `title()` is modelled for one word. Category names other than the two labels only ever fail, so this does not change which inputs are accepted apart from exotic Unicode case pairs.
- A date or category that is not a string, and a stored amount that is not an integer: the fields are typed strings, and a stored amount is an `int`.
- Ledger.Book.Edit, Ledger.Book.Delete, Ledger.Book.GetOne: require 1 ≤ number ≤ length. Python's negative indexing for number ≤ 0 is left out, because callers pass only numbers that `validate_number` accepted.
- Ledger.Book.constructor: Python's `Book(entries)` shares the list it is given with the caller. The model holds a value, so aliasing between the loaded data and the ledger is not captured.
- Ledger.Book.Filter: searching the amount field with a text value always finds nothing in Python. The `Field` datatype pairs each field with a value of its own type, so that case cannot be written.
