/**
 * The scenarios of the repository's tests, stated over the model: the five-record
 * ledger of the fixtures, and the add/get and delete/list sequences.
 */
module Scenarios {
  import opened Wrappers
  import opened Dates
  import opened Entries
  import opened Ledger

  /** The five records the test fixture saves before each search and balance test. */
  function FiveRecords(): seq<Entry> {
    [ Entry("2024-01-01", Income, 100000, "Запись №1"),
      Entry("2024-01-01", Expense, 50000, "Запись №2"),
      Entry("2024-05-01", Expense, 20000, "Запись №3"),
      Entry("2024-01-01", Expense, 20000, "Запись №4"),
      Entry("2024-05-01", Expense, 10000, "Запись №5") ]
  }

  function Listed5(): seq<Listed> {
    [(1, FiveRecords()[0]), (2, FiveRecords()[1]), (3, FiveRecords()[2]), (4, FiveRecords()[3]), (5, FiveRecords()[4])]
  }

  lemma NumberedFive()
    ensures Numbered(FiveRecords()) == Listed5()
  {
  }

  function Kept(p: Listed, f: Field): seq<Listed> {
    if Matches(p.1, f) then [p] else []
  }

  /** Selecting from a listing of five, one pair at a time, front first. */
  lemma SelectUnfolded(all: seq<Listed>, f: Field)
    requires |all| == 5
    ensures Select(all, f) == Kept(all[0], f) + Kept(all[1], f) + Kept(all[2], f) + Kept(all[3], f) + Kept(all[4], f)
  {
    var a, b, c, d, e := [all[0]], [all[1]], [all[2]], [all[3]], [all[4]];
    assert all == a + b + c + d + e;
    SelectConcat(a + b + c + d, e, f);
    SelectConcat(a + b + c, d, f);
    SelectConcat(a + b, c, f);
    SelectConcat(a, b, f);
    SelectSingle(all[0], f);
    SelectSingle(all[1], f);
    SelectSingle(all[2], f);
    SelectSingle(all[3], f);
    SelectSingle(all[4], f);
  }

  lemma SelectSingle(p: Listed, f: Field)
    ensures Select([p], f) == Kept(p, f)
  {
    assert [p][1..] == [];
  }

  /** The five records are valid, so `get_all` rebuilds them unchanged and numbers them 1..5. */
  lemma FiveRecordsListed()
    ensures AllValid(FiveRecords())
    ensures Listing(FiveRecords()) == Success(Numbered(FiveRecords()))
  {
    assert ValidDate("2024-01-01");
    assert ValidDate("2024-05-01");
    ListingOfValid(FiveRecords());
  }

  /** `filter` on a book holding the five records, searched as the three search tests do. */
  method SearchFiveRecords() returns (byDate: seq<int>, byCategory: seq<int>, byAmount: seq<int>)
    ensures byDate == [3, 5] && byCategory == [2, 3, 4, 5] && byAmount == [3, 4]
  {
    var book := new Book(FiveRecords());
    FiveRecordsListed();
    FiveRecordsByDate();
    FiveRecordsByCategory();
    FiveRecordsByAmount();
    var found := book.Filter(Date("2024-05-01"));
    byDate := Positions(found.value);
    found := book.Filter(Category(Expense));
    byCategory := Positions(found.value);
    found := book.Filter(Amount(20000));
    byAmount := Positions(found.value);
  }

  /** Searching the five records by date finds positions 3 and 5. */
  lemma FiveRecordsByDate()
    ensures Listing(FiveRecords()).Success? && Positions(Select(Listing(FiveRecords()).value, Date("2024-05-01"))) == [3, 5]
  {
    FiveRecordsListed();
    NumberedFive();
    SelectUnfolded(Listed5(), Date("2024-05-01"));
  }

  /** Searching the five records by category `Расход` finds positions 2 to 5. */
  lemma FiveRecordsByCategory()
    ensures Listing(FiveRecords()).Success? && Positions(Select(Listing(FiveRecords()).value, Category(Expense))) == [2, 3, 4, 5]
  {
    FiveRecordsListed();
    NumberedFive();
    SelectUnfolded(Listed5(), Category(Expense));
  }

  /** Searching the five records by the amount 20000 finds positions 3 and 4. */
  lemma FiveRecordsByAmount()
    ensures Listing(FiveRecords()).Success? && Positions(Select(Listing(FiveRecords()).value, Amount(20000))) == [3, 4]
  {
    FiveRecordsListed();
    NumberedFive();
    SelectUnfolded(Listed5(), Amount(20000));
  }

  /** Income and expenses of the five records are both 100000, so the balance is 0. */
  lemma FiveRecordsBalance()
    ensures IncomeOf(FiveRecords()) == 100000 && ExpenseOf(FiveRecords()) == 100000
  {
    var s := FiveRecords();
    assert s[..4][..3] == s[..3] && s[..3][..2] == s[..2] && s[..2][..1] == s[..1] && s[..1][..0] == [];
    assert s[..5] == s;
    assert IncomeOf(s[..1]) == 100000 && ExpenseOf(s[..1]) == 0;
    assert IncomeOf(s[..2]) == 100000 && ExpenseOf(s[..2]) == 50000;
    assert IncomeOf(s[..3]) == 100000 && ExpenseOf(s[..3]) == 70000;
    assert IncomeOf(s[..4]) == 100000 && ExpenseOf(s[..4]) == 90000;
  }

  /** An empty ledger lists nothing and balances to zero. */
  lemma EmptyLedger()
    ensures Listing([]) == Success([])
    ensures IncomeOf([]) == 0 && ExpenseOf([]) == 0
  {
  }

  /**
   * A stored record in lower case: `balance` compares the raw category with `Доход`
   * and counts it as an expense, while `filter` searches the rebuilt, title-cased
   * record and finds it under `Доход`.
   */
  lemma LowerCaseIncomeSplits()
    ensures IncomeOf([Entry("2024-01-01", "доход", 5, "x")]) == 0
    ensures ExpenseOf([Entry("2024-01-01", "доход", 5, "x")]) == 5
    ensures Listing([Entry("2024-01-01", "доход", 5, "x")]) == Success([(1, Entry("2024-01-01", Income, 5, "x"))])
    ensures SumOf(Select(Listing([Entry("2024-01-01", "доход", 5, "x")]).value, Category(Income))) == 5
  {
    var e := Entry("2024-01-01", "доход", 5, "x");
    assert ValidDate("2024-01-01");
    TitleOfLabel("доход");
    assert Rebuild(e) == Success(Entry("2024-01-01", Income, 5, "x"));
    var s := [e];
    assert s[0] == e;
    assert Listing(s).Success?;
    assert Listing(s).value[0] == (1, Entry("2024-01-01", Income, 5, "x")) && |Listing(s).value| == 1;
    assert Listing(s).value == [(1, Entry("2024-01-01", Income, 5, "x"))];
    assert Select([(1, Entry("2024-01-01", Income, 5, "x"))], Category(Income)) == [(1, Entry("2024-01-01", Income, 5, "x"))];
  }

  /** After `add`, `get_one(len(book))` gives back the added entry, whatever else the ledger holds. */
  method AddThenGetOne(book: Book, entry: Entry) returns (r: Result<Entry, Error>)
    requires ValidEntry(entry)
    modifies book
    ensures old(book.Valid()) ==> book.Valid()
    ensures |book.entries| == old(|book.entries|) + 1
    ensures r == Success(entry)
  {
    book.Add(entry);
    r := book.GetOne(book.Length());
  }

  /** After `delete`, `get_all` lists one record fewer, numbered 1..N-1 without gaps. */
  method DeleteThenGetAll(book: Book, number: int) returns (r: Result<seq<Listed>, Error>)
    requires book.Valid() && 1 <= number <= |book.entries|
    modifies book
    ensures r.Success? && |r.value| == old(|book.entries|) - 1
    ensures forall i :: 0 <= i < |r.value| ==> r.value[i].0 == i + 1
  {
    book.Delete(number);
    r := book.GetAll();
  }
}
