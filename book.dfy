/**
 * The ledger: an ordered list of stored records addressed by 1-based position,
 * and the specification functions its operations are proved against.
 */
module Ledger {
  import opened Wrappers
  import opened Numbers
  import opened Entries

  /** A listed record: its 1-based position and the entry rebuilt from it. */
  type Listed = (int, Entry)

  /** The three fields an entry can be searched by, with the value compared for equality. */
  datatype Field = Date(date: string) | Category(category: string) | Amount(amount: int)

  /** `getattr(entry, field) == value`: exact, type-sensitive equality. */
  predicate Matches(e: Entry, f: Field)
    ensures Matches(e, f) <==> f == Date(e.date) || f == Category(e.category) || f == Amount(e.amount)
  {
    match f
    case Date(d) => e.date == d
    case Category(c) => e.category == c
    case Amount(a) => e.amount == a
  }

  predicate AllValid(s: seq<Entry>) {
    forall i :: 0 <= i < |s| ==> ValidEntry(s[i])
  }

  /** Entries paired with positions 1..N in storage order. */
  function Numbered(es: seq<Entry>): (r: seq<Listed>)
    ensures |r| == |es|
    ensures forall i :: 0 <= i < |r| ==> r[i].0 == i + 1 && r[i].1 == es[i]
  {
    seq(|es|, i requires 0 <= i < |es| => (i + 1, es[i]))
  }

  /** `Entry(**record)` on one stored record. */
  function Rebuild(e: Entry): (r: Result<Entry, Error>)
    ensures r.Success? ==> ValidEntry(r.value) && r.value.date == e.date && r.value.description == e.description
    ensures ValidEntry(e) ==> r == Success(e)
  {
    RevalidateValid(e);
    CheckArgs(ToRaw(e))
  }

  /** Every record rebuilt in order by rebuild; the first one that fails stops it. */
  function RebuildAll(s: seq<Entry>, rebuild: Entry -> Result<Entry, Error>): (r: Result<seq<Entry>, Error>)
    ensures r.Success? ==> |r.value| == |s|
  {
    if s == [] then Success([])
    else
      match RebuildAll(s[..|s| - 1], rebuild)
      case Failure(e) => Failure(e)
      case Success(es) =>
        match rebuild(s[|s| - 1])
        case Failure(e) => Failure(e)
        case Success(v) => Success(es + [v])
  }

  /** What `get_all` returns or raises for the stored records. */
  function Listing(s: seq<Entry>): (r: Result<seq<Listed>, Error>)
    ensures r.Success? <==> forall i :: 0 <= i < |s| ==> Rebuild(s[i]).Success?
    ensures r.Success? ==> |r.value| == |s| && forall i :: 0 <= i < |s| ==> r.value[i] == (i + 1, Rebuild(s[i]).value)
  {
    NumberedRebuildAll(s, Rebuild);
    match RebuildAll(s, Rebuild)
    case Failure(e) => Failure(e)
    case Success(es) => Success(Numbered(es))
  }

  /** Rebuilding succeeds exactly when every record rebuilds, and then yields the rebuilt records in order. */
  lemma {:induction false} RebuildAllSuccess(s: seq<Entry>, rebuild: Entry -> Result<Entry, Error>)
    ensures RebuildAll(s, rebuild).Success? <==> forall i :: 0 <= i < |s| ==> rebuild(s[i]).Success?
    ensures RebuildAll(s, rebuild).Success? ==>
      |RebuildAll(s, rebuild).value| == |s| &&
      forall i :: 0 <= i < |s| ==> RebuildAll(s, rebuild).value[i] == rebuild(s[i]).value
  {
    if s != [] {
      var init := s[..|s| - 1];
      RebuildAllSuccess(init, rebuild);
      assert forall i :: 0 <= i < |init| ==> init[i] == s[i];
    }
  }

  /** Numbering the rebuilt records pairs record i with position i+1. */
  lemma NumberedRebuildAll(s: seq<Entry>, rebuild: Entry -> Result<Entry, Error>)
    ensures RebuildAll(s, rebuild).Success? <==> forall i :: 0 <= i < |s| ==> rebuild(s[i]).Success?
    ensures RebuildAll(s, rebuild).Success? ==>
      |Numbered(RebuildAll(s, rebuild).value)| == |s| &&
      forall i :: 0 <= i < |s| ==> Numbered(RebuildAll(s, rebuild).value)[i] == (i + 1, rebuild(s[i]).value)
  {
    RebuildAllSuccess(s, rebuild);
  }

  /** When rebuilding fails, the error is that of the first record that does not rebuild. */
  lemma {:induction false} RebuildAllFailure(s: seq<Entry>, rebuild: Entry -> Result<Entry, Error>) returns (k: nat)
    requires RebuildAll(s, rebuild).Failure?
    ensures k < |s| && rebuild(s[k]) == Failure(RebuildAll(s, rebuild).error)
    ensures forall i :: 0 <= i < k ==> rebuild(s[i]).Success?
  {
    var init := s[..|s| - 1];
    if RebuildAll(init, rebuild).Failure? {
      k := RebuildAllFailure(init, rebuild);
    } else {
      RebuildAllSuccess(init, rebuild);
      k := |s| - 1;
      assert forall i :: 0 <= i < k ==> init[i] == s[i];
    }
  }

  /** A failure in a prefix is the failure of the whole. */
  lemma {:induction false} RebuildAllPrefixFailure(s: seq<Entry>, j: nat, rebuild: Entry -> Result<Entry, Error>)
    requires j <= |s| && RebuildAll(s[..j], rebuild).Failure?
    ensures RebuildAll(s, rebuild) == RebuildAll(s[..j], rebuild)
    decreases |s| - j
  {
    if j < |s| {
      assert s[..j + 1][..j] == s[..j];
      RebuildAllPrefixFailure(s, j + 1, rebuild);
    } else {
      assert s[..j] == s;
    }
  }

  /** Valid stored records are rebuilt unchanged, so listing them cannot raise. */
  lemma ListingOfValid(s: seq<Entry>)
    requires AllValid(s)
    ensures RebuildAll(s, Rebuild) == Success(s)
    ensures Listing(s) == Success(Numbered(s))
  {
    forall i | 0 <= i < |s| ensures Rebuild(s[i]) == Success(s[i]) {
      RevalidateValid(s[i]);
    }
    RebuildAllSuccess(s, Rebuild);
    assert RebuildAll(s, Rebuild).value == s;
  }

  /** `get_all` numbers its pairs 1..N, so the pairs `filter` keeps have increasing positions. */
  lemma FilterIncreasing(s: seq<Entry>, f: Field)
    requires Listing(s).Success?
    ensures IncreasingPositions(Select(Listing(s).value, f))
  {
    var all := Listing(s).value;
    assert IncreasingPositions(all);
    SelectIncreasing(all, f);
  }

  /** One more record: the rebuilt prefix grows by that record's rebuilt entry, or stops at its error. */
  lemma RebuildAllStep(s: seq<Entry>, i: nat, rebuild: Entry -> Result<Entry, Error>)
    requires i < |s| && RebuildAll(s[..i], rebuild).Success?
    ensures rebuild(s[i]).Failure? ==> RebuildAll(s[..i + 1], rebuild) == Failure(rebuild(s[i]).error)
    ensures rebuild(s[i]).Success? ==>
      RebuildAll(s[..i + 1], rebuild) == Success(RebuildAll(s[..i], rebuild).value + [rebuild(s[i]).value])
  {
    assert s[..i + 1][..i] == s[..i];
  }

  /** The list comprehension of `filter`: the pairs whose entry matches, in their order. */
  function Select(all: seq<Listed>, f: Field): (r: seq<Listed>)
    ensures |r| <= |all|
  {
    if all == [] then []
    else (if Matches(all[0].1, f) then [all[0]] else []) + Select(all[1..], f)
  }

  /** `filter` keeps a pair exactly when it is listed and its field equals the value. */
  lemma {:induction false} SelectMembers(all: seq<Listed>, f: Field)
    ensures forall p :: p in Select(all, f) <==> p in all && Matches(p.1, f)
  {
    if all != [] {
      SelectMembers(all[1..], f);
      assert all == [all[0]] + all[1..];
    }
  }

  /** a can be obtained from b by dropping elements. */
  predicate IsSubsequence<T(==)>(a: seq<T>, b: seq<T>) {
    if a == [] then true
    else if b == [] then false
    else (a[0] == b[0] && IsSubsequence(a[1..], b[1..])) || IsSubsequence(a, b[1..])
  }

  predicate IncreasingPositions(ps: seq<Listed>) {
    forall i, j :: 0 <= i < j < |ps| ==> ps[i].0 < ps[j].0
  }

  function Positions(ps: seq<Listed>): (r: seq<int>)
    ensures |r| == |ps| && forall i :: 0 <= i < |ps| ==> r[i] == ps[i].0
  {
    seq(|ps|, i requires 0 <= i < |ps| => ps[i].0)
  }

  lemma {:induction false} SelectSubsequence(all: seq<Listed>, f: Field)
    ensures IsSubsequence(Select(all, f), all)
  {
    if all != [] {
      SelectSubsequence(all[1..], f);
      var rest := Select(all[1..], f);
      if Matches(all[0].1, f) {
        assert Select(all, f) == [all[0]] + rest;
        assert ([all[0]] + rest)[1..] == rest;
      } else {
        assert Select(all, f) == rest;
        if rest != [] {
          assert IsSubsequence(rest, all[1..]);
        }
      }
    }
  }

  lemma {:induction false} SelectIncreasing(all: seq<Listed>, f: Field)
    requires IncreasingPositions(all)
    ensures IncreasingPositions(Select(all, f))
  {
    if all != [] {
      var rest := Select(all[1..], f);
      SelectIncreasing(all[1..], f);
      SelectMembers(all[1..], f);
      if Matches(all[0].1, f) {
        var r := [all[0]] + rest;
        forall j | 0 < j < |r| ensures all[0].0 < r[j].0 {
          assert r[j] in rest;
        }
      }
    }
  }

  lemma {:induction false} SelectConcat(a: seq<Listed>, b: seq<Listed>, f: Field)
    ensures Select(a + b, f) == Select(a, f) + Select(b, f)
  {
    if a == [] {
      assert a + b == b;
    } else {
      var head := if Matches(a[0].1, f) then [a[0]] else [];
      assert (a + b)[0] == a[0] && (a + b)[1..] == a[1..] + b;
      assert Select(a + b, f) == head + Select(a[1..] + b, f);
      SelectConcat(a[1..], b, f);
      assert Select(a, f) == head + Select(a[1..], f);
      assert head + (Select(a[1..], f) + Select(b, f)) == (head + Select(a[1..], f)) + Select(b, f);
    }
  }

  /** The income `balance` adds up: amounts of records whose category is exactly `Доход`. */
  function IncomeOf(s: seq<Entry>): (r: int)
    ensures (forall i :: 0 <= i < |s| ==> s[i].amount >= 0) ==> r >= 0
    ensures (forall i :: 0 <= i < |s| ==> s[i].category != Income) ==> r == 0
  {
    if s == [] then 0
    else IncomeOf(s[..|s| - 1]) + (if s[|s| - 1].category == Income then s[|s| - 1].amount else 0)
  }

  /** The expenses `balance` adds up: amounts of every other record. */
  function ExpenseOf(s: seq<Entry>): (r: int)
    ensures (forall i :: 0 <= i < |s| ==> s[i].amount >= 0) ==> r >= 0
    ensures (forall i :: 0 <= i < |s| ==> s[i].category == Income) ==> r == 0
  {
    if s == [] then 0
    else ExpenseOf(s[..|s| - 1]) + (if s[|s| - 1].category == Income then 0 else s[|s| - 1].amount)
  }

  /** The sum of the amounts of listed records. */
  function SumOf(ps: seq<Listed>): int {
    if ps == [] then 0 else ps[0].1.amount + SumOf(ps[1..])
  }

  lemma {:induction false} SumOfConcat(a: seq<Listed>, b: seq<Listed>)
    ensures SumOf(a + b) == SumOf(a) + SumOf(b)
  {
    if a != [] {
      assert (a + b)[1..] == a[1..] + b;
      SumOfConcat(a[1..], b);
    } else {
      assert a + b == b;
    }
  }

  /** Numbering a longer ledger numbers the old part as before and the new last record N. */
  lemma NumberedSnoc(s: seq<Entry>)
    requires s != []
    ensures Numbered(s) == Numbered(s[..|s| - 1]) + [(|s|, s[|s| - 1])]
  {
  }

  /**
   * Income is the total of the stored records, numbered 1..N, whose category is
   * exactly `Доход`: a search over the raw records, not over the rebuilt ones
   * `filter` searches.
   */
  lemma {:induction false} IncomeIsFilteredSum(s: seq<Entry>)
    ensures IncomeOf(s) == SumOf(Select(Numbered(s), Category(Income)))
  {
    if s != [] {
      var init := s[..|s| - 1];
      var last := (|s|, s[|s| - 1]);
      IncomeIsFilteredSum(init);
      NumberedSnoc(s);
      SelectConcat(Numbered(init), [last], Category(Income));
      SumOfConcat(Select(Numbered(init), Category(Income)), Select([last], Category(Income)));
    }
  }

  /** With every category one of the two labels, expenses are the total of the stored records whose category is `Расход`. */
  lemma {:induction false} ExpenseIsFilteredSum(s: seq<Entry>)
    requires forall i :: 0 <= i < |s| ==> s[i].category == Income || s[i].category == Expense
    ensures ExpenseOf(s) == SumOf(Select(Numbered(s), Category(Expense)))
  {
    if s != [] {
      var init := s[..|s| - 1];
      var last := (|s|, s[|s| - 1]);
      ExpenseIsFilteredSum(init);
      NumberedSnoc(s);
      SelectConcat(Numbered(init), [last], Category(Expense));
      SumOfConcat(Select(Numbered(init), Category(Expense)), Select([last], Category(Expense)));
    }
  }

  /** Over valid records `balance` agrees with `filter`: income and expenses are the totals of its searches for the two labels. */
  lemma BalanceMatchesFilter(s: seq<Entry>)
    requires AllValid(s)
    ensures Listing(s).Success?
    ensures IncomeOf(s) == SumOf(Select(Listing(s).value, Category(Income)))
    ensures ExpenseOf(s) == SumOf(Select(Listing(s).value, Category(Expense)))
  {
    ListingOfValid(s);
    IncomeIsFilteredSum(s);
    ExpenseIsFilteredSum(s);
  }

  /** Income and expenses split the total of all amounts; with valid records neither is negative. */
  lemma {:induction false} BalanceSplitsTotal(s: seq<Entry>)
    ensures IncomeOf(s) + ExpenseOf(s) == SumOf(Numbered(s))
    ensures AllValid(s) ==> IncomeOf(s) >= 0 && ExpenseOf(s) >= 0
  {
    if s != [] {
      var init := s[..|s| - 1];
      BalanceSplitsTotal(init);
      NumberedSnoc(s);
      SumOfConcat(Numbered(init), [(|s|, s[|s| - 1])]);
      assert AllValid(s) ==> AllValid(init);
    }
  }

  /** `Book(entries)`: the records loaded from the store. */
  class Book {
    var entries: seq<Entry>

    /** Every stored record is one the entry constructor could have built. */
    predicate Valid()
      reads this
    {
      AllValid(entries)
    }

    constructor (entries: seq<Entry>)
      ensures this.entries == entries
    {
      this.entries := entries;
    }

    /** `len(book)`. */
    function Length(): (n: nat)
      reads this
      ensures n == |entries|
    {
      |entries|
    }

    /** `add`: appends the entry's fields at the end. */
    method Add(entry: Entry)
      requires ValidEntry(entry)
      modifies this
      ensures entries == old(entries) + [entry]
      ensures |entries| == old(|entries|) + 1 && entries[|entries| - 1] == entry
      ensures forall i :: 0 <= i < old(|entries|) ==> entries[i] == old(entries[i])
      ensures old(Valid()) ==> Valid()
    {
      entries := entries + [entry];
    }

    /** `edit`: replaces the record at 1-based position number wholesale. */
    method Edit(number: int, entry: Entry)
      requires 1 <= number <= |entries|
      requires ValidEntry(entry)
      modifies this
      ensures entries == old(entries)[number - 1 := entry]
      ensures |entries| == old(|entries|) && entries[number - 1] == entry
      ensures forall i :: 0 <= i < |entries| && i != number - 1 ==> entries[i] == old(entries[i])
      ensures old(Valid()) ==> Valid()
    {
      var index := number - 1;
      entries := entries[index := entry];
    }

    /** `delete`: removes the record at 1-based position number; later records move down one place. */
    method Delete(number: int)
      requires 1 <= number <= |entries|
      modifies this
      ensures entries == old(entries[..number - 1] + entries[number..])
      ensures |entries| == old(|entries|) - 1
      ensures forall i :: 0 <= i < number - 1 ==> entries[i] == old(entries[i])
      ensures forall i :: number - 1 <= i < |entries| ==> entries[i] == old(entries[i + 1])
      ensures old(Valid()) ==> Valid()
    {
      var index := number - 1;
      entries := entries[..index] + entries[index + 1..];
    }

    /** `get_all`: every record rebuilt as an entry, numbered from 1 in storage order. */
    method GetAll() returns (r: Result<seq<Listed>, Error>)
      ensures r == Listing(entries)
      ensures Valid() ==> r == Success(Numbered(entries))
    {
      if Valid() {
        ListingOfValid(entries);
      }
      var allData: seq<Listed> := [];
      var index := 1;
      ghost var rebuilt: seq<Entry> := [];
      for i := 0 to |entries|
        invariant index == i + 1 && |rebuilt| == i
        invariant RebuildAll(entries[..i], Rebuild) == Success(rebuilt)
        invariant allData == Numbered(rebuilt)
      {
        var current := Rebuild(entries[i]);
        RebuildAllStep(entries, i, Rebuild);
        if current.Failure? {
          RebuildAllPrefixFailure(entries, i + 1, Rebuild);
          return Failure(current.error);
        }
        assert (rebuilt + [current.value])[..|rebuilt|] == rebuilt;
        NumberedSnoc(rebuilt + [current.value]);
        allData := allData + [(index, current.value)];
        rebuilt := rebuilt + [current.value];
        index := index + 1;
      }
      assert entries[..|entries|] == entries;
      r := Success(allData);
    }

    /** `get_one`: the record at 1-based position number, rebuilt as an entry. */
    function GetOne(number: int): (r: Result<Entry, Error>)
      reads this
      requires 1 <= number <= |entries|
      ensures r.Success? ==> ValidEntry(r.value) && r.value.date == entries[number - 1].date
      ensures Valid() ==> r == Success(entries[number - 1])
    {
      Rebuild(entries[number - 1])
    }

    /** `balance`: income, expenses and their difference, accumulated in one pass. */
    method Balance() returns (profit: int, expenses: int, net: int)
      ensures profit == IncomeOf(entries) && expenses == ExpenseOf(entries)
      ensures net == profit - expenses
    {
      profit, expenses := 0, 0;
      for i := 0 to |entries|
        invariant profit == IncomeOf(entries[..i]) && expenses == ExpenseOf(entries[..i])
      {
        assert entries[..i + 1][..i] == entries[..i];
        if entries[i].category == Income {
          profit := profit + entries[i].amount;
        } else {
          expenses := expenses + entries[i].amount;
        }
      }
      assert entries[..|entries|] == entries;
      net := profit - expenses;
    }

    /** `filter`: the listed pairs whose field equals the value, keeping their numbers and order. */
    function Filter(field: Field): (r: Result<seq<Listed>, Error>)
      reads this
      ensures r.Failure? <==> Listing(entries).Failure?
      ensures r.Success? ==> r.value == Select(Listing(entries).value, field)
      ensures r.Success? ==> IsSubsequence(r.value, Listing(entries).value)
      ensures r.Success? ==> forall p :: p in r.value <==> p in Listing(entries).value && Matches(p.1, field)
      ensures r.Success? ==> IncreasingPositions(r.value)
      ensures Valid() ==> r.Success?
      ensures Valid() ==> forall p :: p in r.value <==> 1 <= p.0 <= |entries| && p.1 == entries[p.0 - 1] && Matches(p.1, field)
    {
      FilterOfValid(entries, field);
      match Listing(entries)
      case Failure(e) => Failure(e)
      case Success(all) =>
        FilterIncreasing(entries, field);
        SelectSubsequence(all, field);
        SelectMembers(all, field);
        Success(Select(all, field))
    }
  }

  /** When listing succeeds, `get_one(n)` is the entry `get_all` lists at position n. */
  lemma GetOneIsListed(book: Book, n: int)
    requires 1 <= n <= |book.entries|
    requires forall i :: 0 <= i < |book.entries| ==> Rebuild(book.entries[i]).Success?
    ensures book.GetOne(n) == Success(Listing(book.entries).value[n - 1].1)
  {
    var k := n - 1;
    assert Rebuild(book.entries[k]).Success?;
  }

  /** Over valid records `filter` cannot raise, and finds exactly the matching records with their positions. */
  lemma FilterOfValid(s: seq<Entry>, f: Field)
    ensures AllValid(s) ==> Listing(s).Success?
    ensures AllValid(s) ==> forall p :: p in Select(Listing(s).value, f) <==> 1 <= p.0 <= |s| && p.1 == s[p.0 - 1] && Matches(p.1, f)
  {
    if AllValid(s) {
      ListingOfValid(s);
      var all := Numbered(s);
      SelectMembers(all, f);
      forall p: Listed | 1 <= p.0 <= |s| && p.1 == s[p.0 - 1] ensures p in all {
        assert all[p.0 - 1] == p;
      }
    }
  }

  /** `validate_number`: the typed position is accepted only when it is an integer within 1..len(book). */
  function ValidateNumber(book: Book, number: string): (r: Option<int>)
    reads book
    ensures r.Some? <==> ParseInt(number).Some? && 1 <= ParseInt(number).value <= |book.entries|
    ensures r.Some? ==> r.value == ParseInt(number).value && 1 <= r.value <= |book.entries|
  {
    if number == [] then None
    else
      match ParseInt(number)
      case None => None
      case Some(n) => if n < 1 || n > |book.entries| then None else Some(n)
  }

  /** Every existing position, typed as its decimal text, is accepted as itself. */
  lemma ValidateNumberAcceptsPositions(book: Book, n: int)
    requires 1 <= n <= |book.entries|
    ensures ValidateNumber(book, ShowInt(n)) == Some(n)
  {
    ParseShowInt(n);
  }
}
