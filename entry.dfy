/**
 * One income or expense record and the validation its constructor runs.
 * An entry comes from four raw fields; the checks run in the order date,
 * category, amount, and the first that fails decides the error.
 */
module Entries {
  import opened Wrappers
  import opened Numbers
  import opened Dates
  import opened Casing

  /** One kind per check, in the order the checks run. */
  datatype Error = InvalidDate | InvalidCategory | InvalidAmount | AmountTooSmall

  /** The amount as given: an integer (from stored data) or text (typed at the prompt). */
  datatype RawAmount = Number(n: int) | Text(text: string)

  /** The four keyword arguments of the constructor. */
  datatype RawEntry = RawEntry(date: string, category: string, amount: RawAmount, description: string)

  /** The fields of a record, as stored in the ledger (the entry's `__dict__`). */
  datatype Entry = Entry(date: string, category: string, amount: int, description: string)

  const Income: string := "Доход"
  const Expense: string := "Расход"

  /** What the constructor guarantees of every entry it builds. */
  predicate ValidEntry(e: Entry) {
    ValidDate(e.date) && (e.category == Income || e.category == Expense) && e.amount >= 1
  }

  /** The keyword arguments `Entry(**record)` receives for a stored record. */
  function ToRaw(e: Entry): RawEntry {
    RawEntry(e.date, e.category, Number(e.amount), e.description)
  }

  /** `check_date`: strptime failing in any way is reported as a bad date. */
  function CheckDate(date: string): (r: Option<Error>)
    ensures r == None <==> ValidDate(date)
    ensures r != None ==> r == Some(InvalidDate)
  {
    if ValidDate(date) then None else Some(InvalidDate)
  }

  /** `check_category`: accepted when the lower-cased text is one of the two labels; stored in title case. */
  function CheckCategory(category: string): (r: Result<string, Error>)
    ensures r.Success? <==> Lower(category) == "доход" || Lower(category) == "расход"
    ensures r.Success? ==> (r.value == Income || r.value == Expense) && Lower(r.value) == Lower(category)
    ensures r.Success? ==> (r.value == Income <==> Lower(category) == "доход")
    ensures r.Failure? ==> r.error == InvalidCategory
  {
    var lower := Lower(category);
    if lower == "доход" || lower == "расход" then
      LowerOfTitle(category);
      TitleOfLabel(category);
      Success(TitleWord(category))
    else Failure(InvalidCategory)
  }

  /** A string that lower-cases to one of the labels title-cases to that label. */
  lemma TitleOfLabel(category: string)
    requires Lower(category) == "доход" || Lower(category) == "расход"
    ensures Lower(category) == "доход" ==> TitleWord(category) == Income
    ensures Lower(category) == "расход" ==> TitleWord(category) == Expense
  {
    var lower := Lower(category);
    var t := TitleWord(category);
    assert t[0] == UpperChar(category[0]);
    assert LowerChar(category[0]) == lower[0];
    forall i | 1 <= i < |t| ensures t[i] == lower[i] {
      assert t[i] == LowerChar(category[i]);
    }
  }

  /** `check_amount`: `int(amount)` must succeed, and the integer must be at least 1. */
  function CheckAmount(amount: RawAmount): (r: Result<int, Error>)
    ensures r.Success? ==> r.value >= 1
    ensures amount.Number? ==> r == if amount.n >= 1 then Success(amount.n) else Failure(AmountTooSmall)
    ensures amount.Text? && ParseInt(amount.text).None? ==> r == Failure(InvalidAmount)
    ensures amount.Text? && ParseInt(amount.text).Some? ==>
      r == if ParseInt(amount.text).value >= 1 then Success(ParseInt(amount.text).value) else Failure(AmountTooSmall)
  {
    var coerced := match amount
      case Number(n) => Some(n)
      case Text(t) => ParseInt(t);
    match coerced
    case None => Failure(InvalidAmount)
    case Some(n) => if n < 1 then Failure(AmountTooSmall) else Success(n)
  }

  /** `Entry(date, category, amount, description)`: `check_args` runs the three checks in order. */
  function CheckArgs(raw: RawEntry): (r: Result<Entry, Error>)
    ensures !ValidDate(raw.date) ==> r == Failure(InvalidDate)
    ensures ValidDate(raw.date) && CheckCategory(raw.category).Failure? ==> r == Failure(InvalidCategory)
    ensures ValidDate(raw.date) && CheckCategory(raw.category).Success? && CheckAmount(raw.amount).Failure? ==>
      r == Failure(CheckAmount(raw.amount).error)
    ensures r.Success? <==>
      ValidDate(raw.date) && CheckCategory(raw.category).Success? && CheckAmount(raw.amount).Success?
    ensures r.Success? ==> ValidEntry(r.value)
    ensures r.Success? ==>
      r.value.date == raw.date && r.value.description == raw.description &&
      Lower(r.value.category) == Lower(raw.category) && r.value.amount == CheckAmount(raw.amount).value
  {
    match CheckDate(raw.date)
    case Some(e) => Failure(e)
    case None =>
      match CheckCategory(raw.category)
      case Failure(e) => Failure(e)
      case Success(category) =>
        match CheckAmount(raw.amount)
        case Failure(e) => Failure(e)
        case Success(amount) => Success(Entry(raw.date, category, amount, raw.description))
  }

  /** Rebuilding an entry from a valid stored record gives that record back unchanged. */
  lemma RevalidateValid(e: Entry)
    ensures ValidEntry(e) ==> CheckArgs(ToRaw(e)) == Success(e)
  {
    var lower := Lower(e.category);
    if !ValidEntry(e) {
    } else if e.category == Income {
      assert lower == "доход" by {
        forall i | 0 <= i < |lower| ensures lower[i] == "доход"[i] { }
      }
      TitleOfLabel(e.category);
    } else {
      assert lower == "расход" by {
        forall i | 0 <= i < |lower| ensures lower[i] == "расход"[i] { }
      }
      TitleOfLabel(e.category);
    }
  }

  /** Validation is idempotent: what it builds passes it again unchanged. */
  lemma CheckArgsIdempotent(raw: RawEntry)
    requires CheckArgs(raw).Success?
    ensures CheckArgs(ToRaw(CheckArgs(raw).value)) == CheckArgs(raw)
  {
    RevalidateValid(CheckArgs(raw).value);
  }

  /** Valid raw fields are accepted, whatever the case of the category; lower-case `доход` becomes `Доход`. */
  lemma AcceptsAnyCase(date: string, amount: int, description: string)
    requires ValidDate(date) && amount >= 1
    ensures CheckArgs(RawEntry(date, "доход", Number(amount), description)) == Success(Entry(date, Income, amount, description))
    ensures CheckArgs(RawEntry(date, "РАСХОД", Text(ShowInt(amount)), description)) == Success(Entry(date, Expense, amount, description))
  {
    assert Lower("доход") == "доход";
    assert Lower("РАСХОД") == "расход";
    ParseShowInt(amount);
  }

  /** An amount below 1 or one that is not a number never yields an entry, whatever the other fields. */
  lemma BadAmountAlwaysFails(raw: RawEntry)
    requires (raw.amount.Number? && raw.amount.n < 1) || (raw.amount.Text? && ParseInt(raw.amount.text).None?)
    ensures CheckArgs(raw).Failure?
  {
  }
}
