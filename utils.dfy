/**
 * The display helpers of src/utils/utils.tsx: the colour of a brand tag and
 * the "Deposited ... ago" text. The current time and the parsed deposit
 * time are parameters; `None` stands for a deposit date that does not parse,
 * whose time is NaN in the source.
 */
module Utils {
  import opened Wrappers
  import opened Text

  /** The tag colour of a brand: one colour for each of four brands, pink for the rest. */
  function ColorFromBrand(brand: string): (color: string)
    ensures color in {"red", "green", "blue", "orange", "pink"}
    ensures color == "red" <==> brand == "Gucci"
    ensures color == "green" <==> brand == "Chanel"
    ensures color == "blue" <==> brand == "Supreme"
    ensures color == "orange" <==> brand == "Off-White"
  {
    match brand
    case "Gucci" => "red"
    case "Chanel" => "green"
    case "Supreme" => "blue"
    case "Off-White" => "orange"
    case _ => "pink"
  }

  const MS_PER_DAY: nat := 1000 * 60 * 60 * 24

  function Abs(x: int): nat {
    if x < 0 then -x else x
  }

  /** Whole years, remaining 30-day months and remaining days. */
  datatype Elapsed = Elapsed(years: nat, months: nat, days: nat)

  /** Splits a number of days into years of twelve 30-day months, months and days. */
  function BreakDown(days: nat): (e: Elapsed)
    ensures e.months < 12 && e.days < 30
  {
    var months := days / 30;
    var years := months / 12;
    Elapsed(years, months % 12, days % 30)
  }

  /** The split is within bounds and adds back up to the days; `BreakDownUnique` shows it is the only one. */
  lemma BreakDownSums(days: nat)
    ensures var e := BreakDown(days);
      && e.months < 12 && e.days < 30
      && e.years * 360 + e.months * 30 + e.days == days
  {
    var months := days / 30;
    assert months * 30 + days % 30 == days;
    assert (months / 12) * 12 + months % 12 == months;
  }

  /** No other split of `days` meets the bounds. */
  lemma BreakDownUnique(days: nat, e: Elapsed)
    requires e.months < 12 && e.days < 30
    requires e.years * 360 + e.months * 30 + e.days == days
    ensures e == BreakDown(days)
  {
    var b := BreakDown(days);
    var m := e.years * 12 + e.months;
    assert m * 30 + e.days == days;
    assert days / 30 == m && days % 30 == e.days;
    assert m / 12 == e.years && m % 12 == e.months;
  }

  /** "<value> <word>", with the singular word for 1 and the plural one otherwise. */
  function Pluralize(value: nat, singular: string, plural: string): (r: string)
    ensures var digits := NatToString(value);
      |r| > |digits| && r[..|digits|] == digits && r[|digits|] == ' '
  {
    if value == 1 then NatToString(value) + " " + singular else NatToString(value) + " " + plural
  }

  /**
   * The text starts with the decimal digits of the value, which read back
   * as the value, then a space; the word after it is the singular for 1 and
   * the plural for any other value, so the two are told apart whenever the
   * words differ.
   */
  lemma PluralizeShape(value: nat, singular: string, plural: string)
    ensures var r := Pluralize(value, singular, plural); var digits := NatToString(value);
      && |digits| + 1 <= |r| && r[..|digits|] == digits && r[|digits|] == ' '
      && DecimalValue(r[..|digits|]) == value
      && r[|digits| + 1..] == (if value == 1 then singular else plural)
      && (singular != plural ==> (r[|digits| + 1..] == singular <==> value == 1))
  {
    DecimalRoundTrip(value);
    var r, digits := Pluralize(value, singular, plural), NatToString(value);
    var word := if value == 1 then singular else plural;
    assert r == digits + " " + word;
    assert r[|digits| + 1..] == word;
  }

  /** The parts of the text: years, months, days in that order, each only when not zero. */
  function DepositParts(e: Elapsed): (parts: seq<string>)
    ensures |parts| == (if e.years > 0 then 1 else 0) + (if e.months > 0 then 1 else 0)
                       + (if e.days > 0 then 1 else 0)
    ensures e.years > 0 ==> parts[0] == Pluralize(e.years, "year", "years")
    ensures e.months > 0 ==> parts[if e.years > 0 then 1 else 0] == Pluralize(e.months, "month", "months")
    ensures e.days > 0 ==> parts[|parts| - 1] == Pluralize(e.days, "day", "days")
  {
    (if e.years > 0 then [Pluralize(e.years, "year", "years")] else [])
    + (if e.months > 0 then [Pluralize(e.months, "month", "months")] else [])
    + (if e.days > 0 then [Pluralize(e.days, "day", "days")] else [])
  }

  /** The text for a deposit at `depositedMs`, seen at `nowMs`. */
  function DepositTimeSince(nowMs: int, depositedMs: Option<int>): (text: string)
    ensures |text| >= |"Deposited  ago"|
    ensures text[..10] == "Deposited " && text[|text| - 4..] == " ago"
    ensures depositedMs.None? ==> text == "Deposited  ago"
  {
    var parts :=
      if depositedMs.None? then []
      else DepositParts(BreakDown(Abs(nowMs - depositedMs.value) / MS_PER_DAY));
    "Deposited " + Join(parts, ", ") + " ago"
  }

  /**
   * `calculateDepositTimeSince` from the two times on: the parts are pushed
   * one by one and then joined with ", ".
   */
  method CalculateDepositTimeSince(nowMs: int, depositedMs: Option<int>) returns (text: string)
    ensures text == DepositTimeSince(nowMs, depositedMs)
  {
    var parts: seq<string> := [];
    if depositedMs.Some? {
      var diff := Abs(nowMs - depositedMs.value);
      var days := diff / MS_PER_DAY;
      var months := days / 30;
      var years := months / 12;
      var remainingMonths := months % 12;
      var remainingDays := days % 30;
      assert BreakDown(days) == Elapsed(years, remainingMonths, remainingDays);
      if years > 0 {
        parts := parts + [Pluralize(years, "year", "years")];
      }
      if remainingMonths > 0 {
        parts := parts + [Pluralize(remainingMonths, "month", "months")];
      }
      if remainingDays > 0 {
        parts := parts + [Pluralize(remainingDays, "day", "days")];
      }
      assert parts == DepositParts(BreakDown(days));
    }
    text := "Deposited " + Join(parts, ", ") + " ago";
  }

  /** Less than a day apart, no part is present and the text is "Deposited  ago". */
  lemma UnderADay(nowMs: int, depositedMs: int)
    requires Abs(nowMs - depositedMs) < MS_PER_DAY
    ensures DepositTimeSince(nowMs, Some(depositedMs)) == "Deposited  ago"
  {
    assert Abs(nowMs - depositedMs) / MS_PER_DAY == 0;
    assert BreakDown(0) == Elapsed(0, 0, 0);
    assert DepositParts(Elapsed(0, 0, 0)) == [];
    assert DepositTimeSince(nowMs, Some(depositedMs)) == DepositTimeSince(nowMs, None);
  }

  /** A deposit `k` ms in the past and one `k` ms in the future read the same. */
  lemma PastAndFutureAlike(nowMs: int, k: int)
    ensures DepositTimeSince(nowMs, Some(nowMs - k)) == DepositTimeSince(nowMs, Some(nowMs + k))
  {
    assert Abs(nowMs - (nowMs - k)) == Abs(nowMs - (nowMs + k));
  }

  /** With every component present, the text lists years, months and days separated by ", ". */
  lemma AllPartsInOrder(nowMs: int, depositedMs: int)
    requires var e := BreakDown(Abs(nowMs - depositedMs) / MS_PER_DAY);
      e.years > 0 && e.months > 0 && e.days > 0
    ensures var e := BreakDown(Abs(nowMs - depositedMs) / MS_PER_DAY);
      DepositTimeSince(nowMs, Some(depositedMs))
        == "Deposited "
           + (Pluralize(e.years, "year", "years") + ", " + Pluralize(e.months, "month", "months") + ", "
              + Pluralize(e.days, "day", "days"))
           + " ago"
  {
    var e := BreakDown(Abs(nowMs - depositedMs) / MS_PER_DAY);
    var y, m, d := Pluralize(e.years, "year", "years"), Pluralize(e.months, "month", "months"),
                   Pluralize(e.days, "day", "days");
    assert DepositParts(e) == [y, m, d];
    assert DepositTimeSince(nowMs, Some(depositedMs)) == "Deposited " + Join([y, m, d], ", ") + " ago";
    JoinThree(y, m, d, ", ");
  }

  /**
   * With exactly two components present, the text lists the larger unit
   * first and the smaller second, separated by ", ".
   */
  lemma TwoPartsInOrder(nowMs: int, depositedMs: int)
    requires var e := BreakDown(Abs(nowMs - depositedMs) / MS_PER_DAY);
      (if e.years > 0 then 1 else 0) + (if e.months > 0 then 1 else 0) + (if e.days > 0 then 1 else 0) == 2
    ensures var e := BreakDown(Abs(nowMs - depositedMs) / MS_PER_DAY);
      var y, m, d := Pluralize(e.years, "year", "years"), Pluralize(e.months, "month", "months"),
                     Pluralize(e.days, "day", "days");
      var first := if e.years > 0 then y else m;
      var second := if e.days > 0 then d else m;
      DepositTimeSince(nowMs, Some(depositedMs)) == "Deposited " + (first + ", " + second) + " ago"
  {
    var e := BreakDown(Abs(nowMs - depositedMs) / MS_PER_DAY);
    var parts := DepositParts(e);
    assert |parts| == 2;
    assert parts == [parts[0], parts[1]];
    assert [parts[0], parts[1]][1..] == [parts[1]];
    assert Join(parts, ", ") == parts[0] + ", " + parts[1];
  }

  /** With exactly one component present, the text is that component alone. */
  lemma OnePartInOrder(nowMs: int, depositedMs: int)
    requires var e := BreakDown(Abs(nowMs - depositedMs) / MS_PER_DAY);
      (if e.years > 0 then 1 else 0) + (if e.months > 0 then 1 else 0) + (if e.days > 0 then 1 else 0) == 1
    ensures var e := BreakDown(Abs(nowMs - depositedMs) / MS_PER_DAY);
      var only :=
        if e.years > 0 then Pluralize(e.years, "year", "years")
        else if e.months > 0 then Pluralize(e.months, "month", "months")
        else Pluralize(e.days, "day", "days");
      DepositTimeSince(nowMs, Some(depositedMs)) == "Deposited " + only + " ago"
  {
    var e := BreakDown(Abs(nowMs - depositedMs) / MS_PER_DAY);
    var parts := DepositParts(e);
    assert |parts| == 1;
    assert Join(parts, ", ") == parts[0];
  }

  /** Five days back reads "Deposited 5 days ago". */
  lemma FiveDays(nowMs: int)
    ensures DepositTimeSince(nowMs, Some(nowMs - 5 * MS_PER_DAY)) == "Deposited 5 days ago"
  {
    var deposited := nowMs - 5 * MS_PER_DAY;
    var days := Abs(nowMs - deposited) / MS_PER_DAY;
    assert days == 5;
    assert BreakDown(days) == Elapsed(0, 0, 5);
    assert Pluralize(5, "day", "days") == "5 days" by {
      assert NatToString(5) == "5";
    }
    OnePartInOrder(nowMs, deposited);
    assert DepositTimeSince(nowMs, Some(deposited)) == "Deposited " + "5 days" + " ago";
  }

  lemma PluralizedParts()
    ensures Pluralize(1, "year", "years") == "1 year"
    ensures Pluralize(1, "month", "months") == "1 month"
    ensures Pluralize(10, "day", "days") == "10 days"
  {
    assert NatToString(1) == "1";
    assert NatToString(10) == NatToString(1) + "0" == "10";
  }

  /** 400 days are one year, one month and ten days. */
  lemma FourHundredDays(nowMs: int)
    ensures DepositTimeSince(nowMs, Some(nowMs - 400 * MS_PER_DAY)) == "Deposited 1 year, 1 month, 10 days ago"
  {
    var deposited := nowMs - 400 * MS_PER_DAY;
    var days := Abs(nowMs - deposited) / MS_PER_DAY;
    assert days == 400;
    assert BreakDown(days) == Elapsed(1, 1, 10);
    PluralizedParts();
    AllPartsInOrder(nowMs, deposited);
    FourHundredDaysText();
  }

  /** The three parts of 400 days, joined and framed, spell the expected text. */
  lemma FourHundredDaysText()
    ensures "Deposited " + ("1 year" + ", " + "1 month" + ", " + "10 days") + " ago"
            == "Deposited 1 year, 1 month, 10 days ago"
  {
  }
}
