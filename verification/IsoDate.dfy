/** Dates as text: `date.isoformat()` and the client's formatLocalDate(). */
module IsoDate {
  import opened StringOrder
  import opened Decimal
  import opened Calendar

  /** YYYY-MM-DD, the year padded to four digits. */
  function Iso(d: Date): string
    requires Valid(d)
  {
    Padded(Year(d), 4) + ("-" + (Padded(MonthOfYear(d), 2) + ("-" + Padded(d.day, 2))))
  }

  /** The client does not pad the year. */
  function LocalFormat(d: Date): string
    requires Valid(d)
  {
    Digits(Year(d)) + ("-" + (Padded(MonthOfYear(d), 2) + ("-" + Padded(d.day, 2))))
  }

  lemma FourDigitYears(d: Date)
    requires Valid(d) && 1000 <= Year(d) <= 9999
    ensures LocalFormat(d) == Iso(d)
  {
    assert Power(3) == 1000 && Power(4) == 10000;
    PaddedIsDigits(Year(d), 4);
  }

  lemma IsoParts(d: Date)
    requires Valid(d) && Year(d) <= 9999
    ensures |Padded(Year(d), 4)| == 4 && ValueOf(Padded(Year(d), 4)) == Year(d) && AllDigits(Padded(Year(d), 4))
    ensures |Padded(MonthOfYear(d), 2)| == 2 && ValueOf(Padded(MonthOfYear(d), 2)) == MonthOfYear(d)
    ensures AllDigits(Padded(MonthOfYear(d), 2))
    ensures |Padded(d.day, 2)| == 2 && ValueOf(Padded(d.day, 2)) == d.day && AllDigits(Padded(d.day, 2))
  {
    assert Power(2) == 100 && Power(4) == 10000;
    PaddedSpells(Year(d), 4);
    PaddedSpells(MonthOfYear(d), 2);
    PaddedSpells(d.day, 2);
  }

  /** Comparing the texts compares the dates. */
  lemma IsoOrder(a: Date, b: Date)
    requires Valid(a) && Valid(b) && Year(a) <= 9999 && Year(b) <= 9999
    ensures StrictlyBelow(Iso(a), Iso(b)) <==> Before(a, b)
    ensures Iso(a) == Iso(b) <==> a == b
  {
    IsoParts(a);
    IsoParts(b);
    var ya, ma, da := Padded(Year(a), 4), Padded(MonthOfYear(a), 2), Padded(a.day, 2);
    var yb, mb, db := Padded(Year(b), 4), Padded(MonthOfYear(b), 2), Padded(b.day, 2);
    DigitsCompare(ya, yb);
    DigitsCompare(ma, mb);
    DigitsCompare(da, db);
    BelowByParts(ya, yb, "-" + (ma + ("-" + da)), "-" + (mb + ("-" + db)));
    BelowByParts("-", "-", ma + ("-" + da), mb + ("-" + db));
    BelowByParts(ma, mb, "-" + da, "-" + db);
    BelowByParts("-", "-", da, db);
    if Iso(a) == Iso(b) { SameText(a, b); }
  }

  lemma SameText(a: Date, b: Date)
    requires Valid(a) && Valid(b) && Year(a) <= 9999 && Year(b) <= 9999 && Iso(a) == Iso(b)
    ensures a == b
  {
    IsoParts(a);
    IsoParts(b);
    IsoSlices(a);
    IsoSlices(b);
  }

  lemma IsoSlices(d: Date)
    requires Valid(d) && Year(d) <= 9999
    ensures |Iso(d)| == 10 && Iso(d)[4] == '-' && Iso(d)[7] == '-'
    ensures Iso(d)[..4] == Padded(Year(d), 4) && Iso(d)[5..7] == Padded(MonthOfYear(d), 2)
    ensures Iso(d)[8..] == Padded(d.day, 2)
  {
    IsoParts(d);
  }

  // ---- reading a date back ----

  datatype Parts = NoMatch | Parts(year: int, month: int, day: int)

  /** The pattern ^(\d{4})-(\d{2})-(\d{2})$. */
  function Match(s: string): Parts {
    if |s| == 10 && s[4] == '-' && s[7] == '-' && AllDigits(s[..4]) && AllDigits(s[5..7]) && AllDigits(s[8..])
    then Parts(ValueOf(s[..4]), ValueOf(s[5..7]), ValueOf(s[8..]))
    else NoMatch
  }

  lemma MatchReadsIso(d: Date)
    requires Valid(d) && Year(d) <= 9999
    ensures Match(Iso(d)) == Parts(Year(d), MonthOfYear(d), d.day)
  {
    IsoParts(d);
    IsoSlices(d);
  }
}
