/** The historical predictor: the last resort of the handler. It re-dates the middle
    entry of an institution's (unsorted) history into the current year at 08:00 UTC, or
    falls back to the first of March. The clock's year is a parameter; the month and day
    are read from the entry's ISO digits. */
module Predict {
  import opened Strings
  import opened Registry
  import RegistryFacts

  /** What predictHistorically resolves to. */
  datatype Forecast = Forecast(date: string, confidence: real, source: string)

  const PatternConfidence: real := 0.35
  const DefaultConfidence: real := 0.25

  /** `n` in decimal, left-padded with zeros to `width` digits. */
  function Padded(n: nat, width: nat): (s: string)
    ensures |s| == if |Decimal(n)| >= width then |Decimal(n)| else width
    ensures forall i :: 0 <= i < |s| ==> IsDigit(s[i])
    ensures NumeralValue(s) == n
  {
    if |Decimal(n)| >= width then DecimalRoundTrip(n); Decimal(n)
    else
      var s := Padded(n, width - 1);
      LeadingZero(s);
      ['0'] + s
  }

  /** A leading zero does not change the value of a numeral. */
  lemma {:induction false} LeadingZero(s: string)
    requires forall i :: 0 <= i < |s| ==> IsDigit(s[i])
    ensures NumeralValue(['0'] + s) == NumeralValue(s)
  {
    if s != [] {
      assert (['0'] + s)[..|s|] == ['0'] + s[..|s| - 1];
      LeadingZero(s[..|s| - 1]);
    }
  }

  function Pow10(k: nat): nat {
    if k == 0 then 1 else 10 * Pow10(k - 1)
  }

  /** A number below 10^k has at most k digits. */
  lemma {:induction false} DecimalLength(n: nat, k: nat)
    requires 1 <= k && n < Pow10(k)
    ensures |Decimal(n)| <= k
  {
    if n >= 10 {
      DecimalLength(n / 10, k - 1);
    }
  }

  /** The year `Date.UTC` uses: 0 to 99 stand for 1900 to 1999. */
  function UtcYear(year: nat): nat {
    if year <= 99 then 1900 + year else year
  }

  /** The year as toISOString writes it: four digits, or a sign and six digits past 9999. */
  function YearText(year: nat): (s: string)
    ensures year <= 9999 ==> |s| == 4 && (forall i :: 0 <= i < 4 ==> IsDigit(s[i])) && NumeralValue(s) == year
  {
    if year <= 9999 then
      assert Pow10(4) == 10000;
      DecimalLength(year, 4);
      Padded(year, 4)
    else "+" + Padded(year, 6)
  }

  /** `new Date(Date.UTC(year, month, day, 8, 0, 0)).toISOString()`, with the month and day
      given as the two digits each that ISO 8601 writes. */
  function AtEight(year: nat, month: string, day: string): string {
    YearText(UtcYear(year)) + "-" + month + "-" + day + "T08:00:00.000Z"
  }

  /** The history entry the predictor re-dates: the one at index `floor(length / 2)`. */
  function Middle(historic: seq<string>): (s: string)
    requires historic != []
    ensures s in historic
  {
    historic[|historic| / 2]
  }

  /** predictHistorically for a clock year `year`. `None` stands for the RangeError that
      toISOString throws when the chosen entry does not parse as a date. */
  function PredictHistorically(table: seq<Record>, name: string, year: nat): (r: Option<Forecast>)
    ensures r.Some? ==> r.value.confidence < 0.5
    ensures r.Some? ==> (r.value.source == "historical-pattern" <==> Find(table, name).Some? && Find(table, name).value.historic != [])
    ensures r.None? <==> Find(table, name).Some? && Find(table, name).value.historic != []
                         && !DatePrefix(Middle(Find(table, name).value.historic))
  {
    var u := Find(table, name);
    if u.Some? && u.value.historic != [] then
      var d := Middle(u.value.historic);
      if DatePrefix(d) then Some(Forecast(AtEight(year, d[5..7], d[8..10]), PatternConfidence, "historical-pattern"))
      else None
    else Some(Forecast(AtEight(year, "03", "01"), DefaultConfidence, "historical-default"))
  }

  /** For a four-digit clock year the timestamp is that year, the given month and day, and
      08:00 UTC. */
  lemma AtEightShape(year: nat, month: string, day: string)
    requires 100 <= year <= 9999
    requires |month| == 2 && IsDigit(month[0]) && IsDigit(month[1])
    requires |day| == 2 && IsDigit(day[0]) && IsDigit(day[1])
    ensures var t := AtEight(year, month, day);
      DatePrefix(t) && NumeralValue(t[..4]) == year
      && t[5..7] == month && t[8..10] == day && t[10..] == "T08:00:00.000Z"
  {
    var y := YearText(year);
    var t := AtEight(year, month, day);
    assert t == y + "-" + month + "-" + day + "T08:00:00.000Z";
    assert t[..4] == y;
    assert t[5..7] == month;
    assert t[8..10] == day;
  }

  /** With a history, the forecast keeps the middle entry's month and day, takes the clock's
      year (never the next one) and the time 08:00 UTC. */
  lemma PatternForecast(table: seq<Record>, name: string, year: nat)
    requires 100 <= year <= 9999
    requires Find(table, name).Some? && Find(table, name).value.historic != []
    requires DatePrefix(Middle(Find(table, name).value.historic))
    ensures var d := Middle(Find(table, name).value.historic);
      var f := PredictHistorically(table, name, year);
      f.Some? && f.value.confidence == 0.35 && f.value.source == "historical-pattern"
      && DatePrefix(f.value.date) && NumeralValue(f.value.date[..4]) == year
      && f.value.date[5..7] == d[5..7] && f.value.date[8..10] == d[8..10]
      && f.value.date[10..] == "T08:00:00.000Z"
  {
    var d := Middle(Find(table, name).value.historic);
    AtEightShape(year, d[5..7], d[8..10]);
  }

  /** Without a record or a history, the forecast is the first of March of the clock's year
      at 08:00 UTC. */
  lemma DefaultForecast(table: seq<Record>, name: string, year: nat)
    requires 100 <= year <= 9999
    requires Find(table, name).None? || Find(table, name).value.historic == []
    ensures var f := PredictHistorically(table, name, year);
      f.Some? && f.value.confidence == 0.25 && f.value.source == "historical-default"
      && DatePrefix(f.value.date) && NumeralValue(f.value.date[..4]) == year
      && f.value.date[5..7] == "03" && f.value.date[8..10] == "01"
      && f.value.date[10..] == "T08:00:00.000Z"
  {
    AtEightShape(year, "03", "01");
  }

  lemma {:induction false} SeedDateAt(h: seq<string>, k: nat)
    requires AllSeedDates(h) && k < |h|
    ensures SeedDate(h[k])
  {
    if k > 0 {
      SeedDateAt(h[1..], k - 1);
    }
  }

  /** On the seeded table the predictor never throws: every history entry is a date. */
  lemma SeededTableNeverThrows(name: string, year: nat)
    ensures PredictHistorically(Universidades, name, year).Some?
  {
    var u := Find(Universidades, name);
    if u.Some? && u.value.historic != [] {
      var i :| 0 <= i < |Universidades| && Universidades[i] == u.value && FirstMatch(Universidades, name, i);
      RegistryFacts.SeedDatesHold();
      SeedDateAt(u.value.historic, |u.value.historic| / 2);
    }
  }

  /** UNI's history lists the 15th and the 18th of March; the middle entry is the 18th, and
      it is re-dated into whatever year the clock gives, however the name is capitalised. */
  lemma UniExample(name: string, year: nat)
    requires SameIgnoringCase(name, "UNI")
    ensures PredictHistorically(Universidades, name, year)
         == Some(Forecast(AtEight(year, "03", "18"), 0.35, "historical-pattern"))
  {
    FindUni(name);
    UniMiddle();
  }

  lemma UniMiddle()
    ensures Uni.historic != [] && DatePrefix(Middle(Uni.historic))
    ensures Middle(Uni.historic)[5..7] == "03" && Middle(Uni.historic)[8..10] == "18"
  {
    var d := "2026-03-18T08:00:00Z";
    assert Uni.historic == ["2026-03-15T08:00:00Z", d];
    assert d[5..7] == [d[5], d[6]] == "03";
    assert d[8..10] == [d[8], d[9]] == "18";
  }

  lemma FindUni(name: string)
    requires SameIgnoringCase(name, "UNI")
    ensures Find(Universidades, name) == Some(Uni)
  {
    RegistryFacts.NamesAreDistinct();
    RegistryFacts.Placed();
    FindUnique(Universidades, name, 4);
  }
}
