/** The yearly aggregation of `rag/final/collectors/kipris_parser.py`: a
    spreadsheet cell such as `2019(12)` names a year and a count; the counts
    of one column are summed per year and listed by ascending year.

    A table is a map from column name to its cells, a cell being missing
    (`None`) or its text. */
module KiprisParser {
  import opened Wrappers
  import opened Text
  import opened Schemas

  // ---------------------------------------------------------------------
  // The pattern `(19\d{2}|20\d{2})\((\d+)\)`
  // ---------------------------------------------------------------------

  /** `19` or `20` at position i. */
  predicate CenturyAt(s: string, i: nat)
    requires i + 2 <= |s|
  {
    (s[i] == '1' && s[i + 1] == '9') || (s[i] == '2' && s[i + 1] == '0')
  }

  /** What the regular expression accepts at position i with an n-digit
      count: two century digits, two more digits, `(`, n >= 1 digits, `)`.
      `\d` is taken as the ASCII digits. */
  predicate PatternAt(s: string, i: nat, n: nat)
  {
    i + 6 + n <= |s| && n >= 1 &&
    CenturyAt(s, i) && IsDigit(s[i + 2]) && IsDigit(s[i + 3]) && s[i + 4] == '(' &&
    (forall k :: i + 5 <= k < i + 5 + n ==> IsDigit(s[k])) &&
    s[i + 5 + n] == ')'
  }

  /** The length of the run of digits starting at j. */
  function DigitRun(s: string, j: nat): (n: nat)
    requires j <= |s|
    ensures j + n <= |s|
    ensures forall k :: j <= k < j + n ==> IsDigit(s[k])
    ensures j + n == |s| || !IsDigit(s[j + n])
    decreases |s| - j
  {
    if j < |s| && IsDigit(s[j]) then 1 + DigitRun(s, j + 1) else 0
  }

  /** A digit run ended by a non-digit is the whole run. */
  lemma {:induction false} DigitRunExact(s: string, j: nat, n: nat)
    requires j + n <= |s|
    requires forall k :: j <= k < j + n ==> IsDigit(s[k])
    requires j + n == |s| || !IsDigit(s[j + n])
    ensures DigitRun(s, j) == n
    decreases n
  {
    if n > 0 {
      DigitRunExact(s, j + 1, n - 1);
    }
  }

  /** The scanner at one position: the greedy count run must be closed by `)`. */
  function ScanAt(s: string, i: nat): Option<nat>
  {
    if i + 5 <= |s| && CenturyAt(s, i) && IsDigit(s[i + 2]) && IsDigit(s[i + 3]) && s[i + 4] == '(' then
      var n := DigitRun(s, i + 5);
      if n >= 1 && i + 5 + n < |s| && s[i + 5 + n] == ')' then Some(n) else None
    else None
  }

  /** The scanner finds exactly the matches of the pattern: greediness loses
      nothing, since `)` is not a digit. */
  lemma ScanAtIsPattern(s: string, i: nat)
    ensures ScanAt(s, i).Some? ==> PatternAt(s, i, ScanAt(s, i).value)
    ensures forall n: nat :: PatternAt(s, i, n) ==> ScanAt(s, i) == Some(n)
  {
    forall n: nat | PatternAt(s, i, n) ensures ScanAt(s, i) == Some(n) {
      DigitRunExact(s, i + 5, n);
    }
  }

  /** `search` from position i: the leftmost match, as its start and count
      length. */
  function SearchFrom(s: string, i: nat): (r: Option<(nat, nat)>)
    requires i <= |s|
    ensures r.Some? ==> i <= r.value.0 && PatternAt(s, r.value.0, r.value.1)
    ensures r.Some? ==> forall j: nat, n: nat :: i <= j < r.value.0 ==> !PatternAt(s, j, n)
    ensures r.None? ==> forall j: nat, n: nat :: i <= j ==> !PatternAt(s, j, n)
    decreases |s| - i
  {
    if i == |s| then None
    else
      ScanAtIsPattern(s, i);
      match ScanAt(s, i)
      case Some(n) => Some((i, n))
      case None => SearchFrom(s, i + 1)
  }

  /** The year and the count of a match at i. */
  function YearCountAt(s: string, i: nat, n: nat): (nat, nat)
    requires PatternAt(s, i, n)
  {
    assert AllDigits(s[i..i + 4]);
    assert AllDigits(s[i + 5..i + 5 + n]);
    (DigitsValue(s[i..i + 4]), DigitsValue(s[i + 5..i + 5 + n]))
  }

  lemma FourDigits(t: string)
    requires |t| == 4 && AllDigits(t)
    ensures DigitsValue(t) == ((((t[0] as int - '0' as int) * 10 + (t[1] as int - '0' as int)) * 10
                               + (t[2] as int - '0' as int)) * 10 + (t[3] as int - '0' as int))
  {
    var t1, t2, t3 := t[..1], t[..2], t[..3];
    assert t3[..2] == t2 && t2[..1] == t1 && t1[..0] == [];
    assert DigitsValue(t1) == t[0] as int - '0' as int;
    assert DigitsValue(t2) == DigitsValue(t1) * 10 + (t[1] as int - '0' as int);
    assert DigitsValue(t3) == DigitsValue(t2) * 10 + (t[2] as int - '0' as int);
  }

  /** The year of a match lies in 1900..2099. */
  lemma YearInRange(s: string, i: nat, n: nat)
    requires PatternAt(s, i, n)
    ensures 1900 <= YearCountAt(s, i, n).0 <= 2099
  {
    var t := s[i..i + 4];
    FourDigits(t);
  }

  /** `_parse_year_count`: the year and count of the leftmost match, or
      nothing for a missing cell or a cell without a match. */
  function ParseYearCount(cell: Option<string>): (r: Option<(nat, nat)>)
    ensures cell.None? ==> r.None?
    ensures r.Some? ==> 1900 <= r.value.0 <= 2099
    ensures cell.Some? ==> (r.None? <==> forall j: nat, n: nat :: !PatternAt(cell.value, j, n))
  {
    match cell
    case None => None
    case Some(s) =>
      match SearchFrom(s, 0)
      case None => None
      case Some((i, n)) =>
        YearInRange(s, i, n);
        Some(YearCountAt(s, i, n))
  }

  /** The parse is the leftmost match of the pattern. */
  lemma ParseYearCountLeftmost(s: string, i: nat, n: nat)
    requires PatternAt(s, i, n)
    requires forall j: nat, m: nat :: j < i ==> !PatternAt(s, j, m)
    ensures ParseYearCount(Some(s)) == Some(YearCountAt(s, i, n))
  {
    var r := SearchFrom(s, 0);
    assert r.Some?;
    var (p, q) := r.value;
    assert p == i;
    ScanAtIsPattern(s, i);
  }

  // ---------------------------------------------------------------------
  // Sum by year
  // ---------------------------------------------------------------------

  /** What one cell adds to the total of year y. */
  function Contribution(c: Option<string>, y: int): nat
  {
    var r := ParseYearCount(c);
    if r.Some? && r.value.0 == y then r.value.1 else 0
  }

  /** The count a cell adds overall. */
  function CellCount(c: Option<string>): nat
  {
    var r := ParseYearCount(c);
    if r.Some? then r.value.1 else 0
  }

  /** The sum of the counts of the cells whose year is y. */
  function YearTotal(cells: seq<Option<string>>, y: int): nat
  {
    if cells == [] then 0
    else YearTotal(cells[..|cells| - 1], y) + Contribution(cells[|cells| - 1], y)
  }

  /** The years of the cells that parse. */
  function YearsOf(cells: seq<Option<string>>): set<int>
  {
    if cells == [] then {}
    else
      var r := ParseYearCount(cells[|cells| - 1]);
      YearsOf(cells[..|cells| - 1]) + (if r.Some? then {r.value.0} else {})
  }

  /** The sum of the counts of all cells that parse. */
  function TotalCount(cells: seq<Option<string>>): nat
  {
    if cells == [] then 0
    else TotalCount(cells[..|cells| - 1]) + CellCount(cells[|cells| - 1])
  }

  predicate StrictlyAscending(ys: seq<int>)
  {
    forall a, b :: 0 <= a < b < |ys| ==> ys[a] < ys[b]
  }

  /** The series of a column: its years ascending and exactly the parsed
      years, each with the total of its cells. */
  ghost predicate IsYearSeriesOf(series: YearSeries, cells: seq<Option<string>>)
  {
    StrictlyAscending(series.years) &&
    |series.valuesInt| == |series.years| &&
    (forall y :: y in series.years <==> y in YearsOf(cells)) &&
    forall k :: 0 <= k < |series.years| ==> series.valuesInt[k] == YearTotal(cells, series.years[k])
  }

  /** The series built for `column`: empty for a missing column. */
  ghost predicate IsSeriesOfColumn(series: YearSeries, table: map<string, seq<Option<string>>>, column: string)
  {
    if column in table then IsYearSeriesOf(series, table[column])
    else series == YearSeries([], [])
  }

  /** `sorted(keys)`, by repeatedly taking the least remaining key. */
  method SortedYears(keys: set<int>) returns (ys: seq<int>)
    ensures StrictlyAscending(ys)
    ensures forall y :: y in ys <==> y in keys
  {
    ys := [];
    var rest := keys;
    while rest != {}
      invariant rest <= keys
      invariant forall y :: y in keys <==> y in ys || y in rest
      invariant StrictlyAscending(ys)
      invariant forall a, b :: a in ys && b in rest ==> a < b
      decreases |rest|
    {
      var m := Least(rest);
      forall k | 0 <= k < |ys| ensures ys[k] < m {
        assert ys[k] in ys;
      }
      ys := ys + [m];
      rest := rest - {m};
    }
  }

  lemma NonEmptyHasElement(s: set<int>)
    requires s != {}
    ensures exists x :: x in s
  {
    if forall x :: x !in s {
      assert false;
    }
  }

  method Least(s: set<int>) returns (m: int)
    requires s != {}
    ensures m in s && forall y :: y in s ==> m <= y
  {
    NonEmptyHasElement(s);
    m :| m in s;
    var rest := s - {m};
    while rest != {}
      invariant rest <= s && m in s
      invariant forall y :: y in s && y !in rest ==> m <= y
      decreases |rest|
    {
      NonEmptyHasElement(rest);
      var x :| x in rest;
      if x < m {
        m := x;
      }
      rest := rest - {x};
    }
  }

  /** `build_year_series_from_column`. */
  method BuildYearSeriesFromColumn(table: map<string, seq<Option<string>>>, column: string) returns (series: YearSeries)
    ensures IsSeriesOfColumn(series, table, column)
  {
    if column !in table {
      return YearSeries([], []);
    }
    var cells := table[column];
    var yearSum: map<int, nat> := map[];
    for i := 0 to |cells|
      invariant yearSum.Keys == YearsOf(cells[..i])
      invariant forall y :: y in yearSum ==> yearSum[y] == YearTotal(cells[..i], y)
    {
      assert cells[..i + 1][..i] == cells[..i];
      var parsed := ParseYearCount(cells[i]);
      if parsed.Some? {
        var (year, count) := parsed.value;
        var sofar := if year in yearSum then yearSum[year] else 0;
        if year !in yearSum {
          YearTotalAbsent(cells[..i], year);
        }
        yearSum := yearSum[year := sofar + count];
      }
    }
    assert cells[..|cells|] == cells;
    var years := SortedYears(yearSum.Keys);
    forall k | 0 <= k < |years| ensures years[k] in yearSum {
      assert years[k] in years;
    }
    var values := seq(|years|, k requires 0 <= k < |years| => yearSum[years[k]]);
    series := YearSeries(years, values);
  }

  /** A year no cell parses to has total zero. */
  lemma {:induction false} YearTotalAbsent(cells: seq<Option<string>>, y: int)
    requires y !in YearsOf(cells)
    ensures YearTotal(cells, y) == 0
  {
    if cells != [] {
      YearTotalAbsent(cells[..|cells| - 1], y);
    }
  }

  /** `build_kipris_year_aggregates` on an already read table: the
      application, publication and registration year columns. */
  method BuildKiprisYearAggregates(table: map<string, seq<Option<string>>>) returns (agg: KiprisYearAggregates)
    ensures IsSeriesOfColumn(agg.application, table, "출원년도")
    ensures IsSeriesOfColumn(agg.publication, table, "공개년도")
    ensures IsSeriesOfColumn(agg.registration, table, "등록년도")
  {
    var application := BuildYearSeriesFromColumn(table, "출원년도");
    var publication := BuildYearSeriesFromColumn(table, "공개년도");
    var registration := BuildYearSeriesFromColumn(table, "등록년도");
    agg := KiprisYearAggregates(application, publication, registration);
  }

  // ---------------------------------------------------------------------
  // Nothing is lost: the series sums to the total of the parsed counts
  // ---------------------------------------------------------------------

  function Sum(xs: seq<int>): int
  {
    if xs == [] then 0 else xs[0] + Sum(xs[1..])
  }

  /** The totals of the years ys, added up. */
  function SumTotals(ys: seq<int>, cells: seq<Option<string>>): nat
  {
    if ys == [] then 0 else YearTotal(cells, ys[0]) + SumTotals(ys[1..], cells)
  }

  /** What one cell adds to the years ys, added up. */
  function SumContribution(ys: seq<int>, c: Option<string>): nat
  {
    if ys == [] then 0 else Contribution(c, ys[0]) + SumContribution(ys[1..], c)
  }

  lemma {:induction false} SumTotalsSplit(ys: seq<int>, pre: seq<Option<string>>, c: Option<string>)
    ensures SumTotals(ys, pre + [c]) == SumTotals(ys, pre) + SumContribution(ys, c)
  {
    if ys != [] {
      assert (pre + [c])[..|pre|] == pre;
      SumTotalsSplit(ys[1..], pre, c);
    }
  }

  lemma {:induction false} SumContributionDistinct(ys: seq<int>, c: Option<string>)
    requires StrictlyAscending(ys)
    ensures SumContribution(ys, c) ==
      (if ParseYearCount(c).Some? && ParseYearCount(c).value.0 in ys then CellCount(c) else 0)
  {
    if ys != [] {
      assert StrictlyAscending(ys[1..]);
      SumContributionDistinct(ys[1..], c);
      if ParseYearCount(c).Some? && ys[0] == ParseYearCount(c).value.0 {
        assert ParseYearCount(c).value.0 !in ys[1..];
      }
    }
  }

  /** Adding up the totals of a set of distinct years that covers every
      parsed year gives the total of all parsed counts. */
  lemma {:induction false} SumTotalsCovers(ys: seq<int>, cells: seq<Option<string>>)
    requires StrictlyAscending(ys)
    requires forall y :: y in YearsOf(cells) ==> y in ys
    ensures SumTotals(ys, cells) == TotalCount(cells)
  {
    if cells == [] {
      SumTotalsEmpty(ys);
    } else {
      var pre := cells[..|cells| - 1];
      var c := cells[|cells| - 1];
      assert cells == pre + [c];
      SumTotalsCovers(ys, pre);
      SumTotalsSplit(ys, pre, c);
      SumContributionDistinct(ys, c);
    }
  }

  lemma {:induction false} SumTotalsEmpty(ys: seq<int>)
    ensures SumTotals(ys, []) == 0
  {
    if ys != [] {
      SumTotalsEmpty(ys[1..]);
    }
  }

  lemma {:induction false} SumOfTotals(values: seq<int>, ys: seq<int>, cells: seq<Option<string>>)
    requires |values| == |ys|
    requires forall k :: 0 <= k < |ys| ==> values[k] == YearTotal(cells, ys[k])
    ensures Sum(values) == SumTotals(ys, cells)
  {
    if ys != [] {
      SumOfTotals(values[1..], ys[1..], cells);
    }
  }

  /** Unparseable cells are skipped and nothing else is dropped: the
      yearly values add up to the sum of all parsed counts. */
  lemma SeriesSumsCounts(series: YearSeries, cells: seq<Option<string>>)
    requires IsYearSeriesOf(series, cells)
    ensures Sum(series.valuesInt) == TotalCount(cells)
  {
    SumOfTotals(series.valuesInt, series.years, cells);
    SumTotalsCovers(series.years, cells);
  }
}
