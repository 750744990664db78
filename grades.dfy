/** `extract_grade_data`: reading the trade-grade history out of the grade
    card's table. The table is given as the texts of its cells, row by row;
    a missing table (the lookup raising) is `None`. */
module Grades {
  import opened Py

  /** The cell texts of one `<tr>`. */
  type Row = seq<string>
  type Table = seq<Row>

  /** Title rows at the top of the table. */
  const HeaderRows: nat := 3
  /** Rows with fewer cells are skipped. */
  const MinCells: nat := 3

  /** One period of the history: the dict with keys 年月, 民國年, 西元年,
      進口級距 and 出口級距. */
  datatype GradeRecord = GradeRecord(
    yearMonth: string,    // 年月
    yearTw: string,       // 民國年
    yearAd: string,       // 西元年
    importGrade: string,  // 進口級距
    exportGrade: string)  // 出口級距

  /** Length of the run of digits that starts at `i`. */
  function DigitRun(s: string, i: nat): (n: nat)
    requires i <= |s|
    ensures i + n <= |s|
    ensures AllDigits(s[i..i + n])
    ensures i + n < |s| ==> !IsDigit(s[i + n])
    decreases |s| - i
  {
    if i < |s| && IsDigit(s[i]) then
      var n := DigitRun(s, i + 1);
      assert s[i..i + 1 + n] == [s[i]] + s[i + 1..i + 1 + n];
      1 + n
    else 0
  }

  /** The pattern `(\d+)年` matches at `i`: a digit starts there and the run
      of digits it begins is followed by 年. (A shorter run would be followed
      by a digit, so backtracking cannot help.) */
  predicate YearMarkAt(s: string, i: nat)
    requires i <= |s|
  {
    i < |s| && IsDigit(s[i]) && i + DigitRun(s, i) < |s| && s[i + DigitRun(s, i)] == '年'
  }

  /** `re.search` tries the start positions from left to right. */
  function FindYearMark(s: string, from: nat): (p: nat)
    requires from <= |s|
    ensures from <= p <= |s|
    ensures p < |s| ==> YearMarkAt(s, p)
    ensures forall q :: from <= q < p ==> !YearMarkAt(s, q)
    decreases |s| - from
  {
    if from == |s| then |s|
    else if YearMarkAt(s, from) then from
    else FindYearMark(s, from + 1)
  }

  /** `re.search(r"(\d+)年", s).group(1)`, or "" when there is no match. */
  function LocalYear(s: string): (y: string)
    ensures AllDigits(y)
  {
    var p := FindYearMark(s, 0);
    if p == |s| then "" else s[p..p + DigitRun(s, p)]
  }

  /** A digit immediately followed by 年 at `k`. */
  predicate MarkEnd(s: string, k: int) {
    0 <= k && k + 1 < |s| && IsDigit(s[k]) && s[k + 1] == '年'
  }

  /** A digit in front of a run lengthens it by one. */
  lemma {:induction false} DigitRunStep(s: string, i: nat)
    requires 0 < i <= |s|
    ensures IsDigit(s[i - 1]) ==> DigitRun(s, i - 1) == 1 + DigitRun(s, i)
  {
  }

  /** A run of digits stops at the first non-digit. */
  lemma {:induction false} DigitRunBound(s: string, i: nat, j: nat)
    requires i <= j < |s| && !IsDigit(s[j])
    ensures i + DigitRun(s, i) <= j
    decreases j - i
  {
    if i < j && IsDigit(s[i]) {
      DigitRunBound(s, i + 1, j);
    }
  }

  /** A run of digits from `i` that reaches `k` goes at least that far. */
  lemma {:induction false} DigitRunReaches(s: string, i: nat, k: nat)
    requires i <= k < |s| && AllDigits(s[i..k + 1])
    ensures i + DigitRun(s, i) > k
    decreases k - i
  {
    assert IsDigit(s[i]);
    if i < k {
      assert s[i + 1..k + 1] == s[i..k + 1][1..];
      DigitRunReaches(s, i + 1, k);
    }
  }

  /** The first position of the run of digits that ends at `k`. */
  lemma RunStart(s: string, k: nat) returns (q: nat)
    requires k < |s| && IsDigit(s[k])
    ensures q <= k && AllDigits(s[q..k + 1])
    ensures q == 0 || !IsDigit(s[q - 1])
  {
    q := k;
    while q > 0 && IsDigit(s[q - 1])
      invariant q <= k && AllDigits(s[q..k + 1])
      decreases q
    {
      assert s[q - 1..k + 1] == [s[q - 1]] + s[q..k + 1];
      q := q - 1;
    }
  }

  /** Where `(\d+)年` matches, the last digit of the run is followed by 年. */
  lemma MatchEnd(s: string, p: nat)
    requires p <= |s|
    ensures YearMarkAt(s, p) ==> MarkEnd(s, p + DigitRun(s, p) - 1)
  {
    var n := DigitRun(s, p);
    if YearMarkAt(s, p) {
      assert s[p + n - 1] == s[p..p + n][n - 1];
    }
  }

  /** The leftmost match starts no later than any match. */
  lemma FirstMatchBefore(s: string, q: nat)
    requires q < |s| && YearMarkAt(s, q)
    ensures FindYearMark(s, 0) <= q
    ensures YearMarkAt(s, FindYearMark(s, 0))
  {
  }

  /** A match that starts no later than the first digit-年 pair ends there. */
  lemma MatchEndsAtFirstMark(s: string, k: nat, p: nat)
    requires MarkEnd(s, k)
    requires forall j :: 0 <= j < k ==> !MarkEnd(s, j)
    requires p <= k && YearMarkAt(s, p)
    ensures p + DigitRun(s, p) == k + 1
  {
    MatchEnd(s, p);
    DigitRunBound(s, p, k + 1);
  }

  /** The leftmost match is not preceded by a digit: that digit would have
      started an earlier match. */
  lemma LeftmostMatchIsWholeRun(s: string)
    requires FindYearMark(s, 0) < |s|
    ensures var p := FindYearMark(s, 0); p == 0 || !IsDigit(s[p - 1])
  {
    var p := FindYearMark(s, 0);
    var n := DigitRun(s, p);
    assert p + n < |s| && s[p + n] == '年';
    if p > 0 {
      DigitRunStep(s, p);
      assert IsDigit(s[p - 1]) ==> (p - 1) + DigitRun(s, p - 1) == p + n;
      assert IsDigit(s[p - 1]) ==> YearMarkAt(s, p - 1);
    }
  }

  /** The 民國年 capture, stated on the row text: when `k` is the first digit
      immediately followed by 年, the capture is the whole run of digits that
      ends at `k`. */
  lemma LocalYearFound(s: string, k: nat)
    requires MarkEnd(s, k)
    requires forall j :: 0 <= j < k ==> !MarkEnd(s, j)
    ensures var y := LocalYear(s);
      && 0 < |y| <= k + 1 && AllDigits(y)
      && y == s[k + 1 - |y|..k + 1]
      && (|y| == k + 1 || !IsDigit(s[k - |y|]))
  {
    // Some start position matches: the first digit of the run ending at k.
    var q := RunStart(s, k);
    DigitRunReaches(s, q, k);
    DigitRunBound(s, q, k + 1);
    assert YearMarkAt(s, q);
    FirstMatchBefore(s, q);
    var p := FindYearMark(s, 0);
    MatchEndsAtFirstMark(s, k, p);
    LeftmostMatchIsWholeRun(s);
    assert LocalYear(s) == s[p..k + 1];
  }

  /** No digit immediately followed by 年: the 民國年 capture is empty. */
  lemma LocalYearAbsent(s: string)
    requires forall k :: 0 <= k < |s| ==> !MarkEnd(s, k)
    ensures LocalYear(s) == ""
  {
    MatchEnd(s, FindYearMark(s, 0));
  }

  /** The pattern `(\d{4})` matches at `i`. */
  predicate FourDigitsAt(s: string, i: int) {
    0 <= i && i + 4 <= |s| && AllDigits(s[i..i + 4])
  }

  function FindFourDigits(s: string, from: nat): (p: nat)
    requires from <= |s|
    ensures from <= p <= |s|
    ensures p < |s| ==> FourDigitsAt(s, p)
    ensures forall q :: from <= q < p ==> !FourDigitsAt(s, q)
    decreases |s| - from
  {
    if from == |s| then |s|
    else if FourDigitsAt(s, from) then from
    else FindFourDigits(s, from + 1)
  }

  /** `re.search(r"(\d{4})", s).group(1)`, or "" when there is no match. */
  function WesternYear(s: string): (y: string)
    ensures |y| == 0 || (|y| == 4 && AllDigits(y))
  {
    var p := FindFourDigits(s, 0);
    if p == |s| then "" else s[p..p + 4]
  }

  /** The 西元年 capture is the leftmost four consecutive digits, and empty
      exactly when there are none. */
  lemma WesternYearSpec(s: string)
    ensures var y := WesternYear(s);
      && (y == "" <==> forall i :: 0 <= i <= |s| ==> !FourDigitsAt(s, i))
      && (y != "" ==> exists p :: FourDigitsAt(s, p) && y == s[p..p + 4] && forall q :: 0 <= q < p ==> !FourDigitsAt(s, q))
  {
    var p := FindFourDigits(s, 0);
    if p < |s| {
      assert FourDigitsAt(s, p);
    }
  }

  /** `txt = cell.strip().split("\n")` and `tw, en = txt[0], txt[1] if
      len(txt) > 1 else ""` (by Python's precedence only `en` is
      conditional). */
  function PeriodParts(cell: string): (string, string) {
    var txt := Split(Strip(cell), '\n');
    (txt[0], if |txt| > 1 then txt[1] else "")
  }

  /** The two parts read back from the stripped cell: the local-calendar line
      and, when there is a line break, the line after it. */
  lemma PeriodPartsSpec(cell: string)
    ensures var t, tw, en := Strip(cell), PeriodParts(cell).0, PeriodParts(cell).1;
      && '\n' !in tw && '\n' !in en
      && ('\n' !in t ==> tw == t && en == "")
      && ('\n' in t ==> |tw| + 1 + |en| <= |t| && t[..|tw| + 1 + |en|] == tw + "\n" + en)
      && ('\n' in t ==> |tw| + 1 + |en| == |t| || t[|tw| + 1 + |en|] == '\n')
  {
    SplitJoin(Strip(cell), '\n');
    SplitFirstTwo(Strip(cell), '\n');
  }

  /** One kept row: the body of the `if len(td) >= 3` branch. */
  function ParseGradeRow(cells: Row): (g: GradeRecord)
    requires |cells| >= MinCells
    ensures g.yearTw == "" || AllDigits(g.yearTw)
    ensures |g.yearAd| == 0 || (|g.yearAd| == 4 && AllDigits(g.yearAd))
  {
    var (tw, en) := PeriodParts(cells[0]);
    GradeRecord(tw + "/" + en, LocalYear(tw), WesternYear(en), Strip(cells[1]), Strip(cells[2]))
  }

  predicate HasCells(r: Row) {
    |r| >= MinCells
  }

  /** The kept rows among the first `n`: past the title rows, with enough
      cells, in table order. */
  function KeptBelow(rows: Table, n: nat): seq<nat>
    requires n <= |rows|
  {
    SelectIndices(rows, HasCells, if n < HeaderRows then n else HeaderRows, n)
  }

  lemma KeptBelowStep(rows: Table, n: nat)
    requires HeaderRows < n <= |rows|
    ensures KeptBelow(rows, n) == KeptBelow(rows, n - 1) + (if HasCells(rows[n - 1]) then [n - 1] else [])
  {
  }

  /** The rows that yield a record. */
  function KeptRows(rows: Table): (ks: seq<nat>)
    ensures forall k :: 0 <= k < |ks| ==> HeaderRows <= ks[k] < |rows| && |rows[ks[k]]| >= MinCells
    ensures forall k, l :: 0 <= k < l < |ks| ==> ks[k] < ks[l]
    ensures forall j :: HeaderRows <= j < |rows| && |rows[j]| >= MinCells ==> j in ks
  {
    KeptBelow(rows, |rows|)
  }

  /** One record per index of `ks`, read from the row it names. */
  predicate RecordsOf(rows: Table, ks: seq<nat>, grades: seq<GradeRecord>) {
    && |grades| == |ks|
    && forall k :: 0 <= k < |ks| ==> ks[k] < |rows| && HasCells(rows[ks[k]]) && grades[k] == ParseGradeRow(rows[ks[k]])
  }

  lemma RecordsOfAppend(rows: Table, ks: seq<nat>, grades: seq<GradeRecord>, j: nat)
    requires RecordsOf(rows, ks, grades)
    requires j < |rows| && HasCells(rows[j])
    ensures RecordsOf(rows, ks + [j], grades + [ParseGradeRow(rows[j])])
  {
  }

  /** The records for the first `n` rows of the table. */
  function GradeRows(rows: Table, n: nat): (grades: seq<GradeRecord>)
    requires n <= |rows|
    ensures RecordsOf(rows, KeptBelow(rows, n), grades)
  {
    if n <= HeaderRows then []
    else
      KeptBelowStep(rows, n);
      var front := GradeRows(rows, n - 1);
      if HasCells(rows[n - 1]) then
        RecordsOfAppend(rows, KeptBelow(rows, n - 1), front, n - 1);
        front + [ParseGradeRow(rows[n - 1])]
      else front
  }

  lemma GradeRowsStep(rows: Table, n: nat)
    requires n < |rows|
    ensures GradeRows(rows, n + 1) == GradeRows(rows, n) + (if n >= HeaderRows && HasCells(rows[n]) then [ParseGradeRow(rows[n])] else [])
  {
  }

  /** What `extract_grade_data` returns: one record per kept row, in table
      order, and nothing when the table is missing. */
  function GradeTable(table: Option<Table>): (grades: seq<GradeRecord>)
    ensures table.None? ==> grades == []
    ensures table.Some? ==> RecordsOf(table.value, KeptRows(table.value), grades)
  {
    match table
    case None => []
    case Some(rows) => GradeRows(rows, |rows|)
  }

  /** A worked period cell, "113年\n2024", splits into its two lines. */
  lemma ExamplePeriod(cell: string)
    requires cell == "113年\n2024"
    ensures PeriodParts(cell) == ("113年", "2024")
  {
    StripUnchanged(cell);
    var tw: string, en: string := "113年", "2024";
    assert cell == tw + ['\n'] + en;
    SplitAtFirst(tw, en, '\n');
    SplitNoSep(en, '\n');
  }

  /** "113年" gives 民國年 113. */
  lemma ExampleLocalYear(tw: string)
    requires tw == "113年"
    ensures LocalYear(tw) == "113"
  {
    assert DigitRun(tw, 3) == 0;
    assert DigitRun(tw, 2) == 1;
    assert DigitRun(tw, 1) == 2;
    assert DigitRun(tw, 0) == 3;
    assert YearMarkAt(tw, 0);
  }

  /** "2024" gives 西元年 2024. */
  lemma ExampleWesternYear(en: string)
    requires en == "2024"
    ensures WesternYear(en) == "2024"
  {
    assert FourDigitsAt(en, 0);
  }

  /** A worked example: below three title rows, a row with three cells
      gives a record and a row with one cell gives none. */
  lemma GradeTableExample(h: Row, full: Row, short: Row)
    requires |full| == 3 && |short| == 1
    ensures GradeTable(Some([h, h, h, full, short])) == [ParseGradeRow(full)]
  {
    var rows := [h, h, h, full, short];
    GradeRowsStep(rows, 3);
    GradeRowsStep(rows, 4);
  }

  /** `extract_grade_data`: skip the title rows, then append one record per
      row with at least three cells. */
  method ExtractGradeData(table: Option<Table>) returns (grades: seq<GradeRecord>)
    ensures grades == GradeTable(table)
  {
    match table
    case None =>
      grades := [];
    case Some(rows) =>
      grades := [];
      var start := if |rows| < HeaderRows then |rows| else HeaderRows;
      for j := start to |rows|
        invariant grades == GradeRows(rows, j)
      {
        var td := rows[j];
        if |td| >= MinCells {
          grades := grades + [ParseGradeRow(td)];
        }
        GradeRowsStep(rows, j);
      }
  }
}
