/** The second half of `make_report`: the rows of the CSV report, built from
    the score matrix and the two totals. The file itself is not modelled; the
    report is the sequence of its rows, each a sequence of fields. */
module Report {
  import opened Outcomes
  import opened Dicts
  import opened League
  import opened Scoring
  import opened Ranking

  /** One field of a report row. */
  datatype Cell = Text(text: string) | Count(n: int) | Score(x: real)

  /** One row of the report; the empty row is a blank line. */
  type Line = seq<Cell>

  /** `total_scores` as the initialisation loops leave it. */
  function ZeroMatrix(names: seq<string>): (total: Matrix)
    ensures forall p :: p in total <==> p.0 in names && p.1 in names
    ensures forall p :: p in total ==> total[p] == 0.0
  {
    map l, r | l in names && r in names :: (l, r) := 0.0
  }

  lemma IsZeroMatrix(total: Matrix, names: seq<string>)
    requires forall p :: p in total <==> p.0 in names && p.1 in names
    requires forall p :: p in total ==> total[p] == 0.0
    ensures total == ZeroMatrix(names)
  {
    assert total.Keys == ZeroMatrix(names).Keys;
  }

  /** Every record is between two of the names, and its histories can be read
      side by side. */
  ghost predicate RecordsFor(names: seq<string>, records: Records) {
    Valid(records) &&
    forall p :: p in records.m ==> p.0 in names && p.1 in names && |records.m[p].0| <= |records.m[p].1|
  }

  lemma RecordsScorable(names: seq<string>, records: Records)
    requires RecordsFor(names, records)
    ensures Scorable(ZeroMatrix(names), records.keys, records.m)
  {
    forall i | 0 <= i < |records.keys| ensures records.keys[i] in records.m {
      assert records.keys[i] in records.keys;
    }
  }

  /** `obtained_scores` and `given_scores` after the summing loops. */
  function Summed(total: Matrix, names: seq<string>): (Totals, Totals)
    requires Covers(total, names, names)
  {
    SumPass(total, names, names, (FromKeys(names, 0.0), FromKeys(names, 0.0)))
  }

  /** The two totals are well-formed dictionaries keyed by the names. */
  lemma SummedValid(total: Matrix, names: seq<string>)
    requires Covers(total, names, names)
    ensures Valid(Summed(total, names).0) && Valid(Summed(total, names).1)
    ensures forall s :: s in Summed(total, names).0.m <==> s in names
    ensures forall s :: s in Summed(total, names).1.m <==> s in names
  {
    var zero := FromKeys(names, 0.0);
    SumPassValid(total, names, names, (zero, zero));
  }

  /** obtained[s] is the ObtainedSum and given[s] the GivenSum of s. */
  lemma SummedValues(total: Matrix, names: seq<string>, s: string)
    requires Covers(total, names, names) && s in names
    ensures s in Summed(total, names).0.m && s in Summed(total, names).1.m
    ensures Summed(total, names).0.m[s] == ObtainedSum(total, names, names, s)
    ensures Summed(total, names).1.m[s] == GivenSum(total, names, names, s)
  {
    var zero := FromKeys(names, 0.0);
    SumPassAdds(total, names, names, (zero, zero));
  }

  /** The obtained totals and the given totals add up to the same amount. */
  lemma SummedBalance(total: Matrix, names: seq<string>)
    requires Covers(total, names, names)
    ensures SumValues(Summed(total, names).0) == SumValues(Summed(total, names).1)
  {
    var zero := FromKeys(names, 0.0);
    SumPassBalance(total, names, names, (zero, zero));
    FromKeysSumsToZero(names);
  }

  /** With distinct names, obtained[s] is row s of the matrix and given[s] is
      column s. */
  lemma SummedRowsAndColumns(total: Matrix, names: seq<string>, s: string)
    requires Covers(total, names, names) && Distinct(names) && s in names
    ensures Summed(total, names).0.m[s] == RowSum(total, s, names)
    ensures Summed(total, names).1.m[s] == ColSum(total, s, names)
  {
    SummedValues(total, names, s);
    RowAndColumnSums(total, names, s);
  }

  lemma ValueListed(d: Totals, k: string)
    requires Valid(d) && k in d.m
    ensures d.m[k] in Values(d)
  {
    var i :| 0 <= i < |d.keys| && d.keys[i] == k;
    assert Values(d)[i] == d.m[k];
  }

  /** The score-table rank of s's total among all the dictionary's totals. */
  function RankOf(d: Totals, s: string): nat
    requires Valid(d) && s in d.m
  {
    ValueListed(d, s);
    CompetitionRank(Values(d), d.m[s])
  }

  /** The rows of the file table for the first i keys. */
  function FileLines(strategies: Dict<string, string>, i: nat): seq<Line>
    requires Valid(strategies) && i <= |strategies.keys|
  {
    if i == 0 then []
    else
      var k := strategies.keys[i - 1];
      FileLines(strategies, i - 1) + [[Text(k), Text(strategies.m[k])]]
  }

  function FileSection(strategies: Dict<string, string>): seq<Line>
    requires Valid(strategies)
  {
    [[Text("file"), Text("strategy")]] + FileLines(strategies, |strategies.keys|) + [[]]
  }

  function CountSection(matches: int, rounds: int): seq<Line> {
    [[Text("matches (A)"), Count(matches)],
     [Text("rounds (B)"), Count(rounds)],
     [Text("total games (A*B)"), Count(matches * rounds)],
     []]
  }

  /** The first j names as header fields. */
  function NameCells(names: seq<string>, j: nat): seq<Cell>
    requires j <= |names|
  {
    if j == 0 then [] else NameCells(names, j - 1) + [Text(names[j - 1])]
  }

  /** Row si of the matrix over the first j columns. */
  function RowCells(total: Matrix, si: string, names: seq<string>, j: nat): seq<Cell>
    requires j <= |names| && forall r :: r in names ==> (si, r) in total
  {
    if j == 0 then [] else RowCells(total, si, names, j - 1) + [Score(total[(si, names[j - 1])])]
  }

  /** One row of the score table: the name, its row of the matrix, its
      obtained total and that total's rank. */
  function ScoreLine(total: Matrix, obtained: Totals, names: seq<string>, si: string): Line
    requires forall r :: r in names ==> (si, r) in total
    requires Valid(obtained) && si in obtained.m
  {
    [Text(si)] + RowCells(total, si, names, |names|) + [Score(obtained.m[si]), Count(RankOf(obtained, si))]
  }

  /** Names, their rows and totals keyed consistently. */
  ghost predicate Tables(names: seq<string>, total: Matrix, obtained: Totals, given: Totals) {
    Covers(total, names, names) && Valid(obtained) && Valid(given) &&
    forall s :: s in names ==> s in obtained.m && s in given.m
  }

  /** The score table's rows for the first i names. */
  function ScoreLines(total: Matrix, obtained: Totals, given: Totals, names: seq<string>, i: nat): seq<Line>
    requires i <= |names| && Tables(names, total, obtained, given)
  {
    if i == 0 then []
    else ScoreLines(total, obtained, given, names, i - 1) + [ScoreLine(total, obtained, names, names[i - 1])]
  }

  /** The first j given totals. */
  function GivenCells(given: Totals, names: seq<string>, j: nat): seq<Cell>
    requires j <= |names| && forall s :: s in names ==> s in given.m
  {
    if j == 0 then [] else GivenCells(given, names, j - 1) + [Score(given.m[names[j - 1]])]
  }

  /** The ranks of the first j given totals. */
  function RankCells(given: Totals, names: seq<string>, j: nat): seq<Cell>
    requires j <= |names| && Valid(given) && forall s :: s in names ==> s in given.m
  {
    if j == 0 then [] else RankCells(given, names, j - 1) + [Count(RankOf(given, names[j - 1]))]
  }

  function ScoreSection(names: seq<string>, total: Matrix, obtained: Totals, given: Totals): seq<Line>
    requires Tables(names, total, obtained, given)
  {
    [[Text("score table")] + NameCells(names, |names|) + [Text("sum"), Text("ranking")]] +
    ScoreLines(total, obtained, given, names, |names|) +
    [[Text("sum")] + GivenCells(given, names, |names|),
     [Text("ranking")] + RankCells(given, names, |names|),
     []]
  }

  /** The first i rows of a final table: position, name, total. */
  function PositionLines(sorted: seq<Item>, i: nat): seq<Line>
    requires i <= |sorted|
  {
    if i == 0 then []
    else PositionLines(sorted, i - 1) + [[Count(i), Text(sorted[i - 1].0), Score(sorted[i - 1].1)]]
  }

  function PositionSection(title: string, items: seq<Item>): seq<Line> {
    [[Text("ranking"), Text("strategy"), Text(title)]] + PositionLines(SortItems(items), |items|)
  }

  /** x·(x+1) is even, so `int(x*(x+1)/2)` loses nothing. */
  lemma {:induction false} ProductIsEven(x: nat)
    ensures (x * (x + 1)) % 2 == 0
  {
    if x > 0 {
      ProductIsEven(x - 1);
      assert x * (x + 1) == (x - 1) * x + 2 * x;
    }
  }

  /** The numbers the report states about the league: how many matches
      k·(k+1)/2 for k registered files, and how long the first record is. */
  function Counts(strategies: Dict<string, string>, records: Records): (r: (int, int))
    requires Valid(records) && records.keys != []
    ensures 2 * r.0 == |strategies.keys| * (|strategies.keys| + 1)
    ensures r.1 == |Values(records)[0].0|
  {
    var x := |strategies.keys|;
    assert records.keys[0] in records.keys;
    ProductIsEven(x);
    (x * (x + 1) / 2, |records.m[records.keys[0]].0|)
  }

  /** Accumulation keeps every cell of the zero matrix. */
  lemma ScoredCovers(names: seq<string>, records: Records)
    requires Scorable(ZeroMatrix(names), records.keys, records.m)
    requires ScoreAll(ZeroMatrix(names), records.keys, records.m).Ok?
    ensures Covers(ScoreAll(ZeroMatrix(names), records.keys, records.m).value, names, names)
  {
    assert forall l, r :: l in names && r in names ==> (l, r) in ZeroMatrix(names);
  }

  /** The part of `make_report` after the matrix is filled: the sums, then
      the rows, or the fault when there is no record to read the round count
      from. */
  function Written(strategies: Dict<string, string>, records: Records, total: Matrix): Result<seq<Line>>
    requires Valid(strategies) && Valid(records)
    requires Covers(total, Values(strategies), Values(strategies))
  {
    var names := Values(strategies);
    SummedValid(total, names);
    var (obtained, given) := Summed(total, names);
    if records.keys == [] then Err(NoRecords)
    else
      var (matches, rounds) := Counts(strategies, records);
      Ok(FileSection(strategies) + CountSection(matches, rounds) +
         ScoreSection(names, total, obtained, given) +
         (PositionSection("obtained", Items(obtained)) + [[]] + PositionSection("given", Items(given))))
  }

  /** `make_report` as a value: the rows it writes, or the fault it stops with
      (a move without a payoff, or no record to read the round count from). */
  function Report(strategies: Dict<string, string>, records: Records): Result<seq<Line>>
    requires Valid(strategies) && RecordsFor(Values(strategies), records)
  {
    var names := Values(strategies);
    RecordsScorable(names, records);
    match ScoreAll(ZeroMatrix(names), records.keys, records.m)
    case Err(f) => Err(f)
    case Ok(total) =>
      ScoredCovers(names, records);
      Written(strategies, records, total)
  }

  /** The report is written exactly when every recorded round has a payoff
      and there is a record to read the round count from. */
  lemma ReportOkIff(strategies: Dict<string, string>, records: Records)
    requires Valid(strategies) && RecordsFor(Values(strategies), records)
    ensures Report(strategies, records).Ok? <==> records.keys != [] && Paid(records)
  {
    var names := Values(strategies);
    RecordsScorable(names, records);
    ScoreRecordsOkIff(ZeroMatrix(names), records);
    var scored := ScoreAll(ZeroMatrix(names), records.keys, records.m);
    if scored.Ok? {
      ScoredCovers(names, records);
      WrittenUnlessEmpty(strategies, records, scored.value);
    }
  }

  /** With every payoff defined, the only fault left is the missing record. */
  lemma ReportFault(strategies: Dict<string, string>, records: Records)
    requires Valid(strategies) && RecordsFor(Values(strategies), records)
    requires Paid(records)
    ensures Report(strategies, records).Err? ==> Report(strategies, records).fault == NoRecords
  {
    var names := Values(strategies);
    RecordsScorable(names, records);
    ScoreRecordsOkIff(ZeroMatrix(names), records);
    ScoredCovers(names, records);
    WrittenUnlessEmpty(strategies, records, ScoreAll(ZeroMatrix(names), records.keys, records.m).value);
  }

  /** After the matrix is filled, the rows are written unless there is no
      record. */
  lemma WrittenUnlessEmpty(strategies: Dict<string, string>, records: Records, total: Matrix)
    requires Valid(strategies) && Valid(records)
    requires Covers(total, Values(strategies), Values(strategies))
    ensures Written(strategies, records, total).Ok? <==> records.keys != []
    ensures Written(strategies, records, total).Err? ==> Written(strategies, records, total).fault == NoRecords
  {
  }

  /** Row k of the file table is the k-th key and its function name. */
  lemma {:induction false} FileLinesAt(strategies: Dict<string, string>, i: nat, k: nat)
    requires Valid(strategies) && k < i <= |strategies.keys|
    ensures |FileLines(strategies, i)| == i
    ensures FileLines(strategies, i)[k] == [Text(strategies.keys[k]), Text(strategies.m[strategies.keys[k]])]
    decreases i
  {
    if k < i - 1 {
      FileLinesAt(strategies, i - 1, k);
    } else if i > 1 {
      FileLinesAt(strategies, i - 1, 0);
    }
  }

  /** Cell k of row si is the matrix cell (si, names[k]). */
  lemma {:induction false} RowCellsAt(total: Matrix, si: string, names: seq<string>, j: nat, k: nat)
    requires j <= |names| && forall r :: r in names ==> (si, r) in total
    requires k < j
    ensures |RowCells(total, si, names, j)| == j
    ensures RowCells(total, si, names, j)[k] == Score(total[(si, names[k])])
    decreases j
  {
    if k < j - 1 {
      RowCellsAt(total, si, names, j - 1, k);
    } else if j > 1 {
      RowCellsAt(total, si, names, j - 1, 0);
    }
  }

  /** A row of the score table: the name, the matrix row in name order, the
      obtained total and its competition rank, one more than the number of
      strictly larger totals. */
  lemma ScoreLineCells(total: Matrix, obtained: Totals, names: seq<string>, si: string, k: nat)
    requires forall r :: r in names ==> (si, r) in total
    requires Valid(obtained) && si in obtained.m
    requires k < |names|
    ensures var line := ScoreLine(total, obtained, names, si);
      |line| == |names| + 3 && line[0] == Text(si) &&
      line[k + 1] == Score(total[(si, names[k])]) &&
      line[|names| + 1] == Score(obtained.m[si]) &&
      line[|names| + 2] == Count(CountAbove(Values(obtained), obtained.m[si]) + 1)
  {
    var n := |names|;
    var row := RowCells(total, si, names, n);
    var tail := [Score(obtained.m[si]), Count(RankOf(obtained, si))];
    RowCellsAt(total, si, names, n, k);
    RankOfCountsHigher(obtained, si);
    var line := [Text(si)] + row + tail;
    assert ScoreLine(total, obtained, names, si) == line;
    assert line[k + 1] == row[k];
    assert line[n + 1] == tail[0] && line[n + 2] == tail[1];
  }

  /** The score-table rank is one more than the number of strictly larger
      totals: equal totals share a rank and the next distinct total skips. */
  lemma RankOfCountsHigher(d: Totals, s: string)
    requires Valid(d) && s in d.m
    ensures RankOf(d, s) == CountAbove(Values(d), d.m[s]) + 1
  {
    ValueListed(d, s);
    RankCountsHigher(Values(d), d.m[s]);
  }

  /** Field k of the ranking row under the score table is the rank of the k-th
      given total. */
  lemma {:induction false} RankCellsAt(given: Totals, names: seq<string>, j: nat, k: nat)
    requires j <= |names| && Valid(given) && forall s :: s in names ==> s in given.m
    requires k < j
    ensures |RankCells(given, names, j)| == j
    ensures RankCells(given, names, j)[k] == Count(RankOf(given, names[k]))
    decreases j
  {
    if k < j - 1 {
      RankCellsAt(given, names, j - 1, k);
    } else if j > 1 {
      RankCellsAt(given, names, j - 1, 0);
    }
  }

  /** Field k of the given-total row is the k-th given total; field k of the
      ranking row below it is that total's competition rank. */
  lemma GivenRows(given: Totals, names: seq<string>, k: nat)
    requires Valid(given) && forall s :: s in names ==> s in given.m
    requires k < |names|
    ensures |GivenCells(given, names, |names|)| == |RankCells(given, names, |names|)| == |names|
    ensures GivenCells(given, names, |names|)[k] == Score(given.m[names[k]])
    ensures RankCells(given, names, |names|)[k] == Count(CountAbove(Values(given), given.m[names[k]]) + 1)
  {
    GivenCellsAt(given, names, |names|, k);
    RankCellsAt(given, names, |names|, k);
    RankOfCountsHigher(given, names[k]);
  }

  lemma {:induction false} GivenCellsAt(given: Totals, names: seq<string>, j: nat, k: nat)
    requires j <= |names| && forall s :: s in names ==> s in given.m
    requires k < j
    ensures |GivenCells(given, names, j)| == j
    ensures GivenCells(given, names, j)[k] == Score(given.m[names[k]])
    decreases j
  {
    if k < j - 1 {
      GivenCellsAt(given, names, j - 1, k);
    } else if j > 1 {
      GivenCellsAt(given, names, j - 1, 0);
    }
  }

  /** Row k of a final table is numbered k + 1 and shows the k-th item. */
  lemma {:induction false} PositionLinesAt(sorted: seq<Item>, i: nat, k: nat)
    requires k < i <= |sorted|
    ensures |PositionLines(sorted, i)| == i
    ensures PositionLines(sorted, i)[k] == [Count(k + 1), Text(sorted[k].0), Score(sorted[k].1)]
    decreases i
  {
    if k < i - 1 {
      PositionLinesAt(sorted, i - 1, k);
    } else if i > 1 {
      PositionLinesAt(sorted, i - 1, 0);
    }
  }

  /** A final table numbers its rows 1..N consecutively, lists every item once
      with totals in descending order, and keeps items with equal totals in
      their original order. */
  lemma PositionSectionRows(title: string, items: seq<Item>, k: nat)
    requires k < |items|
    ensures |PositionSection(title, items)| == |items| + 1
    ensures PositionSection(title, items)[k + 1] ==
      [Count(k + 1), Text(SortItems(items)[k].0), Score(SortItems(items)[k].1)]
    ensures multiset(SortItems(items)) == multiset(items)
    ensures forall l :: k < l < |items| ==> SortItems(items)[k].1 >= SortItems(items)[l].1
    ensures WithTotal(SortItems(items), SortItems(items)[k].1) == WithTotal(items, SortItems(items)[k].1)
  {
    var sorted := SortItems(items);
    var body := PositionLines(sorted, |items|);
    PositionLinesAt(sorted, |items|, k);
    var lines := [[Text("ranking"), Text("strategy"), Text(title)]] + body;
    assert PositionSection(title, items) == lines;
    assert lines[k + 1] == body[k];
    SortItemsStable(items, sorted[k].1);
  }

  method WriteFileSection(strategies: Dict<string, string>) returns (lines: seq<Line>)
    requires Valid(strategies)
    ensures lines == FileSection(strategies)
  {
    var files := strategies.keys;
    lines := [[Text("file"), Text("strategy")]];
    for i := 0 to |files|
      invariant lines == [[Text("file"), Text("strategy")]] + FileLines(strategies, i)
    {
      assert files[i] in files;
      lines := lines + [[Text(files[i]), Text(strategies.m[files[i]])]];
    }
    lines := lines + [[]];
  }

  method WriteScoreLine(total: Matrix, obtained: Totals, names: seq<string>, si: string) returns (line: Line)
    requires forall r :: r in names ==> (si, r) in total
    requires Valid(obtained) && si in obtained.m
    ensures line == ScoreLine(total, obtained, names, si)
  {
    var row: seq<Cell> := [];
    for j := 0 to |names|
      invariant row == RowCells(total, si, names, j)
    {
      row := row + [Score(total[(si, names[j])])];
    }
    line := [Text(si)] + row + [Score(obtained.m[si]), Count(RankOf(obtained, si))];
  }

  method WriteScoreHeader(names: seq<string>) returns (header: Line)
    ensures header == [Text("score table")] + NameCells(names, |names|) + [Text("sum"), Text("ranking")]
  {
    header := [Text("score table")];
    for j := 0 to |names|
      invariant header == [Text("score table")] + NameCells(names, j)
    {
      header := header + [Text(names[j])];
    }
    header := header + [Text("sum"), Text("ranking")];
  }

  method WriteScoreLines(names: seq<string>, total: Matrix, obtained: Totals, given: Totals) returns (lines: seq<Line>)
    requires Tables(names, total, obtained, given)
    ensures lines == ScoreLines(total, obtained, given, names, |names|)
  {
    lines := [];
    for i := 0 to |names|
      invariant lines == ScoreLines(total, obtained, given, names, i)
    {
      var line := WriteScoreLine(total, obtained, names, names[i]);
      lines := lines + [line];
    }
  }

  method WriteGivenLines(names: seq<string>, given: Totals) returns (sums: Line, ranks: Line)
    requires Valid(given) && forall s :: s in names ==> s in given.m
    ensures sums == [Text("sum")] + GivenCells(given, names, |names|)
    ensures ranks == [Text("ranking")] + RankCells(given, names, |names|)
  {
    sums := [Text("sum")];
    ranks := [Text("ranking")];
    for j := 0 to |names|
      invariant sums == [Text("sum")] + GivenCells(given, names, j)
      invariant ranks == [Text("ranking")] + RankCells(given, names, j)
    {
      sums := sums + [Score(given.m[names[j]])];
      ranks := ranks + [Count(RankOf(given, names[j]))];
    }
  }

  method WriteScoreSection(names: seq<string>, total: Matrix, obtained: Totals, given: Totals) returns (lines: seq<Line>)
    requires Tables(names, total, obtained, given)
    ensures lines == ScoreSection(names, total, obtained, given)
  {
    var header := WriteScoreHeader(names);
    var rows := WriteScoreLines(names, total, obtained, given);
    var sums, ranks := WriteGivenLines(names, given);
    lines := [header] + rows + [sums, ranks, []];
  }

  method WritePositionSection(title: string, d: Totals) returns (lines: seq<Line>)
    requires Valid(d)
    ensures lines == PositionSection(title, Items(d))
  {
    var sorted := SortItems(Items(d));
    lines := [[Text("ranking"), Text("strategy"), Text(title)]];
    for i := 0 to |sorted|
      invariant lines == [[Text("ranking"), Text("strategy"), Text(title)]] + PositionLines(sorted, i)
    {
      lines := lines + [[Count(i + 1), Text(sorted[i].0), Score(sorted[i].1)]];
    }
  }

  /** `make_report`: initialise, accumulate, then sum and write the rows. */
  method MakeReport(strategies: Dict<string, string>, records: Records) returns (r: Result<seq<Line>>)
    requires Valid(strategies) && RecordsFor(Values(strategies), records)
    ensures r == Report(strategies, records)
  {
    var names := Values(strategies);
    var total, obtained, given := InitScores(names);
    IsZeroMatrix(total, names);
    RecordsScorable(names, records);
    var scored := AccumulateScores(total, records);
    if scored.Err? {
      return Err(scored.fault);
    }
    ScoredCovers(names, records);
    var total' := scored.value;
    obtained, given := SumScores(names, total', obtained, given);
    r := WriteReport(strategies, records, total', obtained, given);
  }

  /** The rows, once the totals are summed. */
  method WriteReport(strategies: Dict<string, string>, records: Records, total: Matrix,
                     obtained: Totals, given: Totals) returns (r: Result<seq<Line>>)
    requires Valid(strategies) && Valid(records)
    requires Covers(total, Values(strategies), Values(strategies))
    requires (obtained, given) == Summed(total, Values(strategies))
    ensures r == Written(strategies, records, total)
  {
    var names := Values(strategies);
    SummedValid(total, names);
    var files := WriteFileSection(strategies);
    if records.keys == [] {
      return Err(NoRecords);
    }
    var x := |strategies.keys|;
    assert records.keys[0] in records.keys;
    var rounds := |records.m[records.keys[0]].0|;
    var counts := CountSection(x * (x + 1) / 2, rounds);
    assert Counts(strategies, records) == (x * (x + 1) / 2, rounds);
    var table := WriteScoreSection(names, total, obtained, given);
    var rankings := WriteFinalTables(obtained, given);
    r := Ok(files + counts + table + rankings);
  }

  /** The two final tables, separated by a blank row. */
  method WriteFinalTables(obtained: Totals, given: Totals) returns (lines: seq<Line>)
    requires Valid(obtained) && Valid(given)
    ensures lines == PositionSection("obtained", Items(obtained)) + [[]] + PositionSection("given", Items(given))
  {
    var byObtained := WritePositionSection("obtained", obtained);
    var byGiven := WritePositionSection("given", given);
    lines := byObtained + [[]] + byGiven;
  }
}
