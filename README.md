# Iterated Prisoner's Dilemma league judge

This project is a Dafny model of `judge.py`, the tournament engine of a
Prisoner's Dilemma coding league. Each strategy is a Python file that
defines one function. The engine runs in three stages:

1. `get_strategies` checks every file against a line-by-line allow-list.
   It registers `file key -> function name`. It stops at the first
   rejected file, and at a function name that equals a key registered
   earlier.
2. `play_full_league` pairs every registered function with itself and
   with every later one. For each pair it plays a match of `n` rounds.
   In round `i`, each side receives its own history and its opponent's,
   and must answer one of `c`, `d`, `C` or `D`.
3. `make_report` scores the rounds with the payoff matrix into a
   `left x right` score table. A mirror match counts the average of the
   two payoffs. The table is summed into obtained (row) and given
   (column) totals. The report lists the files, the match and round
   counts, the score table with its competition ranks, and two final
   tables sorted by total.

Each stage is one module. Every loop of the source that computes a value
or writes a row is a method, proved equal to a specification function
(`ensures r == Spec(...)`). The import loop is a method over a parameter
that says which modules import, because the import itself is outside the
model. The
properties the engine promises are lemmas about those functions.

Modules:

- `Outcomes`: the faults at which the engine stops, plus `Result` and `Option`.
- `PyStr`: the string operations the engine relies on:
  - `str.count`
  - `split(c)` and `split()`
  - `rstrip`
- `Dicts`: an insertion-ordered dictionary. Assigning to an existing key
  keeps that key's position.
- `Payoff`: the payoff matrix.
- `Validator`: `check_code_of_a_strategy`.
- `Registry`: `get_strategies`.
- `League`: the pairing and `play_full_league`.
- `Scoring`: the score table and its sums.
- `Ranking`: `sorted(..., reverse=True)`, `list.index`, and the stable
  sort of `dict.items()` by value.
- `Report`: the report rows of `make_report`.
- `Judge`: the main block.

A fault is the value `Err(f)`, where the Python code raises an exception:
- `DefCount`, `Semicolon`, `OsImport`, `IllegalLine`, `UnboundName` and
  `DuplicateName` come from `get_strategies`;
- `ImportFailed` comes from the import loop of `play_full_league`
  (judge.py:88-89), and `InvalidMove` from its matches;
- `PayoffDomain` comes from `payoff`;
- `NoRecords` is the `IndexError` that `make_report` raises when there
  is no record to read the round count from.

The report is a sequence of rows, and each row is a sequence of cells
(`Text`, `Count` or `Score`).

## Model

| member | source | states |
|---|---|---|
| Payoff.Payoff | judge.py:4-19 | the payoff is defined exactly when both moves are one of `c`/`C`/`d`/`D`; otherwise the fault names both moves; every score lies in 0..5 |
| Payoff.PayoffTable | judge.py:8-15 | the four cells (3,3), (0,5), (5,0) and (1,1) |
| Payoff.PayoffIgnoresCase | judge.py:6-7 | lower and upper case give the same payoff |
| Payoff.PayoffSwap | judge.py:8-15 | swapping the players swaps the two scores, and neither order is defined without the other |
| Payoff.PayoffIsDilemma | judge.py:8-15 | defecting pays more against either reply, yet mutual cooperation beats mutual defection and beats taking turns at exploiting each other |
| PyStr.CountPositiveIff | judge.py:25-26 | `str.count(p)` is positive exactly when p occurs in the text |
| PyStr.JoinSplit | judge.py:36 | joining the parts of `split('\n')` with the separator gives back the text |
| PyStr.SplitJoin | judge.py:36 | splitting a join of separator-free parts gives back the parts |
| PyStr.RStrip | judge.py:76 | `rstrip` removes the longest suffix made of characters from the set: the result is a prefix, and it does not end in one of them |
| Validator.FunctionName | judge.py:42 | the name read from a def header is a non-empty word with no whitespace and no `(` |
| Validator.DefHeaderRoundTrip | judge.py:41-42 | `def <name>(<rest>` with `)` and `:` in rest is a def header, and its name reads back as `<name>` |
| Validator.CheckCodeOfAStrategy | judge.py:23-57 | the line loop computes exactly the validator's result, including the fault it stops at |
| Validator.ScanOkIff | judge.py:37-56 | the line loop succeeds exactly when every line is on the allow-list and some def header binds a name |
| Validator.ValidateOkIff | judge.py:25-57 | a source is accepted exactly when `def ` occurs once, no `;` appears, every line is allowed and one line is a def header |
| Validator.ValidateName | judge.py:41-42 | an accepted source's name is the one on its last def header, and it is a non-empty word |
| Validator.ValidateUnboundName | judge.py:57 | a source whose only `def ` is not a column-0 header fails with the unbound name |
| Validator.ValidateFirstBadLine | judge.py:43-56 | past the two whole-text checks, the fault names the first line not on the allow-list; it is an `os` import fault when that line is an import |
| Dicts.Put | judge.py:76 | assignment stores the value, and it appends the key only if the key is new |
| Dicts.PutValid | judge.py:76 | the keys stay distinct |
| Dicts.Values | judge.py:118 | `values()` lists the values in key order |
| Dicts.Items | judge.py:184 | `items()` lists the pairs in key order |
| Registry.RemovePycache | judge.py:59-61 | the first `__pycache__` entry is removed and the other files are kept in order; a listing without one is unchanged |
| Registry.FileKey | judge.py:76 | the key is the file name with every trailing `.`, `p` and `y` removed |
| Registry.FileKeyStripsCharacters | judge.py:76 | `happy.py` becomes `ha`, while `tit_for_tat.py` becomes `tit_for_tat` |
| Registry.GetStrategies | judge.py:59-78 | the registration loop computes exactly `Load` on the listed files |
| Registry.LoadOkIff | judge.py:59-77 | registration succeeds exactly when every file except `__pycache__` validates and no function name equals an earlier file's key |
| Registry.LoadFromOkIff | judge.py:68-77 | the same condition, stated for every step of the loop |
| Registry.LoadResult | judge.py:66-78 | the result's keys are distinct; a key is present exactly when some file has it; its value is the name from the last file with that key |
| Registry.LoadFromKeys | judge.py:68-77 | the loop only adds keys, keeps them distinct, and adds exactly the files' keys |
| Registry.LoadFromValues | judge.py:76 | each value is the name from the last file with that key, or it is left as it was |
| Registry.SameFunctionTwice | judge.py:73-76 | two files that define the same function under different keys are both accepted, because the check looks at keys and not at names |
| Registry.SameFunctionUploadedTwice | judge.py:73-76 | a file `f.py` defining `f`, given twice, is refused as a duplicate on the second copy, since its name is the first copy's key |
| Registry.NameEqualToEarlierKey | judge.py:73-75 | a function named like an earlier file's key is rejected as a duplicate |
| Registry.LaterFileOverwrites | judge.py:76 | two files with the same key leave one entry, holding the later file's name |
| Registry.LoadTwo | judge.py:68-77 | the result for two acceptable files, written out |
| League.MakePairs | judge.py:91-95 | the nested loop computes exactly the pair list |
| League.PairsCount | judge.py:92-95 | there are k(k+1)/2 pairs |
| League.PairsMembers | judge.py:93-95 | a pair is listed exactly when it is `(names[a], names[b])` with a <= b |
| League.PairsUpToDistinct | judge.py:93-95 | with distinct names, no pair is listed twice |
| League.Play | judge.py:102-112 | a finished match has two histories of exactly `rounds` moves; a failed one has the invalid-move fault |
| League.PlayMatch | judge.py:102-112 | the round loop computes exactly `Play` |
| League.PlayReplays | judge.py:104-109 | every recorded move is valid, and is the strategy's answer to the two histories before that round (own history first) |
| League.ReplaysArePlay | judge.py:104-109 | conversely, histories that replay this way are the match's result |
| League.PlayErrIff | judge.py:107-112 | a match fails exactly when some round gets an answer outside the four symbols |
| League.PlayErrPersists | judge.py:104-112 | a match that fails within k rounds fails in every longer match |
| League.MirrorMatchIsSymmetric | judge.py:105-106 | a strategy playing itself records the same history on both sides |
| League.FirstUnimportable | judge.py:88-89 | no key is reported exactly when every entry imports; a reported key belongs to the first entry that does not |
| League.ImportModules | judge.py:88-89 | the import loop computes exactly `FirstUnimportable` over the registry's entries in order |
| League.PlayedLeagueImports | judge.py:86-114 | when every module imports, the league is `FullLeague`; otherwise it stops with `ImportFailed` for a registered key whose module does not import |
| League.PlayFullLeague | judge.py:80-114 | imports the modules, then plays the league: computes exactly `PlayedLeague` |
| League.LeagueFromValid | judge.py:98-113 | the records' keys stay distinct |
| League.LeagueFromKeys | judge.py:113 | a pair has a record exactly when it was already recorded or is in the pair list; pairs not in the list keep their record |
| League.LeagueFromRecord | judge.py:98-113 | each listed pair's record is its match |
| League.LeagueFromErrIff | judge.py:98-112 | the league fails exactly when some listed pair's match fails, and the fault is the invalid move |
| League.FullLeagueRecords | judge.py:91-113 | the records are exactly the pairs `a <= b` of registered names; each holds the replayed match of `rounds` moves |
| League.FullLeagueCount | judge.py:91-113 | with distinct function names, there are k(k+1)/2 records |
| Scoring.ZeroRow | judge.py:127-128 | one row of the table is set to zero, and every other cell is unchanged |
| Scoring.InitScores | judge.py:120-128 | the table is zero on exactly the name pairs, and both totals are zero for every name |
| Scoring.MatchTotals | judge.py:132-133 | a record's rounds can all be scored exactly when every move is valid; each side's total is at most 5 per round |
| Scoring.MatchTotalsPrefixErr | judge.py:132-133 | scoring stops at the first round without a payoff |
| Scoring.MirrorTotalsAgree | judge.py:134-136 | equal histories give equal totals, so the mirror average is the common total |
| Scoring.AddMatchTwice | judge.py:134-139 | adding two rounds' scores one after the other adds their sum |
| Scoring.ScoreAll | judge.py:130-139 | scoring keeps the table's cells |
| Scoring.ScoreAllPrefixErr | judge.py:131-133 | a fault in the first i records is the fault of the whole accumulation |
| Scoring.AddRound | judge.py:134-139 | one round: half of both payoffs on a mirror cell; otherwise each side's payoff goes to its own cell |
| Scoring.ScoreMatch | judge.py:132-139 | the round loop computes exactly the record's contribution, or the first payoff fault |
| Scoring.AccumulateScores | judge.py:130-139 | the record loop computes exactly `ScoreAll` |
| Scoring.ScoreAllOkIff | judge.py:131-133 | the accumulation succeeds exactly when every record's rounds all have a payoff |
| Scoring.ScoreRecordsOkIff | judge.py:131-133 | the same, stated over the record dictionary |
| Scoring.ScoreAllCell | judge.py:131-139 | with distinct record keys, each cell is its start value plus what the records add to it |
| Scoring.NoRecordNoScore | judge.py:131-139 | a pair with no record in either order keeps a zero cell |
| Scoring.MirrorCell | judge.py:135-136 | a mirror cell holds the total of the strategy's match against itself |
| Scoring.RowPassStep | judge.py:144-145 | the two `+=` assignments for one cell take the row's first j columns to its first j + 1 |
| Scoring.SumRow | judge.py:143-145 | the inner summing loop computes exactly one row's pass |
| Scoring.SumScores | judge.py:141-145 | the summing loops compute exactly the summing pass |
| Scoring.RowAndColumnSums | judge.py:142-145 | with distinct names, obtained[s] is row s's sum and given[s] is column s's sum |
| Ranking.SortDesc | judge.py:173 | `sorted(..., reverse=True)` is non-increasing and a permutation |
| Ranking.IndexOf | judge.py:173 | `list.index` returns the first position holding the value |
| Ranking.RankCountsHigher | judge.py:173 | index in the descending list plus one is one more than the number of strictly higher totals, so ties share a rank |
| Ranking.CountAboveSort | judge.py:173 | sorting does not change how many totals are higher |
| Ranking.RankGapAfterTie | judge.py:173 | a lower total ranks below by at least the number of ties above it, and every rank lies in 1..k |
| Ranking.CompetitionRank | judge.py:173 | the rank of a value lies in 1..k; the sorted list holds the value at position rank-1, and only strictly higher values before it |
| Ranking.SortItems | judge.py:184 | the sorted items are non-increasing in total and a permutation of the items |
| Ranking.SortItemsStable | judge.py:184 | items with equal totals keep their dictionary order (Python's sort is stable) |
| Report.ZeroMatrix | judge.py:121-128 | the zero table over the name pairs |
| Report.IsZeroMatrix | judge.py:121-128 | any table that is zero on exactly the name pairs is that table |
| Report.RecordsScorable | judge.py:131-133 | records between registered names can be read against the zero table |
| Report.ScoredCovers | judge.py:121-139 | after accumulation the table still has every name pair |
| Report.SummedValid | judge.py:142-145 | both totals have exactly the names as keys |
| Report.SummedValues | judge.py:142-145 | obtained[s] and given[s] are the sums the loops add up |
| Report.SummedBalance | judge.py:142-145 | the obtained totals and the given totals have the same grand sum |
| Report.SummedRowsAndColumns | judge.py:142-145 | with distinct names, obtained[s] is row s and given[s] is column s |
| Report.RankOfCountsHigher | judge.py:173 | the printed rank is one more than the number of strictly higher totals |
| Report.Counts | judge.py:159-160 | twice the match count is k(k+1) for k registered files; the round count is the length of the first record's history |
| Report.FileLinesAt | judge.py:156-157 | file row i shows key i and its function name |
| Report.RowCellsAt | judge.py:171-172 | cell k of a score row is the table cell against name k |
| Report.ScoreLineCells | judge.py:170-173 | a score row shows the name, then the table cells, then the obtained total and its rank |
| Report.RankCellsAt | judge.py:178-180 | cell k of the ranking row is the rank of name k's given total |
| Report.GivenCellsAt | judge.py:175-176 | cell k of the sum row is name k's given total |
| Report.GivenRows | judge.py:174-181 | the sum row and the ranking row, cell by cell |
| Report.PositionLinesAt | judge.py:185-186 | row k of a final table shows `k+1`, the k-th sorted name and its total |
| Report.PositionSectionRows | judge.py:183-192 | a final table numbers its rows 1..N, lists every item once, sorts by total descending, and keeps ties in order |
| Report.ReportOkIff | judge.py:116-194 | the report is written exactly when every recorded move has a payoff and there is a record |
| Report.ReportFault | judge.py:160 | once every move has a payoff, the only possible fault is the missing record |
| Report.WrittenUnlessEmpty | judge.py:160 | the rows are written unless there is no record to read the round count from |
| Report.WriteFileSection | judge.py:155-158 | the loop writes exactly the file table |
| Report.WriteScoreLine | judge.py:170-173 | the loop writes exactly one score row |
| Report.WriteScoreHeader | judge.py:165-168 | the header row lists the names, then `sum` and `ranking` |
| Report.WriteScoreLines | judge.py:169-173 | the loop writes exactly the score rows |
| Report.WriteGivenLines | judge.py:174-181 | the loops write exactly the sum row and the ranking row |
| Report.WriteScoreSection | judge.py:165-181 | exactly the score table section |
| Report.WritePositionSection | judge.py:183-186 | exactly a final table over the sorted items |
| Report.WriteFinalTables | judge.py:183-192 | the two final tables, with a blank row between them |
| Report.WriteReport | judge.py:141-194 | the summed totals written out give exactly the rows of `Written` |
| Report.MakeReport | judge.py:116-194 | `make_report` computes exactly `Report`: the rows, or the first fault |
| Judge.LeagueRecordsFor | judge.py:98-113 | a finished league's records are between registered names, with equal-length histories |
| Judge.RunTournament | judge.py:196-213 | the main block computes exactly `Tournament` (registry, then imports and league, then report) |
| Judge.ImportUsesFileKey | judge.py:89 | the import uses the shortened file key: a league with the single file `happy.py` stops with `ImportFailed("ha")` when no module `ha` imports |
| Judge.ReportedCounts | judge.py:159-163 | the stated round count is the league's; with distinct function names the stated match count k(k+1)/2 equals the number of records |
| Judge.LeagueReportOkIff | judge.py:160 | after a finished league the report fails only for want of a record, which happens exactly when nothing was registered |

## Left out

- `app.py` (the interactive front end) is not part of this model.
- File system access, the timestamped file name and file writing are not modelled:
  - the directory listing is a parameter;
  - the report is a value of rows and cells;
  - the header file written before the `IndexError` on an empty league is not modelled.
- `exec` and `eval` of strategy code are replaced by two parameters:
  - `importable` says whether `from strategies.<key> import <name>` succeeds for a registry entry. A failed import is the fault `ImportFailed(key)`. Python's module lookup is not modelled, so a key shortened by `rstrip` (`ha` from `happy.py`) fails only when `importable` says so.
  - `bind` maps each function name to a total function of the two histories. A strategy that raises, loops forever or is random is outside the model.
- `randint(200, 400)` becomes the parameter `rounds`. `RunTournament` and `PlayFullLeague` require that range.
- Every `print` is left out, including the error messages printed before each exception. A fault carries only its kind and the offending text.
- A strategy returning something other than a string is not modelled: moves are strings.
- Python's `int` and `float` printing is not modelled. Scores are `real`s in a `Score` cell, whether the source would print `3` or `3.0`.
- Python's Timsort is modelled by an insertion sort. Because both sorts are stable, they give the same order.
- Judge.ReportedCounts: the match count equals the number of records only when function names are distinct. With a repeated name, the printed k(k+1)/2 exceeds the number of distinct records, so this is stated as a condition.
- The order of `os.listdir` is arbitrary. The listing is a sequence parameter, and every registry property holds for any order.
