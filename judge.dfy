/** The script's main block: build the registry from the strategy files,
    play the full league, then write the report. */
module Judge {
  import opened Outcomes
  import opened Dicts
  import opened Validator
  import opened Registry
  import opened League
  import opened Scoring
  import opened Report

  /** A finished league's records are between registered function names and
      both histories of a match have the same length. */
  lemma LeagueRecordsFor(strategies: Dict<string, string>, bind: string -> Strategy, rounds: nat)
    requires Valid(strategies) && FullLeague(strategies, bind, rounds).Ok?
    ensures RecordsFor(Values(strategies), FullLeague(strategies, bind, rounds).value)
  {
    var names := Values(strategies);
    var records := FullLeague(strategies, bind, rounds).value;
    LeagueFromValid(Empty(), Pairs(names), bind, rounds);
    forall p | p in records.m
      ensures p.0 in names && p.1 in names && |records.m[p].0| <= |records.m[p].1|
    {
      FullLeagueRecords(strategies, bind, rounds, p);
    }
  }

  /** The whole run as a value: the report rows, or the first fault. */
  function Tournament(files: seq<SourceFile>, importable: ((string, string)) -> bool,
                      bind: string -> Strategy, rounds: nat): Result<seq<Line>> {
    match Load(files)
    case Err(f) => Err(f)
    case Ok(strategies) =>
      LoadResult(files);
      match PlayedLeague(strategies, importable, bind, rounds)
      case Err(f) => Err(f)
      case Ok(records) =>
        LeagueRecordsFor(strategies, bind, rounds);
        Report.Report(strategies, records)
  }

  /** `get_strategies`, `play_full_league`, `make_report` in turn; `importable`
      says which imports succeed, `bind` stands for the imported strategy
      functions and `rounds` for the drawn round count. */
  method RunTournament(files: seq<SourceFile>, importable: ((string, string)) -> bool,
                       bind: string -> Strategy, rounds: nat) returns (r: Result<seq<Line>>)
    requires 200 <= rounds <= 400
    ensures r == Tournament(files, importable, bind, rounds)
  {
    var loaded := GetStrategies(files);
    if loaded.Err? {
      return Err(loaded.fault);
    }
    var strategies := loaded.value;
    LoadResult(files);
    var played := PlayFullLeague(strategies, importable, bind, rounds);
    if played.Err? {
      return Err(played.fault);
    }
    LeagueRecordsFor(strategies, bind, rounds);
    r := MakeReport(strategies, played.value);
  }

  /** The league imports each strategy from the module named by its file KEY,
      so a file whose key `rstrip('.py')` has shortened (`happy.py` registers
      as `ha`) stops the run when no module `ha` provides the function. */
  lemma ImportUsesFileKey(code: string, importable: ((string, string)) -> bool,
                          bind: string -> Strategy, rounds: nat)
    requires Validate(code).Ok?
    requires !importable(("ha", Validate(code).value))
    ensures Tournament([SourceFile("happy.py", code)], importable, bind, rounds) == Err(ImportFailed("ha"))
  {
    var files := [SourceFile("happy.py", code)];
    FileKeyStripsCharacters();
    assert PycacheIndex(files) == 1 by {
      assert PycacheIndex(files[1..]) == 0;
    }
    var reg := Put(Empty(), "ha", Validate(code).value);
    assert LoadFrom(Empty(), files) == LoadFrom(reg, files[1..]);
    assert files[1..] == [];
    assert Load(files) == Ok(reg);
    assert Items(reg)[0] == ("ha", Validate(code).value);
  }

  /** After a league over at least one strategy there is a record; the round
      count the report states is the league's, and with distinct function
      names the stated match count k·(k+1)/2 is the number of records. */
  lemma ReportedCounts(strategies: Dict<string, string>, bind: string -> Strategy, rounds: nat)
    requires Valid(strategies) && strategies.keys != []
    requires FullLeague(strategies, bind, rounds).Ok?
    ensures Valid(FullLeague(strategies, bind, rounds).value)
    ensures FullLeague(strategies, bind, rounds).value.keys != []
    ensures Counts(strategies, FullLeague(strategies, bind, rounds).value).1 == rounds
    ensures Distinct(Values(strategies)) ==>
      Counts(strategies, FullLeague(strategies, bind, rounds).value).0 == |FullLeague(strategies, bind, rounds).value.keys|
  {
    var names := Values(strategies);
    var records := FullLeague(strategies, bind, rounds).value;
    LeagueFromValid(Empty(), Pairs(names), bind, rounds);
    FullLeagueRecords(strategies, bind, rounds, (names[0], names[0]));
    assert records.keys != [];
    FullLeagueRecords(strategies, bind, rounds, records.keys[0]);
    if Distinct(names) {
      FullLeagueCount(strategies, bind, rounds);
    }
  }

  /** Once the league has finished, every move has a payoff, so the report
      can fail only for want of a record, which happens exactly when no
      strategy was registered. */
  lemma LeagueReportOkIff(strategies: Dict<string, string>, bind: string -> Strategy, rounds: nat)
    requires Valid(strategies) && FullLeague(strategies, bind, rounds).Ok?
    ensures RecordsFor(Values(strategies), FullLeague(strategies, bind, rounds).value)
    ensures Report.Report(strategies, FullLeague(strategies, bind, rounds).value).Ok? <==> strategies.keys != []
    ensures Report.Report(strategies, FullLeague(strategies, bind, rounds).value).Err? ==>
      Report.Report(strategies, FullLeague(strategies, bind, rounds).value).fault == NoRecords
  {
    var records := FullLeague(strategies, bind, rounds).value;
    LeagueRecordsFor(strategies, bind, rounds);
    forall p | p in records.m
      ensures |records.m[p].0| <= |records.m[p].1| && MatchTotals(records.m[p].0, records.m[p].1).Ok?
    {
      FullLeagueRecords(strategies, bind, rounds, p);
    }
    assert Paid(records);
    ReportOkIff(strategies, records);
    ReportFault(strategies, records);
    if strategies.keys != [] {
      ReportedCounts(strategies, bind, rounds);
    } else {
      forall p | p in records.m ensures false {
        FullLeagueRecords(strategies, bind, rounds, p);
      }
    }
  }
}
