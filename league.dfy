/** `play_full_league`: every registered function meets every later one and
    itself, each meeting lasting the same number of rounds. */
module League {
  import opened Outcomes
  import opened Payoff
  import opened Dicts

  type History = seq<Move>

  /** A strategy: its own history and the opponent's history -> its move. */
  type Strategy = (History, History) -> Move

  /** (left function name, right function name) */
  type Pair = (string, string)

  /** `total_records`: pair -> (left history, right history) */
  type Records = Dict<Pair, (History, History)>

  /** The pairs made by the inner loop for index i: (names[i], names[j]), j from i on. */
  function Row(names: seq<string>, i: nat): seq<Pair>
    requires i < |names|
  {
    seq(|names| - i, d requires 0 <= d < |names| - i => (names[i], names[i + d]))
  }

  /** The pairs made by the first i passes of the outer loop. */
  function PairsUpTo(names: seq<string>, i: nat): seq<Pair>
    requires i <= |names|
    decreases i
  {
    if i == 0 then [] else PairsUpTo(names, i - 1) + Row(names, i - 1)
  }

  function Pairs(names: seq<string>): seq<Pair> {
    PairsUpTo(names, |names|)
  }

  /** The nested loops that fill `pairs_of_strategies`. */
  method MakePairs(names: seq<string>) returns (pairs: seq<Pair>)
    ensures pairs == Pairs(names)
  {
    pairs := [];
    for i := 0 to |names|
      invariant pairs == PairsUpTo(names, i)
    {
      for j := i to |names|
        invariant pairs == PairsUpTo(names, i) + Row(names, i)[..j - i]
      {
        assert Row(names, i)[..j + 1 - i] == Row(names, i)[..j - i] + [(names[i], names[j])];
        pairs := pairs + [(names[i], names[j])];
      }
      assert Row(names, i)[..|names| - i] == Row(names, i);
    }
  }

  lemma {:induction false} PairsUpToCount(names: seq<string>, i: nat)
    requires i <= |names|
    ensures 2 * |PairsUpTo(names, i)| == i * (2 * |names| - i + 1)
    decreases i
  {
    if i > 0 {
      PairsUpToCount(names, i - 1);
      var k := |names|;
      assert 2 * |PairsUpTo(names, i)| == (i - 1) * (2 * k - i + 2) + 2 * (k - i + 1);
      assert (i - 1) * (2 * k - i + 2) == i * (2 * k - i + 1) - 2 * k + 2 * i - 2 + (i - 1) - (i - 1) by {
        assert (i - 1) * (2 * k - i + 2) == i * (2 * k - i + 2) - (2 * k - i + 2);
        assert i * (2 * k - i + 2) == i * (2 * k - i + 1) + i;
      }
    }
  }

  /** k strategies make k·(k+1)/2 pairs. */
  lemma PairsCount(names: seq<string>)
    ensures |Pairs(names)| == |names| * (|names| + 1) / 2
  {
    PairsUpToCount(names, |names|);
  }

  /** The pairs are exactly (names[a], names[b]) with a <= b: every strategy
      meets itself and every strategy after it. */
  lemma {:induction false} PairsUpToMembers(names: seq<string>, i: nat, p: Pair)
    requires i <= |names|
    ensures p in PairsUpTo(names, i) <==>
      exists a, b :: 0 <= a < i && a <= b < |names| && p == (names[a], names[b])
    decreases i
  {
    if i > 0 {
      PairsUpToMembers(names, i - 1, p);
      var row := Row(names, i - 1);
      if p in row {
        var d :| 0 <= d < |row| && row[d] == p;
        assert p == (names[i - 1], names[i - 1 + d]);
      }
      if exists a, b :: 0 <= a < i && a <= b < |names| && p == (names[a], names[b]) {
        var a, b :| 0 <= a < i && a <= b < |names| && p == (names[a], names[b]);
        if a == i - 1 {
          assert row[b - a] == p;
        }
      }
    }
  }

  lemma PairsMembers(names: seq<string>, p: Pair)
    ensures p in Pairs(names) <==>
      exists a, b :: 0 <= a <= b < |names| && p == (names[a], names[b])
  {
    PairsUpToMembers(names, |names|, p);
  }

  /** Distinct function names give distinct pairs. */
  lemma {:induction false} PairsUpToDistinct(names: seq<string>, i: nat)
    requires i <= |names| && Distinct(names)
    ensures Distinct(PairsUpTo(names, i))
    decreases i
  {
    if i > 0 {
      PairsUpToDistinct(names, i - 1);
      var before := PairsUpTo(names, i - 1);
      var row := Row(names, i - 1);
      forall x, y | 0 <= x < y < |before + row| ensures (before + row)[x] != (before + row)[y] {
        if y >= |before| {
          if x >= |before| {
            assert (before + row)[x] == row[x - |before|];
            assert (before + row)[y] == row[y - |before|];
          } else {
            assert before[x] in before;
            PairsUpToMembers(names, i - 1, before[x]);
            var a, b :| 0 <= a < i - 1 && a <= b < |names| && before[x] == (names[a], names[b]);
            assert (before + row)[y] == row[y - |before|];
          }
        }
      }
    }
  }

  /** One match of `rounds` rounds: before round k each side is called with its
      own and the opponent's moves of rounds 0..k-1; a move outside the four
      symbols aborts. */
  function Play(left: Strategy, right: Strategy, rounds: nat): (r: Result<(History, History)>)
    ensures r.Ok? ==> |r.value.0| == rounds && |r.value.1| == rounds
    ensures r.Err? ==> r.fault == InvalidMove
    decreases rounds
  {
    if rounds == 0 then Ok(([], []))
    else match Play(left, right, rounds - 1)
      case Err(f) => Err(f)
      case Ok(h) =>
        var a := left(h.0, h.1);
        var b := right(h.1, h.0);
        if IsMove(a) && IsMove(b) then Ok((h.0 + [a], h.1 + [b])) else Err(InvalidMove)
  }

  lemma {:induction false} PlayErrPersists(left: Strategy, right: Strategy, k: nat, n: nat)
    requires k <= n && Play(left, right, k).Err?
    ensures Play(left, right, n).Err?
    decreases n
  {
    if n > k {
      PlayErrPersists(left, right, k, n - 1);
    }
  }

  /** The match loop of `play_full_league` for one pair. */
  method PlayMatch(left: Strategy, right: Strategy, rounds: nat) returns (r: Result<(History, History)>)
    ensures r == Play(left, right, rounds)
  {
    var leftDecisions: History := [];
    var rightDecisions: History := [];
    for i := 0 to rounds
      invariant Play(left, right, i) == Ok((leftDecisions, rightDecisions))
    {
      var leftDecision := left(leftDecisions, rightDecisions);
      var rightDecision := right(rightDecisions, leftDecisions);
      if IsMove(leftDecision) && IsMove(rightDecision) {
        leftDecisions := leftDecisions + [leftDecision];
        rightDecisions := rightDecisions + [rightDecision];
      } else {
        PlayErrPersists(left, right, i + 1, rounds);
        return Err(InvalidMove);
      }
    }
    return Ok((leftDecisions, rightDecisions));
  }

  /** Both sides move against the same snapshot of the earlier rounds. */
  ghost predicate Replays(left: Strategy, right: Strategy, lh: History, rh: History) {
    |lh| == |rh| &&
    forall k :: 0 <= k < |lh| ==>
      IsMove(lh[k]) && IsMove(rh[k]) &&
      lh[k] == left(lh[..k], rh[..k]) && rh[k] == right(rh[..k], lh[..k])
  }

  /** A finished match replays correctly, round by round. */
  lemma {:induction false} PlayReplays(left: Strategy, right: Strategy, rounds: nat)
    requires Play(left, right, rounds).Ok?
    ensures Replays(left, right, Play(left, right, rounds).value.0, Play(left, right, rounds).value.1)
    decreases rounds
  {
    if rounds > 0 {
      PlayReplays(left, right, rounds - 1);
      var h := Play(left, right, rounds - 1).value;
      var (lh, rh) := Play(left, right, rounds).value;
      assert lh[..rounds - 1] == h.0 && rh[..rounds - 1] == h.1;
      forall k | 0 <= k < rounds - 1
        ensures lh[..k] == h.0[..k] && rh[..k] == h.1[..k]
      {
      }
    }
  }

  /** Conversely, histories that replay correctly are the match's outcome. */
  lemma {:induction false} ReplaysArePlay(left: Strategy, right: Strategy, lh: History, rh: History)
    requires Replays(left, right, lh, rh)
    ensures Play(left, right, |lh|) == Ok((lh, rh))
    decreases |lh|
  {
    if |lh| > 0 {
      var n := |lh| - 1;
      forall k | 0 <= k < n
        ensures lh[..n][..k] == lh[..k] && rh[..n][..k] == rh[..k]
      {
      }
      assert Replays(left, right, lh[..n], rh[..n]);
      ReplaysArePlay(left, right, lh[..n], rh[..n]);
      assert lh[..n] + [lh[n]] == lh;
      assert rh[..n] + [rh[n]] == rh;
    }
  }

  /** Round k is reached after valid rounds and one side's move is not a symbol. */
  ghost predicate FailsAt(left: Strategy, right: Strategy, k: nat) {
    Play(left, right, k).Ok? &&
    var h := Play(left, right, k).value;
    !(IsMove(left(h.0, h.1)) && IsMove(right(h.1, h.0)))
  }

  /** A match fails exactly when some round, reached after valid rounds,
      produces a move outside the four symbols. */
  lemma {:induction false} PlayErrIff(left: Strategy, right: Strategy, rounds: nat)
    ensures Play(left, right, rounds).Err? <==> exists k :: 0 <= k < rounds && FailsAt(left, right, k)
    decreases rounds
  {
    if rounds > 0 {
      PlayErrIff(left, right, rounds - 1);
      if Play(left, right, rounds).Err? {
        if Play(left, right, rounds - 1).Err? {
          var k :| 0 <= k < rounds - 1 && FailsAt(left, right, k);
          assert 0 <= k < rounds && FailsAt(left, right, k);
        } else {
          assert FailsAt(left, right, rounds - 1);
        }
      } else {
        forall k | 0 <= k < rounds ensures !FailsAt(left, right, k) {
          if k == rounds - 1 {
            assert Play(left, right, rounds - 1).Ok?;
          }
        }
      }
    }
  }

  /** A strategy facing itself sees the same history on both sides. */
  lemma {:induction false} MirrorMatchIsSymmetric(f: Strategy, rounds: nat)
    requires Play(f, f, rounds).Ok?
    ensures Play(f, f, rounds).value.0 == Play(f, f, rounds).value.1
    decreases rounds
  {
    if rounds > 0 {
      MirrorMatchIsSymmetric(f, rounds - 1);
    }
  }

  /** The league loop from `records` over the remaining pairs. */
  function LeagueFrom(records: Records, pairs: seq<Pair>, bind: string -> Strategy, rounds: nat): Result<Records>
    decreases |pairs|
  {
    if pairs == [] then Ok(records)
    else match Play(bind(pairs[0].0), bind(pairs[0].1), rounds)
      case Err(f) => Err(f)
      case Ok(h) => LeagueFrom(Put(records, pairs[0], h), pairs[1..], bind, rounds)
  }

  /** `play_full_league` as a value; `bind` resolves a function name the way
      the `exec`-ed imports and `eval` do. */
  function FullLeague(strategies: Dict<string, string>, bind: string -> Strategy, rounds: nat): Result<Records>
    requires Valid(strategies)
  {
    LeagueFrom(Empty(), Pairs(Values(strategies)), bind, rounds)
  }

  /** The import loop of `play_full_league`: the first (file key, function
      name) entry whose `from <directory>.<key> import <name>` fails, if any.
      Whether an import succeeds is the parameter `importable`. */
  function FirstUnimportable(entries: seq<(string, string)>, importable: ((string, string)) -> bool): (r: Option<string>)
    ensures r.None? <==> forall i :: 0 <= i < |entries| ==> importable(entries[i])
    ensures r.Some? ==>
      exists i :: 0 <= i < |entries| && entries[i].0 == r.value &&
        !importable(entries[i]) && forall j :: 0 <= j < i ==> importable(entries[j])
    decreases |entries|
  {
    if entries == [] then None
    else if !importable(entries[0]) then Some(entries[0].0)
    else
      var r := FirstUnimportable(entries[1..], importable);
      assert forall j :: 1 <= j < |entries| ==> entries[1..][j - 1] == entries[j];
      r
  }

  /** The import loop, module by module in key order. */
  method ImportModules(strategies: Dict<string, string>, importable: ((string, string)) -> bool)
    returns (missing: Option<string>)
    requires Valid(strategies)
    ensures missing == FirstUnimportable(Items(strategies), importable)
  {
    var modules := strategies.keys;
    for i := 0 to |modules|
      invariant FirstUnimportable(Items(strategies), importable) == FirstUnimportable(Items(strategies)[i..], importable)
    {
      var entry := (modules[i], strategies.m[modules[i]]);
      assert Items(strategies)[i..][0] == entry;
      assert Items(strategies)[i..][1..] == Items(strategies)[i + 1..];
      if !importable(entry) {
        return Some(modules[i]);
      }
    }
    return None;
  }

  /** `play_full_league(directory, strategies)`: the imports, then the league. */
  function PlayedLeague(strategies: Dict<string, string>, importable: ((string, string)) -> bool,
                        bind: string -> Strategy, rounds: nat): Result<Records>
    requires Valid(strategies)
  {
    match FirstUnimportable(Items(strategies), importable)
    case Some(key) => Err(ImportFailed(key))
    case None => FullLeague(strategies, bind, rounds)
  }

  /** The league is played exactly when every registered file imports; a
      file key that does not import stops it before the first match. */
  lemma PlayedLeagueImports(strategies: Dict<string, string>, importable: ((string, string)) -> bool,
                            bind: string -> Strategy, rounds: nat)
    requires Valid(strategies)
    ensures (forall i :: 0 <= i < |strategies.keys| ==> importable((strategies.keys[i], strategies.m[strategies.keys[i]]))) ==>
      PlayedLeague(strategies, importable, bind, rounds) == FullLeague(strategies, bind, rounds)
    ensures (exists i :: 0 <= i < |strategies.keys| && !importable((strategies.keys[i], strategies.m[strategies.keys[i]]))) ==>
      PlayedLeague(strategies, importable, bind, rounds).Err? &&
      PlayedLeague(strategies, importable, bind, rounds).fault.ImportFailed? &&
      PlayedLeague(strategies, importable, bind, rounds).fault.key in strategies.m &&
      !importable((PlayedLeague(strategies, importable, bind, rounds).fault.key,
                   strategies.m[PlayedLeague(strategies, importable, bind, rounds).fault.key]))
  {
    var items := Items(strategies);
    if exists i :: 0 <= i < |strategies.keys| && !importable((strategies.keys[i], strategies.m[strategies.keys[i]])) {
      var i :| 0 <= i < |strategies.keys| && !importable((strategies.keys[i], strategies.m[strategies.keys[i]]));
      assert !importable(items[i]);
      var k := FirstUnimportable(items, importable).value;
      var j :| 0 <= j < |items| && items[j].0 == k && !importable(items[j]);
      assert strategies.keys[j] == k;
    } else {
      forall i | 0 <= i < |items| ensures importable(items[i]) {
        assert items[i] == (strategies.keys[i], strategies.m[strategies.keys[i]]);
      }
    }
  }

  /** `play_full_league(directory, strategies)` with the drawn round count. */
  method PlayFullLeague(strategies: Dict<string, string>, importable: ((string, string)) -> bool,
                        bind: string -> Strategy, rounds: nat)
    returns (r: Result<Records>)
    requires Valid(strategies)
    requires 200 <= rounds <= 400
    ensures r == PlayedLeague(strategies, importable, bind, rounds)
  {
    var missing := ImportModules(strategies, importable);
    if missing.Some? {
      return Err(ImportFailed(missing.value));
    }
    var pairs := MakePairs(Values(strategies));
    var totalRecords: Records := Empty();
    for i := 0 to |pairs|
      invariant FullLeague(strategies, bind, rounds) == LeagueFrom(totalRecords, pairs[i..], bind, rounds)
    {
      assert pairs[i..][1..] == pairs[i + 1..];
      var pair := pairs[i];
      var result := PlayMatch(bind(pair.0), bind(pair.1), rounds);
      if result.Err? {
        return Err(result.fault);
      }
      totalRecords := Put(totalRecords, pair, result.value);
    }
    return Ok(totalRecords);
  }

  lemma {:induction false} LeagueFromValid(records: Records, pairs: seq<Pair>, bind: string -> Strategy, rounds: nat)
    requires Valid(records) && LeagueFrom(records, pairs, bind, rounds).Ok?
    ensures Valid(LeagueFrom(records, pairs, bind, rounds).value)
    decreases |pairs|
  {
    if pairs != [] {
      var p0 := pairs[0];
      var h := Play(bind(p0.0), bind(p0.1), rounds).value;
      LeagueFromValid(Put(records, p0, h), pairs[1..], bind, rounds);
    }
  }

  /** A finished league holds a record for every pair played and for every
      record it started with, and nothing else. */
  lemma {:induction false} LeagueFromKeys(records: Records, pairs: seq<Pair>, bind: string -> Strategy, rounds: nat, p: Pair)
    requires LeagueFrom(records, pairs, bind, rounds).Ok?
    ensures p in LeagueFrom(records, pairs, bind, rounds).value.m <==> p in records.m || p in pairs
    ensures p !in pairs && p in records.m ==> LeagueFrom(records, pairs, bind, rounds).value.m[p] == records.m[p]
    decreases |pairs|
  {
    if pairs != [] {
      var p0 := pairs[0];
      var h := Play(bind(p0.0), bind(p0.1), rounds).value;
      LeagueFromKeys(Put(records, p0, h), pairs[1..], bind, rounds, p);
      assert p in pairs <==> p == p0 || p in pairs[1..];
    }
  }

  /** The record of a pair played in a finished league is that pair's match. */
  lemma {:induction false} LeagueFromRecord(records: Records, pairs: seq<Pair>, bind: string -> Strategy, rounds: nat, p: Pair)
    requires LeagueFrom(records, pairs, bind, rounds).Ok? && p in pairs
    ensures Play(bind(p.0), bind(p.1), rounds).Ok?
    ensures p in LeagueFrom(records, pairs, bind, rounds).value.m
    ensures LeagueFrom(records, pairs, bind, rounds).value.m[p] == Play(bind(p.0), bind(p.1), rounds).value
    decreases |pairs|
  {
    LeagueFromKeys(records, pairs, bind, rounds, p);
    var p0 := pairs[0];
    var h := Play(bind(p0.0), bind(p0.1), rounds).value;
    if p in pairs[1..] {
      LeagueFromRecord(Put(records, p0, h), pairs[1..], bind, rounds, p);
    } else {
      LeagueFromKeys(Put(records, p0, h), pairs[1..], bind, rounds, p);
    }
  }

  /** The league aborts exactly when the match of some pair aborts. */
  lemma {:induction false} LeagueFromErrIff(records: Records, pairs: seq<Pair>, bind: string -> Strategy, rounds: nat)
    ensures LeagueFrom(records, pairs, bind, rounds).Err? <==>
      exists p :: p in pairs && Play(bind(p.0), bind(p.1), rounds).Err?
    ensures LeagueFrom(records, pairs, bind, rounds).Err? ==>
      LeagueFrom(records, pairs, bind, rounds).fault == InvalidMove
    decreases |pairs|
  {
    if pairs != [] {
      var p0 := pairs[0];
      if Play(bind(p0.0), bind(p0.1), rounds).Ok? {
        var h := Play(bind(p0.0), bind(p0.1), rounds).value;
        LeagueFromErrIff(Put(records, p0, h), pairs[1..], bind, rounds);
        assert forall p :: p in pairs <==> p == p0 || p in pairs[1..];
      }
    }
  }

  lemma {:induction false} DistinctCard<T>(s: seq<T>)
    requires Distinct(s)
    ensures |set x | x in s| == |s|
    decreases |s|
  {
    if s != [] {
      var init := s[..|s| - 1];
      DistinctCard(init);
      assert (set x | x in s) == (set x | x in init) + {s[|s| - 1]};
      assert s[|s| - 1] !in init;
    }
  }

  /** What a finished league holds: one record for each pair (a, b) of the
      registered names with a before or at b, each a full match of `rounds`
      rounds replayed against the same snapshots. */
  lemma FullLeagueRecords(strategies: Dict<string, string>, bind: string -> Strategy, rounds: nat, p: Pair)
    requires Valid(strategies) && FullLeague(strategies, bind, rounds).Ok?
    ensures p in FullLeague(strategies, bind, rounds).value.m <==>
      exists a, b :: 0 <= a <= b < |Values(strategies)| && p == (Values(strategies)[a], Values(strategies)[b])
    ensures p in FullLeague(strategies, bind, rounds).value.m ==>
      Play(bind(p.0), bind(p.1), rounds).Ok? &&
      FullLeague(strategies, bind, rounds).value.m[p] == Play(bind(p.0), bind(p.1), rounds).value &&
      |FullLeague(strategies, bind, rounds).value.m[p].0| == rounds &&
      Replays(bind(p.0), bind(p.1), FullLeague(strategies, bind, rounds).value.m[p].0,
        FullLeague(strategies, bind, rounds).value.m[p].1)
  {
    var pairs := Pairs(Values(strategies));
    LeagueFromKeys(Empty(), pairs, bind, rounds, p);
    PairsMembers(Values(strategies), p);
    if p in pairs {
      LeagueFromRecord(Empty(), pairs, bind, rounds, p);
      PlayReplays(bind(p.0), bind(p.1), rounds);
    }
  }

  /** With distinct function names, k strategies play k·(k+1)/2 recorded matches. */
  lemma FullLeagueCount(strategies: Dict<string, string>, bind: string -> Strategy, rounds: nat)
    requires Valid(strategies) && FullLeague(strategies, bind, rounds).Ok?
    requires Distinct(Values(strategies))
    ensures |FullLeague(strategies, bind, rounds).value.keys| == |strategies.keys| * (|strategies.keys| + 1) / 2
  {
    var names := Values(strategies);
    var pairs := Pairs(names);
    var r := FullLeague(strategies, bind, rounds).value;
    LeagueFromValid(Empty(), pairs, bind, rounds);
    forall p ensures p in r.m <==> p in pairs {
      LeagueFromKeys(Empty(), pairs, bind, rounds, p);
    }
    PairsUpToDistinct(names, |names|);
    PairsCount(names);
    DistinctCard(pairs);
    DistinctCard(r.keys);
    assert (set x | x in pairs) == (set x | x in r.keys);
  }
}
