/** The first half of `make_report`: the score matrix from the match records,
    then each strategy's obtained (row) and given (column) totals. */
module Scoring {
  import opened Outcomes
  import opened Payoff
  import opened Dicts
  import opened League

  /** `total_scores`: (row strategy, column strategy) -> score */
  type Matrix = map<Pair, real>

  /** `obtained_scores` or `given_scores`: strategy -> score, in insertion order */
  type Totals = Dict<string, real>

  /** Every (l, r) with l among lefts and r among rights has a cell. */
  ghost predicate Covers(total: Matrix, lefts: seq<string>, rights: seq<string>) {
    forall l, r :: l in lefts && r in rights ==> (l, r) in total
  }

  /** The inner initialisation loop of `make_report`: a zero cell for
      (left, r) for every r in names, the other cells unchanged. */
  method ZeroRow(total0: Matrix, left: string, names: seq<string>) returns (total: Matrix)
    ensures forall p :: p in total <==> p in total0 || (p.0 == left && p.1 in names)
    ensures forall p :: p in total ==> total[p] == (if p.0 == left && p.1 in names then 0.0 else total0[p])
  {
    total := total0;
    for j := 0 to |names|
      invariant forall p :: p in total <==> p in total0 || (p.0 == left && p.1 in names[..j])
      invariant forall p :: p in total ==> total[p] == (if p.0 == left && p.1 in names[..j] then 0.0 else total0[p])
    {
      assert names[..j + 1] == names[..j] + [names[j]];
      total := total[(left, names[j]) := 0.0];
    }
    assert names[..|names|] == names;
  }

  /** The matrix has a zero cell for exactly the pairs of lefts by rights. */
  ghost predicate ZeroOn(total: Matrix, lefts: seq<string>, rights: seq<string>) {
    (forall p :: p in total <==> p.0 in lefts && p.1 in rights) &&
    (forall p :: p in total ==> total[p] == 0.0)
  }

  /** A zero row for one more left name extends the zero block by that row. */
  lemma ZeroOnStep(before: Matrix, after: Matrix, names: seq<string>, i: nat)
    requires i < |names| && ZeroOn(before, names[..i], names)
    requires forall p :: p in after <==> p in before || (p.0 == names[i] && p.1 in names)
    requires forall p :: p in after ==> after[p] == (if p.0 == names[i] && p.1 in names then 0.0 else before[p])
    ensures ZeroOn(after, names[..i + 1], names)
  {
    assert names[..i + 1] == names[..i] + [names[i]];
  }

  /** The initialisation loops of `make_report`: a zero cell for every ordered
      pair of names and a zero total for every name, in first-seen order. */
  method InitScores(names: seq<string>) returns (total: Matrix, obtained: Totals, given: Totals)
    ensures forall p :: p in total <==> p.0 in names && p.1 in names
    ensures forall p :: p in total ==> total[p] == 0.0
    ensures obtained == FromKeys(names, 0.0) && given == FromKeys(names, 0.0)
  {
    total := map[];
    obtained := Empty();
    given := Empty();
    for i := 0 to |names|
      invariant ZeroOn(total, names[..i], names)
      invariant obtained == FromKeys(names[..i], 0.0) && given == FromKeys(names[..i], 0.0)
    {
      var left := names[i];
      FromKeysStep(names, i, 0.0);
      obtained := Put(obtained, left, 0.0);
      given := Put(given, left, 0.0);
      ghost var before := total;
      total := ZeroRow(total, left, names);
      ZeroOnStep(before, total, names, i);
    }
    assert names[..|names|] == names;
  }

  /** The left and the right payoff summed over the first |lh| rounds (the
      loop reads rh[i] for each index i of lh); the first round without a
      payoff is a fault. */
  function MatchTotals(lh: History, rh: History): (r: Result<(real, real)>)
    requires |lh| <= |rh|
    ensures r.Ok? <==> forall k :: 0 <= k < |lh| ==> IsMove(lh[k]) && IsMove(rh[k])
    ensures r.Ok? ==> 0.0 <= r.value.0 <= 5.0 * |lh| as real && 0.0 <= r.value.1 <= 5.0 * |lh| as real
    decreases |lh|
  {
    if lh == [] then Ok((0.0, 0.0))
    else
      var n := |lh| - 1;
      assert forall k :: 0 <= k < n ==> lh[..n][k] == lh[k];
      match MatchTotals(lh[..n], rh)
      case Err(f) => Err(f)
      case Ok(s) =>
        match Payoff.Payoff(lh[n], rh[n])
        case Err(f) => Err(f)
        case Ok(p) => Ok((s.0 + p.0 as real, s.1 + p.1 as real))
  }

  lemma {:induction false} MatchTotalsPrefixErr(lh: History, rh: History, i: nat)
    requires i <= |lh| <= |rh| && MatchTotals(lh[..i], rh).Err?
    ensures MatchTotals(lh, rh) == MatchTotals(lh[..i], rh)
    decreases |lh|
  {
    if i < |lh| {
      var n := |lh| - 1;
      assert lh[..n][..i] == lh[..i];
      MatchTotalsPrefixErr(lh[..n], rh, i);
    } else {
      assert lh[..i] == lh;
    }
  }

  /** Where both sides played the same moves, the two totals agree. */
  lemma {:induction false} MirrorTotalsAgree(lh: History, rh: History)
    requires |lh| <= |rh| && lh == rh[..|lh|] && MatchTotals(lh, rh).Ok?
    ensures MatchTotals(lh, rh).value.0 == MatchTotals(lh, rh).value.1
    decreases |lh|
  {
    if lh != [] {
      var n := |lh| - 1;
      assert lh[..n] == rh[..n];
      assert lh[n] == rh[n];
      assert MatchTotals(lh[..n], rh).Ok?;
      MirrorTotalsAgree(lh[..n], rh);
      PayoffSwap(lh[n], lh[n]);
    }
  }

  /** One record added to the matrix: a mirror pair adds the average of its two
      sides to its one cell; any other pair adds each side's total to that
      side's own cell. */
  function AddMatch(total: Matrix, a: string, b: string, s: (real, real)): Matrix
    requires (a, b) in total && (b, a) in total
  {
    if a == b then total[(a, a) := total[(a, a)] + (s.0 + s.1) / 2.0]
    else total[(a, b) := total[(a, b)] + s.0][(b, a) := total[(b, a)] + s.1]
  }

  /** One record scored into the matrix, or the fault of its first round
      without a payoff. */
  function ScoreRecord(total: Matrix, k: Pair, h: (History, History)): (r: Result<Matrix>)
    requires |h.0| <= |h.1| && (k.0, k.1) in total && (k.1, k.0) in total
    ensures r.Ok? ==> r.value.Keys == total.Keys
  {
    match MatchTotals(h.0, h.1)
    case Err(f) => Err(f)
    case Ok(s) => Ok(AddMatch(total, k.0, k.1, s))
  }

  /** Adding two totals one after the other adds their sum. */
  lemma AddMatchTwice(t0: Matrix, a: string, b: string, s: (real, real), u: (real, real))
    requires (a, b) in t0 && (b, a) in t0
    ensures AddMatch(AddMatch(t0, a, b, s), a, b, u) == AddMatch(t0, a, b, (s.0 + u.0, s.1 + u.1))
  {
    if a == b {
      assert (s.0 + s.1) / 2.0 + (u.0 + u.1) / 2.0 == ((s.0 + u.0) + (s.1 + u.1)) / 2.0;
    }
  }

  /** Every record key is in the records, its histories can be read side by
      side, and both of its cells exist. */
  ghost predicate Scorable(total: Matrix, keys: seq<Pair>, recs: map<Pair, (History, History)>) {
    forall i :: 0 <= i < |keys| ==>
      keys[i] in recs && |recs[keys[i]].0| <= |recs[keys[i]].1| &&
      (keys[i].0, keys[i].1) in total && (keys[i].1, keys[i].0) in total
  }

  /** The accumulation loop of `make_report` over the records with these keys. */
  function ScoreAll(total: Matrix, keys: seq<Pair>, recs: map<Pair, (History, History)>): (r: Result<Matrix>)
    requires Scorable(total, keys, recs)
    ensures r.Ok? ==> r.value.Keys == total.Keys
    decreases |keys|
  {
    if keys == [] then Ok(total)
    else
      var n := |keys| - 1;
      var k := keys[n];
      assert forall i :: 0 <= i < n ==> keys[..n][i] == keys[i];
      match ScoreAll(total, keys[..n], recs)
      case Err(f) => Err(f)
      case Ok(t) => ScoreRecord(t, k, recs[k])
  }

  lemma {:induction false} ScoreAllPrefixErr(total: Matrix, keys: seq<Pair>, recs: map<Pair, (History, History)>, i: nat)
    requires Scorable(total, keys, recs) && i <= |keys|
    requires Scorable(total, keys[..i], recs) && ScoreAll(total, keys[..i], recs).Err?
    ensures ScoreAll(total, keys, recs) == ScoreAll(total, keys[..i], recs)
    decreases |keys|
  {
    if i < |keys| {
      var n := |keys| - 1;
      assert keys[..n][..i] == keys[..i];
      assert forall j :: 0 <= j < n ==> keys[..n][j] == keys[j];
      ScoreAllPrefixErr(total, keys[..n], recs, i);
    } else {
      assert keys[..i] == keys;
    }
  }

  /** Every record with these keys has a payoff in every round. */
  ghost predicate PaidKeys(keys: seq<Pair>, recs: map<Pair, (History, History)>) {
    forall i :: 0 <= i < |keys| ==>
      keys[i] in recs && |recs[keys[i]].0| <= |recs[keys[i]].1| &&
      MatchTotals(recs[keys[i]].0, recs[keys[i]].1).Ok?
  }

  lemma PaidKeysLast(keys: seq<Pair>, recs: map<Pair, (History, History)>)
    requires keys != []
    ensures var n := |keys| - 1;
      PaidKeys(keys, recs) <==>
        PaidKeys(keys[..n], recs) && keys[n] in recs && |recs[keys[n]].0| <= |recs[keys[n]].1| &&
        MatchTotals(recs[keys[n]].0, recs[keys[n]].1).Ok?
  {
    var n := |keys| - 1;
    assert forall j :: 0 <= j < n ==> keys[..n][j] == keys[j];
  }

  /** The accumulation succeeds exactly when every record's rounds all have a
      payoff. */
  lemma {:induction false} ScoreAllOkIff(total: Matrix, keys: seq<Pair>, recs: map<Pair, (History, History)>)
    requires Scorable(total, keys, recs)
    ensures ScoreAll(total, keys, recs).Ok? <==> PaidKeys(keys, recs)
    decreases |keys|
  {
    if keys != [] {
      var n := |keys| - 1;
      var k := keys[n];
      assert Scorable(total, keys[..n], recs) by {
        assert forall j :: 0 <= j < n ==> keys[..n][j] == keys[j];
      }
      ScoreAllOkIff(total, keys[..n], recs);
      PaidKeysLast(keys, recs);
      match ScoreAll(total, keys[..n], recs)
      case Err(_) =>
      case Ok(t) =>
        assert ScoreAll(total, keys, recs) == ScoreRecord(t, k, recs[k]);
    }
  }

  /** Every recorded match has a payoff in every round. */
  ghost predicate Paid(records: Records) {
    forall p :: p in records.m ==>
      |records.m[p].0| <= |records.m[p].1| && MatchTotals(records.m[p].0, records.m[p].1).Ok?
  }

  /** The same over a records dictionary: accumulation succeeds exactly when
      every recorded match has a payoff in every round. */
  lemma ScoreRecordsOkIff(total: Matrix, records: Records)
    requires Valid(records) && Scorable(total, records.keys, records.m)
    ensures ScoreAll(total, records.keys, records.m).Ok? <==> Paid(records)
  {
    ScoreAllOkIff(total, records.keys, records.m);
    forall p | p in records.m ensures exists i :: 0 <= i < |records.keys| && records.keys[i] == p {
      assert p in records.keys;
    }
    assert PaidKeys(records.keys, records.m) <==> Paid(records);
  }

  /** The body of the inner accumulation loop: one round's payoffs added in
      place, averaged on a mirror pair's single cell. */
  method AddRound(total0: Matrix, pair: Pair, leftScore: real, rightScore: real) returns (total: Matrix)
    requires (pair.0, pair.1) in total0 && (pair.1, pair.0) in total0
    ensures total == AddMatch(total0, pair.0, pair.1, (leftScore, rightScore))
  {
    total := total0;
    if pair.0 == pair.1 {
      total := total[(pair.0, pair.1) := total[(pair.0, pair.1)] + (leftScore + rightScore) / 2.0];
    } else {
      total := total[(pair.0, pair.1) := total[(pair.0, pair.1)] + leftScore];
      total := total[(pair.1, pair.0) := total[(pair.1, pair.0)] + rightScore];
    }
  }

  /** The inner accumulation loop of `make_report`: one record, round by
      round. */
  method ScoreMatch(total0: Matrix, pair: Pair, leftDecisions: History, rightDecisions: History) returns (r: Result<Matrix>)
    requires |leftDecisions| <= |rightDecisions|
    requires (pair.0, pair.1) in total0 && (pair.1, pair.0) in total0
    ensures r == ScoreRecord(total0, pair, (leftDecisions, rightDecisions))
  {
    var total := total0;
    for i := 0 to |leftDecisions|
      invariant MatchTotals(leftDecisions[..i], rightDecisions).Ok?
      invariant total == AddMatch(total0, pair.0, pair.1, MatchTotals(leftDecisions[..i], rightDecisions).value)
    {
      assert leftDecisions[..i + 1][..i] == leftDecisions[..i];
      ghost var s := MatchTotals(leftDecisions[..i], rightDecisions).value;
      var p := Payoff.Payoff(leftDecisions[i], rightDecisions[i]);
      if p.Err? {
        MatchTotalsPrefixErr(leftDecisions, rightDecisions, i + 1);
        return Err(p.fault);
      }
      var (leftScore, rightScore) := p.value;
      AddMatchTwice(total0, pair.0, pair.1, s, (leftScore as real, rightScore as real));
      total := AddRound(total, pair, leftScore as real, rightScore as real);
    }
    assert leftDecisions[..|leftDecisions|] == leftDecisions;
    return Ok(total);
  }

  /** The accumulation loop of `make_report` over all records, in record order. */
  method AccumulateScores(total0: Matrix, records: Records) returns (r: Result<Matrix>)
    requires Scorable(total0, records.keys, records.m)
    ensures r == ScoreAll(total0, records.keys, records.m)
  {
    var total := total0;
    var keys := records.keys;
    for k := 0 to |keys|
      invariant Scorable(total0, keys[..k], records.m)
      invariant ScoreAll(total0, keys[..k], records.m) == Ok(total)
    {
      var pair := keys[k];
      var (leftDecisions, rightDecisions) := records.m[pair];
      assert keys[..k + 1][..k] == keys[..k];
      assert forall i :: 0 <= i < k + 1 ==> keys[..k + 1][i] == keys[i];
      var scored := ScoreMatch(total, pair, leftDecisions, rightDecisions);
      if scored.Err? {
        ScoreAllPrefixErr(total0, keys, records.m, k + 1);
        return Err(scored.fault);
      }
      total := scored.value;
    }
    assert keys[..|keys|] == keys;
    return Ok(total);
  }

  /** The two totals of a record, or zeros for one that cannot be scored. */
  function RecordTotals(h: (History, History)): (real, real) {
    if |h.0| <= |h.1| && MatchTotals(h.0, h.1).Ok? then MatchTotals(h.0, h.1).value else (0.0, 0.0)
  }

  /** What the records with these keys put into cell (x, y), stated cell by
      cell: a mirror cell holds the average of its record's two sides; any
      other cell holds the left total of the record of (x, y) plus the right
      total of the record of (y, x), each zero when that record is absent. */
  ghost function Cell(keys: seq<Pair>, recs: map<Pair, (History, History)>, x: string, y: string): real
    requires forall i :: 0 <= i < |keys| ==> keys[i] in recs
  {
    if x == y then
      (if (x, x) in keys then (RecordTotals(recs[(x, x)]).0 + RecordTotals(recs[(x, x)]).1) / 2.0 else 0.0)
    else
      (if (x, y) in keys then RecordTotals(recs[(x, y)]).0 else 0.0) +
      (if (y, x) in keys then RecordTotals(recs[(y, x)]).1 else 0.0)
  }

  /** What one record of pair k with totals s adds to cell (x, y). */
  function Contribution(k: Pair, s: (real, real), x: string, y: string): real {
    if k.0 == k.1 then (if (x, y) == k then (s.0 + s.1) / 2.0 else 0.0)
    else if (x, y) == k then s.0
    else if (x, y) == (k.1, k.0) then s.1
    else 0.0
  }

  lemma AddMatchCell(t: Matrix, k: Pair, s: (real, real), x: string, y: string)
    requires (k.0, k.1) in t && (k.1, k.0) in t && (x, y) in t
    ensures AddMatch(t, k.0, k.1, s)[(x, y)] == t[(x, y)] + Contribution(k, s, x, y)
  {
  }

  /** A record whose key was not yet listed adds its contribution to Cell. */
  lemma CellStep(prefix: seq<Pair>, k: Pair, recs: map<Pair, (History, History)>, x: string, y: string)
    requires forall i :: 0 <= i < |prefix| ==> prefix[i] in recs
    requires k in recs && k !in prefix
    ensures forall i :: 0 <= i < |prefix + [k]| ==> (prefix + [k])[i] in recs
    ensures Cell(prefix + [k], recs, x, y) == Cell(prefix, recs, x, y) + Contribution(k, RecordTotals(recs[k]), x, y)
  {
    var keys := prefix + [k];
    assert forall p :: p in keys <==> p in prefix || p == k;
  }

  /** Each cell of the accumulated matrix is its initial value plus what the
      records put into it. */
  lemma {:induction false} ScoreAllCell(total: Matrix, keys: seq<Pair>, recs: map<Pair, (History, History)>, x: string, y: string)
    requires Scorable(total, keys, recs) && Distinct(keys)
    requires ScoreAll(total, keys, recs).Ok? && (x, y) in total
    ensures ScoreAll(total, keys, recs).value[(x, y)] == total[(x, y)] + Cell(keys, recs, x, y)
    decreases |keys|
  {
    if keys == [] {
    } else {
      var n := |keys| - 1;
      var k := keys[n];
      var prefix := keys[..n];
      assert forall i :: 0 <= i < n ==> prefix[i] == keys[i];
      assert keys == prefix + [k];
      assert Distinct(prefix);
      assert k !in prefix by {
        forall i | 0 <= i < n ensures prefix[i] != k {
          assert keys[i] != keys[n];
        }
      }
      var t := ScoreAll(total, prefix, recs).value;
      ScoreAllCell(total, prefix, recs, x, y);
      assert MatchTotals(recs[k].0, recs[k].1).Ok?;
      assert RecordTotals(recs[k]) == MatchTotals(recs[k].0, recs[k].1).value;
      assert ScoreAll(total, keys, recs).value == AddMatch(t, k.0, k.1, RecordTotals(recs[k]));
      AddMatchCell(t, k, RecordTotals(recs[k]), x, y);
      CellStep(prefix, k, recs, x, y);
    }
  }

  /** A pair of strategies with no record in either order keeps a zero cell. */
  lemma NoRecordNoScore(total: Matrix, keys: seq<Pair>, recs: map<Pair, (History, History)>, x: string, y: string)
    requires Scorable(total, keys, recs) && Distinct(keys)
    requires ScoreAll(total, keys, recs).Ok? && (x, y) in total && total[(x, y)] == 0.0
    requires (x, y) !in keys && (y, x) !in keys
    ensures ScoreAll(total, keys, recs).value[(x, y)] == 0.0
  {
    ScoreAllCell(total, keys, recs, x, y);
  }

  /** A strategy's cell against itself holds the score of its own moves
      against themselves, since a mirror match is symmetric. */
  lemma MirrorCell(total: Matrix, keys: seq<Pair>, recs: map<Pair, (History, History)>, x: string)
    requires Scorable(total, keys, recs) && Distinct(keys)
    requires ScoreAll(total, keys, recs).Ok? && (x, x) in total && total[(x, x)] == 0.0
    requires (x, x) in keys && recs[(x, x)].0 == recs[(x, x)].1
    ensures ScoreAll(total, keys, recs).value[(x, x)] == RecordTotals(recs[(x, x)]).0
  {
    ScoreAllCell(total, keys, recs, x, x);
    var h := recs[(x, x)];
    if MatchTotals(h.0, h.1).Ok? {
      assert h.1[..|h.0|] == h.0;
      MirrorTotalsAgree(h.0, h.1);
    }
  }

  /** The sum of the cells (s, r) over r in rights. */
  function RowSum(total: Matrix, s: string, rights: seq<string>): real
    requires forall r :: r in rights ==> (s, r) in total
    decreases |rights|
  {
    if rights == [] then 0.0
    else RowSum(total, s, rights[..|rights| - 1]) + total[(s, rights[|rights| - 1])]
  }

  /** The sum of the cells (l, s) over l in lefts. */
  function ColSum(total: Matrix, s: string, lefts: seq<string>): real
    requires forall l :: l in lefts ==> (l, s) in total
    decreases |lefts|
  {
    if lefts == [] then 0.0
    else ColSum(total, s, lefts[..|lefts| - 1]) + total[(lefts[|lefts| - 1], s)]
  }

  /** How many times x occurs in xs. */
  function Occurrences(xs: seq<string>, x: string): nat
    decreases |xs|
  {
    if xs == [] then 0
    else Occurrences(xs[..|xs| - 1], x) + (if xs[|xs| - 1] == x then 1 else 0)
  }

  /** What the summing loops add to `obtained_scores[s]`: for each left equal to
      s, the whole of row s. */
  function ObtainedSum(total: Matrix, lefts: seq<string>, rights: seq<string>, s: string): real
    requires Covers(total, lefts, rights)
    decreases |lefts|
  {
    if lefts == [] then 0.0
    else
      var n := |lefts| - 1;
      ObtainedSum(total, lefts[..n], rights, s) + (if lefts[n] == s then RowSum(total, s, rights) else 0.0)
  }

  /** What one pass of the inner summing loop adds to `given_scores[s]`: the
      cell (l, s) once for each right equal to s. */
  function ColPart(total: Matrix, l: string, rights: seq<string>, s: string): real
    requires forall r :: r in rights ==> (l, r) in total
    decreases |rights|
  {
    if rights == [] then 0.0
    else
      var n := |rights| - 1;
      ColPart(total, l, rights[..n], s) + (if rights[n] == s then total[(l, s)] else 0.0)
  }

  /** What the summing loops add to `given_scores[s]`. */
  function GivenSum(total: Matrix, lefts: seq<string>, rights: seq<string>, s: string): real
    requires Covers(total, lefts, rights)
    decreases |lefts|
  {
    if lefts == [] then 0.0
    else
      var n := |lefts| - 1;
      GivenSum(total, lefts[..n], rights, s) + ColPart(total, lefts[n], rights, s)
  }

  /** The values of a dictionary added up, in key order. */
  function SumOver(keys: seq<string>, m: map<string, real>): real
    decreases |keys|
  {
    if keys == [] then 0.0
    else
      var k := keys[|keys| - 1];
      SumOver(keys[..|keys| - 1], m) + (if k in m then m[k] else 0.0)
  }

  /** `sum(d.values())` */
  function SumValues(d: Totals): real {
    SumOver(d.keys, d.m)
  }

  /** Changing one listed key's value changes the sum by the difference. */
  lemma {:induction false} SumOverUpdate(keys: seq<string>, m: map<string, real>, k: string, v: real)
    requires Distinct(keys) && k in keys && k in m
    ensures SumOver(keys, m[k := v]) == SumOver(keys, m) - m[k] + v
    decreases |keys|
  {
    var n := |keys| - 1;
    var prefix := keys[..n];
    assert forall i :: 0 <= i < n ==> prefix[i] == keys[i];
    assert keys == prefix + [keys[n]];
    assert Distinct(prefix);
    if keys[n] == k {
      assert k !in prefix by {
        forall i | 0 <= i < n ensures prefix[i] != k {
          assert keys[i] != keys[n];
        }
      }
      SumOverUnchanged(prefix, m, k, v);
    } else {
      SumOverUpdate(prefix, m, k, v);
    }
  }

  lemma {:induction false} SumOverUnchanged(keys: seq<string>, m: map<string, real>, k: string, v: real)
    requires k !in keys
    ensures SumOver(keys, m[k := v]) == SumOver(keys, m)
    decreases |keys|
  {
    if keys != [] {
      var n := |keys| - 1;
      assert forall i :: 0 <= i < n ==> keys[..n][i] == keys[i];
      SumOverUnchanged(keys[..n], m, k, v);
    }
  }

  /** Overwriting one total changes the grand total by the difference. */
  lemma PutSum(d: Totals, k: string, v: real)
    requires Distinct(d.keys) && k in d.keys && k in d.m
    ensures SumValues(Put(d, k, v)) == SumValues(d) - d.m[k] + v
  {
    SumOverUpdate(d.keys, d.m, k, v);
  }

  /** Fresh totals sum to zero. */
  lemma {:induction false} FromKeysSumsToZero(names: seq<string>)
    ensures SumValues(FromKeys(names, 0.0)) == 0.0
    decreases |names|
  {
    var d := FromKeys(names, 0.0);
    forall i | 0 <= i <= |d.keys| ensures SumOver(d.keys[..i], d.m) == 0.0 {
      ZeroPrefix(d.keys, d.m, i);
    }
    assert d.keys[..|d.keys|] == d.keys;
  }

  lemma {:induction false} ZeroPrefix(keys: seq<string>, m: map<string, real>, i: nat)
    requires i <= |keys| && forall k :: k in keys ==> k in m && m[k] == 0.0
    ensures SumOver(keys[..i], m) == 0.0
    decreases i
  {
    if i > 0 {
      assert keys[..i][..i - 1] == keys[..i - 1];
      assert keys[i - 1] in keys;
      ZeroPrefix(keys, m, i - 1);
    }
  }

  /** Row left, up to the columns in rights, has been added to left's
      obtained total and to each column's given total. */
  ghost predicate RowAdded(total: Matrix, left: string, rights: seq<string>,
                           obtained0: Totals, given0: Totals, obtained: Totals, given: Totals)
    requires forall r :: r in rights ==> (left, r) in total
  {
    obtained.m.Keys == obtained0.m.Keys && given.m.Keys == given0.m.Keys &&
    (forall s :: s in obtained.m ==>
      obtained.m[s] == obtained0.m[s] + (if s == left then RowSum(total, left, rights) else 0.0)) &&
    (forall s :: s in given.m ==> given.m[s] == given0.m[s] + ColPart(total, left, rights, s))
  }

  lemma RowAddedStep(total: Matrix, left: string, rights: seq<string>, right: string,
                     obtained0: Totals, given0: Totals, obtained: Totals, given: Totals)
    requires forall r :: r in rights + [right] ==> (left, r) in total
    requires RowAdded(total, left, rights, obtained0, given0, obtained, given)
    requires left in obtained.m && right in given.m
    ensures RowAdded(total, left, rights + [right], obtained0, given0,
      Put(obtained, left, obtained.m[left] + total[(left, right)]),
      Put(given, right, given.m[right] + total[(left, right)]))
  {
    var t := total[(left, right)];
    var rights' := rights + [right];
    var obtained' := Put(obtained, left, obtained.m[left] + t);
    var given' := Put(given, right, given.m[right] + t);
    assert rights'[..|rights|] == rights && rights'[|rights|] == right;
    assert RowSum(total, left, rights') == RowSum(total, left, rights) + t;
    forall s | s in obtained'.m
      ensures obtained'.m[s] == obtained0.m[s] + (if s == left then RowSum(total, left, rights') else 0.0)
    {
    }
    forall s | s in given'.m
      ensures given'.m[s] == given0.m[s] + ColPart(total, left, rights', s)
    {
      assert ColPart(total, left, rights', s) == ColPart(total, left, rights, s) + (if right == s then t else 0.0);
    }
  }

  /** The cell (left, right) added to left's obtained total and to right's
      given total. */
  function AddCell(total: Matrix, left: string, right: string, acc: (Totals, Totals)): (r: (Totals, Totals))
    requires (left, right) in total && left in acc.0.m && right in acc.1.m
    ensures r.0.m.Keys == acc.0.m.Keys && r.1.m.Keys == acc.1.m.Keys
    ensures r.0.keys == acc.0.keys && r.1.keys == acc.1.keys
  {
    var t := total[(left, right)];
    (Put(acc.0, left, acc.0.m[left] + t), Put(acc.1, right, acc.1.m[right] + t))
  }

  /** One cell raises both grand totals by its value. */
  lemma AddCellBalance(total: Matrix, left: string, right: string, acc: (Totals, Totals))
    requires (left, right) in total && left in acc.0.m && right in acc.1.m
    requires Distinct(acc.0.keys) && Distinct(acc.1.keys) && left in acc.0.keys && right in acc.1.keys
    ensures SumValues(AddCell(total, left, right, acc).0) == SumValues(acc.0) + total[(left, right)]
    ensures SumValues(AddCell(total, left, right, acc).1) == SumValues(acc.1) + total[(left, right)]
  {
    var t := total[(left, right)];
    PutSum(acc.0, left, acc.0.m[left] + t);
    PutSum(acc.1, right, acc.1.m[right] + t);
  }

  /** Row left can be summed over the columns in rights. */
  ghost predicate RowReady(total: Matrix, left: string, rights: seq<string>, acc: (Totals, Totals)) {
    left in acc.0.m && forall r :: r in rights ==> (left, r) in total && r in acc.1.m
  }

  /** The inner summing loop as a value: every cell of row left, column by
      column. */
  function RowPass(total: Matrix, left: string, rights: seq<string>, acc: (Totals, Totals)): (r: (Totals, Totals))
    requires RowReady(total, left, rights, acc)
    ensures r.0.m.Keys == acc.0.m.Keys && r.1.m.Keys == acc.1.m.Keys
    ensures r.0.keys == acc.0.keys && r.1.keys == acc.1.keys
    decreases |rights|
  {
    if rights == [] then acc
    else
      var n := |rights| - 1;
      assert forall r :: r in rights[..n] ==> r in rights;
      AddCell(total, left, rights[n], RowPass(total, left, rights[..n], acc))
  }

  /** Every row in lefts can be summed over the columns in rights. */
  ghost predicate SumReady(total: Matrix, lefts: seq<string>, rights: seq<string>, acc: (Totals, Totals)) {
    Covers(total, lefts, rights) &&
    (forall l :: l in lefts ==> l in acc.0.m) && (forall r :: r in rights ==> r in acc.1.m)
  }

  lemma ReadyPrefix(total: Matrix, lefts: seq<string>, rights: seq<string>, acc: (Totals, Totals), i: nat)
    requires SumReady(total, lefts, rights, acc) && i <= |lefts|
    ensures SumReady(total, lefts[..i], rights, acc)
  {
    assert forall l :: l in lefts[..i] ==> l in lefts;
  }

  lemma ReadyForRow(total: Matrix, lefts: seq<string>, rights: seq<string>, acc: (Totals, Totals),
                    acc': (Totals, Totals), l: string)
    requires SumReady(total, lefts, rights, acc) && l in lefts
    requires acc'.0.m.Keys == acc.0.m.Keys && acc'.1.m.Keys == acc.1.m.Keys
    ensures RowReady(total, l, rights, acc')
  {
  }

  /** The summing loops of `make_report` as a value: row by row. */
  function SumPass(total: Matrix, lefts: seq<string>, rights: seq<string>, acc: (Totals, Totals)): (r: (Totals, Totals))
    requires SumReady(total, lefts, rights, acc)
    ensures r.0.m.Keys == acc.0.m.Keys && r.1.m.Keys == acc.1.m.Keys
    ensures r.0.keys == acc.0.keys && r.1.keys == acc.1.keys
    decreases |lefts|
  {
    if lefts == [] then acc
    else
      var n := |lefts| - 1;
      ReadyPrefix(total, lefts, rights, acc, n);
      var prev := SumPass(total, lefts[..n], rights, acc);
      ReadyForRow(total, lefts, rights, acc, prev, lefts[n]);
      RowPass(total, lefts[n], rights, prev)
  }

  lemma {:induction false} RowPassValid(total: Matrix, left: string, rights: seq<string>, acc: (Totals, Totals))
    requires RowReady(total, left, rights, acc) && Valid(acc.0) && Valid(acc.1)
    ensures Valid(RowPass(total, left, rights, acc).0) && Valid(RowPass(total, left, rights, acc).1)
    decreases |rights|
  {
    if rights != [] {
      var n := |rights| - 1;
      assert forall r :: r in rights[..n] ==> r in rights;
      RowPassValid(total, left, rights[..n], acc);
      var prev := RowPass(total, left, rights[..n], acc);
      var t := total[(left, rights[n])];
      PutValid(prev.0, left, prev.0.m[left] + t);
      PutValid(prev.1, rights[n], prev.1.m[rights[n]] + t);
    }
  }

  /** One row pass adds row left to left's obtained total and each of its
      cells to that column's given total. */
  lemma {:induction false} RowPassAdds(total: Matrix, left: string, rights: seq<string>, acc: (Totals, Totals))
    requires RowReady(total, left, rights, acc)
    ensures RowAdded(total, left, rights, acc.0, acc.1, RowPass(total, left, rights, acc).0, RowPass(total, left, rights, acc).1)
    decreases |rights|
  {
    if rights != [] {
      var n := |rights| - 1;
      assert rights == rights[..n] + [rights[n]];
      RowPassAdds(total, left, rights[..n], acc);
      var prev := RowPass(total, left, rights[..n], acc);
      RowAddedStep(total, left, rights[..n], rights[n], acc.0, acc.1, prev.0, prev.1);
    }
  }

  /** One row pass adds the same amount to both grand totals. */
  lemma {:induction false} RowPassBalance(total: Matrix, left: string, rights: seq<string>, acc: (Totals, Totals))
    requires RowReady(total, left, rights, acc) && Valid(acc.0) && Valid(acc.1)
    ensures SumValues(RowPass(total, left, rights, acc).0) - SumValues(RowPass(total, left, rights, acc).1)
      == SumValues(acc.0) - SumValues(acc.1)
    decreases |rights|
  {
    if rights != [] {
      var n := |rights| - 1;
      assert forall r :: r in rights[..n] ==> r in rights;
      RowPassBalance(total, left, rights[..n], acc);
      var prev := RowPass(total, left, rights[..n], acc);
      var t := total[(left, rights[n])];
      assert left in prev.0.keys && rights[n] in prev.1.keys;
      AddCellBalance(total, left, rights[n], prev);
    }
  }

  lemma {:induction false} SumPassValid(total: Matrix, lefts: seq<string>, rights: seq<string>, acc: (Totals, Totals))
    requires SumReady(total, lefts, rights, acc) && Valid(acc.0) && Valid(acc.1)
    ensures Valid(SumPass(total, lefts, rights, acc).0) && Valid(SumPass(total, lefts, rights, acc).1)
    decreases |lefts|
  {
    if lefts != [] {
      var n := |lefts| - 1;
      assert forall l :: l in lefts[..n] ==> l in lefts;
      SumPassValid(total, lefts[..n], rights, acc);
      RowPassValid(total, lefts[n], rights, SumPass(total, lefts[..n], rights, acc));
    }
  }

  /** What the summing loops compute: obtained[s] grows by ObtainedSum and
      given[s] by GivenSum. */
  lemma {:induction false} SumPassAdds(total: Matrix, lefts: seq<string>, rights: seq<string>, acc: (Totals, Totals))
    requires SumReady(total, lefts, rights, acc)
    ensures forall s :: s in acc.0.m ==>
      SumPass(total, lefts, rights, acc).0.m[s] == acc.0.m[s] + ObtainedSum(total, lefts, rights, s)
    ensures forall s :: s in acc.1.m ==>
      SumPass(total, lefts, rights, acc).1.m[s] == acc.1.m[s] + GivenSum(total, lefts, rights, s)
    decreases |lefts|
  {
    if lefts != [] {
      var n := |lefts| - 1;
      assert forall l :: l in lefts[..n] ==> l in lefts;
      SumPassAdds(total, lefts[..n], rights, acc);
      RowPassAdds(total, lefts[n], rights, SumPass(total, lefts[..n], rights, acc));
    }
  }

  /** The summing loops add the same amount to both grand totals. */
  lemma {:induction false} SumPassBalance(total: Matrix, lefts: seq<string>, rights: seq<string>, acc: (Totals, Totals))
    requires SumReady(total, lefts, rights, acc) && Valid(acc.0) && Valid(acc.1)
    ensures SumValues(SumPass(total, lefts, rights, acc).0) - SumValues(SumPass(total, lefts, rights, acc).1)
      == SumValues(acc.0) - SumValues(acc.1)
    decreases |lefts|
  {
    if lefts != [] {
      var n := |lefts| - 1;
      assert forall l :: l in lefts[..n] ==> l in lefts;
      SumPassBalance(total, lefts[..n], rights, acc);
      SumPassValid(total, lefts[..n], rights, acc);
      RowPassBalance(total, lefts[n], rights, SumPass(total, lefts[..n], rights, acc));
    }
  }

  /** One more column of the inner summing loop. */
  lemma RowPassLast(total: Matrix, left: string, rights: seq<string>, acc: (Totals, Totals), j: nat)
    requires RowReady(total, left, rights, acc) && j < |rights|
    ensures RowReady(total, left, rights[..j], acc) && RowReady(total, left, rights[..j + 1], acc)
    ensures (left, rights[j]) in total && left in RowPass(total, left, rights[..j], acc).0.m &&
      rights[j] in RowPass(total, left, rights[..j], acc).1.m
    ensures RowPass(total, left, rights[..j + 1], acc) ==
      AddCell(total, left, rights[j], RowPass(total, left, rights[..j], acc))
  {
    assert forall r :: r in rights[..j + 1] ==> r in rights;
    assert forall r :: r in rights[..j] ==> r in rights;
    assert rights[..j + 1][..j] == rights[..j] && rights[..j + 1][j] == rights[j];
  }

  /** The two assignments of the inner summing loop take the first j columns
      to the first j + 1. */
  lemma RowPassStep(total: Matrix, left: string, rights: seq<string>, acc: (Totals, Totals), j: nat,
                    right: string, obtained: Totals, given: Totals)
    requires RowReady(total, left, rights, acc) && j < |rights| && right == rights[j]
    requires RowReady(total, left, rights[..j], acc)
    requires (obtained, given) == RowPass(total, left, rights[..j], acc)
    ensures (left, right) in total && left in obtained.m && right in given.m
    ensures RowReady(total, left, rights[..j + 1], acc)
    ensures (Put(obtained, left, obtained.m[left] + total[(left, right)]),
             Put(given, right, given.m[right] + total[(left, right)])) ==
      RowPass(total, left, rights[..j + 1], acc)
  {
    RowPassLast(total, left, rights, acc, j);
  }

  /** The inner summing loop of `make_report` for one left. */
  method SumRow(names: seq<string>, total: Matrix, left: string, obtained0: Totals, given0: Totals) returns (obtained: Totals, given: Totals)
    requires RowReady(total, left, names, (obtained0, given0))
    ensures (obtained, given) == RowPass(total, left, names, (obtained0, given0))
  {
    obtained := obtained0;
    given := given0;
    for j := 0 to |names|
      invariant RowReady(total, left, names[..j], (obtained0, given0))
      invariant (obtained, given) == RowPass(total, left, names[..j], (obtained0, given0))
    {
      var right := names[j];
      RowPassStep(total, left, names, (obtained0, given0), j, right, obtained, given);
      obtained := Put(obtained, left, obtained.m[left] + total[(left, right)]);
      given := Put(given, right, given.m[right] + total[(left, right)]);
    }
    assert names[..|names|] == names;
  }

  /** The summing loops of `make_report`: every cell (left, right) is added to
      left's obtained total and to right's given total. */
  method SumScores(names: seq<string>, total: Matrix, obtained0: Totals, given0: Totals) returns (obtained: Totals, given: Totals)
    requires SumReady(total, names, names, (obtained0, given0))
    ensures (obtained, given) == SumPass(total, names, names, (obtained0, given0))
  {
    obtained := obtained0;
    given := given0;
    for i := 0 to |names|
      invariant (obtained, given) == SumPass(total, names[..i], names, (obtained0, given0))
    {
      var left := names[i];
      assert names[..i + 1][..i] == names[..i];
      ReadyPrefix(total, names, names, (obtained0, given0), i + 1);
      ReadyForRow(total, names, names, (obtained0, given0), (obtained, given), left);
      obtained, given := SumRow(names, total, left, obtained, given);
    }
    assert names[..|names|] == names;
  }

  /** The obtained total of s is row s, counted once per occurrence of s. */
  lemma {:induction false} ObtainedIsRowSum(total: Matrix, lefts: seq<string>, rights: seq<string>, s: string)
    requires Covers(total, lefts, rights) && s in lefts
    ensures ObtainedSum(total, lefts, rights, s) == Occurrences(lefts, s) as real * RowSum(total, s, rights)
    decreases |lefts|
  {
    var n := |lefts| - 1;
    var prefix := lefts[..n];
    assert forall i :: 0 <= i < n ==> prefix[i] == lefts[i];
    var c := Occurrences(prefix, s) as real;
    var row := RowSum(total, s, rights);
    if s in prefix {
      ObtainedIsRowSum(total, prefix, rights, s);
    } else {
      PrefixWithoutSum(total, prefix, rights, s);
    }
    assert (c + 1.0) * row == c * row + row;
  }

  lemma {:induction false} PrefixWithoutSum(total: Matrix, lefts: seq<string>, rights: seq<string>, s: string)
    requires Covers(total, lefts, rights) && s !in lefts
    ensures ObtainedSum(total, lefts, rights, s) == 0.0 && Occurrences(lefts, s) == 0
    decreases |lefts|
  {
    if lefts != [] {
      var n := |lefts| - 1;
      assert forall i :: 0 <= i < n ==> lefts[..n][i] == lefts[i];
      PrefixWithoutSum(total, lefts[..n], rights, s);
    }
  }

  /** One pass's share of the given total of s is the cell (l, s), counted once
      per occurrence of s among the rights. */
  lemma {:induction false} ColPartIsCell(total: Matrix, l: string, rights: seq<string>, s: string)
    requires forall r :: r in rights ==> (l, r) in total
    requires (l, s) in total
    ensures ColPart(total, l, rights, s) == Occurrences(rights, s) as real * total[(l, s)]
    decreases |rights|
  {
    if rights != [] {
      var n := |rights| - 1;
      assert forall i :: 0 <= i < n ==> rights[..n][i] == rights[i];
      ColPartIsCell(total, l, rights[..n], s);
      var c := Occurrences(rights[..n], s) as real;
      assert (c + 1.0) * total[(l, s)] == c * total[(l, s)] + total[(l, s)];
    }
  }

  /** The given total of s is column s, counted once per occurrence of s. */
  lemma {:induction false} GivenIsColSum(total: Matrix, lefts: seq<string>, rights: seq<string>, s: string)
    requires Covers(total, lefts, rights) && s in rights
    ensures GivenSum(total, lefts, rights, s) == Occurrences(rights, s) as real * ColSum(total, s, lefts)
    decreases |lefts|
  {
    if lefts != [] {
      var n := |lefts| - 1;
      assert forall i :: 0 <= i < n ==> lefts[..n][i] == lefts[i];
      GivenIsColSum(total, lefts[..n], rights, s);
      ColPartIsCell(total, lefts[n], rights, s);
      var c := Occurrences(rights, s) as real;
      assert c * ColSum(total, s, lefts[..n]) + c * total[(lefts[n], s)]
        == c * (ColSum(total, s, lefts[..n]) + total[(lefts[n], s)]);
    }
  }

  /** A name listed once occurs once. */
  lemma {:induction false} DistinctOccursOnce(xs: seq<string>, x: string)
    requires Distinct(xs) && x in xs
    ensures Occurrences(xs, x) == 1
    decreases |xs|
  {
    var n := |xs| - 1;
    var prefix := xs[..n];
    assert forall i :: 0 <= i < n ==> prefix[i] == xs[i];
    assert xs == prefix + [xs[n]];
    if xs[n] == x {
      assert x !in prefix by {
        forall i | 0 <= i < n ensures prefix[i] != x {
          assert xs[i] != xs[n];
        }
      }
      PrefixWithoutSum(map[], prefix, [], x);
    } else {
      DistinctOccursOnce(prefix, x);
    }
  }

  /** With distinct names, obtained is the row sum and given the column sum. */
  lemma RowAndColumnSums(total: Matrix, names: seq<string>, s: string)
    requires Covers(total, names, names) && Distinct(names) && s in names
    ensures ObtainedSum(total, names, names, s) == RowSum(total, s, names)
    ensures GivenSum(total, names, names, s) == ColSum(total, s, names)
  {
    DistinctOccursOnce(names, s);
    ObtainedIsRowSum(total, names, names, s);
    GivenIsColSum(total, names, names, s);
  }
}
