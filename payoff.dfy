/** The payoff matrix of the iterated Prisoner's Dilemma. */
module Payoff {
  import opened Outcomes

  /** What a strategy returns. The engine accepts exactly four strings. */
  type Move = string

  predicate IsCooperate(m: Move) { m == "c" || m == "C" }
  predicate IsDefect(m: Move) { m == "d" || m == "D" }

  /** Membership in `available_decisions`. */
  predicate IsMove(m: Move) { IsCooperate(m) || IsDefect(m) }

  /** Scores of the two players for one round; anything but the four
      symbols is a fault. */
  function Payoff(x: Move, y: Move): (r: Result<(int, int)>)
    ensures r.Ok? <==> IsMove(x) && IsMove(y)
    ensures r.Err? ==> r.fault == PayoffDomain(x, y)
    ensures r.Ok? ==> 0 <= r.value.0 <= 5 && 0 <= r.value.1 <= 5
  {
    if IsCooperate(x) && IsCooperate(y) then Ok((3, 3))
    else if IsCooperate(x) && IsDefect(y) then Ok((0, 5))
    else if IsDefect(x) && IsCooperate(y) then Ok((5, 0))
    else if IsDefect(x) && IsDefect(y) then Ok((1, 1))
    else Err(PayoffDomain(x, y))
  }

  /** The upper-case form of a valid symbol. */
  function Canonical(m: Move): (u: Move)
    requires IsMove(m)
    ensures IsMove(u) && (u == "C" <==> IsCooperate(m)) && (u == "D" <==> IsDefect(m))
  {
    if IsCooperate(m) then "C" else "D"
  }

  /** The letter case of a symbol never changes a payoff. */
  lemma PayoffIgnoresCase(x: Move, y: Move)
    requires IsMove(x) && IsMove(y)
    ensures Payoff(x, y) == Payoff(Canonical(x), Canonical(y))
  {
  }

  /** The four cells of the matrix. */
  lemma PayoffTable()
    ensures Payoff("C", "C") == Ok((3, 3))
    ensures Payoff("C", "D") == Ok((0, 5))
    ensures Payoff("D", "C") == Ok((5, 0))
    ensures Payoff("D", "D") == Ok((1, 1))
  {
  }

  /** Swapping the roles swaps the scores. */
  lemma PayoffSwap(x: Move, y: Move)
    ensures Payoff(x, y).Ok? <==> Payoff(y, x).Ok?
    ensures Payoff(x, y).Ok? ==> Payoff(y, x).value == (Payoff(x, y).value.1, Payoff(x, y).value.0)
  {
  }

  /** The matrix is a Prisoner's Dilemma: defecting pays more whatever the
      opponent does, yet mutual cooperation beats mutual defection and
      beats taking turns at exploiting each other. */
  lemma PayoffIsDilemma(y: Move)
    requires IsMove(y)
    ensures Payoff("D", y).value.0 > Payoff("C", y).value.0
    ensures Payoff("C", "C").value.0 > Payoff("D", "D").value.0
    ensures 2 * Payoff("C", "C").value.0 > Payoff("D", "C").value.0 + Payoff("C", "D").value.0
  {
  }
}
