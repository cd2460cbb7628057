/**
 * `include/option_types.hpp`: the call/put tag, and the vanilla payoff that
 * the SLV pricer, the GBM pricer and the American PDE solver each write out
 * as `max(ST - K, 0)` for a call and `max(K - ST, 0)` for a put.
 */
module OptionTypes {
  import opened Numerics

  datatype OptionType = Call | Put

  /** The vanilla payoff at expiry; never negative. */
  function Payoff(ST: real, K: real, kind: OptionType): (p: real)
    ensures 0.0 <= p
    ensures kind == Call ==> (p == 0.0 <==> ST <= K)
    ensures kind == Put ==> (p == 0.0 <==> K <= ST)
  {
    if kind == Call then Max(ST - K, 0.0) else Max(K - ST, 0.0)
  }

  /** Put-call parity of the payoffs: call minus put is ST - K. */
  lemma PayoffParity(ST: real, K: real)
    ensures Payoff(ST, K, Call) - Payoff(ST, K, Put) == ST - K
  {}

  /** A call payoff never falls as the terminal spot rises, and a put's never rises. */
  lemma PayoffMonotone(ST1: real, ST2: real, K: real)
    requires ST1 <= ST2
    ensures Payoff(ST1, K, Call) <= Payoff(ST2, K, Call)
    ensures Payoff(ST2, K, Put) <= Payoff(ST1, K, Put)
  {}
}
