/**
 * The four outcome counters of the matcher and the error rates derived from
 * them: FRR = falseRejects / (trueAccepts + falseRejects) and
 * FAR = falseAccepts / (trueRejects + falseAccepts), as percentages.
 */
module Metrics {
  import opened Wrappers

  datatype Stats = Stats(trueAccepts: nat, falseRejects: nat, trueRejects: nat, falseAccepts: nat)

  const ZERO_STATS: Stats := Stats(0, 0, 0, 0)

  function Total(s: Stats): nat {
    s.trueAccepts + s.falseRejects + s.trueRejects + s.falseAccepts
  }

  /**
   * The bookkeeping of one scored attempt: a match of a genuine user is a
   * true accept, of an attacker a false accept; a non-match of a genuine user
   * is a false reject, of an attacker a true reject.
   */
  function Record(s: Stats, isMatch: bool, isAttack: bool): (r: Stats)
    ensures Total(r) == Total(s) + 1
    ensures r.trueAccepts >= s.trueAccepts && r.falseRejects >= s.falseRejects
    ensures r.trueRejects >= s.trueRejects && r.falseAccepts >= s.falseAccepts
    ensures r.falseAccepts > s.falseAccepts <==> isMatch && isAttack
    ensures r.trueAccepts > s.trueAccepts <==> isMatch && !isAttack
    ensures r.trueRejects > s.trueRejects <==> !isMatch && isAttack
    ensures r.falseRejects > s.falseRejects <==> !isMatch && !isAttack
  {
    if isMatch then
      if isAttack then s.(falseAccepts := s.falseAccepts + 1)
      else s.(trueAccepts := s.trueAccepts + 1)
    else
      if isAttack then s.(trueRejects := s.trueRejects + 1)
      else s.(falseRejects := s.falseRejects + 1)
  }

  /** `num / den * 100` when `den > 0`; absent otherwise (the source then reports "0.00"). */
  function Percentage(num: nat, den: nat): (r: Option<real>)
    ensures r.Some? <==> den > 0
    ensures num <= den && den > 0 ==> 0.0 <= r.value <= 100.0
  {
    if den > 0 then Some(num as real / den as real * 100.0) else None
  }

  function FrrRate(s: Stats): Option<real> {
    Percentage(s.falseRejects, s.trueAccepts + s.falseRejects)
  }

  function FarRate(s: Stats): Option<real> {
    Percentage(s.falseAccepts, s.trueRejects + s.falseAccepts)
  }

  /** Both rates are percentages between 0 and 100 whenever they are defined. */
  lemma RatesArePercentages(s: Stats)
    ensures FrrRate(s).Some? ==> 0.0 <= FrrRate(s).value <= 100.0
    ensures FarRate(s).Some? ==> 0.0 <= FarRate(s).value <= 100.0
  {
  }

  /** After one false accept and no true reject, FAR is 100 percent. */
  lemma OneFalseAcceptIsFullFar(s: Stats)
    requires s.falseAccepts == 1 && s.trueRejects == 0
    ensures FarRate(s) == Some(100.0)
  {
  }

  /** An attacker's attempt moves only FAR's denominator; a genuine user's only FRR's. */
  lemma RecordMovesOneDenominator(s: Stats, isMatch: bool, isAttack: bool)
    ensures var r := Record(s, isMatch, isAttack);
            if isAttack then
              r.trueRejects + r.falseAccepts == s.trueRejects + s.falseAccepts + 1
              && r.trueAccepts + r.falseRejects == s.trueAccepts + s.falseRejects
            else
              r.trueAccepts + r.falseRejects == s.trueAccepts + s.falseRejects + 1
              && r.trueRejects + r.falseAccepts == s.trueRejects + s.falseAccepts
  {
  }
}
