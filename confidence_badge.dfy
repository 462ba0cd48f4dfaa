/** The confidence badge: the score shown as a rounded percentage, coloured by tier,
    with the scorer's reasons listed underneath. */
module ConfidenceBadge {
  import opened Builtins

  /** The badge colours, from worst to best. */
  datatype Tier = Red | Yellow | Emerald

  function Rank(t: Tier): nat {
    match t
    case Red => 0
    case Yellow => 1
    case Emerald => 2
  }

  /** `Math.round(score * 100)`; a score in [0, 1] gives a percentage in [0, 100]. */
  function Percentage(score: real): (p: int)
    ensures 0.0 <= score ==> 0 <= p
    ensures score <= 1.0 ==> p <= 100
    ensures (p as real) - 0.5 <= score * 100.0 < (p as real) + 0.5
  {
    Round(score * 100.0)
  }

  /** The colour for a percentage: emerald from 90, yellow from 70, red below. */
  function TierOf(percentage: int): (t: Tier)
    ensures t == Emerald <==> percentage >= 90
    ensures t == Red <==> percentage < 70
  {
    if percentage >= 90 then Emerald
    else if percentage >= 70 then Yellow
    else Red
  }

  /** What the badge shows. */
  datatype Badge = Badge(percentage: int, tier: Tier, reasons: seq<string>)

  function BadgeOf(score: real, reasons: seq<string>): (b: Badge)
    ensures b.reasons == reasons
    ensures b.tier == TierOf(b.percentage) && b.percentage == Percentage(score)
  {
    var percentage := Percentage(score);
    Badge(percentage, TierOf(percentage), reasons)
  }

  /** The tiers in terms of the score itself: emerald from 0.895, yellow from 0.695,
      because the percentage is rounded before it is compared. */
  lemma TierThresholds(score: real)
    ensures BadgeOf(score, []).tier == Emerald <==> score >= 0.895
    ensures BadgeOf(score, []).tier == Red <==> score < 0.695
  {
    var p := Percentage(score);
    if score >= 0.895 {
      assert p >= 90;
    }
    if score < 0.695 {
      assert p < 70;
    }
  }

  /** A higher score never gets a lower tier. */
  lemma TierMonotone(s1: real, s2: real, reasons1: seq<string>, reasons2: seq<string>)
    requires s1 <= s2
    ensures Rank(BadgeOf(s1, reasons1).tier) <= Rank(BadgeOf(s2, reasons2).tier)
  {
    RoundMonotone(s1 * 100.0, s2 * 100.0);
  }
}
