/** The browser's quality badge for an answer's STAR total (`getQualityTag`). */
module Quality {

  datatype Quality = Strong | Average | NeedsImprovement
  {
    /** The badge text. */
    function Tag(): string {
      match this
      case Strong => "\U{2705} Strong Answer"
      case Average => "\U{26A0}\U{FE0F} Average"
      case NeedsImprovement => "\U{274C} Needs Improvement"
    }

    /** The CSS class of the badge. */
    function CssClass(): string {
      match this
      case Strong => "quality-strong"
      case Average => "quality-average"
      case NeedsImprovement => "quality-needs-improvement"
    }

    /** How good the badge is: higher is better. */
    function Rank(): nat {
      match this
      case NeedsImprovement => 0
      case Average => 1
      case Strong => 2
    }
  }

  /**
   * Totals of 6 and up are strong, 4 and 5 average, anything lower needs
   * improvement; every total gets exactly one badge.
   */
  function QualityTag(score: int): (q: Quality)
    ensures q == Strong <==> score >= 6
    ensures q == Average <==> 4 <= score < 6
    ensures q == NeedsImprovement <==> score < 4
  {
    if score >= 6 then Strong
    else if score >= 4 then Average
    else NeedsImprovement
  }

  /** A higher total never gets a worse badge. */
  lemma QualityTagMonotone(x: int, y: int)
    requires x <= y
    ensures QualityTag(x).Rank() <= QualityTag(y).Rank()
  {
  }

  /** The three badges and their classes are pairwise different. */
  lemma BadgesDistinct(p: Quality, q: Quality)
    requires p != q
    ensures p.Tag() != q.Tag() && p.CssClass() != q.CssClass()
  {
    assert p.Tag()[0] != q.Tag()[0];
    assert p.CssClass()[8] != q.CssClass()[8];
  }
}
