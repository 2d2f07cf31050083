/** The header bar of the list view: the XP needed for the next level, the
    progress bar's fill and the title shown for a level. */
module GamificationHeader {

  /** XP that completes `level`: the header's `stats.level * 200`. */
  function XpForNextLevel(level: int): (t: int)
    ensures t == 200 * level
    ensures level >= 1 ==> t >= 200
  {
    level * 200
  }

  /** Fill of the progress bar in percent: the share of the level threshold
      reached, capped at 100. */
  function Progress(xp: int, level: int): (p: real)
    requires level >= 1
    ensures p <= 100.0
    ensures xp >= 0 ==> p >= 0.0
    ensures p == 100.0 <==> xp >= XpForNextLevel(level)
    ensures xp < XpForNextLevel(level) ==> p * (XpForNextLevel(level) as real) == (xp as real) * 100.0
  {
    var share := (xp as real) / (XpForNextLevel(level) as real) * 100.0;
    if share < 100.0 then share else 100.0
  }

  /** More XP never empties the bar. */
  lemma ProgressMonotone(xp1: int, xp2: int, level: int)
    requires level >= 1 && xp1 <= xp2
    ensures Progress(xp1, level) <= Progress(xp2, level)
  {
    var t := XpForNextLevel(level) as real;
    assert (xp1 as real) / t <= (xp2 as real) / t by {
      assert (xp1 as real) / t * t == xp1 as real;
      assert (xp2 as real) / t * t == xp2 as real;
    }
  }

  /** The four titles, from the lowest rank to the highest. */
  datatype Title = Newcomer | Pioneer | Nemesis | Summit
  {
    /** The text the header shows. */
    function Text(): string
    {
      match this
      case Newcomer => "学习萌新"
      case Pioneer => "知识先锋"
      case Nemesis => "错题克星"
      case Summit => "学霸之巅"
    }

    function Rank(): nat
    {
      match this
      case Newcomer => 0
      case Pioneer => 1
      case Nemesis => 2
      case Summit => 3
    }
  }

  /** The title for a level: below 5, 5 to 9, 10 to 19, and 20 and above. */
  function LevelTitle(level: int): (t: Title)
    ensures t == Newcomer <==> level < 5
    ensures t == Pioneer <==> 5 <= level < 10
    ensures t == Nemesis <==> 10 <= level < 20
    ensures t == Summit <==> 20 <= level
  {
    if level < 5 then Newcomer
    else if level < 10 then Pioneer
    else if level < 20 then Nemesis
    else Summit
  }

  /** Reaching a higher level never lowers the title. */
  lemma TitleMonotone(l1: int, l2: int)
    requires l1 <= l2
    ensures LevelTitle(l1).Rank() <= LevelTitle(l2).Rank()
  {
  }

  /** Each title has its own text. */
  lemma TitleTextsDistinct(t1: Title, t2: Title)
    requires t1 != t2
    ensures t1.Text() != t2.Text()
  {
  }
}
