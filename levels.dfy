/**
 * The altitude tiers of the game and the classifier that maps a calorie
 * balance to its tier (`LEVELS` and `getLevel` of the component).
 */
module Levels {
  import opened Options

  /** A range end: a finite integer, or one of JavaScript's infinities. */
  datatype Bound = NegInfinity | PosInfinity | Finite(value: int)

  /** One tier: its name, the inclusive range `[min, max]` of balances it covers, and its face. */
  datatype Level = Level(name: string, min: Bound, max: Bound, face: string)

  predicate AtLeast(x: int, b: Bound) {
    match b
    case NegInfinity => true
    case PosInfinity => false
    case Finite(v) => x >= v
  }

  predicate AtMost(x: int, b: Bound) {
    match b
    case NegInfinity => false
    case PosInfinity => true
    case Finite(v) => x <= v
  }

  /** The test `find` applies to each tier: `calories >= level.min && calories <= level.max`. */
  predicate Contains(level: Level, x: int) {
    AtLeast(x, level.min) && AtMost(x, level.max)
  }

  /** The tier table, lowest first. */
  const LEVELS: seq<Level> := [
    Level("🔥지옥", NegInfinity, Finite(-3000), "😵"),
    Level("🕳️지하", Finite(-2999), Finite(-1000), "😟"),
    Level("🌍지상", Finite(-999), Finite(2999), "😊"),
    Level("☁️구름", Finite(3000), Finite(4999), "😄"),
    Level("🌌우주", Finite(5000), PosInfinity, "🤩")
  ]

  /**
   * `levels.find(...)` as an index: the first tier that contains `x`, or
   * `None` (JavaScript's `undefined`) when no tier does.
   */
  function FindIndex(levels: seq<Level>, x: int): (r: Option<nat>)
    ensures r.Some? ==> r.value < |levels| && Contains(levels[r.value], x)
    ensures r.Some? ==> forall j :: 0 <= j < r.value ==> !Contains(levels[j], x)
    ensures r.None? ==> forall j :: 0 <= j < |levels| ==> !Contains(levels[j], x)
  {
    if |levels| == 0 then None
    else if Contains(levels[0], x) then Some(0)
    else match FindIndex(levels[1..], x)
      case None => None
      case Some(i) => Some(i + 1)
  }

  /** A tier whose range is not empty and whose ends are on the right sides. */
  predicate NonEmpty(level: Level) {
    level.min != PosInfinity && level.max != NegInfinity &&
    (level.min.Finite? && level.max.Finite? ==> level.min.value <= level.max.value)
  }

  /** `upper` starts right after `lower` ends: no gap and no overlap between them. */
  predicate Adjacent(lower: Level, upper: Level) {
    lower.max.Finite? && upper.min.Finite? && upper.min.value == lower.max.value + 1
  }

  /** Every tier is non-empty and each one starts right after the previous one ends. */
  predicate Chained(levels: seq<Level>) {
    (forall i :: 0 <= i < |levels| ==> NonEmpty(levels[i])) &&
    (forall i :: 0 <= i < |levels| - 1 ==> Adjacent(levels[i], levels[i + 1]))
  }

  /** A chained table that reaches from minus infinity to plus infinity. */
  predicate Partition(levels: seq<Level>) {
    Chained(levels) && |levels| > 0 &&
    levels[0].min == NegInfinity && levels[|levels| - 1].max == PosInfinity
  }

  /** In a chained table every earlier tier ends below where every later tier starts. */
  lemma {:induction false} Separated(levels: seq<Level>, i: nat, j: nat)
    requires Chained(levels) && i < j < |levels|
    ensures levels[i].max.Finite? && levels[j].min.Finite?
    ensures levels[i].max.value < levels[j].min.value
    decreases j - i
  {
    assert Adjacent(levels[j - 1], levels[j]);
    if i + 1 < j {
      Separated(levels, i, j - 1);
      assert NonEmpty(levels[j - 1]);
    }
  }

  /** A balance at or above the start of tier `k` lies in tier `k` or in a later one. */
  lemma {:induction false} CoveredFrom(levels: seq<Level>, k: nat, x: int)
    requires Chained(levels) && k < |levels| && levels[|levels| - 1].max == PosInfinity
    requires AtLeast(x, levels[k].min)
    ensures exists i :: k <= i < |levels| && Contains(levels[i], x)
    decreases |levels| - k
  {
    if !AtMost(x, levels[k].max) {
      assert NonEmpty(levels[k]);
      assert k + 1 < |levels|;
      assert Adjacent(levels[k], levels[k + 1]);
      CoveredFrom(levels, k + 1, x);
    }
  }

  /** In a partition, `find` always finds a tier. */
  lemma Covered(levels: seq<Level>, x: int)
    requires Partition(levels)
    ensures FindIndex(levels, x).Some?
  {
    CoveredFrom(levels, 0, x);
  }

  /** In a chained table no balance lies in two tiers. */
  lemma Exclusive(levels: seq<Level>, x: int, i: nat, j: nat)
    requires Chained(levels) && i < |levels| && j < |levels|
    requires Contains(levels[i], x) && Contains(levels[j], x)
    ensures i == j
  {
    if i < j {
      Separated(levels, i, j);
    } else if j < i {
      Separated(levels, j, i);
    }
  }

  /** In a chained table a larger balance is found in the same tier or a later one. */
  lemma FindIndexMonotone(levels: seq<Level>, a: int, b: int)
    requires Chained(levels) && a <= b
    requires FindIndex(levels, a).Some? && FindIndex(levels, b).Some?
    ensures FindIndex(levels, a).value <= FindIndex(levels, b).value
  {
    var i, j := FindIndex(levels, a).value, FindIndex(levels, b).value;
    if j < i {
      Separated(levels, j, i);
    }
  }

  /** The five tiers cover every integer, without gaps or overlaps. */
  lemma LevelsPartition()
    ensures Partition(LEVELS) && |LEVELS| == 5
  {
  }

  /** `getLevel()`: the tier of the balance `calories`. */
  function GetLevel(calories: int): (r: Option<Level>)
    ensures r.Some? ==> r.value in LEVELS && Contains(r.value, calories)
    ensures r.None? ==> forall level :: level in LEVELS ==> !Contains(level, calories)
  {
    match FindIndex(LEVELS, calories)
    case None => None
    case Some(i) => Some(LEVELS[i])
  }

  /** The position in `LEVELS` of the tier `getLevel` returns; there always is one for an integer. */
  function LevelIndex(calories: int): (i: nat)
    ensures i < |LEVELS| && Contains(LEVELS[i], calories)
    ensures GetLevel(calories) == Some(LEVELS[i])
  {
    LevelsPartition();
    Covered(LEVELS, calories);
    FindIndex(LEVELS, calories).value
  }

  /** Exactly one tier of `LEVELS` contains each integer balance, and it is the one `getLevel` returns. */
  lemma ExactlyOneLevel(calories: int)
    ensures GetLevel(calories).Some?
    ensures forall i :: 0 <= i < |LEVELS| && Contains(LEVELS[i], calories) <==>
      i == LevelIndex(calories)
  {
    LevelsPartition();
    var k := LevelIndex(calories);
    forall i | 0 <= i < |LEVELS| && Contains(LEVELS[i], calories)
      ensures i == LevelIndex(calories)
    {
      Exclusive(LEVELS, calories, i, LevelIndex(calories));
    }
  }

  /** A higher balance never lands in a lower tier. */
  lemma GetLevelMonotone(a: int, b: int)
    requires a <= b
    ensures LevelIndex(a) <= LevelIndex(b)
  {
    LevelsPartition();
    Covered(LEVELS, a);
    Covered(LEVELS, b);
    FindIndexMonotone(LEVELS, a, b);
  }

  /** A balance that tier `k` contains is classified as tier `k`. */
  lemma LevelAt(calories: int, k: nat)
    requires k < |LEVELS| && Contains(LEVELS[k], calories)
    ensures GetLevel(calories) == Some(LEVELS[k])
  {
    LevelsPartition();
    Exclusive(LEVELS, calories, k, LevelIndex(calories));
  }

  /** The tier edges are inclusive exactly as the table writes them. */
  lemma TierEdges()
    ensures GetLevel(-3000) == Some(LEVELS[0])
    ensures GetLevel(-2999) == Some(LEVELS[1]) && GetLevel(-1000) == Some(LEVELS[1])
    ensures GetLevel(-999) == Some(LEVELS[2]) && GetLevel(2999) == Some(LEVELS[2])
    ensures GetLevel(3000) == Some(LEVELS[3]) && GetLevel(4999) == Some(LEVELS[3])
    ensures GetLevel(5000) == Some(LEVELS[4])
    ensures LEVELS[0].name == "🔥지옥" && LEVELS[1].name == "🕳️지하" && LEVELS[2].name == "🌍지상"
    ensures LEVELS[3].name == "☁️구름" && LEVELS[4].name == "🌌우주"
  {
    LevelAt(-3000, 0);
    LevelAt(-2999, 1);
    LevelAt(-1000, 1);
    LevelAt(-999, 2);
    LevelAt(2999, 2);
    LevelAt(3000, 3);
    LevelAt(4999, 3);
    LevelAt(5000, 4);
  }
}
