/**
  The spawn listener: it holds the settings it last read from the
  configuration and, for each creature spawn, decides whether the spawn is
  replaced by a cave spider and whether a spawned cave spider gets a baby
  zombie rider (a jockey).  The host's effects (cancelling the spawn,
  spawning the replacement or the rider, attaching it) are the decision's
  consumer; the random draw is the `sample` argument, and the unseen
  `MathHelper.logb` is the `logb` argument.
*/
module Listeners {
  import opened GameEnums
  import opened PluginConfiguration

  /** `MathHelper.logb(x, base)`, whose definition is not part of this model. */
  type Logarithm = (real, real) -> real

  /** The eleven fields of the listener that a reload overwrites. */
  datatype Settings = Settings(
    maxY: int,
    minY: int,
    easySpawnChance: real,
    normalSpawnChance: real,
    hardSpawnChance: real,
    jockeyChance: real,
    biomes: seq<Biome>,
    environments: seq<Environment>,
    spawnDistribution: SpawnDistribution,
    allowSpawnsBelowMinY: bool,
    replaceEntities: seq<EntityType>)

  /** What the listener learns about one spawn: the event, its location, and the world there. */
  datatype SpawnEvent = SpawnEvent(
    reason: SpawnReason,
    entityType: EntityType,
    blockY: int,
    y: real,
    liquid: bool,
    difficulty: Difficulty,
    biome: Biome,
    environment: Environment)

  /** What a handler asks the host to do. */
  datatype Decision = NoOp | ReplaceWithCaveSpider | AttachJockey(jockeyType: EntityType)

  /** The field values of a listener before its first reload (Java's field initialisers and defaults). */
  const InitialSettings: Settings := Settings(0, 0, 0.0, 0.0, 0.0, 0.0, [], [], Constant, false, [])

  /** The settings a reload reads from a configuration. */
  function SettingsOf(c: Configuration): Settings {
    Settings(
      maxY := c.spawnOptions.range.maxY,
      minY := c.spawnOptions.range.minY,
      easySpawnChance := c.spawnOptions.chances.easy,
      normalSpawnChance := c.spawnOptions.chances.normal,
      hardSpawnChance := c.spawnOptions.chances.hard,
      jockeyChance := c.spawnOptions.jockeyChance,
      biomes := c.biomes,
      environments := c.environments,
      spawnDistribution := c.spawnOptions.distribution,
      allowSpawnsBelowMinY := c.spawnOptions.range.allowSpawnsBelowMinY,
      replaceEntities := c.replaceEntities)
  }

  // The spawn chance.

  /** `Math.max`. */
  function Max(a: real, b: real): real {
    if a >= b then a else b
  }

  /** `MathHelper.clampd(value, min, max)`, taken to be the standard clamp. */
  function Clamp(value: real, min: real, max: real): (r: real)
    requires min <= max
    ensures min <= r <= max
    ensures min <= value <= max ==> r == value
  {
    if value < min then min else if value > max then max else value
  }

  /** The base chance `getSpawnChance` picks for a difficulty: 0 for any difficulty without one. */
  function BaseChance(s: Settings, difficulty: Difficulty): real {
    if difficulty == Hard then s.hardSpawnChance
    else if difficulty == Difficulty.Normal then s.normalSpawnChance
    else if difficulty == Easy then s.easySpawnChance
    else 0.0
  }

  /** The linear and hyperbolic curves divide by `maxY - minY`. */
  predicate DivisionDefined(s: Settings) {
    (s.spawnDistribution == Linear || s.spawnDistribution == Hyperbolic) ==> s.maxY != s.minY
  }

  /** How far `y` lies below `maxY`, as a fraction of the range: 1 at `minY`, 0 at `maxY`. */
  function DepthFraction(s: Settings, y: real): real
    requires s.maxY != s.minY
  {
    (-y + s.maxY as real) / ((s.maxY - s.minY) as real)
  }

  /**
    `getSpawnChance(difficulty, y)`: the base chance scaled by the depth
    curve, then clamped.  Whatever the curve, the result lies between 0 and
    the base chance (0 when the base is negative).
  */
  function SpawnChance(s: Settings, difficulty: Difficulty, y: real, logb: Logarithm): (r: real)
    requires DivisionDefined(s)
    ensures 0.0 <= r <= Max(0.0, BaseChance(s, difficulty))
  {
    var base := BaseChance(s, difficulty);
    var scaled :=
      match s.spawnDistribution
      case Constant => base
      case Linear => base * DepthFraction(s, y)
      case Hyperbolic => base * (DepthFraction(s, y) * DepthFraction(s, y))
      case Logarithmic => base * logb(-y + s.maxY as real, (s.maxY - s.minY) as real);
    Clamp(scaled, 0.0, Max(0.0, base))
  }

  /** The listener's base chance is the configuration's `SpawnChancesContainer.value`. */
  lemma BaseChanceMatchesConfiguration(c: Configuration, difficulty: Difficulty)
    ensures BaseChance(SettingsOf(c), difficulty) == SpawnChancesValue(c.spawnOptions.chances, difficulty)
  {
  }

  /** On a peaceful world the chance is 0, whatever the curve and the height. */
  lemma PeacefulChanceIsZero(s: Settings, y: real, logb: Logarithm)
    requires DivisionDefined(s)
    ensures SpawnChance(s, Peaceful, y, logb) == 0.0
  {
  }

  /** With every node within its declared bounds, the chance is a probability. */
  lemma ChanceIsProbability(c: Configuration, difficulty: Difficulty, y: real, logb: Logarithm)
    requires WithinDeclaredBounds(c)
    requires DivisionDefined(SettingsOf(c))
    ensures 0.0 <= SpawnChance(SettingsOf(c), difficulty, y, logb) <= 1.0
  {
    BaseChanceMatchesConfiguration(c, difficulty);
  }

  /** The constant curve (the configured default) leaves the base untouched at every height. */
  lemma ConstantIgnoresDepth(s: Settings, difficulty: Difficulty, y: real, logb: Logarithm)
    requires s.spawnDistribution == DistributionDefault
    ensures SpawnChance(s, difficulty, y, logb) == Max(0.0, BaseChance(s, difficulty))
    ensures 0.0 <= BaseChance(s, difficulty) ==> SpawnChance(s, difficulty, y, logb) == BaseChance(s, difficulty)
  {
  }

  /** Clamping preserves order. */
  lemma ClampMonotone(a: real, b: real, min: real, max: real)
    requires min <= max && a <= b
    ensures Clamp(a, min, max) <= Clamp(b, min, max)
  {
  }

  /** Division by a positive number keeps order, and maps 0 and the divisor to 0 and 1. */
  lemma DivideByPositive(x1: real, x2: real, d: real)
    requires d > 0.0 && x1 <= x2
    ensures x1 / d <= x2 / d
    ensures x1 == 0.0 ==> x1 / d == 0.0
    ensures x2 == d ==> x2 / d == 1.0
  {
    assert x2 / d - x1 / d == (x2 - x1) / d;
  }

  /** Scaling by a non-negative base keeps order. */
  lemma ScaleMonotone(base: real, a: real, b: real)
    requires base >= 0.0 && a <= b
    ensures base * a <= base * b
  {
    assert base * b - base * a == base * (b - a);
  }

  /** A fraction in [0, 1] does not grow when squared; one of at least 1 does not shrink. */
  lemma SquareOfFraction(f: real)
    ensures 0.0 <= f <= 1.0 ==> f * f <= f
    ensures 1.0 <= f ==> f <= f * f
  {
    assert f * f - f == f * (f - 1.0);
  }

  /** At or above its upper end, the clamp gives the upper end. */
  lemma ClampAtTop(value: real, max: real)
    requires 0.0 <= max <= value
    ensures Clamp(value, 0.0, max) == max
  {
  }

  /** The depth fraction shrinks as `y` rises. */
  lemma DepthFractionDecreasing(s: Settings, y1: real, y2: real)
    requires s.minY < s.maxY && y1 <= y2
    ensures DepthFraction(s, y2) <= DepthFraction(s, y1)
  {
    DivideByPositive(-y2 + s.maxY as real, -y1 + s.maxY as real, (s.maxY - s.minY) as real);
  }

  /** The depth fraction is 1 at `minY` and at least 1 below it, 0 at `maxY` and at least 0 below it. */
  lemma DepthFractionEnds(s: Settings, y: real)
    requires s.minY < s.maxY
    ensures y <= s.maxY as real ==> DepthFraction(s, y) >= 0.0
    ensures y <= s.minY as real ==> DepthFraction(s, y) >= 1.0
    ensures y == s.minY as real ==> DepthFraction(s, y) == 1.0
    ensures y == s.maxY as real ==> DepthFraction(s, y) == 0.0
  {
    var d := (s.maxY - s.minY) as real;
    var x := -y + s.maxY as real;
    if y <= s.maxY as real {
      DivideByPositive(0.0, x, d);
    }
    if y <= s.minY as real {
      DivideByPositive(d, x, d);
    }
    if y == s.minY as real {
      DivideByPositive(x, d, d);
    }
    if y == s.maxY as real {
      DivideByPositive(x, 0.0, d);
    }
  }

  /** The linear and hyperbolic curves in terms of the base chance and the depth fraction. */
  lemma CurveShape(s: Settings, difficulty: Difficulty, y: real, logb: Logarithm)
    requires s.minY != s.maxY
    ensures s.spawnDistribution == Linear ==>
      SpawnChance(s, difficulty, y, logb) == ClampedScale(BaseChance(s, difficulty), DepthFraction(s, y))
    ensures s.spawnDistribution == Hyperbolic ==>
      SpawnChance(s, difficulty, y, logb)
        == ClampedScale(BaseChance(s, difficulty), DepthFraction(s, y) * DepthFraction(s, y))
  {
  }

  /** The base scaled by a factor and clamped to [0, max(0, base)]. */
  function ClampedScale(base: real, factor: real): real {
    Clamp(base * factor, 0.0, Max(0.0, base))
  }

  /** A larger factor never gives a smaller clamped result. */
  lemma ClampedScaleMonotone(base: real, a: real, b: real)
    requires a <= b
    ensures ClampedScale(base, a) <= ClampedScale(base, b)
  {
    if base >= 0.0 {
      ScaleMonotone(base, a, b);
      ClampMonotone(base * a, base * b, 0.0, base);
    }
  }

  /** A factor of at least 1 gives the full (non-negative) base. */
  lemma ClampedScaleFull(base: real, factor: real)
    requires 1.0 <= factor
    ensures ClampedScale(base, factor) == Max(0.0, base)
  {
    if base >= 0.0 {
      ScaleMonotone(base, 1.0, factor);
      ClampAtTop(base * factor, base);
    }
  }

  /** The linear curve never rises with height. */
  lemma LinearNonIncreasing(s: Settings, difficulty: Difficulty, y1: real, y2: real, logb: Logarithm)
    requires s.spawnDistribution == Linear && s.minY < s.maxY && y1 <= y2
    ensures SpawnChance(s, difficulty, y2, logb) <= SpawnChance(s, difficulty, y1, logb)
  {
    CurveShape(s, difficulty, y1, logb);
    CurveShape(s, difficulty, y2, logb);
    DepthFractionDecreasing(s, y1, y2);
    ClampedScaleMonotone(BaseChance(s, difficulty), DepthFraction(s, y2), DepthFraction(s, y1));
  }

  /** The linear curve gives the full base chance at `minY` and nothing at `maxY`. */
  lemma LinearEndpoints(s: Settings, difficulty: Difficulty, logb: Logarithm)
    requires s.spawnDistribution == Linear && s.minY < s.maxY
    ensures SpawnChance(s, difficulty, s.minY as real, logb) == Max(0.0, BaseChance(s, difficulty))
    ensures SpawnChance(s, difficulty, s.maxY as real, logb) == 0.0
  {
    CurveShape(s, difficulty, s.minY as real, logb);
    CurveShape(s, difficulty, s.maxY as real, logb);
    DepthFractionEnds(s, s.minY as real);
    DepthFractionEnds(s, s.maxY as real);
  }

  /**
    Below `minY` (reachable when `allowSpawnsBelowMinY` is set) the linear and
    hyperbolic curves give the full base chance.
  */
  lemma FullChanceBelowMinY(s: Settings, difficulty: Difficulty, y: real, logb: Logarithm)
    requires (s.spawnDistribution == Linear || s.spawnDistribution == Hyperbolic)
    requires s.minY < s.maxY && y <= s.minY as real
    ensures SpawnChance(s, difficulty, y, logb) == Max(0.0, BaseChance(s, difficulty))
  {
    var f := DepthFraction(s, y);
    CurveShape(s, difficulty, y, logb);
    DepthFractionEnds(s, y);
    SquareOfFraction(f);
    ClampedScaleFull(BaseChance(s, difficulty), f);
    ClampedScaleFull(BaseChance(s, difficulty), f * f);
  }

  /** For a non-negative fraction, scaling by its square never gives more than scaling by it. */
  lemma ClampedScaleSquare(base: real, f: real)
    requires 0.0 <= f
    ensures ClampedScale(base, f * f) <= ClampedScale(base, f)
  {
    SquareOfFraction(f);
    if f <= 1.0 {
      ClampedScaleMonotone(base, f * f, f);
    } else {
      ClampedScaleFull(base, f);
      ClampedScaleFull(base, f * f);
    }
  }

  /** Up to `maxY` the hyperbolic curve never exceeds the linear one. */
  lemma HyperbolicAtMostLinear(s: Settings, difficulty: Difficulty, y: real, logb: Logarithm)
    requires s.minY < s.maxY && y <= s.maxY as real
    ensures SpawnChance(s.(spawnDistribution := Hyperbolic), difficulty, y, logb)
         <= SpawnChance(s.(spawnDistribution := Linear), difficulty, y, logb)
  {
    var h, l := s.(spawnDistribution := Hyperbolic), s.(spawnDistribution := Linear);
    CurveShape(h, difficulty, y, logb);
    CurveShape(l, difficulty, y, logb);
    DepthFractionEnds(s, y);
    assert DepthFraction(h, y) == DepthFraction(s, y) == DepthFraction(l, y);
    ClampedScaleSquare(BaseChance(s, difficulty), DepthFraction(s, y));
  }

  // Replacing a spawn with a cave spider.

  /** The height filter: not above `maxY`, and not below `minY` unless that is allowed. */
  predicate InSpawnRange(s: Settings, blockY: int) {
    (blockY >= s.minY || s.allowSpawnsBelowMinY) && blockY <= s.maxY
  }

  /**
    `onSpawnSpider`: a ladder of filters, then a draw.  The spawn is replaced
    exactly when the spawn is natural, of a replaceable type, in range, not in
    liquid, in an allowed environment and biome, with a positive chance that
    the sample falls below.
  */
  function SpiderDecision(s: Settings, ev: SpawnEvent, sample: real, logb: Logarithm): (r: Decision)
    requires DivisionDefined(s)
    ensures r == NoOp || r == ReplaceWithCaveSpider
    ensures r == ReplaceWithCaveSpider <==>
      && ev.reason == Natural
      && ev.entityType in s.replaceEntities
      && InSpawnRange(s, ev.blockY)
      && !ev.liquid
      && 0.0 < SpawnChance(s, ev.difficulty, ev.y, logb)
      && ev.environment in s.environments
      && ev.biome in s.biomes
      && sample < SpawnChance(s, ev.difficulty, ev.y, logb)
  {
    if ev.reason != Natural || ev.entityType !in s.replaceEntities then NoOp
    else if (ev.blockY < s.minY && !s.allowSpawnsBelowMinY) || ev.blockY > s.maxY || ev.liquid then NoOp
    else
      var spawnChance := SpawnChance(s, ev.difficulty, ev.y, logb);
      if spawnChance <= 0.0 then NoOp
      else if ev.environment !in s.environments || ev.biome !in s.biomes then NoOp
      else if sample < spawnChance then ReplaceWithCaveSpider
      else NoOp
  }

  /**
    For an event that passes every filter, a sample drawn from [0, 1)
    replaces the spawn exactly when it falls below the chance: the
    replacement happens with probability equal to the chance.
  */
  lemma ReplacedExactlyBelowChance(s: Settings, ev: SpawnEvent, sample: real, logb: Logarithm)
    requires DivisionDefined(s)
    requires 0.0 <= sample < 1.0
    requires ev.reason == Natural && ev.entityType in s.replaceEntities
    requires InSpawnRange(s, ev.blockY) && !ev.liquid
    requires ev.environment in s.environments && ev.biome in s.biomes
    ensures SpiderDecision(s, ev, sample, logb) == ReplaceWithCaveSpider
        <==> sample < SpawnChance(s, ev.difficulty, ev.y, logb)
  {
  }

  /**
    A cave spider spawned as a replacement comes with a natural reason; when
    cave spiders are not replaceable, that spawn is left alone.
  */
  lemma CaveSpiderNotReplacedAgain(s: Settings, ev: SpawnEvent, sample: real, logb: Logarithm)
    requires DivisionDefined(s)
    requires CaveSpider !in s.replaceEntities && ev.entityType == CaveSpider
    ensures SpiderDecision(s, ev, sample, logb) == NoOp
  {
  }

  /**
    The exclusion of cave-spider spawns rests on the configuration alone:
    when cave spiders are listed as replaceable, the natural cave spider that
    a replacement spawns passes every filter again at the same place, and is
    replaced again whenever its own draw falls below the chance.
  */
  lemma CaveSpiderReplacedWhenListed(s: Settings, ev: SpawnEvent, sample: real, logb: Logarithm)
    requires DivisionDefined(s)
    requires CaveSpider in s.replaceEntities
    requires ev.reason == Natural && ev.entityType == CaveSpider
    requires InSpawnRange(s, ev.blockY) && !ev.liquid
    requires ev.environment in s.environments && ev.biome in s.biomes
    requires 0.0 <= sample < SpawnChance(s, ev.difficulty, ev.y, logb)
    ensures SpiderDecision(s, ev, sample, logb) == ReplaceWithCaveSpider
  {
  }

  /** A spawn outside the height range is never replaced, whatever the chances. */
  lemma OutOfRangeNeverReplaced(s: Settings, ev: SpawnEvent, sample: real, logb: Logarithm)
    requires DivisionDefined(s)
    requires ev.blockY > s.maxY || (ev.blockY < s.minY && !s.allowSpawnsBelowMinY)
    ensures SpiderDecision(s, ev, sample, logb) == NoOp
  {
  }

  /** The default height range with the linear curve and the default normal chance. */
  function LinearScenario(ev: SpawnEvent): Settings {
    Settings(
      maxY := MaxYDefault, minY := MinYDefault,
      easySpawnChance := EasyDefault, normalSpawnChance := NormalDefault, hardSpawnChance := HardDefault,
      jockeyChance := 0.0,
      biomes := [ev.biome], environments := [ev.environment],
      spawnDistribution := Linear, allowSpawnsBelowMinY := false,
      replaceEntities := [ev.entityType])
  }

  /**
    With heights -64 to -8 and the linear curve, a natural spawn on normal
    difficulty at -64 is replaced exactly when the sample is below 0.1, and
    one at -8 is never replaced.
  */
  lemma LinearScenarioDecisions(ev: SpawnEvent, sample: real, logb: Logarithm)
    requires ev.reason == Natural && !ev.liquid && ev.difficulty == Difficulty.Normal
    ensures ev.blockY == -64 && ev.y == -64.0 ==>
      (SpiderDecision(LinearScenario(ev), ev, sample, logb) == ReplaceWithCaveSpider <==> sample < 0.1)
    ensures ev.blockY == -8 && ev.y == -8.0 ==>
      SpiderDecision(LinearScenario(ev), ev, sample, logb) == NoOp
  {
    var s := LinearScenario(ev);
    LinearEndpoints(s, ev.difficulty, logb);
  }

  // Attaching a jockey to a cave spider.

  /** The water biomes in which the jockey is a drowned. */
  const DrownedBiomes: set<Biome> := {
    DeepColdOcean, DeepFrozenOcean, DeepLukewarmOcean, DeepOcean, ColdOcean,
    FrozenOcean, LukewarmOcean, Ocean, WarmOcean, River, FrozenRiver}

  /** The zombie kinds, to which the spawned jockey is cast. */
  predicate IsZombieKind(t: EntityType) {
    t == Zombie || t == Husk || t == Drowned || t == ZombifiedPiglin
  }

  /**
    The jockey's type: a zombified piglin in the nether, otherwise a husk in
    the desert, a drowned in the water biomes and a zombie anywhere else.
    Always a zombie kind, so the cast to Zombie succeeds.
  */
  function JockeyType(environment: Environment, biome: Biome): (t: EntityType)
    ensures IsZombieKind(t)
    ensures environment == Nether ==> t == ZombifiedPiglin
    ensures environment != Nether ==> (t == Husk <==> biome == Desert)
    ensures environment != Nether ==> (t == Drowned <==> biome in DrownedBiomes)
    ensures environment != Nether ==> (t == Zombie <==> biome != Desert && biome !in DrownedBiomes)
  {
    if environment == Nether then ZombifiedPiglin
    else
      match biome
      case Desert => Husk
      case DeepColdOcean | DeepFrozenOcean | DeepLukewarmOcean | DeepOcean | ColdOcean
        | FrozenOcean | LukewarmOcean | Ocean | WarmOcean | River | FrozenRiver => Drowned
      case _ => Zombie
  }

  /**
    `onSpawnCaveSpider`: a naturally or egg-spawned cave spider on hard
    difficulty gets a jockey exactly when the jockey chance is positive and
    the sample falls below it; the jockey's type comes from `JockeyType`.
  */
  function CaveSpiderDecision(s: Settings, ev: SpawnEvent, sample: real): (r: Decision)
    ensures r != ReplaceWithCaveSpider
    ensures r != NoOp <==>
      && (ev.reason == Natural || ev.reason == SpawnerEgg)
      && ev.entityType == CaveSpider
      && 0.0 < s.jockeyChance
      && ev.difficulty == Hard
      && sample < s.jockeyChance
    ensures r.AttachJockey? ==> r.jockeyType == JockeyType(ev.environment, ev.biome)
  {
    if ev.reason == Natural || ev.reason == SpawnerEgg then
      if ev.entityType == CaveSpider then
        if s.jockeyChance > 0.0 && ev.difficulty == Hard && sample < s.jockeyChance then
          AttachJockey(JockeyType(ev.environment, ev.biome))
        else NoOp
      else NoOp
    else NoOp
  }

  /** A jockey chance of 0 (or less) never attaches a jockey. */
  lemma NoJockeyWithoutChance(s: Settings, ev: SpawnEvent, sample: real)
    requires s.jockeyChance <= 0.0
    ensures CaveSpiderDecision(s, ev, sample) == NoOp
  {
  }

  /** A jockey chance of 1 in the nether on hard always attaches a zombified piglin. */
  lemma CertainNetherJockey(s: Settings, ev: SpawnEvent, sample: real)
    requires s.jockeyChance == 1.0 && 0.0 <= sample < 1.0
    requires (ev.reason == Natural || ev.reason == SpawnerEgg) && ev.entityType == CaveSpider
    requires ev.difficulty == Hard && ev.environment == Nether
    ensures CaveSpiderDecision(s, ev, sample) == AttachJockey(ZombifiedPiglin)
  {
  }

  /**
    Both handlers see every spawn, and each draws its own sample; unless
    cave spiders are themselves replaceable, at most one of them acts on a
    given spawn, whatever the two draws.
  */
  lemma HandlersActOnDifferentSpawns(s: Settings, ev: SpawnEvent, spiderSample: real, jockeySample: real, logb: Logarithm)
    requires DivisionDefined(s)
    requires CaveSpider !in s.replaceEntities
    ensures SpiderDecision(s, ev, spiderSample, logb) == NoOp || CaveSpiderDecision(s, ev, jockeySample) == NoOp
  {
  }

  /** The listener object: the fields it reads when it handles a spawn. */
  class SpawnEntityListener {
    var maxY: int
    var minY: int
    var easySpawnChance: real
    var normalSpawnChance: real
    var hardSpawnChance: real
    var jockeyChance: real
    var biomes: seq<Biome>
    var environments: seq<Environment>
    var spawnDistribution: SpawnDistribution
    var allowSpawnsBelowMinY: bool
    var replaceEntities: seq<EntityType>

    /** The current field values. */
    function CurrentSettings(): Settings
      reads this
    {
      Settings(maxY, minY, easySpawnChance, normalSpawnChance, hardSpawnChance, jockeyChance,
        biomes, environments, spawnDistribution, allowSpawnsBelowMinY, replaceEntities)
    }

    /** A new listener holds the fields' initial values until its first reload. */
    constructor ()
      ensures CurrentSettings() == InitialSettings
    {
      maxY, minY := 0, 0;
      easySpawnChance, normalSpawnChance, hardSpawnChance, jockeyChance := 0.0, 0.0, 0.0, 0.0;
      biomes, environments, replaceEntities := [], [], [];
      spawnDistribution := Constant;
      allowSpawnsBelowMinY := false;
    }

    /**
      `reloadConfiguration`: overwrites all eleven fields from the
      configuration, so the new state depends on the configuration alone and
      a second reload with the same configuration changes nothing.
    */
    method ReloadConfiguration(configuration: Configuration)
      modifies this
      ensures CurrentSettings() == SettingsOf(configuration)
      ensures old(CurrentSettings()) == SettingsOf(configuration) ==> CurrentSettings() == old(CurrentSettings())
    {
      this.maxY := configuration.spawnOptions.range.maxY;
      this.minY := configuration.spawnOptions.range.minY;
      this.jockeyChance := configuration.spawnOptions.jockeyChance;
      this.biomes := configuration.biomes;
      this.environments := configuration.environments;
      this.easySpawnChance := configuration.spawnOptions.chances.easy;
      this.normalSpawnChance := configuration.spawnOptions.chances.normal;
      this.hardSpawnChance := configuration.spawnOptions.chances.hard;
      this.spawnDistribution := configuration.spawnOptions.distribution;
      this.allowSpawnsBelowMinY := configuration.spawnOptions.range.allowSpawnsBelowMinY;
      this.replaceEntities := configuration.replaceEntities;
    }
  }
}
