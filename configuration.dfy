/**
  The plugin's configuration as the listener reads it: the tree of
  containers and nodes, with each node's value materialised.  Also the
  per-difficulty chance selector, the `parse` overrides of the enum nodes,
  and the declared defaults and bounds of the numeric nodes.
*/
module PluginConfiguration {
  import opened Wrappers
  import opened GameEnums
  import EnumListNode

  /** `spawnOptions.range`: the spawn heights. */
  datatype SpawnRangeContainer = SpawnRangeContainer(minY: int, maxY: int, allowSpawnsBelowMinY: bool)

  /** `spawnOptions.chances`: the base spawn chance for each difficulty. */
  datatype SpawnChancesContainer = SpawnChancesContainer(easy: real, normal: real, hard: real)

  /** `spawnOptions`. */
  datatype SpawnOptionsContainer = SpawnOptionsContainer(
    range: SpawnRangeContainer,
    distribution: SpawnDistribution,
    chances: SpawnChancesContainer,
    jockeyChance: real)

  /** The root of the configuration. */
  datatype Configuration = Configuration(
    locale: string,
    spawnOptions: SpawnOptionsContainer,
    biomes: seq<Biome>,
    environments: seq<Environment>,
    replaceEntities: seq<EntityType>,
    debug: bool,
    metrics: bool)

  // Declared defaults and bounds of the numeric and enum nodes.

  const MinYDefault: int := -64
  const MaxYDefault: int := -8
  /** Both height nodes are declared with the bounds [-64, 320]. */
  const HeightLowerBound: int := -64
  const HeightUpperBound: int := 320
  const EasyDefault: real := 0.05
  const NormalDefault: real := 0.1
  const HardDefault: real := 0.5
  /** The three chance nodes and the jockey-chance node are declared with the bounds [0, 1]. */
  const ChanceLowerBound: real := 0.0
  const ChanceUpperBound: real := 1.0
  const DistributionDefault: SpawnDistribution := Constant

  const DefaultChances: SpawnChancesContainer := SpawnChancesContainer(EasyDefault, NormalDefault, HardDefault)

  predicate ChanceInBounds(x: real) {
    ChanceLowerBound <= x <= ChanceUpperBound
  }

  predicate HeightInBounds(y: int) {
    HeightLowerBound <= y <= HeightUpperBound
  }

  /** Every numeric node of `c` holds a value within its declared bounds. */
  predicate WithinDeclaredBounds(c: Configuration) {
    && HeightInBounds(c.spawnOptions.range.minY)
    && HeightInBounds(c.spawnOptions.range.maxY)
    && ChanceInBounds(c.spawnOptions.chances.easy)
    && ChanceInBounds(c.spawnOptions.chances.normal)
    && ChanceInBounds(c.spawnOptions.chances.hard)
    && ChanceInBounds(c.spawnOptions.jockeyChance)
  }

  /** The declared defaults lie within the declared bounds and do not decrease with difficulty. */
  lemma DefaultsWithinDeclaredBounds()
    ensures HeightInBounds(MinYDefault) && HeightInBounds(MaxYDefault)
    ensures MinYDefault <= MaxYDefault
    ensures ChanceInBounds(EasyDefault) && ChanceInBounds(NormalDefault) && ChanceInBounds(HardDefault)
    ensures SpawnChancesValue(DefaultChances, Easy) <= SpawnChancesValue(DefaultChances, Difficulty.Normal)
    ensures SpawnChancesValue(DefaultChances, Difficulty.Normal) <= SpawnChancesValue(DefaultChances, Hard)
    ensures DistributionDefault == Constant
  {
  }

  /** `SpawnChancesContainer.value(difficulty)`: the chance configured for a difficulty, 0 for any other. */
  function SpawnChancesValue(chances: SpawnChancesContainer, difficulty: Difficulty): (r: real)
    ensures difficulty == Hard ==> r == chances.hard
    ensures difficulty == Difficulty.Normal ==> r == chances.normal
    ensures difficulty == Easy ==> r == chances.easy
    ensures difficulty == Peaceful ==> r == 0.0
    ensures ChanceInBounds(chances.easy) && ChanceInBounds(chances.normal) && ChanceInBounds(chances.hard)
      ==> ChanceInBounds(r)
  {
    if difficulty == Hard then chances.hard
    else if difficulty == Difficulty.Normal then chances.normal
    else if difficulty == Easy then chances.easy
    else 0.0
  }

  // Upper-casing as Java's String.toUpperCase does it, for ASCII letters.

  /** The locales whose upper-casing differs for the enum names: Turkish maps 'i' to a dotted capital I. */
  datatype Locale = Root | Turkish

  function UpperChar(locale: Locale, c: char): char {
    if locale == Turkish && c == 'i' then 'İ'
    else if 'a' <= c <= 'z' then (c as int - 'a' as int + 'A' as int) as char
    else c
  }

  function LowerChar(c: char): char {
    if 'A' <= c <= 'Z' then (c as int - 'A' as int + 'a' as int) as char else c
  }

  /** `s.toUpperCase(locale)`: each character upper-cased in place. */
  function ToUpperCase(locale: Locale, s: string): (u: string)
    ensures |u| == |s|
    ensures forall i :: 0 <= i < |s| ==> u[i] == UpperChar(locale, s[i])
  {
    if s == [] then [] else [UpperChar(locale, s[0])] + ToUpperCase(locale, s[1..])
  }

  /** The lower-case spelling of `s`, used to state that parsing ignores case. */
  function ToLowerCase(s: string): (l: string)
    ensures |l| == |s|
    ensures forall i :: 0 <= i < |s| ==> l[i] == LowerChar(s[i])
  {
    if s == [] then [] else [LowerChar(s[0])] + ToLowerCase(s[1..])
  }

  /** Upper-casing with the root locale forgets the case of the input. */
  lemma UpperCaseForgetsCase(s: string)
    ensures ToUpperCase(Root, ToLowerCase(s)) == ToUpperCase(Root, s)
    ensures ToUpperCase(Root, ToUpperCase(Root, s)) == ToUpperCase(Root, s)
  {
  }

  // The `parse` overrides of the enum nodes.

  /** The `biomes` node's parse: upper-case with the root locale, then `Biome.valueOf`. */
  function ParseBiome(value: string): (r: Option<Biome>)
    ensures r.Some? ==> BiomeName(r.value) == ToUpperCase(Root, value)
  {
    BiomeValueOf(ToUpperCase(Root, value))
  }

  /** The `environments` node's parse. */
  function ParseEnvironment(value: string): (r: Option<Environment>)
    ensures r.Some? ==> EnvironmentName(r.value) == ToUpperCase(Root, value)
  {
    EnvironmentValueOf(ToUpperCase(Root, value))
  }

  /** The `replaceEntities` node's parse. */
  function ParseEntityType(value: string): (r: Option<EntityType>)
    ensures r.Some? ==> EntityTypeName(r.value) == ToUpperCase(Root, value)
  {
    EntityTypeValueOf(ToUpperCase(Root, value))
  }

  /**
    The `distribution` node's parse as written: `toUpperCase()` without a
    locale, so the JVM's default locale decides how letters are upper-cased.
  */
  function ParseDistributionIn(defaultLocale: Locale, value: string): (r: Option<SpawnDistribution>)
    ensures r.Some? ==> DistributionName(r.value) == ToUpperCase(defaultLocale, value)
  {
    DistributionValueOf(ToUpperCase(defaultLocale, value))
  }

  /** The `distribution` node's parse as the other parse overrides do it, with the root locale. */
  function ParseDistribution(value: string): (r: Option<SpawnDistribution>)
    ensures r.Some? ==> DistributionName(r.value) == ToUpperCase(Root, value)
  {
    DistributionValueOf(ToUpperCase(Root, value))
  }

  /** A biome parses from exactly the strings that upper-case to its name. */
  lemma ParseBiomeExactly(value: string, b: Biome)
    ensures ParseBiome(value) == Some(b) <==> ToUpperCase(Root, value) == BiomeName(b)
  {
    BiomeValueOfName(b);
  }

  /** An environment parses from exactly the strings that upper-case to its name. */
  lemma ParseEnvironmentExactly(value: string, e: Environment)
    ensures ParseEnvironment(value) == Some(e) <==> ToUpperCase(Root, value) == EnvironmentName(e)
  {
    EnvironmentValueOfName(e);
  }

  /** An entity type parses from exactly the strings that upper-case to its name. */
  lemma ParseEntityTypeExactly(value: string, t: EntityType)
    ensures ParseEntityType(value) == Some(t) <==> ToUpperCase(Root, value) == EntityTypeName(t)
  {
    EntityTypeValueOfName(t);
  }

  /** A distribution parses from exactly the strings that upper-case to its name. */
  lemma ParseDistributionExactly(value: string, d: SpawnDistribution)
    ensures ParseDistribution(value) == Some(d) <==> ToUpperCase(Root, value) == DistributionName(d)
  {
    DistributionValueOfName(d);
  }

  /**
    The three root-locale overrides and the corrected distribution parse
    give the same answer for a string and for its lower- and upper-case
    spellings.
  */
  lemma ParseIgnoresCase(value: string)
    ensures ParseBiome(ToLowerCase(value)) == ParseBiome(value) == ParseBiome(ToUpperCase(Root, value))
    ensures ParseEnvironment(ToLowerCase(value)) == ParseEnvironment(value) == ParseEnvironment(ToUpperCase(Root, value))
    ensures ParseEntityType(ToLowerCase(value)) == ParseEntityType(value) == ParseEntityType(ToUpperCase(Root, value))
    ensures ParseDistribution(ToLowerCase(value)) == ParseDistribution(value) == ParseDistribution(ToUpperCase(Root, value))
  {
    UpperCaseForgetsCase(value);
  }

  /** With the corrected root-locale parse, "linear" and "LINEAR" both select the linear distribution. */
  lemma ParseDistributionLinear()
    ensures ParseDistribution("linear") == Some(Linear)
    ensures ParseDistribution("LINEAR") == Some(Linear)
  {
    assert ToUpperCase(Root, "linear") == "LINEAR";
    assert ToUpperCase(Root, "LINEAR") == "LINEAR";
    DistributionValueOfName(Linear);
  }

  /**
    With a Turkish default locale, the distribution parse as written turns
    "linear" into "LİNEAR", which names no distribution, so `valueOf`
    throws IllegalArgumentException.
  */
  lemma ParseDistributionInTurkishRejectsLinear()
    ensures ParseDistributionIn(Turkish, "linear") == None
    ensures ParseDistribution("linear") == Some(Linear)
  {
    var upper := ToUpperCase(Turkish, "linear");
    assert upper[1] == 'İ';
    forall d: SpawnDistribution
      ensures DistributionName(d) != upper
    {
      assert |DistributionName(d)| > 1 && DistributionName(d)[1] != 'İ';
    }
    ParseDistributionLinear();
  }

  /**
    The biomes an `EnumListNode<Biome>` keeps from a raw list are exactly
    those that some entry names, in any case.
  */
  lemma BiomeListNamesExactly(raw: seq<Option<string>>, b: Biome)
    ensures b in EnumListNode.Parsed(raw, ParseBiome) <==>
      exists i :: 0 <= i < |raw| && raw[i].Some? && ToUpperCase(Root, raw[i].value) == BiomeName(b)
  {
    EnumListNode.ParsedMembers(raw, ParseBiome, b);
    assert BiomeName(b) != "";
    forall i | 0 <= i < |raw| && raw[i].Some?
      ensures (EnumListNode.Accepted(raw[i], ParseBiome) && ParseBiome(raw[i].value) == Some(b))
        <==> ToUpperCase(Root, raw[i].value) == BiomeName(b)
    {
      ParseBiomeExactly(raw[i].value, b);
    }
  }
}
