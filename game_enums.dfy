/**
  The host game's enumerations that the plugin reads, and the plugin's own
  spawn-distribution enumeration.  Each enumeration that the configuration
  parses has its constant names (Java's `name()`) and the exact-name lookup
  that Java's `Enum.valueOf` performs; the lookup fails with None where
  `valueOf` throws IllegalArgumentException.

  Only a subset of the host's biomes and entity types is listed: the ones the
  plugin names, and a few more so that "any other value" is not empty.
*/
module GameEnums {
  import opened Wrappers

  /** The world difficulty (org.bukkit.Difficulty). */
  datatype Difficulty = Peaceful | Easy | Normal | Hard

  /** Why a creature spawned (CreatureSpawnEvent.SpawnReason). */
  datatype SpawnReason = Natural | SpawnerEgg | Spawner | Jockey | Breeding | Command | Custom | Default

  /** The kind of world (World.Environment). */
  datatype Environment = Normal | Nether | TheEnd | Custom

  /** The biome at a location (org.bukkit.block.Biome), a subset. */
  datatype Biome =
    | Plains | Desert | Forest | Taiga | Swamp | Jungle | Savanna | Badlands | Beach
    | DripstoneCaves | LushCaves | DeepDark | NetherWastes | TheEnd | Custom
    | DeepColdOcean | DeepFrozenOcean | DeepLukewarmOcean | DeepOcean | ColdOcean
    | FrozenOcean | LukewarmOcean | Ocean | WarmOcean | River | FrozenRiver

  /** The type of an entity (org.bukkit.entity.EntityType), a subset. */
  datatype EntityType =
    | Spider | CaveSpider | Zombie | Husk | Drowned | ZombifiedPiglin
    | Skeleton | Creeper | Enderman | Witch | Slime

  /** How the spawn chance varies with depth (the plugin's SpawnDistribution). */
  datatype SpawnDistribution = Constant | Linear | Hyperbolic | Logarithmic

  function EnvironmentName(e: Environment): string {
    match e
    case Normal => "NORMAL"
    case Nether => "NETHER"
    case TheEnd => "THE_END"
    case Custom => "CUSTOM"
  }

  /** The modelled environment constants, the table `valueOf` searches. */
  const AllEnvironments: seq<Environment> := [Environment.Normal, Nether, Environment.TheEnd, Environment.Custom]

  function EnvironmentValueOf(s: string): (r: Option<Environment>)
    ensures r.Some? ==> EnvironmentName(r.value) == s
  {
    FindByName(AllEnvironments, EnvironmentName, s)
  }

  function BiomeName(b: Biome): string {
    match b
    case Plains => "PLAINS"
    case Desert => "DESERT"
    case Forest => "FOREST"
    case Taiga => "TAIGA"
    case Swamp => "SWAMP"
    case Jungle => "JUNGLE"
    case Savanna => "SAVANNA"
    case Badlands => "BADLANDS"
    case Beach => "BEACH"
    case DripstoneCaves => "DRIPSTONE_CAVES"
    case LushCaves => "LUSH_CAVES"
    case DeepDark => "DEEP_DARK"
    case NetherWastes => "NETHER_WASTES"
    case TheEnd => "THE_END"
    case Custom => "CUSTOM"
    case DeepColdOcean => "DEEP_COLD_OCEAN"
    case DeepFrozenOcean => "DEEP_FROZEN_OCEAN"
    case DeepLukewarmOcean => "DEEP_LUKEWARM_OCEAN"
    case DeepOcean => "DEEP_OCEAN"
    case ColdOcean => "COLD_OCEAN"
    case FrozenOcean => "FROZEN_OCEAN"
    case LukewarmOcean => "LUKEWARM_OCEAN"
    case Ocean => "OCEAN"
    case WarmOcean => "WARM_OCEAN"
    case River => "RIVER"
    case FrozenRiver => "FROZEN_RIVER"
  }

  /** The modelled biome constants, the table `valueOf` searches. */
  const AllBiomes: seq<Biome> := [
    Plains, Desert, Forest, Taiga, Swamp, Jungle, Savanna, Badlands, Beach,
    DripstoneCaves, LushCaves, DeepDark, NetherWastes, Biome.TheEnd, Biome.Custom,
    DeepColdOcean, DeepFrozenOcean, DeepLukewarmOcean, DeepOcean, ColdOcean,
    FrozenOcean, LukewarmOcean, Ocean, WarmOcean, River, FrozenRiver]

  /**
    Java's `Enum.valueOf`: the constant among `values` whose name is exactly `s`,
    or None where `valueOf` throws IllegalArgumentException.
  */
  function FindByName<E>(values: seq<E>, name: E -> string, s: string): (r: Option<E>)
    ensures r.Some? ==> r.value in values && name(r.value) == s
    ensures r.None? ==> forall i :: 0 <= i < |values| ==> name(values[i]) != s
  {
    if values == [] then None
    else if name(values[0]) == s then Some(values[0])
    else FindByName(values[1..], name, s)
  }

  function BiomeValueOf(s: string): (r: Option<Biome>)
    ensures r.Some? ==> BiomeName(r.value) == s
  {
    FindByName(AllBiomes, BiomeName, s)
  }

  /** No two biomes share a name, so a name identifies its biome. */
  lemma BiomeNameInjective(a: Biome, b: Biome)
    ensures BiomeName(a) == BiomeName(b) ==> a == b
  {
  }

  function EntityTypeName(t: EntityType): string {
    match t
    case Spider => "SPIDER"
    case CaveSpider => "CAVE_SPIDER"
    case Zombie => "ZOMBIE"
    case Husk => "HUSK"
    case Drowned => "DROWNED"
    case ZombifiedPiglin => "ZOMBIFIED_PIGLIN"
    case Skeleton => "SKELETON"
    case Creeper => "CREEPER"
    case Enderman => "ENDERMAN"
    case Witch => "WITCH"
    case Slime => "SLIME"
  }

  /** The modelled entity-type constants, the table `valueOf` searches. */
  const AllEntityTypes: seq<EntityType> := [
    Spider, CaveSpider, Zombie, Husk, Drowned, ZombifiedPiglin,
    Skeleton, Creeper, Enderman, Witch, Slime]

  function EntityTypeValueOf(s: string): (r: Option<EntityType>)
    ensures r.Some? ==> EntityTypeName(r.value) == s
  {
    FindByName(AllEntityTypes, EntityTypeName, s)
  }

  function DistributionName(d: SpawnDistribution): string {
    match d
    case Constant => "CONSTANT"
    case Linear => "LINEAR"
    case Hyperbolic => "HYPERBOLIC"
    case Logarithmic => "LOGARITHMIC"
  }

  /** The modelled distribution constants, the table `valueOf` searches. */
  const AllDistributions: seq<SpawnDistribution> := [Constant, Linear, Hyperbolic, Logarithmic]

  function DistributionValueOf(s: string): (r: Option<SpawnDistribution>)
    ensures r.Some? ==> DistributionName(r.value) == s
  {
    FindByName(AllDistributions, DistributionName, s)
  }

  /** No two environments share a name. */
  lemma EnvironmentNameInjective(a: Environment, b: Environment)
    ensures EnvironmentName(a) == EnvironmentName(b) ==> a == b
  {
  }

  /** No two entity types share a name. */
  lemma EntityTypeNameInjective(a: EntityType, b: EntityType)
    ensures EntityTypeName(a) == EntityTypeName(b) ==> a == b
  {
  }

  /** No two distributions share a name. */
  lemma DistributionNameInjective(a: SpawnDistribution, b: SpawnDistribution)
    ensures DistributionName(a) == DistributionName(b) ==> a == b
  {
  }

  /** `valueOf` finds every environment again under its own name. */
  lemma EnvironmentValueOfName(e: Environment)
    ensures EnvironmentValueOf(EnvironmentName(e)) == Some(e)
  {
    assert e in AllEnvironments;
    EnvironmentNameInjective(EnvironmentValueOf(EnvironmentName(e)).value, e);
  }

  /** `valueOf` finds every biome again under its own name. */
  lemma BiomeValueOfName(b: Biome)
    ensures BiomeValueOf(BiomeName(b)) == Some(b)
  {
    assert b in AllBiomes;
    BiomeNameInjective(BiomeValueOf(BiomeName(b)).value, b);
  }

  /** `valueOf` finds every entity type again under its own name. */
  lemma EntityTypeValueOfName(t: EntityType)
    ensures EntityTypeValueOf(EntityTypeName(t)) == Some(t)
  {
    assert t in AllEntityTypes;
    EntityTypeNameInjective(EntityTypeValueOf(EntityTypeName(t)).value, t);
  }

  /** `valueOf` finds every distribution again under its own name. */
  lemma DistributionValueOfName(d: SpawnDistribution)
    ensures DistributionValueOf(DistributionName(d)) == Some(d)
  {
    assert d in AllDistributions;
    DistributionNameInjective(DistributionValueOf(DistributionName(d)).value, d);
  }
}
