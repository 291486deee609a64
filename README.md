# Deep Cave Spiders: the spawn decisions, in Dafny

Deep Cave Spiders is a Paper/Bukkit server plugin. It replaces some natural spawns deep underground with cave spiders, and it sometimes gives a spawned cave spider a baby zombie rider (a jockey). This project models the plugin's decision layer and proves its properties:

- **The listener** (`spawn_entity_listener.dfy`, module `Listeners`):
  - The class `SpawnEntityListener` holds the eleven settings that `reloadConfiguration` overwrites.
  - `getSpawnChance` picks a base chance by difficulty, scales it by a depth curve (constant, linear, hyperbolic or logarithmic) and clamps the result.
  - The two event handlers become pure decision functions. Each takes a spawn-event descriptor and a random sample, and returns `NoOp`, `ReplaceWithCaveSpider` or `AttachJockey(type)`.
- **The enum-list node** (`enum_list_node.dfy`, module `EnumListNode`):
  - `value()` is a loop that turns the raw string list of the configuration file into enum constants.
  - It skips null and empty entries, and entries that do not parse.
  - The loop is proved against a recursive filter-map.
- **The configuration** (`configuration.dfy`, module `PluginConfiguration`):
  - the tree of configuration containers and their values;
  - `SpawnChancesContainer.value(difficulty)`;
  - the `parse` overrides of the enum nodes;
  - the declared defaults and bounds.
- **The game's enumerations** (`game_enums.dfy`, module `GameEnums`): difficulty, spawn reason, environment, biome, entity type and the plugin's spawn distribution. Each enumeration the configuration parses has its constant names and Java's `Enum.valueOf`.
- `wrappers.dfy` holds the `Option` type. In the model, `None` stands for Java's null and for a `valueOf` that throws.

Doubles are modelled as Dafny `real`; rounding is not modelled. `MathHelper.logb` is an argument of type `(real, real) -> real` about which nothing is assumed. `MathHelper.clampd` is taken to be the standard clamp. The random draw `Math.random()` is the `sample` argument.

Notes on the code:
- The logarithmic curve takes `logb(maxY - y, maxY - minY)`, the logarithm of the height difference and not of the depth fraction.
- Nothing guards `maxY == minY`: the model requires `maxY != minY` for the two curves that divide by it.
- Nothing rejects `minY > maxY`: the model accepts any heights.
- The handlers compare the sample to the chance with a strict `<`.
- The comment at `SpawnEntityListener.java:84-85` promises to exclude cave-spider spawns, but line 86 excludes them only when the configuration leaves CAVE_SPIDER out of `replaceEntities`. With CAVE_SPIDER listed, the natural cave spider that a replacement spawns at line 110 passes every filter again and is replaced again whenever its own draw is below the chance (`CaveSpiderReplacedWhenListed`). With a chance of 1, which the declared bounds allow, this repeats without end.

## Model

| member | source | states |
|---|---|---|
| `GameEnums.FindByName` | src/main/java/dev/satyrn/deepcavespiders/configuration/Configuration.java:41 | `Enum.valueOf`: a found constant is one of the enum's values and has exactly the given name; None only when no value has that name |
| `GameEnums.BiomeValueOf` | src/main/java/dev/satyrn/deepcavespiders/configuration/Configuration.java:41 | `Biome.valueOf`: a found biome's name is exactly the string |
| `GameEnums.EnvironmentValueOf` | src/main/java/dev/satyrn/deepcavespiders/configuration/Configuration.java:51 | `World.Environment.valueOf`: a found environment's name is exactly the string |
| `GameEnums.EntityTypeValueOf` | src/main/java/dev/satyrn/deepcavespiders/configuration/Configuration.java:61 | `EntityType.valueOf`: a found type's name is exactly the string |
| `GameEnums.DistributionValueOf` | src/main/java/dev/satyrn/deepcavespiders/configuration/Configuration.java:104 | `SpawnDistribution.valueOf`: a found distribution's name is exactly the string |
| `GameEnums.BiomeNameInjective` | src/main/java/dev/satyrn/deepcavespiders/configuration/Configuration.java:41 | no two biomes share a name, so `valueOf` is well defined |
| `GameEnums.BiomeValueOfName` | src/main/java/dev/satyrn/deepcavespiders/configuration/Configuration.java:41 | round trip: every biome is found again under its own name |
| `GameEnums.EnvironmentValueOfName` | src/main/java/dev/satyrn/deepcavespiders/configuration/Configuration.java:51 | round trip for environments |
| `GameEnums.EntityTypeValueOfName` | src/main/java/dev/satyrn/deepcavespiders/configuration/Configuration.java:61 | round trip for entity types |
| `GameEnums.DistributionValueOfName` | src/main/java/dev/satyrn/deepcavespiders/configuration/Configuration.java:104 | round trip for distributions |
| `EnumListNode.Parsed` | src/main/java/dev/satyrn/papermc/api/deepcavespiders/configuration/EnumListNode.java:33-47 | the list built from the raw entries is never longer than the raw list |
| `EnumListNode.Value` | src/main/java/dev/satyrn/papermc/api/deepcavespiders/configuration/EnumListNode.java:33-47 | the loop returns exactly the filter-map `Parsed` of the raw entries, for every input (so it never fails as a whole, and an empty input gives an empty list) |
| `EnumListNode.ParsedAppend` | src/main/java/dev/satyrn/papermc/api/deepcavespiders/configuration/EnumListNode.java:36-45 | the list of a concatenation is the concatenation of the lists: input order is kept |
| `EnumListNode.RejectedEntrySkipped` | src/main/java/dev/satyrn/papermc/api/deepcavespiders/configuration/EnumListNode.java:37-43 | a null entry, an empty entry or one whose parse fails contributes nothing, wherever it stands |
| `EnumListNode.ParsedMembers` | src/main/java/dev/satyrn/papermc/api/deepcavespiders/configuration/EnumListNode.java:36-45 | a value is in the list if and only if some accepted entry parses to it |
| `EnumListNode.AllAcceptedParsed` | src/main/java/dev/satyrn/papermc/api/deepcavespiders/configuration/EnumListNode.java:36-45 | when every entry is non-empty and parses, the list has the input's length and element i is the parse of entry i |
| `PluginConfiguration.SpawnChancesValue` | src/main/java/dev/satyrn/deepcavespiders/configuration/Configuration.java:229-231 | HARD, NORMAL and EASY select the hard, normal and easy chance; PEACEFUL gives 0; chances within [0, 1] give a result within [0, 1] |
| `PluginConfiguration.DefaultsWithinDeclaredBounds` | src/main/java/dev/satyrn/deepcavespiders/configuration/Configuration.java:143-212 | the minY and maxY defaults -64 and -8 lie in [-64, 320] and are ordered; the chance defaults 0.05, 0.1 and 0.5 lie in [0, 1] and do not decrease with difficulty; the distribution defaults to CONSTANT |
| `PluginConfiguration.ToUpperCase` | src/main/java/dev/satyrn/deepcavespiders/configuration/Configuration.java:41 | `toUpperCase` keeps the length and upper-cases each character in place, under the given locale |
| `PluginConfiguration.UpperCaseForgetsCase` | src/main/java/dev/satyrn/deepcavespiders/configuration/Configuration.java:41 | root-locale upper-casing gives the same string for the lower-case spelling, and is idempotent |
| `PluginConfiguration.ParseBiome` | src/main/java/dev/satyrn/deepcavespiders/configuration/Configuration.java:40-42 | a parsed biome's name is the input upper-cased with the root locale |
| `PluginConfiguration.ParseEnvironment` | src/main/java/dev/satyrn/deepcavespiders/configuration/Configuration.java:50-52 | a parsed environment's name is the input upper-cased with the root locale |
| `PluginConfiguration.ParseEntityType` | src/main/java/dev/satyrn/deepcavespiders/configuration/Configuration.java:60-62 | a parsed entity type's name is the input upper-cased with the root locale |
| `PluginConfiguration.ParseDistributionIn` | src/main/java/dev/satyrn/deepcavespiders/configuration/Configuration.java:103-105 | the distribution parse as written: a parsed distribution's name is the input upper-cased with the JVM's default locale |
| `PluginConfiguration.ParseDistribution` | src/main/java/dev/satyrn/deepcavespiders/configuration/Configuration.java:103-105 | the distribution parse with the root locale: a parsed distribution's name is the upper-cased input |
| `PluginConfiguration.ParseBiomeExactly` | src/main/java/dev/satyrn/deepcavespiders/configuration/Configuration.java:40-42 | a string parses to a biome if and only if it upper-cases to that biome's name |
| `PluginConfiguration.ParseEnvironmentExactly` | src/main/java/dev/satyrn/deepcavespiders/configuration/Configuration.java:50-52 | the same for environments |
| `PluginConfiguration.ParseEntityTypeExactly` | src/main/java/dev/satyrn/deepcavespiders/configuration/Configuration.java:60-62 | the same for entity types |
| `PluginConfiguration.ParseDistributionExactly` | src/main/java/dev/satyrn/deepcavespiders/configuration/Configuration.java:103-105 | the same for distributions, with the root locale |
| `PluginConfiguration.ParseIgnoresCase` | src/main/java/dev/satyrn/deepcavespiders/configuration/Configuration.java:38-64 | the three root-locale overrides (biomes, environments, replaceEntities) and the corrected distribution parse each give the same result for a string, its lower-case and its upper-case spelling; the distribution override as written does not under a Turkish default locale (see Findings) |
| `PluginConfiguration.ParseDistributionLinear` | src/main/java/dev/satyrn/deepcavespiders/configuration/Configuration.java:103-105 | with the corrected root-locale distribution parse, "linear" and "LINEAR" both parse to LINEAR (the override as written does so only outside a Turkish default locale, see Findings) |
| `PluginConfiguration.ParseDistributionInTurkishRejectsLinear` | src/main/java/dev/satyrn/deepcavespiders/configuration/Configuration.java:104 | under a Turkish default locale the parse as written rejects "linear"; the root-locale parse accepts it |
| `PluginConfiguration.BiomeListNamesExactly` | src/main/java/dev/satyrn/deepcavespiders/configuration/Configuration.java:38-43 | a biome is in the `biomes` node's list if and only if some raw entry names it, in any case |
| `Listeners.Clamp` | src/main/java/dev/satyrn/deepcavespiders/listeners/SpawnEntityListener.java:168 | the clamped value lies within the bounds and is unchanged when already within them |
| `Listeners.SpawnChance` | src/main/java/dev/satyrn/deepcavespiders/listeners/SpawnEntityListener.java:159-169 | for every distribution, including LOGARITHMIC with any `logb`, the chance lies in [0, max(0, base)] |
| `Listeners.BaseChanceMatchesConfiguration` | src/main/java/dev/satyrn/deepcavespiders/listeners/SpawnEntityListener.java:160 | the listener's base-chance selection agrees with `SpawnChancesContainer.value` for every difficulty |
| `Listeners.PeacefulChanceIsZero` | src/main/java/dev/satyrn/deepcavespiders/listeners/SpawnEntityListener.java:160 | on PEACEFUL the chance is 0 for every curve and height |
| `Listeners.ChanceIsProbability` | src/main/java/dev/satyrn/deepcavespiders/listeners/SpawnEntityListener.java:159-169 | with every configured chance within its declared bounds, the spawn chance lies in [0, 1] |
| `Listeners.ConstantIgnoresDepth` | src/main/java/dev/satyrn/deepcavespiders/listeners/SpawnEntityListener.java:161-168 | with CONSTANT, the default, the chance is max(0, base) at every height, so a base in [0, 1] comes back unchanged |
| `Listeners.DepthFractionDecreasing` | src/main/java/dev/satyrn/deepcavespiders/listeners/SpawnEntityListener.java:164 | with minY < maxY the depth fraction `(maxY - y) / (maxY - minY)` does not increase with y |
| `Listeners.DepthFractionEnds` | src/main/java/dev/satyrn/deepcavespiders/listeners/SpawnEntityListener.java:164 | the depth fraction is 1 at minY and at least 1 below it, 0 at maxY and non-negative below maxY |
| `Listeners.CurveShape` | src/main/java/dev/satyrn/deepcavespiders/listeners/SpawnEntityListener.java:163-168 | LINEAR clamps base times the fraction; HYPERBOLIC clamps base times the fraction squared |
| `Listeners.LinearNonIncreasing` | src/main/java/dev/satyrn/deepcavespiders/listeners/SpawnEntityListener.java:164 | with minY < maxY the linear chance never rises with height |
| `Listeners.LinearEndpoints` | src/main/java/dev/satyrn/deepcavespiders/listeners/SpawnEntityListener.java:164 | the linear chance is the (non-negative) base at minY and 0 at maxY |
| `Listeners.FullChanceBelowMinY` | src/main/java/dev/satyrn/deepcavespiders/configuration/Configuration.java:160-164 | at or below minY the linear and hyperbolic chances are the full base chance, as the `allowSpawnsBelowMinY` node's documentation promises |
| `Listeners.HyperbolicAtMostLinear` | src/main/java/dev/satyrn/deepcavespiders/listeners/SpawnEntityListener.java:164-165 | at every height up to maxY the hyperbolic chance is at most the linear chance |
| `Listeners.SpiderDecision` | src/main/java/dev/satyrn/deepcavespiders/listeners/SpawnEntityListener.java:83-112 | the spawn is replaced by a cave spider if and only if the reason is NATURAL, the type is replaceable, blockY is at most maxY and not below minY unless allowed, the block is not liquid, the chance is positive, the environment and biome are allowed, and the sample is strictly below the chance; otherwise NoOp |
| `Listeners.ReplacedExactlyBelowChance` | src/main/java/dev/satyrn/deepcavespiders/listeners/SpawnEntityListener.java:98-111 | for an event that passes every filter and a sample in [0, 1), replacement happens exactly when the sample is below the chance |
| `Listeners.CaveSpiderNotReplacedAgain` | src/main/java/dev/satyrn/deepcavespiders/listeners/SpawnEntityListener.java:84-88 | a cave-spider spawn is never replaced when cave spiders are not among the replaceable types |
| `Listeners.CaveSpiderReplacedWhenListed` | src/main/java/dev/satyrn/deepcavespiders/listeners/SpawnEntityListener.java:84-111 | when CAVE_SPIDER is among the replaceable types, a natural cave-spider spawn that passes every filter is replaced whenever its draw, taken from [0, 1), is below the chance: the exclusion promised at lines 84-85 depends on the configuration |
| `Listeners.OutOfRangeNeverReplaced` | src/main/java/dev/satyrn/deepcavespiders/listeners/SpawnEntityListener.java:92-94 | a spawn above maxY, or below minY when that is not allowed, is never replaced |
| `Listeners.LinearScenarioDecisions` | src/main/java/dev/satyrn/deepcavespiders/listeners/SpawnEntityListener.java:86-111 | with heights -64 to -8, LINEAR and normal chance 0.1, a spawn at -64 is replaced exactly when the sample is below 0.1, and one at -8 never is |
| `Listeners.JockeyType` | src/main/java/dev/satyrn/deepcavespiders/listeners/SpawnEntityListener.java:134-144 | NETHER gives ZOMBIFIED_PIGLIN whatever the biome; otherwise DESERT gives HUSK, the eleven ocean and river biomes give DROWNED, every other biome gives ZOMBIE; the type is always a zombie kind, so the cast to Zombie succeeds |
| `Listeners.CaveSpiderDecision` | src/main/java/dev/satyrn/deepcavespiders/listeners/SpawnEntityListener.java:120-150 | a jockey is attached if and only if the reason is NATURAL or SPAWNER_EGG, the entity is a cave spider, the jockey chance is positive, the difficulty is HARD and the sample is strictly below the jockey chance; the jockey has the `JockeyType` of the environment and biome; the handler never replaces |
| `Listeners.NoJockeyWithoutChance` | src/main/java/dev/satyrn/deepcavespiders/listeners/SpawnEntityListener.java:131 | a jockey chance of 0 never attaches a jockey |
| `Listeners.CertainNetherJockey` | src/main/java/dev/satyrn/deepcavespiders/listeners/SpawnEntityListener.java:131-136 | a jockey chance of 1 on HARD in the NETHER always attaches a ZOMBIFIED_PIGLIN |
| `Listeners.HandlersActOnDifferentSpawns` | src/main/java/dev/satyrn/deepcavespiders/listeners/SpawnEntityListener.java:82-131 | both handlers see every spawn and each draws its own sample (lines 108 and 131); unless CAVE_SPIDER is replaceable, at most one of them acts on it, whatever the two draws |
| `Listeners.SpawnEntityListener.constructor` | src/main/java/dev/satyrn/deepcavespiders/listeners/SpawnEntityListener.java:28-55 | a new listener holds the fields' initial values: heights and chances 0, empty lists, CONSTANT, below-minY spawns not allowed |
| `Listeners.SpawnEntityListener.ReloadConfiguration` | src/main/java/dev/satyrn/deepcavespiders/listeners/SpawnEntityListener.java:63-75 | after a reload each of the eleven fields equals its configuration value, and reloading the same configuration again leaves the state unchanged |

## Left out

- Host effects are not modelled. Cancelling the event, spawning the cave spider or the jockey, `setBaby` and `addPassenger` are what the returned decision asks for.
- Inputs from the host are fields of the event descriptor: the biome and environment lookups, `isLiquid`, the difficulty, and both `getY()` and `getBlockY()`. The model does not relate `y` to `blockY`.
- The event that the spawned cave spider itself raises is not modelled. `CaveSpiderNotReplacedAgain` and `CaveSpiderReplacedWhenListed` state only what that event's decision would be.
- `Math.random()` is the `sample` argument; randomness is not modelled.
- `MathHelper.logb` and `MathHelper.clampd` are not part of this model. `logb` is an arbitrary function argument; `clampd` is assumed to be the standard clamp.
- SpawnChance: for LOGARITHMIC only the clamp bound is claimed, because the shape of `logb` is unknown.
- Floating point is idealised as real arithmetic: rounding, NaN and infinity are not modelled. The LINEAR and HYPERBOLIC curves therefore require `maxY != minY`; with equal heights the source divides by zero.
- The integer subtraction `maxY - minY` is unbounded in the model. The declared bounds keep it far from overflow.
- Biomes, entity types and spawn reasons are subsets of the game's enumerations: the constants the plugin names, plus a few others. The missing spawn reasons behave like the modelled ones other than NATURAL and SPAWNER_EGG.
- Upper-casing is modelled for ASCII letters, plus the Turkish dotted capital I. Java's other Unicode case mappings are not modelled.
- The bound enforcement of the integer and double nodes is not part of this model, nor is YAML loading. A failed `valueOf` throws IllegalArgumentException, modelled as `None`; how the enum node handles that exception is not in the source, so only the `getDefault()` override's value, CONSTANT, is modelled. The declared bounds and defaults are constants; the raw string list is an input of type `seq<Option<string>>`.
- The configuration registry (`ConfigurationRegistry.java`) is not modelled. It is a lazy singleton that delegates to a registry class that is not part of this model, so the listener constructor's call to register itself is left out too.
- The plugin's entry point (`DeepCaveSpiders.java`) is not modelled: commands, permissions, messages and lifecycle.
- Localisation (`I18n.java`) is not modelled.
- The `locale`, `debug` and `metrics` nodes are carried in `Configuration`, but nothing in the model reads them.

## Findings

| source | as written | input that shows it | evidently intended | confidence | as-written member | corrected member |
|---|---|---|---|---|---|---|
| src/main/java/dev/satyrn/deepcavespiders/configuration/Configuration.java:104 | the distribution parse calls `toUpperCase()` without a locale, so the JVM's default locale decides the upper-casing | default locale Turkish, configured value "linear": it upper-cases to "LİNEAR" with a dotted capital I, which names no distribution (`ParseDistributionInTurkishRejectsLinear`) | upper-case with `Locale.ROOT`, as the three other parse overrides do, so that "linear" selects LINEAR in every locale (`ParseDistributionExactly`, `ParseDistributionLinear`) | not executed; Java's locale-dependent upper-casing is documented behaviour, while how the node handles the thrown exception is not in the source | `PluginConfiguration.ParseDistributionIn` | `PluginConfiguration.ParseDistribution` |
