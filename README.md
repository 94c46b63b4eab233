# Hunter edges, specialty bonuses and localized labels, in Dafny

The model covers three pieces of a World of Darkness 5th-edition game system for the Foundry virtual tabletop.

- **Edge preparation for hunter actors** (`HunterEdges`, `edges.dfy`).
  - `prepareEdges` reconciles the actor's stored edge map with the edge definitions. Edges without a definition are deleted. Each defined edge is rebuilt from its stored record, or from defaults, with the definition's attributes laid over it. A hidden edge is made invisible. Its description is enriched. Its perks and edge pools are taken from the actor's items.
  - `prepareEdgePowers` then sorts every edge's perks and pools by name. It makes an edge with perks visible unless the edge is hidden.
  - The edge map is a `map` field of the class `ActorEdges`, and both passes are methods that change it.
  - `prepareEdges` is proved equal to a declarative description, `ReconciledEdges`.
  - The sort is an insertion sort on an `array`, proved sorted and a permutation.
- **Specialty bonuses** (`SpecialtyBonuses`, `bonuses.dfy`, over `JsText` in `js_text.dfy`). These are the data steps of the add, delete and edit dialogs of a skill's bonuses:
  - the `;`-separated path field is split, trimmed and cleared of empty pieces;
  - the game system falls back to `mortal`;
  - the default bonus is fixed;
  - the stored list is looked up by a dot path with the reducer `obj && obj[key]`;
  - a bonus is appended, removed or replaced in the list handed to `actor.update`.
  - The actor's data is a JSON-like `Value`, with JavaScript truthiness.
  - The list edits are methods of a `BonusList` class holding a mutable sequence.
- **Localized labels** (`Localization`, `localization.dfy`).
  - `generateLocalizedLabel` picks a registry by a type alias and returns the entry's `displayName`, else its `label`, else `''`.
  - A type that is not an alias falls back to localizing `WOD5E.<key>`.
  - The group types form a fixed three-entry table.
  - The registries and the host's `localize` service are parameters, so the function is pure in them.

`wrappers.dfy` holds the `Option` and `Result` types.

The model adds no I/O of its own. `TextEditor.enrichHTML` becomes an `enrich: string -> string` parameter, `String.prototype.localeCompare` a comparator parameter and `game.i18n.localize` a `localize` parameter. `actor.update` is represented by the `Update` value that a handler would pass to it.

## Model

| member | source | states |
|---|---|---|
| `HunterEdges.ActorEdges.DropStaleEdges` | system/actor/htr/scripts/prepare-data.js:10-16 | After the clean-up loop, an id stays in the map exactly when it was stored and has a definition. Every edge that stays is unchanged. |
| `HunterEdges.ActorEdges.PrepareEdge` | system/actor/htr/scripts/prepare-data.js:18-71 | One pass of the main loop. The map becomes the old map with `id` set to `PreparedEdge` of the stored record (if any) and the definition. No other key changes. |
| `HunterEdges.ActorEdges.PrepareEdges` | system/actor/htr/scripts/prepare-data.js:5-75 | The whole of `prepareEdges` leaves the map equal to `ReconciledEdges` of the old map: exactly the defined ids, each prepared from its own stored record. |
| `HunterEdges.Prune` | system/actor/htr/scripts/prepare-data.js:11-16 | Removing the undefined edges keeps a key exactly when it was stored and is defined. The record at each kept key is unchanged. |
| `HunterEdges.PreparedEdge` | system/actor/htr/scripts/prepare-data.js:19-71 | The record built for one defined id takes each of id, value, description and selected flag from the definition when the definition gives it. Otherwise the id is the map key and the rest come from the stored record, or are 0, `''` and not selected for a new edge. It is hidden exactly when the definition says so. It is visible exactly when it is not hidden and the definition's flag, or else the stored record's, is true. It carries the definition's other attributes. Its enriched description is `enrich` of its description. Its perks and pools are the actor's matching items. |
| `HunterEdges.ApplyDefs` | system/actor/htr/scripts/prepare-data.js:18-72 | Running the loop over a map gives these keys: the map's keys plus the defined ids. A stored key without a definition keeps its record. |
| `HunterEdges.Overlay` | system/actor/htr/scripts/prepare-data.js:23-41 | `Object.assign(base, definition)`: a visibility or hidden flag the definition has wins, otherwise the base's stays. Perks and pools come from the base. |
| `HunterEdges.MatchingItems` | system/actor/htr/scripts/prepare-data.js:64-71 | The filter's result is no longer than the items. Each result is one of the actor's items, with the given type and attached to the given edge. |
| `HunterEdges.MatchingItemsCount` | system/actor/htr/scripts/prepare-data.js:64-66 | The filter keeps every matching item exactly as often as it occurs and nothing else (multiset count). |
| `HunterEdges.MatchingItemsAppend` | system/actor/htr/scripts/prepare-data.js:69-71 | The filter keeps item order: filtering `a + b` is filtering `a` followed by filtering `b`. |
| `HunterEdges.ReconciledEdges` | system/actor/htr/scripts/prepare-data.js:11-18 | The prepared map's keys are exactly the ids of the edge definitions. |
| `HunterEdges.ApplyDefsAt` | system/actor/htr/scripts/prepare-data.js:18-72 | With distinct ids, running the loop over any map prepares each defined id from its own stored record in that map and its own definition. The key set and the untouched keys are stated by `ApplyDefs`. |
| `HunterEdges.ReconciledByApplying` | system/actor/htr/scripts/prepare-data.js:10-72 | The clean-up followed by the loop computes `ReconciledEdges`. |
| `HunterEdges.FreshEdgeDefaults` | system/actor/htr/scripts/prepare-data.js:32-52 | A defined edge the actor did not have gets these defaults: value 0, empty description, not selected, not hidden. The definition's properties win. It is visible only if the definition makes it visible and it is not hidden. |
| `HunterEdges.StoredEdgeCarried` | system/actor/htr/scripts/prepare-data.js:21-31 | A defined edge the actor had keeps its stored value, description, visibility and selection unless the definition supplies them. The stored hidden flag and other attributes do not survive. |
| `HunterEdges.HiddenEdgesInvisible` | system/actor/htr/scripts/prepare-data.js:49-52 | No prepared edge is both hidden and visible. |
| `HunterEdges.PowersFromItems` | system/actor/htr/scripts/prepare-data.js:54-71 | Every prepared edge's perks and pools are the matching items. Its enriched description is `enrich` of its final description. |
| `HunterEdges.StoredPowersIgnored` | system/actor/htr/scripts/prepare-data.js:26-27 | Stored perks and pools play no part: two maps differing only there prepare to the same map, because lines 54-58 wipe them. |
| `HunterEdges.PreparedEdgeStable` | system/actor/htr/scripts/prepare-data.js:21-71 | Preparing an already prepared record again with the same definition and items gives the same record. |
| `HunterEdges.ReconcileIdempotent` | system/actor/htr/scripts/prepare-data.js:5-75 | Running `prepareEdges` on its own output changes nothing. |
| `HunterEdges.SortInPlace` | system/actor/htr/scripts/prepare-data.js:90-92 | The in-place sort leaves the array ordered by the name comparator and a permutation (multiset) of what it held. |
| `HunterEdges.SortByName` | system/actor/htr/scripts/prepare-data.js:103-105 | The sorted list of perks or pools is ordered by name and a permutation of the input. |
| `HunterEdges.PreparePowers` | system/actor/htr/scripts/prepare-data.js:80-109 | For one edge:<br>• array perks and pools become sorted permutations of themselves;<br>• a missing or non-array list is left alone;<br>• the edge becomes visible exactly when it was visible, or it has perks and is not hidden;<br>• nothing else changes. |
| `HunterEdges.ActorEdges.PrepareEdgePowers` | system/actor/htr/scripts/prepare-data.js:77-114 | The key set stays the same and every edge is changed as `PreparePowers` states. |
| `HunterEdges.PowersKeepHiddenInvisible` | system/actor/htr/scripts/prepare-data.js:87 | The power pass never makes a hidden edge visible. |
| `HunterEdges.EdgeAfterBothPasses` | system/actor/htr/scripts/prepare-data.js:5-114 | After both passes, a defined edge has these properties:<br>• its perks and pools are sorted by name;<br>• they hold exactly the actor's matching items, with multiplicity;<br>• it is invisible if hidden;<br>• it is visible if it is not hidden and some item is a perk of it. |
| `JsText.Trim` | module/actor/scripts/specialty-bonuses.js:49-51 | `trim` returns a result no longer than its input. The result has no white space at either end and holds only characters of the input. |
| `JsText.TrimBetweenWhite` | module/actor/scripts/specialty-bonuses.js:49-51 | The input is the trimmed result between a white-space prefix and a white-space suffix. With `Trim`'s ends clause, this fixes the result uniquely. |
| `JsText.TrimIdempotent` | module/actor/scripts/specialty-bonuses.js:49-51 | Trimming a trimmed piece changes nothing. |
| `JsText.Split` | module/actor/scripts/specialty-bonuses.js:48 | `split` always yields at least one piece, and no piece contains the separator. |
| `JsText.JoinSplit` | module/actor/scripts/specialty-bonuses.js:48 | Joining the pieces of `split` with the separator gives back the input. |
| `JsText.SplitJoin` | module/actor/scripts/specialty-bonuses.js:48 | Splitting a join of separator-free pieces gives back those pieces. |
| `JsText.SplitWithoutSeparator` | module/actor/scripts/specialty-bonuses.js:69 | A string without the separator splits into itself alone. |
| `JsText.SplitAtSeparator` | module/actor/scripts/specialty-bonuses.js:69 | Splitting `a + sep + b` gives the pieces of `a` followed by the pieces of `b`. |
| `SpecialtyBonuses.Walk` | module/actor/scripts/specialty-bonuses.js:69-70 | The reduce `obj && obj[key]` along the keys: a truthy result is the value stored along the whole path. |
| `SpecialtyBonuses.Resolve` | module/actor/scripts/specialty-bonuses.js:69-70 | The lookup with its `\|\|` fallback gives the value stored along the dot-split path when every step exists and that value is truthy. In every other case it gives the fallback. |
| `SpecialtyBonuses.WalkMatchesAt` | module/actor/scripts/specialty-bonuses.js:69-70 | The lookup (reduce with `obj && obj[key]`, then `\|\|` a fallback) yields the value stored along the path when every step exists and the value is truthy. It yields the fallback in every other case. The same lookup is at lines 112-113 and 182-183. |
| `SpecialtyBonuses.WalkFalsy` | module/actor/scripts/specialty-bonuses.js:113 | Once the reducer holds a falsy value it keeps that value to the end. |
| `SpecialtyBonuses.TrimAll` | module/actor/scripts/specialty-bonuses.js:49-51 | The map step keeps the length, and piece `i` is the trim of input piece `i`. |
| `SpecialtyBonuses.DropEmpty` | module/actor/scripts/specialty-bonuses.js:52-54 | A string is in the filter's result exactly when it is a piece of the input and is not empty. |
| `SpecialtyBonuses.DropEmptyCounts` | module/actor/scripts/specialty-bonuses.js:52-54 | The filter keeps every non-empty piece as often as it occurs: the multiset of the result is the input's with `''` removed. |
| `SpecialtyBonuses.ParsePaths` | module/actor/scripts/specialty-bonuses.js:47-54 | Every parsed path is non-empty, already trimmed and free of `;`. The same parsing is at lines 168-175. |
| `SpecialtyBonuses.CleanPieces` | module/actor/scripts/specialty-bonuses.js:48-54 | Trimmed, non-empty pieces of a separator-free list are trimmed and separator-free. |
| `SpecialtyBonuses.TrimAllAppend` | module/actor/scripts/specialty-bonuses.js:49-51 | The trim step distributes over concatenation. |
| `SpecialtyBonuses.DropEmptyAppend` | module/actor/scripts/specialty-bonuses.js:52-54 | The empty-piece filter distributes over concatenation. |
| `SpecialtyBonuses.ParsePathsAppend` | module/actor/scripts/specialty-bonuses.js:47-54 | The paths of `a;b` are the paths of `a` followed by those of `b`, so the parser keeps input order. |
| `SpecialtyBonuses.ParsePathsPiece` | module/actor/scripts/specialty-bonuses.js:168-175 | A piece with no `;` parses to nothing when it is blank and otherwise to its trimmed self. |
| `SpecialtyBonuses.GameSystem` | module/actor/scripts/specialty-bonuses.js:8-9 | The system is always one of the four known ones. It equals the actor's `gamesystem` exactly when that is one of them, and is `mortal` otherwise. The same choice is at lines 108-109 and 144-145. |
| `SpecialtyBonuses.DefaultBonus` | module/actor/scripts/specialty-bonuses.js:12-23 | The bonus offered by the add dialog has these five keys:<br>• source `New specialty`;<br>• value 1;<br>• paths `[skills.<skill>]`;<br>• not displayed when inactive;<br>• active always. |
| `SpecialtyBonuses.NewBonus` | module/actor/scripts/specialty-bonuses.js:60-66 | The bonus built from the form has exactly five keys:<br>• the form's source, value and display flag;<br>• `paths`, the parsed path field as an array of strings, all non-empty and trimmed;<br>• `activeWhen`, an object with exactly the form's `check`, `path` and `value`.<br>The same record is built at lines 186-192. |
| `SpecialtyBonuses.RemoveAt` | module/actor/scripts/specialty-bonuses.js:116 | `splice(k, 1)` in range drops entry `k`: one shorter, the prefix kept, the rest shifted left. Out of range it changes nothing. |
| `SpecialtyBonuses.SetIndex` | module/actor/scripts/specialty-bonuses.js:186 | `list[k] = v`: entry `k` becomes `v` and every other existing entry stays. The length becomes `max(len, k+1)`. Holes read as `undefined`. |
| `SpecialtyBonuses.BonusList.Push` | module/actor/scripts/specialty-bonuses.js:73 | The list becomes the old list with the bonus appended. |
| `SpecialtyBonuses.BonusList.Splice` | module/actor/scripts/specialty-bonuses.js:116 | The list becomes `RemoveAt` of the old list. |
| `SpecialtyBonuses.BonusList.SetAt` | module/actor/scripts/specialty-bonuses.js:186-192 | The list becomes `SetIndex` of the old list. |
| `SpecialtyBonuses.AddOutcome` | module/actor/scripts/specialty-bonuses.js:69-76 | The add handler succeeds exactly when the value found at the path (or `{bonuses: []}`) has a `bonuses` array. The update is then keyed `system.<path>`, with that array plus the new bonus last. Otherwise it throws. |
| `SpecialtyBonuses.AddToListOutcome` | module/actor/scripts/specialty-bonuses.js:69-76 | Corrected add: the value at the path is the list. It succeeds exactly when that is an array, and the update holds the stored list plus the new bonus last. |
| `SpecialtyBonuses.DeleteOutcome` | module/actor/scripts/specialty-bonuses.js:112-119 | The delete handler succeeds exactly when the value at the path (or `[]`) is an array. The update is keyed `system.<path>`. In range it holds the list without entry `k`, out of range the list unchanged. |
| `SpecialtyBonuses.EditOutcome` | module/actor/scripts/specialty-bonuses.js:182-195 | The edit handler succeeds exactly when the value at the path (or `[]`) is an array or an object. Otherwise it throws a type error. Every update is keyed `system.<path>`.<br>• For an array, the update holds `SetIndex` of the list. For an in-range index, entry `k` is replaced and every other entry stays.<br>• For an object, the property named by the decimal index is set to the bonus. |
| `SpecialtyBonuses.ResolveSkillPaths` | module/actor/scripts/specialty-bonuses.js:69-70 | On an actor storing one bonus, the skill's path finds the skill object and the list's path finds the list. |
| `SpecialtyBonuses.AddDisagreesWithDelete` | module/actor/scripts/specialty-bonuses.js:69-119 | As written, no bonus path serves both add and delete once a skill stores a bonus. At the list's path, delete succeeds and add throws. At the skill's path, delete throws and add writes a list over the skill object. |
| `SpecialtyBonuses.AddToListAgreesWithDelete` | module/actor/scripts/specialty-bonuses.js:69-119 | The corrected add succeeds exactly where delete does and writes under the same key. Removing its new last entry gives back the stored list. |
| `SpecialtyBonuses.AddToListOnStoredBonus` | module/actor/scripts/specialty-bonuses.js:69-76 | The corrected add appends to the stored list on the actor where the as-written add throws. |
| `SpecialtyBonuses.OnAddBonus` | module/actor/scripts/specialty-bonuses.js:37-77 | The add dialog's confirm step builds the bonus from the form. Its update is `AddOutcome` of that bonus, computed by pushing onto a `BonusList`. |
| `SpecialtyBonuses.OnDeleteBonus` | module/actor/scripts/specialty-bonuses.js:101-119 | The delete handler's update is `DeleteOutcome`, computed by a splice on a `BonusList`. |
| `SpecialtyBonuses.OnEditBonus` | module/actor/scripts/specialty-bonuses.js:159-195 | The edit dialog's save step's update is `EditOutcome` of the bonus built from the form, computed by an index assignment on a `BonusList`. |
| `Localization.FindLabel` | system/api/generate-localization.js:55-64 | These cases hold:<br>• a missing key gives `''`;<br>• a truthy `displayName` wins;<br>• otherwise a truthy `label`;<br>• any non-empty result is the entry's `displayName` or `label`. |
| `Localization.CategoryOf` | system/api/generate-localization.js:9-50 | A type string names a registry exactly when it is one of the 21 aliases of the `if` chain. |
| `Localization.GenerateLocalizedLabel` | system/api/generate-localization.js:8-53 | Missing arguments count as `''`. A type that is an alias gives `FindLabel` on the registry it names. Any other type gives the localization of `WOD5E.<key>`. |
| `Localization.GroupTypeTable` | system/api/generate-localization.js:37-47 | The group types are exactly `cell`, `coterie` and `pack`. Their display names are the localizations of `WOD5E.HTR.Cell`, `WOD5E.VTM.Coterie` and `WOD5E.WTA.Pack`, with no label. |
| `Localization.LabelOfCategory` | system/api/generate-localization.js:9-49 | A type naming a registry gives that registry's label for the key. |
| `Localization.ActorTypesAliases` | system/api/generate-localization.js:9-11 | `actortypes` and `actortype` read the actor-type registry. |
| `Localization.AttributesAliases` | system/api/generate-localization.js:12-14 | `attributes` and `attribute` read the attribute registry. |
| `Localization.SkillsAliases` | system/api/generate-localization.js:15-17 | `skills` and `skill` read the skill registry. |
| `Localization.FeaturesAliases` | system/api/generate-localization.js:18-20 | `features` and `feature` read the feature registry. |
| `Localization.DisciplinesAliases` | system/api/generate-localization.js:21-23 | `disciplines`, `discipline` and `power` read the discipline registry. |
| `Localization.GiftsAliases` | system/api/generate-localization.js:24-26 | `gifts` and `gift` read the gift registry. |
| `Localization.WereFormsAliases` | system/api/generate-localization.js:27-29 | `wereform` reads the were-form registry. |
| `Localization.RenownAliases` | system/api/generate-localization.js:30-32 | `renown` reads the renown registry. |
| `Localization.EdgesAliases` | system/api/generate-localization.js:33-35 | `edges` and `edge` read the edge registry. |
| `Localization.PerkAliases` | system/api/generate-localization.js:33-35 | `perk` and `edgepool` also read the edge registry. |
| `Localization.GroupTypeAlias` | system/api/generate-localization.js:36-49 | `grouptype` reads the group-type table. |
| `Localization.GroupAlias` | system/api/generate-localization.js:36-49 | `group` reads the group-type table. |
| `Localization.GroupTypesOnly` | system/api/generate-localization.js:36-49 | A key other than `cell`, `coterie` or `pack` has no group-type label (`''`). |
| `Localization.PackLabel` | system/api/generate-localization.js:44-46 | `pack` is labelled with the localization of `WOD5E.WTA.Pack` when that is not empty. |
| `Localization.MissingKeyIsEmpty` | system/api/generate-localization.js:55-63 | A key missing from the registry a known type names gives `''`, not the fallback. |
| `Localization.UnknownTypeFallsBack` | system/api/generate-localization.js:50-52 | A type that is none of the aliases gives the localization of `WOD5E.<key>`. |
| `Localization.DefaultArguments` | system/api/generate-localization.js:8 | With both arguments left out, the label is the localization of `WOD5E.`. |

## Left out

- `TextEditor.enrichHTML` and `game.i18n.localize` are parameters. The model does not state what they return, and does not model the `await` of the asynchronous enrichment.
- `localeCompare` is a comparator parameter assumed to be a total preorder. Locale rules are not modelled.
- `HunterEdges.SortInPlace`, `HunterEdges.SortByName`, `HunterEdges.PreparePowers` and `HunterEdges.EdgeAfterBothPasses` state ordered and a permutation. They do not state that equal names keep their order, as the stability of `Array.prototype.sort` would give.
- Object identity and aliasing are not modelled.
  - Edge records are values. The source's `edgeData` and `edges[id]` are one object, and so are `edge` and `edges[edgeType]`.
  - The in-place `sort` of a list that another record shares is not modelled.
  - `prepareEdges` returning the same map object is the field `ActorEdges.edges` after the method.
- Stored edge records are typed. A stored record whose `value`, `description` or `visible` is missing would carry `undefined` into the record, which the model does not represent.
- A `null` entry in the edge map is not represented. Nor is an actor with no `system.edges`, on which the clean-up loop throws.
- A definition's own `perks`, `pools` or `enrichedDescription` properties are not represented; lines 55-71 overwrite them anyway.
- The definitions' extra attributes are string-valued (`attrs`).
- The `console.warn` for a missing or non-array list is not modelled; apart from it, that branch changes nothing.
- The dialogs, `renderTemplate`, the jQuery form reads and the re-rendering of the skill dialog are not modelled. The form's values are a `BonusForm` record of strings and a flag.
- The game system is passed to the dialogs in two ways. It feeds the CSS classes (lines 96 and 215) and the data of the re-rendered skill-dialog template (lines 82, 125 and 202). Neither the classes nor the template are modelled, so only its choice is modelled, as `GameSystem`.
- The edit dialog's title lookup `data.skill.bonuses[key]` is not modelled.
- What `actor.update` does with its argument is not modelled: the handlers return the single key and value they would pass to it.
- The push, splice and index assignment in the source also change the actor's live array before the update. The model applies them to a copy in a `BonusList`.
- Bonus keys come from `data-bonus` attributes, which are strings, and are modelled as natural numbers.
  - A negative, fractional or non-numeric key is not modelled.
  - For an object, the key becomes the property named by the decimal form of the index.
- Numbers in the actor's data are integers. `NaN` and fractions are not modelled.
- Property reads on strings, arrays and other non-objects inside the lookup give `undefined` in the model.
  - The source would find e.g. `length` or an index there.
  - Inherited properties such as `constructor` are likewise absent from objects and registries.
- A registry entry's `displayName` and `label` are strings. A non-string truthy value would be returned as it is.
- An edit on a primitive at the path is a thrown error: module code runs in strict mode.

## Findings

| source | as written | input that shows it | evidently intended | confidence | as-written member | corrected member |
|---|---|---|---|---|---|---|
| module/actor/scripts/specialty-bonuses.js:69-76 | The add handler reads `.bonuses` off the value found at `bonusPath` and writes that array back to `system.<bonusPath>`. The delete and edit handlers (lines 112-119, 182-195) treat the value at the same path as the list itself. | An actor whose `group.skill.bonuses` holds one bonus `b`. With path `group.skill.bonuses`, delete succeeds and add throws (`undefined.push`). With path `group.skill`, delete throws and add replaces the skill object with the array `[b, b]`. | One path names the list for all three handlers: add appends to the list at the path and writes it back there. | medium, not executed | `SpecialtyBonuses.AddDisagreesWithDelete` (over `SpecialtyBonuses.AddOutcome`) | `SpecialtyBonuses.AddToListOutcome` (proved by `SpecialtyBonuses.AddToListAgreesWithDelete` and `SpecialtyBonuses.AddToListOnStoredBonus`) |

The handler method `OnAddBonus` keeps the behaviour as written. The corrected outcome stands beside it for comparison.
