# FV-Tactical core, modelled in Dafny

FV-Tactical is a browser tool for designing spaceship classes for a tactical
game. Widgets on a canvas (ships, outfits, systems, loadouts, …) carry
connection nodes. Links between the nodes form a design graph. A preflight
check walks that graph and reports what is missing or inconsistent. Empires
research technologies from a tech tree, and a data manager saves and restores
the whole workspace in browser storage. A separate Python script turns a
tab-separated weapons table into the JSON weapon catalogue.

This project models the core of that system and proves properties of the
model:

| file | module | models |
|---|---|---|
| `text.dfy` | `Text`, `Numbers`, `Wrappers` | the string built-ins the code relies on: Python `strip`/`split`/`lower`, JavaScript `trim`/`split`/`join`, decimal rendering, `localeCompare` ordering and sorting |
| `weapon_parser.dfy` | `WeaponParser` | `split_line`, `parse_numeric`, `parse_notes` and `slugify` of `tmp_weapon_parser.py` |
| `weapon_importer.dfy` | `WeaponImporter` | the script's row loop and `ensure_category`, over the globals it mutates |
| `ship.dfy` | `Ship` | `ShipWidget`'s ship data: hull counts, hardpoint distribution, cargo/remass allocation, roles, loading saved data |
| `ship_summary.dfy` | `ShipSummary` | the summary formatters of `ShipWidgetPrototype` |
| `modules.dfy` | `SystemModules` | the module catalogue and the install/remove rules shared by the outfit and systems widgets |
| `outfit.dfy` | `Outfit` | `OutfitWidget`: installed modules, space and heat budgets, heat types |
| `systems.dfy` | `Systems` | `SystemsWidget`: its catalogue, space and heat budgets |
| `widget_tree.dfy` | `WidgetTree` | the parent/child widget hierarchy of `Widget` |
| `widget_nodes.dfy` | `WidgetNodes` | a widget's nodes, expandable node groups and layout anchors |
| `node_system.dfy` | `NodeGraph` | `NodeSystem`: node lookup, connections, cycle-free linking |
| `empire.dfy` | `Empires` | `Empire`: tech points and research, the available techs, the design lists and their ids, the JSON form |
| `tech_tree.dfy` | `TechTree` | `TechTree`: prerequisites, research permission, chain validation, research paths |
| `preflight.dfy` | `Preflight` | `PreflightCheck`: the per-widget checks and the issue list they fill |
| `data_manager.dfy` | `DataManagement` | `DataManager`: workspace snapshots, backups and their pruning |

Code that computes a value is modelled by functions. Code that updates an
object in place is modelled by a class whose methods update its fields.
Each such method is proved against a specification function of the old
state, and the lemmas are proved about those functions. Loops in the
source are `for`/`while` loops with invariants in the model.

Where the specification of the system and its code disagree, the model
follows the code:

- The importer's weapon ids are unique per base slug only, not across the
  catalogue (`WeaponImporter.IdsNotGloballyUnique`).

Where the code is evidently wrong, the model keeps the code as written in a
member of its own and uses the corrected behaviour elsewhere (see Findings):

- `validateTechChain` reports a Tier3 special requirement as a missing tech;
  `TechTree.ChainErrorsAsWritten` keeps that, while `TechTree.ValidateTechChain`
  never reports Tier3: the empire level is left to `canResearch`, and
  `getEffectivePrerequisites` also excludes Tier3.
- `addChild` checks the wrong direction for cycles; the hierarchy class and
  the connection graph's `assignHierarchy` use the corrected check.
- The trimming loop of `updateExpandableGroup` also stops once no free node
  is left.

## Model

| member | source | states |
|---|---|---|
| WeaponParser.FirstRun | tmp_weapon_parser.py:11 | the index found is the first place where two whitespace characters stand side by side, or the end of the text |
| WeaponParser.SplitLine | tmp_weapon_parser.py:6-12 | a row always yields at least one cell, and every cell comes back stripped |
| WeaponParser.SplitLineTabCount | tmp_weapon_parser.py:8-9 | a row holding a tab yields one cell more than it has tabs, so empty cells are kept |
| WeaponParser.TrimNewlinesKeepsTabs | tmp_weapon_parser.py:9 | dropping trailing newlines keeps every tab of the row |
| WeaponParser.SplitLineSingleSpace | tmp_weapon_parser.py:10-12 | a row without tabs and without two adjacent whitespace characters is a single cell: one space never separates |
| WeaponParser.SplitOnRunsNoDoubleSpace | tmp_weapon_parser.py:11 | no piece of the regular-expression split holds two adjacent whitespace characters |
| WeaponParser.SplitOnRunsMaximal | tmp_weapon_parser.py:11 | each separator the split cuts at is a maximal whitespace run: no piece ends or starts with whitespace next to it |
| WeaponParser.SplitOnRunsRebuilds | tmp_weapon_parser.py:11 | putting the separator runs back between the pieces gives the text back, and every separator is two or more whitespace characters |
| WeaponParser.ParseNumeric | tmp_weapon_parser.py:15-34 | text kept as text is the stripped, non-blank input; a float result comes from stripped text holding a '.' |
| WeaponParser.ParseNumericAbsent | tmp_weapon_parser.py:16-20 | a value parses to None exactly when there is no value or it is blank |
| WeaponParser.ParseNumericNotApplicable | tmp_weapon_parser.py:21-22 | 'N/A' is recognised in any letter case and with any surrounding whitespace, and only then |
| WeaponParser.ParseNumericIntRoundTrip | tmp_weapon_parser.py:15-34 | an integer rendered in decimal, with any whitespace around it, parses back to the same integer |
| WeaponParser.IntLiteralShape | tmp_weapon_parser.py:18-26 | an integer literal is non-empty stripped text with no '.' and is not 'N/A', so it reaches the `int(value)` branch |
| WeaponParser.ParseNumericIntLiteral | tmp_weapon_parser.py:15-34 | any integer literal (optional sign, then ASCII digits), with any whitespace around it, is read as the integer it denotes |
| WeaponParser.ParseNumericSignedLiteral | tmp_weapon_parser.py:15-34 | "+" or "-" or no sign, any number of leading zeros and a decimal number are read as that number, negated after "-" |
| WeaponParser.ParseNumericLiteralExamples | tmp_weapon_parser.py:26 | "+1", "-2" and "007" are read as 1, -2 and 7 |
| WeaponParser.ParseNumericKeepsText | tmp_weapon_parser.py:23-34 | text that is not blank, not 'N/A' and not a number literal comes back as its stripped self |
| WeaponParser.IntToStringShape | tmp_weapon_parser.py:23-26 | a rendered integer is stripped, has no '.', parenthesis or comma, is not 'N/A', and is an integer literal of the same value |
| WeaponParser.MatchTagIff | tmp_weapon_parser.py:43 | the `head(payload)` pattern matches exactly when the part is a non-empty parenthesis-free head, '(', a non-empty parenthesis-free payload and ')' |
| WeaponParser.NotePartsClean | tmp_weapon_parser.py:40 | every note part kept is non-empty and already stripped |
| WeaponParser.ParseNotesNames | tmp_weapon_parser.py:37-51 | every parsed note has a non-empty, stripped name |
| WeaponParser.ParseRenderedTag | tmp_weapon_parser.py:42-50 | a tag written as `name` or `name(amount)` parses back to that name and integer amount |
| WeaponParser.NotesRoundTrip | tmp_weapon_parser.py:37-51 | notes written as "name, name(amount), …" parse back to the same names and amounts, in order |
| WeaponParser.ReplaceRuns | tmp_weapon_parser.py:55 | replacing runs of characters outside `[a-z0-9]` by '-' yields only slug characters and never two hyphens in a row |
| WeaponParser.TrimHyphensClean | tmp_weapon_parser.py:55 | stripping hyphens leaves no hyphen at either end and none doubled |
| WeaponParser.SlugifyIsSlug | tmp_weapon_parser.py:54-57 | whatever the name, the slug is non-empty, uses only `[a-z0-9-]`, and has no leading, trailing or doubled hyphen |
| WeaponParser.SlugifyOfSlug | tmp_weapon_parser.py:54-57 | a slug is its own slug |
| WeaponParser.SlugifyIdempotent | tmp_weapon_parser.py:54-57 | slugifying twice is slugifying once |
| WeaponImporter.FitColumns | tmp_weapon_parser.py:310-315 | the data cells are padded with '' or cut so that exactly 13 remain, each kept cell unchanged |
| WeaponImporter.NonEmptyCount | tmp_weapon_parser.py:336 | the count of non-blank cells is at most the number of cells |
| WeaponImporter.RowCells | tmp_weapon_parser.py:301-317 | the name is stripped and there are exactly 13 stripped data cells |
| WeaponImporter.Classify | tmp_weapon_parser.py:298-346 | a header or data row has a stripped name that is not empty, not 'weapon' and holds no 'generator'; a data row has 13 stripped cells and fails the header test |
| WeaponImporter.Cost | tmp_weapon_parser.py:355-357 | the cost is never 'N/A', and it is absent exactly when the cell is blank or 'N/A' |
| WeaponImporter.EnsureCat | tmp_weapon_parser.py:288-295 | the category named `name` is returned with its position; an existing one changes nothing, a new one is appended empty; the name index stays consistent with the list |
| WeaponImporter.Step | tmp_weapon_parser.py:298-374 | one pass of the loop body keeps the category list and the name index consistent |
| WeaponImporter.Run | tmp_weapon_parser.py:298-374 | after the loop the list and the index are consistent |
| WeaponImporter.Importer.constructor | tmp_weapon_parser.py:282-285 | the globals start empty, with no current category |
| WeaponImporter.Importer.EnsureCategory | tmp_weapon_parser.py:288-295 | the globals and the returned position are those of `EnsureCat` on the old globals |
| WeaponImporter.Importer.ProcessLine | tmp_weapon_parser.py:298-374 | the globals after one line are `Step` of the old globals, and stay consistent |
| WeaponImporter.Importer.DataRow | tmp_weapon_parser.py:343-374 | a data row updates the globals as `DataStep` says |
| WeaponImporter.Importer.NextSlugCount | tmp_weapon_parser.py:360-361 | the count read is the old counter for the slug, or 0, and the counter goes up by one |
| WeaponImporter.Importer.AddWeaponRow | tmp_weapon_parser.py:359-374 | the row's weapon, with the id from the slug counter, is appended to the current category |
| WeaponImporter.ReadWeapon | tmp_weapon_parser.py:347-372 | the weapon record holds the id, the name, the five bands, the notes, the hardpoint and the cost as `BuildWeapon` defines them |
| WeaponImporter.ReadRanges | tmp_weapon_parser.py:347-352 | the loop reads the five bands pairwise from the first ten data cells |
| WeaponImporter.Import | tmp_weapon_parser.py:280-374 | the categories written are those of the loop run over every line of the table |
| WeaponImporter.ReplaceCategoryCounts | tmp_weapon_parser.py:374 | replacing one category changes the weapon and slug tallies by that category's difference |
| WeaponImporter.EnsureCatCounts | tmp_weapon_parser.py:288-295 | ensure_category adds no weapon and changes no slug tally |
| WeaponImporter.AppendWeaponExtends | tmp_weapon_parser.py:373-374 | appending a weapon keeps every category's earlier weapons and adds one to the totals |
| WeaponImporter.HeaderStepFacts | tmp_weapon_parser.py:339-342 | a header row becomes current, its category exists afterwards, is added only when new, and no weapon is added |
| WeaponImporter.PlaceShape | tmp_weapon_parser.py:343-374 | a weapon goes last into the target category (created when new), its slug is counted, and every other category is unchanged |
| WeaponImporter.StepFacts | tmp_weapon_parser.py:298-374 | one row keeps every earlier category and weapon and adds exactly one weapon, with its slug counted, when it is a data row |
| WeaponImporter.RunWeaponTotal | tmp_weapon_parser.py:298-374 | the catalogue holds exactly one weapon per data row |
| WeaponImporter.RunSlugsCounted | tmp_weapon_parser.py:359-361 | each slug counter equals the number of weapons with that slug in the catalogue |
| WeaponImporter.DataStepId | tmp_weapon_parser.py:359-374 | a data row's weapon goes last into the target category, with the plain slug as id when no earlier weapon has that slug and the slug suffixed with one more than their number otherwise |
| WeaponImporter.DataRowId | tmp_weapon_parser.py:298-374 | the same for a whole line classified as a data row |
| WeaponImporter.RunExtends | tmp_weapon_parser.py:298-374 | later rows never remove, rename or reorder a category, nor drop a weapon from one |
| WeaponImporter.StepHeader | tmp_weapon_parser.py:339-342 | a header line makes its name current, adds no weapon, and adds a category only for a new name |
| WeaponImporter.CategoryNamesUnique | tmp_weapon_parser.py:288-295 | no two categories share a name |
| WeaponImporter.MakeIdIsSlug | tmp_weapon_parser.py:362 | a suffixed id is still a slug |
| WeaponImporter.MakeIdInjective | tmp_weapon_parser.py:362 | two occurrences of the same slug never get the same id |
| WeaponImporter.IdsNotGloballyUnique | tmp_weapon_parser.py:359-362 | ids are unique per slug only: the second weapon named `b` and the first named `b-2` both get the id `b-2` |
| WeaponImporter.RangesUpToAt | tmp_weapon_parser.py:347-352 | band k is read from data cells 2k and 2k+1 |
| WeaponImporter.RangeKeepsNotApplicable | tmp_weapon_parser.py:349-357 | range cells keep 'N/A' while the cost drops it: a band value is 'N/A' exactly when its cell is |
| WeaponImporter.RowWeaponOk | tmp_weapon_parser.py:359-372 | a data row's weapon has a slug id, its stripped name, five bands and a cost that is never 'N/A' |
| WeaponImporter.RunWeaponsOk | tmp_weapon_parser.py:298-374 | every weapon the import produces is well formed in that sense |
| Text.TrimStartSpec | tmp_weapon_parser.py:18 | trimming the start keeps a suffix, drops only characters of the given class, and stops at one outside it |
| Text.TrimEndSpec | tmp_weapon_parser.py:9 | trimming the end keeps a prefix, drops only characters of the given class, and stops at one outside it |
| Text.StripSpec | tmp_weapon_parser.py:18 | `strip()` returns a stripped slice of the text with only whitespace cut at either end |
| Text.StripIdempotent | tmp_weapon_parser.py:12 | stripping twice is stripping once |
| Text.StripEmptyIff | tmp_weapon_parser.py:19 | a text strips to nothing exactly when it is all whitespace |
| Text.LowerIdempotent | tmp_weapon_parser.py:55 | lower-casing twice is lower-casing once |
| Text.IndexOf | tmp_weapon_parser.py:40 | the index returned is the first occurrence of the character, or the length when there is none |
| Text.Split | tmp_weapon_parser.py:40 | a split yields at least one piece and no piece holds the separator |
| Text.JoinSplit | tmp_weapon_parser.py:280 | joining the pieces of a split with the same separator gives the text back |
| Text.SplitJoin | tmp_weapon_parser.py:280 | splitting a join of separator-free pieces gives the pieces back |
| Text.SplitCount | tmp_weapon_parser.py:9 | a split yields one piece more than the text has separators |
| Text.NatToString | tmp_weapon_parser.py:362 | the decimal rendering is non-empty, all digits, and starts with '0' only for zero |
| Text.NatToStringRoundTrip | tmp_weapon_parser.py:362 | reading the digits back gives the number |
| Text.LeadingZerosValue | tmp_weapon_parser.py:26 | leading zeros do not change the value of a digit string, as `int()` reads it |
| Text.NatToStringInjective | tmp_weapon_parser.py:362 | different numbers render differently |
| Text.LexTotal | js/widgets/ShipWidget.js:171 | the `localeCompare` order (modelled as code-point order) relates any two strings |
| Text.LexAntisymmetric | js/widgets/ShipWidget.js:171 | two strings ordered both ways are equal |
| Text.LexTransitive | js/widgets/ShipWidget.js:171 | the order is transitive |
| Text.InsertBySorted | js/widgets/ShipWidget.js:171 | inserting into a sorted list keeps it sorted |
| Text.SortBy | js/widgets/ShipWidget.js:171 | `Array.prototype.sort` returns a permutation of its input |
| Text.SortBySorted | js/widgets/ShipWidget.js:171 | and the result is sorted by the comparison key |
| Ship.TotalHullsSet | js/widgets/ShipWidget.js:284-287 | changing one hull count changes the total by exactly the difference |
| Ship.TotalHullsBounds | js/widgets/ShipWidget.js:284-287 | with no negative count, every count lies between 0 and the total |
| Ship.CascadeConserves | js/widgets/ShipWidget.js:664-685 | nothing is lost in the cascade: the mounts bought, weighted by their costs, plus the leftover equal the buckets plus the carry |
| Ship.CascadeLeftover | js/widgets/ShipWidget.js:664-685 | the leftover is never negative and is below the cheapest cost |
| Ship.CascadeNonNegative | js/widgets/ShipWidget.js:664-685 | with no negative bucket and carry, no count is negative |
| Ship.SplitSpec | js/widgets/ShipWidget.js:664-685 | 8·MHP + 4·PHP + 2·SHP plus the leftover is the value, the leftover is the value's parity, and no count is negative for a non-negative value |
| Ship.CalculateHardpointDistribution | js/widgets/ShipWidget.js:664-685 | the loop over the mount order computes exactly the cascade's counts and leftover |
| Ship.HardpointStatsSpec | js/widgets/ShipWidget.js:687-725 | utility hardpoints count the magazine, hangar, system and powerplant hulls; the emplacement value is emplacements times the non-negative ratio and is spent on MHP/PHP/SHP except its parity; the named and abbreviated fields agree; none is negative for non-negative hulls |
| Ship.AllocateSpec | js/widgets/ShipWidget.js:758-787 | with no civil slots both resources are zero and the hulls are kept; otherwise cargo is the request clamped into the capacity, cargo and remass fill the capacity, the containment hulls are the full 50-unit loads of cargo, the civil slots and the total are kept, and other hulls are unchanged |
| Ship.AllocateIdempotent | js/widgets/ShipWidget.js:765-787 | allocating the same cargo twice is allocating it once |
| Ship.AllocateNonNegative | js/widgets/ShipWidget.js:765-787 | allocation never makes a hull count negative |
| Ship.SyncResourcesSpec | js/widgets/ShipWidget.js:790-814 | after the sync both resources are non-negative, cargo is within the capacity, together they fill it, a cargo already in range is kept, and with no capacity both are zero |
| Ship.SyncResourcesStable | js/widgets/ShipWidget.js:790-814 | the sync is idempotent and keeps what an allocation produced |
| Ship.WithRoleSpec | js/widgets/ShipWidget.js:165-174 | an empty or blank role changes nothing; otherwise the trimmed role is listed afterwards, the list stays free of duplicates, and a new role is added exactly once with the list re-sorted |
| Ship.FillHulls | js/widgets/ShipWidget.js:990-1000 | every hull type missing from the saved data counts 0, every saved one keeps its value |
| Ship.ShipWidget.constructor | js/widgets/ShipWidget.js:3-77 | the ship starts as a corvette with no hulls, the default hardpoints, no resources, and the stored roles with "corvette" offered |
| Ship.ShipWidget.EnsureRoleAvailable | js/widgets/ShipWidget.js:165-174 | the role list becomes `WithRole` of the old list and nothing else changes |
| Ship.ShipWidget.UpdateHardpointStats | js/widgets/ShipWidget.js:687-725 | the hardpoints become `HardpointStats` of the old hardpoints and the hulls; nothing else changes |
| Ship.ShipWidget.UpdateCargoRemassAllocation | js/widgets/ShipWidget.js:765-787 | hulls and resources become the allocation of the requested cargo; nothing else changes |
| Ship.ShipWidget.UpdateCargoRemassUI | js/widgets/ShipWidget.js:790-814 | the resources are re-synchronised with the capacity; nothing else changes |
| Ship.ShipWidget.UpdateStats | js/widgets/ShipWidget.js:832-837 | hardpoints are recomputed, then the resources synchronised |
| Ship.ShipWidget.SetHull | js/widgets/ShipWidget.js:617-634 | the hull count is clamped to zero, a civil hull re-allocates the current cargo, and the stats are refreshed |
| Ship.ShipWidget.LoadSerializedData | js/widgets/ShipWidget.js:986-1032 | without saved ship data nothing changes; otherwise missing hull, hardpoint and resource fields are filled with defaults, missing resources are derived from the hulls, the role is offered, and the stats are refreshed |
| Ship.SetHullKeepsNonNegative | js/widgets/ShipWidget.js:617-634 | the hull handler keeps every count non-negative, before and after the re-allocation, and the re-allocation keeps the civil slots the new count gives |
| Ship.LoadDerivesResources | js/widgets/ShipWidget.js:1019-1024 | resources derived on load (50 units of cargo per containment hull, 50 of remass per remass hull) already fill the capacity, so the sync that follows keeps them |
| SystemModules.CatalogHullsPositive | js/widgets/SystemsWidget.js:17-117 | every module of the catalogue takes at least one system hull |
| SystemModules.HasModule | js/widgets/SystemsWidget.js:349-351 | a module id is installed exactly when some installed instance carries it |
| SystemModules.FindInstance | js/widgets/SystemsWidget.js:388 | findIndex: -1 exactly when no instance has the id, otherwise the first index whose instance has it |
| SystemModules.RemoveAt | js/widgets/SystemsWidget.js:394 | splice(idx, 1): one element shorter, the elements before the index kept and the ones after it shifted down by one |
| SystemModules.SumHullsRemoveAt | js/widgets/SystemsWidget.js:387-396 | removing one instance lowers the hull total of the list by exactly that instance's hulls |
| SystemModules.CanInstallSpec | js/widgets/SystemsWidget.js:345-355 | a module can be installed exactly when it is in the catalogue and is not a single-instance module already installed; installing it then keeps single-instance modules unique |
| SystemModules.RemoveKeepsUnique | js/widgets/SystemsWidget.js:387-396 | removing an instance keeps single-instance modules unique |
| SystemModules.InstallSpec | js/widgets/SystemsWidget.js:363-385 | install keeps the data consistent; it changes nothing exactly when the module cannot be installed or would exceed the available hulls, and otherwise appends one instance of that module with its catalogue hulls and raises the used hulls by them, leaving the rest alone |
| Outfit.EmptyConsistent | js/widgets/OutfitWidget.js:3-75 | the outfit's initial systems data is consistent |
| Outfit.UninstallSpec | js/widgets/OutfitWidget.js:732-739 | uninstall keeps the data consistent; an unknown instance id changes nothing, and a known one removes the first instance with that id and lowers the used hulls by its hulls |
| Outfit.AddHeatSpec | js/widgets/OutfitWidget.js:741-750 | adding a heat system fails without change when no hull is free; otherwise it takes one hull and raises the magnetic count (dissipation +5, capacity +2) or the demon count (dissipation +8, capacity +6) |
| Outfit.AddHeatOtherType | js/widgets/OutfitWidget.js:741-750 | a type other than magnetic or demon still takes a hull without counting a system, which breaks the hull accounting |
| Outfit.RemoveHeatSpec | js/widgets/OutfitWidget.js:752-765 | removing a heat system of a type whose count is positive lowers that count and the used hulls by one; otherwise nothing changes; consistency is kept |
| Outfit.InstallUninstall | js/widgets/OutfitWidget.js:715-739 | uninstalling the instance just installed restores the systems data exactly |
| Outfit.ClampInput | js/widgets/OutfitWidget.js:466-482 | the merge/split input is never negative, keeps a non-negative number and reads an unreadable or non-positive one as 0 |
| Outfit.HardpointValueSpec | js/widgets/OutfitWidget.js:486-495 | the displayed hardpoint count is max(0, base − merged + split): never negative, one more split adds one, one more merge removes at most one |
| Outfit.CatalogCostsNonNegative | js/widgets/OutfitWidget.js:1020 | every catalogue lookup, including the fallback for an unknown weapon, has a non-negative cost and a non-empty hardpoint |
| Outfit.LowerOfUpper | js/widgets/OutfitWidget.js:1017 | lower-casing an upper-cased text equals lower-casing the text |
| Outfit.MountMultiplierSpec | js/widgets/OutfitWidget.js:1032-1039 | the mount multiplier lies in 1..4, ignores letter case and exceeds 1 exactly for dual, triple and quad |
| Outfit.TotalCost | js/widgets/OutfitWidget.js:1023 | a row's total cost is never negative when its factors are not |
| Outfit.EditRowSpec | js/widgets/OutfitWidget.js:998-1030 | new rows are costed; an edit changes only the edited input (arcs upper-cased, copies at least 1) and recomputes hardpoint and cost from the catalogue; an unknown weapon costs 0 on hardpoint "-", and defensive rows are never multiplied |
| Outfit.ComputeRow | js/widgets/OutfitWidget.js:1008-1023 | the in-place edit of one row yields exactly the row the edit function describes |
| Outfit.OutfitWidget.constructor | js/widgets/OutfitWidget.js:3-75 | a new outfit has empty systems data, no weapon rows, zero hardpoints and Artillery as its role, added to the stored roles |
| Outfit.OutfitWidget.EnsureRoleAvailable | js/widgets/OutfitWidget.js:103-112 | the trimmed role is added to the sorted role list when missing; nothing else changes |
| Outfit.OutfitWidget.InstallModule | js/widgets/OutfitWidget.js:715-730 | the systems data becomes its install image; everything else is unchanged |
| Outfit.OutfitWidget.UninstallModule | js/widgets/OutfitWidget.js:732-739 | the systems data becomes its uninstall image; everything else is unchanged |
| Outfit.OutfitWidget.AddHeatManagement | js/widgets/OutfitWidget.js:741-750 | the systems data becomes its add-heat image; everything else is unchanged |
| Outfit.OutfitWidget.RemoveHeatManagement | js/widgets/OutfitWidget.js:752-765 | the systems data becomes its remove-heat image; everything else is unchanged |
| Outfit.OutfitWidget.SetHardpointAdjustment | js/widgets/OutfitWidget.js:461-484 | a merge or split input stores its clamped value under its hardpoint key in that map only |
| Outfit.OutfitWidget.AddWeaponRow | js/widgets/OutfitWidget.js:900-914 | the add buttons append a fresh row to their table only, and every row stays costed |
| Outfit.OutfitWidget.RemoveWeaponRow | js/widgets/OutfitWidget.js:951-956 | the remove button deletes the row at its index from its table only, and every row stays costed |
| Outfit.OutfitWidget.HandleWeaponFieldChange | js/widgets/OutfitWidget.js:998-1030 | an edit replaces the row at its index by its edited image, a missing row changes nothing, the other table is untouched, and every row stays costed |
| Outfit.OperationsKeepConsistent | js/widgets/OutfitWidget.js:715-765 | install, uninstall and adding or removing either heat type all keep the hull accounting consistent |
| Systems.HasTech | js/widgets/SystemsWidget.js:357-361 | the tech check always answers yes, whatever the empire answers, because of the trailing `\|\| true` |
| Systems.UninstallSpec | js/widgets/SystemsWidget.js:387-396 | uninstall keeps the hull accounting; an unknown id changes nothing, a known one removes the first instance with that id and lowers the used hulls by its hulls |
| Systems.AddHeatSpec | js/widgets/SystemsWidget.js:398-416 | adding a heat system changes nothing exactly when no hull is free, and otherwise raises that type's count and the used hulls by one |
| Systems.RemoveHeatSpec | js/widgets/SystemsWidget.js:418-426 | removing a heat system lowers a positive count and the used hulls by one and otherwise changes nothing; the accounting is kept |
| Systems.HeatRates | js/widgets/SystemsWidget.js:428-440 | each magnetic system dissipates 2 and adds 5 capacity, each demon system 3 and 8, both when added and when removed |
| Systems.SetAvailableSpec | js/widgets/SystemsWidget.js:500-504 | setting the available hulls keeps the accounting; it keeps consistency when the count covers the used hulls, and below them it breaks consistency and blocks every install and heat addition |
| Systems.InstallUninstall | js/widgets/SystemsWidget.js:363-396 | uninstalling the instance just installed restores the systems data exactly |
| Systems.SystemsWidget.constructor | js/widgets/SystemsWidget.js:3-20 | a new widget starts with empty systems data |
| Systems.SystemsWidget.InstallModule | js/widgets/SystemsWidget.js:363-385 | the systems data becomes its install image |
| Systems.SystemsWidget.UninstallModule | js/widgets/SystemsWidget.js:387-396 | the systems data becomes its uninstall image |
| Systems.SystemsWidget.AddHeatManagement | js/widgets/SystemsWidget.js:398-416 | the systems data becomes its add-heat image |
| Systems.SystemsWidget.RemoveHeatManagement | js/widgets/SystemsWidget.js:418-426 | the systems data becomes its remove-heat image |
| Systems.SystemsWidget.SetAvailableSystemHulls | js/widgets/SystemsWidget.js:500-504 | the systems data becomes its set-available image |
| WidgetTree.LinkSpec | js/core/Widget.js:1599-1604 | linking keeps children and parents mirrored, adds the link in both directions and leaves every other widget's sets alone |
| WidgetTree.UnlinkSpec | js/core/Widget.js:1619-1622 | unlinking keeps children and parents mirrored, removes the link in both directions and leaves every other widget's sets alone |
| WidgetTree.LinkUnlink | js/core/Widget.js:1599-1622 | removing a child that was just added restores every widget's children and parents |
| WidgetTree.LinkPaths | js/core/Widget.js:1602-1603 | after a link, every path either existed before or runs through the new parent-to-child step |
| WidgetTree.LinkKeepsAcyclic | js/core/Widget.js:1601 | linking a parent to a child that does not reach the parent keeps the hierarchy acyclic |
| WidgetTree.AddChildAsWrittenCycle | js/core/Widget.js:1599-1604 | from the acyclic hierarchy a→b, the check as written lets b adopt a and the result has a cycle (see Findings) |
| WidgetTree.AddChildSpec | js/core/Widget.js:1599-1617 | addChild with the cycle check on the child's side keeps the hierarchy acyclic and mirrored; it adds exactly when there is a child, it differs from the parent and it does not reach the parent; a refusal changes nothing |
| WidgetTree.UnlinkPaths | js/core/Widget.js:1619-1622 | unlinking creates no new path |
| WidgetTree.RemoveChildSpec | js/core/Widget.js:1619-1635 | removeChild keeps the hierarchy acyclic and mirrored; without a widget it changes nothing, otherwise the link is gone in both directions |
| WidgetTree.Hierarchy.constructor | js/core/Widget.js:26-27 | an empty hierarchy |
| WidgetTree.Hierarchy.Register | js/core/Widget.js:26-27 | a new widget joins with empty children and parents sets |
| WidgetTree.Hierarchy.AddChild | js/core/Widget.js:1599-1617 | the state and the answer are those of addChild with the corrected cycle check |
| WidgetTree.Hierarchy.RemoveChild | js/core/Widget.js:1619-1635 | the state becomes the removeChild image |
| WidgetTree.Hierarchy.IsAncestorOf | js/core/Widget.js:1637-1651 | the depth-first walk answers true exactly when the second widget is reachable from the first through children the widget manager knows |
| WidgetTree.Hierarchy.GetDescendants | js/core/Widget.js:1653-1668 | the walk returns exactly the child ids of the widgets reached from the widget, without the widget itself, all of them child ids in the hierarchy |
| WidgetTree.DescendantsClosed | js/core/Widget.js:1653-1668 | a finished descendant walk has collected exactly the descendants |
| WidgetTree.AncestorWalkEnd | js/core/Widget.js:1637-1651 | an ancestor walk whose stack ran empty without meeting the target proves the target unreachable |
| WidgetNodes.Present | js/core/Widget.js:773-778 | `value \|\| null` on a text option: present exactly when given and not empty |
| WidgetNodes.NodeAddedSpec | js/core/Widget.js:386-416 | addNode bumps only its direction:type counter, takes the given node id when there is a non-empty one and otherwise `<widget>-<direction>:<type>-<counter>` with the direction written `input` or `output`, and stores a fresh unconnected node under that id, leaving every other node, group and membership alone |
| WidgetNodes.GeneratedIdInjective | js/core/Widget.js:389-392 | generated ids for one widget and counter key differ for different counter values |
| WidgetNodes.GeneratedIdExample | js/core/Widget.js:387-392 | the first generated Weapon input id of widget `widget-xxx` is `widget-xxx-input:Weapon-1`, the form the source documents |
| WidgetNodes.Without | js/core/Widget.js:584 | the filter keeps exactly the other ids, in order |
| WidgetNodes.NodeRemovedSpec | js/core/Widget.js:568-591 | removeNode ignores an unknown id; otherwise it deletes the node, drops it from its group's list and its membership, and leaves the counters and every other group alone |
| WidgetNodes.GroupNodeAddedSpec | js/core/Widget.js:626-650 | adding a group node to an unknown group does nothing; otherwise one node labelled with the next index is added, appended to the group and recorded as a member under the generated `<widget>-<direction>:<type>-<counter>` id, and other groups are untouched |
| WidgetNodes.Existing | js/core/Widget.js:656 | the filter keeps exactly the group's ids that still name nodes |
| WidgetNodes.Free | js/core/Widget.js:657-660 | the filter keeps exactly the ids of nodes without connections |
| WidgetNodes.TrimmedRemovesFree | js/core/Widget.js:667-675 | trimming only deletes nodes, only ones on the free list that have no connections, and changes no counter |
| WidgetNodes.GroupUpdatedSpec | js/core/Widget.js:652-676 | updateExpandableGroup on an unknown group does nothing; with too few free nodes it adds exactly one node to the group; otherwise it only deletes free nodes of the group |
| WidgetNodes.TrimSpinsAsWritten | js/core/Widget.js:667-675 | with maxFree below zero and more nodes than minAvailable, the loop as written continues once the free list is empty and each turn changes nothing, so it never ends (see Findings) |
| WidgetNodes.TrimmedStops | js/core/Widget.js:667-675 | the corrected trim ends with at most maxFree free nodes, or at most minAvailable nodes, or no free node left |
| WidgetNodes.GroupUpdatedStops | js/core/Widget.js:652-676 | in a tidy widget, a group update that does not add a node leaves the group within its bounds in the same sense |
| WidgetNodes.InitialNodes | js/core/Widget.js:619 | a new group always starts with at least one node |
| WidgetNodes.GroupNodesAddedSpec | js/core/Widget.js:619-622 | adding k group nodes appends k generated ids in counter order and raises the counter by k |
| WidgetNodes.GeneratedIdsDistinct | js/core/Widget.js:389-392 | successive generated ids are pairwise distinct |
| WidgetNodes.GroupCreatedAddsNodes | js/core/Widget.js:599-622 | creating a group stores its configuration and the initial number of distinct nodes |
| WidgetNodes.GroupUpdatedKeepsNode | js/core/Widget.js:652-676 | an update never leaves a group with fewer than min(1, minAvailable) nodes |
| WidgetNodes.GroupCreatedKeepsNode | js/core/Widget.js:599-624 | a group whose minAvailable is at least 1 has a node after its creation |
| WidgetNodes.TrimmedKeepsMin | js/core/Widget.js:667 | trimming never takes a group below minAvailable nodes |
| WidgetNodes.WithoutAnchor | js/core/Widget.js:780 | the filter keeps exactly the anchors with another id |
| WidgetNodes.AnchorAddedSpec | js/core/Widget.js:770-781 | an empty anchor id changes nothing; otherwise the new anchor goes last, replaces every anchor with its id, keeps all the others, and anchor ids stay unique |
| WidgetNodes.WidgetNodeSet.constructor | js/core/Widget.js:20-24 | a widget starts with no nodes, counters, groups, memberships or anchors |
| WidgetNodes.WidgetNodeSet.AddNode | js/core/Widget.js:386-416 | the state and returned id are those addNode describes, a generated id reading `<widget>-input:<type>-<n>` or `<widget>-output:<type>-<n>` |
| WidgetNodes.WidgetNodeSet.RemoveNode | js/core/Widget.js:568-591 | the state becomes the removeNode image |
| WidgetNodes.WidgetNodeSet.HandleNodeConnectionChange | js/core/Widget.js:593-597 | a node outside every group changes nothing; otherwise its group is updated |
| WidgetNodes.WidgetNodeSet.AddExpandableGroupNode | js/core/Widget.js:626-650 | the state and returned id are those of adding one group node |
| WidgetNodes.WidgetNodeSet.UpdateExpandableGroup | js/core/Widget.js:652-676 | the state becomes the (terminating) group update image |
| WidgetNodes.WidgetNodeSet.SetNodeConnections | js/core/NodeSystem.js:167-171 | the node system's write into the connection set it shares with the widget: that node's set is replaced and nothing else changes |
| WidgetNodes.ConnectionsSetFree | js/core/Widget.js:657-660 | after the write a stored node counts as free exactly when it is listed and given no connection |
| WidgetNodes.FreeNone | js/core/Widget.js:657-660 | when every listed node has a connection the free list is empty |
| WidgetNodes.ConnectingLastFreeGrows | js/core/Widget.js:662-665 | connecting the last free node of a group with a positive minAvailable makes the next group update add a node to the group |
| WidgetNodes.DisconnectedIsFree | js/core/Widget.js:657-675 | a disconnected group member is free again, and unless the group is short of free nodes the update adds no node |
| WidgetNodes.WidgetNodeSet.CreateExpandableNodeGroup | js/core/Widget.js:599-624 | the state becomes the group creation image |
| WidgetNodes.WidgetNodeSet.ClearNodes | js/core/Widget.js:377-384 | every node, group, membership and counter is gone |
| WidgetNodes.WidgetNodeSet.AddLayoutAnchor | js/core/Widget.js:770-781 | the anchors become the add-anchor image; the node state is unchanged |
| NodeGraph.ConnectionIdSymmetric | js/core/NodeSystem.js:521-525 | the connection id does not depend on which end is the source |
| NodeGraph.ConnectionIdCollision | js/core/NodeSystem.js:521-525 | the id is not injective: node ids containing `-` give two different pairs one id |
| NodeGraph.TypesCompatibleSpec | js/core/NodeSystem.js:135-152 | type compatibility is symmetric and holds exactly for two equal self-compatible types or for magazine with weapon |
| NodeGraph.CanConnectSpec | js/core/NodeSystem.js:113-133 | canConnect holds exactly when the pair passes every rule and its id is not taken: it refuses one node twice, a missing node, two nodes of one widget, two of one direction and an existing id, and does not depend on the order of the ends |
| NodeGraph.AddConnectionSpec | js/core/NodeSystem.js:154-171 | creating an allowed connection keeps table and node sets consistent, stores the unselected record under its fresh id, puts the id in both ends' sets and touches no other node |
| NodeGraph.DropConnectionSpec | js/core/NodeSystem.js:249-309 | removing a connection keeps consistency, deletes the id from the table and from every node set, and does nothing for an unknown id |
| NodeGraph.LinkedSpec | js/core/NodeSystem.js:413-431 | assignHierarchy, with the corrected addChild check of Findings (the source calls addChild as written): the hierarchy stays acyclic and mirrored; an allowed pair always has a parent (the output end's widget) and a child; they are linked when both widgets are known and the child does not reach the parent, and otherwise the hierarchy is unchanged |
| NodeGraph.UnlinkedSpec | js/core/NodeSystem.js:249-309 | removing a connection unlinks its parent and child widgets unless another output-to-input connection still links them, in which case the hierarchy is unchanged; the hierarchy stays acyclic and mirrored |
| NodeGraph.UnlinkedAllStart | js/core/NodeSystem.js:311-321 | before any removal no link is dropped |
| NodeGraph.UnlinkedAllStep | js/core/NodeSystem.js:249-309 | one more removeConnection keeps the account exact: the links gone are exactly those a removed connection stood for and no remaining one does |
| NodeGraph.RemoveStep | js/core/NodeSystem.js:249-309 | a removal inside a batch drops exactly that id from the table, keeps consistency, the exact account of dropped links, and an acyclic, mirrored hierarchy |
| NodeGraph.EmptyTableEmptySets | js/core/NodeSystem.js:584-588 | with no connection left, consistent node sets are all empty |
| NodeGraph.SelectSpec | js/core/NodeSystem.js:323-344 | selecting leaves exactly the chosen connection selected and changes nothing else in any record |
| NodeGraph.CompatibleWidgetTypesSpec | js/core/NodeSystem.js:462-508 | the suggestion list is empty exactly for node types outside the map, information among them |
| NodeGraph.FindCompatibleNode | js/core/NodeSystem.js:510-519 | the first node of the widget of the other direction with a compatible type, or none exactly when there is no such node |
| NodeGraph.MissingEndsSpec | js/core/NodeSystem.js:528-558 | only stored connections are reported, a table of valid connections reports none, and a connection with a missing end is reported |
| NodeGraph.SerializeListing | js/core/NodeSystem.js:561-582 | a duplicate-free listing of toJSON's pairs for a table of valid connections passes every rule and has distinct ids, exactly the table's |
| NodeGraph.NodeSystem.constructor | js/core/NodeSystem.js:3-11 | no connections, and every node's set empty |
| NodeGraph.NodeSystem.CreateConnection | js/core/NodeSystem.js:154-187 | the table and sets become the add-connection image and the hierarchy the assignHierarchy image, linked through the corrected addChild check of Findings |
| NodeGraph.NodeSystem.AssignHierarchy | js/core/NodeSystem.js:413-431 | the hierarchy becomes the assignHierarchy image, linked through the corrected addChild check of Findings rather than the check as written |
| NodeGraph.NodeSystem.RemoveConnection | js/core/NodeSystem.js:249-309 | the table and sets become the drop-connection image and the hierarchy the unlink image |
| NodeGraph.NodeSystem.RemoveNodeConnections | js/core/NodeSystem.js:311-321 | every connection in the node's set is removed and nothing else; a consistent system stays consistent and the node ends with no connections; the widgets stay and exactly the parent/child links that a removed connection stood for and no remaining one does are gone; the hierarchy stays acyclic and mirrored |
| NodeGraph.NodeSystem.RestoreConnection | js/core/NodeSystem.js:576-581 | one pair is connected, and its widgets linked as assignHierarchy does, exactly when canConnect allows it; otherwise nothing changes |
| NodeGraph.NodeSystem.ValidateConnections | js/core/NodeSystem.js:528-558 | the errors are exactly the connections with a missing end |
| NodeGraph.NodeSystem.SelectConnection | js/core/NodeSystem.js:323-344 | the connections become the selection image; nodes and sets are unchanged |
| NodeGraph.NodeSystem.ClearAllConnections | js/core/NodeSystem.js:584-588 | the table ends empty; a consistent system stays consistent with every node set empty; the widgets stay and exactly the parent/child links some connection stood for are gone; the hierarchy stays acyclic and mirrored |
| NodeGraph.NodeSystem.FromJSON | js/core/NodeSystem.js:572-582 | after the rebuild every stored connection is valid and listed; when every pair passes the rules and the ids are distinct, exactly the listed ids are stored; consistency is kept; the hierarchy and table end as the clearing followed by the in-order rebuild of the listed pairs, and the hierarchy stays acyclic and mirrored |
| Empires.TechSetsSpec | js/core/Empire.js:31-55 | the starting techs are exactly those without prerequisites or special requirement, the baseline ones those of them that also cost 0, and the unlockable ones exactly the unresearched techs whose prerequisites and special requirement are met; baseline techs are starting techs and unlockable ones are never researched |
| Empires.UpdateAvailableSpec | js/core/Empire.js:78-103 | updateAvailableTech only adds to the available set, only techs whose requirements the researched set meets, keeps researched and available disjoint, and a second run changes nothing |
| Empires.ResearchSpec | js/core/Empire.js:58-75 | research succeeds exactly when the tech is available, unresearched, known, has a cost and the points cover it; a failure changes nothing; a success subtracts the cost, moves the tech to researched and keeps the rest available; points never go below 0 and the two sets stay disjoint |
| Empires.InitializeSpec | js/core/Empire.js:24-45 | initialize researches exactly the baseline techs, makes the other starting techs available, and leaves the sets disjoint and points and designs alone |
| Empires.DesignIdInjective | js/core/Empire.js:138-145 | different numbers give different design ids |
| Empires.IdsBelowSize | js/core/Empire.js:141-143 | there are n − 1 distinct ids below number n, so the id search finds a free one within one more than the number of designs |
| Empires.AppendFreshKeepsUnique | js/core/Empire.js:116-122 | appending a design under an unused id keeps the ids of its type unique |
| Empires.FindDesign | js/core/Empire.js:127 | findIndex: -1 exactly when no design has the id, otherwise the first index whose design has it |
| Empires.JsonRoundTrip | js/core/Empire.js:170-199 | reading back what toJSON wrote restores the empire when its name is not empty; an empty name returns as "New Empire" |
| Empires.Empire.constructor | js/core/Empire.js:3-22 | a new empire is named "New Empire" with 1000 points, no techs and eight empty design lists |
| Empires.Empire.InitializeAvailableTech | js/core/Empire.js:48-56 | the starting techs are added to the available set and nothing else changes |
| Empires.Empire.Initialize | js/core/Empire.js:24-45 | the empire becomes its initialize image |
| Empires.Empire.ResearchTech | js/core/Empire.js:58-75 | the empire and the answer become those of the research function |
| Empires.Empire.UpdateAvailableTech | js/core/Empire.js:78-103 | the empire becomes its update-available image |
| Empires.Empire.HasTech | js/core/Empire.js:106-108 | hasTech answers membership of the researched set; while researched and available stay disjoint, a tech it accepts is never also open to research |
| Empires.Empire.CanResearch | js/core/Empire.js:111-113 | canResearch answers membership of the available set; while the two sets stay disjoint, a tech it accepts is never already researched |
| Empires.Empire.GenerateDesignId | js/core/Empire.js:138-145 | the loop returns `<type>-n` for the least n from 1 whose id is unused, so the id is fresh |
| Empires.Empire.AddDesign | js/core/Empire.js:116-122 | an unknown type changes nothing; otherwise the design is appended under the first free id, and unique ids stay unique |
| Empires.Empire.RemoveDesign | js/core/Empire.js:125-135 | nothing is removed exactly when the type is unknown or no design has the id; otherwise the first design with the id is removed from its list and returned |
| Empires.Empire.FromJSON | js/core/Empire.js:182-199 | the empire becomes the fromJSON image of the data, with each absent field defaulted |
| TechTree.Find | js/core/TechTree.js:60-63 | the lookup fails exactly for an id no entry has, and otherwise returns the data of an entry with that id |
| TechTree.FindEntry | js/core/TechTree.js:60-63 | with unique ids, looking up an entry's id returns that entry's data |
| TechTree.EffectivePrerequisitesSpec | js/core/TechTree.js:135-147 | both lists are empty for an unknown tech; the effective list begins with the plain prerequisites and adds at most the special requirement, never Tier3 |
| TechTree.CanResearchSpec | js/core/TechTree.js:149-174 | an unknown tech cannot be researched; from empire level 3 a known tech can exactly when all its effective prerequisites are researched; below level 3 a Tier3 tech never can |
| TechTree.DependentsSpec | js/core/TechTree.js:88-97 | the dependents are exactly the ids whose prerequisites contain the tech, at most one per entry |
| TechTree.GetTechDependents | js/core/TechTree.js:88-97 | the loop collects the dependents in data order |
| TechTree.TotalCostAppend | js/core/TechTree.js:176-186 | the cost of two id lists together is the sum of their costs, so repeats count |
| TechTree.TotalCostBounds | js/core/TechTree.js:176-186 | unknown ids add nothing, and with non-negative costs the total is not negative |
| TechTree.CalculateTechCost | js/core/TechTree.js:176-186 | the loop's total is the summed cost of the listed known techs, a missing cost counting 0 |
| TechTree.Dedup | js/core/TechTree.js:102 | the set built from the researched list holds exactly its ids |
| TechTree.MissingErrorsSpec | js/core/TechTree.js:111-119 | every prerequisite error names the tech and an unresearched prerequisite, and there are none exactly when all prerequisites are researched |
| TechTree.TechErrorsSpec | js/core/TechTree.js:105-131 | the errors for one known tech name it and unresearched requirements, and there are none exactly when all its effective prerequisites are researched |
| TechTree.ChainErrorsSpec | js/core/TechTree.js:99-133 | validateTechChain (with Tier3 treated as a level, not a tech) reports only known researched techs and unresearched requirements, and reports nothing exactly when every researched tech has its effective prerequisites researched |
| TechTree.ChainErrorsTier3 | js/core/TechTree.js:120-129 | a researched Tier3 tech that canResearch allows at level 3 draws one error naming Tier3 as written, and none in the corrected chain (see Findings) |
| TechTree.TechErrors | js/core/TechTree.js:105-131 | the inner loops collect the prerequisite errors in list order, then the special-requirement error |
| TechTree.ValidateTechChain | js/core/TechTree.js:99-133 | the loop collects the corrected chain's errors over the researched ids, each once, in first-seen order |
| TechTree.PathReadyExtend | js/core/TechTree.js:208-210 | appending a known, unresearched tech whose prerequisites are researched or already in the path keeps every path entry ready |
| TechTree.GetOptimalResearchPath | js/core/TechTree.js:188-225 | none exactly for an unknown target; otherwise a duplicate-free path containing the target in which every other entry is a known, unresearched tech whose prerequisites are researched or earlier in the path |
| TechTree.GroupedKeys | js/core/TechTree.js:70-81 | the groups are keyed by exactly the categories present, Uncategorized for a tech without one |
| TechTree.GroupedContents | js/core/TechTree.js:70-81 | each group lists exactly that category's entries, in data order |
| TechTree.InCategorySpec | js/core/TechTree.js:73-78 | an entry is in a category's list exactly when its key is that category |
| TechTree.GetTechsByCategory | js/core/TechTree.js:70-81 | the loop builds exactly the grouping |
| Preflight.AddSpec | js/core/PreflightCheck.js:544-572 | each add appends exactly one issue to its own list and leaves the other lists alone; only a tracked source id gets a bucket entry, no other widget's bucket changes, and the buckets keep mirroring the lists |
| Preflight.AddFromSource | js/core/PreflightCheck.js:544-562 | adding an issue extends the issues of its own kind and source by that one issue and no others |
| Preflight.AddAllSpec | js/core/PreflightCheck.js:544-562 | a run of adds appends the stamped issues of each kind to that kind's list, in order, keeping the mirroring |
| Preflight.AddAllConcat | js/core/PreflightCheck.js:544-562 | adding two runs one after the other equals adding them together |
| Preflight.BadgesSpec | js/core/PreflightCheck.js:580-606 | a tracked widget's badges count its warnings, its errors plus tech requirements, and its alerts; an untracked id shows none |
| Preflight.SummarySpec | js/core/PreflightCheck.js:905-913 | hasIssues is false only when no widget has an error badge; the error and tech counts are the list lengths; the first error's tracked widget has an error badge |
| Preflight.LinksZero | js/core/PreflightCheck.js:264-273 | the connection count of a direction and type is zero exactly when every such node has no connection |
| Preflight.OutfitCodesSpec | js/core/PreflightCheck.js:378-395 | an outfit gets the Class error exactly without a Class input link, the Core error exactly without a Core input link and the hull alert exactly without an outfit-hull output link, and nothing else |
| Preflight.LoadoutCodesSpec | js/core/PreflightCheck.js:456-492 | a loadout warns exactly when it has no items, and when it has weapons without ammunition, and raises each link alert exactly when that link is missing; nothing is an error |
| Preflight.LoadoutEmptyNoAmmunition | js/core/PreflightCheck.js:459-470 | an empty loadout never also warns about ammunition |
| Preflight.MismatchedKeysSpec | js/core/PreflightCheck.js:218-225 | the mismatched keys are exactly the parent keys whose flag differs from the child's (a missing key counting as false) |
| Preflight.FoundationTechSpec | js/core/PreflightCheck.js:236-245 | one tech requirement for exactly each enabled foundation that is not researched |
| Preflight.ParentCodesSpec | js/core/PreflightCheck.js:207-233 | with a ship parent, the hull error is raised exactly when the totals differ and carries both totals, and one foundations error is raised exactly when some parent flag differs, listing the mismatched labels |
| Preflight.ShipWarningsSpec | js/core/PreflightCheck.js:193-205 | a ship warns exactly without an outfit link, and exactly when it has magazine or hangar hulls but no loadout link |
| Preflight.ShipParentSpec | js/core/PreflightCheck.js:207-233 | the parent errors arise only with a ship parent, under the conditions above |
| Preflight.ShipTechSpec | js/core/PreflightCheck.js:236-245 | a foundation tech requirement arises exactly for an enabled, unresearched foundation of a ship that does not ignore requirements |
| Preflight.ShipCoreSilent | js/core/PreflightCheck.js:397-404 | a ship core never raises an issue |
| Preflight.RunReportSpec | js/core/PreflightCheck.js:53-65 | a run starts from empty lists and buckets, so the report depends only on the widgets: it marks exactly their ids checked and its buckets mirror its lists |
| Preflight.IdsSpec | js/core/PreflightCheck.js:59-62 | the checked ids are exactly the widgets' ids |
| Preflight.PreflightCheck.constructor | js/core/PreflightCheck.js:3-51 | a new checker holds an empty report |
| Preflight.PreflightCheck.RunCheck | js/core/PreflightCheck.js:53-82 | the checker's state becomes the report of the widgets |
| Preflight.PreflightCheck.CheckWidget | js/core/PreflightCheck.js:84-114 | a widget's check adds exactly its codes, rendered with its title and stamped with its id |
| Preflight.PreflightCheck.CountNodeConnections | js/core/PreflightCheck.js:264-273 | the loop sums the connection counts of the matching nodes, is 0 without nodes, and is 0 exactly when no matching node has a connection |
| Preflight.PreflightCheck.CheckHullBasedShip | js/core/PreflightCheck.js:187-247 | the ship check adds exactly the ship's codes |
| Preflight.PreflightCheck.CollectMismatched | js/core/PreflightCheck.js:218-225 | the loop collects the labels of the mismatched keys in order, and none exactly when every parent flag matches |
| Preflight.PreflightCheck.CheckOutfitWidget | js/core/PreflightCheck.js:378-395 | the outfit check adds exactly the outfit's codes |
| Preflight.PreflightCheck.CheckLoadoutsWidget | js/core/PreflightCheck.js:456-492 | the loadout check adds exactly the loadout's codes |
| Preflight.PreflightCheck.AddAlert | js/core/PreflightCheck.js:544-547 | the state becomes the add image for an alert |
| Preflight.PreflightCheck.AddWarning | js/core/PreflightCheck.js:549-552 | the state becomes the add image for a warning |
| Preflight.PreflightCheck.AddError | js/core/PreflightCheck.js:554-557 | the state becomes the add image for an error |
| Preflight.PreflightCheck.AddTechRequirement | js/core/PreflightCheck.js:559-562 | the state becomes the add image for a tech requirement |
| Preflight.PreflightCheck.AddToWidgetIssues | js/core/PreflightCheck.js:564-572 | only the buckets change, as the bucket update describes: nothing for an untracked id, otherwise one issue appended to the category of a bucket made on demand |
| Preflight.PreflightCheck.GetSummary | js/core/PreflightCheck.js:905-913 | the summary of the current state |
| DataManagement.Get | js/core/DataManager.js:137 | a field read yields a value exactly when the value is an object that has the key |
| DataManagement.ValidateImportDataSpec | js/core/DataManager.js:130-164 | import data is accepted exactly when it is an object whose empire is an object with a string name, numeric points, two arrays of techs and designs of type object (null included), and whose widgets and connections are each absent, falsy or an array |
| DataManagement.DeserializeValidated | js/core/DataManager.js:114-127 | deserialising accepted data passes the empire through, yields arrays for widgets and connections, and keeps those that were arrays |
| DataManagement.DesignListValue | js/core/DataManager.js:96-111 | one array item per design |
| DataManagement.StringListValue | js/core/DataManager.js:96-111 | one array item per listed tech |
| DataManagement.SaveLoadRoundTrip | js/core/DataManager.js:96-127 | deserialising what serializeEmpireData wrote yields the empire, the widget entries in order, the connections (or [] when none were given) and the timestamp |
| DataManagement.SavedEmpireValidates | js/core/DataManager.js:96-164 | a file written from an empire's toJSON always passes the import validation |
| DataManagement.ImportFromFileSpec | js/core/DataManager.js:56-93 | an import resolves exactly for a JSON-typed file of at most 10·1024·1024 bytes whose text parses to data that validates, and then with its deserialised form; a missing or wrongly typed file is rejected as such before the size check, an oversized one as too large |
| DataManagement.BackupKeys | js/core/DataManager.js:275-281 | the collected keys are exactly the stored keys with the backup prefix |
| DataManagement.NewestFirst | js/core/DataManager.js:284-288 | the sorted backup keys are a permutation of the collected ones |
| DataManagement.ExpiredSpec | js/core/DataManager.js:290-293 | only stored backup keys are removed, and nothing when there are at most five |
| DataManagement.PrunedKeepsOthers | js/core/DataManager.js:272-296 | cleanup never touches a non-backup key or any kept value, and changes nothing with at most five backups |
| DataManagement.PrunedAtMostFive | js/core/DataManager.js:272-296 | at most five backup keys remain |
| DataManagement.PrunedKeepsNewest | js/core/DataManager.js:284-293 | every removed backup's time stamp sorts at or below every kept one's |
| DataManagement.Storage.constructor | js/core/DataManager.js:3-7 | the storage holds the given items |
| DataManagement.Storage.CleanupOldBackups | js/core/DataManager.js:272-296 | the stored items become their pruned image |
| ShipSummary.IsShipFamily | js/widgets/ShipWidgetPrototype.js:33-35 | true exactly for a widget of type ship or shipPrototype |
| ShipSummary.Truncate | js/widgets/ShipWidgetPrototype.js:194-196 | slice(0, n) keeps a prefix of at most n parts and the remainder counts the rest, which is non-zero only when n parts are shown |
| ShipSummary.HullPartsSpec | js/widgets/ShipWidgetPrototype.js:188-191 | the parts are exactly the hull types with a positive count, one `<count> <label>` each, in military-then-civil order |
| ShipSummary.HullTypesCover | js/widgets/ShipWidgetPrototype.js:183-186 | every hull kind appears in the ordered type list |
| ShipSummary.HullSummaryListsParts | js/widgets/ShipWidgetPrototype.js:192 | with non-negative counts and a non-zero total, some part is listed, so the bare-total branch is not reached |
| ShipSummary.HullSummaryShown | js/widgets/ShipWidgetPrototype.js:194-196 | at most three parts are shown, the first ones in order, and shown plus hidden equals the number of positive types |
| ShipSummary.HullSummarySpec | js/widgets/ShipWidgetPrototype.js:178-198 | a zero total gives "None"; otherwise the total, then the shown parts joined by commas and ` +k more` for the hidden ones, in parentheses |
| ShipSummary.ActiveLabelsSpec | js/widgets/ShipWidgetPrototype.js:202-204 | no labels exactly when no foundation is active; each label is the title-cased label of an active key |
| ShipSummary.FoundationSummaryEmpty | js/widgets/ShipWidgetPrototype.js:200-208 | the summary is empty exactly when no foundation is active |
| ShipSummary.FoundationSummaryShown | js/widgets/ShipWidgetPrototype.js:200-208 | at most four labels are shown, each of an active foundation, and shown plus hidden equals the active count |
| ShipSummary.LabelledValues | js/widgets/ShipWidgetPrototype.js:221 | one `<label> <value>` text per high hardpoint |
| ShipSummary.HighValuesSpec | js/widgets/ShipWidgetPrototype.js:214-219 | SHP, PHP and MHP are listed exactly when present and not zero, each at most once |
| ShipSummary.HardpointSummarySpec | js/widgets/ShipWidgetPrototype.js:210-223 | the hardpoint summary is the dash exactly when utility and total are absent and no high hardpoint is listed |
| ShipSummary.PropulsionSummarySpec | js/widgets/ShipWidgetPrototype.js:225-233 | one part per present propulsion field, and the dash exactly when none is present |
| ShipSummary.OptionalNumberSpec | js/widgets/ShipWidgetPrototype.js:251-254 | a missing or empty value gives the dash; any other value gives its text followed by the suffix |

## Left out

- Input and output: DOM rendering, event wiring, drag and snap, node pixel placement (`reflowNodes`, `positionNode`, `autoArrangeHierarchy`, `clampToCanvasBounds`), badges and overlays of the preflight check, `localStorage`, `FileReader`/`Blob` downloads, `fetch`, and console logging. None of them decides a value the model computes.
- The Python script's directory creation, JSON dump and debug prints. Its embedded weapon table is data, not logic.
- The clock and randomness: `Date.now()` and `Math.random()` ids are parameters (`stamp`, fresh ids) of the members that use them.
- Asynchronous shells of `Empire` and `TechTree`: they are modelled synchronously over tech data passed in as a parameter.
- `window.widgetManager`, `window.empire` and `window.preflightCheck` calls are replaced by the maps and answers they would return, passed in as parameters.
- Python `lower()`/`upper()` map ASCII letters only. `int()`/`float()` quirks (underscores, non-ASCII digits, `1e5`, `inf`, `nan`) are not modelled. The float branch of `parse_numeric` is an opaque decimal that keeps its text.
- JavaScript `localeCompare` is modelled by lexicographic order on Unicode code points (Dafny characters), which differs from UTF-16 code-unit order for characters beyond U+FFFF.
- Floating-point numbers: every quantity is an integer, except JSON numbers in `DataManagement`, which are reals with no IEEE rounding.
- The `labelFormatter` function of an expandable node group is not modelled; labels use the default `"<base> <index>"` form.
- WidgetNodes: a group id is a string, and the empty string stands for JavaScript's falsy "no group". A group id that is any other falsy value is not modelled.
- WidgetNodes.WidgetNodeSet.UpdateExpandableGroup: in the source a widget's node record and the node system's view of it share one `connections` Set, so createConnection and removeConnection change what the group update counts. The model has no shared object: the node system's writes reach the widget only through `WidgetNodes.WidgetNodeSet.SetNodeConnections`, which a caller passes the node's set from `NodeGraph.NodeConns`. The two classes are not tied together, and the group rules are stated over whatever sets the widget state holds.
- NodeGraph.Serialize: returns the set of connection pairs; the array order of `toJSON`'s pairs is not modelled.
- Systems: `heatType` is a two-valued datatype (`Magnetic`, `Demon`), the only types the widget's buttons send; other strings are modelled only in `Outfit` (`Outfit.AddHeatOtherType`).
- TechTree.CanResearch: takes the empire level as an argument; the source's default level of 1 is not modelled.
- Empires.Empire.AddDesign: stores a copy of the design with its new id; the source also writes that id into the caller's design object, and that write is not modelled.
- Widget.removeNode also calls `nodeSystem.removeNodeConnections`. In the model those are two members, `WidgetNodes.WidgetNodeSet.RemoveNode` and `NodeGraph.NodeSystem.RemoveNodeConnections`, and the call between them is not modelled.
- DataManagement.Stamp: takes all the text after the backup prefix, while the source's `split('_backup_')[1]` stops at a second `_backup_` marker; only keys that hold the marker twice are ordered differently.
- TechTree.GetOptimalResearchPath: runs at most `fuel` rounds of the work-list loop. It does not promise that the path is complete or that the source's loop ends on cyclic tech data. Like the source, it can leave out an intermediate prerequisite: for T needing A and A needing B, with nothing researched, A leaves the queue before B is in the path and is never queued again, so the path is B then T.
- WidgetTree.Hierarchy.GetDescendants: returns a set of ids. The order of the array the source builds is not modelled.
- NodeGraph.NodeSystem.ValidateConnections: returns the set of ids of connections with a missing end, not the ordered error records with their messages; its warning list is always empty in the source and is not modelled.
- Outfit.OutfitWidget.RemoveWeaponRow: an index outside the rows changes nothing. JavaScript `splice` would count a negative index from the end; the handler only ever passes the index of a rendered row.
- Preflight: `checkConnections`, `checkEmpireWide`, the craft, troops, missiles, berth and hulls checks, and the legacy component ship check are not modelled. Neither are the badge and overlay updates, apart from the counts `Preflight.Badges` computes.
- `Empire.getTechRequirements` is not part of this model.
- ShipSummary: the figures are integers and foundations are booleans. `formatHeat` and `renderSummary` are not modelled.
- The heat formulas of `SystemsWidget` differ from those of `OutfitWidget`. Both are modelled as written (`Systems.HeatDissipation`, `Outfit.HeatDissipation`).
- The thin form widgets (loadouts, shipyards, powerplants, missiles, factories, core, hulls, berth, troops, basic info, statistics, reroute), `js/main.js` and the dead `ShipWidget_old.js` are not part of this model.

## Findings

| source | as written | input that shows it | evidently intended | confidence | as-written member | corrected member |
|---|---|---|---|---|---|---|
| js/core/Widget.js:1599-1603 | `addChild` refuses a widget that is already a descendant of the parent (`this.isAncestorOf(widget)`) | widgets a and b with b a child of a; `b.addChild(a)` is accepted and a reaches itself through b | refuse a child that already reaches the parent, so that the hierarchy stays acyclic, as the comment "prevent cycle" says; `NodeGraph.Linked`, and through it `NodeGraph.LinkedSpec`, `NodeGraph.NodeSystem.CreateConnection` and `NodeGraph.NodeSystem.AssignHierarchy`, link through this corrected check | not executed; follows from the code as written | WidgetTree.AddChildAsWrittenCycle | WidgetTree.AddChildSpec |
| js/core/TechTree.js:120-129 | `validateTechChain` reports every special requirement that is not a researched tech, including `Tier3` | tech data `{t: special "Tier3", no prerequisites}` with t researched: `canResearch` allows t at empire level 3, yet the chain check reports t as missing "Tier3" | never report `Tier3`: the empire level is left to `canResearch`, and `getEffectivePrerequisites` also excludes `Tier3` | not executed; follows from the code as written | TechTree.ChainErrorsTier3 | TechTree.ChainErrorsSpec |
| js/core/Widget.js:667-675 | the trimming loop of `updateExpandableGroup` pops from the free-node list without testing that it is non-empty | a group created with `maxFree: -1` and the default `minAvailable` of 1: connect node 1 (node 2 is added), connect node 2 (node 3 is added), then update the group while node 3 is free; node 3 is removed, two connected nodes remain above `minAvailable` with an empty free list, so the loop condition stays true and each pass pops `undefined` and continues | stop once no free node is left | not executed; no widget in the repository passes a negative `maxFree` | WidgetNodes.TrimSpinsAsWritten | WidgetNodes.TrimmedStops |
