# StructureLogic: multi-block structure recognition

Railcraft builds machines such as coke ovens, blast furnaces and tanks out of
several blocks. Each block's tile carries a `StructureLogic`, the engine that
decides whether the block belongs to a formed structure. This project models
that engine in Dafny and proves properties of the model.

The engine does the following:

- it tests every template (`MultiBlockPattern`) of its catalog against the
  world and records each verdict;
- it elects itself master with the first template that matches;
- it walks the template's bounding box and recruits every engine of the same
  structure key, assigning each one the template and its offset in it;
- it answers "who is my master" and "what are the components" through the
  master's coordinate, trusting only a valid master;
- on a block change, it invalidates its neighbours with a hop budget of 12,
  and it jumps to a resolved master with a fresh budget;
- it encodes its state twice: as a replicated packet for observers and as a
  durable NBT snapshot.

## Files

- `types.dfy` (module `StructureTypes`) holds coordinates, the four structure states, the three template verdicts, templates and the engine record.
- `rules.dfy` (module `StructureRules`) holds the pure helpers:
  - the marker predicates;
  - key matching and `isValidMaster`;
  - the byte-narrowed pattern index;
  - `setPattern`, as a transformation of one engine record.
- `verdicts.dfy` (module `Verdicts`) holds the verdict table (`patternStates`) as a function of the verdict sequence.
- `scan.dfy` (module `PatternScan`) holds the bounding-box walk, specified as a sequence of offsets, and the coordinates it recruits.
- `codec.dfy` (module `StructureCodec`) holds the packet as a sequence of abstract fields and the snapshot as a map of named tags.
- `logic.dfy` (module `StructureLogic`) holds the following:
  - class `StructureWorld`, which owns the arena `engines: map<Pos, Engine>` and the template catalog of each structure key;
  - every state-changing method of the engine, as a method of that class taking the engine's own coordinate;
  - the read-only queries, as functions of the arena;
  - `MasterTest`, the specification function that `testIfMasterBlock` is proved against, with its lemmas;
  - the bounded-invalidation predicates and lemmas.
- `scenarios.dfy` (module `StructureScenarios`) holds a worked election: three engines in a line along x, starting at any coordinate, under a 3 x 1 x 1 template whose master is the middle cell.

Templates are named by their position in the catalog of the engine's
structure key. Another engine is reached only by coordinate, so a call on a
neighbour (`l.setPattern`, `l.markChange`) is an update of that neighbour's
entry in the arena.

In four places the code does something other than one might expect, and the
model follows the code:

- **A VALID engine lists the master twice.** When the template's marker at the
  master offset is not `A`, `O` or `*`, the walk recruits the master itself a
  second time. Its component list then holds one more entry than the structure
  has engines: four for a line of three, where one might expect three
  (`StructureScenarios.LineElectsMiddle`).
- **A master coordinate does not imply VALID.** Only `setPattern` ties the
  state to `masterPos`. `markChange`, the UNKNOWN outcome and the INVALID
  outcome change the state and keep `masterPos`.
- **An out-of-range snapshot index keeps the pattern.** A non-negative pattern
  index from the snapshot that is too large for the catalog leaves
  `currentPattern` as it was. The failed lookup's exception is swallowed, so
  the result is not "no template".
- **A non-VALID packet leaves the observer INVALID.** Reading a replicated
  packet with any non-VALID state ends in `setPattern(null, null)`, which
  leaves the observer INVALID. UNKNOWN and UNTESTED are not mirrored.

## Model

| member | source | states |
|---|---|---|
| `StructureRules.ToByte` | src/main/java/mods/railcraft/common/blocks/logic/StructureLogic.java:152-154 | the `(byte)` cast keeps the value modulo 256 in [-128, 127] and is the identity on byte values |
| `StructureRules.NewEngine` | src/main/java/mods/railcraft/common/blocks/logic/StructureLogic.java:57-74 | a new engine is UNTESTED, not master, has no pattern, position or master, and lists only itself as a component |
| `StructureLogic.StructureWorld.constructor` | src/main/java/mods/railcraft/common/blocks/logic/StructureLogic.java:67-74 | every given coordinate holds a freshly created engine of its key (UNTESTED, no pattern, components [self]); every pattern index fits its catalog and every VALID engine is assigned |
| `StructureLogic.StructureWorld.Place` | src/main/java/mods/railcraft/common/blocks/logic/StructureLogic.java:67-74 | a placed tile adds exactly one freshly created engine, and both class invariants are kept |
| `StructureRules.IsMapPositionOtherBlock` | src/main/java/mods/railcraft/common/blocks/logic/StructureLogic.java:248-257 | true exactly for the markers `A`, `O` and `*` |
| `StructureRules.IsMapPositionValid` | src/main/java/mods/railcraft/common/blocks/logic/StructureLogic.java:259-280 | a cell fails exactly when the marker is `O` and the block equals the engine's, `W`/`B` and it differs, or `A` and it is not air; `*` always fits |
| `StructureRules.CanMatch` | src/main/java/mods/railcraft/common/blocks/logic/StructureLogic.java:314-316 | engines interoperate exactly when their structure keys are equal |
| `StructureRules.IsValidMaster` | src/main/java/mods/railcraft/common/blocks/logic/StructureLogic.java:397-399 | true exactly when the engine claims master, is VALID and its tile is not invalid |
| `StructureRules.GetPatternIndex` | src/main/java/mods/railcraft/common/blocks/logic/StructureLogic.java:152-154 | -1 without a pattern, the catalog position when a byte holds it |
| `StructureRules.SetPattern` | src/main/java/mods/railcraft/common/blocks/logic/StructureLogic.java:124-150 | stores pattern and position; masterPos is absent exactly when either is absent and is otherwise the template's master position; VALID exactly when masterPos is present, INVALID otherwise; no other field changes |
| `StructureRules.SetPatternIdempotent` | src/main/java/mods/railcraft/common/blocks/logic/StructureLogic.java:124-150 | assigning the same pattern and position again changes nothing and does not trigger the change hook |
| `StructureRules.SetPatternUnchanged` | src/main/java/mods/railcraft/common/blocks/logic/StructureLogic.java:124-150 | when pattern, position and master are unchanged (no hook), only the state is re-derived from masterPos |
| `Verdicts.Put` | src/main/java/mods/railcraft/common/blocks/logic/StructureLogic.java:282-286 | the multimap put appends the template to its verdict's list and leaves the other lists alone |
| `Verdicts.FirstIndex` | src/main/java/mods/railcraft/common/blocks/logic/StructureLogic.java:201 | the least catalog position with the given verdict |
| `Verdicts.IndicesWithSpec` | src/main/java/mods/railcraft/common/blocks/logic/StructureLogic.java:282-286 | a verdict's list holds exactly the positions with that verdict, increasing |
| `Verdicts.VerdictTablePut` | src/main/java/mods/railcraft/common/blocks/logic/StructureLogic.java:282-286 | testing one more template extends the table by exactly one put |
| `Verdicts.FirstIndexIsHead` | src/main/java/mods/railcraft/common/blocks/logic/StructureLogic.java:201 | the head of a verdict's list is the first template in catalog order with that verdict |
| `Verdicts.VerdictTableSpec` | src/main/java/mods/railcraft/common/blocks/logic/StructureLogic.java:282-286 | a verdict is a key iff some template produced it; every template is listed under its own verdict and under no other; the VALID head is the first match |
| `StructureLogic.StructureWorld.TestPatterns` | src/main/java/mods/railcraft/common/blocks/logic/StructureLogic.java:282-286 | after clearing the table, the loop leaves exactly the table of all verdicts in catalog order, tested past the first match; no other engine or field changes |
| `PatternScan.RowSpec` | src/main/java/mods/railcraft/common/blocks/logic/StructureLogic.java:213 | the inner loop visits (x, y, 0) .. (x, y, n-1), in order |
| `PatternScan.SlabSpec` | src/main/java/mods/railcraft/common/blocks/logic/StructureLogic.java:212-213 | the middle loop visits the slab x, y then z, in order |
| `PatternScan.BoxPrefixSpec` | src/main/java/mods/railcraft/common/blocks/logic/StructureLogic.java:211-213 | the first l slabs of the walk are exactly the offsets with x < l, in scan order |
| `PatternScan.BoxSpec` | src/main/java/mods/railcraft/common/blocks/logic/StructureLogic.java:205-213 | the walk visits every offset of the bounding box once and nothing else, in x-y-z order |
| `PatternScan.RowIndex` | src/main/java/mods/railcraft/common/blocks/logic/StructureLogic.java:213 | the k-th step of the inner loop visits (x, y, k), and the row has n steps |
| `PatternScan.BoxAt` | src/main/java/mods/railcraft/common/blocks/logic/StructureLogic.java:211-213 | every step of the walk over the first l slabs lands inside the box |
| `PatternScan.BoxFind` | src/main/java/mods/railcraft/common/blocks/logic/StructureLogic.java:211-213 | every offset of the box with x < l is reached at some step of the walk |
| `PatternScan.RecruitsSpec` | src/main/java/mods/railcraft/common/blocks/logic/StructureLogic.java:215-227 | a coordinate is recruited iff its offset is visited, its marker is not an other-block marker and it holds an engine of the same key |
| `PatternScan.RecruitedIff` | src/main/java/mods/railcraft/common/blocks/logic/StructureLogic.java:205-230 | recruited iff in the bounding box, not an other-block marker, and holding an engine of the same key |
| `PatternScan.RecruitsAll` | src/main/java/mods/railcraft/common/blocks/logic/StructureLogic.java:215-227 | when every visited cell qualifies, every coordinate is recruited in walk order |
| `PatternScan.MasterRecruited` | src/main/java/mods/railcraft/common/blocks/logic/StructureLogic.java:209-227 | the master is recruited again when its offset lies in the box under a marker other than `A`, `O` or `*` |
| `PatternScan.RecruitsFrame` | src/main/java/mods/railcraft/common/blocks/logic/StructureLogic.java:222-224 | recruitment depends only on which coordinates hold engines and on their keys |
| `StructureLogic.AssignSpec` | src/main/java/mods/railcraft/common/blocks/logic/StructureLogic.java:224-225 | after the walk, each recruited engine holds (template, its offset), even when recruited twice; every other engine is untouched |
| `StructureLogic.AssignKey` | src/main/java/mods/railcraft/common/blocks/logic/StructureLogic.java:224-225 | assigning a template never changes an engine's structure key |
| `StructureLogic.AssignArena` | src/main/java/mods/railcraft/common/blocks/logic/StructureLogic.java:203-227 | after the walk the master keeps its entry; each recruit has the master's key and holds the assignment of its offset; the rest is untouched |
| `StructureLogic.RecruitsSnoc` | src/main/java/mods/railcraft/common/blocks/logic/StructureLogic.java:215-227 | one more visited offset recruits its coordinate exactly when the marker and the key allow |
| `StructureLogic.RecruitRow` | src/main/java/mods/railcraft/common/blocks/logic/StructureLogic.java:213-228 | the innermost loop extends the component list by the row's recruits, and assigns each recruit |
| `StructureLogic.RecruitSlab` | src/main/java/mods/railcraft/common/blocks/logic/StructureLogic.java:212-229 | the middle loop extends the component list by the slab's recruits, and assigns each recruit |
| `StructureLogic.StructureWorld.RecruitComponents` | src/main/java/mods/railcraft/common/blocks/logic/StructureLogic.java:205-230 | the triple loop leaves components == [self] + recruits in walk order, and the arena with every recruit assigned |
| `StructureLogic.StructureWorld.TestIfMasterBlock` | src/main/java/mods/railcraft/common/blocks/logic/StructureLogic.java:190-243 | the new arena is `MasterTest` of the old one; pattern indices stay in their catalogs; VALID engines stay assigned |
| `StructureLogic.MasterTestSelf` | src/main/java/mods/railcraft/common/blocks/logic/StructureLogic.java:190-243 | the tested engine is VALID iff some template matched, UNKNOWN iff none matched and one was not loaded, INVALID otherwise; without a match only state, table, components and (INVALID) the master flag change |
| `StructureLogic.MasterTestMaster` | src/main/java/mods/railcraft/common/blocks/logic/StructureLogic.java:196-226 | the master's entry after a match: claimed master, first matching template at the master offset, components [self] + recruits |
| `StructureLogic.MasterTestElects` | src/main/java/mods/railcraft/common/blocks/logic/StructureLogic.java:196-230 | on a match, the engine is the VALID master with the first matching template at its master offset; components are itself then each recruit in walk order; recruits hold the template at their offsets; other engines are untouched |
| `StructureLogic.MasterTestKeepsFit` | src/main/java/mods/railcraft/common/blocks/logic/StructureLogic.java:201-225 | every pattern index stays inside its engine's catalog |
| `StructureLogic.MasterTestKeepsAssigned` | src/main/java/mods/railcraft/common/blocks/logic/StructureLogic.java:196-236 | every VALID engine still has a master coordinate and a position in its pattern |
| `StructureLogic.AssemblyKeepsFit` | src/main/java/mods/railcraft/common/blocks/logic/StructureLogic.java:201-225 | assembly assigns only indices of the master's catalog, and only to engines of the master's key |
| `StructureLogic.AssemblyKeepsAssigned` | src/main/java/mods/railcraft/common/blocks/logic/StructureLogic.java:203-225 | assembly leaves every VALID engine assigned |
| `StructureLogic.MasterTestConverges` | src/main/java/mods/railcraft/common/blocks/logic/StructureLogic.java:84-101 | with a geometric template, the master resolves to itself, and every recruit resolves to the master and sees its component list |
| `StructureLogic.AssemblyConverges` | src/main/java/mods/railcraft/common/blocks/logic/StructureLogic.java:84-91 | every recruit of a geometric template points at a valid master |
| `StructureScenarios.LineBox` | src/main/java/mods/railcraft/common/blocks/logic/StructureLogic.java:211-213 | a 3 x 1 x 1 template is walked (0,0,0), (1,0,0), (2,0,0) |
| `StructureScenarios.LineRecruits` | src/main/java/mods/railcraft/common/blocks/logic/StructureLogic.java:209-227 | laid with its origin on the first of three engines in a line, a 3 x 1 x 1 block template recruits all three, in x order |
| `StructureScenarios.RecruitsThree` | src/main/java/mods/railcraft/common/blocks/logic/StructureLogic.java:209-227 | a walk over three qualifying offsets, each over an engine of the same key, recruits the three coordinates in walk order |
| `StructureScenarios.LineElectsMiddle` | src/main/java/mods/railcraft/common/blocks/logic/StructureLogic.java:190-243 | the middle engine becomes the valid master, both ends resolve to it, and its component list is [mid, left, mid, right] |
| `StructureLogic.StructureWorld.UpdateServer` | src/main/java/mods/railcraft/common/blocks/logic/StructureLogic.java:184-188 | only an UNTESTED engine re-tests, and afterwards it is no longer UNTESTED; otherwise nothing changes |
| `StructureLogic.GetMasterLogic` | src/main/java/mods/railcraft/common/blocks/logic/StructureLogic.java:84-91 | empty exactly when masterPos is absent, names no engine, or names one that is not a valid master |
| `StructureLogic.GetComponents` | src/main/java/mods/railcraft/common/blocks/logic/StructureLogic.java:99-101 | the master's component list, empty when no master resolves |
| `StructureLogic.IsStructureValid` | src/main/java/mods/railcraft/common/blocks/logic/StructureLogic.java:407-409 | true exactly when a master resolves; when false, the component list is empty |
| `StructureLogic.GetPatternMarker` | src/main/java/mods/railcraft/common/blocks/logic/StructureLogic.java:110-114 | `O` without pattern, position or valid structure, otherwise the marker at the position in the template of the engine's own key |
| `StructureLogic.MembersShareComponents` | src/main/java/mods/railcraft/common/blocks/logic/StructureLogic.java:84-101 | a member whose master points at itself sees the master's own component list |
| `StructureLogic.StructureWorld.OnBlockChange` | src/main/java/mods/railcraft/common/blocks/logic/StructureLogic.java:288-290 | every axis neighbour of the same key ends UNTESTED; nothing but states changes, each only to UNTESTED; both class invariants are kept; when no master resolves, every change lies within 12 hops and touches only engines of the same key as the changed block |
| `StructureLogic.StructureWorld.SpreadChange` | src/main/java/mods/railcraft/common/blocks/logic/StructureLogic.java:292-298 | with budget left, every axis neighbour of the same key ends UNTESTED; nothing but states changes, each only to UNTESTED; both class invariants are kept; a budget of zero changes nothing; when no master resolves, every change lies within `depth` hops and touches only engines of the same key as `at` |
| `StructureLogic.StructureWorld.MarkChange` | src/main/java/mods/railcraft/common/blocks/logic/StructureLogic.java:300-312 | no budget or already UNTESTED changes nothing (so a second call is a no-op); otherwise the engine ends UNTESTED, the same-key neighbours of its resolved master (another engine) end UNTESTED, and with a budget of two or more its own same-key neighbours too; only states change; both class invariants are kept; when no master resolves, changes lie within depth-1 hops and touch only engines of the same key as the marked engine; the recursion terminates |
| `StructureLogic.StructureWorld.ScheduleMasterRetest` | src/main/java/mods/railcraft/common/blocks/logic/StructureLogic.java:401-405 | the resolved master, if any, becomes UNTESTED and nothing else changes, so the structure no longer resolves a master from this engine; both class invariants are kept |
| `StructureLogic.ResetsKeepInvariants` | src/main/java/mods/railcraft/common/blocks/logic/StructureLogic.java:300-305 | forcing states to UNTESTED keeps every pattern index in its catalog and every VALID engine assigned |
| `StructureLogic.SidesResetStep` | src/main/java/mods/railcraft/common/blocks/logic/StructureLogic.java:292-298 | marking one more side resets its same-key engine and keeps the earlier sides reset |
| `StructureLogic.MarkChain` | src/main/java/mods/railcraft/common/blocks/logic/StructureLogic.java:300-312 | reset, master invalidation and spread compose to a state-only change that leaves the engine UNTESTED; with no master resolving, the distance bound and the same-key confinement carry over |
| `StructureLogic.ResetOne` | src/main/java/mods/railcraft/common/blocks/logic/StructureLogic.java:304-305 | forcing one engine to UNTESTED removes exactly it from the engines still to reset |
| `StructureLogic.ResetsShrink` | src/main/java/mods/railcraft/common/blocks/logic/StructureLogic.java:300-312 | state-only resets never add an engine to be reset and never make a master resolve |
| `StructureLogic.WithinNeighbour` | src/main/java/mods/railcraft/common/blocks/logic/StructureLogic.java:292-298 | a change within d hops of a neighbour lies within d+1 hops of the engine |
| `StructureLogic.KeyCompose` | src/main/java/mods/railcraft/common/blocks/logic/StructureLogic.java:292-298 | two reset steps that each touch only engines of one key together touch only engines of that key, since resets never change a key |
| `StructureCodec.Clamp` | src/main/java/mods/railcraft/common/blocks/logic/StructureLogic.java:377 | the result lies in [lo, hi] when lo <= hi, equals n inside it, lo below it, hi above it |
| `StructureCodec.WritePacket` | src/main/java/mods/railcraft/common/blocks/logic/StructureLogic.java:360-368 | the state, then, only for VALID, the pattern index and position, then the payload; fails exactly for VALID without a position |
| `StructureCodec.ReadPacket` | src/main/java/mods/railcraft/common/blocks/logic/StructureLogic.java:372-380 | a slot is read exactly for VALID, its index lies in the catalog, the rest is an unread suffix; a lookup failure happens only with an empty catalog |
| `StructureCodec.PacketRoundTrip` | src/main/java/mods/railcraft/common/blocks/logic/StructureLogic.java:360-395 | a written packet reads back its state, and for VALID its index and position, with the payload intact |
| `StructureCodec.PacketIndexClamped` | src/main/java/mods/railcraft/common/blocks/logic/StructureLogic.java:376-378 | an out-of-range index reads as the first or the last template instead of failing |
| `StructureLogic.StructureWorld.ReadPacketData` | src/main/java/mods/railcraft/common/blocks/logic/StructureLogic.java:372-395 | only the engine's own entry changes; VALID assigns the clamped template and position, sets the master flag from the template, and requests a packet when no master resolves; any other state clears master flag and pattern and leaves INVALID |
| `StructureCodec.GetByte` | src/main/java/mods/railcraft/common/blocks/logic/StructureLogic.java:351 | a missing tag reads as 0 |
| `StructureCodec.WriteToNbt` | src/main/java/mods/railcraft/common/blocks/logic/StructureLogic.java:337-342 | writes the master flag and the byte pattern index over the other tags, which are kept |
| `StructureCodec.PatternFromNbt` | src/main/java/mods/railcraft/common/blocks/logic/StructureLogic.java:351-355 | a negative index gives no pattern, an in-range one that template, a too large one leaves the pattern as it was |
| `StructureCodec.NbtRoundTrip` | src/main/java/mods/railcraft/common/blocks/logic/StructureLogic.java:337-355 | a written snapshot restores the master flag and the pattern |
| `StructureCodec.NbtMissingPattern` | src/main/java/mods/railcraft/common/blocks/logic/StructureLogic.java:351-352 | a snapshot without a pattern tag loads the first template |
| `StructureLogic.StructureWorld.ReadFromNbt` | src/main/java/mods/railcraft/common/blocks/logic/StructureLogic.java:346-356 | only the master flag and the pattern of the engine's own entry change, as read from the snapshot |

## Left out

- `SlotColorFilter` (a GUI slot checking items against the game's registries) is not part of this model.
- Template testing (`MultiBlockPattern.testPattern`) is a function parameter, `Matcher`. A template's markers, `getMasterPosition` and `isMasterPosition` are uninterpreted function fields of `Pattern`.
- `StructureLogic.MasterTestConverges`: convergence is proved only for templates whose master position follows the geometric law. That law is that the master sits at the engine's coordinate minus its offset plus the master offset. `getMasterPosition` itself is not part of this model.
- World and tile lookups are lookups in the arena. `isAir` and block-state equality are inputs of `IsMapPositionValid`.
- `StructureLogic.StructureWorld.OnBlockChange`, `SpreadChange` and `MarkChange`: the bound on how far invalidation reaches, and its confinement to engines of one key, are proved only when no master resolves. A resolved master restarts the budget from its own coordinate, and from there the change is not bounded by distance. Every call is still proved to change nothing but states, and the recursion is proved to terminate.
- `onPatternChanged` (model refresh and inventory spilling) is reduced to the predicate `PatternChanged`, which decides whether it runs. The following are effects on the client, the network or the event bus, and are not modelled:
  - `sendUpdateToClient`;
  - `MultiBlockEvent.Form`;
  - `onMasterReset`, an empty hook;
  - `updateClient` with its timer.
- The functional delegate is not modelled: its `update`, `interact`, `getGUI`, `getLogic` and `getFunctionalLogic` forwarding, and its part of the packet and the snapshot. In the codec its part is an opaque payload that is handed on untouched. So is the base class's part.
- The byte encoding of `RailcraftOutputStream` is not modelled; a packet is a sequence of typed fields. A stream that ends early or holds the wrong field is `Truncated`.
- `StructureLogic.StructureWorld.ReadFromNbt` restores only what this class reads: the master flag and the pattern. It does not derive a state or a master coordinate, exactly as the source does not.
- `StructureLogic.StructureWorld.ScheduleMasterRetest`: the early return on the client side is not modelled; the arena is the server's.
- `StructureLogic.CatalogOf`, `StructureLogic.PatternsFit`, `StructureLogic.StructureWorld.Wf`, `StructureLogic.MasterTestKeepsFit` and `StructureRules.GetPatternIndex`: engines of one structure key are assumed to hold the same template catalog, whereas in the code each engine keeps its own list and a recruit receives the master's template object. `indexOf` is reduced to the stored catalog position, so a template listed twice, or one missing from the recruit's own list (index -1), is not modelled.
- Engines are values in a map, so aliasing between engine objects is not modelled. The master's component list holds coordinates, not tile objects.
