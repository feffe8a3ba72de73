/** The engine's pure helpers: cell-marker predicates, key matching, the
    valid-master test, the pattern index and the pattern assignment
    (setPattern) as a transformation of one engine's fields. */
module StructureRules {
  import opened StructureTypes

  /** A Java byte. */
  type Byte = b: int | -128 <= b < 128

  /** The Java narrowing cast `(byte) n`: keeps the low eight bits, two's complement. */
  function ToByte(n: int): (r: Byte)
    ensures -128 <= n < 128 ==> r == n
    ensures (n - r) % 256 == 0
  {
    (n + 128) % 256 - 128
  }

  /** The engine created with its tile: untested, no pattern, components [self]. */
  function NewEngine(key: string, at: Pos): (r: Engine)
    ensures r.state == Untested && !r.isMaster && !r.requestPacket
    ensures r.masterPos.None? && r.currentPattern.None? && r.posInPattern.None?
    ensures r.components == [at] && r.key == key
  {
    Engine(key, false, Untested, false, None, None, None, map[], [at], false)
  }

  /** Markers that impose no membership requirement during assembly:
      air, other and anything. */
  function IsMapPositionOtherBlock(marker: char): (r: bool)
    ensures r <==> marker == 'A' || marker == 'O' || marker == '*'
  {
    match marker
    case 'A' => true
    case 'O' => true
    case '*' => true
    case _ => false
  }

  /** Whether the cell at some position fits `marker`, given whether its
      block state equals the engine's own (`sameState`) and whether it is air. */
  function IsMapPositionValid(marker: char, sameState: bool, isAir: bool): (r: bool)
    ensures !r <==> ((marker == 'O' && sameState)
                     || ((marker == 'W' || marker == 'B') && !sameState)
                     || (marker == 'A' && !isAir))
    ensures IsMapPositionOtherBlock(marker) && marker != 'A' && marker != 'O' ==> r
  {
    match marker
    case 'O' => !sameState
    case 'W' => sameState
    case 'B' => sameState
    case 'A' => isAir
    case '*' => true
    case _ => true
  }

  /** canMatch: engines interoperate only when their structure keys agree. */
  function CanMatch(self: Engine, other: Engine): (r: bool)
    ensures r <==> other.key == self.key
  {
    other.key == self.key
  }

  /** isValidMaster: the engine claims the master role, is VALID and its tile
      is still in the world. */
  function IsValidMaster(e: Engine): (r: bool)
    ensures r ==> e.state == Valid && e.isMaster && !e.tileInvalid
    ensures e.state != Valid || !e.isMaster || e.tileInvalid ==> !r
  {
    e.isMaster && e.state == Valid && !e.tileInvalid
  }

  /** getPatternIndex: the position of the current pattern in the catalog,
      -1 without one, narrowed to a byte. */
  function GetPatternIndex(e: Engine): (r: Byte)
    ensures e.currentPattern.None? ==> r == -1
    ensures e.currentPattern.Some? && e.currentPattern.value < 128 ==> r == e.currentPattern.value
  {
    ToByte(if e.currentPattern.Some? then e.currentPattern.value else -1)
  }

  /** setPattern on an engine at `at` whose catalog is `catalog`: the master
      coordinate is derived from the pattern and the position, never set on
      its own, and it alone decides VALID or INVALID. */
  function SetPattern(e: Engine, at: Pos, catalog: seq<Pattern>, pattern: Option<nat>, pos: Option<Pos>): (r: Engine)
    requires pattern.Some? ==> pattern.value < |catalog|
    ensures r.currentPattern == pattern && r.posInPattern == pos
    ensures r.masterPos.None? <==> pattern.None? || pos.None?
    ensures r.masterPos.Some? ==> r.masterPos.value == catalog[pattern.value].masterPosition(at, pos.value)
    ensures r.state == Valid <==> r.masterPos.Some?
    ensures r.state == Invalid <==> r.masterPos.None?
    ensures r == e.(state := r.state, masterPos := r.masterPos, currentPattern := pattern, posInPattern := pos)
  {
    var master := if pattern.None? || pos.None? then None
                  else Some(catalog[pattern.value].masterPosition(at, pos.value));
    e.(currentPattern := pattern, posInPattern := pos, masterPos := master,
       state := if master.None? then Invalid else Valid)
  }

  /** The condition under which setPattern runs the onPatternChanged hook. */
  predicate PatternChanged(before: Engine, after: Engine)
  {
    before.currentPattern != after.currentPattern
    || before.posInPattern != after.posInPattern
    || before.masterPos != after.masterPos
  }

  /** Assigning the same pattern and position twice is the same as assigning
      them once, and the second assignment does not run the hook. */
  lemma SetPatternIdempotent(e: Engine, at: Pos, catalog: seq<Pattern>, pattern: Option<nat>, pos: Option<Pos>)
    requires pattern.Some? ==> pattern.value < |catalog|
    ensures var once := SetPattern(e, at, catalog, pattern, pos);
            SetPattern(once, at, catalog, pattern, pos) == once
            && !PatternChanged(once, SetPattern(once, at, catalog, pattern, pos))
  {
  }

  /** Only a different pattern, position or master coordinate runs the hook:
      an engine already holding the assignment keeps every field but the state,
      which is made to agree with its master coordinate. */
  lemma SetPatternUnchanged(e: Engine, at: Pos, catalog: seq<Pattern>, pattern: Option<nat>, pos: Option<Pos>)
    requires pattern.Some? ==> pattern.value < |catalog|
    requires !PatternChanged(e, SetPattern(e, at, catalog, pattern, pos))
    ensures SetPattern(e, at, catalog, pattern, pos) == e.(state := if e.masterPos.None? then Invalid else Valid)
  {
  }
}
