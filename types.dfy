/** Values shared by the structure engine: grid coordinates, the engine's
    validity states, a template's verdicts, templates and the per-node
    engine record. */
module StructureTypes {

  datatype Option<T> = None | Some(value: T)

  /** A grid coordinate (a BlockPos). */
  datatype Pos = Pos(x: int, y: int, z: int)

  function Add(a: Pos, b: Pos): Pos { Pos(a.x + b.x, a.y + b.y, a.z + b.z) }

  function Sub(a: Pos, b: Pos): Pos { Pos(a.x - b.x, a.y - b.y, a.z - b.z) }

  function Abs(n: int): nat { if n < 0 then -n else n }

  /** Number of axis steps between two coordinates. */
  function Dist(a: Pos, b: Pos): nat { Abs(a.x - b.x) + Abs(a.y - b.y) + Abs(a.z - b.z) }

  /** The six axis directions, in the order EnumFacing.VALUES lists them:
      down, up, north, south, west, east. */
  const Sides: seq<Pos> :=
    [Pos(0, -1, 0), Pos(0, 1, 0), Pos(0, 0, -1), Pos(0, 0, 1), Pos(-1, 0, 0), Pos(1, 0, 0)]

  /** StructureLogic.StructureState. */
  datatype StructureState = Valid | Invalid | Unknown | Untested

  /** MultiBlockPattern.State, the verdict of testing one template:
      VALID, INVALID and NOT_LOADED. */
  datatype Verdict = Matches | Mismatch | NotLoaded

  /** A template (MultiBlockPattern). Its marker map, its master-position rule
      and its master-position test are not part of this model; they are kept
      as uninterpreted function fields. */
  datatype Pattern = Pattern(
    widthX: nat,
    height: nat,
    widthZ: nat,
    marker: Pos -> char,
    masterOffset: Pos,
    masterPosition: (Pos, Pos) -> Pos,  // getMasterPosition(ownPos, posInPattern)
    isMasterPosition: Pos -> bool)

  /** The fields of one StructureLogic. The engine's own coordinate is the key
      under which the arena stores it. `currentPattern` is an index into the
      catalog of the engine's structure key; `tileInvalid` is the owning
      tile's isInvalid(). */
  datatype Engine = Engine(
    key: string,
    tileInvalid: bool,
    state: StructureState,
    isMaster: bool,
    masterPos: Option<Pos>,
    currentPattern: Option<nat>,
    posInPattern: Option<Pos>,
    patternStates: map<Verdict, seq<nat>>,
    components: seq<Pos>,
    requestPacket: bool)
}
