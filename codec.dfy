/** The two encodings of an engine's state: the replicated packet sent to
    observers (writePacketData / readPacketData) and the durable snapshot
    saved with the tile (writeToNBT / readFromNBT). The packet is a sequence
    of abstract fields; the snapshot is a compound of named tags. Whatever
    the base class and the functional delegate write is an opaque payload. */
module StructureCodec {
  import opened StructureTypes
  import opened StructureRules

  datatype Failure =
    | Truncated         // the stream ended, or held a field of another kind
    | IndexOutOfBounds  // patterns.get on a position outside the catalog
    | NullPosition      // Objects.requireNonNull(posInPattern) failed

  datatype Result<T> = Ok(value: T) | Err(error: Failure)

  /** One field of the replicated stream. */
  datatype Field = StateField(state: StructureState) | ByteField(b: Byte) | PosField(pos: Pos)

  /** A template assignment carried by a VALID packet. */
  datatype Slot = Slot(pattern: nat, pos: Pos)

  /** What readPacketData takes from the stream before handing the rest to
      the base class and the delegate. */
  datatype Replica = Replica(state: StructureState, slot: Option<Slot>, rest: seq<Field>)

  /** MathHelper.clamp(num, min, max). */
  function Clamp(n: int, lo: int, hi: int): (r: int)
    ensures lo <= hi ==> lo <= r <= hi
    ensures lo <= n <= hi ==> r == n
    ensures n < lo ==> r == lo
    ensures lo <= n && hi < n ==> r == hi
  {
    if n < lo then lo else if n > hi then hi else n
  }

  /** writePacketData: the state, then, only for VALID, the pattern index and
      the position in the pattern, then the payload. A VALID engine without a
      position fails as the source's null check does. */
  function WritePacket(e: Engine, payload: seq<Field>): (r: Result<seq<Field>>)
    ensures r.Err? <==> e.state == Valid && e.posInPattern.None?
    ensures r.Ok? && e.state != Valid ==> r.value == [StateField(e.state)] + payload
    ensures r.Ok? && e.state == Valid ==>
              r.value == [StateField(Valid), ByteField(GetPatternIndex(e)), PosField(e.posInPattern.value)] + payload
  {
    if e.state != Valid then Ok([StateField(e.state)] + payload)
    else if e.posInPattern.None? then Err(NullPosition)
    else Ok([StateField(Valid), ByteField(GetPatternIndex(e)), PosField(e.posInPattern.value)] + payload)
  }

  /** The reading half of readPacketData against a catalog of `size`
      templates: the pattern index is clamped into [0, size-1] rather than
      rejected, and only an empty catalog makes the lookup fail. */
  function ReadPacket(fields: seq<Field>, size: nat): (r: Result<Replica>)
    ensures r.Ok? ==> (r.value.slot.Some? <==> r.value.state == Valid)
    ensures r.Ok? && r.value.slot.Some? ==> r.value.slot.value.pattern < size
    ensures r.Ok? ==> |r.value.rest| < |fields| && r.value.rest == fields[|fields| - |r.value.rest|..]
    ensures r.Ok? ==> fields[0] == StateField(r.value.state)
    ensures r == Err(IndexOutOfBounds) ==> size == 0
  {
    if |fields| == 0 || !fields[0].StateField? then Err(Truncated)
    else if fields[0].state != Valid then Ok(Replica(fields[0].state, None, fields[1..]))
    else if |fields| < 2 || !fields[1].ByteField? then Err(Truncated)
    else
      var index := Clamp(fields[1].b, 0, size - 1);
      if !(0 <= index < size) then Err(IndexOutOfBounds)
      else if |fields| < 3 || !fields[2].PosField? then Err(Truncated)
      else Ok(Replica(Valid, Some(Slot(index, fields[2].pos)), fields[3..]))
  }

  /** A packet written for an engine is read back with its state, and for a
      VALID engine whose index the byte and the observer's catalog can hold,
      with the same pattern index and position; the payload is handed on
      untouched. */
  lemma PacketRoundTrip(e: Engine, payload: seq<Field>, size: nat)
    requires e.state == Valid ==> e.posInPattern.Some? && e.currentPattern.Some?
    requires e.state == Valid ==> e.currentPattern.value < size && e.currentPattern.value < 128
    ensures WritePacket(e, payload).Ok?
    ensures ReadPacket(WritePacket(e, payload).value, size)
            == Ok(Replica(e.state,
                          if e.state == Valid then Some(Slot(e.currentPattern.value, e.posInPattern.value)) else None,
                          payload))
  {
    var fields := WritePacket(e, payload).value;
    if e.state == Valid {
      assert fields[3..] == payload;
    } else {
      assert fields[1..] == payload;
    }
  }

  /** A VALID packet whose index falls outside the observer's non-empty
      catalog is not rejected: a negative index reads as the first template,
      a too large one as the last. */
  lemma PacketIndexClamped(b: Byte, pos: Pos, rest: seq<Field>, size: nat)
    requires size > 0
    ensures var r := ReadPacket([StateField(Valid), ByteField(b), PosField(pos)] + rest, size);
            r.Ok? && r.value.slot.Some?
            && r.value.slot.value.pattern == (if b < 0 then 0 else if b >= size then size - 1 else b)
  {
  }

  /** A named tag of the durable snapshot; the numeric kinds are all read
      through getByte. */
  datatype Tag = ByteTag(b: Byte) | OtherTag

  type Compound = map<string, Tag>

  /** NBTTagCompound.getByte: 0 when the key is missing or not numeric. */
  function GetByte(c: Compound, key: string): (r: Byte)
    ensures key !in c ==> r == 0
  {
    if key in c && c[key].ByteTag? then c[key].b else 0
  }

  function GetBoolean(c: Compound, key: string): bool
  {
    GetByte(c, key) != 0
  }

  /** writeToNBT: the master flag and the byte-narrowed pattern index are put
      over whatever the base class and the delegate wrote into `c`. */
  function WriteToNbt(e: Engine, c: Compound): (r: Compound)
    ensures GetBoolean(r, "master") == e.isMaster
    ensures GetByte(r, "pattern") == GetPatternIndex(e)
    ensures r.Keys == c.Keys + {"master", "pattern"}
    ensures forall k :: k in c && k != "master" && k != "pattern" ==> r[k] == c[k]
  {
    c["master" := ByteTag(if e.isMaster then 1 else 0)]["pattern" := ByteTag(GetPatternIndex(e))]
  }

  /** The pattern readFromNBT leaves on an engine whose pattern was `current`,
      against a catalog of `size` templates: none for a negative index, the
      indexed template when it exists, and otherwise `current`, since the
      failed lookup is swallowed. */
  function PatternFromNbt(c: Compound, size: nat, current: Option<nat>): (r: Option<nat>)
    ensures GetByte(c, "pattern") < 0 ==> r.None?
    ensures 0 <= GetByte(c, "pattern") < size ==> r == Some(GetByte(c, "pattern"))
    ensures size <= GetByte(c, "pattern") ==> r == current
    ensures r.Some? && r != current ==> r.value < size
  {
    var index := GetByte(c, "pattern");
    if index < 0 then None
    else if index < size then Some(index)
    else current
  }

  /** The snapshot written for an engine restores its master flag and, when
      the catalog and the byte can hold its index, its pattern. */
  lemma NbtRoundTrip(e: Engine, c: Compound, size: nat, current: Option<nat>)
    requires e.currentPattern.Some? ==> e.currentPattern.value < size && e.currentPattern.value < 128
    ensures GetBoolean(WriteToNbt(e, c), "master") == e.isMaster
    ensures PatternFromNbt(WriteToNbt(e, c), size, current) == e.currentPattern
  {
  }

  /** A snapshot without a "pattern" tag reads as index 0, so it loads the
      first template of a non-empty catalog. */
  lemma NbtMissingPattern(c: Compound, size: nat, current: Option<nat>)
    requires "pattern" !in c && size > 0
    ensures PatternFromNbt(c, size, current) == Some(0)
  {
  }
}
