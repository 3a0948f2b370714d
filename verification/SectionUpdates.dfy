/** Protocol 775's packed section update: `sectionChanges775` in internal/adapter/v26_1/reduce.go. */
module SectionUpdates {
  import opened Options
  import opened ChunkSections
  import opened ChunkStore

  /** Go's 32-bit arithmetic wraps. */
  function Wrap32(n: int): i32 {
    (n + 0x8000_0000) % 0x1_0000_0000 - 0x8000_0000
  }

  /** A section's coordinates as they arrive: three signed fields of one packed 64-bit integer. */
  type i22 = n: int | -0x20_0000 <= n < 0x20_0000
  type i20 = n: int | -0x8_0000 <= n < 0x8_0000

  datatype SectionPos = SectionPos(x: i22, y: i20, z: i22)

  /** The first block coordinate of a section: a left shift by four, wrapping. */
  function Origin(v: i22): (o: i32)
    ensures o % 16 == 0 && o / 16 == v
  {
    Wrap32(v * 16)
  }

  /**
   * One packed record: the low twelve bits are the position in the section, four bits each of x, z, y from the
   * top; everything above, shifted down with its sign, is the state.
   */
  function Unpack(section: SectionPos, record: i32): BlockChange {
    var relative := record % 0x1000;
    BlockChange(
      BlockPos(Origin(section.x) + relative / 0x100 % 0x10,
               Origin(section.y) + relative % 0x10,
               Origin(section.z) + relative / 0x10 % 0x10),
      record / 0x1000 % 0x1_0000_0000)
  }

  method SectionChanges(section: SectionPos, records: seq<i32>) returns (changes: seq<BlockChange>)
    ensures |changes| == |records| && forall i :: 0 <= i < |records| ==> changes[i] == Unpack(section, records[i])
  {
    changes := [];
    for i := 0 to |records|
      invariant |changes| == i && forall k :: 0 <= k < i ==> changes[k] == Unpack(section, records[k])
    {
      changes := changes + [Unpack(section, records[i])];
    }
  }

  predicate InSection(p: BlockPos, section: SectionPos) {
    ColumnOf(p) == ChunkPos(section.x, section.z) && SectionIndex(p.y) == section.y
  }

  lemma WithinSection(v: i22, r: int)
    requires 0 <= r < 16
    ensures (Origin(v) + r) / 16 == v && (Origin(v) + r) % 16 == r
  {
  }

  /** Every record lands in the section its packet names, below zero as above. */
  lemma UnpackNamesSection(section: SectionPos, record: i32)
    ensures InSection(Unpack(section, record).pos, section)
    ensures exists x, y, z :: LiesAt(Unpack(section, record).pos, ChunkPos(section.x, section.z), section.y, x, y, z)
  {
    var relative := record % 0x1000;
    WithinSection(section.x, relative / 0x100 % 0x10);
    WithinSection(section.y, relative % 0x10);
    WithinSection(section.z, relative / 0x10 % 0x10);
    assert LiesAt(Unpack(section, record).pos, ChunkPos(section.x, section.z), section.y,
                  relative / 0x100 % 0x10, relative % 0x10, relative / 0x10 % 0x10);
  }

  /**
   * A record is its state and then one hexadecimal digit each of x, z and y: it sets that block of the section to
   * that state, a negative one as the unsigned integer it stands for.
   */
  lemma RecordSays(section: SectionPos, record: i32, state: int, x: int, y: int, z: int)
    requires 0 <= x < 16 && 0 <= y < 16 && 0 <= z < 16 && record == ((state * 16 + x) * 16 + z) * 16 + y
    ensures var change := Unpack(section, record);
            && LiesAt(change.pos, ChunkPos(section.x, section.z), section.y, x, y, z)
            && change.state == if state < 0 then state + 0x1_0000_0000 else state
  {
    assert record % 0x1000 == x * 0x100 + z * 0x10 + y && record / 0x1000 == state;
    UnpackParts(section, record, x, y, z);
    WithinSection(section.x, x);
    WithinSection(section.y, y);
    WithinSection(section.z, z);
  }

  /** The record of a block at these offsets in its section, as the wire's 32-bit integer. */
  function Pack(x: int, y: int, z: int, state: int): i32
    requires 0 <= x < 16 && 0 <= y < 16 && 0 <= z < 16
  {
    Wrap32(state * 0x1000 + x * 0x100 + z * 0x10 + y)
  }

  lemma PackedParts(x: int, y: int, z: int, state: int)
    requires 0 <= x < 16 && 0 <= y < 16 && 0 <= z < 16 && 0 <= state < 0x10_0000
    ensures var record := Pack(x, y, z, state);
            && record % 0x1000 == x * 0x100 + z * 0x10 + y
            && record / 0x1000 == if state < 0x8_0000 then state else state - 0x10_0000
  {
  }

  lemma PartsOf(x: int, y: int, z: int)
    requires 0 <= x < 16 && 0 <= y < 16 && 0 <= z < 16
    ensures var relative := x * 0x100 + z * 0x10 + y;
            relative / 0x100 % 0x10 == x && relative % 0x10 == y && relative / 0x10 % 0x10 == z
  {
  }

  /**
   * Unpacking gives back the packed offsets always, and the packed state exactly when it leaves the record's sign
   * bit clear: a twenty-bit state with its top bit set comes back sign-extended.
   */
  lemma UnpackPackedIff(section: SectionPos, x: int, y: int, z: int, state: int)
    requires 0 <= x < 16 && 0 <= y < 16 && 0 <= z < 16 && 0 <= state < 0x10_0000
    ensures var change := Unpack(section, Pack(x, y, z, state));
            && LiesAt(change.pos, ChunkPos(section.x, section.z), section.y, x, y, z)
            && (change.state == state <==> state < 0x8_0000)
  {
    PackedParts(x, y, z, state);
    UnpackParts(section, Pack(x, y, z, state), x, y, z);
    StateBack(state);
    WithinSection(section.x, x);
    WithinSection(section.y, y);
    WithinSection(section.z, z);
  }

  lemma UnpackParts(section: SectionPos, record: i32, x: int, y: int, z: int)
    requires 0 <= x < 16 && 0 <= y < 16 && 0 <= z < 16 && record % 0x1000 == x * 0x100 + z * 0x10 + y
    ensures Unpack(section, record).pos == BlockPos(Origin(section.x) + x, Origin(section.y) + y, Origin(section.z) + z)
    ensures Unpack(section, record).state == record / 0x1000 % 0x1_0000_0000
  {
    PartsOf(x, y, z);
  }

  /** What the shift makes of a twenty-bit state, as an unsigned 32-bit integer. */
  lemma StateBack(state: int)
    requires 0 <= state < 0x10_0000
    ensures (if state < 0x8_0000 then state else state - 0x10_0000) % 0x1_0000_0000 == state <==> state < 0x8_0000
  {
  }

  /** Such a record: state 0x80000 comes back as 0xFFF80000. */
  lemma SignedState(section: SectionPos)
    ensures Unpack(section, Pack(0, 0, 0, 0x8_0000)).state == 0xFFF8_0000
  {
    PackedParts(0, 0, 0, 0x8_0000);
  }

  /** Applying an unpacked update changes no block outside the section the packet names. */
  lemma {:induction false} UpdateStaysInSection(
    section: SectionPos, records: seq<i32>, changes: seq<BlockChange>, p: BlockPos, before: Option<u32>)
    requires |changes| == |records| && forall i :: 0 <= i < |records| ==> changes[i] == Unpack(section, records[i])
    requires !(&& 16 * section.x <= p.x < 16 * section.x + 16 && 16 * section.y <= p.y < 16 * section.y + 16
               && 16 * section.z <= p.z < 16 * section.z + 16)
    ensures AfterChanges(before, changes, p) == before
  {
    if changes != [] {
      var last := |changes| - 1;
      UnpackNamesSection(section, records[last]);
      UpdateStaysInSection(section, records[..last], changes[..last], p, before);
    }
  }
}
