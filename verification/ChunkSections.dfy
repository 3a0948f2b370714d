/**
 * The chunk store: world/chunks.go. Columns hold sections that are decoded on first use and replaced rather
 * than edited, so a snapshot shares them.
 */
module ChunkSections {
  import opened Options

  type i32 = n: int | -0x8000_0000 <= n < 0x8000_0000
  type u32 = n: int | 0 <= n < 0x1_0000_0000

  datatype ChunkPos = ChunkPos(x: i32, z: i32)
  datatype BlockPos = BlockPos(x: i32, y: i32, z: i32)

  // ----- Addresses -----

  /** Arithmetic shift by four: floored division, so a block at -1 is in chunk -1. */
  function ChunkCoord(v: i32): i32 {
    v / 16
  }

  function SectionIndex(y: i32): int {
    y / 16
  }

  function Mod16(v: i32): i32 {
    v % 16
  }

  function ColumnOf(p: BlockPos): ChunkPos {
    ChunkPos(ChunkCoord(p.x), ChunkCoord(p.z))
  }

  /** Where a block lies in its section's list of states. */
  function IndexOf(p: BlockPos): int {
    Mod16(p.y) * 256 + Mod16(p.z) * 16 + Mod16(p.x)
  }

  /** Column, section and index together address one block: no two blocks share them. */
  lemma AddressesDiffer(p: BlockPos, q: BlockPos)
    requires ColumnOf(p) == ColumnOf(q) && SectionIndex(p.y) == SectionIndex(q.y) && IndexOf(p) == IndexOf(q)
    ensures p == q
  {
    SameCoordinate(p.x, q.x);
    SameCoordinate(p.y, q.y);
    SameCoordinate(p.z, q.z);
  }

  /** A coordinate is its chunk and its place in the chunk. */
  lemma SameCoordinate(v: i32, w: i32)
    ensures v / 16 == w / 16 && v % 16 == w % 16 ==> v == w
  {
    assert v == v / 16 * 16 + v % 16 && w == w / 16 * 16 + w % 16;
  }

  // ----- Sections -----

  datatype Decoded = States(states: seq<u32>) | Undecodable

  type Decoder = seq<bv8> -> Decoded

  function DecodeWith(decode: Option<Decoder>, raw: seq<bv8>): Decoded {
    if decode.None? then Undecodable else decode.value(raw)
  }

  function StateIn(d: Decoded, index: int): Option<u32> {
    if d.States? && 0 <= index < |d.states| then Some(d.states[index]) else None
  }

  class Section {
    const y: int
    const raw: seq<bv8>
    const decode: Option<Decoder>
    var decoded: Option<Decoded>
    /** The states this section stands for, from creation on and whatever is cached. */
    ghost const meaning: Decoded

    ghost predicate Valid()
      reads this
    {
      meaning == if decoded.Some? then decoded.value else DecodeWith(decode, raw)
    }

    constructor Received(y: int, raw: seq<bv8>, decode: Option<Decoder>)
      ensures Valid() && this.y == y && meaning == DecodeWith(decode, raw)
    {
      this.y, this.raw, this.decode, decoded := y, raw, decode, None;
      meaning := DecodeWith(decode, raw);
    }

    constructor Replacement(y: int, raw: seq<bv8>, states: seq<u32>)
      ensures Valid() && this.y == y && meaning == States(states)
    {
      this.y, this.raw, this.decode, decoded := y, raw, None, Some(States(states));
      meaning := States(states);
    }

    /** Decodes on first use and caches the result. */
    method Blocks() returns (d: Decoded)
      requires Valid()
      modifies this`decoded
      ensures Valid() && d == meaning
    {
      if decoded.Some? {
        return decoded.value;
      }
      var result := DecodeWith(decode, raw);
      if decoded.None? {
        decoded := Some(result);
      }
      d := decoded.value;
    }

    method Block(index: int) returns (state: Option<u32>)
      requires Valid()
      modifies this`decoded
      ensures Valid() && state == StateIn(meaning, index)
    {
      var d := Blocks();
      state := StateIn(d, index);
    }

    /** A replacement with one block changed, or null when that block cannot be decoded. */
    method WithBlock(index: int, state: u32) returns (next: Section?)
      requires Valid()
      modifies this`decoded
      ensures Valid()
      ensures next == null <==> StateIn(meaning, index).None?
      ensures next != null ==>
                && fresh(next) && next.Valid() && next.y == y
                && forall i :: StateIn(next.meaning, i) == if i == index then Some(state) else StateIn(meaning, i)
    {
      var d := Blocks();
      if d.Undecodable? || !(0 <= index < |d.states|) {
        return null;
      }
      next := new Section.Replacement(y, raw, d.states[index := state]);
    }
  }

  datatype SectionData = SectionData(y: int, raw: seq<bv8>, decode: Option<Decoder>)

  datatype BlockChange = BlockChange(pos: BlockPos, state: u32)

  type Sections = map<int, Section>

  /** A snapshot: the loaded columns' sections, shared with the store. */
  type View = map<ChunkPos, Sections>

  /** The block a view shows, read through what its sections stand for. */
  ghost function Lookup(view: View, p: BlockPos): Option<u32> {
    if ColumnOf(p) in view && SectionIndex(p.y) in view[ColumnOf(p)]
    then StateIn(view[ColumnOf(p)][SectionIndex(p.y)].meaning, IndexOf(p)) else None
  }

  /** The block lies at these offsets in this section of this column. */
  predicate LiesAt(p: BlockPos, pos: ChunkPos, sy: int, x: int, y: int, z: int) {
    && 0 <= x < 16 && 0 <= y < 16 && 0 <= z < 16
    && p.x == 16 * pos.x + x && p.y == 16 * sy + y && p.z == 16 * pos.z + z
  }

  /** A section lists its blocks layer by layer upwards, each layer row by row along z, each row along x. */
  function Entry(states: seq<u32>, x: int, y: int, z: int): Option<u32> {
    var at := (y * 16 + z) * 16 + x;
    if 0 <= at < |states| then Some(states[at]) else None
  }

  lemma AddressOf(p: BlockPos, pos: ChunkPos, sy: int, x: int, y: int, z: int)
    requires LiesAt(p, pos, sy, x, y, z)
    ensures ColumnOf(p) == pos && SectionIndex(p.y) == sy && IndexOf(p) == (y * 16 + z) * 16 + x
  {
  }

  /** Every block lies somewhere. */
  lemma LiesSomewhere(p: BlockPos) returns (pos: ChunkPos, sy: int, x: int, y: int, z: int)
    ensures LiesAt(p, pos, sy, x, y, z)
  {
    pos, sy, x, y, z := ColumnOf(p), SectionIndex(p.y), p.x % 16, p.y % 16, p.z % 16;
  }

  /** What a view shows of a block that lies in one of its sections, or in none of them. */
  ghost predicate Answers(view: View, p: BlockPos, state: Option<u32>) {
    forall pos, sy, x, y, z {:trigger LiesAt(p, pos, sy, x, y, z)} :: LiesAt(p, pos, sy, x, y, z) ==>
      state == if pos in view && sy in view[pos] && view[pos][sy].meaning.States?
               then Entry(view[pos][sy].meaning.states, x, y, z) else None
  }

  lemma LookupAnswers(view: View, p: BlockPos)
    ensures Answers(view, p, Lookup(view, p))
  {
    forall pos, sy, x, y, z | LiesAt(p, pos, sy, x, y, z)
      ensures Lookup(view, p) == if pos in view && sy in view[pos] && view[pos][sy].meaning.States?
                                 then Entry(view[pos][sy].meaning.states, x, y, z) else None
    {
      AddressOf(p, pos, sy, x, y, z);
    }
  }

  /** Every section a snapshot holds is intact. */
  ghost predicate Sound(view: View)
    reads set pos, y | pos in view && y in view[pos] :: view[pos][y]
  {
    forall pos, y :: pos in view && y in view[pos] ==> view[pos][y].y == y && view[pos][y].Valid()
  }

  /** One block of a snapshot, decoding its section if nobody has yet. */
  method BlockIn(view: View, p: BlockPos) returns (state: Option<u32>)
    requires Sound(view)
    modifies set pos, y | pos in view && y in view[pos] :: view[pos][y]`decoded
    ensures Sound(view) && state == Lookup(view, p) && Answers(view, p, state)
  {
    LookupAnswers(view, p);
    if ColumnOf(p) !in view || SectionIndex(p.y) !in view[ColumnOf(p)] {
      return None;
    }
    state := view[ColumnOf(p)][SectionIndex(p.y)].Block(IndexOf(p));
  }
}
