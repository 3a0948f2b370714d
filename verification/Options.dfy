/** Values that may be absent. */
module Options {
  datatype Option<+T> = None | Some(value: T)
}

/** Points in space. */
module Vectors {
  datatype Vec3 = Vec3(x: real, y: real, z: real)
}

/** Choosing from a set that is known not to be empty. */
module Choice {
  method Pick<T>(s: set<T>) returns (x: T)
    requires |s| > 0
    ensures x in s
  {
    x :| x in s;
  }

  ghost function Any<T>(s: set<T>): (x: T)
    requires |s| > 0
    ensures x in s
  {
    var x :| x in s; x
  }
}

/** What one slot or the cursor may hold once a protocol has decoded it. */
module Items {
  import opened Options

  type i8 = n: int | -0x80 <= n < 0x80
  type i16 = n: int | -0x8000 <= n < 0x8000

  /**
   * `Stack` is protocol 47's decoded slot value, where a negative block ID means nothing is held.
   * `Foreign` is anything else a protocol may decode; no code here looks inside it. `nbt` stands for
   * the uninterpreted remainder of a stack.
   */
  datatype Item =
    | Stack(block: i16, count: i8, damage: i16, nbt: int)
    | Foreign(tag: int)

  /** `None` is the nil a described but empty slot holds. */
  type Content = Option<Item>
}
