/** Types that several parts of the model share. */
module Common {

  datatype Option<+T> = None | Some(value: T)

  type U32 = x: int | 0 <= x < 0x1_0000_0000

  /** `enum file_types` without the unknown type. */
  datatype Kind = Regular | Directory

  ghost function Elems(q: seq<int>): set<int> { set x | x in q }
}
