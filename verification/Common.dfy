/** Machine integers and the option type shared by every component of the model. */
module Common {

  newtype u16 = x: int | 0 <= x < 0x1_0000
  newtype u32 = x: int | 0 <= x < 0x1_0000_0000
  newtype u64 = x: int | 0 <= x < 0x1_0000_0000_0000_0000

  datatype Option<+T> = None | Some(value: T)

  /** No two positions of `s` hold the same value. */
  ghost predicate NoDuplicates<T>(s: seq<T>) {
    forall i, j :: 0 <= i < j < |s| ==> s[i] != s[j]
  }

  /** The elements of a sequence. */
  function Elements<T>(s: seq<T>): set<T> {
    set x | x in s
  }

  /** Some order of a set's elements, as a hash table's iteration gives one. */
  method ListOf<T(==)>(s: set<T>) returns (order: seq<T>)
    ensures Elements(order) == s && NoDuplicates(order)
  {
    order := [];
    var left := s;
    while left != {}
      invariant left <= s
      invariant Elements(order) == s - left && NoDuplicates(order)
    {
      var x :| x in left;
      assert x !in order by { assert x !in Elements(order); }
      assert Elements(order + [x]) == Elements(order) + {x};
      left, order := left - {x}, order + [x];
    }
  }
}
