/** Types and facts that several parts share. */
module Common {
  datatype Option<T> = None | Some(value: T)

  type Byte = x: nat | x < 256

  type Word = x: nat | x < 0x1_0000_0000

  function Elements<T>(s: seq<T>): set<T> {
    set x | x in s
  }

  lemma SubsetSize<T>(a: set<T>, b: set<T>)
    requires a <= b
    ensures |a| <= |b|
  {
    assert b == a + (b - a);
  }
}
