/** Types and constants that several parts of the kernel share. */
module Common {
  datatype Option<T> = None | Some(value: T)

  /** A C string without its terminator. */
  type CString = s: seq<char> | '\0' !in s

  const MAXOPBLOCKS: nat := 10   // param.h:10
  const LOGSIZE: nat := 30       // param.h:11

  lemma {:induction false} SubsetSize(a: set<nat>, b: set<nat>)
    requires a <= b
    ensures |a| <= |b|
    decreases |a|
  {
    if a != {} {
      var x :| x in a;
      SubsetSize(a - {x}, b - {x});
    }
  }
}
