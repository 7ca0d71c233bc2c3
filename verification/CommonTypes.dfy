/** What several components share. */
module CommonTypes {

  datatype Option<+T> = None | Some(value: T)

  const U64_MAX: nat := 0xFFFF_FFFF_FFFF_FFFF

  /** A recorded observation: one value, or a total over several occurrences. */
  datatype Observation =
    | Unsigned(n: nat)
    | Floating(f: real)
    | Repeated(total: real, occurrences: nat)

  lemma {:induction false} Associate<T>(a: seq<T>, b: seq<T>, c: seq<T>)
    ensures a + (b + c) == a + b + c
  {
  }

  /** The first element of a concatenation. */
  lemma {:induction false} FirstOf<T>(a: seq<T>, b: seq<T>)
    requires a != []
    ensures a + b == [a[0]] + (a[1..] + b)
  {
  }
}
