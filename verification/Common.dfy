/** What the other modules share. */
module Common {

  /** A nullable column, an optional field or a value that may be missing. */
  datatype Option<+T> = None | Some(value: T)

  lemma MembersOf<T>(s: seq<T>, m: multiset<T>)
    requires multiset(s) == m
    ensures forall x :: x in s <==> x in m
  {
    forall x
      ensures x in s <==> x in m
    {
      assert x in s <==> x in multiset(s);
    }
  }
}
