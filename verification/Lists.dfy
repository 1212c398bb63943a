/** The linked lists of the sources as sequences: no element twice, and taking one out. */
module Lists {

  ghost predicate Distinct<T>(s: seq<T>) {
    forall i, j | 0 <= i < j < |s| :: s[i] != s[j]
  }

  function Without(list: seq<nat>, x: nat): seq<nat> {
    if list == [] then [] else if list[0] == x then list[1..] else [list[0]] + Without(list[1..], x)
  }

  lemma {:induction false} WithoutKeeps(list: seq<nat>, x: nat)
    requires Distinct(list)
    ensures Distinct(Without(list, x)) && forall y :: y in Without(list, x) <==> y in list && y != x
    ensures |Without(list, x)| == |list| - if x in list then 1 else 0
  {
    if list != [] {
      assert forall y :: y in list <==> y == list[0] || y in list[1..];
      assert list[0] !in list[1..];
      if list[0] != x {
        var rest := Without(list[1..], x);
        WithoutKeeps(list[1..], x);
        assert forall y :: y in [list[0]] + rest <==> y == list[0] || y in rest;
        assert forall i | 0 <= i < |rest| :: rest[i] in rest;
      }
    }
  }

  lemma {:induction false} SubsetSize<T>(a: set<T>, b: set<T>)
    requires a <= b
    ensures |a| <= |b|
  {
    if a != {} {
      var x :| x in a;
      SubsetSize(a - {x}, b - {x});
    }
  }
}
