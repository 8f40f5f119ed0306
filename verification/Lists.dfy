/** Lists of numbers that stand for nodes, edges or jobs. */
module Lists {
  predicate NoDups(s: seq<nat>) {
    forall i, j :: 0 <= i < j < |s| ==> s[i] != s[j]
  }

  /** The list without every occurrence of `e`. */
  function Without(s: seq<nat>, e: nat): (r: seq<nat>)
    ensures forall x :: x in r <==> x in s && x != e
    ensures NoDups(s) ==> NoDups(r)
  {
    if s == [] then []
    else
      var n := |s| - 1;
      var init, last := s[..n], s[n];
      assert s == init + [last];
      var rest := Without(init, e);
      assert forall i :: 0 <= i < |rest| ==> rest[i] in init;
      assert NoDups(s) ==> NoDups(init) && last !in init;
      if last == e then rest else rest + [last]
  }
}
