/** Lists of numbers without repetition. */
module NumberLists {

  predicate Distinct(s: seq<int>) {
    forall i, j :: 0 <= i < j < |s| ==> s[i] != s[j]
  }

  function Elements(s: seq<int>): set<int> {
    set x | x in s
  }

  lemma {:induction false} DistinctByCount(s: seq<int>)
    ensures |Elements(s)| <= |s|
    ensures |Elements(s)| == |s| <==> Distinct(s)
  {
    if s != [] {
      var k := |s| - 1;
      var front, last := s[..k], s[k];
      DistinctByCount(front);
      assert s == front + [last];
      assert Elements(s) == Elements(front) + {last};
      if last in front {
        assert Elements(s) == Elements(front);
        var i :| 0 <= i < k && s[i] == last;
        assert s[i] == s[k];
      } else {
        assert forall i :: 0 <= i < k ==> front[i] == s[i] && s[i] != last;
      }
    }
  }
}
