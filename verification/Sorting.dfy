// A stable sort, standing for Python's `sorted` and `list.sort`.
module Sorting {
  // `le` orders any two elements, and consistently so.
  ghost predicate TotalPreorder<T(!new)>(le: (T, T) -> bool) {
    && (forall x, y :: le(x, y) || le(y, x))
    && (forall x, y, z :: le(x, y) && le(y, z) ==> le(x, z))
  }

  ghost predicate SortedBy<T>(s: seq<T>, le: (T, T) -> bool) {
    forall i, j :: 0 <= i < j < |s| ==> le(s[i], s[j])
  }

  function Insert<T>(x: T, s: seq<T>, le: (T, T) -> bool): (r: seq<T>)
    ensures multiset(r) == multiset(s) + multiset{x}
  {
    if s == [] then [x]
    else if le(x, s[0]) then [x] + s
    else
      assert s == [s[0]] + s[1..];
      [s[0]] + Insert(x, s[1..], le)
  }

  function Sort<T>(s: seq<T>, le: (T, T) -> bool): (r: seq<T>)
    ensures multiset(r) == multiset(s)
    ensures |r| == |s|
  {
    if s == [] then []
    else
      assert s == [s[0]] + s[1..];
      var r := Insert(s[0], Sort(s[1..], le), le);
      assert |multiset(r)| == |multiset(s)|;
      r
  }

  lemma {:induction false} InsertSorted<T(!new)>(x: T, s: seq<T>, le: (T, T) -> bool)
    requires TotalPreorder(le) && SortedBy(s, le)
    ensures SortedBy(Insert(x, s, le), le)
  {
    if s == [] {
    } else if le(x, s[0]) {
      assert le(s[0], s[0]);
    } else {
      InsertSorted(x, s[1..], le);
      var r := Insert(x, s[1..], le);
      forall y | y in r ensures le(s[0], y) {
        assert y in multiset(r);
        assert le(x, s[0]) || le(s[0], x);
        if y != x {
          assert y in s[1..];
        }
      }
    }
  }

  lemma {:induction false} SortSorted<T(!new)>(s: seq<T>, le: (T, T) -> bool)
    requires TotalPreorder(le)
    ensures SortedBy(Sort(s, le), le)
  {
    if s != [] {
      SortSorted(s[1..], le);
      InsertSorted(s[0], Sort(s[1..], le), le);
    }
  }

  lemma {:induction false} SortedIsFixed<T(!new)>(s: seq<T>, le: (T, T) -> bool)
    requires SortedBy(s, le)
    ensures Sort(s, le) == s
  {
    if s != [] {
      SortedIsFixed(s[1..], le);
      if |s| > 1 { assert le(s[0], s[1]); }
    }
  }

  lemma SameElements<T>(s: seq<T>, t: seq<T>, x: T)
    requires multiset(s) == multiset(t)
    ensures x in s <==> x in t
  {
    assert x in s <==> x in multiset(s);
    assert x in t <==> x in multiset(t);
  }

  // Two sorted arrangements of the same elements can differ only by swapping
  // elements that compare as equal: their first and second elements rank the
  // same, and an unbeaten first element is the same element.
  lemma SortedArrangementsAgree<T(!new)>(s: seq<T>, t: seq<T>, le: (T, T) -> bool)
    requires TotalPreorder(le) && SortedBy(s, le) && SortedBy(t, le)
    requires multiset(s) == multiset(t)
    ensures |s| == |t|
    ensures |s| > 0 ==> le(s[0], t[0]) && le(t[0], s[0])
    ensures |s| > 1 ==> le(s[1], t[1]) && le(t[1], s[1])
    ensures |s| > 0 && (|s| == 1 || !le(s[1], s[0])) ==> s[0] == t[0]
  {
    assert |s| == |multiset(s)| && |t| == |multiset(t)|;
    if |s| > 0 {
      HeadsRankEqually(s, t, le);
      HeadsRankEqually(t, s, le);
    }
    if |s| > 1 {
      SecondBelow(s, t, le);
      SecondBelow(t, s, le);
    }
    if |s| > 0 && s[0] != t[0] {
      SameElements(s, t, t[0]);
      var k :| 0 <= k < |s| && s[k] == t[0];
      assert k != 0;
      assert le(s[1], s[k]) by { if k == 1 { assert le(s[1], s[1]); } }
      assert le(s[1], s[0]);
    }
  }

  lemma HeadsRankEqually<T(!new)>(s: seq<T>, t: seq<T>, le: (T, T) -> bool)
    requires TotalPreorder(le) && SortedBy(s, le)
    requires multiset(s) == multiset(t) && |s| == |t| > 0
    ensures le(s[0], t[0])
  {
    SameElements(s, t, t[0]);
    var k :| 0 <= k < |s| && s[k] == t[0];
    if k == 0 { assert le(s[0], s[0]); }
  }

  lemma SecondBelow<T(!new)>(s: seq<T>, t: seq<T>, le: (T, T) -> bool)
    requires TotalPreorder(le) && SortedBy(s, le) && SortedBy(t, le)
    requires multiset(s) == multiset(t) && |s| == |t| > 1
    ensures le(s[1], t[1])
  {
    // Of t[0] and t[1], both of which occur in s, at least one sits at index
    // 1 or later in s, and t[1] is not below it.
    assert t == [t[0], t[1]] + t[2..];
    assert s == [s[0]] + s[1..];
    assert multiset(s) == multiset{s[0]} + multiset(s[1..]);
    assert multiset(t) == multiset{t[0], t[1]} + multiset(t[2..]);
    assert multiset(s)[t[0]] == multiset{s[0]}[t[0]] + multiset(s[1..])[t[0]];
    assert multiset(s)[t[1]] == multiset{s[0]}[t[1]] + multiset(s[1..])[t[1]];
    assert multiset(t)[t[0]] >= multiset{t[0], t[1]}[t[0]];
    assert t[0] in multiset(s[1..]) || t[1] in multiset(s[1..]) by {
      if t[0] == t[1] { assert multiset{t[0], t[1]}[t[0]] == 2; }
    }
    var y := if t[0] in multiset(s[1..]) then t[0] else t[1];
    assert y in s[1..];
    var k :| 1 <= k < |s| && s[k] == y;
    assert le(s[1], s[k]) by { if k == 1 { assert le(s[1], s[1]); } }
    assert le(y, t[1]) by { assert le(t[1], t[1]); }
  }
}
