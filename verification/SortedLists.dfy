/** Sorted lists without repetition, as `sorted` of a collection of distinct values gives them. */
module SortedLists {
  predicate StrictlyIncreasing(s: seq<int>) {
    forall i, j :: 0 <= i < j < |s| ==> s[i] < s[j]
  }

  function Insert(x: int, s: seq<int>): seq<int> {
    if s == [] || x < s[0] then [x] + s
    else if x == s[0] then s
    else [s[0]] + Insert(x, s[1..])
  }

  function SortedSet(s: seq<int>): seq<int> {
    if s == [] then [] else Insert(s[0], SortedSet(s[1..]))
  }

  function Position(s: seq<int>, x: int): (i: nat)
    requires x in s
    ensures i < |s| && s[i] == x
  {
    if s[0] == x then 0 else 1 + Position(s[1..], x)
  }

  lemma {:induction false} InsertExact(x: int, s: seq<int>)
    requires StrictlyIncreasing(s)
    ensures StrictlyIncreasing(Insert(x, s))
    ensures forall y :: y in Insert(x, s) <==> y == x || y in s
    ensures |Insert(x, s)| == if x in s then |s| else |s| + 1
  {
    if s == [] || x <= s[0] {
    } else {
      var rest := Insert(x, s[1..]);
      InsertExact(x, s[1..]);
      assert s == [s[0]] + s[1..];
      forall k | 0 <= k < |rest| ensures s[0] < rest[k] {
        assert rest[k] in rest;
      }
    }
  }

  /** Sorting keeps the elements, and keeps their number when none is repeated. */
  lemma {:induction false} SortedSetExact(s: seq<int>)
    ensures StrictlyIncreasing(SortedSet(s))
    ensures forall y :: y in SortedSet(s) <==> y in s
    ensures (forall i, j :: 0 <= i < j < |s| ==> s[i] != s[j]) ==> |SortedSet(s)| == |s|
  {
    if s != [] {
      SortedSetExact(s[1..]);
      InsertExact(s[0], SortedSet(s[1..]));
      assert s == [s[0]] + s[1..];
    }
  }

  /** Two strictly increasing lists with the same elements are the same list. */
  lemma {:induction false} SameElementsSameList(a: seq<int>, b: seq<int>)
    requires StrictlyIncreasing(a) && StrictlyIncreasing(b)
    requires forall y :: y in a <==> y in b
    ensures a == b
  {
    if a == [] && b == [] {
    } else if a == [] {
      HasHead(b);
    } else if b == [] {
      HasHead(a);
    } else {
      HasHead(a);
      HasHead(b);
      Head(a, b);
      Head(b, a);
      forall y ensures y in a[1..] <==> y in b[1..] {
        InTail(a, y);
        InTail(b, y);
      }
      SameElementsSameList(a[1..], b[1..]);
      assert a == [a[0]] + a[1..] && b == [b[0]] + b[1..];
    }
  }

  lemma HasHead(a: seq<int>)
    requires a != []
    ensures a[0] in a
  {
  }

  lemma Head(a: seq<int>, b: seq<int>)
    requires a != [] && StrictlyIncreasing(b) && a[0] in b
    ensures b != [] && b[0] <= a[0]
  {
    var i :| 0 <= i < |b| && b[i] == a[0];
  }

  lemma InTail(a: seq<int>, y: int)
    requires a != [] && StrictlyIncreasing(a)
    ensures y in a[1..] <==> y in a && y != a[0]
  {
    assert a == [a[0]] + a[1..];
  }
}
