/**
 * `list.sort()` on the keys of a dictionary, as `execute_rep` uses it for
 * dates and for task texts: the keys in ascending byte order, each once.
 */
module Sorting {
  import opened PyText

  /** Ascending with no repeats: each element comes before every later one. */
  predicate StrictlySorted(s: seq<string>) {
    forall i, j :: 0 <= i < j < |s| ==> Less(s[i], s[j])
  }

  /** Puts `x` in its place in a sorted sequence that does not hold it yet. */
  function Insert(r: seq<string>, x: string): (r': seq<string>)
    requires StrictlySorted(r) && x !in r
    ensures StrictlySorted(r')
    ensures |r'| == |r| + 1
    ensures forall y :: y in r' <==> y in r || y == x
  {
    if r == [] then [x]
    else if Less(x, r[0]) then
      assert forall j :: 0 < j < |r| ==> Less(x, r[j]) by {
        forall j | 0 < j < |r|
          ensures Less(x, r[j])
        {
          LessTransitive(x, r[0], r[j]);
        }
      }
      [x] + r
    else
      LessTotal(x, r[0]);
      assert forall j :: 0 < j < |r| ==> r[j] in r[1..];
      var rest := Insert(r[1..], x);
      assert forall y :: y in rest ==> Less(r[0], y);
      [r[0]] + rest
  }

  /** The keys of a dictionary listed and sorted, as the report orders its days and tasks: ascending, each once. */
  method SortedKeys(keys: set<string>) returns (r: seq<string>)
    ensures StrictlySorted(r)
    ensures forall x :: x in r <==> x in keys
  {
    r := [];
    var remaining := keys;
    while remaining != {}
      invariant remaining <= keys
      invariant StrictlySorted(r)
      invariant forall x :: x in r <==> x in keys && x !in remaining
      decreases |remaining|
    {
      var x :| x in remaining;
      r := Insert(r, x);
      remaining := remaining - {x};
    }
  }

  lemma HeadIsElement(s: seq<string>)
    ensures s == [] || s[0] in s
  {
  }

  /** A sorted sequence without repeats is fixed by its elements: there is one sorted order. */
  lemma {:induction false} SortedUnique(a: seq<string>, b: seq<string>)
    requires StrictlySorted(a) && StrictlySorted(b)
    requires forall x :: x in a <==> x in b
    ensures a == b
    decreases |a|
  {
    if a == [] {
      HeadIsElement(b);
    } else {
      assert a[0] in b && b != [];
      assert b[0] in b && a == [a[0]] + a[1..] && b == [b[0]] + b[1..];
      if a[0] != b[0] {
        var k :| 0 <= k < |b| && b[k] == a[0];
        var m :| 0 <= m < |a| && a[m] == b[0];
        assert Less(b[0], a[0]);
        assert Less(a[0], b[0]);
        LessAsymmetric(a[0], b[0]);
      }
      forall x
        ensures x in a[1..] <==> x in b[1..]
      {
        if x in a[1..] {
          var i :| 0 <= i < |a[1..]| && a[1..][i] == x;
          assert Less(a[0], x);
          LessIrreflexive(x);
          assert x in b;
          var k :| 0 <= k < |b| && b[k] == x;
          assert k != 0 && b[1..][k - 1] == x;
        }
        if x in b[1..] {
          var i :| 0 <= i < |b[1..]| && b[1..][i] == x;
          assert Less(b[0], x);
          LessIrreflexive(x);
          assert x in a;
          var k :| 0 <= k < |a| && a[k] == x;
          assert k != 0 && a[1..][k - 1] == x;
        }
      }
      SortedUnique(a[1..], b[1..]);
    }
  }
}
