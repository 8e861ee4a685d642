/**
 * The whitelist array operations of the background worker and the popup:
 * append when absent (`includes` then `push`), delete the first occurrence
 * (`indexOf` then `splice`) and delete every occurrence (`filter`).
 */
module Whitelists {

  /** No domain appears twice. */
  predicate NoDuplicates(l: seq<string>)
  {
    forall i, j :: 0 <= i < j < |l| ==> l[i] != l[j]
  }

  /** `if (!list.includes(d)) list.push(d)`. */
  function AppendIfAbsent(l: seq<string>, d: string): (r: seq<string>)
    ensures d in r
    ensures forall x :: x in r <==> x in l || x == d
    ensures d in l ==> r == l
    ensures d !in l ==> r == l + [d]
  {
    if d in l then l else l + [d]
  }

  /** The position of the first occurrence of `d`, or |l| when there is none (`indexOf`). */
  function FirstIndex(l: seq<string>, d: string): (i: nat)
    ensures i <= |l|
    ensures i < |l| ==> l[i] == d
    ensures forall k :: 0 <= k < i ==> l[k] != d
  {
    if l == [] || l[0] == d then 0 else 1 + FirstIndex(l[1..], d)
  }

  /** `const i = list.indexOf(d); if (i > -1) list.splice(i, 1)`. */
  function RemoveFirst(l: seq<string>, d: string): seq<string>
  {
    var i := FirstIndex(l, d);
    if i < |l| then l[..i] + l[i + 1..] else l
  }

  /** `list.filter(x => x !== d)`. */
  function RemoveAll(l: seq<string>, d: string): (r: seq<string>)
    ensures |r| <= |l|
  {
    if l == [] then []
    else if l[0] == d then RemoveAll(l[1..], d)
    else [l[0]] + RemoveAll(l[1..], d)
  }

  /** Appending when absent keeps a list duplicate-free and is idempotent. */
  lemma {:induction false} AppendIfAbsentKeepsNoDuplicates(l: seq<string>, d: string)
    requires NoDuplicates(l)
    ensures NoDuplicates(AppendIfAbsent(l, d))
    ensures AppendIfAbsent(AppendIfAbsent(l, d), d) == AppendIfAbsent(l, d)
  {
    if d !in l {
      var r := l + [d];
      forall i, j | 0 <= i < j < |r| ensures r[i] != r[j] {
        if j == |l| {
          assert r[i] == l[i];
        }
      }
    }
  }

  /** Deleting the first occurrence removes exactly one copy, or nothing when absent. */
  lemma {:induction false} RemoveFirstCounts(l: seq<string>, d: string)
    ensures d !in l ==> RemoveFirst(l, d) == l
    ensures d in l ==> multiset(RemoveFirst(l, d)) + multiset{d} == multiset(l)
  {
    var i := FirstIndex(l, d);
    if i < |l| {
      var before, after := l[..i], l[i + 1..];
      assert l == before + [d] + after;
      assert RemoveFirst(l, d) == before + after;
      SpliceCounts(before, d, after);
    } else {
      assert d !in l;
    }
  }

  lemma {:induction false} SpliceCounts(before: seq<string>, d: string, after: seq<string>)
    ensures multiset(before + [d] + after) == multiset(before + after) + multiset{d}
  {
    calc {
      multiset(before + [d] + after);
      multiset(before + [d]) + multiset(after);
      multiset(before) + multiset{d} + multiset(after);
      multiset(before + after) + multiset{d};
    }
  }

  /** Deleting at the first occurrence `i` shifts every later element down by one. */
  lemma {:induction false} RemoveFirstShifts(l: seq<string>, d: string)
    requires FirstIndex(l, d) < |l|
    ensures |RemoveFirst(l, d)| == |l| - 1
    ensures forall a :: 0 <= a < |RemoveFirst(l, d)| ==>
      RemoveFirst(l, d)[a] == l[if a < FirstIndex(l, d) then a else a + 1]
  {
  }

  /** On a duplicate-free list, deleting the first occurrence leaves no copy and keeps the list duplicate-free. */
  lemma {:induction false} RemoveFirstFromNoDuplicates(l: seq<string>, d: string)
    requires NoDuplicates(l)
    ensures d !in RemoveFirst(l, d)
    ensures forall x :: x in RemoveFirst(l, d) <==> x in l && x != d
    ensures NoDuplicates(RemoveFirst(l, d))
  {
    RemoveFirstCounts(l, d);
    var r := RemoveFirst(l, d);
    var i := FirstIndex(l, d);
    if i < |l| {
      RemoveFirstShifts(l, d);
      forall a, b | 0 <= a < b < |r| ensures r[a] != r[b] {
        assert r[a] == l[if a < i then a else a + 1];
        assert r[b] == l[if b < i then b else b + 1];
      }
      forall x | x in r ensures x != d {
        var k :| 0 <= k < |r| && r[k] == x;
        assert r[k] == l[if k < i then k else k + 1];
      }
    }
  }

  /** Filtering deletes every copy of `d` and keeps every other element, in order. */
  lemma {:induction false} RemoveAllSpec(l: seq<string>, d: string)
    ensures d !in RemoveAll(l, d)
    ensures forall x :: x != d ==> multiset(RemoveAll(l, d))[x] == multiset(l)[x]
    ensures RemoveAll(RemoveAll(l, d), d) == RemoveAll(l, d)
  {
    if l != [] {
      RemoveAllSpec(l[1..], d);
      assert l == [l[0]] + l[1..];
      if l[0] != d {
        assert RemoveAll(l, d) == [l[0]] + RemoveAll(l[1..], d);
        assert RemoveAll(l, d)[1..] == RemoveAll(l[1..], d);
      }
    }
  }

  /** Filtering keeps every element other than `d`. */
  lemma {:induction false} RemoveAllKeeps(l: seq<string>, d: string, y: string)
    requires y != d && y in l
    ensures y in RemoveAll(l, d)
  {
    if l[0] != y {
      assert y in l[1..];
      RemoveAllKeeps(l[1..], d, y);
    }
  }

  /** Filtering keeps the survivors in their original order: the result is `l` minus the `d`s, written as a subsequence. */
  lemma {:induction false} RemoveAllIsSubsequence(l: seq<string>, d: string, x: string, y: string)
    requires x != d && y != d
    requires exists i, j :: 0 <= i < j < |l| && l[i] == x && l[j] == y
    ensures exists i, j :: 0 <= i < j < |RemoveAll(l, d)| && RemoveAll(l, d)[i] == x && RemoveAll(l, d)[j] == y
  {
    var i, j :| 0 <= i < j < |l| && l[i] == x && l[j] == y;
    var r := RemoveAll(l, d);
    var t := RemoveAll(l[1..], d);
    if i == 0 {
      assert r == [x] + t;
      assert l[1..][j - 1] == y;
      RemoveAllKeeps(l[1..], d, y);
      var k :| 0 <= k < |t| && t[k] == y;
      assert r[0] == x && r[k + 1] == y;
    } else {
      assert l[1..][i - 1] == x && l[1..][j - 1] == y;
      RemoveAllIsSubsequence(l[1..], d, x, y);
      var a, b :| 0 <= a < b < |t| && t[a] == x && t[b] == y;
      if l[0] == d {
        assert r == t;
      } else {
        assert r == [l[0]] + t;
        assert r[a + 1] == x && r[b + 1] == y;
      }
    }
  }
}
