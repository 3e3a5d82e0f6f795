/**
 * Python's `list.sort(key=..., reverse=True)`: a stable sort into
 * non-increasing key order, where elements with equal keys keep the order
 * they had in the input. `SortDesc` is the specification (insertion of each
 * element, in input order, after every element whose key is at least its
 * own); `StableSortDescending` computes it with loops.
 */
module StableSort {

  ghost predicate NonIncreasing<T>(s: seq<T>, key: T -> real)
  {
    forall i, j :: 0 <= i < j < |s| ==> key(s[i]) >= key(s[j])
  }

  /** The elements of `s` whose key is exactly `k`, in their order in `s`. */
  function KeyClass<T>(s: seq<T>, key: T -> real, k: real): seq<T>
  {
    if |s| == 0 then []
    else KeyClass(s[..|s| - 1], key, k) + (if key(s[|s| - 1]) == k then [s[|s| - 1]] else [])
  }

  function InsertDesc<T>(t: seq<T>, x: T, key: T -> real): (r: seq<T>)
    ensures |r| == |t| + 1
  {
    if |t| == 0 then [x]
    else if key(t[0]) >= key(x) then [t[0]] + InsertDesc(t[1..], x, key)
    else [x] + t
  }

  lemma {:induction false} InsertDescPermutes<T>(t: seq<T>, x: T, key: T -> real)
    ensures multiset(InsertDesc(t, x, key)) == multiset(t) + multiset{x}
  {
    if |t| > 0 {
      assert t == [t[0]] + t[1..];
      InsertDescPermutes(t[1..], x, key);
    }
  }

  /** Every element of `InsertDesc(t, x, key)` comes from `t` or is `x`. */
  lemma InsertDescMembers<T>(t: seq<T>, x: T, key: T -> real, y: T)
    requires y in InsertDesc(t, x, key)
    ensures y in t || y == x
  {
    InsertDescPermutes(t, x, key);
    assert y in multiset(InsertDesc(t, x, key));
  }

  lemma {:induction false} InsertDescSorted<T>(t: seq<T>, x: T, key: T -> real)
    requires NonIncreasing(t, key)
    ensures NonIncreasing(InsertDesc(t, x, key), key)
  {
    if |t| > 0 && key(t[0]) >= key(x) {
      var rest := InsertDesc(t[1..], x, key);
      InsertDescSorted(t[1..], x, key);
      forall i | 0 <= i < |rest| ensures key(t[0]) >= key(rest[i]) {
        InsertDescMembers(t[1..], x, key, rest[i]);
      }
      assert InsertDesc(t, x, key) == [t[0]] + rest;
    }
  }

  function SortDesc<T>(s: seq<T>, key: T -> real): (r: seq<T>)
    ensures |r| == |s|
  {
    if |s| == 0 then [] else InsertDesc(SortDesc(s[..|s| - 1], key), s[|s| - 1], key)
  }

  lemma {:induction false} SortDescSorted<T>(s: seq<T>, key: T -> real)
    ensures NonIncreasing(SortDesc(s, key), key)
  {
    if |s| > 0 {
      SortDescSorted(s[..|s| - 1], key);
      InsertDescSorted(SortDesc(s[..|s| - 1], key), s[|s| - 1], key);
    }
  }

  lemma {:induction false} SortDescPermutes<T>(s: seq<T>, key: T -> real)
    ensures multiset(SortDesc(s, key)) == multiset(s)
  {
    if |s| > 0 {
      assert s == s[..|s| - 1] + [s[|s| - 1]];
      SortDescPermutes(s[..|s| - 1], key);
      InsertDescPermutes(SortDesc(s[..|s| - 1], key), s[|s| - 1], key);
    }
  }

  lemma {:induction false} KeyClassAppend<T>(a: seq<T>, b: seq<T>, key: T -> real, k: real)
    ensures KeyClass(a + b, key, k) == KeyClass(a, key, k) + KeyClass(b, key, k)
  {
    if |b| == 0 {
      assert a + b == a;
    } else {
      assert (a + b)[..|a + b| - 1] == a + b[..|b| - 1];
      KeyClassAppend(a, b[..|b| - 1], key, k);
    }
  }

  lemma {:induction false} KeyClassSingle<T>(x: T, key: T -> real, k: real)
    ensures KeyClass([x], key, k) == if key(x) == k then [x] else []
  {
    assert [x][..0] == [];
  }

  /** An element none of whose predecessors' keys are below its own is placed after all of them. */
  lemma {:induction false} KeyClassInsert<T>(t: seq<T>, x: T, key: T -> real, k: real)
    requires NonIncreasing(t, key)
    ensures KeyClass(InsertDesc(t, x, key), key, k)
         == KeyClass(t, key, k) + (if key(x) == k then [x] else [])
  {
    KeyClassSingle(x, key, k);
    if |t| == 0 {
    } else if key(t[0]) >= key(x) {
      assert t == [t[0]] + t[1..];
      KeyClassInsert(t[1..], x, key, k);
      KeyClassAppend([t[0]], InsertDesc(t[1..], x, key), key, k);
      KeyClassAppend([t[0]], t[1..], key, k);
    } else {
      // every key in t is at most key(t[0]), below key(x): none equals key(x)
      assert forall i :: 0 <= i < |t| ==> key(t[i]) != key(x);
      KeyClassNone(t, key, key(x));
      KeyClassAppend([x], t, key, k);
    }
  }

  lemma {:induction false} KeyClassNone<T>(t: seq<T>, key: T -> real, k: real)
    requires forall i :: 0 <= i < |t| ==> key(t[i]) != k
    ensures KeyClass(t, key, k) == []
  {
    if |t| > 0 {
      KeyClassNone(t[..|t| - 1], key, k);
    }
  }

  /** Stability: each class of equal keys appears in the output in input order. */
  lemma {:induction false} SortDescStable<T>(s: seq<T>, key: T -> real, k: real)
    ensures KeyClass(SortDesc(s, key), key, k) == KeyClass(s, key, k)
  {
    if |s| > 0 {
      SortDescSorted(s[..|s| - 1], key);
      SortDescStable(s[..|s| - 1], key, k);
      KeyClassInsert(SortDesc(s[..|s| - 1], key), s[|s| - 1], key, k);
    }
  }

  /** Inserting at the first position whose key is below `x`'s is what `InsertDesc` does. */
  lemma {:induction false} InsertDescAt<T>(t: seq<T>, x: T, key: T -> real, j: nat)
    requires j <= |t|
    requires forall m :: 0 <= m < j ==> key(t[m]) >= key(x)
    requires j == |t| || key(t[j]) < key(x)
    ensures InsertDesc(t, x, key) == t[..j] + [x] + t[j..]
  {
    if j == 0 {
      assert t[..0] + [x] + t[0..] == [x] + t;
    } else {
      var tail := t[1..];
      assert forall m :: 0 <= m < j - 1 ==> key(tail[m]) >= key(x) by {
        forall m | 0 <= m < j - 1 ensures key(tail[m]) >= key(x) {
          assert tail[m] == t[m + 1];
        }
      }
      assert j - 1 < |tail| ==> tail[j - 1] == t[j];
      InsertDescAt(tail, x, key, j - 1);
      assert key(t[0]) >= key(x);
      assert InsertDesc(t, x, key) == [t[0]] + InsertDesc(tail, x, key);
      assert t[..j] == [t[0]] + tail[..j - 1];
      assert t[j..] == tail[j - 1..];
      assert [t[0]] + (tail[..j - 1] + [x] + tail[j - 1..]) == ([t[0]] + tail[..j - 1]) + [x] + tail[j - 1..];
    }
  }

  method StableSortDescending<T>(s: seq<T>, key: T -> real) returns (r: seq<T>)
    ensures r == SortDesc(s, key)
  {
    r := [];
    var i := 0;
    while i < |s|
      invariant 0 <= i <= |s|
      invariant r == SortDesc(s[..i], key)
    {
      var x := s[i];
      var j := 0;
      while j < |r| && key(r[j]) >= key(x)
        invariant 0 <= j <= |r|
        invariant forall m :: 0 <= m < j ==> key(r[m]) >= key(x)
      {
        j := j + 1;
      }
      InsertDescAt(r, x, key, j);
      assert s[..i + 1][..i] == s[..i];
      assert SortDesc(s[..i + 1], key) == InsertDesc(r, x, key);
      r := r[..j] + [x] + r[j..];
      i := i + 1;
    }
    assert s[..|s|] == s;
  }
}
