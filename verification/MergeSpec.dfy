/** What one pass of utlist.h's bottom-up mergesort does to the list as a sequence of nodes. */
module MergeSpec {
  import opened Chunks

  /** The macros' element: a payload that sorting leaves alone, and the two links it rewrites. */
  class Node<T> {
    const value: T
    var prev: Node?<T>
    var next: Node?<T>

    constructor (value: T)
      ensures this.value == value
    {
      this.value := value;
    }
  }

  ghost predicate TotalPreorder<T(!new)>(cmp: (T, T) -> int) {
    && (forall x, y :: cmp(x, y) <= 0 || cmp(y, x) <= 0)
    && (forall x, y, z :: cmp(x, y) <= 0 && cmp(y, z) <= 0 ==> cmp(x, z) <= 0)
  }

  predicate Sorted<T>(cmp: (T, T) -> int, s: seq<Node<T>>) {
    forall i, j :: 0 <= i < j < |s| ==> cmp(s[i].value, s[j].value) <= 0
  }

  /** The nodes whose payload compares equal to `x`, in list order. */
  function Tied<T>(cmp: (T, T) -> int, x: T, s: seq<Node<T>>): seq<Node<T>> {
    if s == [] then [] else
    (if cmp(x, s[0].value) <= 0 && cmp(s[0].value, x) <= 0 then [s[0]] else []) + Tied(cmp, x, s[1..])
  }

  /** Same nodes, sorted, and nodes that compare equal keep their order. */
  ghost predicate StablySorts<T(!new)>(cmp: (T, T) -> int, s: seq<Node<T>>, r: seq<Node<T>>) {
    Sorted(cmp, r) && multiset(r) == multiset(s) && forall x :: Tied(cmp, x, r) == Tied(cmp, x, s)
  }

  function Merge<T>(cmp: (T, T) -> int, a: seq<Node<T>>, b: seq<Node<T>>): seq<Node<T>>
    decreases |a| + |b|
  {
    if a == [] then b
    else if b == [] then a
    else if cmp(a[0].value, b[0].value) <= 0 then [a[0]] + Merge(cmp, a[1..], b)
    else [b[0]] + Merge(cmp, a, b[1..])
  }

  function Min(x: nat, y: nat): nat {
    if x <= y then x else y
  }

  /** One pass: neighbouring runs of length `k` merged pairwise. */
  function Pass<T>(cmp: (T, T) -> int, s: seq<Node<T>>, k: nat): seq<Node<T>>
    requires k > 0
    decreases |s|
  {
    if s == [] then [] else
    var m, h := Min(k, |s|), Min(2 * k, |s|);
    Merge(cmp, s[..m], s[m..h]) + Pass(cmp, s[h..], k)
  }

  /** How many pairs of runs one pass merges. */
  function Merges(len: nat, k: nat): nat
    requires k > 0
    decreases len
  {
    if len == 0 then 0 else 1 + Merges(len - Min(2 * k, len), k)
  }

  predicate RunsSorted<T>(cmp: (T, T) -> int, s: seq<Node<T>>, k: nat)
    requires k > 0
    decreases |s|
  {
    s == [] || (Sorted(cmp, s[..Min(k, |s|)]) && RunsSorted(cmp, s[Min(k, |s|)..], k))
  }

  lemma MultisetSplit<E>(s: seq<E>, h: nat)
    requires h <= |s|
    ensures multiset(s) == multiset(s[..h]) + multiset(s[h..])
  {
    assert s == s[..h] + s[h..];
  }

  lemma MultisetCons<E>(s: seq<E>, x: E, t: seq<E>)
    requires s == [x] + t
    ensures multiset(s) == multiset{x} + multiset(t) && |s| == 1 + |t|
  {
  }

  lemma {:induction false} MergePermutes<T>(cmp: (T, T) -> int, a: seq<Node<T>>, b: seq<Node<T>>)
    ensures multiset(Merge(cmp, a, b)) == multiset(a) + multiset(b)
    ensures |Merge(cmp, a, b)| == |a| + |b|
    decreases |a| + |b|
  {
    if a != [] && b != [] {
      if cmp(a[0].value, b[0].value) <= 0 {
        MultisetCons(Merge(cmp, a, b), a[0], Merge(cmp, a[1..], b));
        hide Merge;
        MergePermutes(cmp, a[1..], b);
        MultisetCons(a, a[0], a[1..]);
      } else {
        MultisetCons(Merge(cmp, a, b), b[0], Merge(cmp, a, b[1..]));
        hide Merge;
        MergePermutes(cmp, a, b[1..]);
        MultisetCons(b, b[0], b[1..]);
      }
    }
  }

  lemma MergeMembers<T>(cmp: (T, T) -> int, a: seq<Node<T>>, b: seq<Node<T>>, i: nat)
    requires i < |Merge(cmp, a, b)|
    ensures Merge(cmp, a, b)[i] in a || Merge(cmp, a, b)[i] in b
  {
    MergePermutes(cmp, a, b);
    var m := Merge(cmp, a, b);
    assert m[i] in multiset(m);
  }

  lemma {:induction false} MergeSorts<T(!new)>(cmp: (T, T) -> int, a: seq<Node<T>>, b: seq<Node<T>>)
    requires TotalPreorder(cmp) && Sorted(cmp, a) && Sorted(cmp, b)
    ensures Sorted(cmp, Merge(cmp, a, b))
    decreases |a| + |b|
  {
    if a != [] && b != [] {
      if cmp(a[0].value, b[0].value) <= 0 {
        MergeSorts(cmp, a[1..], b);
        SortedCons(cmp, a[0], a[1..], b);
      } else {
        MergeSorts(cmp, a, b[1..]);
        SortedCons(cmp, b[0], a, b[1..]);
      }
    }
  }

  lemma SortedCons<T(!new)>(cmp: (T, T) -> int, x: Node<T>, a: seq<Node<T>>, b: seq<Node<T>>)
    requires TotalPreorder(cmp) && Sorted(cmp, Merge(cmp, a, b))
    requires forall i :: 0 <= i < |a| ==> cmp(x.value, a[i].value) <= 0
    requires forall i :: 0 <= i < |b| ==> cmp(x.value, b[i].value) <= 0
    ensures Sorted(cmp, [x] + Merge(cmp, a, b))
  {
    var m := Merge(cmp, a, b);
    forall i | 0 <= i < |m| ensures cmp(x.value, m[i].value) <= 0 {
      MergeMembers(cmp, a, b, i);
    }
  }

  lemma {:induction false} TiedAppend<T>(cmp: (T, T) -> int, x: T, a: seq<Node<T>>, b: seq<Node<T>>)
    ensures Tied(cmp, x, a + b) == Tied(cmp, x, a) + Tied(cmp, x, b)
    decreases |a|
  {
    if a == [] {
      assert a + b == b;
    } else {
      assert (a + b)[1..] == a[1..] + b && (a + b)[0] == a[0];
      TiedAppend(cmp, x, a[1..], b);
    }
  }

  lemma {:induction false} NoneTied<T>(cmp: (T, T) -> int, x: T, a: seq<Node<T>>)
    requires forall i :: 0 <= i < |a| ==> cmp(a[i].value, x) > 0
    ensures Tied(cmp, x, a) == []
    decreases |a|
  {
    if a != [] { NoneTied(cmp, x, a[1..]); }
  }

  /** Ties take the left run. */
  lemma {:induction false} MergeStable<T(!new)>(cmp: (T, T) -> int, x: T, a: seq<Node<T>>, b: seq<Node<T>>)
    requires TotalPreorder(cmp) && Sorted(cmp, a)
    ensures Tied(cmp, x, Merge(cmp, a, b)) == Tied(cmp, x, a) + Tied(cmp, x, b)
    decreases |a| + |b|
  {
    if a != [] && b != [] {
      if cmp(a[0].value, b[0].value) <= 0 {
        MergeStable(cmp, x, a[1..], b);
        TiedAppend(cmp, x, [a[0]], Merge(cmp, a[1..], b));
      } else {
        MergeStable(cmp, x, a, b[1..]);
        TiedAppend(cmp, x, [b[0]], Merge(cmp, a, b[1..]));
        var y := b[0].value;
        if cmp(x, y) <= 0 && cmp(y, x) <= 0 {
          forall i | 0 <= i < |a| ensures cmp(a[i].value, x) > 0 {
            assert i > 0 ==> cmp(a[0].value, a[i].value) <= 0;
          }
          NoneTied(cmp, x, a);
        }
      }
    }
  }

  lemma {:induction false} PassPermutes<T>(cmp: (T, T) -> int, s: seq<Node<T>>, k: nat)
    requires k > 0
    ensures multiset(Pass(cmp, s, k)) == multiset(s) && |Pass(cmp, s, k)| == |s|
    decreases |s|
  {
    if s != [] {
      var m, h := Min(k, |s|), Min(2 * k, |s|);
      MergePermutes(cmp, s[..m], s[m..h]);
      PassPermutes(cmp, s[h..], k);
      MultisetSplit(s, h);
      MultisetSplit(s[..h], m);
      assert s[..h][..m] == s[..m] && s[..h][m..] == s[m..h];
      hide Merge;
    }
  }

  /** Runs of length k sorted before a pass are runs of length 2k sorted after it. */
  lemma {:induction false} PassDoublesRuns<T(!new)>(cmp: (T, T) -> int, s: seq<Node<T>>, k: nat)
    requires k > 0 && TotalPreorder(cmp) && RunsSorted(cmp, s, k)
    ensures RunsSorted(cmp, Pass(cmp, s, k), 2 * k)
    decreases |s|
  {
    if s != [] {
      var m, h := Min(k, |s|), Min(2 * k, |s|);
      var merged, rest := Merge(cmp, s[..m], s[m..h]), Pass(cmp, s[h..], k);
      SecondRun(cmp, s, k);
      MergePermutes(cmp, s[..m], s[m..h]);
      MergeSorts(cmp, s[..m], s[m..h]);
      PassPermutes(cmp, s[h..], k);
      PassDoublesRuns(cmp, s[h..], k);
      assert |merged| == h && (|rest| == 0 || h == 2 * k);
      assert (merged + rest)[..h] == merged && (merged + rest)[h..] == rest;
    }
  }

  lemma SecondRun<T>(cmp: (T, T) -> int, s: seq<Node<T>>, k: nat)
    requires k > 0 && s != [] && RunsSorted(cmp, s, k)
    ensures var m, h := Min(k, |s|), Min(2 * k, |s|);
            Sorted(cmp, s[..m]) && Sorted(cmp, s[m..h]) && RunsSorted(cmp, s[h..], k)
  {
    var m, h := Min(k, |s|), Min(2 * k, |s|);
    var t := s[m..];
    if t == [] {
      assert s[m..h] == [] && s[h..] == [];
    } else {
      assert t[..Min(k, |t|)] == s[m..h] && t[Min(k, |t|)..] == s[h..];
    }
  }

  lemma TiedSplit<T>(cmp: (T, T) -> int, x: T, s: seq<Node<T>>, m: nat, h: nat)
    requires m <= h <= |s|
    ensures Tied(cmp, x, s) == Tied(cmp, x, s[..m]) + Tied(cmp, x, s[m..h]) + Tied(cmp, x, s[h..])
  {
    hide Tied;
    Rejoin(s, m, h);
    TiedAppend(cmp, x, s[..m], s[m..h]);
    TiedAppend(cmp, x, s[..h], s[h..]);
  }

  lemma Rejoin<E>(s: seq<E>, m: nat, h: nat)
    requires m <= h <= |s|
    ensures s[..m] + s[m..h] == s[..h] && s[..h] + s[h..] == s
  {
  }

  lemma {:induction false} PassStable<T(!new)>(cmp: (T, T) -> int, x: T, s: seq<Node<T>>, k: nat)
    requires k > 0 && TotalPreorder(cmp) && RunsSorted(cmp, s, k)
    ensures Tied(cmp, x, Pass(cmp, s, k)) == Tied(cmp, x, s)
    decreases |s|
  {
    if s != [] {
      var m, h := Min(k, |s|), Min(2 * k, |s|);
      SecondRun(cmp, s, k);
      MergeStable(cmp, x, s[..m], s[m..h]);
      PassStable(cmp, x, s[h..], k);
      TiedAppend(cmp, x, Merge(cmp, s[..m], s[m..h]), Pass(cmp, s[h..], k));
      TiedSplit(cmp, x, s, m, h);
      hide Tied, Merge, RunsSorted, TotalPreorder, Sorted;
    }
  }

  lemma {:induction false} UnitRunsSorted<T>(cmp: (T, T) -> int, s: seq<Node<T>>)
    ensures RunsSorted(cmp, s, 1)
    decreases |s|
  {
    if s != [] { UnitRunsSorted(cmp, s[1..]); }
  }

  /** A pass performs ceil(len / 2k) merges. */
  lemma {:induction false} MergesIsCeiling(len: nat, k: nat)
    requires k > 0
    ensures Merges(len, k) == NumChunks(2 * k, len)
    decreases len
  {
    if len >= 2 * k {
      MergesIsCeiling(len - 2 * k, k);
      DivStep(2 * k, len);
    } else {
      DivZero(2 * k, len);
      DivMod(2 * k, len);
      if len > 0 { assert Merges(0, k) == 0; }
    }
  }

  /** The pass that merges at most one pair sees the whole list as two runs. */
  lemma MergesAtMostOne(len: nat, k: nat)
    requires k > 0
    ensures Merges(len, k) <= 1 <==> len <= 2 * k
  {
    if len > 2 * k { assert Merges(len - 2 * k, k) > 0; }
  }

  lemma {:induction false} OneRunSorted<T>(cmp: (T, T) -> int, s: seq<Node<T>>, k: nat)
    requires k > 0 && |s| <= k && RunsSorted(cmp, s, k)
    ensures Sorted(cmp, s)
  {
    if s != [] { assert s[..Min(k, |s|)] == s; }
  }

  /** A pass keeps a list a stable rearrangement of the original. */
  lemma PassKeepsStable<T(!new)>(cmp: (T, T) -> int, was: seq<Node<T>>, s: seq<Node<T>>, k: nat)
    requires k > 0 && TotalPreorder(cmp) && RunsSorted(cmp, s, k)
    requires multiset(s) == multiset(was) && forall x :: Tied(cmp, x, s) == Tied(cmp, x, was)
    ensures multiset(Pass(cmp, s, k)) == multiset(was)
    ensures forall x :: Tied(cmp, x, Pass(cmp, s, k)) == Tied(cmp, x, was)
  {
    PassPermutes(cmp, s, k);
    forall x ensures Tied(cmp, x, Pass(cmp, s, k)) == Tied(cmp, x, was) {
      PassStable(cmp, x, s, k);
    }
  }

  lemma TiedTail<T>(cmp: (T, T) -> int, x: T, a: seq<Node<T>>, b: seq<Node<T>>)
    requires a != [] && b != [] && a[0] == b[0] && Tied(cmp, x, a) == Tied(cmp, x, b)
    ensures Tied(cmp, x, a[1..]) == Tied(cmp, x, b[1..])
  {
    var head := if cmp(x, a[0].value) <= 0 && cmp(a[0].value, x) <= 0 then [a[0]] else [];
    assert Tied(cmp, x, a)[|head|..] == Tied(cmp, x, a[1..]);
    assert Tied(cmp, x, b)[|head|..] == Tied(cmp, x, b[1..]);
  }

  lemma MultisetTail<T>(a: seq<Node<T>>, b: seq<Node<T>>)
    requires a != [] && b != [] && a[0] == b[0] && multiset(a) == multiset(b)
    ensures var ta: seq<Node<T>>, tb: seq<Node<T>> := a[1..], b[1..]; multiset(ta) == multiset(tb)
  {
    MultisetSplit(a, 1);
    MultisetSplit(b, 1);
    assert a[..1] == b[..1];
    var ta: seq<Node<T>>, tb: seq<Node<T>>, first: seq<Node<T>> := a[1..], b[1..], a[..1];
    assert multiset(ta) == multiset(a) - multiset(first);
    assert multiset(tb) == multiset(b) - multiset(first);
  }

  /** Being sorted and keeping ties in order leaves no choice: two such lists are equal node by node. */
  lemma {:induction false} StableSortUnique<T(!new)>(cmp: (T, T) -> int, a: seq<Node<T>>, b: seq<Node<T>>)
    requires TotalPreorder(cmp) && Sorted(cmp, a) && Sorted(cmp, b)
    requires multiset(a) == multiset(b) && forall x :: Tied(cmp, x, a) == Tied(cmp, x, b)
    ensures a == b
    decreases |a|
  {
    assert |multiset(a)| == |a| && |multiset(b)| == |b|;
    if a != [] {
      FirstAgrees(cmp, a, b);
      MultisetTail(a, b);
      forall x ensures Tied(cmp, x, a[1..]) == Tied(cmp, x, b[1..]) {
        TiedTail(cmp, x, a, b);
      }
      SortedTail(cmp, a);
      SortedTail(cmp, b);
      hide Tied, Sorted;
      StableSortUnique(cmp, a[1..], b[1..]);
      assert a == [a[0]] + a[1..] && b == [b[0]] + b[1..];
    }
  }

  lemma SortedTail<T>(cmp: (T, T) -> int, a: seq<Node<T>>)
    requires Sorted(cmp, a) && a != []
    ensures Sorted(cmp, a[1..])
  {
  }

  lemma FirstAgrees<T(!new)>(cmp: (T, T) -> int, a: seq<Node<T>>, b: seq<Node<T>>)
    requires TotalPreorder(cmp) && Sorted(cmp, a) && Sorted(cmp, b) && a != [] && b != []
    requires multiset(a) == multiset(b) && forall x :: Tied(cmp, x, a) == Tied(cmp, x, b)
    ensures a[0] == b[0]
  {
    var x, y := a[0].value, b[0].value;
    assert b[0] in multiset(a) && a[0] in multiset(b);
    var i :| 0 <= i < |a| && a[i] == b[0];
    var j :| 0 <= j < |b| && b[j] == a[0];
    assert cmp(x, x) <= 0 && cmp(y, y) <= 0;
    assert cmp(x, y) <= 0 && cmp(y, x) <= 0;
    assert Tied(cmp, x, a)[0] == a[0] && Tied(cmp, x, b)[0] == b[0];
  }
}
