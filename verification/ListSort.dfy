/** DL_SORT2 and CDL_SORT2 of libs/utlist.h on heap nodes. The two macros differ only in the value that
    ends the list (NULL, or the old head) and in the link the last node gets. */
module ListSort {
  import opened MergeSpec

  ghost predicate Distinct<T>(s: seq<Node<T>>) {
    forall i, j :: 0 <= i < j < |s| ==> s[i] != s[j]
  }

  /** The node at a position, NULL behind the last one. */
  function NodeAt<T>(s: seq<Node<T>>, i: nat): Node?<T> {
    if i < |s| then s[i] else null
  }

  /** What the next link of position `i` holds in a list that ends with `end`. */
  function Succ<T>(s: seq<Node<T>>, i: nat, end: Node?<T>): Node?<T> {
    if i + 1 < |s| then s[i + 1] else end
  }

  function Pred<T>(s: seq<Node<T>>, i: nat, before: Node?<T>): Node?<T>
    requires i <= |s|
  {
    if i == 0 then before else s[i - 1]
  }

  ghost predicate NextIntact<T>(s: seq<Node<T>>, from: nat, to: nat, end: Node?<T>)
    reads s
  {
    forall i {:trigger s[i].next} :: from <= i < to && i < |s| ==> s[i].next == Succ(s, i, end)
  }

  /** The list built so far: forward links inside it, prev links all the way, NULL before its head. */
  ghost predicate Built<T>(list: Node?<T>, tail: Node?<T>, out: seq<Node<T>>)
    reads out
  {
    && Distinct(out)
    && list == (if out == [] then null else out[0])
    && tail == (if out == [] then null else out[|out| - 1])
    && (forall i {:trigger out[i].next} :: 0 <= i < |out| - 1 ==> out[i].next == Succ(out, i, null))
    && (forall i {:trigger out[i].prev} :: 0 <= i < |out| ==> out[i].prev == Pred(out, i, null))
  }

  ghost predicate Within<T>(out: seq<Node<T>>, s: seq<Node<T>>) {
    forall a :: 0 <= a < |out| ==> out[a] in s
  }

  /** No node of the output is among these positions of the input. */
  ghost predicate Apart<T>(out: seq<Node<T>>, s: seq<Node<T>>, from: nat, to: nat) {
    forall a, i :: 0 <= a < |out| && from <= i < to && i < |s| ==> out[a] != s[i]
  }

  /** A doubly linked list ends with NULL, a circular one with its own head. */
  ghost predicate Linked<T>(head: Node?<T>, s: seq<Node<T>>, end: Node?<T>)
    reads s
  {
    && Distinct(s)
    && head == NodeAt(s, 0)
    && NextIntact(s, 0, |s|, end)
    && (forall i {:trigger s[i].prev} :: 0 <= i < |s| ==> s[i].prev == Pred(s, i, s[|s| - 1]))
  }

  ghost predicate Doubly<T>(head: Node?<T>, s: seq<Node<T>>)
    reads s
  {
    Linked(head, s, null)
  }

  ghost predicate Circular<T>(head: Node?<T>, s: seq<Node<T>>)
    reads s
  {
    Linked(head, s, head)
  }

  /** `q = q->next`, which CDL_SORT turns into NULL on meeting the old head. */
  method Advance<T>(q: Node<T>, oldHead: Node?<T>) returns (r: Node?<T>)
    ensures r == if q.next == oldHead then null else q.next
  {
    r := q.next;
    if r == oldHead { r := null; }
  }

  lemma AdvanceIs<T>(s: seq<Node<T>>, i: nat, oldHead: Node?<T>)
    requires Distinct(s) && i < |s| && (oldHead == null || oldHead == s[0])
    requires s[i].next == Succ(s, i, oldHead)
    ensures NodeAt(s, i + 1) == if s[i].next == oldHead then null else s[i].next
  {
  }

  /** The for loop that finds the end of the left run. */
  method LeftRun<T>(p: Node<T>, insize: nat, oldHead: Node?<T>, ghost s: seq<Node<T>>, ghost i: nat)
    returns (q: Node?<T>, psize: nat)
    requires insize > 0 && Distinct(s) && i < |s| && p == s[i] && (oldHead == null || oldHead == s[0])
    requires NextIntact(s, i, |s|, oldHead)
    ensures psize == Min(insize, |s| - i) && q == NodeAt(s, i + psize)
  {
    q, psize := p, 0;
    while psize < insize
      invariant psize <= insize && i + psize < |s| && q == s[i + psize]
    {
      AdvanceIs(s, i + psize, oldHead);
      psize := psize + 1;
      q := Advance(q, oldHead);
      if q == null { return; }
    }
  }

  lemma ApartGrows<T>(out: seq<Node<T>>, s: seq<Node<T>>, k: nat, from: nat, to: nat)
    requires Distinct(s) && Apart(out, s, from, to) && k < |s| && !(from <= k < to)
    ensures Apart(out + [s[k]], s, from, to)
  {
  }

  lemma MergeLeft<T>(cmp: (T, T) -> int, s: seq<Node<T>>, i: nat, mid: nat, j: nat, h: nat)
    requires i < mid <= j <= h <= |s| && (j == h || cmp(s[i].value, s[j].value) <= 0)
    ensures Merge(cmp, s[i..mid], s[j..h]) == [s[i]] + Merge(cmp, s[i + 1..mid], s[j..h])
  {
    assert s[i..mid] == [s[i]] + s[i + 1..mid];
  }

  lemma MergeRight<T>(cmp: (T, T) -> int, s: seq<Node<T>>, i: nat, mid: nat, j: nat, h: nat)
    requires i <= mid <= j < h <= |s| && (i == mid || cmp(s[i].value, s[j].value) > 0)
    ensures Merge(cmp, s[i..mid], s[j..h]) == [s[j]] + Merge(cmp, s[i..mid], s[j + 1..h])
  {
    assert s[j..h] == [s[j]] + s[j + 1..h];
  }

  lemma ApartAt<T>(out: seq<Node<T>>, s: seq<Node<T>>, from: nat, to: nat, k: nat)
    requires Apart(out, s, from, to) && from <= k < to && k < |s|
    ensures s[k] !in out
  {
  }

  lemma AdvanceWithin<T>(s: seq<Node<T>>, from: nat, to: nat, k: nat, oldHead: Node?<T>)
    requires Distinct(s) && NextIntact(s, from, to, oldHead) && from <= k < to && k < |s|
    requires oldHead == null || oldHead == s[0]
    ensures NodeAt(s, k + 1) == if s[k].next == oldHead then null else s[k].next
  {
    AdvanceIs(s, k, oldHead);
  }

  /** The tail of the inner loop: link `e`, the node at position `k`, behind the list built so far. The
      input positions still to come, [i, mid) and [j, |s|), keep their next links. */
  method Emit<T>(list: Node?<T>, tail: Node?<T>, e: Node<T>, oldHead: Node?<T>,
                 ghost s: seq<Node<T>>, ghost out: seq<Node<T>>, ghost k: nat,
                 ghost i: nat, ghost mid: nat, ghost j: nat)
    returns (list': Node?<T>, tail': Node?<T>)
    requires Distinct(s) && k < |s| && e == s[k] && k < j && !(i <= k < mid)
    requires Built(list, tail, out) && e !in out
    requires NextIntact(s, i, mid, oldHead) && NextIntact(s, j, |s|, oldHead)
    requires Apart(out, s, i, mid) && Apart(out, s, j, |s|)
    modifies (if tail == null then {} else {tail})`next, e`prev
    ensures Built(list', tail', out + [e])
    ensures NextIntact(s, i, mid, oldHead) && NextIntact(s, j, |s|, oldHead)
    ensures Apart(out + [e], s, i, mid) && Apart(out + [e], s, j, |s|)
  {
    ApartGrows(out, s, k, i, mid);
    ApartGrows(out, s, k, j, |s|);
    list', tail' := LinkBehind(list, tail, e, out);
  }

  method LinkBehind<T>(list: Node?<T>, tail: Node?<T>, e: Node<T>, ghost out: seq<Node<T>>)
    returns (list': Node?<T>, tail': Node?<T>)
    requires Built(list, tail, out) && e !in out
    modifies (if tail == null then {} else {tail})`next, e`prev
    ensures Built(list', tail', out + [e])
  {
    ghost var longer := out + [e];
    assert forall i :: 0 <= i < |out| ==> longer[i] == out[i] && out[i] != e;
    list' := list;
    if tail != null { tail.next := e; } else { list' := e; }
    e.prev := tail;
    tail' := e;
    assert forall i :: 0 <= i < |out| ==> Pred(longer, i, null) == Pred(out, i, null);
    assert forall i :: 0 <= i < |out| - 1 ==> Succ(longer, i, null) == Succ(out, i, null);
  }

  /** The inner loop: the left run from position `i` and the run behind it become one run at the end of
      the list built so far; ties take the left run. */
  method MergeRuns<T>(cmp: (T, T) -> int, list0: Node?<T>, tail0: Node?<T>, p0: Node<T>, psize0: nat, q0: Node?<T>,
                      insize: nat, oldHead: Node?<T>, ghost s: seq<Node<T>>, ghost out0: seq<Node<T>>, ghost i: nat)
    returns (list: Node?<T>, tail: Node?<T>, q: Node?<T>, ghost out: seq<Node<T>>)
    requires insize > 0 && Distinct(s) && i < |s| && (oldHead == null || oldHead == s[0])
    requires p0 == s[i] && psize0 == Min(insize, |s| - i) && q0 == NodeAt(s, i + psize0)
    requires NextIntact(s, i, |s|, oldHead)
    requires Built(list0, tail0, out0) && Apart(out0, s, i, |s|) && Within(out0, s)
    modifies s`next, s`prev
    ensures var mid, h := Min(insize, |s| - i) + i, Min(2 * insize, |s| - i) + i;
            && q == NodeAt(s, h)
            && out == out0 + Merge(cmp, s[i..mid], s[mid..h])
            && NextIntact(s, h, |s|, oldHead)
            && Built(list, tail, out) && Apart(out, s, h, |s|) && Within(out, s)
  {
    hide Merge, Built, Apart, NextIntact, Distinct, Within;
    list, tail, q, out := list0, tail0, q0, out0;
    var p: Node?<T>, psize, qsize := p0, psize0, insize;
    ghost var mid, h := Min(insize, |s| - i) + i, Min(2 * insize, |s| - i) + i;
    ghost var pi, qj := i, mid;
    SplitRest(s, out, i, mid, oldHead);
    while psize > 0 || (qsize > 0 && q != null)
      invariant i <= pi <= mid <= qj <= h
      invariant psize == mid - pi && qsize == insize - (qj - mid)
      invariant (psize > 0 ==> p == s[pi]) && q == NodeAt(s, qj)
      invariant out + Merge(cmp, s[pi..mid], s[qj..h]) == out0 + Merge(cmp, s[i..mid], s[mid..h])
      invariant NextIntact(s, pi, mid, oldHead) && NextIntact(s, qj, |s|, oldHead)
      invariant Apart(out, s, pi, mid) && Apart(out, s, qj, |s|)
      invariant Built(list, tail, out)
      invariant Within(out, s)
      decreases mid - pi + h - qj
    {
      var right := if psize == 0 then true else if qsize == 0 || q == null then false else cmp(p.value, q.value) > 0;
      var e: Node<T>;
      ghost var k := if right then qj else pi;
      if right {
        MergeRight(cmp, s, pi, mid, qj, h);
        ApartAt(out, s, qj, |s|, k);
        AdvanceWithin(s, qj, |s|, k, oldHead);
        e := q;
        q := Advance(q, oldHead);
        qsize, qj := qsize - 1, qj + 1;
      } else {
        MergeLeft(cmp, s, pi, mid, qj, h);
        ApartAt(out, s, pi, mid, k);
        AdvanceWithin(s, pi, mid, k, oldHead);
        e := p;
        p := Advance(p, oldHead);
        psize, pi := psize - 1, pi + 1;
      }
      RestNarrows(s, out, pi, mid, qj, k, oldHead);
      TailWithin(list, tail, out, s, k);
      list, tail := Emit(list, tail, e, oldHead, s, out, k, pi, mid, qj);
      Regroup(out, [e], Merge(cmp, s[pi..mid], s[qj..h]));
      out := out + [e];
    }
    assert s[pi..mid] == [] && s[qj..h] == [];
    MergeNothing(cmp, s[pi..mid], s[qj..h]);
  }

  lemma MergeNothing<T>(cmp: (T, T) -> int, a: seq<Node<T>>, b: seq<Node<T>>)
    requires a == [] && b == []
    ensures Merge(cmp, a, b) == []
  {
  }

  lemma TailWithin<T>(list: Node?<T>, tail: Node?<T>, out: seq<Node<T>>, s: seq<Node<T>>, k: nat)
    requires Built(list, tail, out) && Within(out, s) && k < |s|
    ensures tail != null ==> tail in s
    ensures Within(out + [s[k]], s)
  {
  }

  lemma Regroup<E>(a: seq<E>, b: seq<E>, c: seq<E>)
    ensures a + b + c == a + (b + c)
  {
  }

  lemma SplitRest<T>(s: seq<Node<T>>, out: seq<Node<T>>, i: nat, mid: nat, oldHead: Node?<T>)
    requires i <= mid <= |s| && NextIntact(s, i, |s|, oldHead) && Apart(out, s, i, |s|)
    ensures NextIntact(s, i, mid, oldHead) && NextIntact(s, mid, |s|, oldHead)
    ensures Apart(out, s, i, mid) && Apart(out, s, mid, |s|)
  {
  }

  /** Taking the node at position `k` from one of the two runs. */
  lemma RestNarrows<T>(s: seq<Node<T>>, out: seq<Node<T>>, i: nat, mid: nat, j: nat, k: nat, oldHead: Node?<T>)
    requires (k + 1 == i <= mid && NextIntact(s, k, mid, oldHead) && Apart(out, s, k, mid)
              && NextIntact(s, j, |s|, oldHead) && Apart(out, s, j, |s|))
          || (k + 1 == j && NextIntact(s, i, mid, oldHead) && Apart(out, s, i, mid)
              && NextIntact(s, k, |s|, oldHead) && Apart(out, s, k, |s|))
    ensures NextIntact(s, i, mid, oldHead) && NextIntact(s, j, |s|, oldHead)
    ensures Apart(out, s, i, mid) && Apart(out, s, j, |s|)
  {
  }

  /** One round of the outer loop over the whole list, up to the links of its two ends. */
  method SortPass<T>(cmp: (T, T) -> int, head: Node<T>, insize: nat, oldHead: Node?<T>, ghost s: seq<Node<T>>)
    returns (list: Node?<T>, tail: Node?<T>, nmerges: nat)
    requires insize > 0 && Distinct(s) && s != [] && head == s[0] && (oldHead == null || oldHead == head)
    requires NextIntact(s, 0, |s|, oldHead)
    modifies s`next, s`prev
    ensures Built(list, tail, Pass(cmp, s, insize))
    ensures nmerges == Merges(|s|, insize)
  {
    hide Merge, Built, Apart, NextIntact, Distinct, Merges, Within, Pass;
    var p: Node?<T> := head;
    list, tail, nmerges := null, null, 0;
    ghost var out: seq<Node<T>>, i := [], 0;
    Nothing(s);
    assert s[0..] == s;
    while p != null
      invariant i <= |s| && p == NodeAt(s, i)
      invariant NextIntact(s, i, |s|, oldHead)
      invariant Built(list, tail, out) && Apart(out, s, i, |s|) && Within(out, s)
      invariant out + Pass(cmp, s[i..], insize) == Pass(cmp, s, insize)
      invariant nmerges + Merges(|s| - i, insize) == Merges(|s|, insize)
      decreases |s| - i
    {
      nmerges := nmerges + 1;
      ghost var mid, h := Min(insize, |s| - i) + i, Min(2 * insize, |s| - i) + i;
      PassStep(cmp, s, i, mid, h, insize);
      var q, psize := LeftRun(p, insize, oldHead, s, i);
      ghost var merged := Merge(cmp, s[i..mid], s[mid..h]);
      Regroup(out, merged, Pass(cmp, s[h..], insize));
      list, tail, q, out := MergeRuns(cmp, list, tail, p, psize, q, insize, oldHead, s, out, i);
      p, i := q, h;
    }
    assert s[i..] == [] && out + [] == out;
    PassNothing(cmp, s[i..], insize);
  }

  lemma PassNothing<T>(cmp: (T, T) -> int, s: seq<Node<T>>, k: nat)
    requires k > 0 && s == []
    ensures Pass(cmp, s, k) == [] && Merges(0, k) == 0
  {
  }

  lemma Nothing<T>(s: seq<Node<T>>)
    ensures var none: seq<Node<T>> := []; Built(null, null, none) && Apart(none, s, 0, |s|) && Within(none, s)
  {
  }

  lemma SubSlices<E>(s: seq<E>, i: nat, m: nat, h: nat)
    requires m <= h && i + h <= |s|
    ensures s[i..][..m] == s[i..i + m] && s[i..][m..h] == s[i + m..i + h] && s[i..][h..] == s[i + h..]
  {
  }

  lemma PassStep<T>(cmp: (T, T) -> int, s: seq<Node<T>>, i: nat, mid: nat, h: nat, k: nat)
    requires i < |s| && k > 0 && mid == Min(k, |s| - i) + i && h == Min(2 * k, |s| - i) + i
    ensures Pass(cmp, s[i..], k) == Merge(cmp, s[i..mid], s[mid..h]) + Pass(cmp, s[h..], k)
    ensures Merges(|s| - i, k) == 1 + Merges(|s| - h, k)
  {
    hide Merge, Pass, Merges;
    var t := s[i..];
    PassUnfolds(cmp, t, k);
    SubSlices(s, i, mid - i, h - i);
    assert Min(k, |t|) == mid - i && Min(2 * k, |t|) == h - i;
  }

  lemma PassUnfolds<T>(cmp: (T, T) -> int, t: seq<Node<T>>, k: nat)
    requires t != [] && k > 0
    ensures var m, h := Min(k, |t|), Min(2 * k, |t|);
            && Pass(cmp, t, k) == Merge(cmp, t[..m], t[m..h]) + Pass(cmp, t[h..], k)
            && Merges(|t|, k) == 1 + Merges(|t| - h, k)
  {
    hide Merge;
  }

  /** A pass leaves a nonempty list properly closed once its two ends are linked. */
  method Close<T>(list: Node<T>, tail: Node<T>, circular: bool, ghost out: seq<Node<T>>)
    requires out != [] && Built(list, tail, out)
    modifies list`prev, tail`next
    ensures Linked(list, out, if circular then list else null)
  {
    list.prev := tail;
    tail.next := if circular then list else null;
    assert forall i :: 0 < i < |out| ==> out[i] != list && Pred(out, i, null) == Pred(out, i, tail);
    assert forall i :: 0 <= i < |out| - 1 ==> out[i] != tail;
  }

  method RunPass<T>(cmp: (T, T) -> int, head: Node<T>, insize: nat, circular: bool, ghost r: seq<Node<T>>)
    returns (list: Node<T>, nmerges: nat)
    requires insize > 0 && r != [] && Linked(head, r, if circular then head else null)
    modifies r`next, r`prev
    ensures Pass(cmp, r, insize) != [] && Linked(list, Pass(cmp, r, insize), if circular then list else null)
    ensures nmerges == Merges(|r|, insize)
  {
    var first, tail;
    first, tail, nmerges := SortPass(cmp, head, insize, if circular then head else null, r);
    PassPermutes(cmp, r, insize);
    SetOf(Pass(cmp, r, insize), r);
    list := first;
    Close(list, tail, circular, Pass(cmp, r, insize));
  }

  /** Same nodes, and nodes that compare equal in the same order. */
  ghost predicate Arranged<T(!new)>(cmp: (T, T) -> int, s: seq<Node<T>>, r: seq<Node<T>>) {
    multiset(r) == multiset(s) && forall x :: Tied(cmp, x, r) == Tied(cmp, x, s)
  }

  /** What one pass adds: runs twice as long, and a sorted list if it merged at most one pair. */
  lemma PassAdds<T(!new)>(cmp: (T, T) -> int, s: seq<Node<T>>, r: seq<Node<T>>, k: nat)
    requires k > 0 && TotalPreorder(cmp) && Arranged(cmp, s, r) && RunsSorted(cmp, r, k)
    ensures Arranged(cmp, s, Pass(cmp, r, k)) && RunsSorted(cmp, Pass(cmp, r, k), 2 * k)
    ensures Within(Pass(cmp, r, k), s)
    ensures if Merges(|r|, k) <= 1 then Sorted(cmp, Pass(cmp, r, k)) else 2 * k < |s|
  {
    PassKeepsStable(cmp, s, r, k);
    PassDoublesRuns(cmp, r, k);
    MergesAtMostOne(|r|, k);
    SetOf(r, s);
    SetOf(Pass(cmp, r, k), s);
    if |r| <= 2 * k { OneRunSorted(cmp, Pass(cmp, r, k), 2 * k); }
  }

  /** What holds before every pass. */
  ghost predicate BeforePass<T(!new)>(cmp: (T, T) -> int, head: Node?<T>, circular: bool, s: seq<Node<T>>,
                                      r: seq<Node<T>>, insize: nat)
    reads r
  {
    && insize > 0 && r != [] && head != null && Linked(head, r, if circular then head else null)
    && TotalPreorder(cmp) && RunsSorted(cmp, r, insize) && Arranged(cmp, s, r) && Within(r, s)
  }

  method Round<T(!new)>(cmp: (T, T) -> int, head: Node<T>, circular: bool, insize: nat,
                        ghost s: seq<Node<T>>, ghost r: seq<Node<T>>)
    returns (list: Node<T>, nmerges: nat, ghost out: seq<Node<T>>)
    requires BeforePass(cmp, head, circular, s, r, insize)
    modifies s`next, s`prev
    ensures BeforePass(cmp, list, circular, s, out, 2 * insize)
    ensures if nmerges <= 1 then Sorted(cmp, out) else 2 * insize < |s|
  {
    PassAdds(cmp, s, r, insize);
    hide Linked, Pass, RunsSorted, Arranged, Sorted, Merges, TotalPreorder;
    list, nmerges := RunPass(cmp, head, insize, circular, r);
    out := Pass(cmp, r, insize);
  }

  /** The macros: passes of doubling run length until one pass merges at most one pair. */
  method Sort<T(!new)>(cmp: (T, T) -> int, head: Node?<T>, circular: bool, ghost s: seq<Node<T>>)
    returns (list: Node?<T>, ghost r: seq<Node<T>>)
    requires TotalPreorder(cmp) && Linked(head, s, if circular then head else null)
    modifies s`next, s`prev
    ensures Linked(list, r, if circular then list else null)
    ensures StablySorts(cmp, s, r)
  {
    hide BeforePass, Sorted, TotalPreorder, StablySorts;
    list, r := head, s;
    if list == null { SortNothing(cmp, s); return; }
    var insize: nat, looping := 1, true;
    SortStarts(cmp, head, circular, s);
    hide Linked;
    while looping
      invariant list != null && BeforePass(cmp, list, circular, s, r, insize)
      invariant if looping then insize <= |s| else Sorted(cmp, r)
      invariant insize > 0
      decreases looping, |s| - insize
    {
      var nmerges;
      list, nmerges, r := Round(cmp, list, circular, insize, s, r);
      if nmerges <= 1 { looping := false; }
      insize := insize * 2;
    }
    SortEnds(cmp, list, circular, s, r, insize);
  }

  lemma SortNothing<T(!new)>(cmp: (T, T) -> int, s: seq<Node<T>>)
    requires s == []
    ensures StablySorts(cmp, s, s)
  {
  }

  lemma SortStarts<T(!new)>(cmp: (T, T) -> int, head: Node?<T>, circular: bool, s: seq<Node<T>>)
    requires TotalPreorder(cmp) && head != null && Linked(head, s, if circular then head else null)
    ensures BeforePass(cmp, head, circular, s, s, 1)
  {
    UnitRunsSorted(cmp, s);
    SetOf(s, s);
  }

  lemma SortEnds<T(!new)>(cmp: (T, T) -> int, list: Node?<T>, circular: bool, s: seq<Node<T>>, r: seq<Node<T>>, k: nat)
    requires BeforePass(cmp, list, circular, s, r, k) && Sorted(cmp, r)
    ensures Linked(list, r, if circular then list else null) && StablySorts(cmp, s, r)
  {
  }

  method DlSort<T(!new)>(cmp: (T, T) -> int, head: Node?<T>, ghost s: seq<Node<T>>)
    returns (list: Node?<T>, ghost r: seq<Node<T>>)
    requires TotalPreorder(cmp) && Doubly(head, s)
    modifies s`next, s`prev
    ensures Doubly(list, r) && StablySorts(cmp, s, r)
  {
    list, r := Sort(cmp, head, false, s);
  }

  method CdlSort<T(!new)>(cmp: (T, T) -> int, head: Node?<T>, ghost s: seq<Node<T>>)
    returns (list: Node?<T>, ghost r: seq<Node<T>>)
    requires TotalPreorder(cmp) && Circular(head, s)
    modifies s`next, s`prev
    ensures Circular(list, r) && StablySorts(cmp, s, r)
  {
    list, r := Sort(cmp, head, true, s);
  }

  /** A rearrangement has no node the original lacks. */
  lemma SetOf<T>(r: seq<Node<T>>, s: seq<Node<T>>)
    requires multiset(r) == multiset(s)
    ensures Within(r, s) && |r| == |s|
  {
    forall a | 0 <= a < |r| ensures r[a] in s {
      assert r[a] in multiset(r);
    }
    assert |multiset(r)| == |r| && |multiset(s)| == |s|;
  }
}
