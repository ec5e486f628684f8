/** The doubly linked list macros of libs/utlist.h that change or search a list. */
module ListOps {
  import opened MergeSpec
  import opened ListSort

  /** The nodes with the one at position `k` taken out. */
  function Without<E>(s: seq<E>, k: nat): (r: seq<E>)
    requires k < |s|
    ensures |r| == |s| - 1
  {
    s[..k] + s[k + 1..]
  }

  lemma ConcatLinked<T>(head: Node?<T>, s: seq<Node<T>>, t: seq<Node<T>>)
    requires Distinct(s) && Distinct(t) && Apart(s, t, 0, |t|) && head == NodeAt(s + t, 0)
    requires forall i {:trigger s[i].next} :: 0 <= i < |s| ==> s[i].next == Succ(s + t, i, null)
    requires forall i {:trigger s[i].prev} :: 0 <= i < |s| ==> s[i].prev == Pred(s + t, i, (s + t)[|s| + |t| - 1])
    requires forall j {:trigger t[j].next} :: 0 <= j < |t| ==> t[j].next == Succ(t, j, null)
    requires forall j {:trigger t[j].prev} :: 0 <= j < |t| ==> t[j].prev == Pred(s + t, |s| + j, t[|t| - 1])
    ensures Doubly(head, s + t)
  {
    var r := s + t;
    assert Distinct(r);
    forall i | 0 <= i < |r| ensures r[i].next == Succ(r, i, null) && r[i].prev == Pred(r, i, r[|r| - 1]) {
      if i < |s| { assert r[i] == s[i]; } else { assert r[i] == t[i - |s|]; }
    }
  }

  lemma InsertLinked<T>(head: Node?<T>, s: seq<Node<T>>, k: nat, add: Node<T>)
    requires Distinct(s) && k < |s| && add !in s && head == (if k == 0 then add else s[0])
    requires forall i {:trigger s[i].next} :: 0 <= i < |s| ==> s[i].next == if i + 1 == k then add else Succ(s, i, null)
    requires forall i {:trigger s[i].prev} :: 0 <= i < |s| ==>
               s[i].prev == if i == k then add else Pred(s, i, s[|s| - 1])
    requires add.next == s[k] && add.prev == Pred(s, k, s[|s| - 1])
    ensures Doubly(head, s[..k] + [add] + s[k..])
  {
    var r := s[..k] + [add] + s[k..];
    Inserted(s, k, add);
    forall i | 0 <= i < |r| ensures r[i].next == Succ(r, i, null) && r[i].prev == Pred(r, i, r[|r| - 1]) {
      if i < k { assert r[i] == s[i]; } else if i > k { assert r[i] == s[i - 1]; }
      if i + 1 < |r| { assert r[i + 1] == if i + 1 < k then s[i + 1] else if i + 1 == k then add else s[i]; }
    }
  }

  lemma Inserted<T>(s: seq<Node<T>>, k: nat, add: Node<T>)
    requires Distinct(s) && k < |s| && add !in s
    ensures var r := s[..k] + [add] + s[k..];
            Distinct(r) && forall i :: 0 <= i < |r| ==> r[i] == if i < k then s[i] else if i == k then add else s[i - 1]
  {
  }

  /** Position `i` after the node at `k` is taken out. */
  lemma WithoutDistinct<T>(s: seq<Node<T>>, k: nat)
    requires Distinct(s) && k < |s|
    ensures Distinct(Without(s, k))
    ensures forall i :: 0 <= i < |s| - 1 ==> Without(s, k)[i] == s[if i < k then i else i + 1]
  {
    var r := Without(s, k);
    assert forall i :: 0 <= i < |r| ==> r[i] == s[if i < k then i else i + 1];
    forall i, j | 0 <= i < j < |r| ensures r[i] != r[j] {
      assert r[i] == s[if i < k then i else i + 1] && r[j] == s[if j < k then j else j + 1];
    }
  }

  class DList<T> {
    var head: Node?<T>
    ghost var nodes: seq<Node<T>>

    /** head->prev is the tail, tail->next is NULL, and prev inverts next. */
    ghost predicate Valid()
      reads this, nodes
    {
      Doubly(head, nodes)
    }

    constructor ()
      ensures Valid() && nodes == []
    {
      head, nodes := null, [];
    }

    method Append(add: Node<T>)
      requires Valid() && add !in nodes
      modifies this, nodes`next, nodes`prev, add`next, add`prev
      ensures Valid() && nodes == old(nodes) + [add]
    {
      if head != null {
        add.prev := head.prev;
        head.prev.next := add;
        head.prev := add;
        add.next := null;
      } else {
        head := add;
        head.prev := head;
        head.next := null;
      }
      nodes := nodes + [add];
    }

    method Delete(del: Node<T>, ghost k: nat)
      requires Valid() && k < |nodes| && del == nodes[k]
      modifies this, nodes`next, nodes`prev
      ensures Valid() && nodes == Without(old(nodes), k)
    {
      if del.prev == del {
        head := null;
      } else if del == head {
        del.next.prev := del.prev;
        head := del.next;
      } else {
        del.prev.next := del.next;
        if del.next != null {
          del.next.prev := del.prev;
        } else {
          head.prev := del.prev;
        }
      }
      ghost var s, r := nodes, Without(nodes, k);
      nodes := r;
      WithoutDistinct(s, k);
      forall i | 0 <= i < |r| ensures r[i].next == Succ(r, i, null) && r[i].prev == Pred(r, i, r[|r| - 1]) {
        var j := if i < k then i else i + 1;
        assert r[i] == s[j] && old(s[j].next) == Succ(s, j, null) && old(s[j].prev) == Pred(s, j, s[|s| - 1]);
      }
    }

    method Concat(other: DList<T>)
      requires Valid() && other.Valid() && other != this
      requires Apart(nodes, other.nodes, 0, |other.nodes|)
      modifies this, nodes`next, nodes`prev, other.nodes`prev
      ensures Valid() && nodes == old(nodes) + old(other.nodes)
    {
      if other.head != null {
        if head != null {
          var tmp := other.head.prev;
          other.head.prev := head.prev;
          head.prev.next := other.head;
          head.prev := tmp;
        } else {
          head := other.head;
        }
      }
      ghost var s, t, r := nodes, other.nodes, nodes + other.nodes;
      nodes := r;
      forall i | 0 <= i < |s| ensures s[i].next == Succ(r, i, null) && s[i].prev == Pred(r, i, r[|r| - 1]) {
        assert old(s[i].next) == Succ(s, i, null) && old(s[i].prev) == Pred(s, i, s[|s| - 1]);
      }
      forall j | 0 <= j < |t| ensures t[j].next == Succ(t, j, null) && t[j].prev == Pred(r, |s| + j, t[|t| - 1]) {
        assert old(t[j].next) == Succ(t, j, null) && old(t[j].prev) == Pred(t, j, t[|t| - 1]);
      }
      ConcatLinked(head, s, t);
    }

    method ReplaceElem(el: Node<T>, add: Node<T>, ghost k: nat)
      requires Valid() && k < |nodes| && el == nodes[k] && add !in nodes
      modifies this, nodes`next, nodes`prev, add`next, add`prev
      ensures Valid() && nodes == old(nodes)[k := add]
    {
      if head == el {
        head := add;
        add.next := el.next;
        if el.next == null {
          add.prev := add;
        } else {
          add.prev := el.prev;
          add.next.prev := add;
        }
      } else {
        add.next := el.next;
        add.prev := el.prev;
        add.prev.next := add;
        if el.next == null {
          head.prev := add;
        } else {
          add.next.prev := add;
        }
      }
      ghost var s, r := nodes, nodes[k := add];
      nodes := r;
      forall i | 0 <= i < |r| ensures r[i].next == Succ(r, i, null) && r[i].prev == Pred(r, i, r[|r| - 1]) {
        assert old(s[i].next) == Succ(s, i, null) && old(s[i].prev) == Pred(s, i, s[|s| - 1]);
      }
      assert Distinct(r);
    }

    method PrependElem(el: Node<T>, add: Node<T>, ghost k: nat)
      requires Valid() && k < |nodes| && el == nodes[k] && add !in nodes
      modifies this, nodes`next, nodes`prev, add`next, add`prev
      ensures Valid() && nodes == old(nodes)[..k] + [add] + old(nodes)[k..]
    {
      add.next := el;
      add.prev := el.prev;
      el.prev := add;
      if head == el {
        head := add;
      } else {
        add.prev.next := add;
      }
      ghost var s := nodes;
      nodes := nodes[..k] + [add] + nodes[k..];
      forall i | 0 <= i < |s|
        ensures s[i].next == (if i + 1 == k then add else Succ(s, i, null))
        ensures s[i].prev == (if i == k then add else Pred(s, i, s[|s| - 1]))
      {
        assert old(s[i].next) == Succ(s, i, null) && old(s[i].prev) == Pred(s, i, s[|s| - 1]);
      }
      InsertLinked(head, s, k, add);
    }

    /** The first node that compares equal, or NULL. */
    method Search(cmp: (T, T) -> int, elt: T) returns (out: Node?<T>, ghost k: nat)
      requires Valid()
      ensures out == null <==> forall i :: 0 <= i < |nodes| ==> cmp(nodes[i].value, elt) != 0
      ensures out != null ==> out in nodes && cmp(out.value, elt) == 0
      ensures k <= |nodes| && out == NodeAt(nodes, k)
      ensures forall i :: 0 <= i < k ==> cmp(nodes[i].value, elt) != 0
      ensures k < |nodes| ==> cmp(nodes[k].value, elt) == 0
    {
      out, k := head, 0;
      while out != null
        invariant k <= |nodes| && out == NodeAt(nodes, k)
        invariant forall i :: 0 <= i < k ==> cmp(nodes[i].value, elt) != 0
        decreases |nodes| - k
      {
        if cmp(out.value, elt) == 0 { return; }
        out, k := out.next, k + 1;
      }
    }
  }
}
