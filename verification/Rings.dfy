/** The circular doubly linked lists of the thread-stack allocator.

    A list node is identified by its address; the two pointers stored in it are
    the entries of `next` and `prev` at that address.  A list is a head node and
    the sequence of elements met when following `next` from the head. */
module Rings {

  type Addr = nat

  const NULL: Addr := 0

  /** The contents of the link fields of every node in memory. */
  datatype Links = Links(next: map<Addr, Addr>, prev: map<Addr, Addr>)

  function SetNext(m: Links, a: Addr, v: Addr): Links {
    m.(next := m.next[a := v])
  }

  function SetPrev(m: Links, a: Addr, v: Addr): Links {
    m.(prev := m.prev[a := v])
  }

  ghost predicate Distinct(s: seq<Addr>) {
    forall i, j :: 0 <= i < j < |s| ==> s[i] != s[j]
  }

  ghost predicate Disjoint(s: seq<Addr>, t: seq<Addr>) {
    forall a :: a in s ==> a !in t
  }

  ghost predicate Linked(m: Links, a: Addr, b: Addr) {
    && a in m.next && m.next[a] == b
    && b in m.prev && m.prev[b] == a
  }

  /** The nodes in the order of a full turn, the head at both ends. */
  ghost function Turn(head: Addr, xs: seq<Addr>): seq<Addr> {
    [head] + xs + [head]
  }

  /** `xs` are the elements of a well-formed circular list at `head`. */
  ghost predicate Ring(m: Links, head: Addr, xs: seq<Addr>) {
    && Distinct([head] + xs)
    && var c := Turn(head, xs);
       forall i, j :: 0 <= i && j == i + 1 && j < |c| ==> Linked(m, c[i], c[j])
  }

  /** The two memories agree on every node of the list. */
  ghost predicate SameNodes(m: Links, m': Links, head: Addr, xs: seq<Addr>) {
    forall a :: a in [head] + xs ==>
      && (a in m.next ==> a in m'.next && m'.next[a] == m.next[a])
      && (a in m.prev ==> a in m'.prev && m'.prev[a] == m.prev[a])
  }

  function Without<T>(s: seq<T>, k: nat): (r: seq<T>)
    requires k < |s|
  {
    s[..k] + s[k + 1..]
  }

  // ----- the list operations, store by store

  /** list_add: which of its four stores have reached memory. */
  datatype AddStores = AddStores(ownNext: bool, ownPrev: bool, back: bool, front: bool)

  const ALL_ADD_STORES := AddStores(true, true, true, true)

  /** Memory after the stores `s` of list_add (e, head). */
  function AddPart(m: Links, e: Addr, head: Addr, s: AddStores): (r: Links)
    requires head in m.next
  {
    var first := m.next[head];
    var m1 := if s.ownNext then SetNext(m, e, first) else m;
    var m2 := if s.ownPrev then SetPrev(m1, e, head) else m1;
    var m3 := if s.back then SetPrev(m2, first, e) else m2;
    if s.front then SetNext(m3, head, e) else m3
  }

  function ListAdd(m: Links, e: Addr, head: Addr): Links
    requires head in m.next
  {
    AddPart(m, e, head, ALL_ADD_STORES)
  }

  /** list_del: which of its two stores have reached memory. */
  datatype DelStores = DelStores(back: bool, forth: bool)

  /** Memory after the stores `s` of list_del (e). */
  function DelPart(m: Links, e: Addr, s: DelStores): (r: Links)
    requires e in m.next && e in m.prev
  {
    var m1 := if s.back then SetPrev(m, m.next[e], m.prev[e]) else m;
    if s.forth then SetNext(m1, m.prev[e], m.next[e]) else m1
  }

  function ListDel(m: Links, e: Addr): Links
    requires e in m.next && e in m.prev
  {
    DelPart(m, e, DelStores(true, true))
  }

  /** list_splice (list, onto): nothing when `list` is empty. */
  function ListSplice(m: Links, list: Addr, onto: Addr): Links
    requires list in m.next && list in m.prev && onto in m.next
  {
    if m.next[list] == list then m else
    var first, last, after := m.next[list], m.prev[list], m.next[onto];
    var m1 := SetPrev(m, first, onto);
    var m2 := SetNext(m1, last, after);
    var m3 := SetPrev(m2, after, last);
    SetNext(m3, onto, first)
  }

  function InitHead(m: Links, head: Addr): Links {
    SetPrev(SetNext(m, head, head), head, head)
  }

  // ----- what they do to well-formed lists

  /** A list whose nodes were not written is the list it was. */
  lemma RingFrame(m: Links, m': Links, head: Addr, xs: seq<Addr>)
    requires Ring(m, head, xs) && SameNodes(m, m', head, xs)
    ensures Ring(m', head, xs)
  {
    var c := Turn(head, xs);
    forall i, j | 0 <= i && j == i + 1 && j < |c| ensures Linked(m', c[i], c[j]) {
      assert Linked(m, c[i], c[j]) && c[i] in [head] + xs && c[j] in [head] + xs;
    }
  }

  lemma RingEnds(m: Links, head: Addr, xs: seq<Addr>)
    requires Ring(m, head, xs)
    ensures head in m.next && head in m.prev
    ensures m.next[head] == if xs == [] then head else xs[0]
    ensures m.prev[head] == if xs == [] then head else xs[|xs| - 1]
    ensures m.next[head] in m.prev && m.prev[m.next[head]] == head
  {
    var c := Turn(head, xs);
    assert Linked(m, c[0], c[1]);
    assert Linked(m, c[|xs|], c[|xs| + 1]);
  }

  lemma RingAt(m: Links, head: Addr, xs: seq<Addr>, k: nat)
    requires Ring(m, head, xs) && k < |xs|
    ensures xs[k] in m.next && xs[k] in m.prev
    ensures m.next[xs[k]] == if k + 1 < |xs| then xs[k + 1] else head
    ensures m.prev[xs[k]] == if k == 0 then head else xs[k - 1]
  {
    var c := Turn(head, xs);
    assert Linked(m, c[k], c[k + 1]);
    assert Linked(m, c[k + 1], c[k + 2]);
  }

  lemma RingDistinct(m: Links, head: Addr, xs: seq<Addr>)
    requires Ring(m, head, xs)
    ensures Distinct(xs) && head !in xs
  {
    forall i, j | 0 <= i < j < |xs| ensures xs[i] != xs[j] {
      assert ([head] + xs)[i + 1] != ([head] + xs)[j + 1];
    }
    forall i | 0 <= i < |xs| ensures xs[i] != head {
      assert ([head] + xs)[0] != ([head] + xs)[i + 1];
    }
  }

  /** The node before the i-th element; 0 stands for the head. */
  function At(head: Addr, xs: seq<Addr>, i: nat): Addr
    requires i <= |xs|
  {
    if i == 0 then head else xs[i - 1]
  }

  /** The i-th element, and the head after the last one. */
  function Entry(head: Addr, xs: seq<Addr>, i: nat): Addr {
    if i < |xs| then xs[i] else head
  }

  /** Walking forwards: from the head to the first element, and from each element
      to the next. */
  lemma Walk(m: Links, head: Addr, xs: seq<Addr>, i: nat)
    requires Ring(m, head, xs) && i <= |xs|
    ensures head in m.next && m.next[head] == Entry(head, xs, 0)
    ensures Entry(head, xs, i) == head <==> i == |xs|
    ensures i < |xs| ==> Entry(head, xs, i) == xs[i] && xs[i] in m.next && m.next[xs[i]] == Entry(head, xs, i + 1)
  {
    RingEnds(m, head, xs);
    RingDistinct(m, head, xs);
    if i < |xs| {
      RingAt(m, head, xs, i);
    }
  }

  /** Walking backwards over elements that also begin another sequence. */
  lemma BackWalk(m: Links, head: Addr, xs: seq<Addr>, c: seq<Addr>, i: nat)
    requires Ring(m, head, xs) && i <= |c| && i <= |xs| && c[..i] == xs[..i]
    ensures At(head, c, i) in m.prev && (i == 0 <==> At(head, c, i) == head)
    ensures i > 0 ==> m.prev[At(head, c, i)] == At(head, c, i - 1)
  {
    RingEnds(m, head, xs);
    RingDistinct(m, head, xs);
    if i > 0 {
      RingAt(m, head, xs, i - 1);
      assert c[i - 1] == c[..i][i - 1] == xs[i - 1];
      assert i > 1 ==> c[i - 2] == c[..i][i - 2] == xs[i - 2];
    }
  }

  lemma RingAdd(m: Links, e: Addr, head: Addr, xs: seq<Addr>)
    requires Ring(m, head, xs) && e !in [head] + xs
    ensures head in m.next
    ensures Ring(ListAdd(m, e, head), head, [e] + xs)
  {
    RingEnds(m, head, xs);
    var m' := ListAdd(m, e, head);
    var s, s' := [head] + xs, [head] + ([e] + xs);
    var c, c' := Turn(head, xs), Turn(head, [e] + xs);
    forall i, j | 0 <= i < j < |s'| ensures s'[i] != s'[j] {
      if i >= 2 { assert s[i - 1] != s[j - 1]; }
      else if i == 0 && j >= 2 { assert s[0] != s[j - 1]; }
      else if j >= 2 { assert s[j - 1] in s; }
    }
    forall i, j | 0 <= i && j == i + 1 && j < |c'| ensures Linked(m', c'[i], c'[j]) {
      if i >= 2 {
        assert Linked(m, c[i - 1], c[j - 1]) && c'[i] == s[i - 1] && c'[j] == c[j - 1];
        assert s[i - 1] in s && s[i - 1] != s[0];
        assert c[j - 1] != s[1] by {
          if j - 1 <= |xs| { assert s[j - 1] != s[1]; } else { assert s[0] != s[1]; }
        }
      }
    }
  }

  lemma DistinctWithout(s: seq<Addr>, k: nat)
    requires Distinct(s) && k < |s|
    ensures Distinct(Without(s, k))
    ensures s[k] !in Without(s, k)
    ensures forall a :: a in s ==> a == s[k] || a in Without(s, k)
    ensures forall a :: a in Without(s, k) ==> a in s
  {
    var r := Without(s, k);
    forall i, j | 0 <= i < j < |r| ensures r[i] != r[j] {
      assert s[if i < k then i else i + 1] != s[if j < k then j else j + 1];
    }
    forall i | 0 <= i < |r| ensures r[i] != s[k] && r[i] in s {
      assert r[i] == s[if i < k then i else i + 1];
    }
    forall i | 0 <= i < |s| && i != k ensures s[i] in r {
      assert s[i] == r[if i < k then i else i - 1];
    }
  }

  /** A link away from the k-th element is not touched by its deletion. */
  lemma FarLink(m: Links, head: Addr, xs: seq<Addr>, k: nat, i: nat, j: nat)
    requires Ring(m, head, xs) && k < |xs| && j == i + 1 && j < |xs| + 2 && i != k && i != k + 1
    ensures xs[k] in m.next && xs[k] in m.prev
    ensures var c := Turn(head, xs); Linked(ListDel(m, xs[k]), c[i], c[j])
  {
    RingAt(m, head, xs, k);
    var c, s := Turn(head, xs), [head] + xs;
    assert Linked(m, c[i], c[j]);
    assert c[k] == m.prev[xs[k]] && c[k + 2] == m.next[xs[k]];
    assert c[i] != c[k] by { assert s[i] != s[k]; }
    assert c[j] != c[k + 2] by {
      if j <= |xs| && k + 2 <= |xs| { assert s[j] != s[k + 2]; }
      else if j <= |xs| { assert s[j] != s[0]; }
      else { assert s[k + 2] != s[0]; }
    }
    hide Ring;
  }

  lemma RingDel(m: Links, head: Addr, xs: seq<Addr>, k: nat)
    requires Ring(m, head, xs) && k < |xs|
    ensures xs[k] in m.next && xs[k] in m.prev
    ensures Ring(ListDel(m, xs[k]), head, Without(xs, k))
  {
    RingAt(m, head, xs, k);
    var e, m' := xs[k], ListDel(m, xs[k]);
    var s := [head] + xs;
    var xs' := Without(xs, k);
    var c, c' := Turn(head, xs), Turn(head, xs');
    DistinctWithout(s, k + 1);
    assert [head] + xs' == Without(s, k + 1);
    forall i, j | 0 <= i && j == i + 1 && j < |c'| ensures Linked(m', c'[i], c'[j]) {
      var i', j' := if i <= k then i else i + 1, if j <= k then j else j + 1;
      assert c'[i] == c[i'] && c'[j] == c[j'];
      if i == k {
        assert c[k] == m.prev[e] && c[k + 2] == m.next[e];
      } else {
        FarLink(m, head, xs, k, i', j');
      }
    }
  }

  lemma DistinctConcat(list: Addr, xs: seq<Addr>, onto: Addr, ys: seq<Addr>)
    requires Distinct([list] + xs) && Distinct([onto] + ys)
    requires Disjoint([list] + xs, [onto] + ys)
    ensures Distinct([onto] + (xs + ys))
  {
    var n, s, t := |xs|, [list] + xs, [onto] + ys;
    forall i, j | 0 <= i < j < n + |ys| + 1 ensures ([onto] + (xs + ys))[i] != ([onto] + (xs + ys))[j] {
      if 1 <= i && j <= n { assert s[i] != s[j]; }
      else if i > n { assert t[i - n] != t[j - n]; }
      else if i == 0 && j > n { assert t[0] != t[j - n]; }
      else if i == 0 { assert s[j] !in t; assert onto in t; }
      else { assert s[i] !in t; assert t[j - n] in t; }
    }
  }

  /** The links among the spliced elements are not touched. */
  lemma SplicedFront(m: Links, list: Addr, xs: seq<Addr>, onto: Addr, ys: seq<Addr>, i: nat)
    requires Ring(m, list, xs) && Ring(m, onto, ys) && Disjoint([list] + xs, [onto] + ys) && 1 <= i < |xs|
    ensures list in m.next && list in m.prev && onto in m.next
    ensures Linked(ListSplice(m, list, onto), xs[i - 1], xs[i])
  {
    RingEnds(m, list, xs);
    RingEnds(m, onto, ys);
    var n, cx, cy := |xs|, Turn(list, xs), Turn(onto, ys);
    var s, t := [list] + xs, [onto] + ys;
    assert m.next[list] != list by { assert s[1] != s[0]; }
    assert Linked(m, cx[i], cx[i + 1]) && cx[i] == xs[i - 1] && cx[i + 1] == xs[i];
    assert s[i] in s && s[i] != s[n] && s[i] !in t;
    assert s[i + 1] in s && s[i + 1] != s[1] && s[i + 1] !in t;
    assert onto in t && m.next[onto] in t by { assert m.next[onto] == cy[1]; }
    hide Ring, Turn, Disjoint;
  }

  /** Nor are those among the elements spliced onto, and back to their head. */
  lemma SplicedBack(m: Links, list: Addr, xs: seq<Addr>, onto: Addr, ys: seq<Addr>, i: nat)
    requires Ring(m, list, xs) && Ring(m, onto, ys) && Disjoint([list] + xs, [onto] + ys) && xs != [] && 1 <= i <= |ys|
    ensures list in m.next && list in m.prev && onto in m.next
    ensures Linked(ListSplice(m, list, onto), ys[i - 1], Turn(onto, ys)[i + 1])
  {
    RingEnds(m, list, xs);
    RingEnds(m, onto, ys);
    var n, cy := |xs|, Turn(onto, ys);
    var s, t := [list] + xs, [onto] + ys;
    assert m.next[list] != list by { assert s[1] != s[0]; }
    assert Linked(m, cy[i], cy[i + 1]) && cy[i] == ys[i - 1];
    assert t[i] in t && t[i] != t[0];
    assert cy[i + 1] in t by { if i + 1 < |t| { assert t[i + 1] in t; } else { assert t[0] in t; } }
    assert cy[i + 1] != m.next[onto] by {
      if i + 1 < |t| { assert t[i + 1] != t[1]; } else { assert t[0] != t[1]; }
    }
    assert s[1] in s && s[n] in s;
    hide Ring, Turn, Disjoint;
  }

  /** Splicing puts all of `xs`, in order, in front of `ys`. */
  lemma RingSplice(m: Links, list: Addr, xs: seq<Addr>, onto: Addr, ys: seq<Addr>)
    requires Ring(m, list, xs) && Ring(m, onto, ys)
    requires Disjoint([list] + xs, [onto] + ys)
    ensures list in m.next && list in m.prev && onto in m.next
    ensures Ring(ListSplice(m, list, onto), onto, xs + ys)
  {
    RingEnds(m, list, xs);
    RingEnds(m, onto, ys);
    if xs == [] {
      assert xs + ys == ys;
    } else {
      var m' := ListSplice(m, list, onto);
      var n := |xs|;
      var c, s, t := Turn(onto, xs + ys), [list] + xs, [onto] + ys;
      assert m.next[list] != list by { assert s[1] != s[0]; }
      DistinctConcat(list, xs, onto, ys);
      forall i, j | 0 <= i && j == i + 1 && j < |c| ensures Linked(m', c[i], c[j]) {
        if 1 <= i && j <= n {
          SplicedFront(m, list, xs, onto, ys, i);
        } else if i > n {
          SplicedBack(m, list, xs, onto, ys, i - n);
          assert c[j] == Turn(onto, ys)[i - n + 1];
        } else {
          assert s[1] in s && s[n] in s && onto in t && (ys != [] ==> t[1] in t);
        }
      }
    }
  }

  lemma RingInit(m: Links, head: Addr)
    ensures Ring(InitHead(m, head), head, [])
  {
  }
}
