/** What a fork in the middle of a list primitive leaves behind, and what the
    child's repair makes of it. */
module ForkRecovery {
  import opened Rings

  const STACK_USED: Addr := 16
  const STACK_CACHE: Addr := 32
  const STACK_USER: Addr := 48

  /** The three lists of thread descriptors, as contents. */
  datatype Lists = Lists(used: seq<Addr>, cache: seq<Addr>, user: seq<Addr>)

  datatype Which = Used | Cache | User {
    function Head(): Addr {
      match this case Used => STACK_USED case Cache => STACK_CACHE case User => STACK_USER
    }

    function Of(l: Lists): seq<Addr> {
      match this case Used => l.used case Cache => l.cache case User => l.user
    }

    function Nodes(l: Lists): seq<Addr> {
      [Head()] + Of(l)
    }

    function Put(l: Lists, s: seq<Addr>): Lists {
      match this
      case Used => l.(used := s)
      case Cache => l.(cache := s)
      case User => l.(user := s)
    }
  }

  ghost predicate RingOf(m: Links, l: Lists, w: Which) {
    Ring(m, w.Head(), w.Of(l))
  }

  /** No node is on two lists. */
  ghost predicate Apart(l: Lists) {
    forall v: Which, w: Which :: v != w ==> Disjoint(v.Nodes(l), w.Nodes(l))
  }

  /** No list has this node. */
  ghost predicate Foreign(l: Lists, a: Addr) {
    forall w: Which :: a !in w.Nodes(l)
  }

  ghost predicate WellFormed(m: Links, l: Lists) {
    match m
    case Links(_, _) => (forall w: Which :: RingOf(m, l, w)) && Apart(l)
  }

  /** A list keeps its shape when the nodes written belong to another one. */
  lemma OtherList(m: Links, m': Links, l: Lists, w: Which, v: Which)
    requires v != w && RingOf(m, l, v) && Apart(l)
    requires forall a :: a in m.next && (a !in m'.next || m'.next[a] != m.next[a]) ==> a in w.Nodes(l) || Foreign(l, a)
    requires forall a :: a in m.prev && (a !in m'.prev || m'.prev[a] != m.prev[a]) ==> a in w.Nodes(l) || Foreign(l, a)
    ensures RingOf(m', l, v)
  {
    assert Disjoint(v.Nodes(l), w.Nodes(l));
    forall a | a in v.Nodes(l) ensures a !in w.Nodes(l) && !Foreign(l, a) {
    }
    RingFrame(m, m', v.Head(), v.Of(l));
  }

  /** Adding to one list keeps all three well formed. */
  lemma AddKeeps(m: Links, l: Lists, e: Addr, w: Which)
    requires WellFormed(m, l) && Foreign(l, e)
    ensures w.Head() in m.next
    ensures WellFormed(ListAdd(m, e, w.Head()), w.Put(l, [e] + w.Of(l)))
  {
    assert RingOf(m, l, w) && e !in w.Nodes(l);
    RingEnds(m, w.Head(), w.Of(l));
    RingAdd(m, e, w.Head(), w.Of(l));
    var m', l' := ListAdd(m, e, w.Head()), w.Put(l, [e] + w.Of(l));
    assert m.next[w.Head()] in w.Nodes(l) && w.Head() in w.Nodes(l);
    forall v: Which ensures RingOf(m', l', v) {
      if v != w { assert RingOf(m, l, v); OtherList(m, m', l, w, v); }
    }
    forall v: Which, u: Which | v != u ensures Disjoint(v.Nodes(l'), u.Nodes(l')) {
      assert Disjoint(v.Nodes(l), u.Nodes(l)) && e !in v.Nodes(l) && e !in u.Nodes(l);
    }
  }

  /** Taking an element off one list changes the nodes of that list alone. */
  lemma NodesWithout(l: Lists, w: Which, k: nat, v: Which)
    requires Distinct(w.Nodes(l)) && k < |w.Of(l)|
    ensures w.Of(l)[k] in w.Nodes(l)
    ensures var l' := w.Put(l, Without(w.Of(l), k));
      if v != w then v.Nodes(l') == v.Nodes(l)
      else forall a :: a in v.Nodes(l') ==> a in v.Nodes(l) && a != w.Of(l)[k]
  {
    assert w.Nodes(l)[k + 1] == w.Of(l)[k];
    if v == w {
      OwnWithout(l, w, k);
    }
  }

  lemma OwnWithout(l: Lists, w: Which, k: nat)
    requires Distinct(w.Nodes(l)) && k < |w.Of(l)|
    ensures forall a :: a in w.Nodes(w.Put(l, Without(w.Of(l), k))) ==> a in w.Nodes(l) && a != w.Of(l)[k]
  {
    NodesPut(l, w, k);
    DistinctWithout(w.Nodes(l), k + 1);
  }

  lemma NodesPut(l: Lists, w: Which, k: nat)
    requires k < |w.Of(l)|
    ensures w.Nodes(l)[k + 1] == w.Of(l)[k]
    ensures w.Nodes(w.Put(l, Without(w.Of(l), k))) == Without(w.Nodes(l), k + 1)
  {
    OfPut(l, w, Without(w.Of(l), k));
    WithoutBehind(w.Head(), w.Of(l), k);
  }

  lemma OfPut(l: Lists, w: Which, s: seq<Addr>)
    ensures w.Of(w.Put(l, s)) == s && w.Nodes(w.Put(l, s)) == [w.Head()] + s
  {
  }

  lemma WithoutBehind(head: Addr, s: seq<Addr>, k: nat)
    requires k < |s|
    ensures Without([head] + s, k + 1) == [head] + Without(s, k)
  {
    assert ([head] + s)[..k + 1] == [head] + s[..k];
    assert ([head] + s)[k + 2..] == s[k + 1..];
  }

  lemma PutWithout(l: Lists, w: Which, k: nat)
    requires Apart(l) && Distinct(w.Nodes(l)) && k < |w.Of(l)|
    ensures var l' := w.Put(l, Without(w.Of(l), k)); Apart(l') && Foreign(l', w.Of(l)[k])
  {
    hide Without, Distinct, Which.Nodes, Which.Put;
    var e, l' := w.Of(l)[k], w.Put(l, Without(w.Of(l), k));
    forall v: Which, u: Which | v != u ensures Disjoint(v.Nodes(l'), u.Nodes(l')) {
      NodesWithout(l, w, k, v);
      NodesWithout(l, w, k, u);
      assert Disjoint(v.Nodes(l), u.Nodes(l));
    }
    forall v: Which ensures e !in v.Nodes(l') {
      NodesWithout(l, w, k, v);
      if v != w { assert Disjoint(w.Nodes(l), v.Nodes(l)); }
    }
  }

  /** Deleting from one list keeps all three well formed; the node is on none. */
  lemma DelKeeps(m: Links, l: Lists, w: Which, k: nat)
    requires WellFormed(m, l) && k < |w.Of(l)|
    ensures w.Of(l)[k] in m.next && w.Of(l)[k] in m.prev
    ensures WellFormed(ListDel(m, w.Of(l)[k]), w.Put(l, Without(w.Of(l), k)))
    ensures Foreign(w.Put(l, Without(w.Of(l), k)), w.Of(l)[k])
  {
    var xs, e := w.Of(l), w.Of(l)[k];
    assert RingOf(m, l, w);
    RingAt(m, w.Head(), xs, k);
    RingDel(m, w.Head(), xs, k);
    PutWithout(l, w, k);
    var m', l' := ListDel(m, e), w.Put(l, Without(xs, k));
    var ns := w.Nodes(l);
    assert m.prev[e] in ns by { assert m.prev[e] == ns[k]; }
    assert m.next[e] in ns by { assert m.next[e] == if k + 2 < |ns| then ns[k + 2] else ns[0]; }
    forall v: Which ensures RingOf(m', l', v) {
      if v != w { assert RingOf(m, l, v); OtherList(m, m', l, w, v); }
    }
  }

  // ----- the interrupted primitive

  /** Where the fork struck.  The barrier in list_add orders only its last store;
      the two stores of list_del are unordered.  Adding to the list of user
      stacks is not recorded in in_flight_stack. */
  datatype Cut =
    | Quiet
    | InAdd(elem: Addr, onto: Which, added: AddStores)
    | InDel(from: Which, k: nat, deleted: DelStores)
    | InUserAdd(elem: Addr, added: AddStores)

  predicate BarrierOrder(s: AddStores) {
    s.front ==> s.ownNext && s.ownPrev && s.back
  }

  ghost predicate Possible(l: Lists, c: Cut) {
    match c
    case Quiet => true
    case InAdd(e, w, s) => w != User && Foreign(l, e) && e != NULL && e % 2 == 0 && BarrierOrder(s)
    case InDel(w, k, s) => k < |w.Of(l)| && w.Of(l)[k] != NULL && w.Of(l)[k] % 2 == 0
    case InUserAdd(e, s) => Foreign(l, e) && BarrierOrder(s)
  }

  /** The link fields as the child finds them. */
  ghost function Snapshot(m: Links, l: Lists, c: Cut): Links
    requires WellFormed(m, l) && Possible(l, c)
  {
    match c
    case Quiet => m
    case InAdd(e, w, s) => assert RingOf(m, l, w); RingEnds(m, w.Head(), w.Of(l)); AddPart(m, e, w.Head(), s)
    case InDel(w, k, s) => assert RingOf(m, l, w); RingAt(m, w.Head(), w.Of(l), k); DelPart(m, w.Of(l)[k], s)
    case InUserAdd(e, s) => assert RingOf(m, l, User); RingEnds(m, STACK_USER, l.user); AddPart(m, e, STACK_USER, s)
  }

  /** in_flight_stack as the child finds it: the node, tagged for an addition. */
  ghost function InFlight(l: Lists, c: Cut): Addr
    requires Possible(l, c)
  {
    match c
    case Quiet => 0
    case InAdd(e, w, s) => e + 1
    case InDel(w, k, s) => w.Of(l)[k]
    case InUserAdd(e, s) => 0
  }

  /** The contents the repair must arrive at: an addition counts once the old
      first element points back to the new node, a deletion always counts. */
  ghost function Resolved(l: Lists, c: Cut): Lists
    requires Possible(l, c)
  {
    match c
    case InAdd(e, w, s) => if s.back then w.Put(l, [e] + w.Of(l)) else l
    case InDel(w, k, s) => w.Put(l, Without(w.Of(l), k))
    case _ => l
  }

  // ----- every moment at which a fork may strike

  /** What the child of a fork finds: the link fields, in_flight_stack, and which
      descriptors are mapped. */
  datatype Moment = Moment(links: Links, inFlight: Addr, known: set<Addr>)

  /** A single store, or a change of what is mapped. */
  datatype Store = Next(a: Addr, v: Addr) | Prev(a: Addr, v: Addr) | Record(v: Addr) | Mapping(known: set<Addr>)

  function Stored(t: Moment, s: Store): Moment {
    match s
    case Next(a, v) => t.(links := SetNext(t.links, a, v))
    case Prev(a, v) => t.(links := SetPrev(t.links, a, v))
    case Record(v) => t.(inFlight := v)
    case Mapping(known) => t.(known := known)
  }

  /** The moment is that of the cut c, and the stacks in use are mapped. */
  ghost predicate CutAt(m: Links, l: Lists, c: Cut, t: Moment) {
    && WellFormed(m, l) && Possible(l, c)
    && t.links == Snapshot(m, l, c) && t.inFlight == InFlight(l, c)
    && forall a :: a in Resolved(l, c).used ==> a in t.known
  }

  /** A fork at this moment cuts the operation on these lists somewhere. */
  ghost predicate IsCut(m: Links, l: Lists, t: Moment) {
    exists c: Cut :: CutAt(m, l, c, t)
  }

  /** A fork at this moment leaves something that can be repaired. */
  ghost predicate Recoverable(t: Moment) {
    exists m: Links, l: Lists :: IsCut(m, l, t)
  }

  ghost predicate OneStore(t: Moment, u: Moment) {
    exists s: Store :: u == Stored(t, s)
  }

  /** A history of moments, one store apart and recoverable each, up to now. */
  ghost predicate Watched(seen: seq<Moment>, now: Moment) {
    && seen != [] && seen[|seen| - 1] == now
    && (forall i: nat :: i < |seen| ==> Recoverable(seen[i]))
    && (forall i: nat, j: nat :: j == i + 1 && j < |seen| ==> OneStore(seen[i], seen[j]))
  }

  /** From one place in the history on, all moments cut one operation. */
  ghost predicate AllCuts(m: Links, l: Lists, seen: seq<Moment>, start: nat) {
    forall i: nat :: start <= i < |seen| ==> IsCut(m, l, seen[i])
  }

  lemma WatchedMore(seen: seq<Moment>, now: Moment, s: Store, m: Links, l: Lists, c: Cut)
    requires Watched(seen, now) && CutAt(m, l, c, Stored(now, s))
    ensures Watched(seen + [Stored(now, s)], Stored(now, s))
    ensures forall start: nat :: start <= |seen| && AllCuts(m, l, seen, start) ==>
      AllCuts(m, l, seen + [Stored(now, s)], start)
  {
    hide CutAt, Stored;
    assert IsCut(m, l, Stored(now, s));
    assert Recoverable(Stored(now, s)) && OneStore(now, Stored(now, s));
  }

  lemma QuietCut(m: Links, l: Lists, known: set<Addr>)
    requires WellFormed(m, l) && forall a :: a in l.used ==> a in known
    ensures CutAt(m, l, Quiet, Moment(m, 0, known))
  {
  }

  lemma QuietWatched(m: Links, l: Lists, known: set<Addr>)
    requires WellFormed(m, l) && forall a :: a in l.used ==> a in known
    ensures Watched([Moment(m, 0, known)], Moment(m, 0, known))
  {
    QuietCut(m, l, known);
    assert IsCut(m, l, Moment(m, 0, known));
  }

  /** An addition to either list under way, with these of its stores made. */
  function Adding(m: Links, e: Addr, head: Addr, s: AddStores, inFlight: Addr, known: set<Addr>): Moment
    requires head in m.next
  {
    Moment(AddPart(m, e, head, s), inFlight, known)
  }

  /** The stores of list_add in the order of the code. */
  lemma AddInOrder(m: Links, e: Addr, head: Addr, inFlight: Addr, known: set<Addr>)
    requires head in m.next && head in m.prev
    ensures Adding(m, e, head, AddStores(false, false, false, false), inFlight, known) == Moment(m, inFlight, known)
    ensures Stored(Moment(m, inFlight, known), Next(e, m.next[head]))
      == Adding(m, e, head, AddStores(true, false, false, false), inFlight, known)
    ensures Stored(Adding(m, e, head, AddStores(true, false, false, false), inFlight, known), Prev(e, head))
      == Adding(m, e, head, AddStores(true, true, false, false), inFlight, known)
    ensures Stored(Adding(m, e, head, AddStores(true, true, false, false), inFlight, known), Prev(m.next[head], e))
      == Adding(m, e, head, AddStores(true, true, true, false), inFlight, known)
    ensures Stored(Adding(m, e, head, AddStores(true, true, true, false), inFlight, known), Next(head, e))
      == Adding(m, e, head, ALL_ADD_STORES, inFlight, known) == Moment(ListAdd(m, e, head), inFlight, known)
  {
  }

  /** A recorded addition is a cut with any of its stores made. */
  lemma AddCut(m: Links, l: Lists, e: Addr, w: Which, s: AddStores, known: set<Addr>)
    requires WellFormed(m, l) && w != User && Foreign(l, e) && e != NULL && e % 2 == 0 && BarrierOrder(s)
    requires e in known && forall a :: a in l.used ==> a in known
    ensures w.Head() in m.next && CutAt(m, l, InAdd(e, w, s), Adding(m, e, w.Head(), s, e + 1, known))
  {
    hide WellFormed, Foreign, Ring, AddPart;
    HeadLinked(m, l, w);
  }

  lemma AddCuts(m: Links, l: Lists, e: Addr, w: Which, known: set<Addr>)
    requires WellFormed(m, l) && w != User && Foreign(l, e) && e != NULL && e % 2 == 0
    requires e in known && forall a :: a in l.used ==> a in known
    ensures w.Head() in m.next && w.Head() in m.prev
    ensures forall s: AddStores :: BarrierOrder(s) ==> CutAt(m, l, InAdd(e, w, s), Adding(m, e, w.Head(), s, e + 1, known))
  {
    HeadLinked(m, l, w);
    hide WellFormed, Foreign, BarrierOrder, CutAt, Adding;
    forall s: AddStores | BarrierOrder(s)
      ensures CutAt(m, l, InAdd(e, w, s), Adding(m, e, w.Head(), s, e + 1, known))
    {
      AddCut(m, l, e, w, s, known);
    }
  }

  lemma UserAddCuts(m: Links, l: Lists, e: Addr, known: set<Addr>)
    requires WellFormed(m, l) && Foreign(l, e) && forall a :: a in l.used ==> a in known
    ensures STACK_USER in m.next && STACK_USER in m.prev
    ensures forall s: AddStores :: BarrierOrder(s) ==> CutAt(m, l, InUserAdd(e, s), Adding(m, e, STACK_USER, s, 0, known))
  {
    hide WellFormed, Foreign, Ring, AddPart;
    HeadLinked(m, l, User);
  }

  lemma HeadLinked(m: Links, l: Lists, w: Which)
    requires WellFormed(m, l)
    ensures w.Head() in m.next && w.Head() in m.prev
  {
    assert RingOf(m, l, w);
    hide WellFormed, Ring;
    RingEnds(m, w.Head(), w.Of(l));
  }

  function Deleting(m: Links, e: Addr, s: DelStores, known: set<Addr>): Moment
    requires e in m.next && e in m.prev
  {
    Moment(DelPart(m, e, s), e, known)
  }

  lemma DelInOrder(m: Links, e: Addr, known: set<Addr>)
    requires e in m.next && e in m.prev
    ensures Deleting(m, e, DelStores(false, false), known) == Moment(m, e, known)
    ensures Stored(Moment(m, e, known), Prev(m.next[e], m.prev[e])) == Deleting(m, e, DelStores(true, false), known)
    ensures Stored(Deleting(m, e, DelStores(true, false), known), Next(m.prev[e], m.next[e]))
      == Deleting(m, e, DelStores(true, true), known) == Moment(ListDel(m, e), e, known)
  {
  }

  lemma DelCuts(m: Links, l: Lists, w: Which, k: nat, known: set<Addr>)
    requires WellFormed(m, l) && k < |w.Of(l)| && w.Of(l)[k] != NULL && w.Of(l)[k] % 2 == 0
    requires forall a :: a in l.used ==> a in known
    ensures w.Of(l)[k] in m.next && w.Of(l)[k] in m.prev
    ensures forall s: DelStores :: CutAt(m, l, InDel(w, k, s), Deleting(m, w.Of(l)[k], s, known))
  {
    WholeRing(m, l, w);
    hide WellFormed, Ring, DelPart;
    RingAt(m, w.Head(), w.Of(l), k);
  }

  lemma WholeRing(m: Links, l: Lists, w: Which)
    requires WellFormed(m, l)
    ensures RingOf(m, l, w)
  {
  }

  // ----- the repair

  /** The list whose first element does not point back, if any. */
  function TornList(m: Links): Addr
    requires STACK_USED in m.next && m.next[STACK_USED] in m.prev
    requires STACK_CACHE in m.next && m.next[STACK_CACHE] in m.prev
  {
    if m.prev[m.next[STACK_USED]] != STACK_USED then STACK_USED
    else if m.prev[m.next[STACK_CACHE]] != STACK_CACHE then STACK_CACHE
    else NULL
  }

  /** The three stores that finish an addition to the list `l`. */
  function FinishAdd(m: Links, e: Addr, l: Addr): Links
    requires l in m.next
  {
    SetNext(SetPrev(SetNext(m, e, m.next[l]), e, l), l, e)
  }

  /** What the repair sees at the head of the list `v`. */
  lemma HeadSeen(m: Links, l: Lists, e: Addr, w: Which, s: AddStores, v: Which)
    requires WellFormed(m, l) && Possible(l, InAdd(e, w, s))
    ensures var t := Snapshot(m, l, InAdd(e, w, s));
      && v.Head() in t.next && t.next[v.Head()] in t.prev
      && (t.prev[t.next[v.Head()]] != v.Head() <==> v == w && s.back && !s.front)
      && (v == w && s.back && !s.front ==> t.prev[t.next[v.Head()]] == e)
  {
    assert RingOf(m, l, v) && RingOf(m, l, w);
    RingEnds(m, v.Head(), v.Of(l));
    RingEnds(m, w.Head(), w.Of(l));
    assert v.Head() in v.Nodes(l) && m.next[v.Head()] in v.Nodes(l) && e !in v.Nodes(l);
    assert w.Head() in w.Nodes(l) && m.next[w.Head()] in w.Nodes(l);
    assert v != w ==> Disjoint(v.Nodes(l), w.Nodes(l));
  }

  lemma StoreTwice(f: map<Addr, Addr>, a: Addr, v: Addr, w: Addr)
    ensures f[a := v][a := w] == f[a := w]
  {
  }

  lemma StoreApart(f: map<Addr, Addr>, a: Addr, v: Addr, b: Addr, w: Addr)
    requires a != b
    ensures f[a := v][b := w] == f[b := w][a := v]
  {
  }

  /** Finishing an addition cut before its last store alone is the addition. */
  lemma FinishIsAdd(m: Links, e: Addr, head: Addr, s: AddStores)
    requires head in m.next && e != head && e != m.next[head] && s.back && !s.front
    ensures head in AddPart(m, e, head, s).next && FinishAdd(AddPart(m, e, head, s), e, head) == ListAdd(m, e, head)
  {
    var first := m.next[head];
    StoreTwice(m.next, e, first, first);
    StoreTwice(m.prev, e, head, head);
    StoreApart(m.prev, e, head, first, e);
    StoreTwice(m.prev[first := e], e, head, head);
    assert m.prev[e := head][first := e][e := head] == m.prev[e := head][first := e];
  }

  lemma CompletedAdd(m: Links, l: Lists, e: Addr, w: Which, s: AddStores)
    requires WellFormed(m, l) && Possible(l, InAdd(e, w, s)) && s.back && !s.front
    ensures w.Head() in m.next && w.Head() in Snapshot(m, l, InAdd(e, w, s)).next
    ensures FinishAdd(Snapshot(m, l, InAdd(e, w, s)), e, w.Head()) == ListAdd(m, e, w.Head())
  {
    assert RingOf(m, l, w) && e !in w.Nodes(l);
    RingEnds(m, w.Head(), w.Of(l));
    assert w.Head() in w.Nodes(l) && m.next[w.Head()] in w.Nodes(l);
    FinishIsAdd(m, e, w.Head(), s);
    hide WellFormed, Ring, Which.Nodes, Which.Of, FinishAdd, AddPart, ListAdd;
  }

  /** Exactly the additions cut after the back pointer and before the front one
      are seen as torn, on the right list, and finishing them is the addition. */
  lemma FinishedAdd(m: Links, l: Lists, e: Addr, w: Which, s: AddStores)
    requires WellFormed(m, l) && Possible(l, InAdd(e, w, s))
    ensures w.Head() in m.next && w.Head() in Snapshot(m, l, InAdd(e, w, s)).next
    ensures var t := Snapshot(m, l, InAdd(e, w, s));
      && STACK_USED in t.next && t.next[STACK_USED] in t.prev
      && STACK_CACHE in t.next && t.next[STACK_CACHE] in t.prev
      && TornList(t) == (if s.back && !s.front then w.Head() else NULL)
      && (s.back && !s.front ==>
            && t.next[w.Head()] in t.prev && t.prev[t.next[w.Head()]] == e
            && FinishAdd(t, e, w.Head()) == ListAdd(m, e, w.Head()))
  {
    assert w.Head() in m.next by { assert RingOf(m, l, w); RingEnds(m, w.Head(), w.Of(l)); }
    HeadSeen(m, l, e, w, s, Used);
    HeadSeen(m, l, e, w, s, Cache);
    if s.back && !s.front {
      CompletedAdd(m, l, e, w, s);
    }
    hide Snapshot, WellFormed, ListAdd, FinishAdd;
  }

  /** Nothing the repair looks at was written: the lists stand as before. */
  lemma UntouchedAdd(m: Links, l: Lists, e: Addr, w: Which, s: AddStores)
    requires WellFormed(m, l) && Possible(l, InAdd(e, w, s)) && !s.back
    ensures WellFormed(Snapshot(m, l, InAdd(e, w, s)), l)
  {
    var t := Snapshot(m, l, InAdd(e, w, s));
    forall v: Which ensures RingOf(t, l, v) {
      assert RingOf(m, l, v) && e !in v.Nodes(l);
      RingFrame(m, t, v.Head(), v.Of(l));
    }
  }

  /** list_del leaves the links of the deleted node alone, so replaying it on any
      part of itself gives the whole deletion. */
  lemma ReplayedDel(m: Links, l: Lists, w: Which, k: nat, s: DelStores)
    requires WellFormed(m, l) && Possible(l, InDel(w, k, s))
    ensures w.Of(l)[k] in m.next && w.Of(l)[k] in m.prev
    ensures var e, t := w.Of(l)[k], Snapshot(m, l, InDel(w, k, s));
      && e in t.next && e in t.prev
      && ListDel(t, e) == ListDel(m, e)
  {
    var e, ns := w.Of(l)[k], w.Nodes(l);
    assert RingOf(m, l, w);
    RingAt(m, w.Head(), w.Of(l), k);
    assert ns[k + 1] == e && ns[k] != e && m.prev[e] == ns[k];
    assert m.next[e] != e by { assert ns[0] != e; if k + 2 < |ns| { assert ns[k + 2] != ns[k + 1]; } }
    var t := DelPart(m, e, s);
    assert ListDel(t, e).next == ListDel(m, e).next && ListDel(t, e).prev == ListDel(m, e).prev;
  }

  /** Deleting `a` writes to no node of the used list or the cache. */
  ghost predicate Removable(m: Links, l: Lists, a: Addr) {
    && a in m.next && a in m.prev
    && forall w: Which :: w != User ==> a !in w.Nodes(l) && m.next[a] !in w.Nodes(l) && m.prev[a] !in w.Nodes(l)
  }

  /** Half an unrecorded addition to the list of user stacks touches no node of
      the other two lists, and leaves a descriptor on it with neighbours that
      belong to neither. */
  lemma TornUserAdd(m: Links, l: Lists, e: Addr, s: AddStores)
    requires WellFormed(m, l) && Possible(l, InUserAdd(e, s))
    ensures var t := Snapshot(m, l, InUserAdd(e, s));
      && RingOf(t, l, Used) && RingOf(t, l, Cache)
      && forall k :: 0 <= k < |l.user| ==> Removable(t, l, l.user[k])
  {
    assert RingOf(m, l, User);
    RingEnds(m, STACK_USER, l.user);
    var t := Snapshot(m, l, InUserAdd(e, s));
    assert m.next[STACK_USER] in User.Nodes(l) && STACK_USER in User.Nodes(l);
    forall w: Which | w != User ensures RingOf(t, l, w) {
      assert RingOf(m, l, w) && e !in w.Nodes(l) && Disjoint(User.Nodes(l), w.Nodes(l));
      RingFrame(m, t, w.Head(), w.Of(l));
    }
    forall k | 0 <= k < |l.user| ensures Removable(t, l, l.user[k]) {
      RingAt(m, STACK_USER, l.user, k);
      var d := l.user[k];
      assert d in User.Nodes(l) && m.next[d] in User.Nodes(l) && m.prev[d] in User.Nodes(l);
      forall w: Which | w != User ensures d !in w.Nodes(l) && t.next[d] !in w.Nodes(l) && t.prev[d] !in w.Nodes(l) {
        assert e !in w.Nodes(l) && Disjoint(User.Nodes(l), w.Nodes(l));
      }
    }
  }

  /** On well-formed lists every descriptor with a user stack can be taken off. */
  lemma UserRemovable(m: Links, l: Lists, k: nat)
    requires WellFormed(m, l) && k < |l.user|
    ensures Removable(m, l, l.user[k])
  {
    var d, ns := l.user[k], User.Nodes(l);
    assert RingOf(m, l, User);
    RingAt(m, STACK_USER, l.user, k);
    assert d in ns && m.next[d] in ns && m.prev[d] in ns;
    forall w: Which | w != User ensures d !in w.Nodes(l) && m.next[d] !in w.Nodes(l) && m.prev[d] !in w.Nodes(l) {
      assert Disjoint(ns, w.Nodes(l));
    }
  }

  /** What the repair guarantees: both library-owned lists are well formed with
      the contents decided by the cut, and so is the list of user stacks unless
      the fork struck inside the one addition that is not recorded. */
  ghost predicate Repaired(m: Links, l: Lists, c: Cut)
    requires Possible(l, c)
  {
    var r := Resolved(l, c);
    && RingOf(m, r, Used) && RingOf(m, r, Cache)
    && Disjoint(Used.Nodes(r), Cache.Nodes(r))
    && STACK_USER !in Used.Nodes(r) && STACK_USER !in Cache.Nodes(r)
    && (forall k :: 0 <= k < |r.user| ==> Removable(m, r, r.user[k]))
    && (!c.InUserAdd? ==> WellFormed(m, r))
  }

  lemma WellFormedRepaired(m: Links, l: Lists, c: Cut)
    requires Possible(l, c) && WellFormed(m, Resolved(l, c))
    ensures Repaired(m, l, c)
  {
    var r := Resolved(l, c);
    assert RingOf(m, r, Used) && RingOf(m, r, Cache);
    assert Disjoint(User.Nodes(r), Used.Nodes(r)) && Disjoint(User.Nodes(r), Cache.Nodes(r));
    assert STACK_USER in User.Nodes(r);
    forall k | 0 <= k < |r.user| ensures Removable(m, r, r.user[k]) {
      UserRemovable(m, r, k);
    }
  }

  /** An interrupted addition, finished when it was seen as torn. */
  lemma AddRepaired(m: Links, l: Lists, e: Addr, w: Which, s: AddStores)
    requires WellFormed(m, l) && Possible(l, InAdd(e, w, s))
    ensures var t := Snapshot(m, l, InAdd(e, w, s));
      && STACK_USED in t.next && t.next[STACK_USED] in t.prev
      && STACK_CACHE in t.next && t.next[STACK_CACHE] in t.prev
      && (TornList(t) != NULL ==> TornList(t) in t.next && t.next[TornList(t)] in t.prev
                                  && t.prev[t.next[TornList(t)]] == e)
      && Repaired(if TornList(t) == NULL then t else FinishAdd(t, e, TornList(t)), l, InAdd(e, w, s))
  {
    FinishedAdd(m, l, e, w, s);
    var t := Snapshot(m, l, InAdd(e, w, s));
    if s.back {
      AddKeeps(m, l, e, w);
      WellFormedRepaired(ListAdd(m, e, w.Head()), l, InAdd(e, w, s));
    } else {
      UntouchedAdd(m, l, e, w, s);
      WellFormedRepaired(t, l, InAdd(e, w, s));
    }
  }

  /** An interrupted deletion, replayed. */
  lemma DelRepaired(m: Links, l: Lists, w: Which, k: nat, s: DelStores)
    requires WellFormed(m, l) && Possible(l, InDel(w, k, s))
    ensures var e, t := w.Of(l)[k], Snapshot(m, l, InDel(w, k, s));
      && e in t.next && e in t.prev
      && Repaired(ListDel(t, e), l, InDel(w, k, s))
  {
    ReplayedDel(m, l, w, k, s);
    DelKeeps(m, l, w, k);
    WellFormedRepaired(ListDel(m, w.Of(l)[k]), l, InDel(w, k, s));
  }

  lemma UnrecordedRepaired(m: Links, l: Lists, c: Cut)
    requires WellFormed(m, l) && Possible(l, c) && (c.Quiet? || c.InUserAdd?)
    ensures Repaired(Snapshot(m, l, c), l, c)
  {
    if c.Quiet? {
      WellFormedRepaired(m, l, c);
    } else {
      TornUserAdd(m, l, c.elem, c.added);
      assert Disjoint(User.Nodes(l), Used.Nodes(l)) && Disjoint(User.Nodes(l), Cache.Nodes(l));
      assert Disjoint(Used.Nodes(l), Cache.Nodes(l)) && STACK_USER in User.Nodes(l);
    }
  }

  // ----- collecting the stacks of the threads that no longer exist

  ghost function Position(s: seq<Addr>, a: Addr): (k: nat)
    requires a in s
    ensures k < |s| && s[k] == a
  {
    var k :| 0 <= k < |s| && s[k] == a;
    k
  }

  /** The lists after reclaim: everything that was in use is cached, in front,
      except the descriptor of the running thread. */
  ghost function Reclaimed(l: Lists, self: Addr, userStack: bool): Lists
    requires userStack || self in l.used
  {
    if userStack then Lists([], l.used + l.cache, [self])
    else Lists([self], Without(l.used, Position(l.used, self)) + l.cache, [])
  }

  /** The store sequence of reclaim after the repair. */
  function ReclaimLinks(m: Links, self: Addr, userStack: bool): Links
    requires STACK_USED in m.next && STACK_USED in m.prev && STACK_CACHE in m.next
    requires var s := ListSplice(m, STACK_USED, STACK_CACHE); self in s.next && self in s.prev
  {
    var spliced := ListSplice(m, STACK_USED, STACK_CACHE);
    var emptied := InitHead(InitHead(ListDel(spliced, self), STACK_USED), STACK_USER);
    ListAdd(emptied, self, if userStack then STACK_USER else STACK_USED)
  }

  /** A thread on neither list is deleted beside the spliced cache. */
  lemma UserTakenOff(m: Links, l: Lists, self: Addr, s: Links)
    requires RingOf(m, l, Used) && RingOf(m, l, Cache) && Removable(m, l, self)
    requires STACK_USED in m.next && STACK_USED in m.prev && STACK_CACHE in m.next
    requires s == ListSplice(m, STACK_USED, STACK_CACHE) && Ring(s, STACK_CACHE, l.used + l.cache)
    ensures self in s.next && self in s.prev && Ring(ListDel(s, self), STACK_CACHE, l.used + l.cache)
    ensures self !in [STACK_CACHE] + (l.used + l.cache)
  {
    RingEnds(m, STACK_USED, l.used);
    RingEnds(m, STACK_CACHE, l.cache);
    var used, cache, all := Used.Nodes(l), Cache.Nodes(l), l.used + l.cache;
    assert self !in used && self !in cache;
    assert m.next[STACK_USED] in used && m.prev[STACK_USED] in used && m.next[STACK_CACHE] in cache;
    hide Ring;
    assert s.next[self] == m.next[self] && s.prev[self] == m.prev[self];
    assert forall a :: a in [STACK_CACHE] + all ==> a in used || a in cache;
    RingFrame(s, ListDel(s, self), STACK_CACHE, all);
  }

  /** A thread on the used list is deleted from the spliced cache. */
  lemma UsedTakenOff(used: seq<Addr>, cache: seq<Addr>, k: nat, s: Links)
    requires Ring(s, STACK_CACHE, used + cache) && k < |used|
    ensures used[k] in s.next && used[k] in s.prev
    ensures Ring(ListDel(s, used[k]), STACK_CACHE, Without(used, k) + cache)
    ensures used[k] !in [STACK_CACHE] + (Without(used, k) + cache)
  {
    var all := used + cache;
    RingDel(s, STACK_CACHE, all, k);
    RingAt(s, STACK_CACHE, all, k);
    DistinctWithout([STACK_CACHE] + all, k + 1);
    hide Ring, ListDel;
    assert Without(all, k) == Without(used, k) + cache;
    assert [STACK_CACHE] + Without(all, k) == Without([STACK_CACHE] + all, k + 1);
  }

  /** Taking the running thread off leaves one cache holding everything else. */
  lemma SelfTakenOff(m: Links, l: Lists, self: Addr, userStack: bool)
    requires RingOf(m, l, Used) && RingOf(m, l, Cache) && Disjoint(Used.Nodes(l), Cache.Nodes(l))
    requires if userStack then Removable(m, l, self) else self in l.used
    ensures STACK_USED in m.next && STACK_USED in m.prev && STACK_CACHE in m.next
    ensures var s := ListSplice(m, STACK_USED, STACK_CACHE);
      && self in s.next && self in s.prev
      && Ring(ListDel(s, self), STACK_CACHE, Reclaimed(l, self, userStack).cache)
      && self !in [STACK_CACHE] + Reclaimed(l, self, userStack).cache
  {
    hide Ring, ListSplice, ListDel, Without, Disjoint, Removable;
    RingEnds(m, STACK_USED, l.used);
    RingEnds(m, STACK_CACHE, l.cache);
    RingSplice(m, STACK_USED, l.used, STACK_CACHE, l.cache);
    var s := ListSplice(m, STACK_USED, STACK_CACHE);
    if userStack {
      UserTakenOff(m, l, self, s);
    } else {
      UsedTakenOff(l.used, l.cache, Position(l.used, self), s);
    }
  }

  /** Re-initialising the two other heads next to a well-formed cache. */
  lemma HeadsEmptied(m: Links, cache: seq<Addr>)
    requires Ring(m, STACK_CACHE, cache) && STACK_USED !in cache && STACK_USER !in cache
    ensures WellFormed(InitHead(InitHead(m, STACK_USED), STACK_USER), Lists([], cache, []))
  {
    var one, l := InitHead(m, STACK_USED), Lists([], cache, []);
    var two := InitHead(one, STACK_USER);
    RingFrame(m, two, STACK_CACHE, cache);
    RingInit(m, STACK_USED);
    RingInit(one, STACK_USER);
    RingFrame(one, two, STACK_USED, []);
    forall w: Which ensures RingOf(two, l, w) {
    }
  }

  lemma HeadsNotCached(m: Links, l: Lists, self: Addr, userStack: bool)
    requires RingOf(m, l, Used) && Disjoint(Used.Nodes(l), Cache.Nodes(l))
    requires userStack || self in l.used
    requires STACK_USER !in Used.Nodes(l) && STACK_USER !in Cache.Nodes(l)
    ensures STACK_USED !in Reclaimed(l, self, userStack).cache
    ensures STACK_USER !in Reclaimed(l, self, userStack).cache
  {
    var ns := Used.Nodes(l);
    assert ns[0] == STACK_USED && ns[0] in ns;
    forall a | a in Reclaimed(l, self, userStack).cache ensures a != STACK_USED && a != STACK_USER {
      if a in l.used {
        var k := Position(l.used, a);
        assert ns[k + 1] == a;
      } else {
        assert a in l.cache && a in Cache.Nodes(l);
      }
    }
  }

  lemma SelfAlone(m: Links, cache: seq<Addr>, self: Addr, w: Which)
    requires WellFormed(m, Lists([], cache, [])) && w != Cache
    requires self > STACK_USER && self !in [STACK_CACHE] + cache
    ensures w.Head() in m.next
    ensures WellFormed(ListAdd(m, self, w.Head()),
                       if w == User then Lists([], cache, [self]) else Lists([self], cache, []))
  {
    var bare := Lists([], cache, []);
    forall v: Which ensures self !in v.Nodes(bare) {
    }
    AddKeeps(m, bare, self, w);
    assert [self] + w.Of(bare) == [self];
  }

  /** Reclaim leaves three well-formed lists with `self` alone on its own. */
  lemma ReclaimShape(m: Links, l: Lists, self: Addr, userStack: bool)
    requires RingOf(m, l, Used) && RingOf(m, l, Cache) && Disjoint(Used.Nodes(l), Cache.Nodes(l))
    requires if userStack then Removable(m, l, self) else self in l.used
    requires self > STACK_USER && STACK_USER !in Used.Nodes(l) && STACK_USER !in Cache.Nodes(l)
    ensures STACK_USED in m.next && STACK_USED in m.prev && STACK_CACHE in m.next
    ensures var s := ListSplice(m, STACK_USED, STACK_CACHE); self in s.next && self in s.prev
    ensures WellFormed(ReclaimLinks(m, self, userStack), Reclaimed(l, self, userStack))
  {
    SelfTakenOff(m, l, self, userStack);
    var cache := Reclaimed(l, self, userStack).cache;
    HeadsNotCached(m, l, self, userStack);
    HeadsEmptied(ListDel(ListSplice(m, STACK_USED, STACK_CACHE), self), cache);
    SelfAlone(InitHead(InitHead(ListDel(ListSplice(m, STACK_USED, STACK_CACHE), self), STACK_USED), STACK_USER),
              cache, self, if userStack then User else Used);
  }
}
