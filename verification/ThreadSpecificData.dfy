/** Tearing down a thread's specific data while its destructors may store new
    data, create keys and delete them. */
module ThreadSpecificData {

  import opened KeyBlocks

  const DESTRUCTOR_ITERATIONS := 4
  const KEYS_MAX := 1024

  /** A key is in use when its sequence number is odd. */
  datatype Key = Key(seqno: nat, destr: bool)

  /** What a destructor does to this thread's data and to the process's keys. */
  datatype Action = Set(key: nat, value: nat) | Create(key: nat, destr: bool) | Delete(key: nat)

  function KeysOf(acts: seq<Action>): set<nat> { set a | a in acts :: a.key }

  /** One of the destructor calls from `from` up to `to` acts on this key. */
  ghost predicate Meddled(env: nat -> seq<Action>, from: nat, to: nat, k: nat) {
    exists c: nat :: from <= c < to && k in KeysOf(env(c))
  }

  /** A destructor call: the key whose destructor ran, the argument, what the
      key's own slot held before it was visited and when the destructor starts,
      and the two sequence numbers. */
  datatype Call = Call(key: nat, arg: nat, held: nat, left: nat, slotSeq: nat, keySeq: nat)

  /** A destructor gets what its own key's slot held, finds that slot cleared,
      and runs only for a current key. */
  predicate Honest(c: Call) {
    c.arg == c.held && c.arg != 0 && c.left == 0 && c.slotSeq == c.keySeq && c.key < KEYS_MAX
  }

  type Blocks = map<nat, seq<KeyData>>

  function SlotOf(bs: Blocks, k: nat): KeyData {
    var b, i := k / KEYS_PER_BLOCK, k % KEYS_PER_BLOCK;
    if b in bs && i < |bs[b]| then bs[b][i] else KeyData(0, 0)
  }

  predicate Shaped(bs: Blocks) {
    && 0 in bs
    && forall b :: b in bs ==> b < KEY_BLOCKS && |bs[b]| == KEYS_PER_BLOCK
  }

  ghost predicate NoData(bs: Blocks) {
    forall k: nat :: SlotOf(bs, k).data == 0
  }

  // ----- what a round comes to

  /** A thread's data, the flag, the process's keys, and the calls made so far. */
  datatype Data = Data(blocks: Blocks, used: bool, keys: seq<Key>, calls: seq<Call>)

  function StoredIn(d: Data, k: nat, v: nat): Data
    requires k < |d.keys|
  {
    var b, i := k / KEYS_PER_BLOCK, k % KEYS_PER_BLOCK;
    if d.keys[k].seqno % 2 == 0 || (b !in d.blocks && v == 0) then d
    else
      var level2 := if b in d.blocks then d.blocks[b] else CleanBlock();
      if i < |level2|
      then d.(blocks := d.blocks[b := level2[i := KeyData(d.keys[k].seqno, v)]], used := d.used || v != 0 || b > 0)
      else d
  }

  function Performed(d: Data, a: Action): Data {
    if a.key >= |d.keys| then d
    else
      var current := d.keys[a.key].seqno % 2 == 1;
      match a
      case Set(k, v) => StoredIn(d, k, v)
      case Create(k, destr) => if current then d else d.(keys := d.keys[k := Key(d.keys[k].seqno + 1, destr)])
      case Delete(k) => if current then d.(keys := d.keys[k := d.keys[k].(seqno := d.keys[k].seqno + 1)]) else d
  }

  function Destructed(d: Data, acts: seq<Action>): Data {
    if acts == [] then d else Performed(Destructed(d, acts[..|acts| - 1]), acts[|acts| - 1])
  }

  function Visited(d: Data, k: nat, acts: seq<Action>): Data {
    var cleared := d.(blocks := Cleared(d.blocks, k), calls := d.calls + CallFor(d.blocks, d.keys, k));
    if Live(d.blocks, d.keys, k) then Destructed(cleared, acts) else cleared
  }

  /** A round's first n slots. */
  function SweptTo(d: Data, n: nat, env: nat -> seq<Action>): Data {
    if n == 0 then d.(used := false)
    else
      var before := SweptTo(d, n - 1, env);
      Visited(before, n - 1, env(|before.calls|))
  }

  function AfterRounds(d: Data, n: nat, env: nat -> seq<Action>): Data {
    if n == 0 then d else SweptTo(AfterRounds(d, n - 1, env), KEYS_MAX, env)
  }

  /** Every key that was live when the round began, and that no destructor of this
      round acts on, has its destructor called in it with its value. */
  ghost predicate RoundAnswers(env: nat -> seq<Action>, before: Data, after: Data) {
    && before.calls <= after.calls
    && forall k: nat :: Live(before.blocks, before.keys, k) && !Meddled(env, |before.calls|, |after.calls|, k) ==>
         CallFor(before.blocks, before.keys, k)[0] in after.calls[|before.calls|..]
  }

  lemma {:induction false} SkippedSlots(d: Data, n: nat, m: nat, env: nat -> seq<Action>)
    requires n % KEYS_PER_BLOCK == 0 && m <= KEYS_PER_BLOCK
    requires n / KEYS_PER_BLOCK !in SweptTo(d, n, env).blocks
    ensures SweptTo(d, n + m, env) == SweptTo(d, n, env)
  {
    hide SweptTo, Visited;
    if m > 0 {
      SkippedSlots(d, n, m - 1, env);
      assert (n + m - 1) / KEYS_PER_BLOCK == n / KEYS_PER_BLOCK;
      OneSlotMore(d, n + m - 1, env);
      NoSuchSlot(SweptTo(d, n, env), n + m - 1, env(|SweptTo(d, n, env).calls|));
    }
  }

  lemma NoSuchSlot(d: Data, k: nat, acts: seq<Action>)
    requires k / KEYS_PER_BLOCK !in d.blocks
    ensures Visited(d, k, acts) == d
  {
  }

  lemma OneSlotMore(d: Data, n: nat, env: nat -> seq<Action>)
    ensures SweptTo(d, n + 1, env) == Visited(SweptTo(d, n, env), n, env(|SweptTo(d, n, env).calls|))
  {
  }

  class Thread {
    /** The allocated blocks of slots; block 0 is part of the descriptor. */
    var blocks: Blocks
    var specificUsed: bool
    var keys: seq<Key>
    var calls: seq<Call>
    /** The keys some destructor stored to, created or deleted. */
    ghost var touched: set<nat>

    ghost predicate Valid()
      reads this
    {
      && Shaped(blocks) && |keys| == KEYS_MAX
      && forall c :: c in calls ==> Honest(c)
    }

    function Now(): Data
      reads this
    {
      Data(blocks, specificUsed, keys, calls)
    }

    /** What running destructor code can have done since the state given. */
    ghost predicate After(bs: Blocks, ks: seq<Key>, used: bool, cs: seq<Call>, ts: set<nat>)
      reads this
    {
      && Valid() && calls == cs && ts <= touched && |ks| == KEYS_MAX
      && bs.Keys <= blocks.Keys && (used ==> specificUsed)
      && (forall k: nat :: k !in touched ==> SlotOf(blocks, k) == SlotOf(bs, k))
      && (forall k: nat :: k !in touched && k < KEYS_MAX ==> keys[k] == ks[k])
      && (!specificUsed ==> forall k: nat :: SlotOf(bs, k).data == 0 ==> SlotOf(blocks, k).data == 0)
    }

    /** pthread_setspecific: storing data sets the flag, and so does any store
        outside the first block, which is allocated when data is first stored there. */
    method SetSpecific(k: nat, v: nat)
      requires Valid() && k < KEYS_MAX && k in touched
      modifies this`blocks, this`specificUsed
      ensures After(old(blocks), keys, old(specificUsed), calls, touched)
      ensures Now() == StoredIn(old(Now()), k, v)
    {
      if keys[k].seqno % 2 == 1 {
        var b, i := k / KEYS_PER_BLOCK, k % KEYS_PER_BLOCK;
        if b !in blocks {
          if v == 0 {
            return;
          }
          AddedBlock(blocks, b);
          blocks := blocks[b := CleanBlock()];
        }
        if v != 0 || b > 0 {
          specificUsed := true;
        }
        StoredSlot(blocks, k, KeyData(keys[k].seqno, v));
        hide SlotOf;
        blocks := blocks[b := blocks[b][i := KeyData(keys[k].seqno, v)]];
      }
    }

    /** One thing a destructor does: pthread_setspecific, pthread_key_create or
        pthread_key_delete. */
    method Perform(a: Action)
      requires Valid()
      modifies this`blocks, this`specificUsed, this`keys, this`touched
      ensures After(old(blocks), old(keys), old(specificUsed), old(calls), old(touched))
      ensures touched == old(touched) + {a.key} && Now() == Performed(old(Now()), a)
    {
      hide SlotOf, NoData;
      touched := touched + {a.key};
      if a.key >= KEYS_MAX {
        return;
      }
      match a
      case Set(k, v) => SetSpecific(k, v);
      case Create(k, d) =>
        if keys[k].seqno % 2 == 0 {
          keys := keys[k := Key(keys[k].seqno + 1, d)];
        }
      case Delete(k) =>
        if keys[k].seqno % 2 == 1 {
          keys := keys[k := keys[k].(seqno := keys[k].seqno + 1)];
        }
    }

    /** A destructor runs to completion. */
    method RunDestructor(acts: seq<Action>)
      requires Valid()
      modifies this`blocks, this`specificUsed, this`keys, this`touched
      ensures After(old(blocks), old(keys), old(specificUsed), old(calls), old(touched))
      ensures touched <= old(touched) + KeysOf(acts) && Now() == Destructed(old(Now()), acts)
    {
      hide SlotOf, Performed, Shaped;
      for j := 0 to |acts|
        invariant After(old(blocks), old(keys), old(specificUsed), old(calls), old(touched))
        invariant touched <= old(touched) + KeysOf(acts) && Now() == Destructed(old(Now()), acts[..j])
      {
        Perform(acts[j]);
        assert acts[..j + 1][..j] == acts[..j];
      }
      assert acts[..|acts|] == acts;
    }

    /** One pass of the innermost loop: the slot is cleared, and its destructor
        runs if the sequence numbers match. */
    method VisitSlot(cnt: nat, inner: nat, idx: nat, acts: seq<Action>)
      requires Valid() && cnt in blocks && inner < KEYS_PER_BLOCK
      requires idx == cnt * KEYS_PER_BLOCK + inner
      modifies this`blocks, this`specificUsed, this`keys, this`touched, this`calls
      ensures After(Cleared(old(blocks), idx), old(keys), old(specificUsed), calls, old(touched))
      ensures calls == old(calls) + CallFor(old(blocks), old(keys), idx)
      ensures touched <= old(touched) + KeysOf(acts) && (calls == old(calls) ==> touched == old(touched))
      ensures Now() == Visited(old(Now()), idx, acts)
    {
      var level2 := blocks[cnt];
      var data, held := level2[inner].data, SlotOf(blocks, idx).data;
      SlotAt(blocks, cnt, inner);
      if data != 0 {
        blocks := blocks[cnt := level2[inner := level2[inner].(data := 0)]];
        ClearedSlot(old(blocks), idx);
        assert blocks == Cleared(old(blocks), idx);
        if level2[inner].seqno == keys[idx].seqno && keys[idx].destr {
          calls := calls + [Call(idx, data, held, SlotOf(blocks, idx).data, level2[inner].seqno, keys[idx].seqno)];
          RunDestructor(acts);
        }
      } else {
        assert blocks == Cleared(blocks, idx);
      }
    }

    /** How far a round that began with the slots and keys given has come:
        every slot below idx was visited, none from idx on. */
    ghost predicate Swept(bs: Blocks, ks: seq<Key>, n: nat, idx: nat)
      reads this
    {
      && Valid() && n <= |calls| && |ks| == KEYS_MAX
      && (!specificUsed ==> forall k: nat :: k < idx ==> SlotOf(blocks, k).data == 0)
      && (forall k: nat :: idx <= k && k !in touched ==> SlotOf(blocks, k) == SlotOf(bs, k))
      && (forall k: nat :: k < KEYS_MAX && k !in touched ==> keys[k] == ks[k])
      && (forall k: nat :: k < idx && k !in touched && Live(bs, ks, k) ==> CallFor(bs, ks, k)[0] in calls[n..])
    }

    method SweepSlot(cnt: nat, inner: nat, idx: nat, acts: seq<Action>, ghost bs: Blocks, ghost ks: seq<Key>,
          ghost n: nat)
      requires Swept(bs, ks, n, idx) && cnt in blocks && inner < KEYS_PER_BLOCK
      requires idx == cnt * KEYS_PER_BLOCK + inner
      modifies this`blocks, this`specificUsed, this`keys, this`touched, this`calls
      ensures Swept(bs, ks, n, idx + 1) && old(blocks).Keys <= blocks.Keys
      ensures old(calls) <= calls && old(touched) <= touched <= old(touched) + KeysOf(acts)
      ensures (|calls| == |old(calls)| && touched == old(touched)) || |calls| == |old(calls)| + 1
      ensures Now() == Visited(old(Now()), idx, acts)
    {
      VisitSlot(cnt, inner, idx, acts);
      ClearedSlot(old(blocks), idx);
      assert calls[n..] == old(calls)[n..] + CallFor(old(blocks), old(keys), idx);
    }

    /** One round over all first-level entries. */
    method Sweep(env: nat -> seq<Action>)
      requires Valid()
      modifies this`blocks, this`specificUsed, this`keys, this`touched, this`calls
      ensures Now() == SweptTo(old(Now()), KEYS_MAX, env)
      ensures Swept(old(blocks), old(keys), |old(calls)|, KEYS_MAX)
      ensures old(calls) <= calls && Acted(env, |old(calls)|, |calls|, old(touched), touched)
    {
      hide After, Live, CallFor, KeysOf, Visited, Acted, SweptTo;
      ghost var start, bs, ks, n, was := Now(), blocks, keys, |calls|, touched;
      NoSlots(start, env);
      NoneActed(env, n, was);
      specificUsed := false;
      var idx := 0;
      for cnt := 0 to KEY_BLOCKS
        invariant idx == cnt * KEYS_PER_BLOCK
        invariant Swept(bs, ks, n, idx) && Now() == SweptTo(start, idx, env)
        invariant start.calls <= calls && Acted(env, n, |calls|, was, touched)
      {
        if cnt in blocks {
          idx := SweepBlock(env, cnt, idx, start, was);
        } else {
          SkippedBlock(cnt, bs, ks, n);
          SkippedSlots(start, idx, KEYS_PER_BLOCK, env);
          idx := idx + KEY_BLOCKS;
        }
      }
    }

    /** The inner loop, over the slots of one block. */
    method SweepBlock(env: nat -> seq<Action>, cnt: nat, idx0: nat, ghost start: Data, ghost was: set<nat>)
      returns (idx: nat)
      requires cnt in blocks && idx0 == cnt * KEYS_PER_BLOCK
      requires Swept(start.blocks, start.keys, |start.calls|, idx0) && Now() == SweptTo(start, idx0, env)
      requires start.calls <= calls && Acted(env, |start.calls|, |calls|, was, touched)
      modifies this`blocks, this`specificUsed, this`keys, this`touched, this`calls
      ensures idx == idx0 + KEYS_PER_BLOCK
      ensures Swept(start.blocks, start.keys, |start.calls|, idx) && Now() == SweptTo(start, idx, env)
      ensures start.calls <= calls && Acted(env, |start.calls|, |calls|, was, touched)
    {
      hide After, Live, CallFor, KeysOf, Visited, Acted, SweptTo;
      idx := idx0;
      for inner := 0 to KEYS_PER_BLOCK
        invariant cnt in blocks && idx == cnt * KEYS_PER_BLOCK + inner
        invariant Swept(start.blocks, start.keys, |start.calls|, idx) && Now() == SweptTo(start, idx, env)
        invariant start.calls <= calls && Acted(env, |start.calls|, |calls|, was, touched)
      {
        OneSlotMore(start, idx, env);
        ActedMore(env, |start.calls|, |calls|, was, touched);
        SweepSlot(cnt, inner, idx, env(|calls|), start.blocks, start.keys, |start.calls|);
        idx := idx + 1;
      }
    }

    lemma SweptAll(bs: Blocks, ks: seq<Key>, n: nat)
      requires Swept(bs, ks, n, KEYS_MAX)
      ensures Answered(bs, ks, calls[n..], touched)
      ensures !specificUsed ==> NoData(blocks)
    {
    }

    lemma SkippedBlock(cnt: nat, bs: Blocks, ks: seq<Key>, n: nat)
      requires Swept(bs, ks, n, cnt * KEYS_PER_BLOCK) && cnt !in blocks
      ensures Swept(bs, ks, n, cnt * KEYS_PER_BLOCK + KEY_BLOCKS)
    {
      forall k: nat | cnt * KEYS_PER_BLOCK <= k < cnt * KEYS_PER_BLOCK + KEY_BLOCKS
        ensures SlotOf(blocks, k).data == 0
      {
        assert k / KEYS_PER_BLOCK == cnt;
      }
    }

    method FreeBlocks()
      requires Shaped(blocks)
      modifies this`blocks
      ensures blocks == map[0 := old(blocks)[0]]
    {
      for cnt := 1 to KEY_BLOCKS
        invariant Shaped(blocks) && blocks[0] == old(blocks)[0]
        invariant forall b :: 1 <= b < cnt ==> b !in blocks
      {
        if cnt in blocks {
          blocks := blocks - {cnt};
        }
      }
    }

    /** A thread's data is torn down, whatever its destructors do: env gives
        the actions of each destructor call.  Rounds are made while data was
        stored, up to the limit; each answers for the data it finds; and only
        after the last may data be dropped. */
    method Deallocate(env: nat -> seq<Action>) returns (rounds: nat)
      requires Valid()
      modifies this
      ensures Valid() && old(calls) <= calls
      ensures old(specificUsed) ==> NoData(blocks) && blocks.Keys == {0} && !specificUsed
      ensures var d := old(Now());
        && keys == AfterRounds(d, rounds, env).keys && calls == AfterRounds(d, rounds, env).calls
        && (forall r: nat :: r < rounds ==> AfterRounds(d, r, env).used)
        && (AfterRounds(d, rounds, env).used ==> rounds == DESTRUCTOR_ITERATIONS)
        && (rounds > 0 ==> NoData(AfterRounds(d, rounds, env).blocks) || rounds == DESTRUCTOR_ITERATIONS)
        && (forall r: nat :: r < rounds ==> RoundAnswers(env, AfterRounds(d, r, env), AfterRounds(d, r + 1, env)))
      ensures rounds <= DESTRUCTOR_ITERATIONS && (rounds == 0 ==> blocks == old(blocks))
    {
      hide Live, CallFor, KeysOf, SweptTo, RoundAnswers, NoData;
      ghost var d := Now();
      rounds := 0;
      if specificUsed {
        while true
          invariant Valid() && specificUsed && rounds < DESTRUCTOR_ITERATIONS && Now() == AfterRounds(d, rounds, env)
          invariant old(calls) <= calls
          invariant forall r: nat :: r <= rounds ==> AfterRounds(d, r, env).used
          invariant forall r: nat :: r < rounds ==>
            RoundAnswers(env, AfterRounds(d, r, env), AfterRounds(d, r + 1, env))
          decreases DESTRUCTOR_ITERATIONS - rounds
        {
          ghost var before := Now();
          Round(env);
          rounds := rounds + 1;
          assert Now() == AfterRounds(d, rounds, env) && RoundAnswers(env, before, Now());
          if !specificUsed {
            break;
          }
          if rounds == DESTRUCTOR_ITERATIONS {
            blocks := blocks[0 := CleanBlock()];
            break;
          }
        }
        ghost var left := blocks;
        FreeBlocks();
        FirstBlockOnly(left);
        specificUsed := false;
      }
    }

    /** One round, and what it answers for. */
    method Round(env: nat -> seq<Action>)
      requires Valid()
      modifies this`blocks, this`specificUsed, this`keys, this`touched, this`calls
      ensures Valid() && Now() == SweptTo(old(Now()), KEYS_MAX, env) && RoundAnswers(env, old(Now()), Now())
      ensures old(calls) <= calls
      ensures !specificUsed ==> NoData(blocks)
    {
      hide Live, CallFor, KeysOf, SweptTo, NoData;
      ghost var before := Now();
      touched := {};
      Sweep(env);
      SweptAll(before.blocks, before.keys, |before.calls|);
    }
  }

  /** What has been acted on since: only keys that destructor calls act on. */
  ghost predicate Acted(env: nat -> seq<Action>, from: nat, to: nat, was: set<nat>, touched: set<nat>) {
    was <= touched && forall k :: k in touched ==> k in was || Meddled(env, from, to, k)
  }

  lemma NoneActed(env: nat -> seq<Action>, from: nat, was: set<nat>)
    ensures Acted(env, from, from, was, was)
  {
  }

  lemma ActedMore(env: nat -> seq<Action>, from: nat, to: nat, was: set<nat>, touched: set<nat>)
    requires Acted(env, from, to, was, touched) && from <= to
    ensures forall now: set<nat> :: touched <= now <= touched + KeysOf(env(to)) ==> Acted(env, from, to + 1, was, now)
  {
    hide KeysOf;
    forall now: set<nat> | touched <= now <= touched + KeysOf(env(to)) ensures Acted(env, from, to + 1, was, now) {
      forall k | k in now ensures k in was || Meddled(env, from, to + 1, k) {
        if k !in touched {
          assert k in KeysOf(env(to));
        }
      }
    }
  }

  lemma NoSlots(d: Data, env: nat -> seq<Action>)
    ensures SweptTo(d, 0, env) == d.(used := false)
  {
  }

  predicate Live(bs: Blocks, ks: seq<Key>, k: nat) {
    && k < |ks| && SlotOf(bs, k).data != 0
    && SlotOf(bs, k).seqno == ks[k].seqno && ks[k].destr
  }

  /** Every key that was live and that no destructor interfered with had its
      destructor called with its value. */
  ghost predicate Answered(bs: Blocks, ks: seq<Key>, cs: seq<Call>, touched: set<nat>) {
    forall k: nat :: k !in touched && Live(bs, ks, k) ==> CallFor(bs, ks, k)[0] in cs
  }

  lemma FirstBlockOnly(bs: Blocks)
    requires Shaped(bs) && (NoData(bs) || bs[0] == CleanBlock())
    ensures NoData(map[0 := bs[0]])
  {
    forall k: nat ensures SlotOf(map[0 := bs[0]], k).data == 0 {
      if NoData(bs) {
        assert SlotOf(bs, k).data == 0;
      }
    }
  }

  function CallFor(bs: Blocks, ks: seq<Key>, k: nat): seq<Call> {
    if Live(bs, ks, k)
    then [Call(k, SlotOf(bs, k).data, SlotOf(bs, k).data, 0, SlotOf(bs, k).seqno, ks[k].seqno)]
    else []
  }

  function Cleared(bs: Blocks, k: nat): Blocks {
    var b, i := k / KEYS_PER_BLOCK, k % KEYS_PER_BLOCK;
    if b in bs && i < |bs[b]| && bs[b][i].data != 0
    then bs[b := bs[b][i := bs[b][i].(data := 0)]]
    else bs
  }

  lemma SlotAt(bs: Blocks, b: nat, i: nat)
    requires Shaped(bs) && b in bs && i < KEYS_PER_BLOCK
    ensures SlotOf(bs, b * KEYS_PER_BLOCK + i) == bs[b][i]
  {
  }

  lemma StoredSlot(bs: Blocks, k: nat, d: KeyData)
    requires Shaped(bs) && k / KEYS_PER_BLOCK in bs
    ensures var b, i := k / KEYS_PER_BLOCK, k % KEYS_PER_BLOCK;
      var r := bs[b := bs[b][i := d]];
      Shaped(r) && SlotOf(r, k) == d && forall j: nat :: j != k ==> SlotOf(r, j) == SlotOf(bs, j)
  {
    var b, i := k / KEYS_PER_BLOCK, k % KEYS_PER_BLOCK;
    var r := bs[b := bs[b][i := d]];
    forall j: nat | j != k ensures SlotOf(r, j) == SlotOf(bs, j) {
      assert j / KEYS_PER_BLOCK == b ==> j % KEYS_PER_BLOCK != i;
    }
  }

  lemma AddedBlock(bs: Blocks, b: nat)
    requires Shaped(bs) && b < KEY_BLOCKS && b !in bs
    ensures Shaped(bs[b := CleanBlock()]) && forall j: nat :: SlotOf(bs[b := CleanBlock()], j) == SlotOf(bs, j)
  {
  }

  lemma ClearedSlot(bs: Blocks, k: nat)
    requires Shaped(bs)
    ensures Shaped(Cleared(bs, k)) && Cleared(bs, k).Keys == bs.Keys
    ensures SlotOf(Cleared(bs, k), k).data == 0
    ensures forall j: nat :: j != k ==> SlotOf(Cleared(bs, k), j) == SlotOf(bs, j)
  {
    forall j: nat | j != k ensures SlotOf(Cleared(bs, k), j) == SlotOf(bs, j) {
      assert j / KEYS_PER_BLOCK == k / KEYS_PER_BLOCK ==> j % KEYS_PER_BLOCK != k % KEYS_PER_BLOCK;
    }
  }
}
