/** What the stack allocator's searches are meant to find and what its
    accounting adds up, on the contents of the lists. */
module StackSpec {
  import opened KeyBlocks
  import opened Rings
  import opened StackArithmetic

  /** The part of struct pthread the allocator reads or writes.  `level2` holds
      the allocated key blocks after the first. */
  datatype Descriptor = Descriptor(
    tid: int,
    stackBlock: Addr,
    blockSize: Size,
    guardSize: Size,
    reportedGuardSize: Size,
    userStack: bool,
    cancelHandling: nat,
    setxidFutex: int,
    firstBlock: seq<KeyData>,
    level2: map<nat, seq<KeyData>>,
    specificUsed: bool)

  type Memory = map<Addr, Descriptor>

  predicate IsFree(mem: Memory, a: Addr) {
    a in mem && mem[a].tid <= 0
  }

  function SizeAt(mem: Memory, a: Addr): nat {
    if a in mem then mem[a].blockSize else 0
  }

  function Sum(mem: Memory, s: seq<Addr>): nat {
    if s == [] then 0 else SizeAt(mem, s[0]) + Sum(mem, s[1..])
  }

  lemma {:induction false} SumConcat(mem: Memory, s: seq<Addr>, t: seq<Addr>)
    ensures Sum(mem, s + t) == Sum(mem, s) + Sum(mem, t)
  {
    if s == [] {
      assert s + t == t;
    } else {
      SumConcat(mem, s[1..], t);
      assert (s + t)[1..] == s[1..] + t;
    }
  }

  lemma SumWithout(mem: Memory, s: seq<Addr>, k: nat)
    requires k < |s|
    ensures Sum(mem, Without(s, k)) == Sum(mem, s) - SizeAt(mem, s[k])
  {
    SumConcat(mem, s[..k], s[k + 1..]);
    SumConcat(mem, s[..k], s[k..]);
    assert s == s[..k] + s[k..];
  }

  lemma {:induction false} SumFrame(mem: Memory, mem': Memory, s: seq<Addr>)
    requires forall a :: a in s ==> SizeAt(mem', a) == SizeAt(mem, a)
    ensures Sum(mem', s) == Sum(mem, s)
  {
    if s != [] {
      assert s[0] in s && forall a :: a in s[1..] ==> a in s;
      SumFrame(mem, mem', s[1..]);
    }
  }

  // ----- the search for a cached stack

  predicate Fits(mem: Memory, a: Addr, size: Size) {
    IsFree(mem, a) && mem[a].blockSize >= size
  }

  /** Entry k is the first of the smallest free entries that are large enough. */
  ghost predicate BestFit(mem: Memory, s: seq<Addr>, size: Size, k: nat) {
    && k < |s| && Fits(mem, s[k], size)
    && forall j :: 0 <= j < |s| && Fits(mem, s[j], size) ==>
         if j < k then mem[s[k]].blockSize < mem[s[j]].blockSize
         else mem[s[k]].blockSize <= mem[s[j]].blockSize
  }

  /** A best fit exists exactly when anything fits. */
  lemma {:induction false} BestFitExists(mem: Memory, s: seq<Addr>, size: Size)
    ensures (exists k: nat :: BestFit(mem, s, size, k)) <==> exists a :: a in s && Fits(mem, a, size)
  {
    if s != [] {
      var n := |s| - 1;
      BestFitExists(mem, s[..n], size);
      if exists k: nat :: BestFit(mem, s[..n], size, k) {
        var k: nat :| BestFit(mem, s[..n], size, k);
        assert s[k] in s;
        if Fits(mem, s[n], size) && mem[s[n]].blockSize < mem[s[k]].blockSize {
          assert BestFit(mem, s, size, n);
        } else {
          assert BestFit(mem, s, size, k);
        }
      } else if Fits(mem, s[n], size) {
        assert BestFit(mem, s, size, n);
      } else {
        forall a | a in s ensures !Fits(mem, a, size) {
          assert a in s[..n] || a == s[n];
        }
        forall k: nat ensures !BestFit(mem, s, size, k) {
        }
      }
    }
  }

  /** The first i entries hold no fit (k = i), or k is the best of them and not an
      exact match. */
  ghost predicate Searched(mem: Memory, s: seq<Addr>, size: Size, i: nat, k: nat) {
    && k <= i <= |s|
    && (k == i ==> forall j :: 0 <= j < i ==> !Fits(mem, s[j], size))
    && (k < i ==> BestFit(mem, s[..i], size, k) && mem[s[k]].blockSize > size)
  }

  /** The candidate after looking at entry i: a smaller fit replaces it. */
  ghost function Candidate(mem: Memory, s: seq<Addr>, size: Size, i: nat, k: nat): nat
    requires i < |s| && k <= i
  {
    if !Fits(mem, s[i], size) then (if k == i then i + 1 else k)
    else if k == i || SizeAt(mem, s[k]) > SizeAt(mem, s[i]) then i
    else k
  }

  lemma SearchStep(mem: Memory, s: seq<Addr>, size: Size, i: nat, k: nat)
    requires Searched(mem, s, size, i, k) && i < |s|
    ensures k <= i && (k < i ==> s[k] in mem)
    ensures if Fits(mem, s[i], size) && SizeAt(mem, s[i]) == size then BestFit(mem, s, size, i)
            else Searched(mem, s, size, i + 1, Candidate(mem, s, size, i, k))
  {
    assert s[..i + 1] == s[..i] + [s[i]];
  }

  /** At the end the candidate, if any, is the best fit of the whole list. */
  lemma SearchEnd(mem: Memory, s: seq<Addr>, size: Size, k: nat)
    requires Searched(mem, s, size, |s|, k)
    ensures k < |s| ==> BestFit(mem, s, size, k)
    ensures k == |s| ==> forall j: nat :: !BestFit(mem, s, size, j)
  {
    assert s[..|s|] == s;
  }

  // ----- trimming the cache from its end

  function Kept(mem: Memory, s: seq<Addr>): seq<Addr> {
    if s == [] then [] else (if IsFree(mem, s[0]) then [] else [s[0]]) + Kept(mem, s[1..])
  }

  function Removed(mem: Memory, s: seq<Addr>): seq<Addr> {
    if s == [] then [] else (if IsFree(mem, s[0]) then [s[0]] else []) + Removed(mem, s[1..])
  }

  /** The cache without its free entries from index k on. */
  function Trimmed(mem: Memory, s: seq<Addr>, k: nat): seq<Addr>
    requires k <= |s|
  {
    s[..k] + Kept(mem, s[k..])
  }

  lemma {:induction false} KeptElements(mem: Memory, s: seq<Addr>)
    ensures forall a :: a in Kept(mem, s) <==> a in s && !IsFree(mem, a)
    ensures forall a :: a in Removed(mem, s) <==> a in s && IsFree(mem, a)
  {
    if s != [] {
      KeptElements(mem, s[1..]);
      assert forall a :: a in s <==> a == s[0] || a in s[1..];
    }
  }

  lemma KeptAt(mem: Memory, s: seq<Addr>, i: nat)
    requires i < |s|
    ensures Kept(mem, s[i..]) == (if IsFree(mem, s[i]) then [] else [s[i]]) + Kept(mem, s[i + 1..])
    ensures Removed(mem, s[i..]) == (if IsFree(mem, s[i]) then [s[i]] else []) + Removed(mem, s[i + 1..])
  {
    assert s[i..][1..] == s[i + 1..];
  }

  /** A run of entries that are not free stays where it is. */
  lemma {:induction false} KeptRun(mem: Memory, s: seq<Addr>, i: nat, k: nat)
    requires i <= k <= |s| && forall j :: i <= j < k ==> !IsFree(mem, s[j])
    ensures Kept(mem, s[i..]) == s[i..k] + Kept(mem, s[k..])
    ensures Removed(mem, s[i..]) == Removed(mem, s[k..])
    decreases k - i
  {
    hide Kept, Removed;
    if i == k {
      assert s[i..k] == [];
    } else {
      KeptAt(mem, s, i);
      KeptRun(mem, s, i + 1, k);
      assert s[i..k] == [s[i]] + s[i + 1..k];
    }
  }

  /** Taking out the last free entry before the stopping place moves it there. */
  lemma TrimFurther(mem: Memory, s: seq<Addr>, i: nat, k: nat)
    requires i < k <= |s| && IsFree(mem, s[i]) && forall j :: i < j < k ==> !IsFree(mem, s[j])
    ensures |Trimmed(mem, s, k)| >= k && Trimmed(mem, s, k)[i] == s[i]
    ensures Without(Trimmed(mem, s, k), i) == Trimmed(mem, s, i)
    ensures Removed(mem, s[i..]) == [s[i]] + Removed(mem, s[k..])
  {
    hide Kept, Removed;
    KeptRun(mem, s, i + 1, k);
    KeptAt(mem, s, i);
    var tail := Kept(mem, s[k..]);
    assert Without(s[..k] + tail, i) == s[..i] + (s[i + 1..k] + tail);
  }

  lemma {:induction false} KeptSum(mem: Memory, s: seq<Addr>)
    ensures Sum(mem, s) == Sum(mem, Kept(mem, s)) + Sum(mem, Removed(mem, s))
  {
    if s != [] {
      KeptSum(mem, s[1..]);
      SumConcat(mem, if IsFree(mem, s[0]) then [] else [s[0]], Kept(mem, s[1..]));
      SumConcat(mem, if IsFree(mem, s[0]) then [s[0]] else [], Removed(mem, s[1..]));
    }
  }

  lemma TrimmedSum(mem: Memory, s: seq<Addr>, k: nat)
    requires k <= |s|
    ensures Sum(mem, Trimmed(mem, s, k)) == Sum(mem, s) - Sum(mem, Removed(mem, s[k..]))
  {
    assert s == s[..k] + s[k..];
    SumConcat(mem, s[..k], s[k..]);
    SumConcat(mem, s[..k], Kept(mem, s[k..]));
    KeptSum(mem, s[k..]);
  }

  /** The trim stopped at index k: what is left is within the limit or holds no
      free entry, and, if it removed anything, the entry it removed last was free
      and was either the first one it removed or what brought the total down to
      the limit. */
  ghost predicate StopsAt(mem: Memory, s: seq<Addr>, limit: nat, k: nat) {
    && k <= |s|
    && (Sum(mem, Trimmed(mem, s, k)) <= limit || Removed(mem, s[..k]) == [])
    && (k < |s| ==> IsFree(mem, s[k]))
    && (k == |s| ==> Removed(mem, s) == [])
    && (k < |s| ==> Removed(mem, s[k + 1..]) == [] || Sum(mem, Trimmed(mem, s, k)) + SizeAt(mem, s[k]) > limit)
  }

  /** What is unmapped had no thread; and over the limit everything left has one. */
  lemma OnlyFree(mem: Memory, s: seq<Addr>, limit: nat, k: nat, mem': Memory)
    requires StopsAt(mem, s, limit, k) && mem' == mem - Elements(Removed(mem, s[k..]))
    ensures forall a :: a in mem && a !in mem' ==> a in s && mem[a].tid <= 0
    ensures Sum(mem, Trimmed(mem, s, k)) <= limit || forall a :: a in Trimmed(mem, s, k) && a in mem' ==> mem'[a].tid > 0
  {
    hide Sum, Kept, Removed;
    KeptElements(mem, s[k..]);
    KeptElements(mem, s[..k]);
    assert forall a :: a in s[k..] ==> a in s;
    assert forall a :: a in Trimmed(mem, s, k) ==> a in s[..k] || a in Kept(mem, s[k..]);
  }

  lemma {:induction false} RemovedGrows(mem: Memory, s: seq<Addr>, k: nat, j: nat)
    requires k < j <= |s| && IsFree(mem, s[k])
    ensures Sum(mem, Removed(mem, s[j..])) + SizeAt(mem, s[k]) <= Sum(mem, Removed(mem, s[k..]))
    decreases j
  {
    if j == k + 1 {
      assert s[k..][1..] == s[k + 1..];
      SumConcat(mem, [s[k]], Removed(mem, s[k + 1..]));
    } else {
      RemovedGrows(mem, s, k, j - 1);
      assert s[j - 1..][1..] == s[j..];
      SumConcat(mem, if IsFree(mem, s[j - 1]) then [s[j - 1]] else [], Removed(mem, s[j..]));
    }
  }

  /** Called over the limit, no shorter run of free entries taken from the end
      would have done. */
  lemma ShortestTrim(mem: Memory, s: seq<Addr>, limit: nat, k: nat)
    requires StopsAt(mem, s, limit, k) && Sum(mem, s) > limit
    ensures forall j :: k < j <= |s| ==> Sum(mem, Trimmed(mem, s, j)) > limit
  {
    TrimmedSum(mem, s, k);
    forall j | k < j <= |s| ensures Sum(mem, Trimmed(mem, s, j)) > limit {
      TrimmedSum(mem, s, j);
      RemovedGrows(mem, s, k, j);
    }
  }

  lemma NotBefore(mem: Memory, s: seq<Addr>, limit: nat, j: nat, k: nat)
    requires StopsAt(mem, s, limit, j) && StopsAt(mem, s, limit, k)
    ensures j >= k
  {
    if j < k {
      LaterFree(mem, s, limit, j, k);
      hide Sum, Trimmed, Kept, Removed;
      TrimmedSum(mem, s, k);
      TrimmedSum(mem, s, j);
      RemovedGrows(mem, s, j, k);
    }
  }

  /** Two stopping places j < k would leave more than the limit at j and not at k. */
  lemma LaterFree(mem: Memory, s: seq<Addr>, limit: nat, j: nat, k: nat)
    requires StopsAt(mem, s, limit, j) && StopsAt(mem, s, limit, k) && j < k
    ensures Sum(mem, Trimmed(mem, s, j)) + SizeAt(mem, s[j]) > limit >= Sum(mem, Trimmed(mem, s, k))
  {
    hide Sum, Trimmed, Kept, Removed;
    KeptElements(mem, s[..k]);
    assert s[..k][j] in s[..k];
    KeptElements(mem, s);
    assert s[j] in s;
    KeptElements(mem, s[j + 1..]);
    assert k < |s| ==> s[j + 1..][k - j - 1] in s[j + 1..];
  }

  /** The stopping place is the only one. */
  lemma OneStop(mem: Memory, s: seq<Addr>, limit: nat, j: nat, k: nat)
    requires StopsAt(mem, s, limit, j) && StopsAt(mem, s, limit, k)
    ensures j == k
  {
    NotBefore(mem, s, limit, j, k);
    NotBefore(mem, s, limit, k, j);
  }

  /** Called within the limit, the trim removes the last free entry and no other. */
  lemma WithinLimit(mem: Memory, s: seq<Addr>, limit: nat, k: nat)
    requires StopsAt(mem, s, limit, k) && Sum(mem, s) <= limit
    ensures k < |s| ==> IsFree(mem, s[k]) && forall i: nat :: k < i < |s| ==> !IsFree(mem, s[i])
    ensures k == |s| ==> forall i: nat :: i < |s| ==> !IsFree(mem, s[i])
  {
    if k < |s| {
      TrimmedSum(mem, s, k);
      RemovedGrows(mem, s, k, |s|);
      assert s[|s|..] == [];
      KeptElements(mem, s[k + 1..]);
      assert forall i: nat :: k < i < |s| ==> s[k + 1..][i - k - 1] == s[i];
    } else {
      KeptElements(mem, s);
    }
  }

  // ----- the loop that trims

  function Elements(s: seq<Addr>): set<Addr> { set a | a in s }

  /** The trim has looked at the entries from index i on and removed the free ones
      from index k on, and has not reached the limit. */
  ghost predicate Trimming(m0: Memory, c0: seq<Addr>, limit: nat, mem: Memory, cache: seq<Addr>, i: nat, k: nat) {
    && i <= k <= |c0|
    && cache == Trimmed(m0, c0, k)
    && mem == m0 - Elements(Removed(m0, c0[k..]))
    && (forall j :: i <= j < k ==> !IsFree(m0, c0[j]))
    && (k < |c0| ==> IsFree(m0, c0[k]) && Sum(m0, Trimmed(m0, c0, k)) > limit)
  }

  lemma TrimHolds(m0: Memory, c0: seq<Addr>, limit: nat, mem: Memory, cache: seq<Addr>, i: nat, k: nat)
    requires Trimming(m0, c0, limit, mem, cache, i, k)
    ensures i <= k <= |c0| && i <= |cache| && cache == Trimmed(m0, c0, k) && mem == m0 - Elements(Removed(m0, c0[k..]))
  {
  }

  lemma TrimmedNothing(mem: Memory, s: seq<Addr>)
    ensures Trimmed(mem, s, |s|) == s
  {
  }

  lemma TrimStart(m0: Memory, c0: seq<Addr>, limit: nat)
    ensures Trimming(m0, c0, limit, m0, c0, |c0|, |c0|)
    ensures Sum(m0, Trimmed(m0, c0, |c0|)) == Sum(m0, c0)
  {
    assert c0[|c0|..] == [] && c0[..|c0|] + [] == c0;
    assert m0 - Elements([]) == m0;
  }

  /** An entry not yet looked at is as it was. */
  lemma TrimSees(m0: Memory, c0: seq<Addr>, limit: nat, mem: Memory, cache: seq<Addr>, i: nat, k: nat)
    requires Trimming(m0, c0, limit, mem, cache, i, k) && 0 < i && Distinct(c0)
    ensures i <= |cache| && i <= |c0| && cache[i - 1] == c0[i - 1]
    ensures IsFree(mem, c0[i - 1]) <==> IsFree(m0, c0[i - 1])
    ensures SizeAt(mem, c0[i - 1]) == SizeAt(m0, c0[i - 1])
    ensures !IsFree(m0, c0[i - 1]) ==> Trimming(m0, c0, limit, mem, cache, i - 1, k)
  {
    KeptElements(m0, c0[k..]);
    assert c0[i - 1] !in c0[k..];
  }

  lemma TrimStep(m0: Memory, c0: seq<Addr>, limit: nat, mem: Memory, cache: seq<Addr>, i: nat, k: nat)
    requires Trimming(m0, c0, limit, mem, cache, i, k) && 0 < i && IsFree(m0, c0[i - 1])
    ensures |cache| >= i && i <= |c0| && Without(cache, i - 1) == Trimmed(m0, c0, i - 1)
    ensures mem - {c0[i - 1]} == m0 - Elements(Removed(m0, c0[i - 1..]))
    ensures Sum(m0, Trimmed(m0, c0, i - 1)) == Sum(m0, Trimmed(m0, c0, k)) - SizeAt(m0, c0[i - 1])
    ensures if Sum(m0, Trimmed(m0, c0, i - 1)) <= limit then StopsAt(m0, c0, limit, i - 1)
            else Trimming(m0, c0, limit, mem - {c0[i - 1]}, Without(cache, i - 1), i - 1, i - 1)
  {
    TrimFurther(m0, c0, i - 1, k);
    TrimmedSum(m0, c0, i - 1);
    TrimmedSum(m0, c0, k);
    SumConcat(m0, [c0[i - 1]], Removed(m0, c0[k..]));
    if k == |c0| {
      assert Trimmed(m0, c0, k) == c0;
    }
  }

  lemma TrimEnd(m0: Memory, c0: seq<Addr>, limit: nat, mem: Memory, cache: seq<Addr>, k: nat)
    requires Trimming(m0, c0, limit, mem, cache, 0, k)
    ensures StopsAt(m0, c0, limit, k)
  {
    KeptRun(m0, c0[..k], 0, k);
    assert c0[..k][0..] == c0[..k] && c0[..k][k..] == [];
    assert k == |c0| ==> c0[..k] == c0;
  }

  // ----- the descriptors a fork leaves behind

  function Others(s: seq<Addr>, self: Addr): seq<Addr> {
    if s == [] then []
    else Others(s[..|s| - 1], self) + (if s[|s| - 1] == self then [] else [s[|s| - 1]])
  }

  /** Of distinct descriptors, all but the one at index k. */
  lemma {:induction false} OthersWithout(s: seq<Addr>, k: nat)
    requires Distinct(s) && k < |s|
    ensures Others(s, s[k]) == Without(s, k)
  {
    var n := |s| - 1;
    assert Distinct(s[..n]);
    if k == n {
      assert s[n] !in s[..n];
      OthersAll(s[..n], s[n]);
      assert Without(s, n) == s[..n];
    } else {
      OthersWithout(s[..n], k);
      assert Without(s, k) == Without(s[..n], k) + [s[n]];
    }
  }

  lemma {:induction false} OthersAll(s: seq<Addr>, self: Addr)
    requires self !in s
    ensures Others(s, self) == s
  {
    if s != [] {
      var n := |s| - 1;
      OthersAll(s[..n], self);
      assert s[n] != self && s[..n] + [s[n]] == s;
    }
  }

  lemma OthersNone(mem: Memory, s: seq<Addr>, self: Addr)
    ensures Sum(mem, Others(s[..0], self)) == 0
  {
  }

  lemma OthersStep(mem: Memory, s: seq<Addr>, self: Addr, i: nat)
    requires i < |s|
    ensures Sum(mem, Others(s[..i + 1], self))
            == Sum(mem, Others(s[..i], self)) + if s[i] == self then 0 else SizeAt(mem, s[i])
  {
    assert s[..i + 1][..i] == s[..i];
    SumConcat(mem, Others(s[..i], self), if s[i] == self then [] else [s[i]]);
  }

  ghost predicate HoldsNoData(b: seq<KeyData>) {
    forall i :: 0 <= i < |b| ==> b[i].data == 0
  }

  /** Thread-specific data is only there when the flag says so. */
  ghost predicate FlagHonest(d: Descriptor) {
    !d.specificUsed ==> HoldsNoData(d.firstBlock) && d.level2 == map[]
  }

  /** A descriptor whose thread did not survive the fork: free, its data cleared;
      the key blocks stay allocated and the flag records them. */
  function Recycled(d: Descriptor): Descriptor {
    if !d.specificUsed then d.(tid := 0)
    else d.(tid := 0, firstBlock := CleanBlock(),
            level2 := map b | b in d.level2 :: if 1 <= b < KEY_BLOCKS then CleanBlock() else d.level2[b],
            specificUsed := exists b: nat :: b in d.level2 && 1 <= b < KEY_BLOCKS)
  }

  lemma RecycledTid(d: Descriptor)
    ensures Recycled(d.(tid := 0)).(tid := 0) == Recycled(d)
  {
  }

  lemma RecycledIsClean(d: Descriptor)
    requires FlagHonest(d) && forall b :: b in d.level2 ==> 1 <= b < KEY_BLOCKS
    ensures var r := Recycled(d);
      && r.tid == 0 && FlagHonest(r) && HoldsNoData(r.firstBlock)
      && r.level2.Keys == d.level2.Keys
      && forall b :: b in r.level2 ==> HoldsNoData(r.level2[b])
  {
    if d.specificUsed && !Recycled(d).specificUsed {
      assert forall b :: b !in d.level2;
    }
  }

  /** The clearing loop over the key blocks. */
  method ClearSpecific(d: Descriptor) returns (r: Descriptor)
    ensures r == Recycled(d).(tid := d.tid)
  {
    r := d;
    if d.specificUsed {
      r := r.(firstBlock := CleanBlock(), specificUsed := false);
      var cnt: nat := 1;
      while cnt < KEY_BLOCKS
        invariant 1 <= cnt <= KEY_BLOCKS
        invariant r == d.(firstBlock := CleanBlock(), level2 := r.level2, specificUsed := r.specificUsed)
        invariant r.level2 == map b | b in d.level2 :: if 1 <= b < cnt then CleanBlock() else d.level2[b]
        invariant r.specificUsed <==> exists b: nat :: b in d.level2 && 1 <= b < cnt
      {
        if cnt in r.level2 {
          r := r.(level2 := r.level2[cnt := CleanBlock()], specificUsed := true);
        }
        cnt := cnt + 1;
      }
    }
  }

  /** The descriptors in `s`, except `self`, are recycled. */
  ghost predicate RecycledAll(mem: Memory, mem': Memory, s: seq<Addr>, self: Addr) {
    && mem'.Keys == mem.Keys
    && forall a :: a in mem ==> mem'[a] == if a in s && a != self then Recycled(mem[a]) else mem[a]
  }

  lemma RecycledNone(mem: Memory, s: seq<Addr>, self: Addr)
    ensures RecycledAll(mem, mem, s[..0], self)
  {
  }

  lemma RecycledStep(m0: Memory, mem: Memory, s: seq<Addr>, self: Addr, i: nat)
    requires Distinct(s) && i < |s| && s[i] in m0 && RecycledAll(m0, mem, s[..i], self)
    ensures s[i] in mem && mem[s[i]] == m0[s[i]]
    ensures RecycledAll(m0, if s[i] == self then mem else mem[s[i] := Recycled(mem[s[i]])], s[..i + 1], self)
  {
    assert s[i] !in s[..i];
    assert s[..i + 1] == s[..i] + [s[i]];
  }
}
