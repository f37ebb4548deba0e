/** The two ways a child gets its descriptors: fork with in-child redirection,
    and posix_spawn file actions. Both are run here step by step on a
    descriptor table and compared by what the new program sees after exec. */
module SpawnDescriptors {

  import opened Optional

  datatype File = Opened(id: nat) | NullDevice(writing: bool) | ReportPipe(writing: bool)

  datatype Descriptor = Descriptor(file: File, cloexec: bool)

  type Table = map<nat, Descriptor>

  /** What fork_exec_with_fds is asked for. A negative source means none; the
      close list is read up to its first -1; no list at all is [-1]. */
  datatype Request = Request(
    stdin: int, stdout: int, stderr: int,
    stdoutToNull: bool, stderrToNull: bool, inheritStdin: bool,
    closeList: seq<int>, cloexecPipes: bool)

  datatype Source = Inherit | Null | From(fd: nat)

  function SourceOf(q: Request, slot: nat): Source
    requires slot < 3
  {
    var fd := if slot == 0 then q.stdin else if slot == 1 then q.stdout else q.stderr;
    var toNull := if slot == 0 then !q.inheritStdin else if slot == 1 then q.stdoutToNull else q.stderrToNull;
    if fd >= 0 then From(fd) else if toNull then Null else Inherit
  }

  function Listed(list: seq<int>): (r: seq<int>)
    ensures |r| <= |list|
    ensures r == list[..|r|] && -1 !in r && (|r| < |list| ==> list[|r|] == -1)
  {
    if list == [] || list[0] == -1 then [] else [list[0]] + Listed(list[1..])
  }

  ghost predicate IsSource(q: Request, fd: nat) {
    exists c: nat :: c < 3 && SourceOf(q, c) == From(fd)
  }

  /** The callers' side: 0 to 2 are open, every source is open, and the close
      list holds distinct open descriptors from 3 up, none of them a source. */
  ghost predicate Usable(t: Table, q: Request) {
    var closes := Listed(q.closeList);
    && 0 in t && 1 in t && 2 in t
    && (forall fd: nat :: IsSource(q, fd) ==> fd in t && fd !in closes)
    && (forall i: nat :: i < |closes| ==> closes[i] >= 3 && closes[i] in t)
    && (forall i: nat, j: nat :: i < j < |closes| ==> closes[i] != closes[j])
    && -1 in q.closeList
  }

  /** The file the program finds at a descriptor once exec has closed the
      close-on-exec ones. */
  function Seen(t: Table, fd: nat): Option<File> {
    if fd in t && !t[fd].cloexec then Some(t[fd].file) else None
  }

  function FirstFree(t: Table, n: nat): (r: nat)
    ensures n <= r && r !in t
    ensures forall m: nat :: n <= m < r ==> m in t
    decreases |t|
  {
    if n !in t then n
    else
      var rest := t - {n};
      var free := FirstFree(rest, n + 1);
      assert forall m: nat :: n + 1 <= m < free ==> m in rest;
      assert forall m: nat :: m in rest ==> m in t;
      free
  }

  // ----- what the child sees, said without steps -----

  /** The file at 0, 1 or 2 once slots up to it have been redirected in order:
      a source that is itself an earlier slot has already been replaced. */
  ghost function Passed(t: Table, q: Request, slot: nat): File
    requires slot < 3 && Usable(t, q)
  {
    match SourceOf(q, slot)
    case Inherit => t[slot].file
    case Null => NullDevice(slot > 0)
    case From(fd) =>
      assert IsSource(q, fd);
      if fd < slot then Passed(t, q, fd) else t[fd].file
  }

  /** Slot's descriptor number gets a new file. */
  predicate Writes(q: Request, slot: nat)
    requires slot < 3
  {
    SourceOf(q, slot) != Inherit && SourceOf(q, slot) != From(slot)
  }

  /** After the first k slots, fork's child holds fd marked close-on-exec: some
      slot used it as a source and no later slot replaced it, or nothing
      touched it and it was marked before. */
  ghost predicate Marked(t: Table, q: Request, k: nat, fd: nat)
    requires k <= 3 && fd in t
  {
    if fd < k && Writes(q, fd)
    then exists c: nat :: fd <= c < k && SourceOf(q, c) == From(fd)
    else t[fd].cloexec || exists c: nat :: c < k && SourceOf(q, c) == From(fd)
  }

  ghost function SeenAfterFork(t: Table, q: Request, fd: nat): Option<File>
    requires Usable(t, q)
  {
    if fd !in t || fd in Listed(q.closeList) || Marked(t, q, 3, fd) then None
    else if fd < 3 then Some(Passed(t, q, fd)) else Some(t[fd].file)
  }

  ghost function SeenAfterSpawn(t: Table, q: Request, fd: nat): Option<File>
    requires Usable(t, q)
  {
    if fd !in t || fd in Listed(q.closeList) || IsSource(q, fd) then None
    else if fd < 3 && Writes(q, fd) then Some(Passed(t, q, fd))
    else Seen(t, fd)
  }

  /** A slot uses a standard descriptor that a later slot then replaces for good. */
  ghost predicate Overwrites(q: Request) {
    exists a: nat, b: nat :: a < b < 3 && SourceOf(q, a) == From(b) && Writes(q, b)
      && forall c: nat :: b <= c < 3 ==> SourceOf(q, c) != From(b)
  }

  /** The two ways agree exactly when no slot's source is overwritten. */
  lemma PathsAgree(t: Table, q: Request)
    requires Usable(t, q)
    ensures (forall fd: nat :: SeenAfterFork(t, q, fd) == SeenAfterSpawn(t, q, fd)) <==> !Overwrites(q)
  {
    forall fd: nat | !Overwrites(q) ensures SeenAfterFork(t, q, fd) == SeenAfterSpawn(t, q, fd) {
      SlotsAgree(t, q, fd);
    }
    if Overwrites(q) {
      var a: nat, b: nat :| a < b < 3 && SourceOf(q, a) == From(b) && Writes(q, b)
        && forall c: nat :: b <= c < 3 ==> SourceOf(q, c) != From(b);
      assert IsSource(q, b);
      assert SeenAfterSpawn(t, q, b) == None && SeenAfterFork(t, q, b) != None;
    }
  }

  lemma SlotsAgree(t: Table, q: Request, fd: nat)
    requires Usable(t, q) && !Overwrites(q)
    ensures SeenAfterFork(t, q, fd) == SeenAfterSpawn(t, q, fd)
  {
    if fd in t && fd !in Listed(q.closeList) {
      if IsSource(q, fd) {
        var c: nat :| c < 3 && SourceOf(q, c) == From(fd);
        assert Marked(t, q, 3, fd);
      } else {
        assert Marked(t, q, 3, fd) ==> !(fd < 3 && Writes(q, fd)) && t[fd].cloexec;
      }
    }
  }

  /** With every source at 3 or above the child sees exactly what was asked
      for, the same descriptor as stdout and stderr included. */
  lemma RedirectedAsAsked(t: Table, q: Request, fd: nat)
    requires Usable(t, q) && forall s: nat :: IsSource(q, s) ==> s >= 3
    ensures !Overwrites(q)
    ensures SeenAfterFork(t, q, fd) == SeenAfterSpawn(t, q, fd) ==
      if fd < 3 then
        match SourceOf(q, fd)
        case Inherit => Seen(t, fd)
        case Null => Some(NullDevice(fd > 0))
        case From(s) => (assert IsSource(q, s); Some(t[s].file))
      else if IsSource(q, fd) || fd in Listed(q.closeList) then None
      else Seen(t, fd)
  {
    forall a: nat, b: nat | a < b < 3 ensures SourceOf(q, a) != From(b) {
      if SourceOf(q, a) == From(b) {
        assert IsSource(q, b);
      }
    }
    SlotsAgree(t, q, fd);
    if fd < 3 && SourceOf(q, fd).From? {
      assert IsSource(q, SourceOf(q, fd).fd);
    }
  }

  /** stdout from 2 and stderr from 5: posix_spawn's child has no stderr. */
  lemma OverwrittenSource()
    ensures var t := map[0 := Descriptor(Opened(0), false), 1 := Descriptor(Opened(1), false),
                         2 := Descriptor(Opened(2), false), 5 := Descriptor(Opened(5), false)];
            var q := Request(-1, 2, 5, false, false, true, [-1], true);
            Usable(t, q) && SeenAfterFork(t, q, 2) == Some(Opened(5)) && SeenAfterSpawn(t, q, 2) == None
  {
    var q := Request(-1, 2, 5, false, false, true, [-1], true);
    assert SourceOf(q, 0) == Inherit && SourceOf(q, 1) == From(2) && SourceOf(q, 2) == From(5);
    assert Listed(q.closeList) == [];
    assert -1 in q.closeList;
    assert IsSource(q, 2);
  }

  // ----- fork and redirect in the child -----

  function SetCloexec(t: Table, fd: nat): Table {
    if fd in t then t[fd := t[fd].(cloexec := true)] else t
  }

  function Dup2(t: Table, from: nat, to: nat): Table
    requires from in t
  {
    if from == to then t else t[to := Descriptor(t[from].file, false)]
  }

  /** The child's table once k slots are redirected; err is its end of the
      error report pipe. */
  ghost predicate ForkStage(t: Table, q: Request, k: nat, err: nat, fds: Table)
    requires k <= 3 && Usable(t, q)
  {
    && err !in t && err in fds && fds[err].cloexec
    && (forall fd: nat :: fd in fds && fd != err ==> fd in t && fd !in Listed(q.closeList))
    && (forall fd: nat :: fd in t && fd !in Listed(q.closeList) ==>
          (fd in fds && fds[fd].file == (if fd < k then Passed(t, q, fd) else t[fd].file)
          && (fds[fd].cloexec <==> Marked(t, q, k, fd))))
  }

  lemma MarkedStep(t: Table, q: Request, slot: nat, fd: nat)
    requires slot < 3 && fd in t
    ensures Marked(t, q, slot + 1, fd) <==>
      if fd == slot && Writes(q, slot) then false
      else Marked(t, q, slot, fd) || SourceOf(q, slot) == From(fd)
  {
  }

  lemma PassedSlot(t: Table, q: Request, slot: nat)
    requires slot < 3 && Usable(t, q)
    ensures slot in t && slot !in Listed(q.closeList)
    ensures SourceOf(q, slot).Null? ==> Passed(t, q, slot) == NullDevice(slot > 0)
    ensures !Writes(q, slot) ==> Passed(t, q, slot) == t[slot].file
    ensures SourceOf(q, slot).From? ==> (
      var fd := SourceOf(q, slot).fd;
      fd in t && fd !in Listed(q.closeList) && Passed(t, q, slot) == if fd < slot then Passed(t, q, fd) else t[fd].file)
  {
    if SourceOf(q, slot).From? {
      assert IsSource(q, SourceOf(q, slot).fd);
    }
  }

  /** Redirecting from a descriptor takes the stage further. */
  lemma FromSlot(t: Table, q: Request, slot: nat, err: nat, fds: Table, fd: nat)
    requires slot < 3 && Usable(t, q) && ForkStage(t, q, slot, err, fds) && SourceOf(q, slot) == From(fd)
    ensures fd in fds && ForkStage(t, q, slot + 1, err, SetCloexec(Dup2(fds, fd, slot), fd))
  {
    hide Usable, Marked, Passed, SourceOf, Listed;
    PassedSlot(t, q, slot);
    AllMarked(t, q, slot);
  }

  /** So does taking the slot's file from a null device opened and closed again. */
  lemma NullSlot(t: Table, q: Request, slot: nat, err: nat, fds: Table)
    requires slot < 3 && Usable(t, q) && ForkStage(t, q, slot, err, fds) && SourceOf(q, slot).Null?
    ensures slot in fds && slot != err
    ensures ForkStage(t, q, slot + 1, err, fds[slot := Descriptor(NullDevice(slot > 0), false)])
  {
    hide Usable, Marked, Passed, SourceOf, Listed;
    PassedSlot(t, q, slot);
    AllMarked(t, q, slot);
  }

  lemma KeptSlot(t: Table, q: Request, slot: nat, err: nat, fds: Table)
    requires slot < 3 && Usable(t, q) && ForkStage(t, q, slot, err, fds) && SourceOf(q, slot).Inherit?
    ensures ForkStage(t, q, slot + 1, err, fds)
  {
    hide Usable, Marked, Passed, SourceOf, Listed;
    PassedSlot(t, q, slot);
    AllMarked(t, q, slot);
  }

  lemma AllMarked(t: Table, q: Request, slot: nat)
    requires slot < 3
    ensures forall fd: nat :: fd in t ==> (Marked(t, q, slot + 1, fd) <==>
      if fd == slot && Writes(q, slot) then false
      else Marked(t, q, slot, fd) || SourceOf(q, slot) == From(fd))
  {
    hide Marked;
    forall fd: nat | fd in t ensures Marked(t, q, slot + 1, fd) <==>
      if fd == slot && Writes(q, slot) then false
      else Marked(t, q, slot, fd) || SourceOf(q, slot) == From(fd)
    {
      MarkedStep(t, q, slot, fd);
    }
  }

  /** One of do_exec's three redirections; it fails if its source is not open.
      What it comes to is said of usable requests. */
  method RedirectSlot(ghost usable: bool, ghost t: Table, q: Request, slot: nat, ghost err: nat, before: Table)
    returns (ok: bool, fds: Table)
    requires slot < 3
    requires usable ==> Usable(t, q) && ForkStage(t, q, slot, err, before)
    ensures usable ==> ok && ForkStage(t, q, slot + 1, err, fds)
  {
    hide ForkStage, Usable, SourceOf;
    ok, fds := true, before;
    match SourceOf(q, slot)
    case From(fd) =>
      if usable {
        FromSlot(t, q, slot, err, before, fd);
      }
      if fd !in fds {
        return false, fds;
      }
      fds := Dup2(fds, fd, slot);
      fds := SetCloexec(fds, fd);
    case Null =>
      if usable {
        NullSlot(t, q, slot, err, before);
      }
      var device := FirstFree(fds, 0);
      fds := fds[device := Descriptor(NullDevice(slot > 0), false)];
      fds := Dup2(fds, device, slot);
      fds := fds - {device};
      assert slot in before ==> fds == before[slot := Descriptor(NullDevice(slot > 0), false)];
    case Inherit =>
      if usable {
        KeptSlot(t, q, slot, err, before);
      }
  }

  /** The forked child closes what its caller listed. */
  method CloseListed(list: seq<int>, before: Table) returns (fds: Table)
    requires -1 in list
    ensures forall fd: nat :: fd in fds <==> fd in before && fd !in Listed(list)
    ensures forall fd: nat :: fd in fds ==> fds[fd] == before[fd]
  {
    fds := before;
    var i := 0;
    while list[i] != -1
      invariant i <= |Listed(list)| && i < |list|
      invariant forall fd: nat :: fd in fds <==> fd in before && fd !in Listed(list)[..i]
      invariant forall fd: nat :: fd in fds ==> fds[fd] == before[fd]
      decreases |list| - i
    {
      assert list[i] == Listed(list)[i];
      fds := CloseFrom(fds, list[i]);
      i := i + 1;
    }
    assert Listed(list)[..i] == Listed(list);
  }

  /** close_and_invalidate on a number, which may be negative. */
  function CloseFrom(t: Table, fd: int): Table {
    if fd >= 0 then t - {fd} else t
  }

  lemma BeforeSlots(t: Table, q: Request, err: nat, fds: Table)
    requires Usable(t, q) && err !in t && err in fds && fds[err].cloexec
    requires forall fd: nat :: fd in fds && fd != err <==> fd in t && fd !in Listed(q.closeList)
    requires forall fd: nat :: fd in fds && fd != err ==> fds[fd] == t[fd]
    ensures ForkStage(t, q, 0, err, fds)
  {
  }

  lemma AfterSlots(t: Table, q: Request, err: nat, fds: Table)
    requires Usable(t, q) && ForkStage(t, q, 3, err, fds)
    ensures forall fd: nat :: Seen(fds, fd) == SeenAfterFork(t, q, fd)
  {
    hide Usable, Marked, Passed, Listed;
  }

  /** Every descriptor from n up is marked close-on-exec. */
  function MarkFrom(t: Table, n: nat): Table {
    map fd | fd in t :: if fd >= n then t[fd].(cloexec := true) else t[fd]
  }

  /** What the forked child's program sees; with closeAll everything from 3 up is
      closed at exec. */
  ghost function SeenInChild(t: Table, q: Request, closeAll: bool, fd: nat): Option<File>
    requires Usable(t, q)
  {
    if closeAll && fd >= 3 then None else SeenAfterFork(t, q, fd)
  }

  /** Marking everything from 3 up beforehand amounts to that. */
  lemma MarkedFirst(t: Table, q: Request, fd: nat)
    requires Usable(t, q)
    ensures Usable(MarkFrom(t, 3), q) && SeenAfterFork(MarkFrom(t, 3), q, fd) == SeenInChild(t, q, true, fd)
  {
    assert MarkFrom(t, 3).Keys == t.Keys;
    if fd < 3 {
      SamePassed(t, q, fd);
    }
  }

  lemma {:induction false} SamePassed(t: Table, q: Request, slot: nat)
    requires Usable(t, q) && Usable(MarkFrom(t, 3), q) && slot < 3
    ensures Passed(MarkFrom(t, 3), q, slot) == Passed(t, q, slot)
  {
    if SourceOf(q, slot).From? {
      assert IsSource(q, SourceOf(q, slot).fd);
      if SourceOf(q, slot).fd < slot {
        SamePassed(t, q, SourceOf(q, slot).fd);
      }
    }
  }

  /** The table holds the base descriptors, unchanged, and besides them exactly
      the variables' descriptors; a negative variable names none. */
  ghost predicate Keeps(base: Table, vars: seq<int>, fds: Table) {
    && (forall i: nat, j: nat :: i < j < |vars| && vars[i] >= 0 ==> vars[i] != vars[j])
    && (forall k: nat :: k in fds <==> k in base || k in vars)
    && (forall k: nat :: k in base ==> fds[k] == base[k] && k !in vars)
  }

  /** What do_exec starts from: the base table without the listed descriptors,
      and the child's end of the report pipe. */
  ghost predicate ReadyToExec(t: Table, q: Request, err: nat, fds: Table) {
    && err in fds && err !in t
    && (forall fd: nat :: fd in fds && fd != err <==> fd in t && fd !in Listed(q.closeList))
    && (forall fd: nat :: fd in fds && fd != err ==> fds[fd] == t[fd])
  }

  /** do_exec's part in the descriptors; it fails if a source is not open. */
  method RedirectAll(ghost t: Table, q: Request, err: nat, closeAll: bool, before: Table) returns (ok: bool, fds: Table)
    requires Usable(t, q) ==> ReadyToExec(t, q, err, before)
    ensures Usable(t, q) ==> ok && forall fd: nat :: Seen(fds, fd) == SeenInChild(t, q, closeAll, fd)
  {
    hide ReadyToExec, Usable, ForkStage, SeenInChild, Seen, SetCloexec, MarkFrom;
    fds := if closeAll then MarkFrom(before, 3) else SetCloexec(before, err);
    ghost var base := if closeAll then MarkFrom(t, 3) else t;
    ghost var usable := Usable(t, q);
    if usable {
      MarkedReady(t, q, err, closeAll, before);
    }
    ok, fds := RedirectSlot(usable, base, q, 0, err, fds);
    if ok {
      ok, fds := RedirectSlot(usable, base, q, 1, err, fds);
    }
    if ok {
      ok, fds := RedirectSlot(usable, base, q, 2, err, fds);
    }
    if usable {
      AllRedirected(t, q, err, closeAll, fds);
    }
  }

  lemma MarkedReady(t: Table, q: Request, err: nat, closeAll: bool, before: Table)
    requires Usable(t, q) && ReadyToExec(t, q, err, before)
    ensures var base := if closeAll then MarkFrom(t, 3) else t;
      Usable(base, q) && ForkStage(base, q, 0, err, if closeAll then MarkFrom(before, 3) else SetCloexec(before, err))
  {
    assert err >= 3;
    if closeAll {
      MarkedFirst(t, q, 0);
      BeforeSlots(MarkFrom(t, 3), q, err, MarkFrom(before, 3));
    } else {
      BeforeSlots(t, q, err, SetCloexec(before, err));
    }
  }

  lemma AllRedirected(t: Table, q: Request, err: nat, closeAll: bool, fds: Table)
    requires Usable(t, q)
    requires var base := if closeAll then MarkFrom(t, 3) else t; Usable(base, q) && ForkStage(base, q, 3, err, fds)
    ensures forall fd: nat :: Seen(fds, fd) == SeenInChild(t, q, closeAll, fd)
  {
    AfterSlots(if closeAll then MarkFrom(t, 3) else t, q, err, fds);
    hide Usable, ForkStage, Seen, SeenAfterFork, MarkFrom;
    forall fd: nat ensures Seen(fds, fd) == SeenInChild(t, q, closeAll, fd) {
      if closeAll {
        MarkedFirst(t, q, fd);
      }
    }
  }

  /** The forked child up to exec. Variables 0 and 1 are the error report pipe,
      2 and 3 the pid report pipe of an intermediate child, whose own child runs
      the program. */
  method ForkChild(ghost t: Table, at: Table, q: Request, ends: seq<int>, intermediate: bool, closeAll: bool)
    returns (ok: bool, fds: Table)
    requires |ends| == 4 && ends[1] >= 0 && Keeps(t, ends, at) && -1 in q.closeList
    requires !intermediate ==> ends[2] < 0 && ends[3] < 0
    ensures Usable(t, q) ==> ok && forall fd: nat :: Seen(fds, fd) == SeenInChild(t, q, closeAll, fd)
  {
    hide Usable, Keeps, SeenInChild, Seen, Listed, ReadyToExec;
    fds := CloseFrom(at, ends[0]);
    fds := CloseFrom(fds, ends[2]);
    fds := CloseListed(q.closeList, fds);
    if intermediate {
      fds := CloseFrom(fds, ends[3]);
    }
    if Usable(t, q) {
      LeftToExec(t, at, q, ends, fds);
    }
    ok, fds := RedirectAll(t, q, ends[1], closeAll, fds);
  }

  lemma LeftToExec(t: Table, at: Table, q: Request, ends: seq<int>, fds: Table)
    requires Usable(t, q) && |ends| == 4 && ends[1] >= 0 && Keeps(t, ends, at)
    requires forall fd: nat :: fd in fds <==>
      fd in at && fd !in Listed(q.closeList) && fd != ends[0] && fd != ends[2] && fd != ends[3]
    requires forall fd: nat :: fd in fds ==> fds[fd] == at[fd]
    ensures ReadyToExec(t, q, ends[1], fds)
  {
    hide Listed;
    assert ends[1] in ends && ends[0] in ends && ends[2] in ends && ends[3] in ends;
    EndsAre(ends);
    assert forall fd: nat :: fd in Listed(q.closeList) ==> fd in t;
    hide Usable;
  }

  lemma EndsAre(ends: seq<int>)
    requires |ends| == 4
    ensures forall fd: int :: fd in ends <==> fd == ends[0] || fd == ends[1] || fd == ends[2] || fd == ends[3]
  {
  }

  // ----- posix_spawn file actions -----

  datatype Action = DupTo(from: nat, to: nat) | CloseFd(fd: nat)

  /** The descriptor an action works on. */
  function Needs(a: Action): nat {
    match a case DupTo(from, to) => from case CloseFd(fd) => fd
  }

  function Step(t: Table, a: Action): Table
    requires Needs(a) in t
  {
    match a case DupTo(from, to) => Dup2(t, from, to) case CloseFd(fd) => t - {fd}
  }

  function Run(t: Table, acts: seq<Action>): Table
    decreases |acts|
  {
    if acts == [] then t else
      var r, a := Run(t, acts[..|acts| - 1]), acts[|acts| - 1];
      if Needs(a) in r then Step(r, a) else r
  }

  /** Every action works on a descriptor that is open when its turn comes. */
  predicate AllOpen(t: Table, acts: seq<Action>)
    decreases |acts|
  {
    acts == [] || (AllOpen(t, acts[..|acts| - 1]) && Needs(acts[|acts| - 1]) in Run(t, acts[..|acts| - 1]))
  }

  method RunActions(t: Table, acts: seq<Action>) returns (fds: Table)
    requires AllOpen(t, acts)
    ensures fds == Run(t, acts)
  {
    fds := t;
    for i := 0 to |acts|
      invariant fds == Run(t, acts[..i])
    {
      assert acts[..i + 1][..i] == acts[..i];
      PrefixOpen(t, acts, i + 1);
      fds := Step(fds, acts[i]);
    }
    assert acts[..|acts|] == acts;
  }

  lemma {:induction false} PrefixOpen(t: Table, acts: seq<Action>, n: nat)
    requires AllOpen(t, acts) && n <= |acts|
    ensures AllOpen(t, acts[..n])
  {
    if n == |acts| {
      assert acts[..n] == acts;
    } else {
      PrefixOpen(t, acts[..|acts| - 1], n);
      assert acts[..|acts| - 1][..n] == acts[..n];
    }
  }

  /** A descriptor entry in the parent that no action targets just comes along. */
  lemma {:induction false} IdleDescriptor(t: Table, acts: seq<Action>, fd: nat, d: Descriptor)
    requires AllOpen(t, acts) && fd !in t && forall a :: a in acts ==> a.DupTo? && a.to in t
    ensures AllOpen(t[fd := d], acts) && Run(t[fd := d], acts) == Run(t, acts)[fd := d]
    ensures t.Keys <= Run(t, acts).Keys && fd !in Run(t, acts)
  {
    if acts != [] {
      IdleDescriptor(t, acts[..|acts| - 1], fd, d);
      assert acts[|acts| - 1] in acts;
    }
  }

  /** The child's table after the file actions of k slots. */
  ghost predicate SpawnStage(t: Table, q: Request, k: nat, fds: Table)
    requires k <= 3 && Usable(t, q)
  {
    && (forall fd: nat :: fd in t ==> (
         fd in fds && fds[fd].file == (if fd < k then Passed(t, q, fd) else t[fd].file)
         && (fds[fd].cloexec <==> t[fd].cloexec && !(fd < k && Writes(q, fd)))))
    && (forall fd: nat :: fd in fds && fd !in t ==> fds[fd].cloexec)
  }

  /** The actions so far, with the slots below k recorded. */
  ghost predicate Recorded(t: Table, q: Request, k: nat, parent: Table, acts: seq<Action>)
    requires k <= 3 && Usable(t, q)
  {
    && (forall a :: a in acts ==> a.DupTo? && a.to < 3)
    && AllOpen(parent, acts) && SpawnStage(t, q, k, Run(parent, acts))
  }

  /** The descriptors to be closed last: each listed one and each source, once. */
  ghost predicate ToClose(q: Request, k: nat, list: seq<int>) {
    && (forall fd :: fd in list ==> fd >= 0)
    && Gathered(q, k, list)
    && (forall i: nat, j: nat :: i < j < |list| ==> list[i] != list[j])
  }

  ghost predicate Gathered(q: Request, k: nat, list: seq<int>) {
    forall fd: nat :: fd in list <==> fd in Listed(q.closeList) || UsedBefore(q, k, fd)
  }

  /** One of the first k slots takes its file from fd. */
  ghost predicate UsedBefore(q: Request, k: nat, fd: nat) {
    exists c: nat :: c < 3 && c < k && SourceOf(q, c) == From(fd)
  }

  /** How many of the first k slots have a source that the caller did not list and
      no earlier slot has. */
  ghost function NewSources(q: Request, k: nat): nat
    requires k <= 3
  {
    if k == 0 then 0
    else
      var s := SourceOf(q, k - 1);
      NewSources(q, k - 1)
        + if s.From? && s.fd !in Listed(q.closeList) && !UsedBefore(q, k - 1, s.fd) then 1 else 0
  }

  function Redirections(q: Request, k: nat): nat
    requires k <= 3
  {
    if k == 0 then 0 else Redirections(q, k - 1) + if SourceOf(q, k - 1).Inherit? then 0 else 1
  }

  /** The calls do_posix_spawn makes when none is refused: four to prepare, one for
      each redirection and each close, and the spawn. */
  ghost function SpawnCalls(q: Request): nat {
    4 + Redirections(q, 3) + |Listed(q.closeList)| + NewSources(q, 3) + 1
  }

  lemma GatheredMore(q: Request, slot: nat, list: seq<int>)
    requires slot < 3 && Gathered(q, slot, list)
    ensures match SourceOf(q, slot)
            case From(fd) => Gathered(q, slot + 1, if fd in list then list else [fd] + list)
            case Null => Gathered(q, slot + 1, list)
            case Inherit => Gathered(q, slot + 1, list)
    ensures NewSources(q, slot + 1) - NewSources(q, slot)
      == if SourceOf(q, slot).From? && SourceOf(q, slot).fd !in list then 1 else 0
    ensures Redirections(q, slot + 1) - Redirections(q, slot) == if SourceOf(q, slot).Inherit? then 0 else 1
  {
    hide SourceOf, Listed;
  }

  lemma OneMore(t: Table, acts: seq<Action>, a: Action)
    requires AllOpen(t, acts)
    requires Needs(a) in Run(t, acts)
    ensures AllOpen(t, acts + [a]) && Run(t, acts + [a]) == Step(Run(t, acts), a)
  {
    assert (acts + [a])[..|acts|] == acts;
  }

  /** A slot's dup2 takes the child's table one stage further. */
  lemma SpawnSlot(t: Table, q: Request, slot: nat, fds: Table, from: nat)
    requires slot < 3 && Usable(t, q) && SpawnStage(t, q, slot, fds) && from in fds
    requires SourceOf(q, slot) == From(from)
      || (SourceOf(q, slot).Null? && from !in t && fds[from].file == NullDevice(slot > 0))
    ensures SpawnStage(t, q, slot + 1, Dup2(fds, from, slot))
  {
    hide Usable, Passed, SourceOf, Listed;
    PassedSlot(t, q, slot);
  }

  /** A dup2 recorded for a slot, from its source or a null device. */
  lemma RecordedDup(t: Table, q: Request, slot: nat, parent: Table, acts: seq<Action>, from: nat)
    requires slot < 3 && Usable(t, q) && Recorded(t, q, slot, parent, acts) && from in Run(parent, acts)
    requires SourceOf(q, slot) == From(from)
      || (SourceOf(q, slot).Null? && from !in t && Run(parent, acts)[from].file == NullDevice(slot > 0))
    ensures Recorded(t, q, slot + 1, parent, acts + [DupTo(from, slot)])
  {
    hide Usable, Passed, SourceOf, Listed, SpawnStage, Run, AllOpen;
    OneMore(parent, acts, DupTo(from, slot));
    SpawnSlot(t, q, slot, Run(parent, acts), from);
  }

  lemma RecordedFrom(t: Table, q: Request, slot: nat, parent: Table, acts: seq<Action>, fd: nat)
    requires slot < 3 && Usable(t, q) && Recorded(t, q, slot, parent, acts) && SourceOf(q, slot) == From(fd)
    ensures Recorded(t, q, slot + 1, parent, acts + [DupTo(fd, slot)])
  {
    PassedSlot(t, q, slot);
    StageKeys(t, q, slot, Run(parent, acts));
    hide Usable, Recorded, Run;
    RecordedDup(t, q, slot, parent, acts, fd);
  }

  /** Opening a null device, close-on-exec, in the parent does not disturb the
      actions recorded before. */
  lemma RecordedIdle(t: Table, q: Request, slot: nat, parent: Table, acts: seq<Action>, device: nat, d: Descriptor)
    requires slot < 3 && Usable(t, q) && Recorded(t, q, slot, parent, acts)
    requires device !in parent && t.Keys <= parent.Keys && d.cloexec
    ensures Recorded(t, q, slot, parent[device := d], acts) && device !in t
    ensures device in Run(parent[device := d], acts) && Run(parent[device := d], acts)[device] == d
  {
    StandardOpen(t, q);
    hide Usable, SpawnStage, Run, AllOpen;
    IdleDescriptor(parent, acts, device, d);
    IdleStage(t, q, slot, Run(parent, acts), device, d);
  }

  lemma RecordedNull(t: Table, q: Request, slot: nat, parent: Table, acts: seq<Action>, device: nat)
    requires slot < 3 && Usable(t, q) && Recorded(t, q, slot, parent, acts) && SourceOf(q, slot).Null?
    requires device !in parent && t.Keys <= parent.Keys
    ensures Recorded(t, q, slot + 1, parent[device := Descriptor(NullDevice(slot > 0), true)], acts + [DupTo(device, slot)])
  {
    hide Usable, Recorded, Run;
    RecordedIdle(t, q, slot, parent, acts, device, Descriptor(NullDevice(slot > 0), true));
    RecordedDup(t, q, slot, parent[device := Descriptor(NullDevice(slot > 0), true)], acts, device);
  }

  lemma RecordedInherit(t: Table, q: Request, slot: nat, parent: Table, acts: seq<Action>)
    requires slot < 3 && Usable(t, q) && Recorded(t, q, slot, parent, acts) && SourceOf(q, slot) == Inherit
    ensures Recorded(t, q, slot + 1, parent, acts)
  {
    hide Usable, Run, AllOpen, SpawnStage;
    InheritedSlot(t, q, slot, Run(parent, acts));
  }

  lemma StandardOpen(t: Table, q: Request)
    requires Usable(t, q)
    ensures 0 in t && 1 in t && 2 in t
  {
  }

  /** A source goes on the list to be closed unless it is there. */
  lemma ToCloseMore(q: Request, slot: nat, list: seq<int>)
    requires slot < 3 && ToClose(q, slot, list)
    ensures match SourceOf(q, slot)
            case From(fd) => ToClose(q, slot + 1, if fd in list then list else [fd] + list)
            case Null => ToClose(q, slot + 1, list)
            case Inherit => ToClose(q, slot + 1, list)
  {
    hide Listed;
    GatheredMore(q, slot, list);
    hide SourceOf, Gathered;
  }

  lemma StageKeys(t: Table, q: Request, k: nat, fds: Table)
    requires k <= 3 && Usable(t, q) && SpawnStage(t, q, k, fds)
    ensures t.Keys <= fds.Keys && 0 in t && 1 in t && 2 in t
  {
  }

  lemma IdleStage(t: Table, q: Request, k: nat, fds: Table, fd: nat, d: Descriptor)
    requires k <= 3 && Usable(t, q) && SpawnStage(t, q, k, fds) && fd !in t && d.cloexec
    ensures SpawnStage(t, q, k, fds[fd := d])
  {
  }

  lemma InheritedSlot(t: Table, q: Request, slot: nat, fds: Table)
    requires slot < 3 && Usable(t, q) && SpawnStage(t, q, slot, fds) && SourceOf(q, slot) == Inherit
    ensures SpawnStage(t, q, slot + 1, fds)
  {
    hide Usable, Listed;
  }

  /** The caller's list, in the order it is to be closed. */
  method ListedCloses(ghost t: Table, q: Request) returns (list: seq<int>)
    requires -1 in q.closeList
    ensures (forall x :: x in list <==> x in Listed(q.closeList)) && |list| == |Listed(q.closeList)|
    ensures Gathered(q, 0, list)
    ensures Usable(t, q) ==> ToClose(q, 0, list)
  {
    list := [];
    var i := 0;
    while q.closeList[i] != -1
      invariant i <= |Listed(q.closeList)| && i < |q.closeList|
      invariant |list| == i && forall j: nat :: j < i ==> list[j] == Listed(q.closeList)[i - 1 - j]
      decreases |q.closeList| - i
    {
      assert q.closeList[i] == Listed(q.closeList)[i];
      list := [q.closeList[i]] + list;
      i := i + 1;
    }
    forall k: nat | k < i ensures Listed(q.closeList)[k] in list {
      assert list[i - 1 - k] == Listed(q.closeList)[k];
    }
  }

  function Closes(list: seq<int>): seq<Action>
    requires forall fd :: fd in list ==> fd >= 0
  {
    seq(|list|, i requires 0 <= i < |list| => assert list[i] in list; CloseFd(list[i]))
  }

  /** The closes go last, each on a descriptor that is still open. */
  lemma {:induction false} ClosesLast(parent: Table, acts: seq<Action>, list: seq<int>)
    requires AllOpen(parent, acts)
    requires forall fd :: fd in list ==> fd >= 0 && fd as nat in Run(parent, acts)
    requires forall i: nat, j: nat :: i < j < |list| ==> list[i] != list[j]
    ensures AllOpen(parent, acts + Closes(list))
    ensures forall fd: nat :: fd in Run(parent, acts + Closes(list)) <==> fd in Run(parent, acts) && fd !in list
    ensures forall fd: nat :: fd in Run(parent, acts + Closes(list)) ==>
              Run(parent, acts + Closes(list))[fd] == Run(parent, acts)[fd]
  {
    hide Run, AllOpen;
    if list == [] {
      assert acts + Closes(list) == acts;
    } else {
      var n := |list| - 1;
      var front, last := list[..n], list[n];
      assert last in list && forall fd :: fd in list <==> fd in front || fd == last;
      assert last !in front;
      ClosesLast(parent, acts, front);
      assert acts + Closes(list) == (acts + Closes(front)) + [CloseFd(last)];
      OneMore(parent, acts + Closes(front), CloseFd(last));
    }
  }

  lemma AfterActions(t: Table, q: Request, before: Table, list: seq<int>, fds: Table)
    requires Usable(t, q) && SpawnStage(t, q, 3, before) && ToClose(q, 3, list)
    requires forall fd: nat :: fd in fds <==> fd in before && fd !in list
    requires forall fd: nat :: fd in fds ==> fds[fd] == before[fd]
    ensures forall fd: nat :: Seen(fds, fd) == SeenAfterSpawn(t, q, fd)
  {
    hide Usable, Passed, Listed, SourceOf;
    forall fd: nat ensures Seen(fds, fd) == SeenAfterSpawn(t, q, fd) {
      assert fd in list <==> fd in Listed(q.closeList) || IsSource(q, fd);
      if fd < 3 {
        PassedSlot(t, q, fd);
      }
    }
  }

  /** With all slots recorded and the closes appended, every action works on an
      open descriptor and the child sees what the step-free description says. */
  lemma ActionsSeen(t: Table, q: Request, parent: Table, acts: seq<Action>, list: seq<int>)
    requires Usable(t, q) && Recorded(t, q, 3, parent, acts) && ToClose(q, 3, list)
    ensures AllOpen(parent, acts + Closes(list))
    ensures forall fd: nat :: Seen(Run(parent, acts + Closes(list)), fd) == SeenAfterSpawn(t, q, fd)
  {
    ClosesOpen(t, q, list);
    StageKeys(t, q, 3, Run(parent, acts));
    hide Usable, SpawnStage, Run, AllOpen, Seen, SeenAfterSpawn, Listed, SourceOf, Closes;
    ClosesLast(parent, acts, list);
    AfterActions(t, q, Run(parent, acts), list, Run(parent, acts + Closes(list)));
  }

  lemma ClosesOpen(t: Table, q: Request, list: seq<int>)
    requires Usable(t, q) && ToClose(q, 3, list)
    ensures forall fd :: fd in list ==> fd >= 0 && fd as nat in t
  {
    forall fd | fd in list ensures fd >= 0 && fd as nat in t {
      if fd !in Listed(q.closeList) {
        assert IsSource(q, fd);
      }
    }
  }

  lemma NothingRecorded(t: Table, q: Request)
    requires Usable(t, q)
    ensures Recorded(t, q, 0, t, [])
  {
  }
}
