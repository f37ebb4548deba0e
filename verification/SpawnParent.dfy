/** The parent's side of a spawn: descriptors opened, closed and handed on, and
    children waited for, on every exit. */
module SpawnParent {

  import opened Optional
  import opened SpawnDescriptors

  const ENOEXEC := 8
  const ENOENT := 2
  const EBADF := 9

  lemma NoneOpen(base: Table, vars: seq<int>, fds: Table)
    requires Keeps(base, vars, fds) && forall v :: v in vars ==> v < 0
    ensures fds == base
  {
    assert fds.Keys == base.Keys;
  }

  lemma KeepsKeys(base: Table, vars: seq<int>, fds: Table)
    requires Keeps(base, vars, fds)
    ensures base.Keys <= fds.Keys
  {
  }

  lemma KeepsNone(base: Table)
    ensures Keeps(base, [-1, -1, -1], base) && Keeps(base, [-1, -1, -1, -1], base)
    ensures Keeps(base, [-1, -1, -1, -1, -1, -1], base)
  {
  }

  ghost predicate Closed(before: Table, fd: int, after: Table) {
    after == if fd >= 0 then before - {fd} else before
  }

  /** A pipe's two ends were opened. */
  ghost predicate Piped(before: Table, after: Table, reading: int, writing: int, file: nat, cloexec: bool) {
    && reading >= 0 && writing >= 0 && reading != writing
    && reading as nat !in before && writing as nat !in before
    && after == before[reading as nat := Descriptor(Opened(file), cloexec)]
                      [writing as nat := Descriptor(Opened(file + 1), cloexec)]
  }

  /** Variables i and i + 1 are the reading and the writing end of one pipe,
      or name nothing where none is wanted. */
  ghost predicate PipeAt(fds: Table, ends: seq<int>, i: nat, want: bool, file: nat, cloexec: bool)
    requires |ends| == 6 && i % 2 == 0 && i < 6
  {
    if want then
      && ends[i] >= 0 && ends[i] as nat in fds && fds[ends[i] as nat] == Descriptor(Opened(file), cloexec)
      && ends[i + 1] >= 0 && ends[i + 1] as nat in fds
      && fds[ends[i + 1] as nat] == Descriptor(Opened(file + 1), cloexec)
    else ends[i] == -1 && ends[i + 1] == -1
  }

  /** The reading end of a slot's pipe; pipes are numbered as they are opened. */
  function PipeFor(first: nat, w: Wanted, slot: nat): nat {
    first + (if slot > 0 && w.stdin then 2 else 0) + (if slot > 1 && w.stdout then 2 else 0)
  }

  ghost predicate PipesAt(fds: Table, ends: seq<int>, w: Wanted, first: nat)
    requires |ends| == 6
  {
    && PipeAt(fds, ends, 0, w.stdin, PipeFor(first, w, 0), w.cloexecPipes)
    && PipeAt(fds, ends, 2, w.stdout, PipeFor(first, w, 1), w.cloexecPipes)
    && PipeAt(fds, ends, 4, w.stderr, PipeFor(first, w, 2), true)
  }

  /** The parent's end of a pipe that was wanted. */
  ghost predicate MyEnd(fds: Table, fd: int, want: bool, file: nat) {
    if want then fd >= 0 && fd as nat in fds && fds[fd as nat].file == Opened(file) else fd == -1
  }

  /** The child's program finds at slot one end of the pipe whose other end is
      the parent's; a pipe not wanted leaves the parent -1. */
  ghost predicate Connected(child: Table, slot: nat, want: bool, fds: Table, mine: int, pipe: nat) {
    && MyEnd(fds, mine, want, if slot == 0 then pipe + 1 else pipe)
    && (want ==> Seen(child, slot) == Some(Opened(if slot == 0 then pipe else pipe + 1)))
  }

  /** What fork_exec_with_fds is asked for: the child's ends, and the parent's
      ends to be closed in the child. */
  function RequestFor(ends: seq<int>, w: Wanted): Request
    requires |ends| == 6
  {
    Request(ends[0], ends[3], ends[5], w.stdoutToNull, w.stderrToNull, w.inheritStdin,
            [ends[1], ends[2], ends[4], -1], w.cloexecPipes)
  }

  /** What the child's program finds. */
  ghost predicate ChildGets(t: Table, q: Request, spawned: bool, closeAll: bool, child: Table)
    requires Usable(t, q)
  {
    forall fd: nat :: Seen(child, fd) == if spawned then SeenAfterSpawn(t, q, fd) else SeenInChild(t, q, closeAll, fd)
  }

  /** The list of descriptors to close ends at its first -1, so without a pipe
      for stdin nothing on it is closed. */
  predicate KeepsReader(w: Wanted, closeAll: bool) {
    w.stdout && !w.stdin && !w.cloexecPipes && !closeAll
  }

  /** Besides its pipes the program finds what the caller asked for at 0 to 2,
      the caller's other descriptors unless they are all to be closed, and
      nothing else but, when the list was cut short, the reader of its stdout. */
  ghost predicate OtherwiseAsked(base: Table, child: Table, w: Wanted, closeAll: bool, stdout: int) {
    && (!w.stdin ==> Seen(child, 0) == if w.inheritStdin then Seen(base, 0) else Some(NullDevice(false)))
    && (!w.stdout ==> Seen(child, 1) == if w.stdoutToNull then Some(NullDevice(true)) else Seen(base, 1))
    && (!w.stderr ==> Seen(child, 2) == if w.stderrToNull then Some(NullDevice(true)) else Seen(base, 2))
    && (forall fd: nat :: fd >= 3 && fd in base ==> Seen(child, fd) == if closeAll then None else Seen(base, fd))
    && forall fd: nat :: fd >= 3 && fd !in base ==> (Seen(child, fd) != None <==> fd == stdout && KeepsReader(w, closeAll))
  }

  /** How many pipes are to be opened. */
  function Pipes(w: Wanted): nat {
    (if w.stdin then 1 else 0) + (if w.stdout then 1 else 0) + if w.stderr then 1 else 0
  }

  /** The calls posix_spawn then takes, its close list cut short at the first pipe
      that is not wanted. */
  function SpawnCallsFor(w: Wanted): nat {
    5 + Pipes(w)
      + (if w.stdin || !w.inheritStdin then 1 else 0)
      + (if w.stdout || w.stdoutToNull then 1 else 0)
      + (if w.stderr || w.stderrToNull then 1 else 0)
      + (if !w.stdin then 0 else if !w.stdout then 1 else if !w.stderr then 2 else 3)
  }

  lemma SpawnCallsAre(base: Table, table: Table, ends: seq<int>, w: Wanted, first: nat)
    requires |ends| == 6 && Keeps(base, ends, table) && PipesAt(table, ends, w, first)
    ensures SpawnCalls(RequestFor(ends, w)) == SpawnCallsFor(w)
  {
    var q := RequestFor(ends, w);
    assert q.stdin == ends[0] && q.stdout == ends[3] && q.stderr == ends[5];
    assert (w.stdoutToNull, w.stderrToNull, w.inheritStdin) == (q.stdoutToNull, q.stderrToNull, q.inheritStdin);
    hide Listed, Redirections, NewSources, RequestFor, Keeps;
    EndsListed(ends, w);
    RedirectionsAre(q);
    EachSourceNew(base, table, ends, w, first);
  }

  lemma RedirectionsAre(q: Request)
    ensures Redirections(q, 3) == (if SourceOf(q, 0).Inherit? then 0 else 1)
      + (if SourceOf(q, 1).Inherit? then 0 else 1) + if SourceOf(q, 2).Inherit? then 0 else 1
  {
    hide SourceOf;
    assert Redirections(q, 0) == 0;
    assert Redirections(q, 1) == Redirections(q, 0) + if SourceOf(q, 0).Inherit? then 0 else 1;
    assert Redirections(q, 2) == Redirections(q, 1) + if SourceOf(q, 1).Inherit? then 0 else 1;
  }

  lemma EachSourceNew(base: Table, table: Table, ends: seq<int>, w: Wanted, first: nat)
    requires |ends| == 6 && Keeps(base, ends, table) && PipesAt(table, ends, w, first)
    ensures NewSources(RequestFor(ends, w), 3) == Pipes(w)
  {
    var q := RequestFor(ends, w);
    assert q.stdin == ends[0] && q.stdout == ends[3] && q.stderr == ends[5];
    hide RequestFor, Listed, NewSources;
    EndsListed(ends, w);
    AllNew(q);
  }

  lemma AllNew(q: Request)
    requires q.stdin >= 0 ==> q.stdin !in Listed(q.closeList)
    requires q.stdout >= 0 ==> q.stdout !in Listed(q.closeList) && q.stdout != q.stdin
    requires q.stderr >= 0 ==> q.stderr !in Listed(q.closeList) && q.stderr != q.stdin && q.stderr != q.stdout
    ensures NewSources(q, 3)
      == (if q.stdin >= 0 then 1 else 0) + (if q.stdout >= 0 then 1 else 0) + if q.stderr >= 0 then 1 else 0
  {
    hide Listed;
    assert NewSources(q, 0) == 0;
    assert NewSources(q, 1) == if q.stdin >= 0 then 1 else 0;
    assert NewSources(q, 2) == NewSources(q, 1) + if q.stdout >= 0 then 1 else 0;
    assert NewSources(q, 3) == NewSources(q, 2) + if q.stderr >= 0 then 1 else 0;
  }

  predicate StandardThree(t: Table) { 0 in t && 1 in t && 2 in t }

  /** On the request built from the pipes fork and posix_spawn agree, and either
      way the child gets its ends and what else was asked for. */
  lemma PipesConnected(base: Table, table: Table, ends: seq<int>, w: Wanted, first: nat, spawned: bool, closeAll: bool,
                       child: Table)
    requires |ends| == 6 && Keeps(base, ends, table) && PipesAt(table, ends, w, first)
    requires StandardThree(base) && (spawned ==> !closeAll)
    requires Usable(table, RequestFor(ends, w)) ==> ChildGets(table, RequestFor(ends, w), spawned, closeAll, child)
    ensures Usable(table, RequestFor(ends, w)) && !Overwrites(RequestFor(ends, w))
    ensures w.stdin ==> Seen(child, 0) == Some(Opened(PipeFor(first, w, 0)))
    ensures w.stdout ==> Seen(child, 1) == Some(Opened(PipeFor(first, w, 1) + 1))
    ensures w.stderr ==> Seen(child, 2) == Some(Opened(PipeFor(first, w, 2) + 1))
    ensures OtherwiseAsked(base, child, w, closeAll, ends[2])
  {
    hide Keeps, PipesAt, Usable, Overwrites, Seen, SeenAfterFork, SeenAfterSpawn, IsSource, PipeFor, Listed, RequestFor;
    var q := RequestFor(ends, w);
    PipesUsable(base, table, ends, w, first);
    RedirectedAsAsked(table, q, 0);
    forall fd: nat ensures Seen(child, fd) == SeenAsAsked(table, q, closeAll, fd) {
      RedirectedAsAsked(table, q, fd);
    }
    hide ChildGets, SeenAsAsked;
    StandardEnds(base, table, ends, w, first, closeAll);
    forall fd: nat | fd >= 3
      ensures fd in base ==> Seen(child, fd) == if closeAll then None else Seen(base, fd)
      ensures fd !in base ==> (Seen(child, fd) != None <==> fd == ends[2] && KeepsReader(w, closeAll))
    {
      OtherEnds(base, table, ends, w, first, closeAll, fd);
    }
  }

  lemma StandardEnds(base: Table, table: Table, ends: seq<int>, w: Wanted, first: nat, closeAll: bool)
    requires |ends| == 6 && Keeps(base, ends, table) && PipesAt(table, ends, w, first)
    requires 0 in base && 1 in base && 2 in base && Usable(table, RequestFor(ends, w))
    ensures SeenAsAsked(table, RequestFor(ends, w), closeAll, 0) == if w.stdin then Some(Opened(PipeFor(first, w, 0)))
      else if w.inheritStdin then Seen(base, 0) else Some(NullDevice(false))
    ensures SeenAsAsked(table, RequestFor(ends, w), closeAll, 1) == if w.stdout then Some(Opened(PipeFor(first, w, 1) + 1))
      else if w.stdoutToNull then Some(NullDevice(true)) else Seen(base, 1)
    ensures SeenAsAsked(table, RequestFor(ends, w), closeAll, 2) == if w.stderr then Some(Opened(PipeFor(first, w, 2) + 1))
      else if w.stderrToNull then Some(NullDevice(true)) else Seen(base, 2)
  {
    hide Usable, PipeFor, Listed;
  }

  lemma OtherEnds(base: Table, table: Table, ends: seq<int>, w: Wanted, first: nat, closeAll: bool, fd: nat)
    requires |ends| == 6 && Keeps(base, ends, table) && PipesAt(table, ends, w, first) && fd >= 3
    requires Usable(table, RequestFor(ends, w))
    ensures fd in base ==>
      SeenAsAsked(table, RequestFor(ends, w), closeAll, fd) == if closeAll then None else Seen(base, fd)
    ensures fd !in base ==> (SeenAsAsked(table, RequestFor(ends, w), closeAll, fd) != None
                             <==> fd == ends[2] && KeepsReader(w, closeAll))
  {
    hide Usable, PipeFor, Listed, IsSource, RequestFor;
    EndsListed(ends, w);
    EndsSources(ends, w, fd);
    EndsOf(ends);
  }

  lemma EndsOf(ends: seq<int>)
    requires |ends| == 6
    ensures forall k: int :: k in ends <==>
      k == ends[0] || k == ends[1] || k == ends[2] || k == ends[3] || k == ends[4] || k == ends[5]
  {
  }

  lemma EndsSources(ends: seq<int>, w: Wanted, fd: nat)
    requires |ends| == 6
    ensures IsSource(RequestFor(ends, w), fd) <==> fd == ends[0] || fd == ends[3] || fd == ends[5]
  {
    var q := RequestFor(ends, w);
    assert SourceOf(q, 0) == From(fd) <==> fd == ends[0];
    assert SourceOf(q, 1) == From(fd) <==> fd == ends[3];
    assert SourceOf(q, 2) == From(fd) <==> fd == ends[5];
  }

  lemma EndsListed(ends: seq<int>, w: Wanted)
    requires |ends| == 6
    ensures forall fd: nat :: fd in Listed(RequestFor(ends, w).closeList) <==>
      ends[1] != -1 && (fd == ends[1] || (ends[2] != -1 && (fd == ends[2] || fd == ends[4])))
    ensures |Listed(RequestFor(ends, w).closeList)|
      == if ends[1] == -1 then 0 else if ends[2] == -1 then 1 else if ends[4] == -1 then 2 else 3
  {
    var list := RequestFor(ends, w).closeList;
    var one, two := [ends[4], -1], [ends[2], ends[4], -1];
    assert list[1..] == two && two[1..] == one && one[1..] == [-1];
    assert Listed(one) == if ends[4] == -1 then [] else [ends[4]];
    assert Listed(two) == if ends[2] == -1 then [] else [ends[2]] + Listed(one);
    assert Listed(list) == if ends[1] == -1 then [] else [ends[1]] + Listed(two);
  }

  lemma PipesUsable(base: Table, table: Table, ends: seq<int>, w: Wanted, first: nat)
    requires |ends| == 6 && Keeps(base, ends, table) && StandardThree(base)
    requires PipesAt(table, ends, w, first)
    ensures var q := RequestFor(ends, w); Usable(table, q) && forall s: nat :: IsSource(q, s) ==> s >= 3
  {
    hide Usable, IsSource, Listed;
    EndsOpen(base, table, ends);
    UsableRequest(table, RequestFor(ends, w), ends);
  }

  lemma AllConnected(base: Table, table: Table, ends: seq<int>, w: Wanted, first: nat, spawned: bool, closeAll: bool,
                     child: Table, fds: Table)
    requires |ends| == 6 && Keeps(base, ends, table) && PipesAt(table, ends, w, first)
    requires (StandardThree(base) ==> Usable(table, RequestFor(ends, w))) && (spawned ==> !closeAll)
    requires Usable(table, RequestFor(ends, w)) ==> ChildGets(table, RequestFor(ends, w), spawned, closeAll, child)
    requires MyEnd(fds, ends[1], w.stdin, PipeFor(first, w, 0) + 1)
    requires MyEnd(fds, ends[2], w.stdout, PipeFor(first, w, 1)) && MyEnd(fds, ends[4], w.stderr, PipeFor(first, w, 2))
    ensures StandardThree(base) ==>
      && Connected(child, 0, w.stdin, fds, ends[1], PipeFor(first, w, 0))
      && Connected(child, 1, w.stdout, fds, ends[2], PipeFor(first, w, 1))
      && Connected(child, 2, w.stderr, fds, ends[4], PipeFor(first, w, 2))
      && OtherwiseAsked(base, child, w, closeAll, ends[2])
  {
    hide Keeps, PipesAt, Usable, MyEnd, ChildGets, PipeFor, OtherwiseAsked, Seen, RequestFor;
    if StandardThree(base) {
      PipesConnected(base, table, ends, w, first, spawned, closeAll, child);
    }
  }

  lemma GetsByFork(t: Table, q: Request, closeAll: bool, child: Table)
    ensures Usable(t, q) && (forall fd: nat :: Seen(child, fd) == SeenInChild(t, q, closeAll, fd)) ==>
      ChildGets(t, q, false, closeAll, child)
  {
  }

  lemma ListEnds(ends: seq<int>, w: Wanted)
    requires |ends| == 6
    ensures -1 in RequestFor(ends, w).closeList
  {
    assert RequestFor(ends, w).closeList[3] == -1;
  }

  /** What was asked for, with every source at 3 or above. */
  ghost function SeenAsAsked(t: Table, q: Request, closeAll: bool, fd: nat): Option<File>
    requires Usable(t, q)
  {
    if fd < 3 then
      match SourceOf(q, fd)
      case Inherit => Seen(t, fd)
      case Null => Some(NullDevice(fd > 0))
      case From(s) => (assert IsSource(q, s); Some(t[s].file))
    else if closeAll || IsSource(q, fd) || fd in Listed(q.closeList) then None
    else Seen(t, fd)
  }

  predicate NoneOrOpen(table: Table, fd: int) { fd == -1 || (fd >= 3 && fd as nat in table) }

  lemma UsableRequest(table: Table, q: Request, e: seq<int>)
    requires 0 in table && 1 in table && 2 in table
    requires |e| == 6 && forall i: nat :: i < 6 ==> NoneOrOpen(table, e[i])
    requires forall i: nat, j: nat :: i < j < 6 && e[i] >= 0 ==> e[i] != e[j]
    requires q.stdin == e[0] && q.stdout == e[3] && q.stderr == e[5] && q.closeList == [e[1], e[2], e[4], -1]
    ensures Usable(table, q) && forall s: nat :: IsSource(q, s) ==> s >= 3
  {
    var closes := Listed(q.closeList);
    assert q.closeList[3] == -1;
    assert closes == q.closeList[..|closes|] && |closes| <= 3;
    forall i: nat | i < |closes| ensures closes[i] >= 3 && closes[i] in table {
      assert closes[i] == q.closeList[i] && closes[i] in closes;
    }
    forall fd: nat | IsSource(q, fd) ensures fd >= 3 && fd in table && fd !in closes {
      hide Listed;
      var c: nat :| c < 3 && SourceOf(q, c) == From(fd);
      assert fd == if c == 0 then e[0] else if c == 1 then e[3] else e[5];
    }
  }

  lemma EndsOpen(base: Table, table: Table, ends: seq<int>)
    requires Keeps(base, ends, table) && 0 in base && 1 in base && 2 in base
    ensures 0 in table && 1 in table && 2 in table
    ensures forall i: nat :: i < |ends| && ends[i] >= 0 ==> ends[i] >= 3 && ends[i] in table
    ensures forall i: nat, j: nat :: i < j < |ends| && ends[i] >= 0 ==> ends[i] != ends[j]
  {
    forall i: nat | i < |ends| && ends[i] >= 0 ensures ends[i] >= 3 && ends[i] in table {
      assert ends[i] in ends;
    }
  }

  lemma MineLeft(base: Table, ends: seq<int>, fds: Table)
    requires |ends| == 6 && Keeps(base, [-1, ends[1], ends[2], -1, ends[4], -1], fds)
    ensures Keeps(base, [ends[1], ends[2], ends[4]], fds)
    ensures forall i: nat :: (i == 1 || i == 2 || i == 4) && ends[i] >= 0 ==> ends[i] in fds
  {
    var left, mine := [-1, ends[1], ends[2], -1, ends[4], -1], [ends[1], ends[2], ends[4]];
    assert left[1] == mine[0] && left[2] == mine[1] && left[4] == mine[2];
    assert forall k: nat :: k in left <==> k in mine;
  }

  lemma MyEnds(table: Table, ends: seq<int>, w: Wanted, first: nat, fds: Table)
    requires |ends| == 6 && PipesAt(table, ends, w, first)
    requires forall i: nat :: (i == 1 || i == 2 || i == 4) && ends[i] >= 0 ==> ends[i] in fds
    requires forall k: nat :: k in fds ==> k in table && fds[k] == table[k]
    ensures MyEnd(fds, ends[1], w.stdin, PipeFor(first, w, 0) + 1)
    ensures MyEnd(fds, ends[2], w.stdout, PipeFor(first, w, 1)) && MyEnd(fds, ends[4], w.stderr, PipeFor(first, w, 2))
  {
    hide PipeFor;
  }

  /** What a caller of fork_exec_with_pipes asks for. */
  datatype Wanted = Wanted(stdin: bool, stdout: bool, stderr: bool, stdoutToNull: bool, stderrToNull: bool,
                           inheritStdin: bool, cloexecPipes: bool)

  datatype Options = Options(intermediate: bool, workingDirectory: bool, closeDescriptors: bool,
                             searchFromEnvp: bool, childSetup: bool, emptyProgram: bool)

  predicate CanPosixSpawn(o: Options) {
    !o.intermediate && !o.workingDirectory && !o.closeDescriptors && !o.searchFromEnvp && !o.childSetup
  }

  /** The children left to wait for: none new after a failure or with an
      intermediate child, else the one whose pid is reported. */
  ghost predicate Children(ok: bool, o: Options, pid: int, before: set<int>, after: set<int>) {
    if ok && !o.intermediate then pid > 0 && pid !in before && after == before + {pid} else after == before
  }

  class Parent {
    var fds: Table
    /** Children forked and not yet waited for. */
    var unreaped: set<int>
    var nextPid: int
    var nextFile: nat
    var calls: nat
    /** What the system answers to each call that can fail, in order. */
    const os: nat -> int

    ghost predicate Valid()
      reads this
    {
      nextPid > 0 && forall p :: p in unreaped ==> 0 < p < nextPid
    }

    /** The fork path's calls from some call on: an error report pipe, a pid
        report pipe for an intermediate child, fork, and what is read. */
    predicate ForkWorks(from: nat, intermediate: bool) {
      os(from) == 0 && ReportWorks(from + 1, intermediate)
    }

    /** The next n calls are not refused. */
    ghost predicate OpensWork(from: nat, n: nat) {
      forall i: nat :: from <= i < from + n ==> os(i) == 0
    }

    /** Of n calls from some call on, the first refused gave r and the next one is
        `to`; with r zero none was refused. */
    ghost predicate Went(from: nat, n: nat, r: int, to: nat) {
      if r == 0 then to == from + n && OpensWork(from, n)
      else from < to <= from + n && r == os(to - 1) && OpensWork(from, to - 1 - from)
    }

    /** Call k is the first of n calls that is refused. */
    ghost predicate FirstRefused(from: nat, n: nat, k: nat) {
      from <= k < from + n && os(k) != 0 && OpensWork(from, k - from)
    }

    /** How n calls for posix_spawn turn out: with none refused the child is there;
        after ENOEXEC the fork path is tried; any other error ends it, the refused
        call being the last one made. */
    ghost predicate SpawnGoes(from: nat, n: nat, ok: bool, spawned: bool, to: nat) {
      && (OpensWork(from, n) ==> ok && spawned)
      && forall k: nat :: FirstRefused(from, n, k) ==>
           if os(k) == ENOEXEC then !spawned && (ok <==> ForkWorks(k + 1, false)) else !ok && spawned && to == k + 1
    }

    lemma SpawnWent(from: nat, n: nat, r: int, middle: nat, ok: bool, spawned: bool, to: nat)
      requires Went(from, n, r, middle)
      requires if r == 0 then ok && spawned
               else if r == ENOEXEC then !spawned && (ok <==> ForkWorks(middle, false))
               else !ok && spawned && to == middle
      ensures SpawnGoes(from, n, ok, spawned, to)
    {
    }

    lemma WentOn(from: nat, n: nat, middle: nat, m: nat, r: int, to: nat)
      requires Went(from, n, 0, middle) && Went(middle, m, r, to)
      ensures Went(from, n + m, r, to)
    {
    }

    lemma WentLess(from: nat, n: nat, r: int, to: nat, m: nat)
      requires Went(from, n, r, to) && r != 0 && n <= m
      ensures Went(from, m, r, to)
    {
    }

    /** Fewer than two ints, and with an intermediate child the real child's pid. */
    predicate Heard(from: nat, intermediate: bool) {
      0 <= os(from) < 2 && (intermediate ==> os(from + 1) >= 1)
    }

    predicate ReportWorks(from: nat, intermediate: bool) {
      if intermediate then os(from) == 0 && os(from + 1) == 0 && Heard(from + 2, true)
      else os(from) == 0 && Heard(from + 1, false)
    }

    method Ask() returns (r: int)
      modifies this`calls
      ensures r == os(old(calls)) && calls == old(calls) + 1
    {
      r := os(calls);
      calls := calls + 1;
    }

    /** close_and_invalidate on one variable. */
    method CloseAndInvalidate(vars: seq<int>, i: nat, ghost base: Table) returns (left: seq<int>)
      requires i < |vars| && Keeps(base, vars, fds)
      modifies this`fds
      ensures left == vars[i := -1] && Keeps(base, left, fds)
      ensures Closed(old(fds), vars[i], fds)
    {
      left := vars[i := -1];
      if vars[i] >= 0 {
        fds := fds - {vars[i]};
        forall k: nat ensures k in left <==> k in vars && k != vars[i] {
          if k in vars && k != vars[i] {
            var j :| 0 <= j < |vars| && vars[j] == k;
            assert left[j] == k;
          }
        }
      } else {
        StillKept(base, vars, i, -1, fds);
      }
    }

    lemma StillKept(base: Table, vars: seq<int>, i: nat, v: int, fds: Table)
      requires i < |vars| && Keeps(base, vars, fds) && vars[i] < 0 && v < 0
      ensures Keeps(base, vars[i := v], fds)
    {
      forall k: nat ensures k in vars[i := v] <==> k in vars {
        if k in vars {
          var j :| 0 <= j < |vars| && vars[j] == k;
          assert vars[i := v][j] == k;
        }
      }
    }

    /** A newly opened descriptor goes into a variable that named none. */
    method OpenFile(file: File, cloexec: bool, vars: seq<int>, i: nat, ghost base: Table) returns (now: seq<int>)
      requires i < |vars| && vars[i] < 0 && Keeps(base, vars, fds)
      modifies this`fds
      ensures |now| == |vars| && now == vars[i := now[i]] && now[i] >= 0 && Keeps(base, now, fds)
      ensures now[i] as nat !in old(fds) && fds == old(fds)[now[i] as nat := Descriptor(file, cloexec)]
    {
      var n := FirstFree(fds, 0);
      fds := fds[n := Descriptor(file, cloexec)];
      now := vars[i := n];
      forall k: nat ensures k in now <==> k in vars || k == n {
        if k in vars {
          var j :| 0 <= j < |vars| && vars[j] == k;
          assert now[j] == k;
        }
        assert now[i] == n;
      }
    }

    /** Both ends of a new pipe, or neither. */
    method OpenPipe(cloexec: bool, vars: seq<int>, i: nat, ghost base: Table) returns (ok: bool, now: seq<int>)
      requires i + 1 < |vars| && vars[i] < 0 && vars[i + 1] < 0 && Keeps(base, vars, fds)
      modifies this`fds, this`calls, this`nextFile
      ensures Keeps(base, now, fds) && |now| == |vars| && now == vars[i := now[i]][i + 1 := now[i + 1]]
      ensures !ok ==> now == vars && fds == old(fds)
      ensures ok ==> Piped(old(fds), fds, now[i], now[i + 1], old(nextFile), cloexec) && now[i] >= 0 && now[i + 1] >= 0
      ensures old(nextFile) <= nextFile && (ok ==> nextFile == old(nextFile) + 2)
      ensures calls == old(calls) + 1 && (ok <==> os(old(calls)) == 0)
    {
      hide Keeps;
      now := vars;
      var r := Ask();
      ok := r == 0;
      if ok {
        now := OpenFile(Opened(nextFile), cloexec, now, i, base);
        now := OpenFile(Opened(nextFile + 1), cloexec, now, i + 1, base);
        nextFile := nextFile + 2;
      }
    }

    method Fork() returns (pid: int)
      requires Valid()
      modifies this`unreaped, this`nextPid, this`calls
      ensures Valid() && (pid == -1 || pid > 0)
      ensures pid == -1 ==> unreaped == old(unreaped)
      ensures pid > 0 ==> pid !in old(unreaped) && unreaped == old(unreaped) + {pid}
      ensures calls == old(calls) + 1 && (pid > 0 <==> os(old(calls)) == 0)
    {
      var r := Ask();
      if r != 0 {
        return -1;
      }
      pid := nextPid;
      nextPid := nextPid + 1;
      unreaped := unreaped + {pid};
    }

    /** waitpid until it is not interrupted; a child already waited for is no error. */
    method WaitPid(pid: int)
      requires Valid()
      modifies this`unreaped
      ensures Valid() && unreaped == old(unreaped) - {pid}
    {
      unreaped := unreaped - {pid};
    }

    /** Every variable that still names a descriptor is closed. */
    method CloseAll(vars: seq<int>, ghost base: Table)
      requires Keeps(base, vars, fds)
      modifies this`fds
      ensures fds == base
    {
      hide Keeps;
      var left := vars;
      for i := 0 to |vars|
        invariant Keeps(base, left, fds) && |left| == |vars| && forall j: nat :: j < i ==> left[j] < 0
      {
        left := CloseAndInvalidate(left, i, base);
      }
      NoneOpen(base, left, fds);
    }

    /** One dup2 action, opening the null device where one is wanted; a source is
        to be closed last, once. */
    method AddRedirection(q: Request, slot: nat, nulls: seq<int>, acts0: seq<Action>, list0: seq<int>, ghost base: Table)
      returns (r: int, now: seq<int>, acts: seq<Action>, list: seq<int>)
      requires slot < 3 && |nulls| == 3 && nulls[slot] < 0 && Keeps(base, nulls, fds)
      requires Usable(base, q) ==> Recorded(base, q, slot, fds, acts0) && ToClose(q, slot, list0)
      requires Gathered(q, slot, list0)
      modifies this`fds, this`calls
      ensures |now| == 3 && now == nulls[slot := now[slot]] && Keeps(base, now, fds)
      ensures r == 0 && Usable(base, q) ==> Recorded(base, q, slot + 1, fds, acts) && ToClose(q, slot + 1, list)
      ensures Went(old(calls), Redirections(q, slot + 1) - Redirections(q, slot), r, calls)
      ensures r == 0 ==> Gathered(q, slot + 1, list) && |list| == |list0| + NewSources(q, slot + 1) - NewSources(q, slot)
      ensures forall x :: x in list0 ==> x in list
      ensures forall x :: x in list ==> x in list0 || x >= 0
    {
      hide Keeps, Usable, Recorded, ToClose, SourceOf, Gathered, NewSources, Redirections;
      GatheredMore(q, slot, list0);
      r, now, acts, list := 0, nulls, acts0, list0;
      if Usable(base, q) {
        ToCloseMore(q, slot, list);
      }
      match SourceOf(q, slot)
      case From(fd) =>
        if Usable(base, q) {
          RecordedFrom(base, q, slot, fds, acts, fd);
        }
        r := Ask();
        acts := acts + [DupTo(fd, slot)];
        if fd !in list {
          list := [fd] + list;
        }
      case Null =>
        KeepsKeys(base, nulls, fds);
        now := OpenFile(NullDevice(slot > 0), true, nulls, slot, base);
        if Usable(base, q) {
          RecordedNull(base, q, slot, old(fds), acts, now[slot]);
        }
        r := Ask();
        acts := acts + [DupTo(now[slot], slot)];
      case Inherit =>
        if Usable(base, q) {
          RecordedInherit(base, q, slot, fds, acts);
        }
    }

    /** The closes, one action each; a negative number is refused. */
    method AddCloses(acts0: seq<Action>, list: seq<int>) returns (r: int, acts: seq<Action>)
      modifies this`calls
      ensures r == 0 ==> (forall x :: x in list ==> x >= 0) && acts == acts0 + Closes(list)
      ensures (forall x :: x in list ==> x >= 0) ==> Went(old(calls), |list|, r, calls)
    {
      r, acts := 0, acts0;
      for j := 0 to |list|
        invariant Went(old(calls), j, r, calls) && r == 0
        invariant forall x :: x in list[..j] ==> x >= 0
        invariant acts == acts0 + Closes(list[..j])
      {
        if list[j] < 0 {
          assert list[j] in list;
          return EBADF, acts;
        }
        r := Ask();
        if r != 0 {
          return;
        }
        assert list[..j + 1] == list[..j] + [list[j]];
        assert Closes(list[..j + 1]) == Closes(list[..j]) + [CloseFd(list[j])];
        acts := acts + [CloseFd(list[j])];
      }
      assert list[..|list|] == list;
    }

    /** The file actions: the redirections in order, then the closes. */
    method RecordActions(q: Request, ghost base: Table) returns (r: int, nulls: seq<int>, acts: seq<Action>)
      requires fds == base && -1 in q.closeList
      modifies this`fds, this`calls
      ensures Keeps(base, nulls, fds)
      ensures r == 0 && Usable(base, q) ==>
        AllOpen(fds, acts) && forall fd: nat :: Seen(Run(fds, acts), fd) == SeenAfterSpawn(base, q, fd)
      ensures r == 0 ==> forall x :: x in Listed(q.closeList) ==> x >= 0
      ensures (forall x :: x in Listed(q.closeList) ==> x >= 0) ==>
        Went(old(calls), Redirections(q, 3) + |Listed(q.closeList)| + NewSources(q, 3), r, calls)
    {
      hide Keeps, Usable, Recorded, ToClose, AllOpen, Run, Seen, SeenAfterSpawn, Closes, Listed, Went, Gathered;
      var list := ListedCloses(base, q);
      r, nulls, acts, list := AddRedirections(q, list, base);
      if r == 0 {
        ghost var dups, middle := acts, calls;
        r, acts := AddCloses(acts, list);
        if forall x :: x in Listed(q.closeList) ==> x >= 0 {
          WentOn(old(calls), Redirections(q, 3), middle, |list|, r, calls);
        }
        if r == 0 && Usable(base, q) {
          ActionsSeen(base, q, fds, dups, list);
        }
      } else {
        WentLess(old(calls), Redirections(q, 3), r, calls, Redirections(q, 3) + |Listed(q.closeList)| + NewSources(q, 3));
      }
    }

    /** The three of them. */
    method AddRedirections(q: Request, list0: seq<int>, ghost base: Table)
      returns (r: int, nulls: seq<int>, acts: seq<Action>, list: seq<int>)
      requires fds == base && Gathered(q, 0, list0) && (Usable(base, q) ==> ToClose(q, 0, list0))
      modifies this`fds, this`calls
      ensures Keeps(base, nulls, fds) && Went(old(calls), Redirections(q, 3), r, calls)
      ensures r == 0 ==> (forall x :: x in list0 ==> x in list) && |list| == |list0| + NewSources(q, 3)
      ensures r == 0 && Usable(base, q) ==> Recorded(base, q, 3, fds, acts) && ToClose(q, 3, list)
      ensures forall x :: x in list ==> x in list0 || x >= 0
    {
      hide Keeps, Usable, Recorded, ToClose, Gathered, Went;
      nulls, acts, list := [-1, -1, -1], [], list0;
      KeepsNone(base);
      if Usable(base, q) {
        NothingRecorded(base, q);
      }
      ghost var n1, n2 := Redirections(q, 2) - Redirections(q, 1), Redirections(q, 3) - Redirections(q, 2);
      r, nulls, acts, list := AddRedirection(q, 0, nulls, acts, list, base);
      if r != 0 {
        WentLess(old(calls), Redirections(q, 1), r, calls, Redirections(q, 3));
        return;
      }
      ghost var middle := calls;
      r, nulls, acts, list := AddRedirection(q, 1, nulls, acts, list, base);
      WentOn(old(calls), Redirections(q, 1), middle, n1, r, calls);
      if r != 0 {
        WentLess(old(calls), Redirections(q, 2), r, calls, Redirections(q, 3));
        return;
      }
      middle := calls;
      r, nulls, acts, list := AddRedirection(q, 2, nulls, acts, list, base);
      WentOn(old(calls), Redirections(q, 2), middle, n2, r, calls);
    }

    /** do_posix_spawn: the error number, and the child when it is 0, with its
        table at exec. */
    method DoPosixSpawn(q: Request) returns (r: int, pid: int, child: Table)
      requires Valid() && -1 in q.closeList
      modifies this`fds, this`calls, this`unreaped, this`nextPid
      ensures Valid() && fds == old(fds)
      ensures r != 0 ==> unreaped == old(unreaped)
      ensures r == 0 ==> pid > 0 && pid !in old(unreaped) && unreaped == old(unreaped) + {pid}
      ensures r == 0 && Usable(old(fds), q) ==> forall fd: nat :: Seen(child, fd) == SeenAfterSpawn(old(fds), q, fd)
      ensures r == 0 ==> forall x :: x in Listed(q.closeList) ==> x >= 0
      ensures (forall x :: x in Listed(q.closeList) ==> x >= 0) ==> Went(old(calls), SpawnCalls(q), r, calls)
    {
      hide Keeps, Usable, AllOpen, Run, Seen, SeenAfterSpawn, Listed;
      pid, child := -1, map[];
      ghost var base := fds;
      r := Ask();
      if r != 0 {
        return;
      }
      r := PrepareAttributes();
      if r != 0 {
        return;
      }
      var nulls, acts;
      r, nulls, acts := RecordActions(q, base);
      if r == 0 {
        r := Ask();
        if r == 0 {
          child := Run(fds, acts);
          pid := nextPid;
          nextPid := nextPid + 1;
          unreaped := unreaped + {pid};
        }
      }
      CloseAll(nulls, base);
    }

    /** The flags, the default signals and the empty list of actions. */
    method PrepareAttributes() returns (r: int)
      modifies this`calls
      ensures Went(old(calls), 3, r, calls)
    {
      r := Ask();
      if r == 0 {
        r := Ask();
      }
      if r == 0 {
        r := Ask();
      }
    }

    /** How many ints the child sent before its end closed, -1 on a read error. */
    method ReadInts(wanted: nat) returns (n: int)
      modifies this`calls
      ensures n == (if os(old(calls)) > wanted then wanted else os(old(calls))) && calls == old(calls) + 1
    {
      var r := Ask();
      n := if r > wanted then wanted else r;
    }

    /** fork_exec_with_fds: posix_spawn where it can be used, else fork; with the
        table of the program's process at exec. */
    method ForkExecWithFds(o: Options, q: Request) returns (ok: bool, pid: int, spawned: bool, child: Table)
      requires Valid() && -1 in q.closeList
      modifies this
      ensures Valid() && fds == old(fds) && nextFile >= old(nextFile)
      ensures Children(ok, o, pid, old(unreaped), unreaped)
      ensures spawned ==> CanPosixSpawn(o)
      ensures ok && Usable(old(fds), q) ==> ChildGets(old(fds), q, spawned, o.closeDescriptors, child)
      ensures Usable(old(fds), q) && !CanPosixSpawn(o) ==> (ok <==> ForkWorks(old(calls), o.intermediate))
      ensures Usable(old(fds), q) && CanPosixSpawn(o) && !o.emptyProgram ==>
        SpawnGoes(old(calls), SpawnCalls(q), ok, spawned, calls)
      ensures CanPosixSpawn(o) && o.emptyProgram ==> !ok && calls == old(calls)
    {
      hide Keeps, Usable, Seen, SeenAfterSpawn, SeenInChild, Listed, Went, SpawnGoes, ForkWorks, SpawnCalls;
      if Usable(fds, q) {
        ListedOpen(fds, q);
      }
      ghost var middle := calls;
      if CanPosixSpawn(o) {
        var status := ENOENT;
        if !o.emptyProgram {
          status, pid, child := DoPosixSpawn(q);
        }
        middle := calls;
        if status == 0 {
          if Usable(old(fds), q) {
            SpawnWent(old(calls), SpawnCalls(q), status, middle, true, true, middle);
          }
          return true, pid, true, child;
        }
        if status != ENOEXEC {
          if Usable(old(fds), q) && !o.emptyProgram {
            SpawnWent(old(calls), SpawnCalls(q), status, middle, false, true, middle);
          }
          return false, -1, true, map[];
        }
      }
      spawned := false;
      ok, pid, child := ForkAndReport(o, q);
      if CanPosixSpawn(o) && Usable(old(fds), q) {
        SpawnWent(old(calls), SpawnCalls(q), ENOEXEC, middle, ok, false, calls);
      }
    }

    /** What the parent learns from the report pipes: two ints are an error, and
        an intermediate child is waited for and says the real child's pid. A
        child whose dup2 failed has sent two. */
    method Report(o: Options, pid: int, redirected: bool) returns (ok: bool, reported: int)
      requires Valid()
      modifies this`calls, this`unreaped
      ensures Valid() && unreaped == old(unreaped) - if o.intermediate then {pid} else {}
      ensures ok <==> redirected && Heard(old(calls), o.intermediate)
      ensures reported == if ok && o.intermediate then os(old(calls) + 2) else pid
    {
      reported := pid;
      if o.intermediate {
        WaitPid(pid);
      }
      var n := ReadInts(2);
      if n < 0 || n >= 2 || !redirected {
        return false, pid;
      }
      if o.intermediate {
        n := ReadInts(1);
        if n < 1 {
          return false, pid;
        }
        reported := Ask();
      }
      ok := true;
    }

    /** From the error report pipe being open to the child's report; a failure
        leaves no child unwaited for. */
    method ForkOnce(o: Options, q: Request, ends0: seq<int>, ghost base: Table)
      returns (ok: bool, reported: int, ends: seq<int>, child: Table)
      requires Valid() && |ends0| == 4 && ends0[1] >= 0 && ends0[2] < 0 && ends0[3] < 0
      requires Keeps(base, ends0, fds) && -1 in q.closeList
      modifies this
      ensures Valid() && nextFile >= old(nextFile) && |ends| == 4 && Keeps(base, ends, fds)
      ensures ok ==> ends[1] < 0 && ends[3] < 0
      ensures Children(ok, o, reported, old(unreaped), unreaped)
      ensures ok && Usable(base, q) ==> ChildGets(base, q, false, o.closeDescriptors, child)
      ensures Usable(base, q) ==> (ok <==> ReportWorks(old(calls), o.intermediate))
    {
      hide Keeps, Closed, Piped, Usable, ChildGets, Seen, SeenInChild, SeenAfterSpawn, Heard;
      ends, reported, child := ends0, -1, map[];
      if o.intermediate {
        ok, ends := OpenPipe(q.cloexecPipes, ends, 2, base);
        if !ok {
          return;
        }
      }
      var pid := Fork();
      if pid < 0 {
        return false, -1, ends, child;
      }
      var redirected;
      redirected, child := ForkChild(base, fds, q, ends, o.intermediate, o.closeDescriptors);
      GetsByFork(base, q, o.closeDescriptors, child);
      ends := CloseAndInvalidate(ends, 1, base);
      ends := CloseAndInvalidate(ends, 3, base);
      ok, reported := Report(o, pid, redirected);
      if !ok {
        WaitPid(pid);
      }
    }

    /** The fork path. Variables 0 and 1 are the error report pipe, 2 and 3 the
        pid report pipe. */
    method ForkAndReport(o: Options, q: Request) returns (ok: bool, pid: int, child: Table)
      requires Valid() && -1 in q.closeList
      modifies this
      ensures Valid() && fds == old(fds) && nextFile >= old(nextFile)
      ensures Children(ok, o, pid, old(unreaped), unreaped)
      ensures ok && Usable(old(fds), q) ==> ChildGets(old(fds), q, false, o.closeDescriptors, child)
      ensures Usable(old(fds), q) ==> (ok <==> ForkWorks(old(calls), o.intermediate))
    {
      hide Keeps, Closed, Piped, Children, Usable, ChildGets, ReportWorks;
      ghost var base := fds;
      KeepsNone(base);
      var ends := [-1, -1, -1, -1];
      ok, ends := OpenPipe(q.cloexecPipes, ends, 0, base);
      if !ok {
        assert Children(false, o, -1, unreaped, unreaped) by { NoChild(o, unreaped); }
        return false, -1, map[];
      }
      ok, pid, ends, child := ForkOnce(o, q, ends, base);
      if ok {
        ends := CloseAndInvalidate(ends, 0, base);
        ends := CloseAndInvalidate(ends, 2, base);
        NoneOpen(base, ends, fds);
      } else {
        CloseAll(ends, base);
      }
    }

    /** One of the three pipes, if the caller wants it. */
    method OpenWanted(want: bool, cloexec: bool, ends0: seq<int>, i: nat, ghost base: Table)
      returns (ok: bool, ends: seq<int>)
      requires |ends0| == 6 && i % 2 == 0 && i < 6 && ends0[i] == -1 && ends0[i + 1] == -1 && Keeps(base, ends0, fds)
      modifies this`fds, this`calls, this`nextFile
      ensures Keeps(base, ends, fds) && |ends| == 6 && ends == ends0[i := ends[i]][i + 1 := ends[i + 1]]
      ensures ok ==> PipeAt(fds, ends, i, want, old(nextFile), cloexec) && nextFile == old(nextFile) + if want then 2 else 0
      ensures forall j: nat, w: bool, f: nat, c: bool ::
                j < 6 && j % 2 == 0 && j != i && PipeAt(old(fds), ends0, j, w, f, c) ==> PipeAt(fds, ends, j, w, f, c)
      ensures calls == old(calls) + (if want then 1 else 0) && (ok <==> !want || os(old(calls)) == 0)
    {
      hide Keeps;
      if want {
        ok, ends := OpenPipe(cloexec, ends0, i, base);
      } else {
        ok, ends := true, ends0;
      }
    }

    /** The child's ends are closed; the parent's stay. */
    method CloseUncared(ends: seq<int>, ghost base: Table, ghost w: Wanted, ghost first: nat)
      returns (left: seq<int>)
      requires |ends| == 6 && Keeps(base, ends, fds)
      requires PipesAt(fds, ends, w, first)
      modifies this`fds
      ensures Keeps(base, [ends[1], ends[2], ends[4]], fds)
      ensures MyEnd(fds, ends[1], w.stdin, PipeFor(first, w, 0) + 1)
      ensures MyEnd(fds, ends[2], w.stdout, PipeFor(first, w, 1)) && MyEnd(fds, ends[4], w.stderr, PipeFor(first, w, 2))
    {
      hide Keeps, PipesAt, MyEnd, PipeFor;
      left := CloseAndInvalidate(ends, 0, base);
      left := CloseAndInvalidate(left, 3, base);
      left := CloseAndInvalidate(left, 5, base);
      assert left == [-1, ends[1], ends[2], -1, ends[4], -1];
      MineLeft(base, ends, fds);
      MyEnds(old(fds), ends, w, first, fds);
    }

    /** fork_exec_with_pipes. A wanted stream yields the parent's end of a new
        pipe, whose other end the child's program finds at 0, 1 or 2. */
    method ForkExecWithPipes(o: Options, w: Wanted)
      returns (ok: bool, pid: int, stdin: int, stdout: int, stderr: int, spawned: bool, child: Table)
      requires Valid()
      modifies this
      ensures Valid() && Children(ok, o, pid, old(unreaped), unreaped)
      ensures !ok ==> fds == old(fds)
      ensures ok ==> Keeps(old(fds), [stdin, stdout, stderr], fds)
      ensures ok && StandardThree(old(fds)) ==>
        && Connected(child, 0, w.stdin, fds, stdin, PipeFor(old(nextFile), w, 0))
        && Connected(child, 1, w.stdout, fds, stdout, PipeFor(old(nextFile), w, 1))
        && Connected(child, 2, w.stderr, fds, stderr, PipeFor(old(nextFile), w, 2))
        && OtherwiseAsked(old(fds), child, w, o.closeDescriptors, stdout)
      ensures StandardThree(old(fds)) && !CanPosixSpawn(o) ==>
        (ok <==> OpensWork(old(calls), Pipes(w)) && ForkWorks(old(calls) + Pipes(w), o.intermediate))
      ensures !OpensWork(old(calls), Pipes(w)) ==> !ok
      ensures StandardThree(old(fds)) && CanPosixSpawn(o) && !o.emptyProgram && OpensWork(old(calls), Pipes(w)) ==>
        SpawnGoes(old(calls) + Pipes(w), SpawnCallsFor(w), ok, spawned, calls)
      ensures CanPosixSpawn(o) && o.emptyProgram ==> !ok
    {
      hide Keeps, PipesAt, Usable, MyEnd, Children, ChildGets, PipeFor, OtherwiseAsked, Connected, RequestFor;
      hide StandardThree, SpawnGoes, ForkWorks;
      ghost var base, first := fds, nextFile;
      var ends;
      pid, spawned, child := -1, false, map[];
      NoChild(o, unreaped);
      ok, ends := OpenPipes(w);
      ghost var table := fds;
      if ok {
        if StandardThree(base) {
          PipesUsable(base, table, ends, w, first);
          SpawnCallsAre(base, table, ends, w, first);
        }
        ListEnds(ends, w);
        ok, pid, spawned, child := ForkExecWithFds(o, RequestFor(ends, w));
      }
      if !ok {
        CloseAll(ends, base);
        return false, pid, -1, -1, -1, spawned, child;
      }
      stdin, stdout, stderr := ends[1], ends[2], ends[4];
      ghost var all := ends;
      ends := CloseUncared(ends, base, w, first);
      AllConnected(base, table, all, w, first, spawned, o.closeDescriptors, child, fds);
    }

    method OpenPipes(w: Wanted) returns (ok: bool, ends: seq<int>)
      modifies this`fds, this`calls, this`nextFile
      ensures |ends| == 6 && Keeps(old(fds), ends, fds)
      ensures ok ==> PipesAt(fds, ends, w, old(nextFile)) && calls == old(calls) + Pipes(w)
      ensures ok <==> OpensWork(old(calls), Pipes(w))
    {
      hide Keeps, PipeAt;
      ghost var base := fds;
      KeepsNone(base);
      ends := [-1, -1, -1, -1, -1, -1];
      ok, ends := OpenWanted(w.stdin, w.cloexecPipes, ends, 0, base);
      if ok {
        ok, ends := OpenWanted(w.stdout, w.cloexecPipes, ends, 2, base);
      }
      if ok {
        ok, ends := OpenWanted(w.stderr, true, ends, 4, base);
      }
    }

    lemma NoChild(o: Options, children: set<int>)
      ensures Children(false, o, -1, children, children)
    {
    }
  }

  lemma ListedOpen(t: Table, q: Request)
    requires Usable(t, q)
    ensures forall x :: x in Listed(q.closeList) ==> x >= 0
  {
  }
}
