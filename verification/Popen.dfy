/** popen and pclose: the chain of open streams, linked and unlinked in place,
    and the descriptors a new child gets. */
module Popen {

  import opened Optional
  import opened SpawnDescriptors

  const NULL := 0

  datatype Mode = Mode(reading: bool, cloexec: bool)

  predicate GoodMode(mode: string) {
    && (forall c :: c in mode ==> c == 'r' || c == 'w' || c == 'e')
    && ('r' in mode) != ('w' in mode)
  }

  /** The mode string's loop. */
  method ParseMode(mode: string) returns (m: Option<Mode>)
    ensures m == if GoodMode(mode) then Some(Mode('r' in mode, 'e' in mode)) else None
  {
    var doRead, doWrite, doCloexec := false, false, false;
    for i := 0 to |mode|
      invariant forall c :: c in mode[..i] ==> c == 'r' || c == 'w' || c == 'e'
      invariant doRead == ('r' in mode[..i]) && doWrite == ('w' in mode[..i]) && doCloexec == ('e' in mode[..i])
    {
      assert mode[..i + 1] == mode[..i] + [mode[i]];
      if mode[i] == 'r' {
        doRead := true;
      } else if mode[i] == 'w' {
        doWrite := true;
      } else if mode[i] == 'e' {
        doCloexec := true;
      } else {
        assert mode[i] in mode;
        return None;
      }
    }
    assert mode[..|mode|] == mode;
    if doRead == doWrite {
      return None;
    }
    m := Some(Mode(doRead, doCloexec));
  }

  // ----- the chain -----

  datatype Happened = OpenedStream(fp: int) | ClosedStream(fp: int)

  function Except(s: seq<int>, x: int): (r: seq<int>)
    ensures x !in r && forall y :: y != x ==> (y in r <==> y in s)
  {
    if s == [] then [] else if s[0] == x then Except(s[1..], x) else [s[0]] + Except(s[1..], x)
  }

  lemma {:induction false} ExceptAbsent(s: seq<int>, x: int)
    requires x !in s
    ensures Except(s, x) == s
  {
    if s != [] {
      ExceptAbsent(s[1..], x);
    }
  }

  lemma {:induction false} ExceptNth(s: seq<int>, i: nat)
    requires i < |s| && NoRepeats(s)
    ensures Except(s, s[i]) == s[..i] + s[i + 1..]
  {
    if i == 0 {
      ExceptAbsent(s[1..], s[0]);
    } else {
      ExceptNth(s[1..], i - 1);
      assert s[1..][..i - 1] == s[1..i] && s[1..][i..] == s[i + 1..];
    }
  }

  predicate NoRepeats(s: seq<int>) {
    forall i: nat, j: nat :: i < j < |s| ==> s[i] != s[j]
  }

  function After(open: seq<int>, e: Happened): seq<int> {
    match e case OpenedStream(fp) => [fp] + open case ClosedStream(fp) => Except(open, fp)
  }

  /** The streams opened and not closed since, latest first. */
  function StillOpen(log: seq<Happened>): seq<int> {
    if log == [] then [] else After(StillOpen(log[..|log| - 1]), log[|log| - 1])
  }

  /** Entry i opened the stream and no later entry closed it. */
  ghost predicate OpensAt(log: seq<Happened>, fp: int, i: nat) {
    i < |log| && log[i] == OpenedStream(fp) && ClosedStream(fp) !in log[i + 1..]
  }

  lemma OpensBefore(log: seq<Happened>, fp: int, i: nat)
    requires i + 1 < |log|
    ensures OpensAt(log, fp, i) <==> OpensAt(log[..|log| - 1], fp, i) && log[|log| - 1] != ClosedStream(fp)
  {
    var n, rest := |log| - 1, log[..|log| - 1];
    assert log[i + 1..] == rest[i + 1..] + [log[n]];
  }

  /** A stream is still open exactly if an opening of it has no closing after it. */
  lemma {:induction false} StillOpenExact(log: seq<Happened>, fp: int)
    ensures fp in StillOpen(log) <==> exists i: nat :: OpensAt(log, fp, i)
  {
    if log != [] {
      var n, rest := |log| - 1, log[..|log| - 1];
      StillOpenExact(rest, fp);
      assert StillOpen(log) == After(StillOpen(rest), log[n]);
      assert OpensAt(log, fp, n) <==> log[n] == OpenedStream(fp);
      forall i: nat | i < n ensures OpensAt(log, fp, i) <==> OpensAt(rest, fp, i) && log[n] != ClosedStream(fp) {
        OpensBefore(log, fp, i);
      }
      hide StillOpen, OpensAt;
      if i: nat :| OpensAt(rest, fp, i) {
        OpensWithin(rest, fp, i);
      }
      if i: nat :| OpensAt(log, fp, i) {
        OpensWithin(log, fp, i);
      }
    }
  }

  lemma OpensWithin(log: seq<Happened>, fp: int, i: nat)
    requires OpensAt(log, fp, i)
    ensures i < |log|
  {
  }

  /** The chain in memory: from the head along next to NULL. */
  ghost predicate Chained(head: int, next: map<int, int>, chain: seq<int>) {
    && head == Nth(chain, 0)
    && NULL !in chain && NoRepeats(chain)
    && forall i: nat :: i < |chain| ==> chain[i] in next && next[chain[i]] == Nth(chain, i + 1)
  }

  function Nth(chain: seq<int>, i: nat): int {
    if i < |chain| then chain[i] else NULL
  }

  /** The variable a pointer to a pointer designates. */
  datatype Place = Head | NextOf(p: int)

  /** Each stream on the chain has an open descriptor of its own. */
  ghost predicate Owned(chain: seq<int>, fileno: map<int, nat>, fds: Table) {
    && (forall i: nat :: i < |chain| ==> chain[i] in fileno && fileno[chain[i]] in fds)
    && forall i: nat, j: nat :: i < j < |chain| ==> fileno[chain[i]] != fileno[chain[j]]
  }

  /** What a walk along the chain meets at its i-th step. */
  lemma Walk(head: int, next: map<int, int>, chain: seq<int>, i: nat)
    requires Chained(head, next, chain)
    ensures head == Nth(chain, 0) && NoRepeats(chain)
    ensures i < |chain| ==> chain[i] != NULL && chain[i] in next && next[chain[i]] == Nth(chain, i + 1)
    ensures i < |chain| ==> Nth(chain, i) == chain[i]
    ensures i < |chain| <==> Nth(chain, i) != NULL
  {
  }

  lemma LogMore(log: seq<Happened>, e: Happened)
    ensures StillOpen(log + [e]) == After(StillOpen(log), e)
  {
    assert (log + [e])[..|log|] == log;
  }

  lemma UnlinkFrom(head: int, next: map<int, int>, chain: seq<int>, i: nat)
    requires Chained(head, next, chain) && i < |chain|
    ensures var left := Except(chain, chain[i]);
      if i == 0 then Chained(next[chain[i]], next, left)
      else Chained(head, next[chain[i - 1] := next[chain[i]]], left)
  {
    ExceptNth(chain, i);
    LeftChain(chain, i);
    hide Except, NoRepeats, Nexts;
    var left := Left(chain, i);
    forall j: nat | j < |left|
      ensures left[j] in Nexts(next, chain, i) && Nexts(next, chain, i)[left[j]] == Nth(left, j + 1)
    {
      NextLeft(next, chain, i, j);
    }
  }

  /** The chain without its i-th stream. */
  function Left(chain: seq<int>, i: nat): seq<int>
    requires i < |chain|
  {
    chain[..i] + chain[i + 1..]
  }

  lemma LeftChain(chain: seq<int>, i: nat)
    requires i < |chain| && NoRepeats(chain) && NULL !in chain
    ensures NULL !in Left(chain, i) && NoRepeats(Left(chain, i))
    ensures Nth(Left(chain, i), 0) == if i == 0 then Nth(chain, 1) else chain[0]
  {
  }

  /** The pointers once the predecessor of the i-th has been given its successor. */
  function Nexts(next: map<int, int>, chain: seq<int>, i: nat): map<int, int>
    requires i < |chain| && chain[i] in next
  {
    if i == 0 then next else next[chain[i - 1] := next[chain[i]]]
  }

  lemma NextLeft(next: map<int, int>, chain: seq<int>, i: nat, j: nat)
    requires i < |chain| && j < |chain| - 1 && NoRepeats(chain)
    requires forall k: nat :: k < |chain| ==> chain[k] in next && next[chain[k]] == Nth(chain, k + 1)
    ensures Left(chain, i)[j] in Nexts(next, chain, i)
    ensures Nexts(next, chain, i)[Left(chain, i)[j]] == Nth(Left(chain, i), j + 1)
  {
    assert j + 1 != i && i > 0 ==> Left(chain, i)[j] != chain[i - 1];
  }

  lemma OwnedLess(chain: seq<int>, i: nat, fileno: map<int, nat>, fds: Table)
    requires Owned(chain, fileno, fds) && i < |chain| && NoRepeats(chain)
    ensures Owned(Except(chain, chain[i]), fileno, fds)
    ensures Owned(Except(chain, chain[i]), fileno, fds - {fileno[chain[i]]})
  {
    ExceptNth(chain, i);
    var left := chain[..i] + chain[i + 1..];
    forall j: nat | j < |left| ensures left[j] == chain[if j < i then j else j + 1] {
    }
  }

  /** The descriptors of the first n streams on the chain. */
  ghost function Filenos(chain: seq<int>, n: nat, fileno: map<int, nat>): set<nat>
    requires n <= |chain|
  {
    set i | 0 <= i < n && chain[i] in fileno :: fileno[chain[i]]
  }

  /** A new pipe on top of a table: the parent's end p and the child's end c. */
  ghost predicate PipeOn(base: Table, fds: Table, p: nat, c: nat, mine: File, theirs: File) {
    && p !in base && c !in base && p != c
    && fds == base[p := Descriptor(mine, true)][c := Descriptor(theirs, true)]
  }

  /** The two ends of a pipe: a stream read from keeps the reading end. */
  function Mine(m: Mode, file: nat): File { Opened(if m.reading then file else file + 1) }
  function Theirs(m: Mode, file: nat): File { Opened(if m.reading then file + 1 else file) }

  /** The child's table once its standard end and the closes so far are done. */
  ghost predicate ChildStage(fds: Table, std: nat, theirs: File, closed: set<nat>, t: Table) {
    && (forall fd: nat :: fd in t <==> fd == std || (fd in fds && fd !in closed))
    && (forall fd: nat :: fd in t ==> t[fd] == if fd == std then Descriptor(theirs, false) else fds[fd])
  }

  /** What the command finds: its end of the pipe at 0 or 1, none of the earlier
      streams' descriptors, and everything else as the parent has it. */
  ghost predicate ChildView(base: Table, std: nat, theirs: File, streams: set<nat>, child: Table) {
    forall fd: nat :: Seen(child, fd) ==
      if fd == std then Some(theirs) else if fd in streams then None else Seen(base, fd)
  }

  lemma StageView(base: Table, fds: Table, p: nat, c: nat, mine: File, theirs: File, std: nat, streams: set<nat>,
        child: Table)
    requires PipeOn(base, fds, p, c, mine, theirs) && ChildStage(fds, std, theirs, streams, child)
    ensures ChildView(base, std, theirs, streams, child)
  {
  }

  /** Each open stream's child is its own and has not been waited for. */
  ghost predicate Reapable(fileno: map<int, nat>, pids: map<int, int>, unreaped: set<int>, nextPid: int) {
    && (forall p :: p in unreaped ==> 0 < p < nextPid) && nextPid > 0
    && (forall fp :: fp in fileno ==> fp in pids && pids[fp] in unreaped)
    && forall fp, g :: fp in fileno && g in fileno && fp != g ==> pids[fp] != pids[g]
  }

  lemma NewChild(fileno: map<int, nat>, pids: map<int, int>, unreaped: set<int>, pid: int, fp: int, fd: nat)
    requires Reapable(fileno, pids, unreaped, pid) && fp !in fileno
    ensures pid !in unreaped && Reapable(fileno[fp := fd], pids[fp := pid], unreaped + {pid}, pid + 1)
  {
  }

  lemma ChildOf(fileno: map<int, nat>, pids: map<int, int>, unreaped: set<int>, nextPid: int, fp: int)
    requires Reapable(fileno, pids, unreaped, nextPid) && fp in fileno
    ensures fp in pids && pids[fp] in unreaped
    ensures Reapable(fileno - {fp}, pids, unreaped, nextPid)
    ensures Reapable(fileno - {fp}, pids, unreaped - {pids[fp]}, nextPid)
  {
  }

  lemma NotOnChain(head: int, next: map<int, int>, chain: seq<int>, fileno: map<int, nat>, fds: Table, fp: int)
    requires Chained(head, next, chain) && Owned(chain, fileno, fds) && fp !in fileno
    ensures fp !in chain
  {
  }

  class Streams {
    var head: int
    var next: map<int, int>
    var fileno: map<int, nat>
    var fds: Table
    var nextFile: nat
    /** The child of each stream, and the children not yet waited for. */
    var pids: map<int, int>
    var unreaped: set<int>
    var nextPid: int
    var calls: nat
    /** What the system answers to each call that can fail, in order. */
    const os: nat -> int
    ghost var log: seq<Happened>

    /** No stream opened yet. */
    constructor (os: nat -> int, table: Table)
      ensures Valid() && log == [] && fds == table && this.os == os
    {
      this.os, fds, log := os, table, [];
      head, next, fileno, nextFile, calls := NULL, map[], map[], 0, 0;
      pids, unreaped, nextPid := map[], {}, 1;
    }

    /** The chain in memory is the streams still open, each with a descriptor. */
    ghost predicate Linked()
      reads this
    {
      Chained(head, next, StillOpen(log)) && Owned(StillOpen(log), fileno, fds)
    }

    /** And no other stream is open; each open one has a child of its own. */
    ghost predicate Valid()
      reads this
    {
      Linked() && (forall fp :: fp in fileno ==> fp in StillOpen(log)) && Reapable(fileno, pids, unreaped, nextPid)
    }

    /** From some call on the system refuses nothing. */
    ghost predicate Willing(from: nat) {
      forall i: nat :: i >= from ==> os(i) == 0
    }

    method Ask() returns (r: int)
      modifies this`calls
      ensures r == os(old(calls)) && calls == old(calls) + 1
    {
      r := os(calls);
      calls := calls + 1;
    }

    method Succeeds() returns (ok: bool)
      modifies this`calls
      ensures ok == (os(old(calls)) == 0) && calls == old(calls) + 1
    {
      var r := Ask();
      ok := r == 0;
    }

    function Deref(at: Place): int
      requires at.NextOf? ==> at.p in next
      reads this
    {
      match at case Head => head case NextOf(p) => next[p]
    }

    /** Unlinking through a pointer to the pointer that leads to the stream. */
    method Unlink(fp: int) returns (found: bool)
      requires Linked()
      modifies this`head, this`next, this`log
      ensures Linked() && found == (fp in old(StillOpen(log)))
      ensures log == if found then old(log) + [ClosedStream(fp)] else old(log)
    {
      hide Owned, Chained, StillOpen, Except, Nth;
      ghost var chain := StillOpen(log);
      var ptr := Head;
      ghost var i := 0;
      Walk(head, next, chain, 0);
      while Deref(ptr) != NULL
        invariant i <= |chain| && head == old(head) && next == old(next) && log == old(log)
        invariant ptr == if i == 0 then Head else NextOf(chain[i - 1])
        invariant ptr.NextOf? ==> ptr.p in next
        invariant Deref(ptr) == Nth(chain, i) && (i < |chain| ==> Deref(ptr) == chain[i])
        invariant fp !in chain[..i]
        decreases |chain| - i
      {
        Walk(head, next, chain, i);
        if Deref(ptr) == fp {
          UnlinkFrom(head, next, chain, i);
          OwnedLess(chain, i, fileno, fds);
          match ptr {
            case Head => head := next[fp];
            case NextOf(p) => next := next[p := next[fp]];
          }
          log := log + [ClosedStream(fp)];
          LogMore(old(log), ClosedStream(fp));
          return true;
        }
        Walk(head, next, chain, i + 1);
        ptr := NextOf(Deref(ptr));
        i := i + 1;
      }
      Walk(head, next, chain, i);
      assert chain[..i] == chain;
      found := false;
    }

    /** pipe2 with the close-on-exec flag, then the child's end moved away if it
        has the very number the child is to use. */
    method OpenPipe(m: Mode, std: nat) returns (ok: bool, p: nat, c: nat)
      modifies this`fds, this`calls, this`nextFile
      ensures ok ==> PipeOn(old(fds), fds, p, c, Mine(m, old(nextFile)), Theirs(m, old(nextFile))) && c != std
      ensures !ok ==> fds == old(fds)
      ensures calls >= old(calls) && (Willing(old(calls)) ==> ok)
    {
      ghost var file := nextFile;
      p, c := 0, 0;
      ok := Succeeds();
      if !ok {
        return;
      }
      var r := FirstFree(fds, 0);
      fds := fds[r := Descriptor(Opened(nextFile), true)];
      var w := FirstFree(fds, 0);
      fds := fds[w := Descriptor(Opened(nextFile + 1), true)];
      nextFile := nextFile + 2;
      if m.reading {
        p, c := r, w;
      } else {
        p, c := w, r;
      }
      assert PipeOn(old(fds), fds, p, c, Mine(m, file), Theirs(m, file));
      if c == std {
        ok, c := MoveEnd(std, old(fds), p, Mine(m, file), Theirs(m, file));
      }
    }

    /** The child's end is duplicated to a free number and closed; failing that,
        the pipe is given up. */
    method MoveEnd(std: nat, ghost base: Table, p: nat, ghost mine: File, ghost theirs: File) returns (ok: bool, c: nat)
      requires PipeOn(base, fds, p, std, mine, theirs)
      modifies this`fds, this`calls
      ensures if ok then PipeOn(base, fds, p, c, mine, theirs) && c != std else fds == base
      ensures calls >= old(calls) && (Willing(old(calls)) ==> ok)
    {
      c := std;
      ok := Succeeds();
      if ok {
        c := FirstFree(fds, 0);
        fds := fds[c := fds[std].(cloexec := true)];
        fds := fds - {std};
        assert fds == base[p := Descriptor(mine, true)][c := Descriptor(theirs, true)];
      } else {
        fds := fds - {std};
        fds := fds - {p};
        assert fds == base;
      }
    }

    /** The child's actions: its end onto 0 or 1, then a close for each earlier
        stream unless that number was just replaced. */
    method AddActions(std: nat, c: nat, ghost chain: seq<int>, ghost theirs: File) returns (ok: bool, acts: seq<Action>)
      requires Chained(head, next, chain) && Owned(chain, fileno, fds)
      requires c in fds && fds[c].file == theirs && c != std && c !in Filenos(chain, |chain|, fileno)
      modifies this`calls
      ensures ok ==> AllOpen(fds, acts) && ChildStage(fds, std, theirs, Filenos(chain, |chain|, fileno), Run(fds, acts))
      ensures calls >= old(calls) && (Willing(old(calls)) ==> ok)
    {
      hide Run, AllOpen, Chained, Nth, ChildStage, Filenos, Owned;
      Named(chain, fileno, fds);
      acts := [];
      ok := Succeeds();
      if !ok {
        return;
      }
      FirstAction(fds, c, std, theirs);
      acts := [DupTo(c, std)];
      var p := head;
      ghost var i := 0;
      Walk(head, next, chain, 0);
      while p != NULL
        invariant i <= |chain| && p == Nth(chain, i) && (i < |chain| ==> p == chain[i])
        invariant ok && calls >= old(calls)
        invariant AllOpen(fds, acts) && ChildStage(fds, std, theirs, Filenos(chain, i, fileno), Run(fds, acts))
        decreases |chain| - i
      {
        Walk(head, next, chain, i);
        Walk(head, next, chain, i + 1);
        NextFileno(chain, i, fileno, fds);
        var fd := fileno[p];
        StageClose(fds, std, theirs, Filenos(chain, i, fileno), Run(fds, acts), fd);
        if fd != std {
          ok := Succeeds();
          if !ok {
            return;
          }
          OneMore(fds, acts, CloseFd(fd));
          acts := acts + [CloseFd(fd)];
        }
        p := next[p];
        i := i + 1;
      }
      Walk(head, next, chain, i);
    }

    /** _IO_new_proc_open.  A stream that is open already is refused. */
    method ProcOpen(fp: int, mode: string) returns (ok: bool, child: Table)
      requires Valid() && fp != NULL
      modifies this
      ensures Valid()
      ensures ok ==> fp !in old(StillOpen(log))
      ensures !ok ==> fds == old(fds) && log == old(log) && fileno == old(fileno) && unreaped == old(unreaped)
      ensures ok ==> fp in pids && pids[fp] !in old(unreaped) && unreaped == old(unreaped) + {pids[fp]}
      ensures ok ==> GoodMode(mode) && log == old(log) + [OpenedStream(fp)]
      ensures ok ==> fp in fileno && fileno == old(fileno)[fp := fileno[fp]] && fileno[fp] !in old(fds)
      ensures ok ==> var mine := old(nextFile) + if 'r' in mode then 0 else 1;
        fds == old(fds)[fileno[fp] := Descriptor(Opened(mine), 'e' in mode)]
      ensures ok ==>
        var reading := 'r' in mode;
        ChildView(old(fds), if reading then 1 else 0, Opened(old(nextFile) + if reading then 1 else 0),
                  old(EarlierFilenos()), child)
      ensures GoodMode(mode) && fp !in old(StillOpen(log)) && Willing(old(calls)) ==> ok
    {
      hide Chained, Owned, ChildView, StillOpen, Filenos, Reapable;
      child := map[];
      var mo := ParseMode(mode);
      if mo == None {
        return false, child;
      }
      if fp in fileno {
        return false, child;
      }
      NotOnChain(head, next, StillOpen(log), fileno, fds, fp);
      ok, child := OpenParsed(fp, mo.value);
    }

    /** The rest of it, once the mode is understood and the stream is not open. */
    method OpenParsed(fp: int, m: Mode) returns (ok: bool, child: Table)
      requires Valid() && fp != NULL && fp !in StillOpen(log)
      modifies this
      ensures Valid()
      ensures !ok ==> fds == old(fds) && log == old(log) && fileno == old(fileno) && unreaped == old(unreaped)
      ensures ok ==> fp in pids && pids[fp] !in old(unreaped) && unreaped == old(unreaped) + {pids[fp]}
      ensures ok ==> log == old(log) + [OpenedStream(fp)]
      ensures ok ==> fp in fileno && fileno == old(fileno)[fp := fileno[fp]] && fileno[fp] !in old(fds)
      ensures ok ==> fds == old(fds)[fileno[fp] := Descriptor(Mine(m, old(nextFile)), m.cloexec)]
      ensures ok ==> ChildView(old(fds), Std(m), Theirs(m, old(nextFile)), old(EarlierFilenos()), child)
      ensures Willing(old(calls)) ==> ok
    {
      hide Chained, Owned, PipeOn, ChildStage, ChildView, StillOpen, Filenos, AllOpen, Run, Reapable, Mine, Theirs;
      ghost var base, chain, file := fds, StillOpen(log), nextFile;
      child := map[];
      var p, c;
      ok, p, c := OpenPipe(m, Std(m));
      if !ok {
        return;
      }
      PipeApart(base, fds, p, c, Mine(m, file), Theirs(m, file), chain, fileno);
      var acts;
      ok, acts := AddActions(Std(m), c, chain, Theirs(m, file));
      if ok {
        ok := Succeeds();
      }
      if !ok {
        fds := fds - {c};
        fds := fds - {p};
        return;
      }
      child := RunActions(fds, acts);
      StageView(base, fds, p, c, Mine(m, file), Theirs(m, file), Std(m), Filenos(chain, |chain|, fileno), child);
      fds := fds - {c};
      if !m.cloexec {
        fds := fds[p := fds[p].(cloexec := false)];
      }
      Register(fp, p, base, Descriptor(Mine(m, file), m.cloexec));
    }

    /** The stream gets its child and its descriptor and goes to the front of the chain. */
    method Register(fp: int, p: nat, ghost base: Table, ghost d: Descriptor)
      requires Chained(head, next, StillOpen(log)) && Owned(StillOpen(log), fileno, base)
      requires (forall g :: g in fileno ==> g in StillOpen(log)) && Reapable(fileno, pids, unreaped, nextPid)
      requires fp != NULL && fp !in StillOpen(log) && p !in base && fds == base[p := d]
      modifies this`fileno, this`next, this`head, this`log, this`pids, this`unreaped, this`nextPid
      ensures Valid() && log == old(log) + [OpenedStream(fp)] && fileno == old(fileno)[fp := p]
      ensures fp in pids && pids[fp] !in old(unreaped) && unreaped == old(unreaped) + {pids[fp]}
    {
      hide Chained, Owned, StillOpen, Reapable;
      NewChild(fileno, pids, unreaped, nextPid, fp, p);
      pids, unreaped, nextPid := pids[fp := nextPid], unreaped + {nextPid}, nextPid + 1;
      LinkFront(head, next, StillOpen(log), fp);
      OwnedMore(base, StillOpen(log), fileno, fp, p, d);
      LogMore(log, OpenedStream(fp));
      fileno := fileno[fp := p];
      next := next[fp := head];
      head := fp;
      log := log + [OpenedStream(fp)];
    }

    ghost function EarlierFilenos(): set<nat>
      reads this
    {
      Filenos(StillOpen(log), |StillOpen(log)|, fileno)
    }

    /** _IO_new_proc_close: unlinked, closed and waited for.  The stream's number
        is forgotten with it.  The wait's answer is that of the first one that is
        not interrupted. */
    method ProcClose(fp: int) returns (status: int)
      requires Valid()
      modifies this
      ensures Valid()
      ensures fp !in old(StillOpen(log)) ==>
        status == -1 && log == old(log) && fds == old(fds) && fileno == old(fileno) && unreaped == old(unreaped)
      ensures fp in old(StillOpen(log)) ==>
        && fp in old(fileno) && fp in old(pids)
        && log == old(log) + [ClosedStream(fp)] && fds == old(fds) - {old(fileno)[fp]} && fileno == old(fileno) - {fp}
        && var waited := os(old(calls)) == 0 && os(old(calls) + 1) == 0;
           && status == (if waited then os(old(calls) + 2) else -1)
           && unreaped == (if waited then old(unreaped) - {old(pids)[fp]} else old(unreaped))
    {
      hide Chained, Owned, StillOpen, Reapable;
      ghost var chain := StillOpen(log);
      var found := Unlink(fp);
      if !found {
        return -1;
      }
      CloseOwned(old(head), old(next), chain, fileno, fds, fp);
      ChildOf(fileno, pids, unreaped, nextPid, fp);
      LogMore(old(log), ClosedStream(fp));
      fds := fds - {fileno[fp]};
      fileno := fileno - {fp};
      var ok := Succeeds();
      if !ok {
        return -1;
      }
      status := WaitFor(pids[fp]);
    }

    /** waitpid until it is not interrupted. */
    method WaitFor(pid: int) returns (status: int)
      modifies this`calls, this`unreaped
      ensures var waited := os(old(calls)) == 0;
        && status == (if waited then os(old(calls) + 1) else -1)
        && unreaped == (if waited then old(unreaped) - {pid} else old(unreaped))
    {
      status := -1;
      var ok := Succeeds();
      if ok {
        unreaped := unreaped - {pid};
        status := Ask();
      }
    }
  }

  function ModeOf(mode: string): Mode { Mode('r' in mode, 'e' in mode) }

  /** The descriptor the child uses: its output if the stream is read from. */
  function Std(m: Mode): nat { if m.reading then 1 else 0 }

  lemma CloseOwned(head: int, next: map<int, int>, chain: seq<int>, fileno: map<int, nat>, fds: Table, fp: int)
    requires Chained(head, next, chain) && Owned(chain, fileno, fds) && fp in chain
    ensures fp in fileno && Owned(Except(chain, fp), fileno - {fp}, fds - {fileno[fp]})
  {
    var i :| 0 <= i < |chain| && chain[i] == fp;
    OwnedLess(chain, i, fileno, fds);
  }

  /** Adding a pipe leaves the streams their descriptors. */
  lemma PipeApart(base: Table, fds: Table, p: nat, c: nat, mine: File, theirs: File, chain: seq<int>,
        fileno: map<int, nat>)
    requires PipeOn(base, fds, p, c, mine, theirs) && Owned(chain, fileno, base)
    ensures Owned(chain, fileno, fds) && c in fds && fds[c].file == theirs && c !in Filenos(chain, |chain|, fileno)
    ensures p in fds && p != c && p !in base && fds - {c} == base[p := Descriptor(mine, true)] && fds - {c} - {p} == base
  {
    assert fds - {c} == base[p := Descriptor(mine, true)];
    assert fds - {c} - {p} == base;
  }

  lemma LinkFront(head: int, next: map<int, int>, chain: seq<int>, fp: int)
    requires Chained(head, next, chain) && fp != NULL && fp !in chain
    ensures Chained(fp, next[fp := head], [fp] + chain)
  {
    forall i: nat ensures Nth([fp] + chain, i + 1) == Nth(chain, i) {
    }
  }

  lemma OwnedMore(base: Table, chain: seq<int>, fileno: map<int, nat>, fp: int, p: nat, d: Descriptor)
    requires Owned(chain, fileno, base) && fp !in chain && p !in base
    ensures Owned([fp] + chain, fileno[fp := p], base[p := d])
  {
  }

  lemma FirstAction(fds: Table, c: nat, std: nat, theirs: File)
    requires c in fds && fds[c].file == theirs && c != std
    ensures AllOpen(fds, [DupTo(c, std)]) && ChildStage(fds, std, theirs, {}, Run(fds, [DupTo(c, std)]))
  {
    NoAction(fds);
    hide Run, AllOpen;
    OneMore(fds, [], DupTo(c, std));
    assert [] + [DupTo(c, std)] == [DupTo(c, std)];
  }

  lemma NoAction(fds: Table)
    ensures AllOpen(fds, []) && Run(fds, []) == fds
  {
  }

  lemma StageClose(fds: Table, std: nat, theirs: File, closed: set<nat>, t: Table, fd: nat)
    requires ChildStage(fds, std, theirs, closed, t) && fd in fds && fd !in closed
    ensures fd in t && ChildStage(fds, std, theirs, closed + {fd}, if fd == std then t else t - {fd})
  {
  }

  lemma Named(chain: seq<int>, fileno: map<int, nat>, fds: Table)
    requires Owned(chain, fileno, fds)
    ensures forall i: nat :: i < |chain| ==> chain[i] in fileno
    ensures Filenos(chain, 0, fileno) == {} && forall fd :: fd in Filenos(chain, |chain|, fileno) ==> fd in fds
  {
  }

  lemma NextFileno(chain: seq<int>, i: nat, fileno: map<int, nat>, fds: Table)
    requires Owned(chain, fileno, fds) && i < |chain|
    ensures fileno[chain[i]] in fds && fileno[chain[i]] !in Filenos(chain, i, fileno)
    ensures Filenos(chain, i + 1, fileno) == Filenos(chain, i, fileno) + {fileno[chain[i]]}
  {
  }
}
