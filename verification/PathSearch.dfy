/** Running a program by name along a search path. Candidate names are built in
    place in one buffer that ends with the file name. */
module PathSearch {

  import opened Optional

  datatype Errno = EACCES | ENOENT | ESTALE | ENOTDIR | ENODEV | ETIMEDOUT | ENOEXEC | Other(code: nat)

  /** A name handed to execve, directly or through /bin/sh. */
  datatype Attempt = Direct(name: string) | Shell(name: string)

  /** The system's answer to the last of a series of attempts: an error, or
      None when the new program runs. */
  type System = seq<Attempt> -> Option<Errno>

  datatype Outcome = Runs | Failed(errno: Errno)

  // ----- what the search means -----

  function Index(s: string, c: char): (n: nat)
    ensures n <= |s| && c !in s[..n] && (n < |s| ==> s[n] == c)
  {
    if s == [] || s[0] == c then 0 else 1 + Index(s[1..], c)
  }

  /** The pieces of a string between separators, empty ones included. */
  function Pieces(s: string, sep: char): (r: seq<string>)
    ensures r != []
    decreases |s|
  {
    var n := Index(s, sep);
    if n == |s| then [s] else [s[..n]] + Pieces(s[n + 1..], sep)
  }

  function Join(ps: seq<string>, sep: char): string
    requires ps != []
  {
    if |ps| == 1 then ps[0] else ps[0] + [sep] + Join(ps[1..], sep)
  }

  lemma {:induction false} JoinPieces(s: string, sep: char)
    ensures Join(Pieces(s, sep), sep) == s && forall p :: p in Pieces(s, sep) ==> sep !in p
    decreases |s|
  {
    var n := Index(s, sep);
    if n < |s| {
      JoinPieces(s[n + 1..], sep);
      assert Pieces(s, sep)[1..] == Pieces(s[n + 1..], sep);
      assert s == s[..n] + [sep] + s[n + 1..];
    } else {
      assert s[..n] == s;
    }
  }

  lemma {:induction false} IndexIs(s: string, c: char, n: nat)
    requires n <= |s| && c !in s[..n] && (n < |s| ==> s[n] == c)
    ensures Index(s, c) == n
  {
    if n > 0 {
      assert s[0] == s[..n][0];
      assert s[1..][..n - 1] == s[..n][1..];
      IndexIs(s[1..], c, n - 1);
    }
  }

  lemma CutAtFirst(first: string, rest: string, sep: char)
    requires sep !in first
    ensures Pieces(first + [sep] + rest, sep) == [first] + Pieces(rest, sep)
  {
    var s, n := first + [sep] + rest, |first|;
    assert s[..n] == first && s[n] == sep && s[n + 1..] == rest;
    IndexIs(s, sep, n);
  }

  lemma OnePiece(s: string, sep: char)
    requires sep !in s
    ensures Pieces(s, sep) == [s]
  {
    assert s[..|s|] == s;
    IndexIs(s, sep, |s|);
  }

  lemma {:induction false} PiecesOfJoin(ps: seq<string>, sep: char)
    requires ps != [] && forall p :: p in ps ==> sep !in p
    ensures Pieces(Join(ps, sep), sep) == ps
  {
    hide Index, Pieces;
    var first, rest := ps[0], ps[1..];
    assert first in ps && [first] + rest == ps;
    if rest == [] {
      OnePiece(first, sep);
    } else {
      assert forall p :: p in rest ==> p in ps;
      PiecesOfJoin(rest, sep);
      assert Join(ps, sep) == first + [sep] + Join(rest, sep);
      CutAtFirst(first, Join(rest, sep), sep);
    }
  }

  /** The pieces are the one way to cut a string at its separators. */
  lemma PiecesExact(s: string, sep: char, ps: seq<string>)
    requires ps != []
    ensures ps == Pieces(s, sep) <==> (Join(ps, sep) == s && forall p :: p in ps ==> sep !in p)
  {
    JoinPieces(s, sep);
    if Join(ps, sep) == s && forall p :: p in ps ==> sep !in p {
      PiecesOfJoin(ps, sep);
    }
  }

  function Candidate(piece: string, file: string): string {
    if piece == "" then file else piece + "/" + file
  }

  function Candidates(path: string, file: string): (r: seq<string>)
    ensures |r| == |Pieces(path, ':')|
  {
    var ps := Pieces(path, ':');
    seq(|ps|, i requires 0 <= i < |ps| => Candidate(ps[i], file))
  }

  /** The errors that mean the file is not there, or not to be had that way. */
  const SKIPPED: set<Errno> := {EACCES, ENOENT, ESTALE, ENOTDIR, ENODEV, ETIMEDOUT}

  predicate Skippable(e: Errno)
    ensures Skippable(e) <==> e in SKIPPED
  {
    match e
    case EACCES => true
    case ENOENT => true
    case ESTALE => true
    case ENOTDIR => true
    case ENODEV => true
    case ETIMEDOUT => true
    case ENOEXEC => false
    case Other(_) => false
  }

  /** Trying one name after the attempts so far: a file that is not an
      executable format is handed to the shell. */
  function Tried(os: System, log: seq<Attempt>, name: string): seq<Attempt> {
    var direct := log + [Direct(name)];
    if os(direct) == Some(ENOEXEC) then direct + [Shell(name)] else direct
  }

  /** The attempts once the first k candidates have been tried. */
  function History(os: System, names: seq<string>, k: nat): seq<Attempt>
    requires k <= |names|
  {
    if k == 0 then [] else Tried(os, History(os, names, k - 1), names[k - 1])
  }

  /** What became of candidate j. */
  function Answer(os: System, names: seq<string>, j: nat): Option<Errno>
    requires j < |names|
  {
    os(History(os, names, j + 1))
  }

  /** The search's promise: the candidates are tried in order up to the first
      that runs or fails for a reason that is not skipped; if none does, denied
      permission is reported in preference to the last error. */
  ghost predicate Searched(os: System, names: seq<string>, log: seq<Attempt>, r: Outcome) {
    exists k: nat :: 0 < k <= |names| && SearchedTo(os, names, k, log, r)
  }

  ghost predicate SearchedTo(os: System, names: seq<string>, k: nat, log: seq<Attempt>, r: Outcome)
    requires 0 < k <= |names|
  {
    && log == History(os, names, k)
    && AllSkipped(os, names, k - 1)
    && match Answer(os, names, k - 1)
       case None => r == Runs
       case Some(e) =>
         if e !in SKIPPED then r == Failed(e)
         else k == |names| && r == Failed(if Denied(os, names, k) then EACCES else e)
  }

  ghost predicate AllSkipped(os: System, names: seq<string>, k: nat)
    requires k <= |names|
  {
    forall j: nat :: j < k ==> Answer(os, names, j).Some? && Answer(os, names, j).value in SKIPPED
  }

  ghost predicate Denied(os: System, names: seq<string>, k: nat)
    requires k <= |names|
  {
    exists j: nat :: j < k && Answer(os, names, j) == Some(EACCES)
  }

  /** The promise leaves no choice. */
  lemma SearchedOnce(os: System, names: seq<string>, log1: seq<Attempt>, r1: Outcome, log2: seq<Attempt>, r2: Outcome)
    requires Searched(os, names, log1, r1) && Searched(os, names, log2, r2)
    ensures log1 == log2 && r1 == r2
  {
    var k1: nat :| 0 < k1 <= |names| && SearchedTo(os, names, k1, log1, r1);
    var k2: nat :| 0 < k2 <= |names| && SearchedTo(os, names, k2, log2, r2);
  }

  // ----- C strings and argument vectors -----

  /** The buffer holds a terminated string from start on. */
  ghost predicate Holds(buf: seq<char>, start: nat, name: string) {
    && start + |name| < |buf|
    && buf[start..start + |name|] == name && buf[start + |name|] == '\0' && '\0' !in name
  }

  /** Reading a string out of the buffer. */
  method ReadString(buf: array<char>, start: nat, ghost name: string) returns (s: string)
    requires Holds(buf[..], start, name)
    ensures s == name
  {
    forall j | 0 <= j < |name| ensures buf[start + j] == name[j] {
      assert buf[..][start..start + |name|][j] == name[j];
    }
    s := "";
    var i := start;
    while buf[i] != '\0'
      invariant start <= i <= start + |name|
      invariant s == name[..i - start]
      decreases start + |name| - i
    {
      assert i < start + |name|;
      assert buf[start + (i - start)] == name[i - start];
      s := s + [buf[i]];
      i := i + 1;
    }
  }

  /** my_strchrnul: the first place at or after p with c, or the end. */
  method StrChrNul(str: string, p: nat, c: char) returns (r: nat)
    requires p <= |str|
    ensures r == p + Index(str[p..], c)
  {
    r := p;
    while r < |str| && str[r] != c
      invariant p <= r <= |str| && c !in str[p..r]
    {
      r := r + 1;
    }
    assert str[p..][..r - p] == str[p..r];
  }

  /** How many arguments stand before the terminator. */
  function Count(args: seq<Option<string>>): (n: nat)
    requires None in args
    ensures n < |args| && args[n] == None && None !in args[..n]
  {
    if args[0] == None then 0 else 1 + Count(args[1..])
  }

  method CountArguments(argv: array<Option<string>>) returns (argc: nat)
    requires None in argv[..]
    ensures argc == Count(argv[..]) < argv.Length
  {
    argc := 0;
    while argv[argc] != None
      invariant argc <= Count(argv[..])
      decreases Count(argv[..]) - argc
    {
      argc := argc + 1;
    }
  }

  /** script_execute's argument vector: the shell, the file, and the arguments
      after the program name. An empty vector yields one with no terminator. */
  method ScriptArguments(file: string, argv: array<Option<string>>) returns (newArgv: array<Option<string>>)
    requires None in argv[..]
    ensures var argc := Count(argv[..]);
      && newArgv[..] == [Some("/bin/sh"), Some(file)] + (if argc > 0 then argv[1..argc + 1] else [])
      && (None in newArgv[..] <==> argc > 0)
  {
    var argc := CountArguments(argv);
    hide Count;
    ghost var n := argc;
    newArgv := new Option<string>[argc + 2](_ => None);
    newArgv[0] := Some("/bin/sh");
    newArgv[1] := Some(file);
    while argc > 0
      invariant 0 <= argc <= n < argv.Length && newArgv.Length == n + 2
      invariant newArgv[0] == Some("/bin/sh") && newArgv[1] == Some(file)
      invariant forall j :: argc < j <= n ==> newArgv[j + 1] == argv[j]
    {
      newArgv[argc + 1] := argv[argc];
      argc := argc - 1;
    }
    ghost var all := newArgv[..];
    assert n > 0 ==> all[n + 1] == None;
  }

  /** memcpy into the buffer. */
  method Copy(buf: array<char>, at: nat, src: string)
    requires at + |src| <= buf.Length
    modifies buf
    ensures buf[at..at + |src|] == src
    ensures buf[..at] == old(buf[..at]) && buf[at + |src|..] == old(buf[at + |src|..])
  {
    for i := 0 to |src|
      invariant buf[at..at + i] == src[..i]
      invariant buf[..at] == old(buf[..at]) && buf[at + i..] == old(buf[at + i..])
    {
      buf[at + i] := src[i];
    }
  }

  // ----- g_execute -----

  method Try(os: System, before: seq<Attempt>, name: string) returns (log: seq<Attempt>, answer: Option<Errno>)
    ensures log == Tried(os, before, name) && answer == os(log)
  {
    log := before + [Direct(name)];
    answer := os(log);
    if answer == Some(ENOEXEC) {
      log := log + [Shell(name)];
      answer := os(log);
    }
  }

  lemma FirstPiece(s: string, sep: char)
    ensures var n := Index(s, sep);
      && Pieces(s, sep)[0] == s[..n] && (n == |s| <==> |Pieces(s, sep)| == 1)
      && (n < |s| ==> Pieces(s, sep)[1..] == Pieces(s[n + 1..], sep))
  {
  }

  /** A piece of the path is where the scan for the next colon finds it. */
  lemma PieceAt(path: string, ps: seq<string>, p: nat, k: nat)
    requires p <= |path| && k < |ps| && ps[k..] == Pieces(path[p..], ':')
    ensures var q := p + Index(path[p..], ':');
      && ps[k] == path[p..q]
      && (q == |path| <==> k + 1 == |ps|)
      && (q < |path| ==> ps[k + 1..] == Pieces(path[q + 1..], ':'))
  {
    hide Pieces, Index;
    var n := Index(path[p..], ':');
    FirstPiece(path[p..], ':');
    assert path[p..][..n] == path[p..p + n];
    if n < |path[p..]| {
      assert path[p..][n + 1..] == path[p + n + 1..];
      assert ps[k + 1..] == ps[k..][1..];
    }
  }

  /** The buffer from where a candidate starts: the piece, the slash and the
      file name already in place. */
  lemma CandidateInPlace(buf: seq<char>, top: nat, piece: string, file: string)
    requires |piece| <= top && |buf| == top + |file| + 2
    requires buf[top - |piece|..top] == piece && buf[top..] == "/" + file + "\0"
    requires '\0' !in piece && '\0' !in file
    ensures Holds(buf, if piece == "" then top + 1 else top - |piece|, Candidate(piece, file))
  {
    hide Holds;
    assert buf[top] == buf[top..][0];
    forall i: nat | i < |file| ensures buf[top + 1 + i] == file[i] {
      assert buf[top..][1 + i] == file[i];
    }
    assert buf[top + 1 + |file|] == buf[top..][1 + |file|];
    forall i: nat | i < |piece| ensures buf[top - |piece| + i] == piece[i] {
      assert buf[top - |piece|..top][i] == piece[i];
    }
    if piece == "" {
      HoldsTail(buf, top + 1, top, file, "");
      assert "" + file == file;
    } else {
      HoldsTail(buf, top - |piece|, top, file, piece + "/");
    }
  }

  /** What is in the buffer before the file name, and the name, read as one string. */
  lemma HoldsTail(buf: seq<char>, start: nat, top: nat, file: string, front: string)
    requires |buf| == top + |file| + 2 && start + |front| == top + 1 && '\0' !in front && '\0' !in file
    requires forall i: nat :: i < |front| ==> buf[start + i] == front[i]
    requires forall i: nat :: i < |file| ==> buf[top + 1 + i] == file[i]
    requires buf[top + 1 + |file|] == '\0'
    ensures Holds(buf, start, front + file)
  {
    var name := front + file;
    forall i: nat | i < |name| ensures buf[start..start + |name|][i] == name[i] {
      if i >= |front| {
        assert buf[top + 1 + (i - |front|)] == file[i - |front|];
      }
    }
    assert buf[start..start + |name|] == name;
  }

  /** The buffer with room for the longest piece, a slash and the file name. */
  method PrepareBuffer(file: string, pathlen: nat) returns (name: array<char>)
    ensures fresh(name) && name.Length == pathlen + |file| + 2 && name[pathlen..] == "/" + file + "\0"
  {
    var len := |file| + 1;
    name := new char[pathlen + len + 1](_ => '\0');
    Copy(name, pathlen + 1, file + "\0");
    name[pathlen] := '/';
    assert name[pathlen + 1..] == name[pathlen + 1..pathlen + 1 + len];
    assert name[pathlen..] == [name[pathlen]] + name[pathlen + 1..];
  }

  /** The piece from p to q goes right before the slash, an empty one nowhere. */
  method PlaceCandidate(name: array<char>, file: string, path: string, p: nat, q: nat) returns (candidate: string)
    requires p <= q <= |path| && '\0' !in file && '\0' !in path
    requires name.Length == |path| + |file| + 2 && name[|path|..] == "/" + file + "\0"
    modifies name
    ensures name[|path|..] == "/" + file + "\0"
    ensures candidate == Candidate(path[p..q], file)
  {
    var at := |path| + 1;
    if q > p {
      at := |path| - (q - p);
      Copy(name, at, path[p..q]);
    }
    CandidateInPlace(name[..], |path|, path[p..q], file);
    candidate := ReadString(name, at, Candidate(path[p..q], file));
  }

  lemma NothingTried(os: System, names: seq<string>)
    ensures History(os, names, 0) == [] && AllSkipped(os, names, 0) && !Denied(os, names, 0)
  {
  }

  lemma CandidateTried(os: System, names: seq<string>, k: nat)
    requires k < |names|
    ensures History(os, names, k + 1) == Tried(os, History(os, names, k), names[k])
    ensures Answer(os, names, k) == os(History(os, names, k + 1))
  {
  }

  /** A candidate passed over. */
  lemma PassedOver(os: System, names: seq<string>, k: nat)
    requires k < |names| && AllSkipped(os, names, k)
    ensures Answer(os, names, k).Some? && Skippable(Answer(os, names, k).value) ==> AllSkipped(os, names, k + 1)
    ensures Denied(os, names, k + 1) <==> Denied(os, names, k) || Answer(os, names, k) == Some(EACCES)
  {
    hide Answer;
  }

  lemma Finished(os: System, names: seq<string>, k: nat, log: seq<Attempt>, r: Outcome)
    requires 0 < k <= |names| && SearchedTo(os, names, k, log, r)
    ensures Searched(os, names, log, r)
  {
  }

  method SearchPath(os: System, file: string, path: string) returns (log: seq<Attempt>, r: Outcome)
    requires '\0' !in file && '\0' !in path
    ensures Searched(os, Candidates(path, file), log, r)
  {
    hide Pieces, Index, Holds, Tried, History, Answer, Searched, AllSkipped, Denied, Skippable;
    ghost var ps, names := Pieces(path, ':'), Candidates(path, file);
    var name := PrepareBuffer(file, |path|);
    var gotEacces, p := false, 0;
    ghost var k := 0;
    log := [];
    NothingTried(os, names);
    while true
      invariant p <= |path| && k < |ps| && ps[k..] == Pieces(path[p..], ':')
      invariant name[|path|..] == "/" + file + "\0"
      invariant log == History(os, names, k) && AllSkipped(os, names, k)
      invariant gotEacces <==> Denied(os, names, k)
      decreases |path| - p
    {
      PieceAt(path, ps, p, k);
      var q := StrChrNul(path, p, ':');
      var candidate := PlaceCandidate(name, file, path, p, q);
      var answer: Option<Errno>;
      log, answer := Try(os, log, candidate);
      CandidateTried(os, names, k);
      PassedOver(os, names, k);
      k := k + 1;
      if answer == None {
        Finished(os, names, k, log, Runs);
        return log, Runs;
      }
      if answer.value == EACCES {
        gotEacces := true;
      }
      if !Skippable(answer.value) {
        Finished(os, names, k, log, Failed(answer.value));
        return log, Failed(answer.value);
      }
      if q == |path| {
        r := Failed(if gotEacces then EACCES else answer.value);
        Finished(os, names, k, log, r);
        return;
      }
      p := q + 1;
    }
  }

  /** g_execute.  The search path is the child environment's, then this process's,
      then a default. */
  method Execute(os: System, file: string, searchPath: bool, fromEnvp: bool, envpPath: Option<string>,
        ownPath: Option<string>)
    returns (log: seq<Attempt>, r: Outcome)
    requires '\0' !in file
    requires (envpPath.Some? ==> '\0' !in envpPath.value) && (ownPath.Some? ==> '\0' !in ownPath.value)
    ensures file == "" ==> log == [] && r == Failed(ENOENT)
    ensures file != "" && ('/' in file || !(searchPath || fromEnvp)) ==>
      log == Tried(os, [], file) && r == match os(log) case None => Runs case Some(e) => Failed(e)
    ensures file != "" && '/' !in file && fromEnvp && envpPath.Some? ==>
      Searched(os, Candidates(envpPath.value, file), log, r)
    ensures file != "" && '/' !in file && (fromEnvp ==> envpPath.None?) && searchPath && ownPath.Some? ==>
      Searched(os, Candidates(ownPath.value, file), log, r)
    ensures file != "" && '/' !in file && (searchPath || fromEnvp) ==>
      (fromEnvp ==> envpPath.None?) && (searchPath ==> ownPath.None?) ==>
      Searched(os, Candidates("/bin:/usr/bin:.", file), log, r)
  {
    if file == "" {
      return [], Failed(ENOENT);
    }
    if !(searchPath || fromEnvp) || '/' in file {
      var answer: Option<Errno>;
      log, answer := Try(os, [], file);
      r := match answer case None => Runs case Some(e) => Failed(e);
    } else {
      var path: Option<string> := None;
      if fromEnvp {
        path := envpPath;
      }
      if searchPath && path == None {
        path := ownPath;
      }
      if path == None {
        path := Some("/bin:/usr/bin:.");
      }
      log, r := SearchPath(os, file, path.value);
    }
  }
}
