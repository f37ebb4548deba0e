/** system() as any number of threads call it: the reference-counted signal
    dispositions, the signal mask and what the command starts with. Both
    versions of the library share the protocol; modern selects 2.32. */
module SystemCall {

  datatype Disposition = Ignore | Default | Handler(id: nat)

  datatype Signal = SIGCHLD | OtherSignal(number: nat)

  /** The process's dispositions, the static variables and the lock's holder. */
  datatype Process = Process(sigint: Disposition, sigquit: Disposition,
                             savedInt: Disposition, savedQuit: Disposition,
                             refcnt: int, lock: int)

  /** What the program itself last asked for. */
  datatype User = User(sigint: Disposition, sigquit: Disposition)

  datatype Why = Done | Cancelled | BlockFailed | IntFailed | QuitFailed

  datatype Op = PutInt | PutQuit | PutMask | Release

  /** Where a caller is: waiting for the lock to enter or leave, in one of the
      steps under the lock, or running its command. */
  datatype Pc =
    | Idle | WantIn | Counting | SetInt | SetQuit | Unlocking
    | Block | Spawn | Wait
    | WantOut(why: Why) | Dropping(why: Why)
    | Undoing(why: Why, last: bool, putInt: bool, putQuit: bool, putMask: bool)
    | Returned(why: Why, last: bool)

  datatype Caller = Caller(pc: Pc, entry: set<Signal>, mask: set<Signal>, omask: set<Signal>, child: User)

  datatype State = State(g: Process, callers: seq<Caller>, u: User)

  /** What the environment decides for a step. */
  datatype Event = Proceed | Fail | Cancel

  predicate Inside(pc: Pc) {
    pc.SetInt? || pc.SetQuit? || pc.Unlocking? || pc.Block? || pc.Spawn? || pc.Wait? || pc.WantOut? || pc.Dropping?
  }

  predicate Holds(pc: Pc) {
    pc.Counting? || pc.SetInt? || pc.SetQuit? || pc.Unlocking? || pc.Dropping? || pc.Undoing?
  }

  function Callers(cs: seq<Caller>): nat {
    if cs == [] then 0 else Callers(cs[..|cs| - 1]) + if Inside(cs[|cs| - 1].pc) then 1 else 0
  }

  /** The dispositions a command starts with after exec. */
  function AtExec(d: Disposition): Disposition {
    if d == Ignore then Ignore else Default
  }

  // ----- one caller's steps -----

  predicate Enabled(modern: bool, g: Process, c: Caller, e: Event) {
    && (c.pc.WantIn? || c.pc.WantOut? ==> g.lock == -1)
    && (e == Fail ==> c.pc.Spawn? || (!modern && (c.pc.SetInt? || c.pc.SetQuit? || c.pc.Block?)))
    && (e == Cancel ==> modern && c.pc.Wait?)
  }

  /** What is to be undone once the reference is dropped. */
  function Undo(modern: bool, why: Why, last: bool): Pc {
    match why
    case Done => Undoing(why, last, last, last, last || !modern)
    case Cancelled => Undoing(why, last, last, last, false)
    case BlockFailed => Undoing(why, last, last, last, false)
    case IntFailed => Undoing(why, last, false, false, false)
    case QuitFailed => Undoing(why, last, true, false, false)
  }

  /** The order: SIGINT first on the normal way out, SIGQUIT first elsewhere. */
  function NextOp(pc: Pc): Op
    requires pc.Undoing?
  {
    if pc.why == Done && pc.putInt then PutInt
    else if pc.putQuit then PutQuit
    else if pc.putInt then PutInt
    else if pc.putMask then PutMask
    else Release
  }

  function NextPc(modern: bool, g: Process, c: Caller, e: Event): Pc {
    match c.pc
    case Idle => WantIn
    case WantIn => Counting
    case Counting => if g.refcnt == 0 then SetInt else Unlocking
    case SetInt => if e == Fail then Dropping(IntFailed) else SetQuit
    case SetQuit => if e == Fail then Dropping(QuitFailed) else Unlocking
    case Unlocking => Block
    case Block => if e == Fail then WantOut(BlockFailed) else Spawn
    case Spawn => if e == Fail then WantOut(Done) else Wait
    case Wait => WantOut(if e == Cancel then Cancelled else Done)
    case WantOut(why) => Dropping(why)
    case Dropping(why) => Undo(modern, why, g.refcnt == 1)
    case Undoing(why, last, i, q, m) =>
      (match NextOp(c.pc)
       case PutInt => c.pc.(putInt := false)
       case PutQuit => c.pc.(putQuit := false)
       case PutMask => c.pc.(putMask := false)
       case Release => Returned(why, last))
    case Returned(why, last) => Idle
  }

  predicate Doing(pc: Pc, op: Op) {
    pc.Undoing? && NextOp(pc) == op
  }

  function NextProcess(g: Process, t: nat, c: Caller, e: Event): Process {
    g.(
    sigint := if c.pc.SetInt? && e != Fail then Ignore else if Doing(c.pc, PutInt) then g.savedInt else g.sigint,
    savedInt := if c.pc.SetInt? && e != Fail then g.sigint else g.savedInt,
    sigquit := if c.pc.SetQuit? && e != Fail then Ignore else if Doing(c.pc, PutQuit) then g.savedQuit else g.sigquit,
    savedQuit := if c.pc.SetQuit? && e != Fail then g.sigquit else g.savedQuit,
    refcnt := if c.pc.Counting? then g.refcnt + 1 else if c.pc.Dropping? then g.refcnt - 1 else g.refcnt,
    lock := if c.pc.WantIn? || c.pc.WantOut? then t
            else if c.pc.Unlocking? || Doing(c.pc, Release) then -1 else g.lock
    )
  }

  function NextCaller(modern: bool, g: Process, c: Caller, e: Event): Caller {
    c.(
    pc := NextPc(modern, g, c, e),
    entry := if c.pc.Idle? then c.mask else c.entry,
    omask := if c.pc.Block? && e != Fail then c.mask else c.omask,
    mask := if c.pc.Block? && e != Fail then c.mask + {SIGCHLD} else if Doing(c.pc, PutMask) then c.omask else c.mask,
    child := if c.pc.Spawn? && e != Fail then User(AtExec(g.savedInt), AtExec(g.savedQuit)) else c.child
    )
  }

  /** A caller takes a step, or the program changes dispositions or a thread's
      mask while that thread is not in a call. */
  ghost predicate Next(modern: bool, s: State, s': State) {
    || (exists t: nat, e: Event :: CallerStep(modern, s, t, e, s'))
    || (exists u: User :: UserStep(s, u, s'))
    || (exists t: nat, m: set<Signal> :: MaskStep(s, t, m, s'))
  }

  ghost predicate CallerStep(modern: bool, s: State, t: nat, e: Event, s': State) {
    && t < |s.callers| && Enabled(modern, s.g, s.callers[t], e) && s'.u == s.u
    && s'.g == NextProcess(s.g, t, s.callers[t], e)
    && s'.callers == s.callers[t := NextCaller(modern, s.g, s.callers[t], e)]
  }

  ghost predicate UserStep(s: State, u: User, s': State) {
    s.g.refcnt == 0 && s.g.lock == -1 && s' == s.(u := u, g := s.g.(sigint := u.sigint, sigquit := u.sigquit))
  }

  ghost predicate MaskStep(s: State, t: nat, m: set<Signal>, s': State) {
    t < |s.callers| && s.callers[t].pc.Idle? && s' == s.(callers := s.callers[t := s.callers[t].(mask := m)])
  }

  ghost predicate Init(s: State) {
    && s.g.refcnt == 0 && s.g.lock == -1 && s.u == User(s.g.sigint, s.g.sigquit)
    && forall c :: c in s.callers ==> c.pc.Idle?
  }

  // ----- the invariant -----

  /** Between critical sections: ignored and saved while anyone is inside, as
      the program asked when nobody is. */
  predicate Steady(g: Process, u: User) {
    if g.refcnt > 0
    then g.sigint == Ignore && g.sigquit == Ignore && g.savedInt == u.sigint && g.savedQuit == u.sigquit
    else g.refcnt == 0 && g.sigint == u.sigint && g.sigquit == u.sigquit
  }

  predicate Holding(g: Process, u: User, pc: Pc) {
    if pc.SetInt? || pc == Dropping(IntFailed) then
      g.refcnt == 1 && g.sigint == u.sigint && g.sigquit == u.sigquit
    else if pc.SetQuit? || pc == Dropping(QuitFailed) then
      g.refcnt == 1 && g.sigint == Ignore && g.savedInt == u.sigint && g.sigquit == u.sigquit
    else if pc.Undoing? && g.refcnt == 0 then
      && (if pc.putInt then g.sigint == Ignore && g.savedInt == u.sigint else g.sigint == u.sigint)
      && (if pc.putQuit then g.sigquit == Ignore && g.savedQuit == u.sigquit else g.sigquit == u.sigquit)
    else
      Steady(g, u) && (pc.Undoing? ==> !pc.putInt && !pc.putQuit)
  }

  /** A caller's mask along its call, and what its command started with. */
  predicate Sound(modern: bool, c: Caller, u: User) {
    match c.pc
    case Idle => true
    case WantIn => c.mask == c.entry
    case Counting => c.mask == c.entry
    case SetInt => c.mask == c.entry
    case SetQuit => c.mask == c.entry
    case Unlocking => c.mask == c.entry
    case Block => c.mask == c.entry
    case Spawn => Blocked(c)
    case Wait => Blocked(c) && c.child == User(AtExec(u.sigint), AtExec(u.sigquit))
    case WantOut(why) => Masked(c, why) && why != IntFailed && why != QuitFailed
    case Dropping(why) => Masked(c, why)
    case Undoing(why, last, i, q, m) =>
      && (if why == Done then i ==> q else why != QuitFailed ==> (q ==> i)) &&
      if m then why == Done && Blocked(c) && (last || !modern) else Left(modern, c, why, last)
    case Returned(why, last) => Left(modern, c, why, last)
  }

  predicate Blocked(c: Caller) { c.omask == c.entry && c.mask == c.entry + {SIGCHLD} }

  predicate Masked(c: Caller, why: Why) {
    if why == Done || why == Cancelled then Blocked(c) else c.mask == c.entry
  }

  /** The mask a caller is left with. */
  predicate Left(modern: bool, c: Caller, why: Why, last: bool) {
    if why == Done then c.mask == if modern && !last then c.entry + {SIGCHLD} else c.entry
    else why == Cancelled || c.mask == c.entry
  }

  ghost predicate Inv(modern: bool, s: State) {
    && s.g.refcnt == Callers(s.callers)
    && (forall t: nat :: t < |s.callers| ==> Sound(modern, s.callers[t], s.u))
    && (forall t: nat :: t < |s.callers| ==> (Holds(s.callers[t].pc) <==> s.g.lock == t))
    && (if 0 <= s.g.lock < |s.callers| then Holding(s.g, s.u, s.callers[s.g.lock].pc)
        else s.g.lock == -1 && Steady(s.g, s.u))
  }

  // ----- the invariant is kept -----

  lemma {:induction false} CallersAt(cs: seq<Caller>, t: nat, c: Caller)
    requires t < |cs|
    ensures Callers(cs[t := c]) == Callers(cs) - (if Inside(cs[t].pc) then 1 else 0) + (if Inside(c.pc) then 1 else 0)
  {
    var n := |cs| - 1;
    if t < n {
      CallersAt(cs[..n], t, c);
      assert cs[t := c][..n] == cs[..n][t := c];
    } else {
      assert cs[t := c][..n] == cs[..n];
    }
  }

  lemma {:induction false} InsideCounts(cs: seq<Caller>, t: nat)
    requires t < |cs| && Inside(cs[t].pc)
    ensures Callers(cs) >= 1
    ensures forall j: nat :: j < |cs| && j != t && Inside(cs[j].pc) ==> Callers(cs) >= 2
  {
    var n := |cs| - 1;
    if t < n {
      InsideCounts(cs[..n], t);
      assert forall j: nat :: j < n ==> cs[..n][j] == cs[j];
    } else {
      forall j: nat | j < n && Inside(cs[j].pc) ensures Callers(cs[..n]) >= 1 {
        assert cs[..n][j] == cs[j];
        InsideCounts(cs[..n], j);
      }
    }
  }

  /** While a caller is between dropping in and dropping out, whatever another
      does under the lock, both signals are ignored and the saved ones safe. */
  lemma InsideIgnored(modern: bool, s: State, t: nat)
    requires Inv(modern, s) && t < |s.callers|
    requires var pc := s.callers[t].pc; pc.Block? || pc.Spawn? || pc.Wait? || pc.WantOut?
    ensures s.g.refcnt >= 1 && s.g.sigint == Ignore && s.g.sigquit == Ignore
    ensures s.g.savedInt == s.u.sigint && s.g.savedQuit == s.u.sigquit
  {
    InsideCounts(s.callers, t);
  }

  lemma InitInv(modern: bool, s: State)
    requires Init(s)
    ensures Inv(modern, s)
  {
    NoneInside(s.callers);
  }

  lemma {:induction false} NoneInside(cs: seq<Caller>)
    requires forall c :: c in cs ==> c.pc.Idle?
    ensures Callers(cs) == 0
  {
    if cs != [] {
      NoneInside(cs[..|cs| - 1]);
    }
  }

  lemma CallerKept(modern: bool, g: Process, c: Caller, e: Event, u: User)
    requires Sound(modern, c, u) && Enabled(modern, g, c, e)
    requires c.pc.Spawn? ==> g.savedInt == u.sigint && g.savedQuit == u.sigquit
    ensures Sound(modern, NextCaller(modern, g, c, e), u)
  {
  }

  lemma ProcessKept(modern: bool, g: Process, t: nat, c: Caller, e: Event, u: User)
    requires Sound(modern, c, u) && Enabled(modern, g, c, e)
    requires Holds(c.pc) ==> g.lock == t && Holding(g, u, c.pc)
    requires g.lock == -1 ==> Steady(g, u)
    requires Inside(c.pc) ==> g.refcnt >= 1
    ensures var g' := NextProcess(g, t, c, e);
      var pc := NextPc(modern, g, c, e);
      && (Holds(pc) ==> g'.lock == t && Holding(g', u, pc))
      && (Holds(c.pc) && !Holds(pc) ==> g'.lock == -1 && Steady(g', u))
      && (!Holds(c.pc) && !Holds(pc) ==> g' == g)
      && g'.refcnt == g.refcnt - (if Inside(c.pc) then 1 else 0) + (if Inside(pc) then 1 else 0)
  {
  }

  /** The invariant from its parts after caller t's step. */
  lemma Reassembled(modern: bool, s: State, t: nat, c: Caller, s': State)
    requires Inv(modern, s) && t < |s.callers| && s'.u == s.u && s'.callers == s.callers[t := c]
    requires Sound(modern, c, s.u) && s'.g.refcnt == Callers(s'.callers)
    requires Holds(c.pc) ==> s'.g.lock == t && Holding(s'.g, s.u, c.pc)
    requires Holds(s.callers[t].pc) && !Holds(c.pc) ==> s'.g.lock == -1 && Steady(s'.g, s.u)
    requires !Holds(s.callers[t].pc) && !Holds(c.pc) ==> s'.g == s.g
    requires !Holds(s.callers[t].pc) && Holds(c.pc) ==> s.g.lock == -1
    ensures Inv(modern, s')
  {
    hide Sound, Holding, Steady, Holds, Callers;
  }

  lemma StepFacts(modern: bool, g: Process, c: Caller, e: Event)
    requires Enabled(modern, g, c, e)
    ensures NextCaller(modern, g, c, e).pc == NextPc(modern, g, c, e)
    ensures !Holds(c.pc) && Holds(NextPc(modern, g, c, e)) ==> g.lock == -1
  {
  }

  lemma CallerStepKept(modern: bool, s: State, t: nat, e: Event, s': State)
    requires Inv(modern, s) && CallerStep(modern, s, t, e, s')
    ensures Inv(modern, s')
  {
    var c := s.callers[t];
    if Inside(c.pc) {
      InsideCounts(s.callers, t);
    }
    if c.pc.Spawn? {
      InsideIgnored(modern, s, t);
    }
    hide Sound, Holding, Steady, Enabled, NextPc, NextProcess, NextCaller, Inside, Holds, Callers;
    StepFacts(modern, s.g, c, e);
    CallerKept(modern, s.g, c, e, s.u);
    ProcessKept(modern, s.g, t, c, e, s.u);
    CallersAt(s.callers, t, NextCaller(modern, s.g, c, e));
    Reassembled(modern, s, t, NextCaller(modern, s.g, c, e), s');
  }

  /** Every step keeps the invariant. */
  lemma InvKept(modern: bool, s: State, s': State)
    requires Inv(modern, s) && Next(modern, s, s')
    ensures Inv(modern, s')
  {
    if t: nat, e: Event :| CallerStep(modern, s, t, e, s') {
      CallerStepKept(modern, s, t, e, s');
    } else if u: User :| UserStep(s, u, s') {
      NobodyWaits(modern, s);
    } else {
      var t: nat, m: set<Signal> :| MaskStep(s, t, m, s');
      CallersAt(s.callers, t, s.callers[t].(mask := m));
    }
  }

  lemma NobodyWaits(modern: bool, s: State)
    requires Inv(modern, s) && s.g.refcnt == 0
    ensures forall t: nat :: t < |s.callers| ==> !s.callers[t].pc.Wait?
  {
    forall t: nat | t < |s.callers| ensures !s.callers[t].pc.Wait? {
      if Inside(s.callers[t].pc) {
        InsideCounts(s.callers, t);
      }
    }
  }

  // ----- over whole runs -----

  ghost predicate Run(modern: bool, run: seq<State>) {
    run != [] && Init(run[0]) && forall i: nat :: i + 1 < |run| ==> Next(modern, run[i], run[i + 1])
  }

  lemma {:induction false} RunInv(modern: bool, run: seq<State>, i: nat)
    requires Run(modern, run) && i < |run|
    ensures Inv(modern, run[i])
  {
    if i == 0 {
      InitInv(modern, run[0]);
    } else {
      RunInv(modern, run, i - 1);
      assert i - 1 + 1 < |run|;
      InvKept(modern, run[i - 1], run[i]);
    }
  }

  /** In every run, with callers failing or cancelled anywhere: the counter is
      the number of callers inside; while the lock is free, the signals are
      ignored and the program's dispositions saved if anyone is inside, and in
      force if nobody is. */
  lemma DispositionsThroughout(modern: bool, run: seq<State>, i: nat)
    requires Run(modern, run) && i < |run|
    ensures run[i].g.refcnt == Callers(run[i].callers)
    ensures run[i].g.lock == -1 ==> Steady(run[i].g, run[i].u)
  {
    RunInv(modern, run, i);
  }

  /** In every run, a caller waiting for its command has SIGINT and SIGQUIT
      ignored and SIGCHLD blocked, and the command started with each of the
      two ignored if the program ignores it and with its default action if not. */
  lemma WhileWaiting(modern: bool, run: seq<State>, i: nat, t: nat)
    requires Run(modern, run) && i < |run| && t < |run[i].callers| && run[i].callers[t].pc.Wait?
    ensures run[i].g.sigint == Ignore && run[i].g.sigquit == Ignore
    ensures run[i].callers[t].mask == run[i].callers[t].entry + {SIGCHLD}
    ensures var child, u := run[i].callers[t].child, run[i].u;
      && child.sigint == (if u.sigint == Ignore then Ignore else Default)
      && child.sigquit == (if u.sigquit == Ignore then Ignore else Default)
  {
    RunInv(modern, run, i);
    InsideIgnored(modern, run[i], t);
  }

  /** The last to leave gives SIGINT back first on the normal way out, and SIGQUIT
      first after a cancellation or a failure to block. */
  lemma RestoredInOrder(modern: bool, run: seq<State>, i: nat, t: nat)
    requires Run(modern, run) && i < |run| && t < |run[i].callers|
    requires run[i].callers[t].pc.Undoing? && run[i].g.refcnt == 0
    requires run[i].u.sigint != Ignore && run[i].u.sigquit != Ignore
    ensures var s, why := run[i], run[i].callers[t].pc.why;
      && (why == Done && s.g.sigquit == s.u.sigquit ==> s.g.sigint == s.u.sigint)
      && (why == Cancelled || why == BlockFailed ==> (s.g.sigint == s.u.sigint ==> s.g.sigquit == s.u.sigquit))
  {
    RunInv(modern, run, i);
  }

  /** The mask at return: always the caller's own in 2.27; in 2.32 exactly if
      the caller was the last to leave or had SIGCHLD blocked already. */
  lemma MaskAtReturn(modern: bool, run: seq<State>, i: nat, t: nat)
    requires Run(modern, run) && i < |run| && t < |run[i].callers|
    requires run[i].callers[t].pc.Returned? && run[i].callers[t].pc.why != Cancelled
    ensures var c := run[i].callers[t];
      c.mask == c.entry <==> !(modern && c.pc.why == Done && !c.pc.last) || SIGCHLD in c.entry
  {
    RunInv(modern, run, i);
    var c := run[i].callers[t];
    assert SIGCHLD in c.entry <==> c.entry + {SIGCHLD} == c.entry by {
      assert SIGCHLD in c.entry + {SIGCHLD};
    }
  }

  // ----- a call does get through

  /** The process and one caller, after that caller's own next n steps. */
  datatype Pair = Pair(g: Process, c: Caller)

  function Own(modern: bool, t: nat, p: Pair, n: nat): Pair {
    if n == 0 then p
    else
      var q := Own(modern, t, p, n - 1);
      Pair(NextProcess(q.g, t, q.c, Proceed), NextCaller(modern, q.g, q.c, Proceed))
  }

  predicate CanOwn(modern: bool, t: nat, p: Pair, n: nat) {
    n == 0 || (CanOwn(modern, t, p, n - 1)
               && var q := Own(modern, t, p, n - 1); Enabled(modern, q.g, q.c, Proceed))
  }

  lemma {:induction false} OwnOn(modern: bool, t: nat, p: Pair, n: nat, m: nat)
    ensures Own(modern, t, p, n + m) == Own(modern, t, Own(modern, t, p, n), m)
    ensures CanOwn(modern, t, p, n) && CanOwn(modern, t, Own(modern, t, p, n), m) ==> CanOwn(modern, t, p, n + m)
  {
    hide Enabled, NextProcess, NextCaller;
    if m > 0 {
      OwnOn(modern, t, p, n, m - 1);
      assert n + m - 1 == n + (m - 1);
    }
  }

  lemma OneOn(modern: bool, t: nat, p: Pair, n: nat)
    ensures Own(modern, t, p, n + 1) == Pair(NextProcess(Own(modern, t, p, n).g, t, Own(modern, t, p, n).c, Proceed),
      NextCaller(modern, Own(modern, t, p, n).g, Own(modern, t, p, n).c, Proceed))
    ensures CanOwn(modern, t, p, n) && Enabled(modern, Own(modern, t, p, n).g, Own(modern, t, p, n).c, Proceed) ==>
      CanOwn(modern, t, p, n + 1)
  {
  }

  lemma NoneOn(modern: bool, t: nat, p: Pair)
    ensures Own(modern, t, p, 0) == p && CanOwn(modern, t, p, 0)
  {
  }

  /** n steps lead from p to q. */
  predicate Leads(modern: bool, t: nat, p: Pair, n: nat, q: Pair) {
    CanOwn(modern, t, p, n) && Own(modern, t, p, n) == q
  }

  lemma LeadsOn(modern: bool, t: nat, p: Pair, n: nat, q: Pair, m: nat, r: Pair)
    requires Leads(modern, t, p, n, q) && Leads(modern, t, q, m, r)
    ensures Leads(modern, t, p, n + m, r)
  {
    OwnOn(modern, t, p, n, m);
  }

  lemma Counted(modern: bool, t: nat, p: Pair) returns (q: Pair)
    requires p.c.pc.Idle? && p.g.lock == -1
    ensures Leads(modern, t, p, 3, q) && q.c.pc == (if p.g.refcnt == 0 then SetInt else Unlocking)
    ensures q.g == p.g.(refcnt := p.g.refcnt + 1, lock := t)
  {
    hide Own, CanOwn;
    OneOn(modern, t, p, 0);
    OneOn(modern, t, p, 1);
    OneOn(modern, t, p, 2);
    NoneOn(modern, t, p);
    q := Own(modern, t, p, 3);
  }

  lemma SignalsIgnored(modern: bool, t: nat, p: Pair) returns (q: Pair)
    requires p.c.pc.SetInt?
    ensures Leads(modern, t, p, 2, q) && q.c.pc == Unlocking
    ensures q.g == p.g.(sigint := Ignore, sigquit := Ignore, savedInt := p.g.sigint, savedQuit := p.g.sigquit)
  {
    hide Own, CanOwn;
    OneOn(modern, t, p, 0);
    OneOn(modern, t, p, 1);
    NoneOn(modern, t, p);
    q := Own(modern, t, p, 2);
  }

  lemma Started(modern: bool, t: nat, p: Pair) returns (q: Pair)
    requires p.c.pc.Unlocking?
    ensures Leads(modern, t, p, 3, q) && q.c.pc == Wait && q.g == p.g.(lock := -1)
  {
    hide Own, CanOwn;
    OneOn(modern, t, p, 0);
    OneOn(modern, t, p, 1);
    OneOn(modern, t, p, 2);
    NoneOn(modern, t, p);
    q := Own(modern, t, p, 3);
  }

  /** Into the call: the first caller ignores the signals, saving what was there. */
  lemma GetsIn(modern: bool, t: nat, p: Pair) returns (n: nat, q: Pair)
    requires p.c.pc.Idle? && p.g.lock == -1
    ensures Leads(modern, t, p, n, q) && q.c.pc.Wait?
    ensures q.g == if p.g.refcnt == 0 then Process(Ignore, Ignore, p.g.sigint, p.g.sigquit, 1, -1)
                   else p.g.(refcnt := p.g.refcnt + 1)
  {
    hide Leads;
    q := Counted(modern, t, p);
    n := 3;
    if p.g.refcnt == 0 {
      var r := SignalsIgnored(modern, t, q);
      LeadsOn(modern, t, p, n, q, 2, r);
      n, q := n + 2, r;
    }
    var r := Started(modern, t, q);
    LeadsOn(modern, t, p, n, q, 3, r);
    n, q := n + 3, r;
  }

  lemma Dropped(modern: bool, t: nat, p: Pair) returns (q: Pair)
    requires p.c.pc.Wait? && p.g.lock == -1
    ensures var last := p.g.refcnt == 1;
      Leads(modern, t, p, 3, q) && q.c.pc == Undoing(Done, last, last, last, last || !modern)
    ensures q.g == p.g.(refcnt := p.g.refcnt - 1, lock := t)
  {
    hide Own, CanOwn;
    OneOn(modern, t, p, 0);
    OneOn(modern, t, p, 1);
    OneOn(modern, t, p, 2);
    NoneOn(modern, t, p);
    q := Own(modern, t, p, 3);
  }

  lemma Undone(modern: bool, t: nat, p: Pair) returns (n: nat, q: Pair)
    requires p.c.pc.Undoing? && p.c.pc.putInt == p.c.pc.putQuit == p.c.pc.last && p.c.pc.why == Done
    requires p.c.pc.last ==> p.c.pc.putMask
    ensures Leads(modern, t, p, n, q) && q.c.pc == Returned(Done, p.c.pc.last)
    ensures q.g == if p.c.pc.last then p.g.(lock := -1, sigint := p.g.savedInt, sigquit := p.g.savedQuit)
                   else p.g.(lock := -1)
  {
    hide Own, CanOwn;
    NoneOn(modern, t, p);
    OneOn(modern, t, p, 0);
    OneOn(modern, t, p, 1);
    if p.c.pc.last {
      OneOn(modern, t, p, 2);
      OneOn(modern, t, p, 3);
    }
    n := if p.c.pc.last then 4 else if p.c.pc.putMask then 2 else 1;
    q := Own(modern, t, p, n);
  }

  /** A caller that finds the lock free, whoever else is inside, and that nothing
      fails for, runs its command and returns, leaving the process as it was. */
  lemma CallCompletes(modern: bool, t: nat, p: Pair)
    requires p.c.pc.Idle? && p.g.lock == -1 && p.g.refcnt >= 0
    ensures exists m: nat, n: nat, q: Pair, r: Pair ::
      && Leads(modern, t, p, m, q) && q.c.pc.Wait? && Leads(modern, t, q, n, r)
      && r.c.pc == Returned(Done, p.g.refcnt == 0)
      && r.g == p.g.(savedInt := r.g.savedInt, savedQuit := r.g.savedQuit)
  {
    hide Leads;
    var m, q := GetsIn(modern, t, p);
    var u := Dropped(modern, t, q);
    var n, r := Undone(modern, t, u);
    LeadsOn(modern, t, q, 3, u, n, r);
  }

  /** A waiting caller that is cancelled does so too, and is returned as cancelled. */
  lemma CancelCompletes(t: nat, p: Pair)
    requires p.c.pc.Wait? && p.g.lock == -1 && p.g.refcnt > 0
    ensures Enabled(true, p.g, p.c, Cancel)
    ensures var q := Pair(NextProcess(p.g, t, p.c, Cancel), NextCaller(true, p.g, p.c, Cancel));
      exists n: nat, r: Pair :: Leads(true, t, q, n, r) && r.c.pc == Returned(Cancelled, p.g.refcnt == 1)
        && r.g == p.g.(refcnt := p.g.refcnt - 1, sigint := if p.g.refcnt == 1 then p.g.savedInt else p.g.sigint,
                       sigquit := if p.g.refcnt == 1 then p.g.savedQuit else p.g.sigquit)
  {
    var q := Pair(NextProcess(p.g, t, p.c, Cancel), NextCaller(true, p.g, p.c, Cancel));
    var u := CancelDropped(t, q);
    var r := CancelUndone(t, u);
    LeadsOn(true, t, q, 2, u, if u.c.pc.last then 3 else 1, r);
  }

  lemma CancelDropped(t: nat, p: Pair) returns (q: Pair)
    requires p.c.pc == WantOut(Cancelled) && p.g.lock == -1
    ensures var last := p.g.refcnt == 1;
      Leads(true, t, p, 2, q) && q.c.pc == Undoing(Cancelled, last, last, last, false)
    ensures q.g == p.g.(refcnt := p.g.refcnt - 1, lock := t)
  {
    hide Own, CanOwn;
    OneOn(true, t, p, 0);
    OneOn(true, t, p, 1);
    NoneOn(true, t, p);
    q := Own(true, t, p, 2);
  }

  lemma CancelUndone(t: nat, p: Pair) returns (q: Pair)
    requires p.c.pc.Undoing? && p.c.pc.why == Cancelled && p.c.pc.putInt == p.c.pc.putQuit == p.c.pc.last && !p.c.pc.putMask
    ensures Leads(true, t, p, if p.c.pc.last then 3 else 1, q) && q.c.pc == Returned(Cancelled, p.c.pc.last)
    ensures q.g == if p.c.pc.last then p.g.(lock := -1, sigint := p.g.savedInt, sigquit := p.g.savedQuit)
                   else p.g.(lock := -1)
  {
    hide Own, CanOwn;
    NoneOn(true, t, p);
    OneOn(true, t, p, 0);
    if p.c.pc.last {
      OneOn(true, t, p, 1);
      OneOn(true, t, p, 2);
    }
    q := Own(true, t, p, if p.c.pc.last then 3 else 1);
  }

  // ----- a caller that leaves before the last

  /** Two callers of 2.32, each of which started with its signals unblocked. */
  function Two(g: Process, pc0: Pc, mask0: set<Signal>, pc1: Pc): State {
    var none := User(Default, Default);
    State(g, [Caller(pc0, {}, mask0, {}, none), Caller(pc1, {}, {}, {}, none)], none)
  }

  function Signals(ignored: int, refcnt: int, lock: int): Process {
    Process(if ignored > 0 then Ignore else Default, if ignored > 1 then Ignore else Default, Default, Default,
            refcnt, lock)
  }

  const CHILD_BLOCKED: set<Signal> := {SIGCHLD}

  /** The first caller enters, then the second, then the first leaves. */
  function Scene(i: nat): State {
    if i == 0 then Two(Signals(0, 0, -1), Idle, {}, Idle)
    else if i == 1 then Two(Signals(0, 0, -1), WantIn, {}, Idle)
    else if i == 2 then Two(Signals(0, 0, 0), Counting, {}, Idle)
    else if i == 3 then Two(Signals(0, 1, 0), SetInt, {}, Idle)
    else if i == 4 then Two(Signals(1, 1, 0), SetQuit, {}, Idle)
    else if i == 5 then Two(Signals(2, 1, 0), Unlocking, {}, Idle)
    else if i == 6 then Two(Signals(2, 1, -1), Block, {}, Idle)
    else if i == 7 then Two(Signals(2, 1, -1), Block, {}, WantIn)
    else if i == 8 then Two(Signals(2, 1, 1), Block, {}, Counting)
    else if i == 9 then Two(Signals(2, 2, 1), Block, {}, Unlocking)
    else if i == 10 then Two(Signals(2, 2, -1), Block, {}, Block)
    else if i == 11 then Two(Signals(2, 2, -1), Spawn, CHILD_BLOCKED, Block)
    else if i == 12 then Two(Signals(2, 2, -1), Wait, CHILD_BLOCKED, Block)
    else if i == 13 then Two(Signals(2, 2, -1), WantOut(Done), CHILD_BLOCKED, Block)
    else if i == 14 then Two(Signals(2, 2, 0), Dropping(Done), CHILD_BLOCKED, Block)
    else if i == 15 then Two(Signals(2, 1, 0), Undoing(Done, false, false, false, false), CHILD_BLOCKED, Block)
    else Two(Signals(2, 1, -1), Returned(Done, false), CHILD_BLOCKED, Block)
  }

  lemma FirstEnters(i: nat)
    requires i < 6
    ensures CallerStep(true, Scene(i), 0, Proceed, Scene(i + 1))
  {
  }

  lemma SecondEnters(i: nat)
    requires 6 <= i < 10
    ensures CallerStep(true, Scene(i), 1, Proceed, Scene(i + 1))
  {
  }

  lemma FirstLeaves(i: nat)
    requires 10 <= i < 16
    ensures CallerStep(true, Scene(i), 0, Proceed, Scene(i + 1))
  {
    var none: set<Signal> := {};
    assert none + {SIGCHLD} == CHILD_BLOCKED;
  }

  /** The run: the first caller drops its reference while the second is inside,
      and returns with SIGCHLD blocked, which it was not when it came. */
  ghost predicate LeavesEarly(run: seq<State>) {
    && Run(true, run) && |run| >= 3
    && var was, now := run[|run| - 3], run[|run| - 1];
       && |was.callers| == 2 && |now.callers| == 2
       && was.g.refcnt == 2 && was.callers[0].pc == Dropping(Done) && Inside(was.callers[1].pc)
       && now.callers[0].pc == Returned(Done, false) && Inside(now.callers[1].pc)
       && SIGCHLD in now.callers[0].mask && SIGCHLD !in now.callers[0].entry
  }

  /** 2.32 does lose a caller's mask: such a run exists. */
  lemma MaskLost()
    ensures exists run: seq<State> :: LeavesEarly(run)
  {
    var run := seq(17, i requires 0 <= i < 17 => Scene(i));
    forall i: nat | i + 1 < |run| ensures Next(true, run[i], run[i + 1]) {
      hide Scene;
      if i < 6 {
        FirstEnters(i);
      } else if i < 10 {
        SecondEnters(i);
      } else {
        FirstLeaves(i);
      }
    }
    hide Next;
    assert LeavesEarly(run);
  }
}
