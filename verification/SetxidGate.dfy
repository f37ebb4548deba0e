/** The protocol between a setxid call, which must reach every running thread, and
    a thread that exits: the mark on the thread, the handler that takes it off, and
    the gate an exiting thread waits at.

    One record is one thread as seen by itself and by the call in progress, if any
    (there is at most one: it holds the cache lock).  Stores and wake-ups are
    separate steps; a compare-and-exchange may fail at any time. */
module SetxidGate {

  /** Stillborn is a descriptor whose clone failed; a thread that ends by unwinding
      is Unwound before it is exiting; Entering is between reading a mark and
      waiting. */
  datatype ThreadPc = Unborn | Stillborn | UserCode | Unwound | AtGate | Entering | Asleep | Rereading | Resetting | Passed

  /** The call: first the mark, then, after all threads have been signalled, its
      removal. */
  datatype CallPc =
    | Idle | AwaitClone | Zeroing | Reading | Marking | Releasing | Waking
    | Marked | Unmarking | Unmarked

  /** The signal handler, running on the thread it interrupts. */
  datatype HandlerPc = NoHandler | Cleared

  /** `readExiting` is what the call read before its compare-and-exchange. */
  datatype Gate = Gate(
    thread: ThreadPc, call: CallPc, handler: HandlerPc,
    exiting: bool, setxid: bool, futex: int, readExiting: bool, signalled: bool)

  const CLONE_PENDING := -1
  const CLONE_AWAITED := -2

  function Fresh(): Gate {
    Gate(Unborn, Idle, NoHandler, false, false, CLONE_PENDING, false, false)
  }

  datatype Event =
    | ThreadStep | Unwind | SpuriousWake | CloneFailed
    | CallStep(casOk: bool)
    | Signal | HandlerStart | HandlerEnd
    | Recycle

  predicate Can(g: Gate, e: Event) {
    match e
    case ThreadStep => !g.thread.Asleep? && !g.thread.Passed? && !g.thread.Stillborn? && g.handler.NoHandler?
    case Unwind => g.thread.UserCode? && g.handler.NoHandler?
    case SpuriousWake => g.thread.Asleep?
    case CloneFailed => g.thread.Unborn?
    case CallStep(_) => (g.call.AwaitClone? ==> g.futex != CLONE_AWAITED) && (g.call.Marked? ==> SignalsDone(g))
    case Signal => g.call.Marked? && g.setxid && !g.signalled && !Unreachable(g)
    case HandlerStart => g.signalled && g.handler.NoHandler? && !Unreachable(g)
    case HandlerEnd => g.handler.Cleared?
    case Recycle => (g.thread.Passed? || g.thread.Stillborn?) && g.call.Idle?
  }

  /** The loop over all threads ends when a round has signalled none: every signal
      sent has been answered, and a thread still marked is one tgkill fails for. */
  predicate SignalsDone(g: Gate) { !g.signalled && (g.setxid ==> Unreachable(g)) }

  /** tgkill fails: the thread has not started, never will, or is gone. */
  predicate Unreachable(g: Gate) { g.thread.Unborn? || g.thread.Stillborn? || g.thread.Passed? }

  // ----- the thread: startup, user code, and the gate on its way out

  function ThreadNext(g: Gate): ThreadPc {
    match g.thread
    case Unborn => UserCode
    case Stillborn => Stillborn
    case UserCode => AtGate
    case Unwound => AtGate
    case AtGate => if g.setxid then Entering else Passed
    case Entering => if g.futex == 0 then Asleep else Rereading
    case Rereading => if g.setxid then Entering else Resetting
    case Resetting => Passed
    case Asleep => Asleep
    case Passed => Passed
  }

  function ThreadDo(g: Gate): Gate {
    g.(thread := ThreadNext(g),
       exiting := g.exiting || g.thread.UserCode? || g.thread.Unwound?,
       futex := if g.thread.Unborn? || g.thread.Resetting? then 0 else g.futex)
  }

  // ----- the call, for this thread

  function CallNext(g: Gate, casOk: bool): CallPc {
    match g.call
    case Idle => AwaitClone
    case AwaitClone => if g.futex == CLONE_PENDING then AwaitClone else Zeroing
    case Zeroing => Reading
    case Reading => if g.exiting then (if g.setxid then Idle else Releasing) else Marking
    case Marking => if casOk && g.exiting == g.readExiting then Marked else Reading
    case Releasing => Waking
    case Waking => Idle
    case Marked => Unmarking
    case Unmarking => if !g.setxid then Idle else if casOk then Unmarked else Unmarking
    case Unmarked => Waking
  }

  function CallDo(g: Gate, casOk: bool): Gate {
    g.(call := CallNext(g, casOk),
       thread := if g.call.Waking? && g.thread.Asleep? then Rereading else g.thread,
       futex := if g.call.AwaitClone? && g.futex == CLONE_PENDING then CLONE_AWAITED
                else if g.call.Zeroing? then 0
                else if g.call.Releasing? || g.call.Unmarked? then 1
                else g.futex,
       readExiting := if g.call.Reading? then g.exiting else g.readExiting,
       setxid := if g.call.Marking? && casOk && g.exiting == g.readExiting then true
                 else if g.call.Unmarking? && casOk then false else g.setxid)
  }

  function Do(g: Gate, e: Event): Gate {
    match e
    case ThreadStep => ThreadDo(g)
    case Unwind => g.(thread := Unwound, futex := 0)
    case CloneFailed => g.(thread := Stillborn, futex := 0)
    case SpuriousWake => g.(thread := Rereading)
    case CallStep(casOk) => CallDo(g, casOk)
    case Signal => g.(signalled := true)
    case HandlerStart => g.(handler := Cleared, setxid := false,
                            thread := if g.thread.Asleep? then Rereading else g.thread)
    case HandlerEnd => g.(handler := NoHandler, futex := 1, signalled := false)
    case Recycle => Fresh()
  }

  // ----- the invariant

  /** Somebody is about to store 1 to the futex. */
  predicate ReleaseComing(g: Gate) {
    g.call.Unmarked? || g.call.Reading? || g.call.Marking? || g.call.Releasing? || g.handler.Cleared?
  }

  predicate Inv(g: Gate) {
    && (g.futex == CLONE_PENDING || g.futex == CLONE_AWAITED || g.futex >= 0) && (g.futex < 0 <==> g.thread.Unborn?)
    && (g.futex == CLONE_AWAITED ==> g.call.AwaitClone?)
    && (g.exiting <==>
          !g.thread.Unborn? && !g.thread.Stillborn? && !g.thread.UserCode? && !g.thread.Unwound?)
    && (g.setxid ==> g.call.Marked? || g.call.Unmarking?)
    && (g.setxid || g.call.Reading? || g.call.Marking? ==> g.futex == 0)
    && (g.signalled ==> g.call.Marked?)
    && (g.signalled && !g.setxid ==> g.handler.Cleared?)
    && (g.handler.Cleared? ==> g.signalled && !g.setxid)
    && (g.call.Marking? ==> !g.readExiting)
    && (g.thread.Unborn? ==> g.call.Idle? || g.call.AwaitClone?)
    && (g.thread.Entering? && !g.setxid ==> g.futex != 0 || ReleaseComing(g))
    && (g.thread.Asleep? ==> g.handler.NoHandler? && (g.setxid || ReleaseComing(g) || g.call.Waking?))
    && (g.thread.Resetting? || g.thread.Passed? ==> !g.setxid)
  }

  lemma Kept(g: Gate, e: Event)
    requires Inv(g) && Can(g, e)
    ensures Inv(Do(g, e))
  {
  }

  // ----- what the gate is for

  /** The step places a mark only on a thread that is not exiting, and a thread
      that has passed the gate is and stays unmarked until its descriptor is
      recycled, which no call in progress can see; no descriptor is recycled with
      a mark on it. */
  ghost predicate GateHolds(g: Gate, e: Event)
    requires Can(g, e)
  {
    && (!g.setxid && Do(g, e).setxid ==> !g.exiting && !g.thread.Passed? && !g.thread.Unborn?)
    && (g.thread.Passed? ==> !g.setxid && !Do(g, e).setxid)
    && (Do(g, e).thread.Passed? && !g.thread.Passed? ==> g.exiting && !g.setxid)
    && (Unreachable(g) && !Unreachable(Do(g, e)) ==> g.thread.Unborn?)
    && (e.Recycle? ==> g.call.Idle? && !g.setxid)
  }

  /** When no call is in progress, no exiting thread sleeps at the gate: a wake-up
      is never lost although the thread waits on the futex and tests the mark. */
  ghost predicate NobodyStranded(g: Gate) {
    g.call.Idle? ==> !g.thread.Asleep? && (g.thread.Entering? ==> g.futex != 0)
  }

  lemma Awake(g: Gate)
    requires Inv(g)
    ensures NobodyStranded(g)
  {
  }

  lemma StepHolds(g: Gate, e: Event)
    requires Inv(g) && Can(g, e)
    ensures GateHolds(g, e)
  {
  }

  /** The thread's own next n steps, if nothing else happens. */
  function Own(g: Gate, n: nat): Gate {
    if n == 0 then g else Do(Own(g, n - 1), ThreadStep)
  }

  predicate CanOwn(g: Gate, n: nat) {
    n == 0 || (CanOwn(g, n - 1) && Can(Own(g, n - 1), ThreadStep))
  }

  /** With no call in progress the gate is open: an exiting thread that has not
      passed it, wherever it had got to, does so by its own next few steps. */
  lemma GateOpens(g: Gate)
    requires Inv(g) && g.call.Idle? && g.exiting && !g.thread.Passed?
    ensures exists n: nat :: n <= 3 && CanOwn(g, n) && Own(g, n).thread.Passed?
                             && (!g.thread.AtGate? ==> Own(g, n).futex == 0)
  {
    var n := if g.thread.Entering? then 3 else if g.thread.Rereading? then 2 else 1;
    assert Own(g, 0) == g && Own(g, 1) == Do(g, ThreadStep) && Own(g, 2) == Do(Own(g, 1), ThreadStep);
    assert CanOwn(g, 0) && CanOwn(g, 1) && (n >= 2 ==> CanOwn(g, 2));
    assert n == 3 ==> Own(g, 3) == Do(Own(g, 2), ThreadStep) && CanOwn(g, 3);
    assert CanOwn(g, n) && Own(g, n).thread.Passed?;
  }

  /** While the mark is on it the gate is closed: an exiting thread goes to sleep
      within two of its own steps, and then has none until it is woken. */
  lemma GateCloses(g: Gate)
    requires Inv(g) && g.setxid && g.exiting && g.handler.NoHandler?
    ensures exists n: nat :: n <= 2 && CanOwn(g, n) && Own(g, n).thread.Asleep? && !Can(Own(g, n), ThreadStep)
  {
    var n := if g.thread.Asleep? then 0 else if g.thread.Entering? then 1 else 2;
    assert Own(g, 0) == g && Own(g, 1) == Do(g, ThreadStep) && Own(g, 2) == Do(Own(g, 1), ThreadStep);
    assert CanOwn(g, 0) && (n >= 1 ==> CanOwn(g, 1)) && (n == 2 ==> CanOwn(g, 2));
    assert CanOwn(g, n) && Own(g, n).thread.Asleep?;
  }

  /** These events can happen in this order. */
  predicate Possible(g: Gate, es: seq<Event>)
    decreases |es|
  {
    es == [] || (Possible(g, es[..|es| - 1]) && Can(After(g, es[..|es| - 1]), es[|es| - 1]))
  }

  function After(g: Gate, es: seq<Event>): Gate
    decreases |es|
  {
    if es == [] then g else Do(After(g, es[..|es| - 1]), es[|es| - 1])
  }

  /** The events lead from g to h. */
  predicate Leads(g: Gate, es: seq<Event>, h: Gate) { Possible(g, es) && After(g, es) == h }

  lemma Further(g: Gate, es: seq<Event>, h: Gate, e: Event)
    requires Leads(g, es, h) && Can(h, e)
    ensures Leads(g, es + [e], Do(h, e)) && e in es + [e] && forall d :: d in es ==> d in es + [e]
  {
    assert (es + [e])[..|es|] == es;
  }

  lemma CallFurther(g: Gate, es: seq<Event>, h: Gate) returns (more: seq<Event>, next: Gate)
    requires Leads(g, es, h) && Can(h, CallStep(true))
    ensures Leads(g, more, next) && next == CallDo(h, true) && forall d :: d in es ==> d in more
  {
    hide Leads;
    Further(g, es, h, CallStep(true));
    more, next := es + [CallStep(true)], CallDo(h, true);
  }

  lemma Marks(g: Gate) returns (es: seq<Event>, h: Gate)
    requires Inv(g) && g.call.Idle? && (g.thread.UserCode? || g.thread.Unwound?)
    ensures Leads(g, es, h) && h == g.(call := Marked, setxid := true, futex := 0, readExiting := false)
    ensures !g.signalled && g.handler.NoHandler?
  {
    assert Leads(g, [], g);
    hide Leads;
    es, h := CallFurther(g, [], g);
    es, h := CallFurther(g, es, h);
    es, h := CallFurther(g, es, h);
    es, h := CallFurther(g, es, h);
    es, h := CallFurther(g, es, h);
  }

  lemma Answers(g: Gate, es0: seq<Event>, m: Gate) returns (es: seq<Event>, h: Gate)
    requires Leads(g, es0, m) && m.call.Marked? && m.setxid && !m.signalled && m.handler.NoHandler? && !Unreachable(m)
    requires !m.thread.Asleep?
    ensures Leads(g, es, h) && h == m.(setxid := false, futex := 1) && HandlerEnd in es
  {
    hide Leads;
    Further(g, es0, m, Signal);
    h := Do(m, Signal);
    Further(g, es0 + [Signal], h, HandlerStart);
    h := Do(h, HandlerStart);
    es := es0 + [Signal] + [HandlerStart];
    Further(g, es, h, HandlerEnd);
    es, h := es + [HandlerEnd], Do(h, HandlerEnd);
  }

  /** A call does get through to a thread that is neither starting nor exiting: it
      can be marked, signalled and answer, and the call goes on. */
  lemma CallGetsThrough(g: Gate)
    requires Inv(g) && g.call.Idle? && (g.thread.UserCode? || g.thread.Unwound?)
    ensures exists es: seq<Event>, h: Gate ::
      Leads(g, es, h) && HandlerEnd in es && h.call.Idle? && !h.setxid && h.thread == g.thread
  {
    hide Leads;
    var es, h := Marks(g);
    es, h := Answers(g, es, h);
    es, h := CallFurther(g, es, h);
    es, h := CallFurther(g, es, h);
  }

  datatype System = System(threads: map<nat, Gate>)

  /** A step of one thread, of the call or handler for it, or a thread's creation. */
  datatype Move = Create(t: nat) | At(t: nat, e: Event)

  predicate Enabled(s: System, m: Move) {
    match m
    case Create(t) => t !in s.threads
    case At(t, e) => t in s.threads && Can(s.threads[t], e)
  }

  function Apply(s: System, m: Move): System
    requires Enabled(s, m)
  {
    match m
    case Create(t) => System(s.threads[t := Fresh()])
    case At(t, e) => System(s.threads[t := Do(s.threads[t], e)])
  }

  predicate Legal(s: System, ms: seq<Move>)
    decreases |ms|
  {
    ms == [] || (Enabled(s, ms[0]) && Legal(Apply(s, ms[0]), ms[1..]))
  }

  ghost predicate Throughout(s: System, ms: seq<Move>)
    requires Legal(s, ms)
    decreases |ms|
  {
    && (forall t :: t in s.threads ==> NobodyStranded(s.threads[t]))
    && (ms != [] ==>
          && (ms[0].At? ==> GateHolds(s.threads[ms[0].t], ms[0].e))
          && Throughout(Apply(s, ms[0]), ms[1..]))
  }

  /** Over every run of any number of threads and setxid calls. */
  lemma {:induction false} GateHoldsThroughout(s: System, ms: seq<Move>)
    requires Legal(s, ms) && forall t :: t in s.threads ==> Inv(s.threads[t])
    ensures Throughout(s, ms)
    decreases |ms|
  {
    hide Inv, Can, Do, NobodyStranded, GateHolds;
    forall t | t in s.threads ensures NobodyStranded(s.threads[t]) {
      Awake(s.threads[t]);
    }
    if ms != [] {
      match ms[0] {
        case Create(t) => FreshInv();
        case At(t, e) =>
          Kept(s.threads[t], e);
          StepHolds(s.threads[t], e);
      }
      GateHoldsThroughout(Apply(s, ms[0]), ms[1..]);
    }
  }

  // ----- what the call is for

  function Final(s: System, ms: seq<Move>): System
    requires Legal(s, ms)
    decreases |ms|
  {
    if ms == [] then s else Final(Apply(s, ms[0]), ms[1..])
  }

  /** The thread has run the handler to its end. */
  ghost predicate Answered(ms: seq<Move>, t: nat) { At(t, HandlerEnd) in ms }

  /** Where the call, begun before the first of these moves, has got to with t. */
  ghost predicate Reached(g: Gate, ms: seq<Move>, t: nat) {
    match g.call
    case AwaitClone => true
    case Zeroing => true
    case Reading => true
    case Marking => true
    case Marked => g.setxid || g.handler.Cleared? || Answered(ms, t)
    case Unmarking => Answered(ms, t) || g.thread.Stillborn?
    case Unmarked => Answered(ms, t) || g.thread.Stillborn?
    case _ => Answered(ms, t) || g.thread.Stillborn? || g.exiting
  }

  lemma StepReached(g: Gate, e: Event, ms: seq<Move>, t: nat)
    requires Inv(g) && Can(g, e) && !e.Recycle? && Reached(g, ms, t)
    ensures Reached(Do(g, e), ms + [At(t, e)], t)
  {
    assert Answered(ms, t) || e.HandlerEnd? <==> Answered(ms + [At(t, e)], t);
  }

  lemma {:induction false} ReachedFrom(s: System, past: seq<Move>, ms: seq<Move>, t: nat)
    requires Legal(s, ms) && (forall u :: u in s.threads ==> Inv(s.threads[u])) && At(t, Recycle) !in ms
    requires t in s.threads && Reached(s.threads[t], past, t)
    ensures t in Final(s, ms).threads && Reached(Final(s, ms).threads[t], past + ms, t)
    decreases |ms|
  {
    hide Inv, Can, Do, Reached;
    if ms == [] {
      assert past + ms == past;
    } else {
      var next := Apply(s, ms[0]);
      assert past + [ms[0]] + ms[1..] == past + ms;
      match ms[0] {
        case Create(u) => FreshInv();
        case At(u, e) => Kept(s.threads[u], e);
      }
      if ms[0].At? && ms[0].t == t {
        StepReached(s.threads[t], ms[0].e, past, t);
      } else {
        OtherReached(s.threads[t], past, ms[0], t);
      }
      ReachedFrom(next, past + [ms[0]], ms[1..], t);
    }
  }

  lemma FreshInv()
    ensures Inv(Fresh())
  {
  }

  lemma OtherReached(g: Gate, past: seq<Move>, m: Move, t: nat)
    requires Reached(g, past, t)
    ensures Reached(g, past + [m], t)
  {
    assert Answered(past, t) ==> Answered(past + [m], t);
  }

  /** A setxid call misses no thread: in every run, from the call's first step for t
      on, the call takes a mark away only if t has run the handler since or does not
      exist, and it is done with t only if that is so or t is exiting. */
  lemma CallReachesAll(s: System, ms: seq<Move>, t: nat)
    requires Legal(s, ms) && (forall u :: u in s.threads ==> Inv(s.threads[u])) && At(t, Recycle) !in ms
    requires t in s.threads && s.threads[t].call.AwaitClone?
    ensures t in Final(s, ms).threads
    ensures Final(s, ms).threads[t].call.Unmarking? ==>
      At(t, HandlerEnd) in ms || Final(s, ms).threads[t].thread.Stillborn?
    ensures Final(s, ms).threads[t].call.Idle? ==>
      At(t, HandlerEnd) in ms || Final(s, ms).threads[t].thread.Stillborn? || Final(s, ms).threads[t].exiting
  {
    ReachedFrom(s, [], ms, t);
    assert [] + ms == ms;
  }
}
