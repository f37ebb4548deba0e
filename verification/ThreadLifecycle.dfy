/** Threads over the stack allocator, as interleaved steps: creators running
    pthread_create, the threads they start, joiners, and the kernel.

    A slot is the memory of one stack block with its descriptor.  Its generation
    counts how often the block was given to a new thread; what a creator remembers
    is the address and the generation it was given. */
module ThreadLifecycle {

  import opened Rings

  datatype Place = Unmapped | InUse | Cached

  datatype JoinId = Nobody | Itself | Waiter

  datatype Lock = Open | ByCreator | ByThread

  datatype ThreadPc =
    | NoThread | Starting | Locking | Holding | Running | Finished
    | Exiting | Freeing | Queueing | Leaving

  datatype JoinerPc = NoJoiner | Waiting | Reaping | GivingBack

  datatype CreatorPc =
    | Preparing | Deciding | Cloning | NoClone
    | SetAffinity | SetScheduling | Reporting | Unlocking
    | Returned | GaveUp

  /** The memory of a block.  From `making` on the fields are history: which step
      of its creator still holds a claim on the block (Returned: none), whether
      the attributes were applied and the lock released for it, whether setting
      them failed, whether user code ran, whether pthread_create reported it. */
  datatype Slot = Slot(
    gen: nat, place: Place,
    tid: int, joinid: JoinId, stoppedStart: bool, lock: Lock,
    cancelPending: bool, exiting: bool, terminated: bool,
    thread: ThreadPc, joiner: JoinerPc,
    making: CreatorPc, affinitySet: bool, schedulingSet: bool, released: bool, setupFailed: bool,
    userRan: bool, reported: bool)

  datatype Params = Params(detached: bool, affinity: bool, scheduling: bool, report: bool)

  datatype Creator = Creator(slot: Addr, gen: nat, params: Params, pc: CreatorPc, stopped: bool)

  datatype State = State(slots: map<Addr, Slot>, creators: map<nat, Creator>)

  const INITIAL := State(map[], map[])

  /** Somebody besides its creator may know the thread: it runs user code, or
      pthread_create has returned its identifier. */
  predicate Known(s: Slot) {
    s.place.InUse? && (s.userRan || s.reported)
  }

  // ----- the steps on one slot

  /** The block is handed out: freshly mapped, or taken from the cache with the
      cancellation state reset and tid left alone. */
  function HandOut(s: Slot): Slot {
    s.(gen := s.gen + 1, place := InUse, lock := Open,
       cancelPending := false, exiting := false, terminated := false,
       making := Preparing, affinitySet := false, schedulingSet := false, released := false,
       setupFailed := false, userRan := false, reported := false)
  }

  const NEVER_MAPPED := Slot(0, Unmapped, 0, Nobody, false, Open, false, false, false, NoThread, NoJoiner, Returned,
                             false, false, false, false, false, false)

  /** What a fresh mapping at `a` starts from: zeroed memory. */
  function Zeroed(st: State, a: Addr): Slot {
    if a in st.slots then st.slots[a].(tid := 0) else NEVER_MAPPED
  }

  /** __deallocate_stack. */
  function Deallocate(s: Slot): Slot { s.(place := Cached) }

  /** The new thread's next instruction. */
  predicate ThreadCan(s: Slot) {
    match s.thread
    case NoThread => false
    case Locking => s.lock.Open?
    case Leaving => false
    case Starting => true case Holding => true case Running => true case Finished => true
    case Exiting => true case Freeing => true case Queueing => true
  }

  function ThreadNext(s: Slot): ThreadPc {
    match s.thread
    case Starting => if s.stoppedStart then Locking else Running
    case Locking => Holding
    case Holding => Running
    case Running => Finished
    case Finished => Exiting
    case Exiting => if s.joinid.Itself? then Freeing else Leaving
    case Freeing => if s.terminated then Leaving else Queueing
    case Queueing => Leaving
    case NoThread => NoThread
    case Leaving => Leaving
  }

  function ThreadDo(s: Slot): Slot {
    s.(thread := ThreadNext(s),
       lock := if s.thread.Locking? then ByThread else if s.thread.Holding? then Open else s.lock,
       userRan := s.userRan || ThreadNext(s).Running?,
       exiting := s.exiting || s.thread.Finished?,
       terminated := s.terminated || s.thread.Freeing?,
       place := if s.thread.Queueing? then Cached else s.place)
  }

  /** The joiner's next instruction. */
  predicate JoinerCan(s: Slot) {
    !s.joiner.NoJoiner? && (s.joiner.Waiting? ==> s.tid == 0)
  }

  function JoinerDo(s: Slot): Slot {
    match s.joiner
    case Waiting => s.(joiner := Reaping, tid := -1)
    case Reaping => s.(joiner := if s.terminated then NoJoiner else GivingBack, terminated := true)
    case GivingBack => Deallocate(s).(joiner := NoJoiner)
    case NoJoiner => s
  }

  /** pthread_detach by a thread that knows the identifier, as one step. */
  function DetachDo(s: Slot): Slot {
    var d := s.(joinid := Itself);
    if d.exiting && !d.terminated then Deallocate(d.(terminated := true)) else d
  }

  // ----- the steps of a creator

  /** The next instruction of the creator reads or writes the descriptor. */
  predicate Touches(c: Creator) {
    match c.pc
    case Preparing => true
    case Deciding => true
    case Cloning => true
    case NoClone => true
    case SetAffinity => c.params.affinity
    case SetScheduling => c.params.scheduling
    case Reporting => c.params.report
    case Unlocking => c.stopped
    case Returned => false
    case GaveUp => false
  }

  /** The creator's own state after its next instruction, which may fail. */
  function CreatorNext(c: Creator, ok: bool): Creator {
    match c.pc
    case Preparing => if ok then c.(pc := Deciding) else c.(pc := GaveUp)
    case Deciding => c.(pc := Cloning, stopped := c.params.report || c.params.affinity || c.params.scheduling)
    case Cloning => if ok then c.(pc := SetAffinity) else c.(pc := NoClone)
    case NoClone => c.(pc := GaveUp)
    case SetAffinity => if c.params.affinity && !ok then c.(pc := GaveUp) else c.(pc := SetScheduling)
    case SetScheduling => if c.params.scheduling && !ok then c.(pc := GaveUp) else c.(pc := Reporting)
    case Reporting => c.(pc := Unlocking)
    case Unlocking => c.(pc := Returned)
    case Returned => c
    case GaveUp => c
  }

  /** The creator owns the descriptor: up to clone, and after it when the thread
      was started stopped. */
  predicate Claims(c: Creator) {
    BeforeClone(c.pc) || (AfterClone(c.pc) && c.stopped)
  }

  predicate BeforeClone(pc: CreatorPc) {
    pc.Preparing? || pc.Deciding? || pc.Cloning? || pc.NoClone?
  }

  predicate AfterClone(pc: CreatorPc) {
    pc.SetAffinity? || pc.SetScheduling? || pc.Reporting? || pc.Unlocking?
  }

  /** Applying an attribute that was asked for failed. */
  predicate SetupFails(c: Creator, ok: bool) {
    !ok && ((c.pc.SetAffinity? && c.params.affinity) || (c.pc.SetScheduling? && c.params.scheduling))
  }

  /** What the instruction does to the slot at the creator's address.  While
      preparing, failing means that the guard could not be fitted and the block
      was unmapped; a failed attribute sends the cancellation signal. */
  function CreatorDo(c: Creator, ok: bool, tid: nat, s: Slot): Slot {
    var next := CreatorNext(c, ok);
    s.(place := if c.pc.Preparing? && !ok then Unmapped else if c.pc.NoClone? then Cached else s.place,
       joinid := if c.pc.Preparing? && ok then (if c.params.detached then Itself else Nobody) else s.joinid,
       stoppedStart := if c.pc.Deciding? then next.stopped else s.stoppedStart,
       lock := if c.pc.Deciding? && next.stopped then ByCreator
               else if c.pc.Unlocking? && c.stopped then Open else s.lock,
       tid := if c.pc.Cloning? && ok then tid else s.tid,
       thread := if c.pc.Cloning? && ok then Starting else s.thread,
       affinitySet := s.affinitySet || (c.pc.SetAffinity? && c.params.affinity && ok),
       schedulingSet := s.schedulingSet || (c.pc.SetScheduling? && c.params.scheduling && ok),
       cancelPending := s.cancelPending || SetupFails(c, ok),
       setupFailed := s.setupFailed || SetupFails(c, ok),
       released := s.released || (c.pc.Unlocking? && c.stopped),
       reported := s.reported || (c.pc.Unlocking? && s.gen == c.gen),
       making := if !Claims(c) then s.making else if Claims(next) then next.pc else Returned)
  }

  // ----- whole-system steps

  datatype Event =
    | Map(a: Addr, c: nat, params: Params)
    | Reuse(a: Addr, c: nat, params: Params)
    | CreatorStep(c: nat, ok: bool, tid: nat)
    | ThreadStep(a: Addr)
    | CancelLands(a: Addr)
    | KernelClears(a: Addr)
    | Cancel(a: Addr)
    | Detach(a: Addr)
    | JoinStart(a: Addr)
    | JoinGivesUp(a: Addr)
    | JoinStep(a: Addr)
    | Trim(a: Addr)

  predicate SlotCan(s: Slot, e: Event) {
    match e
    case ThreadStep(_) => ThreadCan(s)
    case CancelLands(_) => s.cancelPending && (s.thread.Locking? || s.thread.Holding?)
    case KernelClears(_) => s.thread.Leaving?
    case Cancel(_) => Known(s)
    case Detach(_) => Known(s) && s.joinid.Nobody?
    case JoinStart(_) => Known(s) && s.joinid.Nobody? && s.joiner.NoJoiner?
    case JoinGivesUp(_) => s.joiner.Waiting?
    case JoinStep(_) => JoinerCan(s)
    case Trim(_) => s.place.Cached? && s.tid <= 0
    case Map(_, _, _) => false
    case Reuse(_, _, _) => false
    case CreatorStep(_, _, _) => false
  }

  function SlotDo(s: Slot, e: Event): Slot {
    match e
    case ThreadStep(_) => ThreadDo(s)
    case CancelLands(_) => s.(thread := Finished)
    case KernelClears(_) => s.(thread := NoThread, tid := 0)
    case Cancel(_) => s.(cancelPending := true)
    case Detach(_) => DetachDo(s)
    case JoinStart(_) => s.(joinid := Waiter, joiner := Waiting)
    case JoinGivesUp(_) => s.(joinid := Nobody, joiner := NoJoiner)
    case JoinStep(_) => JoinerDo(s)
    case Trim(_) => s.(place := Unmapped)
    case Map(_, _, _) => s
    case Reuse(_, _, _) => s
    case CreatorStep(_, _, _) => s
  }

  predicate Enabled(st: State, e: Event) {
    match e
    case Map(a, c, _) => (a in st.slots ==> st.slots[a].place.Unmapped?) && c !in st.creators
    case Reuse(a, c, _) => a in st.slots && st.slots[a].place.Cached? && st.slots[a].tid <= 0 && c !in st.creators
    case CreatorStep(c, ok, tid) =>
      && c in st.creators && !st.creators[c].pc.Returned? && !st.creators[c].pc.GaveUp?
      && st.creators[c].slot in st.slots && tid > 0
    case _ => e.a in st.slots && SlotCan(st.slots[e.a], e)
  }

  function Apply(st: State, e: Event): State
    requires Enabled(st, e)
  {
    match e
    case Map(a, c, p) =>
      var s := HandOut(Zeroed(st, a));
      State(st.slots[a := s], st.creators[c := Creator(a, s.gen, p, Preparing, false)])
    case Reuse(a, c, p) =>
      var s := HandOut(st.slots[a]);
      State(st.slots[a := s], st.creators[c := Creator(a, s.gen, p, Preparing, false)])
    case CreatorStep(c, ok, tid) =>
      var cr := st.creators[c];
      State(st.slots[cr.slot := CreatorDo(cr, ok, tid, st.slots[cr.slot])], st.creators[c := CreatorNext(cr, ok)])
    case _ => st.(slots := st.slots[e.a := SlotDo(st.slots[e.a], e)])
  }

  // ----- the invariant

  predicate Alive(s: Slot) { !s.thread.NoThread? }

  /** The kernel's word and the thread agree; nothing happens on unmapped memory;
      a cached block is one whose thread, if any is left, will not touch the
      lists again. */
  predicate PlaceInv(s: Slot) {
    && (s.tid > 0 <==> Alive(s))
    && (s.place.Unmapped? ==> !Alive(s) && s.joiner.NoJoiner? && s.making.Returned?)
    && (s.place.Cached? ==>
          && s.joiner.NoJoiner? && s.making.Returned?
          && (Alive(s) ==> s.terminated && s.exiting && (s.thread.Exiting? || s.thread.Freeing? || s.thread.Leaving?)))
  }

  /** Who may free: the thread if it is detached, the one joiner otherwise; and
      whoever took the TERMINATED bit holds a block that is still in use. */
  predicate FreeInv(s: Slot) {
    && (s.thread.Freeing? || s.thread.Queueing? ==> s.joinid.Itself? && s.exiting)
    && (s.thread.Queueing? ==> s.place.InUse? && s.terminated)
    && (!s.joiner.NoJoiner? ==> s.place.InUse? && s.joinid.Waiter? && (s.userRan || s.reported))
    && (s.joiner.Waiting? || s.joiner.Reaping? ==> !s.terminated)
    && (s.joiner.Reaping? || s.joiner.GivingBack? ==> !Alive(s))
    && (s.joiner.GivingBack? ==> s.terminated)
    && (s.place.InUse? && s.terminated ==> s.thread.Queueing? || s.joiner.GivingBack?)
    && (s.thread.Exiting? || s.thread.Leaving? ==> s.exiting)
    && (s.place.InUse? && s.thread.Leaving? ==> !s.joinid.Itself?)
    && (s.exiting && Alive(s) ==> s.thread.Exiting? || s.thread.Freeing? || s.thread.Queueing? || s.thread.Leaving?)
    && (s.place.InUse? && s.joinid.Itself? && !Alive(s) ==> BeforeClone(s.making))
    && (s.place.InUse? && s.making.Returned? && !Alive(s) ==> s.exiting)
    && (s.place.InUse? && s.making.Returned? && !Alive(s) && !s.joiner.Reaping? && !s.joiner.GivingBack? ==> s.tid == 0)
  }

  /** The hand-over from the creator to the thread. */
  predicate HandOverInv(s: Slot) {
    && (BeforeClone(s.making) ==>
          && s.place.InUse? && !Alive(s) && s.joiner.NoJoiner? && !s.exiting && !s.terminated
          && !s.userRan && !s.reported && !s.released && !s.setupFailed && !s.cancelPending
          && (s.lock.ByCreator? <==> (s.making.Cloning? || s.making.NoClone?) && s.stoppedStart)
          && !s.lock.ByThread?)
    && (AfterClone(s.making) ==>
          && s.place.InUse? && s.stoppedStart && s.lock.ByCreator? && !s.released && !s.setupFailed
          && (s.thread.Starting? || s.thread.Locking?)
          && !s.userRan && !s.reported && !s.exiting && !s.terminated && !s.cancelPending && s.joiner.NoJoiner?)
    && !s.making.GaveUp?
    && (s.setupFailed ==> s.stoppedStart && s.lock.ByCreator? && !s.released && !s.userRan && !s.reported
                          && !s.thread.Running? && !s.thread.Holding?)
    && (s.place.InUse? && s.making.Returned? && s.stoppedStart && !s.released ==> s.setupFailed)
    && (s.userRan && s.stoppedStart ==> s.released)
    && (s.thread.Starting? || s.thread.Locking? || s.thread.Holding? ==> !s.userRan && !s.exiting)
    && (s.thread.Running? ==> s.userRan && s.lock.Open?)
    && (s.thread.Starting? && !s.stoppedStart ==> s.lock.Open?)
    && (s.thread.Locking? || s.thread.Holding? ==> s.stoppedStart)
    && (s.thread.Holding? ==> s.lock.ByThread? && s.released)
    && (Alive(s) && s.place.Cached? ==> !BeforeClone(s.making))
  }

  predicate SlotInv(s: Slot) {
    PlaceInv(s) && FreeInv(s) && HandOverInv(s)
  }

  predicate CreatorInv(c: Creator, s: Slot) {
    && c.gen <= s.gen
    && (Claims(c) ==> c.gen == s.gen && s.making == c.pc)
    && (!Claims(c) && c.gen == s.gen ==> s.making.Returned?)
    && (c.gen == s.gen && !c.pc.Preparing? && !c.pc.Deciding? && !c.pc.GaveUp? ==> s.stoppedStart == c.stopped)
    && (AfterClone(c.pc) || c.pc.Cloning? || c.pc.NoClone? || c.pc.Returned? ==>
          (c.stopped <==> c.params.affinity || c.params.scheduling || c.params.report))
    && (c.gen == s.gen && (c.pc.SetScheduling? || c.pc.Reporting? || c.pc.Unlocking? || c.pc.Returned?) ==>
          (c.params.affinity ==> s.affinitySet && c.stopped))
    && (c.gen == s.gen && (c.pc.Reporting? || c.pc.Unlocking? || c.pc.Returned?) ==>
          (c.params.scheduling ==> s.schedulingSet && c.stopped))
    && (c.gen == s.gen && !c.pc.Preparing? && !c.pc.GaveUp? && c.params.detached ==> s.joinid.Itself?)
    && (c.gen == s.gen && c.pc.GaveUp? ==>
          !s.userRan && !s.reported && (s.setupFailed || (!s.place.InUse? && !Alive(s))))
  }

  predicate OneCreatorEach(creators: map<nat, Creator>) {
    forall c, d :: c in creators && d in creators && c != d && creators[c].slot == creators[d].slot ==>
      creators[c].gen != creators[d].gen
  }

  ghost predicate Inv(st: State) {
    && (forall a :: a in st.slots ==> SlotInv(st.slots[a]))
    && (forall c :: c in st.creators ==>
          st.creators[c].slot in st.slots && CreatorInv(st.creators[c], st.slots[st.creators[c].slot]))
    && OneCreatorEach(st.creators)
  }

  // ----- the steps keep the invariant

  /** What the creators rely on did not change. */
  predicate SameHistory(s: Slot, r: Slot) {
    && r.gen == s.gen && r.making == s.making && r.stoppedStart == s.stoppedStart
    && r.affinitySet == s.affinitySet && r.schedulingSet == s.schedulingSet
    && r.setupFailed == s.setupFailed && r.reported == s.reported && (s.joinid.Itself? ==> r.joinid.Itself?)
    && (!s.place.InUse? && !Alive(s) ==> !r.place.InUse? && !Alive(r) && r.userRan == s.userRan)
  }

  lemma ThreadKeeps(s: Slot, r: Slot)
    requires SlotInv(s) && ThreadCan(s) && r == ThreadDo(s)
    ensures SlotInv(r) && SameHistory(s, r)
  {
  }

  lemma JoinerKeeps(s: Slot)
    requires SlotInv(s) && JoinerCan(s)
    ensures SlotInv(JoinerDo(s)) && SameHistory(s, JoinerDo(s))
  {
    match s.joiner
    case Waiting => assert SlotInv(JoinerDo(s)) && SameHistory(s, JoinerDo(s));
    case Reaping => assert SlotInv(JoinerDo(s)) && SameHistory(s, JoinerDo(s));
    case GivingBack => assert SlotInv(JoinerDo(s)) && SameHistory(s, JoinerDo(s));
  }

  lemma DetachKeeps(s: Slot)
    requires SlotInv(s) && Known(s) && s.joinid.Nobody?
    ensures SlotInv(DetachDo(s)) && SameHistory(s, DetachDo(s))
  {
  }

  lemma CancelLandsKeeps(s: Slot)
    requires SlotInv(s) && s.cancelPending && (s.thread.Locking? || s.thread.Holding?)
    ensures var r := s.(thread := Finished); SlotInv(r) && SameHistory(s, r)
  {
  }

  lemma CancelKeeps(s: Slot)
    requires SlotInv(s) && Known(s)
    ensures var r := s.(cancelPending := true); SlotInv(r) && SameHistory(s, r)
  {
  }

  lemma KernelKeeps(s: Slot)
    requires SlotInv(s) && s.thread.Leaving?
    ensures var r := s.(thread := NoThread, tid := 0); SlotInv(r) && SameHistory(s, r)
  {
  }

  lemma JoinStartKeeps(s: Slot)
    requires SlotInv(s) && Known(s) && s.joinid.Nobody? && s.joiner.NoJoiner?
    ensures var r := s.(joinid := Waiter, joiner := Waiting); SlotInv(r) && SameHistory(s, r)
  {
  }

  lemma JoinGivesUpKeeps(s: Slot)
    requires SlotInv(s) && s.joiner.Waiting?
    ensures var r := s.(joinid := Nobody, joiner := NoJoiner); SlotInv(r) && SameHistory(s, r)
  {
  }

  lemma TrimKeeps(s: Slot)
    requires SlotInv(s) && s.place.Cached? && s.tid <= 0
    ensures var r := s.(place := Unmapped); SlotInv(r) && SameHistory(s, r)
  {
  }

  lemma SlotKeeps(s: Slot, e: Event)
    requires SlotInv(s) && SlotCan(s, e)
    ensures SlotInv(SlotDo(s, e)) && SameHistory(s, SlotDo(s, e))
  {
    hide SlotInv, SameHistory, ThreadDo, ThreadCan, JoinerDo, JoinerCan, DetachDo, Known;
    match e
    case ThreadStep(_) => ThreadKeeps(s, ThreadDo(s));
    case JoinStep(_) => JoinerKeeps(s);
    case Detach(_) => DetachKeeps(s);
    case CancelLands(_) => CancelLandsKeeps(s);
    case KernelClears(_) => KernelKeeps(s);
    case Cancel(_) => CancelKeeps(s);
    case JoinStart(_) => JoinStartKeeps(s);
    case JoinGivesUp(_) => JoinGivesUpKeeps(s);
    case Trim(_) => TrimKeeps(s);
  }

  /** Nothing else disturbs what a creator relies on. */
  lemma CreatorUndisturbed(c: Creator, s: Slot, e: Event)
    requires SlotInv(s) && SlotCan(s, e) && CreatorInv(c, s)
    ensures CreatorInv(c, SlotDo(s, e))
  {
    SlotKeeps(s, e);
    hide SlotDo, SlotCan, PlaceInv, FreeInv;
  }

  lemma HandOutKeeps(s: Slot)
    requires SlotInv(s) && !s.place.InUse? && s.tid <= 0
    ensures SlotInv(HandOut(s))
  {
  }

  lemma CreatorKeeps(c: Creator, ok: bool, tid: nat, s: Slot)
    requires SlotInv(s) && CreatorInv(c, s) && !c.pc.Returned? && !c.pc.GaveUp? && tid > 0
    ensures SlotInv(CreatorDo(c, ok, tid, s))
  {
  }

  lemma CreatorOnward(c: Creator, ok: bool, tid: nat, s: Slot)
    requires SlotInv(s) && CreatorInv(c, s) && !c.pc.Returned? && !c.pc.GaveUp? && tid > 0
    ensures CreatorInv(CreatorNext(c, ok), CreatorDo(c, ok, tid, s))
    ensures CreatorDo(c, ok, tid, s).gen == s.gen
  {
  }

  /** A creator's step leaves the creators of other generations of the block
      undisturbed. */
  lemma CreatorsApart(c: Creator, ok: bool, tid: nat, d: Creator, s: Slot)
    requires SlotInv(s) && CreatorInv(c, s) && CreatorInv(d, s) && c.gen != d.gen
    ensures CreatorInv(d, CreatorDo(c, ok, tid, s))
  {
  }

  lemma ZeroedKeeps(st: State, a: Addr)
    requires Inv(st) && (a in st.slots ==> st.slots[a].place.Unmapped?)
    ensures var s := Zeroed(st, a); SlotInv(s) && s.place.Unmapped? && s.tid == 0
    ensures a in st.slots ==> forall c: Creator :: CreatorInv(c, st.slots[a]) ==> CreatorInv(c, Zeroed(st, a))
  {
  }

  /** Creators of earlier generations have no claim on a block handed out anew. */
  lemma HandOutApart(d: Creator, s: Slot, c: Creator)
    requires SlotInv(s) && !s.place.InUse?
    requires c == Creator(c.slot, s.gen + 1, c.params, Preparing, false)
    ensures CreatorInv(c, HandOut(s))
    ensures CreatorInv(d, s) ==> CreatorInv(d, HandOut(s)) && d.gen != c.gen
  {
  }

  lemma HandedOut(st: State, a: Addr, c: nat, p: Params, s: Slot)
    requires Inv(st) && c !in st.creators
    requires SlotInv(s) && !s.place.InUse? && s.tid <= 0
    requires forall d :: d in st.creators && st.creators[d].slot == a ==> CreatorInv(st.creators[d], s)
    ensures Inv(State(st.slots[a := HandOut(s)],
                      st.creators[c := Creator(a, HandOut(s).gen, p, Preparing, false)]))
  {
    hide SlotInv, CreatorInv;
    HandOutKeeps(s);
    var cr := Creator(a, HandOut(s).gen, p, Preparing, false);
    HandOutApart(cr, s, cr);
    forall d | d in st.creators && st.creators[d].slot == a
      ensures CreatorInv(st.creators[d], HandOut(s)) && st.creators[d].gen != cr.gen
    {
      HandOutApart(st.creators[d], s, cr);
    }
  }

  lemma CreatorStepKept(st: State, c: nat, ok: bool, tid: nat)
    requires Inv(st) && Enabled(st, CreatorStep(c, ok, tid))
    ensures Inv(Apply(st, CreatorStep(c, ok, tid)))
  {
    hide SlotInv, CreatorInv, CreatorDo, CreatorNext;
    var st' := Apply(st, CreatorStep(c, ok, tid));
    var cr := st.creators[c];
    CreatorKeeps(cr, ok, tid, st.slots[cr.slot]);
    CreatorOnward(cr, ok, tid, st.slots[cr.slot]);
    forall d | d in st.creators && d != c && st.creators[d].slot == cr.slot
      ensures CreatorInv(st.creators[d], st'.slots[cr.slot])
    {
      CreatorsApart(cr, ok, tid, st.creators[d], st.slots[cr.slot]);
    }
    assert CreatorNext(cr, ok).slot == cr.slot && CreatorNext(cr, ok).gen == cr.gen by { SameTarget(cr, ok); }
  }

  lemma SlotStepKept(st: State, e: Event)
    requires Inv(st) && Enabled(st, e) && !e.CreatorStep? && !e.Map? && !e.Reuse?
    ensures Inv(Apply(st, e))
  {
    hide SlotInv, CreatorInv, SlotDo, SlotCan;
    var st' := Apply(st, e);
    SlotKeeps(st.slots[e.a], e);
    forall c | c in st.creators && st.creators[c].slot == e.a
      ensures CreatorInv(st.creators[c], st'.slots[e.a])
    {
      CreatorUndisturbed(st.creators[c], st.slots[e.a], e);
    }
  }

  lemma InvKept(st: State, e: Event)
    requires Inv(st) && Enabled(st, e)
    ensures Inv(Apply(st, e))
  {
    hide SlotInv, CreatorInv, CreatorDo, CreatorNext, SlotDo, SlotCan;
    match e {
      case CreatorStep(c, ok, tid) => CreatorStepKept(st, c, ok, tid);
      case Map(a, c, p) =>
        ZeroedKeeps(st, a);
        HandedOut(st, a, c, p, Zeroed(st, a));
      case Reuse(a, c, p) => HandedOut(st, a, c, p, st.slots[a]);
      case _ => SlotStepKept(st, e);
    }
  }

  lemma SameTarget(c: Creator, ok: bool)
    ensures CreatorNext(c, ok).slot == c.slot && CreatorNext(c, ok).gen == c.gen
  {
  }

  // ----- what holds of every run

  predicate Legal(st: State, es: seq<Event>)
    decreases |es|
  {
    es == [] || (Enabled(st, es[0]) && Legal(Apply(st, es[0]), es[1..]))
  }

  function Final(st: State, es: seq<Event>): State
    requires Legal(st, es)
    decreases |es|
  {
    if es == [] then st else Final(Apply(st, es[0]), es[1..])
  }

  /** Nobody will use the block as the thread it was given to: no thread runs on
      it, nobody joins it, and no creator will touch the descriptor. */
  ghost predicate Abandoned(st: State, a: Addr)
    requires a in st.slots
  {
    && !Alive(st.slots[a]) && st.slots[a].joiner.NoJoiner?
    && forall c :: c in st.creators && st.creators[c].slot == a ==> !Touches(st.creators[c])
  }

  /** The step is safe to take: a block is handed out or unmapped only when
      abandoned, a creator touches only the block it was given, and each block
      given back is in use, so that it is queued once. */
  ghost predicate SafeStep(st: State, e: Event)
    requires Enabled(st, e)
  {
    match e
    case Map(_, _, _) => true
    case Reuse(a, _, _) => Abandoned(st, a)
    case Trim(a) => Abandoned(st, a)
    case CreatorStep(c, ok, _) =>
      var cr := st.creators[c];
      var s := st.slots[cr.slot];
      && (Touches(cr) ==> s.place.InUse? && s.gen == cr.gen)
      && (cr.pc.Preparing? && !ok ==> !Alive(s) && s.joiner.NoJoiner?)
    case ThreadStep(a) => st.slots[a].thread.Queueing? ==> st.slots[a].place.InUse?
    case Detach(a) => st.slots[a].exiting && !st.slots[a].terminated ==> st.slots[a].place.InUse?
    case JoinStep(a) => st.slots[a].place.InUse?
    case CancelLands(a) => true
    case KernelClears(a) => true
    case Cancel(a) => true
    case JoinStart(a) => true
    case JoinGivesUp(a) => st.slots[a].place.InUse?
  }

  /** Every thread has its stack; user code does not run under the descriptor's lock,
      and a thread created detached is detached when it does; and no user code runs before its creator, if it
      stopped the thread, has applied what was asked for and let it go; user code
      never runs if that failed. */
  ghost predicate SafeState(st: State) {
    && (forall a :: a in st.slots && Alive(st.slots[a]) ==> !st.slots[a].place.Unmapped?)
    && (forall a :: a in st.slots && st.slots[a].thread.Running? ==> st.slots[a].lock.Open?)
    && forall c :: c in st.creators ==> var cr := st.creators[c];
         cr.slot in st.slots &&
         var s := st.slots[cr.slot];
         s.gen == cr.gen && s.userRan ==>
           && !cr.pc.GaveUp? && (cr.params.detached ==> s.joinid.Itself?)
           && (cr.params.affinity ==> s.affinitySet)
           && (cr.params.scheduling ==> s.schedulingSet)
           && (cr.params.affinity || cr.params.scheduling || cr.params.report ==> cr.pc.Returned? && s.released)
  }

  ghost predicate SafeThroughout(st: State, es: seq<Event>)
    requires Legal(st, es)
    decreases |es|
  {
    && SafeState(st)
    && (es != [] ==> SafeStep(st, es[0]) && SafeThroughout(Apply(st, es[0]), es[1..]))
  }

  lemma TouchMeansClaim(c: Creator, s: Slot)
    requires SlotInv(s) && CreatorInv(c, s) && Touches(c)
    ensures s.place.InUse? && s.gen == c.gen && s.making == c.pc
  {
  }

  lemma BlockAbandoned(st: State, a: Addr)
    requires Inv(st) && a in st.slots && st.slots[a].place.Cached? && st.slots[a].tid <= 0
    ensures Abandoned(st, a)
  {
    forall c | c in st.creators && st.creators[c].slot == a ensures !Touches(st.creators[c]) {
      if Touches(st.creators[c]) {
        TouchMeansClaim(st.creators[c], st.slots[a]);
      }
    }
  }

  lemma CreatorStepSafe(c: Creator, ok: bool, s: Slot)
    requires SlotInv(s) && CreatorInv(c, s)
    ensures Touches(c) ==> s.place.InUse? && s.gen == c.gen
    ensures c.pc.Preparing? && !ok ==> !Alive(s) && s.joiner.NoJoiner?
  {
    if Touches(c) {
      TouchMeansClaim(c, s);
    }
  }

  /** Whoever gives a block back, or joins it, finds it in use. */
  lemma GivenBackInUse(s: Slot)
    requires SlotInv(s)
    ensures s.thread.Queueing? ==> s.place.InUse?
    ensures !s.joiner.NoJoiner? ==> s.place.InUse?
    ensures Known(s) ==> s.place.InUse?
  {
  }

  lemma StepSafe(st: State, e: Event)
    requires Inv(st) && Enabled(st, e)
    ensures SafeStep(st, e)
  {
    hide SlotInv, CreatorInv, Touches, Alive;
    match e
    case Reuse(a, _, _) => BlockAbandoned(st, a);
    case Trim(a) => BlockAbandoned(st, a);
    case CreatorStep(c, ok, _) => CreatorStepSafe(st.creators[c], ok, st.slots[st.creators[c].slot]);
    case Map(_, _, _) =>
    case _ => GivenBackInUse(st.slots[e.a]);
  }

  lemma HandedOver(c: Creator, s: Slot)
    requires SlotInv(s) && CreatorInv(c, s) && s.gen == c.gen && s.userRan
    ensures !c.pc.GaveUp? && (c.params.affinity ==> s.affinitySet) && (c.params.scheduling ==> s.schedulingSet)
    ensures c.params.detached ==> s.joinid.Itself?
    ensures c.params.affinity || c.params.scheduling || c.params.report ==> c.pc.Returned? && s.released
  {
  }

  lemma StateSafe(st: State)
    requires Inv(st)
    ensures SafeState(st)
  {
    hide CreatorInv;
    forall c | c in st.creators && st.slots[st.creators[c].slot].gen == st.creators[c].gen
                && st.slots[st.creators[c].slot].userRan
      ensures var cr, s := st.creators[c], st.slots[st.creators[c].slot];
        && !cr.pc.GaveUp? && (cr.params.detached ==> s.joinid.Itself?)
        && (cr.params.affinity ==> s.affinitySet) && (cr.params.scheduling ==> s.schedulingSet)
        && (cr.params.affinity || cr.params.scheduling || cr.params.report ==> cr.pc.Returned? && s.released)
    {
      HandedOver(st.creators[c], st.slots[st.creators[c].slot]);
    }
  }

  /** Every interleaving of any number of creators, threads, joiners, detachers
      and trims, from a process without threads, is safe at every step. */
  lemma {:induction false} RunsAreSafe(st: State, es: seq<Event>)
    requires Inv(st) && Legal(st, es)
    ensures SafeThroughout(st, es) && Inv(Final(st, es))
    decreases |es|
  {
    hide SafeState, SafeStep, Inv, Enabled, Apply;
    StateSafe(st);
    if es != [] {
      StepSafe(st, es[0]);
      InvKept(st, es[0]);
      RunsAreSafe(Apply(st, es[0]), es[1..]);
    }
  }

  lemma SafeFromTheStart(es: seq<Event>)
    requires Legal(INITIAL, es)
    ensures SafeThroughout(INITIAL, es)
  {
    assert Inv(INITIAL);
    RunsAreSafe(INITIAL, es);
  }

  // ----- the user's code does run

  /** The last thing to be said of the block in these events: a cancellation landed
      on the thread it was last handed out to. */
  predicate Landed(es: seq<Event>, a: Addr)
    decreases |es|
  {
    es != [] &&
    match es[|es| - 1]
    case Map(b, _, _) => b != a && Landed(es[..|es| - 1], a)
    case Reuse(b, _, _) => b != a && Landed(es[..|es| - 1], a)
    case CancelLands(b) => b == a || Landed(es[..|es| - 1], a)
    case _ => Landed(es[..|es| - 1], a)
  }

  /** A thread on its way out has run the user's code, or has been cancelled. */
  predicate HasRun(s: Slot, landed: bool) {
    s.exiting || s.thread.Finished? || s.thread.Exiting? || s.thread.Freeing? || s.thread.Queueing? ==> s.userRan || landed
  }

  ghost predicate AllHaveRun(st: State, es: seq<Event>) {
    forall a :: a in st.slots ==> HasRun(st.slots[a], Landed(es, a))
  }

  lemma SlotHasRun(s: Slot, e: Event, landed: bool)
    requires SlotInv(s) && SlotCan(s, e) && HasRun(s, landed)
    ensures HasRun(SlotDo(s, e), landed || e.CancelLands?)
  {
    hide PlaceInv;
  }

  lemma CreatorHasRun(c: Creator, ok: bool, tid: nat, s: Slot, landed: bool)
    requires HasRun(s, landed)
    ensures HasRun(CreatorDo(c, ok, tid, s), landed)
  {
  }

  lemma HandOutHasRun(s: Slot, landed: bool)
    requires SlotInv(s) && !s.place.InUse? && s.tid <= 0
    ensures HasRun(HandOut(s), landed)
  {
  }

  lemma LandedMore(es: seq<Event>, e: Event, a: Addr)
    ensures Landed(es + [e], a) ==
      if (e.Map? || e.Reuse?) && e.a == a then false else Landed(es, a) || (e.CancelLands? && e.a == a)
  {
    assert (es + [e])[..|es|] == es;
  }

  lemma StepHasRun(st: State, es: seq<Event>, e: Event)
    requires Inv(st) && Enabled(st, e) && AllHaveRun(st, es)
    ensures AllHaveRun(Apply(st, e), es + [e])
  {
    hide Landed, SlotInv, CreatorInv, SlotCan, SlotDo, HasRun, CreatorDo, CreatorNext, HandOut, Zeroed;
    forall a | a in Apply(st, e).slots ensures HasRun(Apply(st, e).slots[a], Landed(es + [e], a)) {
      LandedMore(es, e, a);
      match e
      case Map(b, _, _) =>
        ZeroedKeeps(st, b);
        HandOutHasRun(Zeroed(st, b), false);
      case Reuse(b, _, _) => HandOutHasRun(st.slots[b], false);
      case CreatorStep(c, ok, tid) =>
        CreatorHasRun(st.creators[c], ok, tid, st.slots[st.creators[c].slot], Landed(es, st.creators[c].slot));
      case _ => SlotHasRun(st.slots[e.a], e, Landed(es, e.a));
    }
  }

  lemma LegalFront(st: State, es: seq<Event>)
    requires Legal(st, es) && es != []
    ensures Legal(st, es[..|es| - 1]) && Enabled(Final(st, es[..|es| - 1]), es[|es| - 1])
    ensures Final(st, es) == Apply(Final(st, es[..|es| - 1]), es[|es| - 1])
    decreases |es|
  {
    hide Enabled, Apply;
    if |es| > 1 {
      var rest := es[1..];
      LegalFront(Apply(st, es[0]), rest);
      assert rest[..|rest| - 1] == es[..|es| - 1][1..];
    }
  }

  lemma {:induction false} HaveRun(es: seq<Event>)
    requires Legal(INITIAL, es)
    ensures AllHaveRun(Final(INITIAL, es), es)
    decreases |es|
  {
    hide Enabled, Apply, Inv, AllHaveRun;
    if es == [] {
      assert AllHaveRun(INITIAL, []) by { NoneToRun(); }
    } else {
      var front := es[..|es| - 1];
      LegalFront(INITIAL, es);
      HaveRun(front);
      assert Inv(INITIAL) by { NothingYet(); }
      RunsAreSafe(INITIAL, front);
      StepHasRun(Final(INITIAL, front), front, es[|es| - 1]);
      assert front + [es[|es| - 1]] == es;
    }
  }

  lemma NothingYet()
    ensures Inv(INITIAL)
  {
  }

  lemma NoneToRun()
    ensures AllHaveRun(INITIAL, [])
  {
  }

  /** In every run from a process without threads, a thread that is exiting has run
      the user's code unless a cancellation landed on it. */
  lemma ExitingHasRun(es: seq<Event>, a: Addr)
    requires Legal(INITIAL, es) && a in Final(INITIAL, es).slots
    requires Final(INITIAL, es).slots[a].exiting && !Landed(es, a)
    ensures Final(INITIAL, es).slots[a].userRan
  {
    HaveRun(es);
  }

  function Times(e: Event, n: nat): seq<Event> {
    if n == 0 then [] else Times(e, n - 1) + [e]
  }

  predicate Stopped(p: Params) { p.affinity || p.scheduling || p.report }

  const IN_ORDER: seq<CreatorPc> :=
    [Preparing, Deciding, Cloning, SetAffinity, SetScheduling, Reporting, Unlocking, Returned]

  /** How far a creator whose every call succeeds has got after n steps. */
  predicate Stage(st: State, a: Addr, c: nat, gen: nat, p: Params, n: nat) {
    && c in st.creators && a in st.slots
    && n < 8 && st.creators[c] == Creator(a, gen, p, IN_ORDER[n], n >= 2 && Stopped(p))
    && var s := st.slots[a];
       && s.gen == gen && s.place.InUse? && !s.userRan
       && (n >= 2 ==> s.stoppedStart == Stopped(p))
       && (if 2 <= n < 7 && Stopped(p) then s.lock.ByCreator? else s.lock.Open?)
       && (n >= 3 ==> s.thread.Starting?)
       && (n >= 1 ==> s.joinid == if p.detached then Itself else Nobody) && s.joiner.NoJoiner?
       && !s.exiting && !s.terminated
       && (s.reported <==> n == 7)
  }

  lemma StageOn(st: State, a: Addr, c: nat, gen: nat, p: Params, n: nat, tid: nat)
    requires Stage(st, a, c, gen, p, n) && n < 7 && tid > 0
    ensures Enabled(st, CreatorStep(c, true, tid))
    ensures Stage(Apply(st, CreatorStep(c, true, tid)), a, c, gen, p, n + 1)
  {
  }

  lemma {:induction false} Stages(st: State, a: Addr, c: nat, gen: nat, p: Params, n: nat, tid: nat)
    requires Stage(st, a, c, gen, p, 0) && n < 8 && tid > 0
    ensures var es := Times(CreatorStep(c, true, tid), n); Legal(st, es) && Stage(Final(st, es), a, c, gen, p, n)
  {
    hide Stage, Enabled, Apply, Legal, Final;
    if n == 0 {
      Nothing(st);
    } else {
      Stages(st, a, c, gen, p, n - 1, tid);
      var es := Times(CreatorStep(c, true, tid), n - 1);
      StageOn(Final(st, es), a, c, gen, p, n - 1, tid);
      LegalThen(st, es, CreatorStep(c, true, tid));
    }
  }

  /** It runs user code on its stack, is reported, and detached if it was to be. */
  predicate Runs(st: State, a: Addr, p: Params) {
    a in st.slots &&
    var s := st.slots[a];
    && s.thread.Running? && s.userRan && s.reported && s.place.InUse?
    && s.joinid == (if p.detached then Itself else Nobody) && s.joiner.NoJoiner?
  }

  /** Whatever it was asked for and wherever the block comes from, a pthread_create
      whose every call succeeds reports the thread, and the thread gets to the
      user's code. */
  lemma CreatedThreadRuns(st: State, first: Event, a: Addr, c: nat, p: Params, tid: nat)
    requires Inv(st) && Enabled(st, first) && (first == Map(a, c, p) || first == Reuse(a, c, p)) && tid > 0
    ensures var es := [first] + Times(CreatorStep(c, true, tid), 7) + Times(ThreadStep(a), if Stopped(p) then 3 else 1);
      Legal(st, es) && Runs(Final(st, es), a, p)
  {
    hide Inv, Legal, Final;
    var t := Apply(st, first);
    HandedOutStage(st, first, a, c, p);
    hide Apply, Enabled, Stage, Stopped;
    var gen := t.creators[c].gen;
    var steps := Times(CreatorStep(c, true, tid), 7);
    Stages(t, a, c, gen, p, 7, tid);
    var es := [first] + steps;
    LegalFirst(st, first, steps);
    ThreadStages(Final(t, steps), a, c, gen, p);
    LegalOn(st, es, Times(ThreadStep(a), if Stopped(p) then 3 else 1));
  }

  lemma HandedOutStage(st: State, first: Event, a: Addr, c: nat, p: Params)
    requires Inv(st) && Enabled(st, first) && (first == Map(a, c, p) || first == Reuse(a, c, p))
    ensures c in Apply(st, first).creators && Stage(Apply(st, first), a, c, Apply(st, first).creators[c].gen, p, 0)
  {
  }

  lemma ThreadStages(st: State, a: Addr, c: nat, gen: nat, p: Params)
    requires Stage(st, a, c, gen, p, 7)
    ensures var es := Times(ThreadStep(a), if Stopped(p) then 3 else 1);
      Legal(st, es) && Runs(Final(st, es), a, p)
  {
    hide Legal, Final;
    var e := ThreadStep(a);
    assert Times(e, 0) == [] && Times(e, 1) == [] + [e];
    assert Times(e, 2) == Times(e, 1) + [e] && Times(e, 3) == Times(e, 2) + [e];
    Nothing(st);
    LegalThen(st, [], e);
    if Stopped(p) {
      LegalThen(st, [] + [e], e);
      LegalThen(st, [] + [e] + [e], e);
    }
  }

  /** The events lead to where the block's slot is s. */
  ghost predicate Leads(st: State, es: seq<Event>, a: Addr, s: Slot) {
    Legal(st, es) && a in Final(st, es).slots && Final(st, es).slots[a] == s
  }

  predicate Only(es: seq<Event>, allowed: set<Event>) { forall e :: e in es ==> e in allowed }

  lemma Further(st: State, es: seq<Event>, a: Addr, s: Slot, e: Event, allowed: set<Event>)
    returns (more: seq<Event>, next: Slot)
    requires Leads(st, es, a, s) && !e.CreatorStep? && !e.Map? && !e.Reuse? && e.a == a && SlotCan(s, e)
    requires Only(es, allowed) && e in allowed
    ensures Leads(st, more, a, next) && next == SlotDo(s, e) && Only(more, allowed)
  {
    hide Legal, Final, Enabled, Apply;
    SlotEvent(Final(st, es), e);
    LegalThen(st, es, e);
    more, next := es + [e], SlotDo(s, e);
  }

  lemma Here(st: State, a: Addr)
    requires a in st.slots
    ensures Leads(st, [], a, st.slots[a])
  {
  }

  lemma CodeEnds(st: State, es0: seq<Event>, a: Addr, s0: Slot, allowed: set<Event>) returns (es: seq<Event>, s: Slot)
    requires Leads(st, es0, a, s0) && Only(es0, allowed) && s0.thread.Running? && ThreadStep(a) in allowed
    ensures Leads(st, es, a, s) && Only(es, allowed) && s == s0.(thread := Exiting, exiting := true)
  {
    hide Leads, Only;
    es, s := Further(st, es0, a, s0, ThreadStep(a), allowed);
    es, s := Further(st, es, a, s, ThreadStep(a), allowed);
  }

  /** A running thread that is not detached goes away, once its code has ended. */
  lemma LeavesJoinable(st: State, es0: seq<Event>, a: Addr, s0: Slot, allowed: set<Event>)
    returns (es: seq<Event>, s: Slot)
    requires Leads(st, es0, a, s0) && Only(es0, allowed) && s0.thread.Running? && !s0.joinid.Itself?
    requires ThreadStep(a) in allowed && KernelClears(a) in allowed
    ensures Leads(st, es, a, s) && Only(es, allowed) && s == s0.(thread := NoThread, exiting := true, tid := 0)
  {
    hide Leads, Only;
    es, s := CodeEnds(st, es0, a, s0, allowed);
    es, s := Further(st, es, a, s, ThreadStep(a), allowed);
    es, s := Further(st, es, a, s, KernelClears(a), allowed);
  }

  lemma LeavesDetached(st: State, a: Addr, s0: Slot, allowed: set<Event>) returns (es: seq<Event>, s: Slot)
    requires Leads(st, [], a, s0) && s0.thread.Running? && s0.joinid.Itself? && !s0.terminated
    requires ThreadStep(a) in allowed
    ensures Leads(st, es, a, s) && Only(es, allowed)
    ensures s == s0.(thread := Leaving, exiting := true, terminated := true, place := Cached)
  {
    assert Only([], allowed);
    hide Leads, Only;
    es, s := CodeEnds(st, [], a, s0, allowed);
    es, s := Further(st, es, a, s, ThreadStep(a), allowed);
    es, s := Further(st, es, a, s, ThreadStep(a), allowed);
    es, s := Further(st, es, a, s, ThreadStep(a), allowed);
  }

  lemma RunningSlot(st: State, a: Addr)
    requires Inv(st) && a in st.slots && st.slots[a].thread.Running? && st.slots[a].place.InUse?
    ensures !st.slots[a].terminated && !st.slots[a].exiting && (st.slots[a].joinid.Nobody? ==> st.slots[a].joiner.NoJoiner?)
  {
    assert SlotInv(st.slots[a]);
  }

  /** A detached thread that runs user code can end by itself, and its stack is then
      free for the next thread. */
  lemma DetachedEnds(st: State, a: Addr)
    requires Inv(st) && a in st.slots && st.slots[a].thread.Running? && st.slots[a].place.InUse?
    requires st.slots[a].joinid.Itself?
    ensures exists es: seq<Event>, s: Slot ::
      Leads(st, es, a, s) && s.place.Cached? && s.tid == 0 && Only(es, {ThreadStep(a), KernelClears(a)})
  {
    RunningSlot(st, a);
    Here(st, a);
    hide Inv, Leads, Only;
    var allowed := {ThreadStep(a), KernelClears(a)};
    var es, s := LeavesDetached(st, a, st.slots[a], allowed);
    es, s := Further(st, es, a, s, KernelClears(a), allowed);
  }

  /** A joiner may come while the thread still runs: it waits for the thread to end,
      and then gives the stack back. */
  lemma JoinedWhileRunning(st: State, a: Addr)
    requires Inv(st) && a in st.slots && st.slots[a].thread.Running? && Known(st.slots[a])
    requires st.slots[a].joinid.Nobody?
    ensures Enabled(st, JoinStart(a))
    ensures exists es: seq<Event>, s: Slot ::
      && Leads(Apply(st, JoinStart(a)), es, a, s) && s.place.Cached? && s.tid == -1
      && Only(es, {ThreadStep(a), KernelClears(a), JoinStep(a)})
  {
    RunningSlot(st, a);
    var joining := Apply(st, JoinStart(a));
    Here(joining, a);
    var allowed := {ThreadStep(a), KernelClears(a), JoinStep(a)};
    assert Only([], allowed);
    hide Inv, Leads, Only;
    var es, s := LeavesJoinable(joining, [], a, joining.slots[a], allowed);
    es, s := Further(joining, es, a, s, JoinStep(a), allowed);
    es, s := Further(joining, es, a, s, JoinStep(a), allowed);
    es, s := Further(joining, es, a, s, JoinStep(a), allowed);
  }

  // ----- who gives a stack back

  /** A joinable thread that has ended, and that nobody has joined. */
  predicate Unclaimed(st: State, a: Addr) {
    a in st.slots &&
    var s := st.slots[a];
    s.place.InUse? && !Alive(s) && s.joinid.Nobody? && s.joiner.NoJoiner? && s.making.Returned?
  }

  /** Its stack stays in use in every run in which nobody joins or detaches it. */
  lemma {:induction false} LeakedUnlessJoined(st: State, a: Addr, es: seq<Event>)
    requires Inv(st) && Unclaimed(st, a) && Legal(st, es)
    requires JoinStart(a) !in es && Detach(a) !in es
    ensures Unclaimed(Final(st, es), a)
    decreases |es|
  {
    if es != [] {
      UnclaimedKept(st, a, es[0]);
      InvKept(st, es[0]);
      hide Inv, Enabled, Apply, Unclaimed;
      LeakedUnlessJoined(Apply(st, es[0]), a, es[1..]);
    }
  }

  lemma UnclaimedKept(st: State, a: Addr, e: Event)
    requires Inv(st) && Unclaimed(st, a) && Enabled(st, e) && e != JoinStart(a) && e != Detach(a)
    ensures Unclaimed(Apply(st, e), a)
  {
    if e.CreatorStep? && st.creators[e.c].slot == a {
      var cr := st.creators[e.c];
      if Touches(cr) {
        TouchMeansClaim(cr, st.slots[a]);
      }
    }
  }

  /** A joinable thread that was cloned, but whose attributes could not be set:
      pthread_create has failed, so nobody can know the thread. */
  predicate SetupLost(st: State, a: Addr) {
    a in st.slots &&
    var s := st.slots[a];
    && s.place.InUse? && s.setupFailed && s.making.Returned? && !s.userRan && !s.reported
    && s.joinid.Nobody? && s.joiner.NoJoiner?
  }

  /** Its stack stays in use in every run whatsoever. */
  lemma {:induction false} SetupFailureLeaks(st: State, a: Addr, es: seq<Event>)
    requires Inv(st) && SetupLost(st, a) && Legal(st, es)
    ensures SetupLost(Final(st, es), a)
    decreases |es|
  {
    if es != [] {
      SetupLostKept(st, a, es[0]);
      InvKept(st, es[0]);
      hide Inv, Enabled, Apply, SetupLost;
      SetupFailureLeaks(Apply(st, es[0]), a, es[1..]);
    }
  }

  lemma SetupLostKept(st: State, a: Addr, e: Event)
    requires Inv(st) && SetupLost(st, a) && Enabled(st, e)
    ensures SetupLost(Apply(st, e), a)
  {
    assert SlotInv(st.slots[a]);
    if e.CreatorStep? && st.creators[e.c].slot == a {
      var cr := st.creators[e.c];
      if Touches(cr) {
        TouchMeansClaim(cr, st.slots[a]);
      }
    }
  }

  lemma LegalFirst(st: State, e: Event, es: seq<Event>)
    requires Enabled(st, e) && Legal(Apply(st, e), es)
    ensures Legal(st, [e] + es) && Final(st, [e] + es) == Final(Apply(st, e), es)
  {
    assert ([e] + es)[0] == e && ([e] + es)[1..] == es;
  }

  lemma {:induction false} LegalOn(st: State, es: seq<Event>, more: seq<Event>)
    requires Legal(st, es) && Legal(Final(st, es), more)
    ensures Legal(st, es + more) && Final(st, es + more) == Final(Final(st, es), more)
    decreases |es|
  {
    hide Enabled, Apply;
    if es == [] {
      assert es + more == more;
    } else {
      LegalOn(Apply(st, es[0]), es[1..], more);
      assert es + more == [es[0]] + (es[1..] + more);
      LegalFirst(st, es[0], es[1..] + more);
    }
  }

  lemma LegalThen(st: State, es: seq<Event>, e: Event)
    requires Legal(st, es) && Enabled(Final(st, es), e)
    ensures Legal(st, es + [e]) && Final(st, es + [e]) == Apply(Final(st, es), e)
  {
    hide Enabled, Apply;
    LegalFirst(Final(st, es), e, []);
    assert [e] + [] == [e];
    LegalOn(st, es, [e]);
  }

  /** From no threads to a new one, cloned and waiting for its creator. */
  function StartedStopped(a: Addr, c: nat, p: Params, tid: nat): seq<Event> {
    [] + [Map(a, c, p)] + [CreatorStep(c, true, tid)] + [CreatorStep(c, true, tid)] + [CreatorStep(c, true, tid)]
  }

  /** And on to the refusal of the first attribute asked for. */
  function RefusedSetup(a: Addr, c: nat, p: Params, tid: nat): seq<Event> {
    StartedStopped(a, c, p, tid)
    + [CreatorStep(c, !p.affinity, tid)] + (if p.affinity then [] else [CreatorStep(c, false, tid)])
  }

  predicate Cloned(st: State, a: Addr, c: nat, p: Params) {
    && c in st.creators && st.creators[c] == Creator(a, 1, p, SetAffinity, true)
    && a in st.slots
    && var s := st.slots[a];
       && s.gen == 1 && s.place.InUse? && s.making.SetAffinity? && s.thread.Starting? && s.stoppedStart
       && !s.userRan && !s.reported && s.joinid.Nobody? && s.joiner.NoJoiner?
  }

  lemma ClonedReached(a: Addr, c: nat, p: Params, tid: nat)
    requires !p.detached && (p.affinity || p.scheduling) && tid > 0
    ensures var es := StartedStopped(a, c, p, tid); Legal(INITIAL, es) && Cloned(Final(INITIAL, es), a, c, p)
  {
    hide Legal, Final;
    var e := CreatorStep(c, true, tid);
    Nothing(INITIAL);
    LegalThen(INITIAL, [], Map(a, c, p));
    LegalThen(INITIAL, [] + [Map(a, c, p)], e);
    LegalThen(INITIAL, [] + [Map(a, c, p)] + [e], e);
    LegalThen(INITIAL, [] + [Map(a, c, p)] + [e] + [e], e);
  }

  predicate Refused(st: State, a: Addr) {
    && SetupLost(st, a)
    && var s := st.slots[a];
       s.thread.Starting? && s.stoppedStart && s.cancelPending
  }

  /** Such a thread comes about from nothing, whenever an affinity or scheduling
      request is refused. */
  lemma SetupLostReached(a: Addr, c: nat, p: Params, tid: nat)
    requires !p.detached && (p.affinity || p.scheduling) && tid > 0
    ensures var es := RefusedSetup(a, c, p, tid); Legal(INITIAL, es) && Refused(Final(INITIAL, es), a)
  {
    hide Legal, Final, StartedStopped;
    ClonedReached(a, c, p, tid);
    var es, setting := StartedStopped(a, c, p, tid), CreatorStep(c, !p.affinity, tid);
    LegalThen(INITIAL, es, setting);
    if p.affinity {
      assert es + [setting] + [] == es + [setting];
    } else {
      LegalThen(INITIAL, es + [setting], CreatorStep(c, false, tid));
    }
  }

  lemma Nothing(st: State)
    ensures Legal(st, []) && Final(st, []) == st
  {
  }

  /** Then it dies, and the stack is still in use. */
  lemma SetupLostDies(st: State, a: Addr)
    requires Inv(st) && Refused(st, a)
    ensures var es := [] + [ThreadStep(a)] + [CancelLands(a)] + [ThreadStep(a)] + [ThreadStep(a)] + [KernelClears(a)];
      Legal(st, es) && SetupLost(Final(st, es), a) && !Alive(Final(st, es).slots[a])
  {
    hide Legal, Final, Inv;
    Nothing(st);
    var es: seq<Event> := [];
    LegalThen(st, es, ThreadStep(a));
    LegalThen(st, es + [ThreadStep(a)], CancelLands(a));
    LegalThen(st, es + [ThreadStep(a)] + [CancelLands(a)], ThreadStep(a));
    LegalThen(st, es + [ThreadStep(a)] + [CancelLands(a)] + [ThreadStep(a)], ThreadStep(a));
    LegalThen(st, es + [ThreadStep(a)] + [CancelLands(a)] + [ThreadStep(a)] + [ThreadStep(a)], KernelClears(a));
  }

  function Joining(a: Addr): seq<Event> {
    [] + [JoinStart(a)] + [JoinStep(a)] + [JoinStep(a)] + [JoinStep(a)]
  }

  /** Joining it, when somebody may know the thread, puts the stack in the cache,
      free for the next thread. */
  lemma JoinedGivesBack(st: State, a: Addr)
    requires Inv(st) && Unclaimed(st, a) && Known(st.slots[a])
    ensures Legal(st, Joining(a))
    ensures var s := Final(st, Joining(a)).slots; a in s && s[a].place.Cached? && s[a].tid == -1
    ensures forall c: nat, p: Params :: c !in Final(st, Joining(a)).creators ==>
              Enabled(Final(st, Joining(a)), Reuse(a, c, p))
  {
    assert SlotInv(st.slots[a]);
    hide Inv;
    JoinSteps(st, a);
  }

  lemma JoinSteps(st: State, a: Addr)
    requires a in st.slots
    requires var s := st.slots[a];
      Known(s) && s.joinid.Nobody? && s.joiner.NoJoiner? && s.tid == 0 && !s.terminated
    ensures Legal(st, Joining(a))
    ensures var s := Final(st, Joining(a)).slots; a in s && s[a].place.Cached? && s[a].tid == -1
  {
    hide Legal, Final, Enabled, Apply;
    var es: seq<Event>, s := [], st;
    Nothing(st);
    SlotEvent(s, JoinStart(a));
    LegalThen(st, es, JoinStart(a));
    es, s := es + [JoinStart(a)], Apply(s, JoinStart(a));
    SlotEvent(s, JoinStep(a));
    LegalThen(st, es, JoinStep(a));
    es, s := es + [JoinStep(a)], Apply(s, JoinStep(a));
    SlotEvent(s, JoinStep(a));
    LegalThen(st, es, JoinStep(a));
    es, s := es + [JoinStep(a)], Apply(s, JoinStep(a));
    SlotEvent(s, JoinStep(a));
    LegalThen(st, es, JoinStep(a));
  }

  lemma SlotEvent(st: State, e: Event)
    requires !e.CreatorStep? && !e.Map? && !e.Reuse? && e.a in st.slots && SlotCan(st.slots[e.a], e)
    ensures Enabled(st, e) && Apply(st, e) == st.(slots := st.slots[e.a := SlotDo(st.slots[e.a], e)])
  {
  }

  /** So does detaching it. */
  lemma DetachedGivesBack(st: State, a: Addr)
    requires Inv(st) && Unclaimed(st, a) && Known(st.slots[a])
    ensures Enabled(st, Detach(a)) && a in Apply(st, Detach(a)).slots
    ensures Apply(st, Detach(a)).slots[a].place.Cached?
  {
    assert SlotInv(st.slots[a]);
  }
}
