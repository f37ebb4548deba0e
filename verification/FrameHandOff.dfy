/** One shared-memory slot, a semaphore and a leading int that says whether the
    slot is taken: one producer, any number of consumers. */
module FrameHandOff {

  /** Between calls, or in SendSharedFrame having seen a zero leading int:
      before the first copy, between the two, or about to post. */
  datatype Producer =
    | Ready
    | Starting(extra: seq<int>, data: seq<int>)
    | Halfway(extra: seq<int>, data: seq<int>)
    | Posting(extra: seq<int>, data: seq<int>)

  /** Waiting on the semaphore, past it, or with the first words of the slot
      copied and the slot in use. */
  datatype Consumer = Waiting | Attached | Using(frame: seq<int>)

  datatype State = State(slot: seq<int>, value: int, producer: Producer, consumers: seq<Consumer>,
                         sent: seq<seq<int>>, received: seq<seq<int>>)

  datatype Event =
    | Send(extra: seq<int>, data: seq<int>) | Copy | Post(ok: bool)
    | Take(c: nat) | Read(c: nat, len: nat) | Release(c: nat)

  /** memcpy of words into the slot. */
  function Put(slot: seq<int>, at: nat, words: seq<int>): (r: seq<int>)
    requires at + |words| <= |slot|
    ensures |r| == |slot|
  {
    slot[..at] + words + slot[at + |words|..]
  }

  predicate Fits(s: State, extra: seq<int>, data: seq<int>) {
    |extra| + |data| <= |s.slot|
  }

  /** The frame's leading int is not zero. */
  predicate Leads(extra: seq<int>, data: seq<int>) {
    extra + data != [] && (extra + data)[0] != 0
  }

  predicate Holding(c: Consumer) { !c.Waiting? }

  function Holders(cs: seq<Consumer>): nat {
    if cs == [] then 0 else Holders(cs[..|cs| - 1]) + if Holding(cs[|cs| - 1]) then 1 else 0
  }

  ghost predicate Init(s: State) {
    && s.slot != [] && s.slot[0] == 0 && s.value == 0 && s.producer == Ready
    && (forall c :: c in s.consumers ==> c.Waiting?) && s.sent == [] && s.received == []
  }

  /** The steps. A post that fails is reported as success by SendSharedFrame. */
  ghost predicate Step(s: State, e: Event, s': State) {
    match e
    case Send(extra, data) =>
      && s.producer == Ready && s.slot != [] && Fits(s, extra, data)
      && s' == if s.slot[0] == 0 then s.(producer := Starting(extra, data)) else s
    case Copy =>
      (match s.producer
       case Starting(extra, data) =>
         Fits(s, extra, data) && s' == s.(slot := Put(s.slot, 0, extra), producer := Halfway(extra, data))
       case Halfway(extra, data) =>
         Fits(s, extra, data) && s' == s.(slot := Put(s.slot, |extra|, data), producer := Posting(extra, data))
       case Ready => false
       case Posting(_, _) => false)
    case Post(ok) =>
      && s.producer.Posting?
      && s' == s.(value := if ok then s.value + 1 else s.value, producer := Ready, sent := s.sent + [s.slot])
    case Take(c) =>
      && c < |s.consumers| && s.consumers[c].Waiting? && s.value > 0
      && s' == s.(value := s.value - 1, consumers := s.consumers[c := Attached])
    case Read(c, len) =>
      && c < |s.consumers| && s.consumers[c].Attached? && len <= |s.slot|
      && s' == s.(consumers := s.consumers[c := Using(s.slot[..len])], received := s.received + [s.slot])
    case Release(c) =>
      && c < |s.consumers| && s.consumers[c].Using? && s.slot != []
      && s' == s.(slot := s.slot[0 := 0], consumers := s.consumers[c := Waiting])
  }

  // ----- the invariant -----

  /** How far a frame is on its way to the consumers. */
  ghost predicate Inv(s: State) {
    && s.slot != [] && s.value >= 0
    && s.value + Holders(s.consumers) <= 1
    && (s.producer == Ready || s.value + Holders(s.consumers) == 0)
    && (s.producer != Ready ==> (s.sent == s.received && Fits(s, s.producer.extra, s.producer.data) && Written(s)))
    && (s.producer == Ready && s.value + Holders(s.consumers) == 1 ==> s.slot[0] != 0)
    && (s.producer == Ready && s.slot[0] == 0 ==> s.sent == s.received)
    && (s.producer == Ready && s.slot[0] != 0 ==> Pending(s))
    && forall c: nat :: c < |s.consumers| && s.consumers[c].Using? ==> s.consumers[c].frame <= s.slot
  }

  ghost predicate Written(s: State)
    requires s.producer != Ready && s.slot != []
  {
    var extra, data := s.producer.extra, s.producer.data;
    && (s.producer.Halfway? ==> extra <= s.slot)
    && (s.producer.Posting? ==> extra + data <= s.slot)
    && Leads(extra, data)
  }

  /** The slot holds the last frame sent: read already by the one holder that
      uses it, or still to be received. */
  ghost predicate Pending(s: State) {
    if exists c: nat :: c < |s.consumers| && s.consumers[c].Using?
    then s.sent == s.received && s.sent != [] && s.sent[|s.sent| - 1] == s.slot
    else s.sent == s.received + [s.slot]
  }

  lemma {:induction false} HoldersAt(cs: seq<Consumer>, t: nat, c: Consumer)
    requires t < |cs|
    ensures Holders(cs[t := c]) == Holders(cs) - (if Holding(cs[t]) then 1 else 0) + (if Holding(c) then 1 else 0)
  {
    var n := |cs| - 1;
    if t < n {
      HoldersAt(cs[..n], t, c);
      assert cs[t := c][..n] == cs[..n][t := c];
    } else {
      assert cs[t := c][..n] == cs[..n];
    }
  }

  /** Of one holder at most, every other consumer waits. */
  lemma {:induction false} OneHolder(cs: seq<Consumer>, t: nat)
    requires t < |cs| && Holding(cs[t])
    ensures Holders(cs) >= 1
    ensures Holders(cs) <= 1 ==> forall j: nat :: j < |cs| && j != t ==> cs[j].Waiting?
  {
    var n := |cs| - 1;
    if t < n {
      OneHolder(cs[..n], t);
      assert forall j: nat :: j < n ==> cs[..n][j] == cs[j];
    } else {
      forall j: nat | j < n && Holding(cs[j]) ensures Holders(cs[..n]) >= 1 {
        assert cs[..n][j] == cs[j];
        OneHolder(cs[..n], j);
      }
    }
  }

  lemma {:induction false} NoHolder(cs: seq<Consumer>)
    requires forall c :: c in cs ==> c.Waiting?
    ensures Holders(cs) == 0
  {
    if cs != [] {
      NoHolder(cs[..|cs| - 1]);
    }
  }

  lemma AllWaiting(cs: seq<Consumer>)
    requires Holders(cs) == 0
    ensures forall j: nat :: j < |cs| ==> cs[j].Waiting?
  {
    forall j: nat | j < |cs| ensures cs[j].Waiting? {
      if Holding(cs[j]) {
        OneHolder(cs, j);
      }
    }
  }

  lemma ProducerKept(s: State, e: Event, s': State)
    requires Inv(s) && Step(s, e, s') && ((e.Send? && Leads(e.extra, e.data)) || e.Post?)
    ensures Inv(s')
  {
    if s.value + Holders(s.consumers) == 0 {
      hide Step;
      AllWaiting(s.consumers);
    }
    if e.Post? {
      assert s.slot[0] == (s.producer.extra + s.producer.data)[0];
    }
  }

  lemma CopyKept(s: State, s': State)
    requires Inv(s) && Step(s, Copy, s')
    ensures Inv(s')
  {
    AllWaiting(s.consumers);
    if s.producer.Starting? {
      assert s.producer.extra <= s'.slot;
    } else {
      assert s.producer.extra + s.producer.data <= s'.slot;
    }
  }

  lemma TakeKept(s: State, c: nat, s': State)
    requires Inv(s) && Step(s, Take(c), s')
    ensures Inv(s')
  {
    hide Holders;
    HoldersAt(s.consumers, c, Attached);
    AllWaiting(s.consumers);
  }

  lemma ReadKept(s: State, c: nat, len: nat, s': State)
    requires Inv(s) && Step(s, Read(c, len), s')
    ensures Inv(s')
  {
    hide Holders;
    HoldersAt(s.consumers, c, Using(s.slot[..len]));
    OneHolder(s.consumers, c);
    assert s'.consumers[c].Using?;
  }

  lemma ReleaseKept(s: State, c: nat, s': State)
    requires Inv(s) && Step(s, Release(c), s')
    ensures Inv(s')
  {
    hide Holders;
    HoldersAt(s.consumers, c, Waiting);
    OneHolder(s.consumers, c);
  }

  /** Every step keeps the invariant, as long as each frame sent leads with a
      non-zero int. */
  lemma InvKept(s: State, e: Event, s': State)
    requires Inv(s) && Step(s, e, s') && (e.Send? ==> Leads(e.extra, e.data))
    ensures Inv(s')
  {
    hide Inv, Step;
    match e
    case Send(_, _) => ProducerKept(s, e, s');
    case Post(_) => ProducerKept(s, e, s');
    case Copy => CopyKept(s, s');
    case Take(c) => TakeKept(s, c, s');
    case Read(c, len) => ReadKept(s, c, len, s');
    case Release(c) => ReleaseKept(s, c, s');
  }

  // ----- over whole runs -----

  ghost predicate Run(run: seq<State>, es: seq<Event>) {
    && |run| == |es| + 1 && Init(run[0])
    && forall i: nat :: i < |es| ==> Step(run[i], es[i], run[i + 1])
  }

  ghost predicate AllLead(es: seq<Event>) {
    forall i: nat :: i < |es| && es[i].Send? ==> Leads(es[i].extra, es[i].data)
  }

  lemma InitInv(s: State)
    requires Init(s)
    ensures Inv(s)
  {
    NoHolder(s.consumers);
    AllWaiting(s.consumers);
  }

  lemma {:induction false} RunInv(run: seq<State>, es: seq<Event>, i: nat)
    requires Run(run, es) && AllLead(es) && i < |run|
    ensures Inv(run[i])
  {
    if i == 0 {
      InitInv(run[0]);
    } else {
      RunInv(run, es, i - 1);
      InvKept(run[i - 1], es[i - 1], run[i]);
    }
  }

  /** The semaphore and the consumers holding a frame never add up to more than one. */
  lemma OneFrameOut(run: seq<State>, es: seq<Event>, i: nat)
    requires Run(run, es) && AllLead(es) && i < |run|
    ensures 0 <= run[i].value && run[i].value + Holders(run[i].consumers) <= 1
  {
    RunInv(run, es, i);
  }

  /** From its post to its release a frame stays as it is in the slot; the
      release itself clears the leading int alone. */
  lemma NotOverwritten(run: seq<State>, es: seq<Event>, i: nat)
    requires Run(run, es) && AllLead(es) && i < |es|
    requires run[i].value + Holders(run[i].consumers) > 0
    ensures run[i + 1].slot == if es[i].Release? then run[i].slot[0 := 0] else run[i].slot
    ensures !es[i].Post?
  {
    RunInv(run, es, i);
  }

  /** What is sent is the whole of the frame given; what a consumer copies is as
      much of the slot as it asked for, and stays so while it uses the slot. */
  lemma WholeFrames(run: seq<State>, es: seq<Event>, i: nat)
    requires Run(run, es) && AllLead(es) && i < |es|
    ensures es[i].Post? ==> (
      var now := run[i + 1].sent;
      now == run[i].sent + [run[i].slot] && run[i].producer.extra + run[i].producer.data <= run[i].slot)
    ensures es[i].Read? ==> (
      var frame := run[i + 1].consumers[es[i].c].frame;
      frame == run[i].slot[..es[i].len] && run[i].sent == run[i].received + [run[i].slot])
    ensures forall c: nat :: c < |run[i].consumers| && run[i].consumers[c].Using? ==>
              run[i].consumers[c].frame <= run[i].slot
  {
    RunInv(run, es, i);
    if es[i].Read? {
      assert Step(run[i], es[i], run[i + 1]);
      OneHolder(run[i].consumers, es[i].c);
    }
  }

  /** The frames received are those sent, in order and once each, up to one
      still on its way. */
  lemma ReceivedAsSent(run: seq<State>, es: seq<Event>, i: nat)
    requires Run(run, es) && AllLead(es) && i < |run|
    ensures run[i].received <= run[i].sent && |run[i].sent| <= |run[i].received| + 1
  {
    RunInv(run, es, i);
  }

  /** A consumer's whole turn. */
  ghost predicate Turn(s: State, c: nat, len: nat, taken: State, copied: State, freed: State) {
    Step(s, Take(c), taken) && Step(taken, Read(c, len), copied) && Step(copied, Release(c), freed)
  }

  /** A frame that was posted can be received: in every run, at any moment with
      the semaphore at one, any waiting consumer can take its turn.  It copies as
      much of the posted frame as it asks for, and leaves everything sent received,
      the slot free and itself waiting again. */
  lemma Receivable(run: seq<State>, es: seq<Event>, i: nat, c: nat, len: nat)
    requires Run(run, es) && AllLead(es) && i < |run| && run[i].value > 0
    requires c < |run[i].consumers| && run[i].consumers[c].Waiting? && len <= |run[i].slot|
    ensures exists taken: State, copied: State, freed: State ::
      && Turn(run[i], c, len, taken, copied, freed)
      && c < |copied.consumers| && copied.consumers[c] == Using(run[i].slot[..len])
      && freed.received == run[i].received + [run[i].slot] == freed.sent
      && freed.slot == run[i].slot[0 := 0] && freed.value == 0 && freed.consumers == run[i].consumers
  {
    RunInv(run, es, i);
    var s := run[i];
    NoUser(s);
    var taken := s.(value := s.value - 1, consumers := s.consumers[c := Attached]);
    var copied := taken.(consumers := taken.consumers[c := Using(s.slot[..len])], received := s.received + [s.slot]);
    var freed := copied.(slot := s.slot[0 := 0], consumers := copied.consumers[c := Waiting]);
    assert freed.consumers == s.consumers;
    assert Turn(s, c, len, taken, copied, freed);
  }

  lemma NoUser(s: State)
    requires Inv(s) && s.value > 0
    ensures s.value == 1 && s.slot != [] && s.sent == s.received + [s.slot]
  {
    AllWaiting(s.consumers);
  }

  /** A frame can be sent whenever the slot is free: the producer's four steps post
      it, and what is posted begins with it. */
  lemma Sendable(run: seq<State>, es: seq<Event>, i: nat, extra: seq<int>, data: seq<int>)
    requires Run(run, es) && AllLead(es) && i < |run| && run[i].producer == Ready
    requires run[i].slot != [] && run[i].slot[0] == 0
    requires Leads(extra, data) && Fits(run[i], extra, data)
    ensures exists a: State, b: State, c: State, d: State ::
      && Step(run[i], Send(extra, data), a) && Step(a, Copy, b) && Step(b, Copy, c) && Step(c, Post(true), d)
      && extra + data <= d.slot && |d.slot| == |run[i].slot| && d.value == 1 && d.producer == Ready
      && d.sent == run[i].received + [d.slot] && d.received == run[i].received
  {
    RunInv(run, es, i);
    var s := run[i];
    var half := Put(s.slot, 0, extra);
    var full := Put(half, |extra|, data);
    assert full == extra + data + s.slot[|extra| + |data|..];
    var a := s.(producer := Starting(extra, data));
    var b := a.(slot := half, producer := Halfway(extra, data));
    var c := b.(slot := full, producer := Posting(extra, data));
    var d := c.(value := s.value + 1, producer := Ready, sent := s.sent + [full]);
    assert Step(s, Send(extra, data), a) && Step(a, Copy, b) && Step(b, Copy, c) && Step(c, Post(true), d);
  }

  /** A frame whose post failed is never received, and no frame is sent after it:
      the slot stays taken in every run. */
  lemma {:induction false} LostPost(run: seq<State>, es: seq<Event>, i: nat, j: nat)
    requires Run(run, es) && AllLead(es) && i < |es| && es[i] == Post(false) && i < j < |run|
    ensures Blocked(run[j]) && run[j].sent == run[i].sent + [run[i].slot] && run[j].received == run[i].sent
  {
    assert Step(run[j - 1], es[j - 1], run[j]);
    if j == i + 1 {
      RunInv(run, es, i);
      RunInv(run, es, j);
      AllWaiting(run[i].consumers);
    } else {
      LostPost(run, es, i, j - 1);
      BlockedKept(run[j - 1], es[j - 1], run[j]);
    }
  }

  /** The slot is taken and nobody will be told. */
  ghost predicate Blocked(s: State) {
    && s.producer == Ready && s.slot != [] && s.slot[0] != 0 && s.value == 0
    && forall c: nat :: c < |s.consumers| ==> s.consumers[c].Waiting?
  }

  lemma BlockedKept(s: State, e: Event, s': State)
    requires Blocked(s) && Step(s, e, s')
    ensures s' == s
  {
  }

  function Sender(slot: seq<int>, value: int, producer: Producer, sent: seq<seq<int>>): State {
    State(slot, value, producer, [], sent, [])
  }

  lemma SendsZero(slot: seq<int>, value: int, sent: seq<seq<int>>, extra: seq<int>, data: seq<int>)
    returns (half: seq<int>, full: seq<int>)
    requires slot != [] && slot[0] == 0 && |extra| + |data| <= |slot| && !Leads(extra, data)
    ensures |full| == |slot| && full[0] == 0
    ensures Step(Sender(slot, value, Ready, sent), Send(extra, data), Sender(slot, value, Starting(extra, data), sent))
    ensures Step(Sender(slot, value, Starting(extra, data), sent), Copy, Sender(half, value, Halfway(extra, data), sent))
    ensures Step(Sender(half, value, Halfway(extra, data), sent), Copy, Sender(full, value, Posting(extra, data), sent))
    ensures Step(Sender(full, value, Posting(extra, data), sent), Post(true),
                 Sender(full, value + 1, Ready, sent + [full]))
  {
    half := Put(slot, 0, extra);
    full := Put(half, |extra|, data);
    assert full == extra + data + slot[|extra| + |data|..];
  }

  /** The run starts with this slot, sends only this frame, and overwrites it: a
      frame is posted and not yet received when the next one is copied over it
      and posted too, so that the semaphore counts two for the one slot. */
  ghost predicate Overwrites(run: seq<State>, es: seq<Event>, slot: seq<int>, extra: seq<int>, data: seq<int>) {
    && Run(run, es) && |run| == 9 && run[0].slot == slot && SendsOnly(es, extra, data)
    && es[3] == Post(true) && run[4].value == 1 && run[4].sent == [run[4].slot]
    && es[4].Send? && es[5].Copy? && es[6].Copy? && es[7] == Post(true)
    && run[8].value == 2 && run[8].received == [] && |run[8].sent| == 2
  }

  ghost predicate SendsOnly(es: seq<Event>, extra: seq<int>, data: seq<int>) {
    forall i: nat :: i < |es| && es[i].Send? ==> es[i] == Send(extra, data)
  }

  /** Any frame that does not lead with a non-zero int can be overwritten while
      it waits, on any free slot it fits. */
  lemma ZeroLead(slot: seq<int>, extra: seq<int>, data: seq<int>)
    requires slot != [] && slot[0] == 0 && |extra| + |data| <= |slot| && !Leads(extra, data)
    ensures exists run: seq<State>, es: seq<Event> :: Overwrites(run, es, slot, extra, data)
  {
    var half, full := SendsZero(slot, 0, [], extra, data);
    var first := [] + [full];
    var half2, full2 := SendsZero(full, 1, first, extra, data);
    var second := first + [full2];
    var start, part, last := Starting(extra, data), Halfway(extra, data), Posting(extra, data);
    var run := [
      Sender(slot, 0, Ready, []), Sender(slot, 0, start, []), Sender(half, 0, part, []), Sender(full, 0, last, []),
      Sender(full, 1, Ready, first), Sender(full, 1, start, first), Sender(half2, 1, part, first),
      Sender(full2, 1, last, first), Sender(full2, 2, Ready, second)];
    var es := [Send(extra, data), Copy, Copy, Post(true), Send(extra, data), Copy, Copy, Post(true)];
    hide Step;
    assert Run(run, es);
    assert Overwrites(run, es, slot, extra, data);
  }

  ghost predicate OneOut(run: seq<State>) {
    forall i: nat :: i < |run| ==> run[i].value + Holders(run[i].consumers) <= 1
  }

  /** The exact condition: a frame is safe to send again and again on a slot if
      and only if it leads with a non-zero int. */
  lemma SafeExactly(slot: seq<int>, extra: seq<int>, data: seq<int>)
    requires slot != [] && slot[0] == 0 && |extra| + |data| <= |slot|
    ensures Leads(extra, data) <==>
      forall run: seq<State>, es: seq<Event> ::
        Run(run, es) && run[0].slot == slot && SendsOnly(es, extra, data) ==> OneOut(run)
  {
    if Leads(extra, data) {
      forall run: seq<State>, es: seq<Event> | Run(run, es) && run[0].slot == slot && SendsOnly(es, extra, data)
        ensures OneOut(run)
      {
        forall i: nat | i < |run| ensures run[i].value + Holders(run[i].consumers) <= 1 {
          OneFrameOut(run, es, i);
        }
      }
    } else {
      ZeroLead(slot, extra, data);
      var run: seq<State>, es: seq<Event> :| Overwrites(run, es, slot, extra, data);
      assert !OneOut(run) by { assert run[8].value + Holders(run[8].consumers) > 1; }
    }
  }
}
