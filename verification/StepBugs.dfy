/**
 What the two fixes recorded in the protocol's documentation are for: runs in which the
 best of a single pass over the slots, or a candidate taken without the check that follows,
 would be wrong.  Both happen on every fresh ring of two slots.
 */
module StepBugs {
  import opened Basics
  import opened TenzorCore
  import opened StepRing
  import opened StepInvariant
  import opened StepTheorems
  import opened StepWitness

  // ---- pieces of runs ---------------------------------------------------------

  // A step of c that leaves the producer where it is.
  lemma Load(s0: State, ts: seq<Step>, s: State, a: ConsumerStep) returns (us: seq<Step>, s': State)
    requires Inv(s) && Run(s0, ts, s) && ConsumerCan(s, a)
    ensures Run(s0, us, s') && s' == ConsumerDo(s, a) && Inv(s')
  {
    Extend(s0, ts, s, ByConsumer(a));
    StepKeepsInv(s, ByConsumer(a));
    us, s' := ts + [ByConsumer(a)], ConsumerDo(s, a);
  }

  // Slot i was committed with sequence q, addressed to whoever is registered; apart from
  // what is the producer's own, nothing else changed.
  ghost predicate Given(s: State, s': State, i: nat, q: nat) {
    && i < |s.slots| == |s'.slots| && (forall k: nat :: k < |s.slots| && k != i ==> s'.slots[k] == s.slots[k])
    && s'.slots[i].state.Committed? && s'.slots[i].sn == q && s'.slots[i].mask == s.active
    && s'.cons == s.cons && s'.active == s.active && s'.cap == s.cap && s'.next == q + 1 && s'.prod.Idle?
    && s'.log.Keys == s.log.Keys + {q}
  }

  lemma PublicationCompletes(s0: State, ts: seq<Step>, s: State, i: nat, req: Request) returns (us: seq<Step>, s': State)
    requires Inv(s) && Run(s0, ts, s) && Reservable(s, i, req)
    ensures Inv(s') && Run(s0, us, s') && Given(s, s', i, s.next)
  {
    us, s' := ReservationCompletes(s0, ts, s, i, req);
    us, s' := CommitCompletes(s0, us, s');
  }

  lemma CommitCompletes(s0: State, ts: seq<Step>, s: State) returns (us: seq<Step>, s': State)
    requires Inv(s) && Run(s0, ts, s) && s.prod.Filling? && s.prod.r.direct
    ensures s.prod.r.pub.slot < |s.slots| && s.slots[s.prod.r.pub.slot].sn == s.prod.r.pub.sn
    ensures var i := s.prod.r.pub.slot;
            s' == s.(slots := s.slots[i := s.slots[i].(state := Committed)], prod := Idle, word := s'.word,
                     log := s.log[s.prod.r.pub.sn := s.prod.r.pub], unsig := s'.unsig, sent := s'.sent)
    ensures Inv(s') && Run(s0, us, s')
  {
    us, s' := Step1(s0, ts, s, Commit);
    us, s' := Step1(s0, us, s', NextStore);
  }

  lemma JoinsIdle(s0: State, ts: seq<Step>, s: State, c: nat) returns (us: seq<Step>, s': State)
    requires Inv(s) && Run(s0, ts, s) && s.prod.Idle? && c < |s.cons| && s.cons[c].status.Absent?
    ensures Inv(s') && Run(s0, us, s')
    ensures s' == s.(active := s.active + {c}, cons := s'.cons, late := s'.late, sent := s'.sent)
    ensures IsLive(s', c) && s'.cons[c].pc.Out? && s'.cons[c].base == s'.cons[c].last == s.next - 1
  {
    us, s' := Load(s0, ts, s, Register(c));
  }

  // The loads of a mask with the consumer's bit and of a newer sequence make a candidate.
  lemma CandidateIsRead(s0: State, ts: seq<Step>, s: State, c: nat) returns (us: seq<Step>, s': State)
    requires Inv(s) && Run(s0, ts, s) && IsLive(s, c) && s.cons[c].pc.ScanMask? && s.cons[c].pc.sc.i < |s.slots|
    requires var x := s.slots[s.cons[c].pc.sc.i]; c in x.mask && x.sn > s.cons[c].last
    ensures Inv(s') && Run(s0, us, s')
    ensures var sc := s.cons[c].pc.sc;
            s' == SetPc(s, c, ScanState(sc.(cur := Older(sc.cur, s.slots[sc.i].sn, sc.i), i := sc.i + 1)))
  {
    MaskIsLoaded(s, c);
    us, s' := Load(s0, ts, s, Advance(c));
    SequenceIsLoaded(s', c);
    us, s' := Load(s0, us, s', Advance(c));
  }

  lemma MaskIsLoaded(s: State, c: nat)
    requires IsLive(s, c) && s.cons[c].pc.ScanMask? && s.cons[c].pc.sc.i < |s.slots|
    requires c in s.slots[s.cons[c].pc.sc.i].mask
    ensures ConsumerCan(s, Advance(c)) && ConsumerDo(s, Advance(c)) == SetPc(s, c, ScanSeq(s.cons[c].pc.sc))
  {
  }

  lemma SequenceIsLoaded(s: State, c: nat)
    requires IsLive(s, c) && s.cons[c].pc.ScanSeq? && s.cons[c].pc.sc.i < |s.slots|
    requires s.slots[s.cons[c].pc.sc.i].sn > s.cons[c].last
    ensures ConsumerCan(s, Advance(c))
    ensures var sc := s.cons[c].pc.sc;
            ConsumerDo(s, Advance(c)) ==
              SetPc(s, c, ScanState(sc.(cur := Older(sc.cur, s.slots[sc.i].sn, sc.i), i := sc.i + 1)))
  {
  }

  // ---- the out-of-order delivery ------------------------------------------------

  lemma PassesAFreeSlot(s0: State, c: nat) returns (ts: seq<Step>, s: State)
    requires Initial(s0) && c < MAX_CONSUMERS
    ensures Inv(s) && Run(s0, ts, s) && IsLive(s, c) && s.cons[c].base == s.cons[c].last == 0
    ensures s.slots == s0.slots && s.cap == s0.cap && s.prod.Idle? && s.next == 1 && c in s.active
    ensures var pc := s.cons[c].pc; pc.ScanState? && pc.sc.i == 1 && pc.sc.prev.None? && pc.sc.cur.None?
  {
    InitialInv(s0);
    ts, s := JoinsIdle(s0, [], s0, c);
    ts, s := Load(s0, ts, s, CallNext(c));
    ts, s := Load(s0, ts, s, Advance(c));
  }

  // c registers on a fresh ring and passes over slot 0 while it is free; then 1 is published
  // there and 2 in slot 1.
  lemma CommitsLandBehindTheScan(s0: State, c: nat, req: Request) returns (ts: seq<Step>, s: State)
    requires Initial(s0) && |s0.slots| == 2 && c < MAX_CONSUMERS && Reservable(s0, 0, req)
    ensures Inv(s) && Run(s0, ts, s) && IsLive(s, c) && s.cons[c].base == s.cons[c].last == 0 && |s.slots| == 2
    ensures var pc := s.cons[c].pc; pc.ScanState? && pc.sc.i == 1 && pc.sc.prev.None? && pc.sc.cur.None?
    ensures s.slots[1].state.Committed? && s.slots[1].sn == 2 && c in s.slots[1].mask && 1 in s.log
  {
    ts, s := PassesAFreeSlot(s0, c);
    ts, s := PublicationCompletes(s0, ts, s, 0, req);
    ts, s := PublicationCompletes(s0, ts, s, 1, req);
  }

  // At the end of its first pass the best candidate is publication 2, a committed slot that
  // every check would accept, while publication 1 is pending: a single pass delivers out of
  // order.
  lemma SinglePassIsNotEnough(s0: State, c: nat, req: Request) returns (ts: seq<Step>, s: State)
    requires Initial(s0) && |s0.slots| == 2 && c < MAX_CONSUMERS && Reservable(s0, 0, req)
    ensures Run(s0, ts, s) && IsLive(s, c) && s.cons[c].pc.ScanState?
    ensures var sc := s.cons[c].pc.sc; sc.i == |s.slots| && sc.prev.None? && sc.cur == Some(Candidate(2, 1))
    ensures Resident(s, c, 2) && s.log[2].slot == 1 && Pending(s, c, 2) && Pending(s, c, 1)
  {
    ts, s := CommitsLandBehindTheScan(s0, c, req);
    ts, s := Load(s0, ts, s, Advance(c));
    ts, s := CandidateIsRead(s0, ts, s, c);
    assert SlotOk(s, 1);
  }

  // ---- the torn payload ---------------------------------------------------------

  lemma TwoUnread(s0: State, c: nat, req: Request) returns (ts: seq<Step>, s: State)
    requires Initial(s0) && |s0.slots| == 2 && c < MAX_CONSUMERS && Reservable(s0, 0, req)
    ensures Inv(s) && Run(s0, ts, s) && |s.slots| == 2 && s.cons == s0.cons && s.active == {} && s.next == 3
    ensures s.slots[0].state.Committed? && s.slots[1].state.Committed? && s.slots[0].sn < s.slots[1].sn
    ensures Reservable(s, 0, req)
  {
    InitialInv(s0);
    ts, s := PublicationCompletes(s0, [], s0, 0, req);
    ts, s := PublicationCompletes(s0, ts, s, 1, req);
  }

  // Two publications nobody is registered for, then c registers and sees slot 0 COMMITTED.
  lemma SeesAnOldCommit(s0: State, c: nat, req: Request) returns (ts: seq<Step>, s: State)
    requires Initial(s0) && |s0.slots| == 2 && c < MAX_CONSUMERS && Reservable(s0, 0, req)
    ensures Inv(s) && Run(s0, ts, s) && IsLive(s, c) && s.cons[c].last == 2 && |s.slots| == 2
    ensures Reservable(s, 0, req) && s.next == 3 && c in s.active && !s.slots[1].state.Free?
    ensures s.slots[1].state.Committed? && s.slots[0].sn < s.slots[1].sn
    ensures var pc := s.cons[c].pc; pc.ScanMask? && pc.sc.i == 0 && pc.sc.prev.None? && pc.sc.cur.None?
  {
    ts, s := TwoUnread(s0, c, req);
    ts, s := JoinsIdle(s0, ts, s, c);
    ts, s := Load(s0, ts, s, CallNext(c));
    ts, s := Load(s0, ts, s, Advance(c));
  }

  lemma ReservationIsOpen(s: State)
    requires Inv(s) && s.prod.Filling?
    ensures var p := s.prod.r.pub;
            && p.slot < |s.slots| && s.slots[p.slot].state.Writing? && s.slots[p.slot].sn == p.sn && p.sn !in s.log
  {
    assert SlotOk(s, s.prod.r.pub.slot);
  }

  // Slot 0, the oldest unclaimed one, is then reserved for publication 3, and the scan goes
  // on to take its mask and its sequence for those of the commit it saw: its candidate is not
  // committed, and its payload not yet written.
  lemma CandidateMayBeUnfinished(s0: State, c: nat, req: Request) returns (ts: seq<Step>, s: State)
    requires Initial(s0) && |s0.slots| == 2 && c < MAX_CONSUMERS && Reservable(s0, 0, req)
    ensures Run(s0, ts, s) && IsLive(s, c) && s.cons[c].pc.ScanState?
    ensures s.cons[c].pc.sc.cur == Some(Candidate(3, 0))
    ensures |s.slots| == 2 && s.slots[0].state.Writing? && s.prod.Filling? && s.prod.r.pub.sn == 3 && 3 !in s.log
  {
    ts, s := SeesAnOldCommit(s0, c, req);
    ts, s := ReservationCompletes(s0, ts, s, 0, req);
    ReservationIsOpen(s);
    ts, s := CandidateIsRead(s0, ts, s, c);
  }
}
