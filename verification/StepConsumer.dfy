/**
 Every step of a consumer, and of reap_dead on behalf of one that is gone, keeps
 Ring, is a guarantee to every other live consumer, and keeps the consumer's own part.
 */
module StepConsumer {
  import opened Basics
  import opened TenzorCore
  import opened StepRing
  import opened StepInvariant

  // ---- the shared state and the other consumers ------------------------------

  // A step that changes one consumer's private state is invisible to everyone else.
  lemma PrivateStep(s: State, c: nat, x: Consumer)
    requires Ring(s) && c < |s.cons| && (x.status.Absent? <==> s.cons[c].status.Absent?)
    ensures Ring(SetConsumer(s, c, x))
    ensures forall d: nat :: d != c && IsLive(s, d) && Addressed(s, d) ==> Others(s, SetConsumer(s, c, x), d)
  {
    var s' := SetConsumer(s, c, x);
    assert Frontier(s') == Frontier(s);
    forall i: nat | i < |s'.slots| ensures SlotOk(s', i) {
      assert SlotOk(s, i);
    }
    forall d: nat | d != c && IsLive(s, d) && Addressed(s, d) ensures Others(s, s', d) {
    }
  }

  // Clearing bit c, by release, close or reap.
  lemma ClearBit(s: State, c: nat, i: nat)
    requires Ring(s) && i < |s.slots| && (s.slots[i].state.Committed? || LockFree(s.prod) || s.prod.Reaping?)
    ensures Ring(DropBitIn(s, c, i))
    ensures forall d: nat :: d != c && IsLive(s, d) && Addressed(s, d) ==> Others(s, DropBitIn(s, c, i), d)
  {
    var s' := DropBitIn(s, c, i);
    assert Frontier(s') == Frontier(s);
    forall k: nat | k < |s'.slots| ensures SlotOk(s', k) {
      assert SlotOk(s, k);
    }
    forall d: nat | d != c && IsLive(s, d) && Addressed(s, d) ensures Others(s, s', d) {
      ClearBitGuarantee(s, c, i, d);
    }
  }

  lemma ClearBitGuarantee(s: State, c: nat, i: nat, d: nat)
    requires Ring(s) && i < |s.slots| && (s.slots[i].state.Committed? || LockFree(s.prod) || s.prod.Reaping?)
    requires d != c && IsLive(s, d) && Addressed(s, d)
    ensures Others(s, DropBitIn(s, c, i), d)
  {
    assert SlotOk(s, i);
    assert forall k: nat :: Marked(s, d, k) ==> Marked(DropBitIn(s, c, i), d, k);
  }

  lemma RegisterKeepsRing(s: State, c: nat)
    requires Ring(s) && ConsumerCan(s, Register(c))
    ensures Ring(ConsumerDo(s, Register(c)))
    ensures forall d: nat :: d != c && IsLive(s, d) && Addressed(s, d) ==> Others(s, ConsumerDo(s, Register(c)), d)
  {
    var s' := ConsumerDo(s, Register(c));
    forall i: nat | i < |s'.slots| ensures SlotOk(s', i) {
      assert SlotOk(s, i);
    }
  }

  lemma FreeEntryKeepsRing(s: State, c: nat)
    requires Ring(s) && ConsumerCan(s, FreeEntry(c))
    ensures Ring(ConsumerDo(s, FreeEntry(c)))
    ensures forall d: nat :: d != c && IsLive(s, d) && Addressed(s, d) ==> Others(s, ConsumerDo(s, FreeEntry(c)), d)
  {
    var s' := ConsumerDo(s, FreeEntry(c));
    forall i: nat | i < |s'.slots| ensures SlotOk(s', i) {
      assert SlotOk(s, i);
    }
  }

  // Only a release stores to shared memory; every other step is a load.
  lemma AdvanceKeepsRing(s: State, c: nat)
    requires Ring(s) && ConsumerCan(s, Advance(c)) && ConsumerOk(s, c)
    ensures Ring(ConsumerDo(s, Advance(c)))
    ensures forall d: nat :: d != c && IsLive(s, d) && Addressed(s, d) ==> Others(s, ConsumerDo(s, Advance(c)), d)
  {
    var s' := ConsumerDo(s, Advance(c));
    if s.cons[c].pc.ReleaseMask? {
      assert LeaseOk(s, c, s.cons[c].pc.q);
      ReleaseKeepsRing(s, c, s.cons[c].pc.q);
    } else {
      LoadIsPrivate(s, c);
      PrivateStep(s, c, s'.cons[c]);
    }
  }

  lemma LoadIsPrivate(s: State, c: nat)
    requires ConsumerCan(s, Advance(c)) && !s.cons[c].pc.ReleaseMask?
    ensures ConsumerDo(s, Advance(c)) == SetConsumer(s, c, ConsumerDo(s, Advance(c)).cons[c])
    ensures ConsumerDo(s, Advance(c)).cons[c].status.Live?
  {
  }

  lemma ReleaseKeepsRing(s: State, c: nat, q: nat)
    requires Ring(s) && ConsumerCan(s, Advance(c)) && s.cons[c].pc == ReleaseMask(q) && LeaseOk(s, c, q)
    ensures Ring(ConsumerDo(s, Advance(c)))
    ensures forall d: nat :: d != c && IsLive(s, d) && Addressed(s, d) ==> Others(s, ConsumerDo(s, Advance(c)), d)
  {
    var s' := ConsumerDo(s, Advance(c));
    var i := s.cons[c].leases[q].slot;
    ClearBit(s, c, i);
    var m := DropBitIn(s, c, i);
    assert s' == SetConsumer(m, c, s'.cons[c]);
    PrivateStep(m, c, s'.cons[c]);
    forall d: nat | d != c && IsLive(s, d) && Addressed(s, d) ensures Others(s, s', d) {
      assert Others(s, m, d);
      assert IsLive(m, d);
      assert Others(m, s', d);
      OthersTransitive(s, m, s', d);
    }
  }

  lemma OthersTransitive(s: State, m: State, s': State, d: nat)
    requires Ring(s) && Ring(m) && Ring(s') && Others(s, m, d) && Others(m, s', d)
    requires m.log == s.log && s'.log == s.log && m.word == s.word && s'.word == s.word
    ensures Others(s, s', d)
  {
  }

  lemma ConsumerKeepsRing(s: State, t: ConsumerStep)
    requires Ring(s) && ConsumerCan(s, t)
    requires t.Advance? ==> ConsumerOk(s, t.c)
    ensures Ring(ConsumerDo(s, t))
    ensures forall d: nat :: d != t.c && IsLive(s, d) && Addressed(s, d) ==> Others(s, ConsumerDo(s, t), d)
  {
    var s' := ConsumerDo(s, t);
    if t.Register? {
      RegisterKeepsRing(s, t.c);
    } else if t.FreeEntry? {
      FreeEntryKeepsRing(s, t.c);
    } else if t.DropBit? {
      ClearBit(s, t.c, t.i);
      assert s'.cons == s.cons;
      assert s' == DropBitIn(s, t.c, t.i);
    } else if t.Advance? {
      AdvanceKeepsRing(s, t.c);
    } else {
      assert s' == SetConsumer(s, t.c, s'.cons[t.c]);
      PrivateStep(s, t.c, s'.cons[t.c]);
    }
  }

  // ---- the consumer itself --------------------------------------------------

  lemma ConsumerKeepsOwn(s: State, t: ConsumerStep)
    requires Inv(s) && ConsumerCan(s, t) && IsLive(ConsumerDo(s, t), t.c)
    ensures ConsumerOk(ConsumerDo(s, t), t.c)
  {
    if t.Register? {
      RegisterEstablishes(s, t.c);
    } else if t.Advance? {
      AdvanceKeeps(s, t.c);
    } else {
      CallsMovePc(s, t);
      MovePc(s, t.c, ConsumerDo(s, t).cons[t.c].pc);
    }
  }

  // Calling `next` or `release`, loading a header word and waking up touch nothing else.
  lemma CallsMovePc(s: State, t: ConsumerStep)
    requires Inv(s) && ConsumerCan(s, t) && IsLive(ConsumerDo(s, t), t.c) && !t.Register? && !t.Advance?
    ensures var pc' := ConsumerDo(s, t).cons[t.c].pc; ConsumerDo(s, t) == SetPc(s, t.c, pc') && PcOk(s, t.c, pc')
    ensures IsLive(s, t.c)
  {
  }

  lemma RegisterEstablishes(s: State, c: nat)
    requires Ring(s) && ConsumerCan(s, Register(c))
    ensures ConsumerOk(ConsumerDo(s, Register(c)), c)
  {
    var s' := ConsumerDo(s, Register(c));
    assert Frontier(s') <= s.next;
  }

  // Moving only the program counter: it is enough that the new one is right where c stands.
  lemma MovePc(s: State, c: nat, pc: Pc)
    requires c < |s.cons| && ConsumerOk(s, c) && PcOk(s, c, pc)
    ensures ConsumerOk(SetPc(s, c, pc), c)
  {
    var s' := SetPc(s, c, pc);
    SamePlace(s, c, pc);
    forall q: nat | Pending(s', c, q) ensures Resident(s', c, q) {
      assert Pending(s, c, q);
      assert Resident(s, c, q);
    }
    forall q: nat | q in s'.cons[c].leases ensures LeaseOk(s', c, q) {
      assert LeaseOk(s, c, q);
    }
  }

  lemma SamePlace(s: State, c: nat, pc: Pc)
    requires c < |s.cons| && PcOk(s, c, pc)
    ensures PcOk(SetPc(s, c, pc), c, pc)
  {
    if pc.ScanState? || pc.ScanMask? || pc.ScanSeq? {
      SameScan(s, SetPc(s, c, pc), c, pc.sc);
    } else if pc.CheckState1? || pc.CheckSeq1? || pc.CheckHead? || pc.CheckMask1? || pc.CheckState2? || pc.CheckSeq2? || pc.CheckMask2? {
      SameCheck(s, SetPc(s, c, pc), c, pc.ck);
    } else {
      SameMarks(s, SetPc(s, c, pc), c);
    }
  }

  ghost predicate PcChanged(s: State, s': State, c: nat) {
    c < |s.cons| == |s'.cons| && s' == SetPc(s, c, s'.cons[c].pc)
  }

  lemma SameMarks(s: State, s': State, c: nat)
    requires PcChanged(s, s', c)
    ensures Frontier(s') == Frontier(s)
    ensures forall q: nat :: Pending(s', c, q) <==> Pending(s, c, q)
    ensures forall i: nat :: Marked(s', c, i) <==> Marked(s, c, i)
    ensures forall f0: nat :: NothingBelow(s', c, f0) <==> NothingBelow(s, c, f0)
    ensures forall obs: nat, f0: nat :: WakeOk(s', obs, f0) <==> WakeOk(s, obs, f0)
  {
    assert forall q: nat :: Pending(s', c, q) <==> Pending(s, c, q);
  }

  lemma SameScan(s: State, s': State, c: nat, sc: Scan)
    requires PcChanged(s, s', c) && ScanOk(s, c, sc)
    ensures ScanOk(s', c, sc)
    ensures forall i: nat :: Marked(s', c, i) <==> Marked(s, c, i)
  {
    SameMarks(s, s', c);
  }

  lemma SameCheck(s: State, s': State, c: nat, ck: Check)
    requires PcChanged(s, s', c) && CheckOk(s, c, ck)
    ensures CheckOk(s', c, ck)
  {
    SameMarks(s, s', c);
  }

  lemma AdvanceKeeps(s: State, c: nat)
    requires Inv(s) && ConsumerCan(s, Advance(c))
    ensures ConsumerOk(ConsumerDo(s, Advance(c)), c)
  {
    var pc := s.cons[c].pc;
    var s' := ConsumerDo(s, Advance(c));
    if pc.CheckMask2? {
      TakeKeeps(s, c, pc.ck, pc.words, pc.bit);
    } else if pc.ReleaseMask? {
      ReleaseMaskKeeps(s, c, pc.q);
    } else {
      assert s' == SetPc(s, c, NextPc(s, c));
      if pc.ScanState? || pc.ScanMask? || pc.ScanSeq? {
        ScanKeeps(s, c);
      } else {
        CheckKeeps(s, c);
      }
      MovePc(s, c, NextPc(s, c));
    }
  }

  lemma ScanKeeps(s: State, c: nat)
    requires Inv(s) && ConsumerCan(s, Advance(c))
    requires var pc := s.cons[c].pc; pc.ScanState? || pc.ScanMask? || pc.ScanSeq?
    ensures PcOk(s, c, NextPc(s, c))
  {
    match s.cons[c].pc
    case ScanState(sc) => if sc.i == |s.slots| { EndPassKeeps(s, c, sc); } else { ScanStateKeeps(s, c, sc); }
    case ScanMask(sc) => ScanMaskKeeps(s, c, sc);
    case ScanSeq(sc) => ScanSeqKeeps(s, c, sc);
  }

  lemma CheckKeeps(s: State, c: nat)
    requires Inv(s) && ConsumerCan(s, Advance(c))
    requires var pc := s.cons[c].pc;
      || pc.CheckState1? || pc.CheckSeq1? || pc.CheckHead? || pc.CheckMask1? || pc.CheckState2?
      || pc.CheckSeq2? || pc.ReleaseSeq?
    ensures PcOk(s, c, NextPc(s, c))
  {
    match s.cons[c].pc
    case CheckState1(ck) => RealIsResident(s, c, ck);
    case CheckSeq1(ck) => RealIsResident(s, c, ck);
    case ReleaseSeq(q) => assert LeaseOk(s, c, q);
    case _ =>
  }

  // A publication still to be taken shows all three marks the scan looks for.
  lemma PendingIsSeen(s: State, c: nat, i: nat)
    requires Inv(s) && IsLive(s, c) && i < |s.slots|
    ensures forall q: nat :: Pending(s, c, q) && s.log[q].slot == i ==>
              Claimed(s, c, i) && s.slots[i].sn == q
  {
    forall q: nat | Pending(s, c, q) && s.log[q].slot == i ensures s.slots[i].sn == q && Claimed(s, c, i) {
      assert Resident(s, c, q);
    }
  }

  // Passing over slot i is right when nothing pending is there.
  lemma ScanSkips(s: State, c: nat, sc: Scan)
    requires ScanOk(s, c, sc) && sc.i < |s.slots|
    requires forall q: nat :: Pending(s, c, q) ==> s.log[q].slot != sc.i
    ensures ScanOk(s, c, sc.(i := sc.i + 1))
  {
  }

  lemma ScanStateKeeps(s: State, c: nat, sc: Scan)
    requires Inv(s) && IsLive(s, c) && s.cons[c].pc == ScanState(sc) && sc.i < |s.slots|
    ensures PcOk(s, c, NextPc(s, c))
  {
    PendingIsSeen(s, c, sc.i);
    if !s.slots[sc.i].state.Committed? {
      ScanSkips(s, c, sc);
    }
  }

  lemma ScanMaskKeeps(s: State, c: nat, sc: Scan)
    requires Inv(s) && IsLive(s, c) && s.cons[c].pc == ScanMask(sc)
    ensures PcOk(s, c, NextPc(s, c))
  {
    PendingIsSeen(s, c, sc.i);
    assert SlotOk(s, sc.i);
    if c !in s.slots[sc.i].mask {
      ScanSkips(s, c, sc);
    }
  }

  lemma ScanSeqKeeps(s: State, c: nat, sc: Scan)
    requires Inv(s) && IsLive(s, c) && s.cons[c].pc == ScanSeq(sc)
    ensures PcOk(s, c, NextPc(s, c))
  {
    PendingIsSeen(s, c, sc.i);
    var q := s.slots[sc.i].sn;
    if q > s.cons[c].last {
      ScanSeqCandidate(s, c, sc);
    } else {
      ScanSkips(s, c, sc);
    }
  }

  lemma ScanSeqCandidate(s: State, c: nat, sc: Scan)
    requires Inv(s) && IsLive(s, c) && s.cons[c].pc == ScanSeq(sc) && s.slots[sc.i].sn > s.cons[c].last
    ensures ScanOk(s, c, sc.(cur := Older(sc.cur, s.slots[sc.i].sn, sc.i), i := sc.i + 1))
  {
    PendingIsSeen(s, c, sc.i);
    assert SlotOk(s, sc.i);
    assert CandidateOk(s, c, Candidate(s.slots[sc.i].sn, sc.i), sc.f);
  }

  // The rescan argument: what survives a second pass is no newer than anything pending.
  lemma EndPassKeeps(s: State, c: nat, sc: Scan)
    requires Inv(s) && IsLive(s, c) && s.cons[c].pc == ScanState(sc) && sc.i == |s.slots|
    ensures PcOk(s, c, NextPc(s, c))
  {
    forall q: nat | Pending(s, c, q) && q < sc.f ensures sc.cur.Some? && sc.cur.value.sn <= q {
      assert Resident(s, c, q);
    }
    if sc.prev.None? {
      FirstPassEnds(s, c, sc);
    } else if sc.cur.Some? && sc.prev.value.sn > sc.cur.value.sn {
      assert Real(s, sc.cur.value);
      OldestFound(s, c, sc, sc.cur.value);
    } else {
      OldestFound(s, c, sc, sc.prev.value);
    }
  }

  lemma FirstPassEnds(s: State, c: nat, sc: Scan)
    requires Inv(s) && IsLive(s, c) && ScanOk(s, c, sc) && sc.prev.None?
    requires forall q: nat :: Pending(s, c, q) && q < sc.f ==> sc.cur.Some? && sc.cur.value.sn <= q
    ensures sc.cur.None? ==> NothingBelow(s, c, sc.f0)
    ensures sc.cur.Some? ==> ScanOk(s, c, Scan(sc.obs, sc.f0, 1, Frontier(s), sc.cur, None, 0))
  {
  }

  lemma OldestFound(s: State, c: nat, sc: Scan, best: Candidate)
    requires Inv(s) && IsLive(s, c) && ScanOk(s, c, sc) && sc.prev.Some?
    requires forall q: nat :: Pending(s, c, q) && q < sc.f ==> sc.cur.Some? && sc.cur.value.sn <= q
    requires best.sn <= sc.prev.value.sn && (sc.cur.Some? ==> best.sn <= sc.cur.value.sn)
    requires best == sc.prev.value || (sc.cur == Some(best) && Real(s, best))
    ensures CheckOk(s, c, Check(sc.obs, sc.f0, best))
    ensures sc.pass < |s.slots| ==>
              ScanOk(s, c, Scan(sc.obs, sc.f0, sc.pass + 1, Frontier(s), Some(best), None, 0))
  {
  }

  lemma RealIsResident(s: State, c: nat, ck: Check)
    requires Inv(s) && IsLive(s, c) && CheckOk(s, c, ck)
    ensures Real(s, ck.cand) ==> Claimed(s, c, ck.cand.slot) && s.slots[ck.cand.slot].sn == ck.cand.sn
  {
    if Real(s, ck.cand) {
      assert Pending(s, c, ck.cand.sn);
    }
  }

  // The slot that passed every check holds the committed publication of that sequence.
  lemma MatchedIsCommitted(s: State, c: nat, ck: Check, words: map<nat, nat>)
    requires Inv(s) && IsLive(s, c) && Matched(s, c, ck, words)
    ensures Real(s, ck.cand) && Resident(s, c, ck.cand.sn)
    ensures Holds(s.slots[ck.cand.slot], s.log[ck.cand.sn])
    ensures ValidTensor(s.log[ck.cand.sn].head, s.log[ck.cand.sn].data, s.cap)
  {
    assert SlotOk(s, ck.cand.slot);
  }

  lemma TakeDelivers(s: State, c: nat, ck: Check, words: map<nat, nat>, bit: bool)
    requires Inv(s) && ConsumerCan(s, Advance(c)) && s.cons[c].pc == CheckMask2(ck, words, bit)
    requires ConsumerDo(s, Advance(c)).cons[c].got == s.cons[c].got + [ck.cand.sn]
    ensures DeliveryOk(ConsumerDo(s, Advance(c)), c)
  {
    var s' := ConsumerDo(s, Advance(c));
    var x, x' := s.cons[c], s'.cons[c];
    var q := ck.cand.sn;
    MatchedIsCommitted(s, c, ck, words);
    forall k: nat | k < |x.got| ensures x.got[k] < q {
      assert x.got[k] in x.got;
    }
    assert forall p: nat :: p in s.log && x.last < p <= q ==> Pending(s, c, p);
    assert x'.last == q;
    forall p: nat ensures p in x'.got <==> p in x.got || p == q {
    }
  }

  lemma TakeKeeps(s: State, c: nat, ck: Check, words: map<nat, nat>, bit: bool)
    requires Inv(s) && ConsumerCan(s, Advance(c)) && s.cons[c].pc == CheckMask2(ck, words, bit)
    ensures ConsumerOk(ConsumerDo(s, Advance(c)), c)
  {
    var s' := ConsumerDo(s, Advance(c));
    var x, x' := s.cons[c], s'.cons[c];
    var q := ck.cand.sn;
    MatchedIsCommitted(s, c, ck, words);
    assert words[W_NDIM] == s.log[q].head[W_NDIM];
    assert x'.last == q && x'.got == x.got + [q];
    assert Pending(s, c, q);
    TakeDelivers(s, c, ck, words, bit);
    forall p: nat | Pending(s', c, p) ensures Resident(s', c, p) {
      assert Pending(s, c, p);
      assert Resident(s, c, p);
    }
    forall p: nat | p in x'.leases ensures LeaseOk(s', c, p) {
      if p != q {
        assert LeaseOk(s, c, p);
      }
    }
  }

  // The claim cleared is that of the lease given up and of no other publication.
  lemma ReleaseSparesTheRest(s: State, c: nat, q: nat, p: nat)
    requires Inv(s) && ConsumerCan(s, Advance(c)) && s.cons[c].pc == ReleaseMask(q)
    requires LeaseOk(s, c, q) && Resident(s, c, p) && p != q
    ensures Resident(ConsumerDo(s, Advance(c)), c, p)
  {
  }

  lemma ReleaseMaskKeeps(s: State, c: nat, q: nat)
    requires Inv(s) && ConsumerCan(s, Advance(c)) && s.cons[c].pc == ReleaseMask(q)
    ensures ConsumerOk(ConsumerDo(s, Advance(c)), c)
  {
    var s' := ConsumerDo(s, Advance(c));
    assert LeaseOk(s, c, q);
    assert SlotOk(s, s.log[q].slot);
    forall p: nat | p in s'.cons[c].leases ensures LeaseOk(s', c, p) {
      assert LeaseOk(s, c, p);
      ReleaseSparesTheRest(s, c, q, p);
    }
    forall p: nat | Pending(s', c, p) ensures Resident(s', c, p) {
      assert Pending(s, c, p);
      ReleaseSparesTheRest(s, c, q, p);
    }
  }
}
