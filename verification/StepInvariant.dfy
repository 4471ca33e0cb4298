/**
 What every reachable state of the step model satisfies.

 Ring holds of the shared state alone.  Consumer is the part one live consumer relies
 on, and Others is the guarantee every step of anyone else gives it: the
 invariant is proved once per step as a guarantee and once as stability.
 */
module StepInvariant {
  import opened TenzorCore
  import opened StepRing

  // ---- vocabulary -----------------------------------------------------------

  // The slot holds exactly this publication: sequence, header and payload.
  predicate Holds(x: Slot, p: Publication) {
    && x.sn == p.sn
    && x.head == p.head
    && |p.data| <= |x.data|
    && x.data[..|p.data|] == p.data
  }

  // Publication q is in its slot, committed, and still claimed by c.
  ghost predicate Resident(s: State, c: nat, q: nat) {
    && q in s.log
    && s.log[q].slot < |s.slots|
    && Claimed(s, c, s.log[q].slot)
    && s.slots[s.log[q].slot].sn == q
  }

  predicate Claimed(s: State, c: nat, i: nat) {
    i < |s.slots| && s.slots[i].state.Committed? && c in s.slots[i].mask
  }

  // The reservation that may still be committed, with the readers it will have.
  predicate Open(p: Producer) {
    p.StoreSeq? || p.StoreHead? || p.StoreMask? || p.StoreNext? || p.Filling?
  }

  predicate MaskStored(p: Producer) {
    p.StoreNext? || p.Filling?
  }

  // A slot in state WRITING is owned by one of these.
  predicate Owns(p: Producer) {
    || Open(p) || p.AbortMask? || p.AbortState? || p.Abandoned? || p.Recovering?
  }

  function ReadersOf(s: State): set<nat>
    requires Open(s.prod) && s.prod.r.pub.slot < |s.slots|
  {
    if MaskStored(s.prod) then s.slots[s.prod.r.pub.slot].mask else s.prod.r.readers
  }

  // ---- the shared state -----------------------------------------------------

  ghost predicate Shapes(s: State) {
    && |s.slots| >= 2 && |s.cons| == MAX_CONSUMERS && s.next >= 1
    && (forall i :: 0 <= i < |s.slots| ==>
          |s.slots[i].head| == HEAD_WORDS && |s.slots[i].data| == s.cap)
    && (forall c: nat :: c in s.active <==> (c < |s.cons| && !s.cons[c].status.Absent?))
  }

  ghost predicate LogOk(s: State) {
    && (forall q: nat :: q in s.log ==>
          && 1 <= q < Frontier(s) && s.log[q].sn == q && s.log[q].slot < |s.slots|
          && ValidTensor(s.log[q].head, s.log[q].data, s.cap))
    && (forall q: nat :: q in s.unsig ==> q in s.log)
    && (s.prod.Signalling? ==> s.prod.q in s.unsig)
  }

  ghost predicate SlotOk(s: State, i: nat)
    requires i < |s.slots|
  {
    var x := s.slots[i];
    && x.sn <= Frontier(s)
    && (x.state.Writing? <==> Owns(s.prod) && s.prod.r.pub.slot == i)
    && (x.state.Committed? ==> x.sn in s.log && s.log[x.sn].slot == i && Holds(x, s.log[x.sn]))
    && (x.state.Free? ==> x.mask == {})
    && x.mask <= s.active
  }

  ghost predicate ProducerOk(s: State)
    requires Shapes(s)
  {
    var p := s.prod;
    && (p.Chosen? ==> p.i < |s.slots| && !s.slots[p.i].state.Writing? && s.slots[p.i].mask == {})
    && (p.SawCommitted? ==> p.i < |s.slots| && s.slots[p.i].state.Committed?)
    && (p.Reaping? || p.Looking? || p.SawCommitted? || p.Chosen? ==> RequestOk(p.req, s.cap))
    && (HasReservation(p) ==> ReservationOk(s, p.r))
  }

  predicate RequestOk(req: Request, cap: nat) {
    && |req.head| == HEAD_WORDS
    && (req.Copy? ==> ValidTensor(req.head, req.data, cap))
    && ReadableHead(req.head[W_NDIM], req.head[W_NBYTES], req.head[W_DTYPE], cap)
  }

  ghost predicate ReservationOk(s: State, r: Reservation)
    requires Shapes(s)
  {
    var p := s.prod;
    && r.pub.slot < |s.slots|
    && ValidTensor(r.pub.head, r.pub.data, s.cap)
    && 1 <= r.pub.sn
    && (p.StoreSeq? || p.StoreHead? || p.StoreMask? || p.StoreNext? ==> s.next == r.pub.sn)
    && (!Open(p) || p.Filling? ==> s.next == r.pub.sn + 1)
    && (p.StoreSeq? || p.StoreHead? || p.StoreMask? ==>
          s.slots[r.pub.slot].mask == {} && r.readers == s.active)
    && (Owns(p) && !p.StoreSeq? ==> s.slots[r.pub.slot].sn == r.pub.sn)
    && (p.StoreHead? ==> forall w: nat :: w in p.stored && w < HEAD_WORDS ==> s.slots[r.pub.slot].head[w] == r.pub.head[w])
    && (p.StoreMask? || p.StoreNext? || p.Filling? || p.AbortMask? || p.Abandoned? ==>
          s.slots[r.pub.slot].head == r.pub.head)
    && (p.Filling? ==> forall k :: 0 <= k < |r.pub.data| && (r.direct || k in p.copied) ==>
          s.slots[r.pub.slot].data[k] == r.pub.data[k])
    && (r.direct && Open(p) ==> s.slots[r.pub.slot].data[..|r.pub.data|] == r.pub.data)
    && (p.AbortState? || p.Recovering? ==> s.slots[r.pub.slot].mask == {})
  }

  ghost predicate Ring(s: State) {
    && Shapes(s)
    && LogOk(s)
    && (forall i :: 0 <= i < |s.slots| ==> SlotOk(s, i))
    && ProducerOk(s)
  }

  // ---- one live consumer ----------------------------------------------------

  // Whatever is or will be committed in slot i is addressed to c and unreleased.
  ghost predicate Marked(s: State, c: nat, i: nat) {
    && i < |s.slots|
    && (s.slots[i].state.Committed? ==> c in s.slots[i].mask)
    && (Open(s.prod) && s.prod.r.pub.slot == i ==> c in ReadersOf(s))
  }

  // The open reservation, if it is newer than what c has taken, counts c as a reader.
  ghost predicate Addressed(s: State, c: nat) {
    c < |s.cons| && (Open(s.prod) && s.prod.r.pub.slot < |s.slots| && s.prod.r.pub.sn > s.cons[c].last ==>
      c in ReadersOf(s))
  }

  ghost predicate Real(s: State, cand: Candidate) {
    cand.sn in s.log && s.log[cand.sn].slot == cand.slot
  }

  // A candidate is a reserved sequence newer than `last`; it is a committed
  // publication unless it was reserved at or after the mark f.
  ghost predicate CandidateOk(s: State, c: nat, cand: Candidate, f: nat) {
    && c < |s.cons|
    && s.cons[c].last < cand.sn <= Frontier(s)
    && Marked(s, c, cand.slot)
    && (Real(s, cand) || cand.sn >= f)
  }

  ghost predicate Pending(s: State, c: nat, q: nat) {
    c < |s.cons| && q in s.log && q > s.cons[c].last
  }

  // Nothing committed before the mark f0 is still to be taken.
  ghost predicate NothingBelow(s: State, c: nat, f0: nat) {
    forall q: nat :: Pending(s, c, q) ==> q >= f0
  }

  // As long as the publish word still reads obs, whatever was committed at or after f0
  // has not been signalled.
  ghost predicate WakeOk(s: State, obs: nat, f0: nat) {
    && obs <= s.word
    && f0 <= Frontier(s)
    && (s.word == obs ==> forall q: nat :: q in s.log && q >= f0 ==> q in s.unsig)
  }

  ghost predicate ScanOk(s: State, c: nat, sc: Scan) {
    && c < |s.cons|
    && WakeOk(s, sc.obs, sc.f0)
    && sc.f0 <= sc.f <= Frontier(s)
    && sc.i <= |s.slots|
    && sc.pass <= |s.slots|
    && (sc.prev.None? ==> sc.f == sc.f0 && sc.pass == 0)
    && (sc.prev.Some? ==>
          && s.cons[c].last < sc.prev.value.sn <= sc.f
          && Marked(s, c, sc.prev.value.slot)
          && (Real(s, sc.prev.value) || NothingBelow(s, c, sc.f0)))
    && (sc.cur.Some? ==> CandidateOk(s, c, sc.cur.value, sc.f))
    && (forall q: nat :: Pending(s, c, q) && q < sc.f && s.log[q].slot < sc.i ==>
          sc.cur.Some? && sc.cur.value.sn <= q)
  }

  ghost predicate CheckOk(s: State, c: nat, ck: Check) {
    && c < |s.cons|
    && WakeOk(s, ck.obs, ck.f0)
    && s.cons[c].last < ck.cand.sn <= Frontier(s)
    && Marked(s, c, ck.cand.slot)
    && (Real(s, ck.cand) || NothingBelow(s, c, ck.f0))
    && (forall q: nat :: Pending(s, c, q) ==> ck.cand.sn <= q)
  }

  // From the first COMMITTED load on, the slot cannot change until c releases it.
  ghost predicate Pinned(s: State, c: nat, ck: Check) {
    CheckOk(s, c, ck) && Claimed(s, c, ck.cand.slot)
  }

  ghost predicate Matched(s: State, c: nat, ck: Check, words: map<nat, nat>) {
    && Pinned(s, c, ck)
    && s.slots[ck.cand.slot].sn == ck.cand.sn
    && |s.slots[ck.cand.slot].head| == HEAD_WORDS
    && (forall w :: w in words ==> w < HEAD_WORDS && words[w] == s.slots[ck.cand.slot].head[w])
  }

  predicate AllWords(words: map<nat, nat>) {
    forall w :: 0 <= w < HEAD_WORDS ==> w in words
  }

  ghost predicate PcOk(s: State, c: nat, pc: Pc)
    requires c < |s.cons|
  {
    match pc
    case Out => true
    case ScanState(sc) => ScanOk(s, c, sc)
    case ScanMask(sc) => ScanOk(s, c, sc) && sc.i < |s.slots|
    case ScanSeq(sc) =>
      && ScanOk(s, c, sc) && Marked(s, c, sc.i)
      && (Claimed(s, c, sc.i) || s.slots[sc.i].sn >= sc.f)
    case CheckState1(ck) => CheckOk(s, c, ck)
    case CheckSeq1(ck) => Pinned(s, c, ck)
    case CheckHead(ck, words) => Matched(s, c, ck, words)
    case CheckMask1(ck, words) => Matched(s, c, ck, words) && AllWords(words)
    case CheckState2(ck, words, bit) => Matched(s, c, ck, words) && AllWords(words) && bit
    case CheckSeq2(ck, words, bit) => Matched(s, c, ck, words) && AllWords(words) && bit
    case CheckMask2(ck, words, bit) => Matched(s, c, ck, words) && AllWords(words) && bit
    case Asleep(obs, f0) => WakeOk(s, obs, f0) && NothingBelow(s, c, f0)
    case ReleaseSeq(q) => q in s.cons[c].leases
    case ReleaseMask(q) => q in s.cons[c].leases
    case Violated => false
  }

  predicate Increasing(xs: seq<nat>) {
    forall a, b :: 0 <= a < b < |xs| ==> xs[a] < xs[b]
  }

  // The sequences taken so far are exactly the committed ones since registration, in
  // order and without a gap.
  ghost predicate DeliveryOk(s: State, c: nat)
    requires c < |s.cons|
  {
    var x := s.cons[c];
    && x.base <= x.last
    && (x.last == x.base || x.last in s.log)
    && Increasing(x.got)
    && (forall q: nat :: q in x.got <==> q in s.log && x.base < q <= x.last)
  }

  // An outstanding lease holds its slot, and its words are the publication's header.
  ghost predicate LeaseOk(s: State, c: nat, q: nat)
    requires c < |s.cons| && q in s.cons[c].leases
  {
    var l := s.cons[c].leases[q];
    && Resident(s, c, q)
    && s.cons[c].base < q <= s.cons[c].last
    && l.slot == s.log[q].slot
    && AllWords(l.words)
    && (forall w :: w in l.words ==> w < HEAD_WORDS && w < |s.log[q].head| && l.words[w] == s.log[q].head[w])
  }

  ghost predicate ConsumerOk(s: State, c: nat)
    requires c < |s.cons|
  {
    && DeliveryOk(s, c)
    && (forall q: nat :: Pending(s, c, q) ==> Resident(s, c, q))
    && (forall q: nat :: q in s.cons[c].leases ==> LeaseOk(s, c, q))
    && Addressed(s, c)
    && PcOk(s, c, s.cons[c].pc)
  }

  ghost predicate Inv(s: State) {
    && Ring(s)
    && (forall c :: 0 <= c < |s.cons| && IsLive(s, c) ==> ConsumerOk(s, c))
  }

  // ---- rely ------------------------------------------------------------------

  // What a step of anyone but c may do, seen from live consumer c.
  ghost predicate Others(s: State, s': State, c: nat) {
    && c < |s.cons| == |s'.cons| && s'.cons[c] == s.cons[c]
    && |s'.slots| == |s.slots|
    && Frontier(s) <= Frontier(s')
    && s.word <= s'.word
    && (forall q: nat :: q in s.log ==> q in s'.log && s'.log[q] == s.log[q])
    && (forall q: nat :: q in s'.log && q !in s.log ==>
          q >= Frontier(s) && (q > s.cons[c].last ==> Resident(s', c, q)))
    && (s'.word == s.word ==> forall q: nat :: q in s'.log && q !in s'.unsig ==> q in s.log && q !in s.unsig)
    && (forall i: nat :: Claimed(s, c, i) ==>
          Claimed(s', c, i) && s'.slots[i].sn == s.slots[i].sn && s'.slots[i].head == s.slots[i].head)
    && (forall i :: 0 <= i < |s.slots| ==> s.slots[i].sn <= s'.slots[i].sn)
    && (forall i: nat :: Marked(s, c, i) ==> Marked(s', c, i))
    && Addressed(s', c)
  }

  lemma Stable(s: State, s': State, c: nat)
    requires Ring(s) && Ring(s') && c < |s.cons| && ConsumerOk(s, c) && Others(s, s', c)
    ensures ConsumerOk(s', c)
  {
    StableDelivery(s, s', c);
    StableClaims(s, s', c);
    StablePc(s, s', c);
  }

  lemma StableDelivery(s: State, s': State, c: nat)
    requires Ring(s) && Ring(s') && c < |s.cons| && DeliveryOk(s, c) && Others(s, s', c)
    ensures DeliveryOk(s', c)
  {
  }

  lemma StableClaims(s: State, s': State, c: nat)
    requires Ring(s) && Ring(s') && c < |s.cons| && ConsumerOk(s, c) && Others(s, s', c)
    ensures forall q: nat :: Pending(s', c, q) ==> Resident(s', c, q)
    ensures forall q: nat :: q in s'.cons[c].leases ==> LeaseOk(s', c, q)
  {
    forall q: nat | Pending(s', c, q) ensures Resident(s', c, q) {
      if q in s.log {
        assert Pending(s, c, q);
      }
    }
    forall q: nat | q in s'.cons[c].leases ensures LeaseOk(s', c, q) {
      assert LeaseOk(s, c, q);
    }
  }

  lemma StablePc(s: State, s': State, c: nat)
    requires Ring(s) && Ring(s') && c < |s.cons| && ConsumerOk(s, c) && Others(s, s', c)
    ensures PcOk(s', c, s'.cons[c].pc)
  {
    var pc := s.cons[c].pc;
    if pc.ScanState? || pc.ScanMask? || pc.ScanSeq? {
      StableScanPc(s, s', c, pc);
    } else if pc.CheckState1? || pc.CheckSeq1? || pc.CheckHead? || pc.CheckMask1? || pc.CheckState2? || pc.CheckSeq2? || pc.CheckMask2? {
      StableCheckPc(s, s', c, pc);
    } else {
      StableMarks(s, s', c);
    }
  }

  lemma StableScanPc(s: State, s': State, c: nat, pc: Pc)
    requires Ring(s) && Ring(s') && c < |s.cons| && PcOk(s, c, pc) && Others(s, s', c)
    requires pc.ScanState? || pc.ScanMask? || pc.ScanSeq?
    ensures PcOk(s', c, pc)
  {
    StableScan(s, s', c, pc.sc);
  }

  lemma StableCheckPc(s: State, s': State, c: nat, pc: Pc)
    requires Ring(s) && Ring(s') && c < |s.cons| && PcOk(s, c, pc) && Others(s, s', c)
    requires pc.CheckState1? || pc.CheckSeq1? || pc.CheckHead? || pc.CheckMask1? || pc.CheckState2? || pc.CheckSeq2? || pc.CheckMask2?
    ensures PcOk(s', c, pc)
  {
    if pc.CheckState1? || pc.CheckSeq1? {
      StableMarks(s, s', c);
    } else {
      StableMatch(s, s', c, pc.ck, pc.words);
    }
  }

  lemma StableMatch(s: State, s': State, c: nat, ck: Check, words: map<nat, nat>)
    requires Ring(s) && Ring(s') && c < |s.cons| && Others(s, s', c) && Matched(s, c, ck, words)
    ensures Matched(s', c, ck, words)
  {
    StableMarks(s, s', c);
  }

  lemma StableMarks(s: State, s': State, c: nat)
    requires Ring(s) && Ring(s') && c < |s.cons| && Others(s, s', c)
    ensures forall f0: nat :: f0 <= Frontier(s) && NothingBelow(s, c, f0) ==> NothingBelow(s', c, f0)
    ensures forall obs: nat, f0: nat :: WakeOk(s, obs, f0) ==> WakeOk(s', obs, f0)
    ensures forall cand :: Real(s, cand) ==> Real(s', cand)
    ensures forall ck :: CheckOk(s, c, ck) ==> CheckOk(s', c, ck)
  {
    assert forall q: nat :: Pending(s', c, q) && q in s.log ==> Pending(s, c, q);
    forall obs: nat, f0: nat | WakeOk(s, obs, f0) ensures WakeOk(s', obs, f0) {
    }
  }

  lemma StableScan(s: State, s': State, c: nat, sc: Scan)
    requires Ring(s) && Ring(s') && c < |s.cons| && Others(s, s', c) && ScanOk(s, c, sc)
    ensures ScanOk(s', c, sc)
  {
    StableMarks(s, s', c);
    forall q: nat | Pending(s', c, q) && q < sc.f && s'.log[q].slot < sc.i
      ensures sc.cur.Some? && sc.cur.value.sn <= q
    {
      assert Pending(s, c, q);
    }
  }
}
