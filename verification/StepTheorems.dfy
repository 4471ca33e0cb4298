/** The results about whole runs of the step model. */
module StepTheorems {
  import opened TenzorCore
  import opened StepRing
  import opened StepInvariant
  import opened StepProducer
  import opened StepConsumer

  // ---- the invariant over every run -----------------------------------------

  lemma InitialInv(s: State)
    requires Initial(s)
    ensures Inv(s)
  {
  }

  lemma ProducerStepKeepsInv(s: State, t: ProducerStep)
    requires Inv(s) && ProducerCan(s, t)
    ensures Inv(ProducerDo(s, t))
  {
    var s' := ProducerDo(s, t);
    ProducerKeepsRing(s, t);
    OnlySlotsAndLog(s, t);
    forall c: nat | c < |s'.cons| && IsLive(s', c) ensures ConsumerOk(s', c) {
      assert ConsumerOk(s, c);
      ProducerGuarantee(s, t, c);
      Stable(s, s', c);
    }
  }

  lemma OnlySlotsAndLog(s: State, t: ProducerStep)
    requires ProducerCan(s, t)
    ensures ProducerDo(s, t).cons == s.cons && ProducerDo(s, t).active == s.active
  {
  }

  lemma ConsumerStepKeepsInv(s: State, t: ConsumerStep)
    requires Inv(s) && ConsumerCan(s, t)
    ensures Inv(ConsumerDo(s, t))
  {
    var s' := ConsumerDo(s, t);
    assert t.Advance? ==> ConsumerOk(s, t.c);
    ConsumerKeepsRing(s, t);
    OnlyActorMoves(s, t);
    forall c: nat | c < |s'.cons| && IsLive(s', c) ensures ConsumerOk(s', c) {
      if c == t.c {
        ConsumerKeepsOwn(s, t);
      } else {
        assert ConsumerOk(s, c);
        Stable(s, s', c);
      }
    }
  }

  lemma OnlyActorMoves(s: State, t: ConsumerStep)
    requires ConsumerCan(s, t)
    ensures |ConsumerDo(s, t).cons| == |s.cons|
    ensures forall c: nat :: c < |s.cons| && c != t.c ==> ConsumerDo(s, t).cons[c] == s.cons[c]
    ensures ConsumerDo(s, t).log == s.log && ConsumerDo(s, t).prod == s.prod
    ensures ConsumerDo(s, t).next == s.next && ConsumerDo(s, t).word == s.word && ConsumerDo(s, t).unsig == s.unsig
  {
  }

  lemma StepKeepsInv(s: State, t: Step)
    requires Inv(s) && Can(s, t)
    ensures Inv(Do(s, t))
  {
    match t
    case ByProducer(p) => ProducerStepKeepsInv(s, p);
    case ByConsumer(a) => ConsumerStepKeepsInv(s, a);
  }

  lemma {:induction false} RunKeepsInv(s: State, ts: seq<Step>, s': State)
    requires Inv(s) && Run(s, ts, s')
    ensures Inv(s') && |s'.slots| == |s.slots|
    decreases |ts|
  {
    if ts != [] {
      StepKeepsInv(s, ts[0]);
      SlotsStay(s, ts[0]);
      RunKeepsInv(Do(s, ts[0]), ts[1..], s');
    }
  }

  // A state that some interleaving of steps reaches from a freshly formatted ring.
  ghost predicate Reachable(s: State) {
    exists s0, ts :: Initial(s0) && Run(s0, ts, s)
  }

  lemma ReachableInv(s: State)
    requires Reachable(s)
    ensures Inv(s)
  {
    var s0, ts :| Initial(s0) && Run(s0, ts, s);
    InitialInv(s0);
    RunKeepsInv(s0, ts, s);
  }

  // ---- snapshots ------------------------------------------------------------

  // Whatever a consumer has leased is one committed publication, whole: the words it
  // read are that publication's header, and the slot still holds the sequence, the
  // header and every payload byte as they were committed.
  lemma LeaseIsOnePublication(s: State, c: nat, q: nat)
    requires Reachable(s) && IsLive(s, c) && q in s.cons[c].leases
    ensures q in s.log && s.log[q].sn == q && s.log[q].slot == s.cons[c].leases[q].slot < |s.slots|
    ensures forall w: nat :: w < HEAD_WORDS ==>
              w in s.cons[c].leases[q].words && w < |s.log[q].head| && s.cons[c].leases[q].words[w] == s.log[q].head[w]
    ensures s.slots[s.log[q].slot].state.Committed? && c in s.slots[s.log[q].slot].mask
    ensures Holds(s.slots[s.log[q].slot], s.log[q])
  {
    ReachableInv(s);
    assert LeaseOk(s, c, q);
    assert SlotOk(s, s.log[q].slot);
  }

  // `publish` delivers the tensor it was given: the reservation starts as that tensor, no
  // step of the copy path changes it, and what is logged at commit is what the slot holds.
  lemma CopyIsVerbatim(s: State, t: ProducerStep)
    requires Inv(s) && ProducerCan(s, t)
    ensures t.BeginStores? && s.prod.req.Copy? ==>
              var r := ProducerDo(s, t).prod.r;
              !r.direct && r.pub.head == s.prod.req.head && r.pub.data == s.prod.req.data && r.pub.sn == s.next
    ensures Open(s.prod) && !s.prod.r.direct && Open(ProducerDo(s, t).prod) ==> ProducerDo(s, t).prod.r == s.prod.r
    ensures t.Commit? ==>
              var p, s' := s.prod.r.pub, ProducerDo(s, t);
              p.sn !in s.log && p.sn in s'.log && s'.log[p.sn] == p && p.slot < |s'.slots| && Holds(s'.slots[p.slot], p)
  {
    if t.Commit? {
      assert SlotOk(s, s.prod.r.pub.slot);
      var x, p := s.slots[s.prod.r.pub.slot], s.prod.r.pub;
      assert x.data[..|p.data|] == p.data;
    }
  }

  // A committed publication is never altered: the log only grows.
  lemma {:induction false} LogOnlyGrows(s: State, ts: seq<Step>, s': State)
    requires Inv(s) && Run(s, ts, s')
    ensures forall q: nat :: q in s.log ==> q in s'.log && s'.log[q] == s.log[q]
    decreases |ts|
  {
    if ts != [] {
      StepKeepsInv(s, ts[0]);
      LogStep(s, ts[0]);
      LogOnlyGrows(Do(s, ts[0]), ts[1..], s');
    }
  }

  lemma LogStep(s: State, t: Step)
    requires Inv(s) && Can(s, t)
    ensures forall q: nat :: q in s.log ==> q in Do(s, t).log && Do(s, t).log[q] == s.log[q]
  {
    match t
    case ByProducer(_) =>
    case ByConsumer(a) => OnlyActorMoves(s, a);
  }

  lemma SlotsStay(s: State, t: Step)
    requires Can(s, t)
    ensures |Do(s, t).slots| == |s.slots|
  {
  }

  // The slot q lies in reads the same in both states: state, sequence, header, payload.
  ghost predicate SameSlot(s: State, s': State, q: nat) {
    && q in s.log && s.log[q].slot < |s.slots| == |s'.slots|
    && var x, x', n := s.slots[s.log[q].slot], s'.slots[s.log[q].slot], |s.log[q].data|;
    && x'.state == x.state && x'.sn == x.sn && x'.head == x.head
    && n <= |x.data| && n <= |x'.data| && x'.data[..n] == x.data[..n]
  }

  // While a lease is out, no step of anyone touches its slot's state, sequence, header or
  // payload, whoever registers, publishes, aborts, dies or is reaped.
  lemma LeasedSlotIsFrozen(s: State, t: Step, c: nat, q: nat)
    requires Inv(s) && Can(s, t) && IsLive(s, c) && q in s.cons[c].leases
    requires IsLive(Do(s, t), c) && q in Do(s, t).cons[c].leases
    ensures SameSlot(s, Do(s, t), q)
  {
    StepKeepsInv(s, t);
    LogStep(s, t);
    SlotsStay(s, t);
    LeaseHolds(s, c, q);
    LeaseHolds(Do(s, t), c, q);
    HoldsIsFrozen(s, Do(s, t), q);
  }

  lemma HoldsIsFrozen(s: State, s': State, q: nat)
    requires |s'.slots| == |s.slots| && q in s.log && q in s'.log && s'.log[q] == s.log[q]
    requires s.log[q].slot < |s.slots|
    requires s.slots[s.log[q].slot].state.Committed? && Holds(s.slots[s.log[q].slot], s.log[q])
    requires s'.slots[s.log[q].slot].state.Committed? && Holds(s'.slots[s.log[q].slot], s.log[q])
    ensures SameSlot(s, s', q)
  {
  }

  lemma LeaseHolds(s: State, c: nat, q: nat)
    requires Inv(s) && IsLive(s, c) && q in s.cons[c].leases
    ensures q in s.log && s.log[q].slot < |s.slots|
    ensures s.slots[s.log[q].slot].state.Committed? && Holds(s.slots[s.log[q].slot], s.log[q])
  {
    assert LeaseOk(s, c, q);
    assert SlotOk(s, s.log[q].slot);
  }

  // The first release of a lease never reports a lease violation.
  lemma ReleaseNeverFails(s: State, c: nat)
    requires Reachable(s) && IsLive(s, c)
    ensures !s.cons[c].pc.Violated?
    ensures s.cons[c].pc.ReleaseSeq? ==>
              var q := s.cons[c].pc.q;
              q in s.cons[c].leases && s.cons[c].leases[q].slot < |s.slots| && s.slots[s.cons[c].leases[q].slot].sn == q
    ensures s.cons[c].pc.ReleaseMask? ==>
              var q := s.cons[c].pc.q;
              q in s.cons[c].leases && s.cons[c].leases[q].slot < |s.slots| && c in s.slots[s.cons[c].leases[q].slot].mask
  {
    ReachableInv(s);
    assert ConsumerOk(s, c);
    var pc := s.cons[c].pc;
    if pc.ReleaseSeq? || pc.ReleaseMask? {
      assert LeaseOk(s, c, pc.q);
    }
  }

  // The producer never rewrites a slot some live consumer still claims.
  lemma ReserveAvoidsClaims(s: State, c: nat)
    requires Reachable(s) && ProducerCan(s, BeginStores) && IsLive(s, c)
    ensures c !in s.slots[s.prod.i].mask
    ensures forall q: nat :: q in s.cons[c].leases ==> s.cons[c].leases[q].slot != s.prod.i
    ensures forall q: nat :: Pending(s, c, q) ==> s.log[q].slot != s.prod.i
  {
    ReachableInv(s);
    forall q: nat | q in s.cons[c].leases ensures s.cons[c].leases[q].slot != s.prod.i {
      assert LeaseOk(s, c, q);
    }
    forall q: nat | Pending(s, c, q) ensures s.log[q].slot != s.prod.i {
      assert Resident(s, c, q);
    }
  }

  // ---- order ----------------------------------------------------------------

  lemma {:induction false} PrefixUpTo(xs: seq<nat>, ys: seq<nat>, m: nat)
    requires Increasing(xs) && Increasing(ys)
    requires forall q: nat :: q in xs <==> q in ys && q <= m
    ensures xs <= ys
    decreases |xs|
  {
    if xs != [] {
      assert xs[0] in ys && xs[0] <= m;
      var k :| 0 <= k < |ys| && ys[k] == xs[0];
      assert ys[0] in ys && ys[0] <= ys[k];
      assert ys[0] in xs;
      assert xs[0] == ys[0];
      forall q: nat ensures q in xs[1..] <==> q in ys[1..] && q <= m {
        if q in xs[1..] {
          var j :| 1 <= j < |xs| && xs[j] == q;
          assert q in xs && q > xs[0];
          var l :| 0 <= l < |ys| && ys[l] == q;
          assert ys[1..][l - 1] == q;
        }
        if q in ys[1..] && q <= m {
          var j :| 1 <= j < |ys| && ys[j] == q;
          assert q in ys && q > ys[0];
          var l :| 0 <= l < |xs| && xs[l] == q;
          assert xs[1..][l - 1] == q;
        }
      }
      PrefixUpTo(xs[1..], ys[1..], m);
    } else {
    }
  }

  // The next lease is always the oldest publication still to be taken, even when commits
  // land while the slots are being scanned.
  lemma TakesTheOldest(s: State, c: nat)
    requires Reachable(s) && ConsumerCan(s, Advance(c)) && s.cons[c].pc.CheckMask2?
    ensures var x' := ConsumerDo(s, Advance(c)).cons[c];
            && x'.got == s.cons[c].got + [s.cons[c].pc.ck.cand.sn]
            && x'.last == s.cons[c].pc.ck.cand.sn
            && Pending(s, c, x'.last)
    ensures forall q: nat :: Pending(s, c, q) ==> s.cons[c].pc.ck.cand.sn <= q
  {
    ReachableInv(s);
    var pc := s.cons[c].pc;
    MatchedIsCommitted(s, c, pc.ck, pc.words);
  }

  // Under sequential consistency the second validation pass refuses nothing that the first
  // accepted: from the first matching sequence on, every check succeeds.
  lemma SecondPassIsImplied(s: State, c: nat)
    requires Reachable(s) && ConsumerCan(s, Advance(c))
    requires var pc := s.cons[c].pc; pc.CheckMask1? || pc.CheckState2? || pc.CheckSeq2? || pc.CheckMask2?
    ensures var pc, pc' := s.cons[c].pc, ConsumerDo(s, Advance(c)).cons[c].pc;
            && (pc.CheckMask1? ==> pc' == CheckState2(pc.ck, pc.words, true))
            && (pc.CheckState2? ==> pc' == CheckSeq2(pc.ck, pc.words, pc.bit))
            && (pc.CheckSeq2? ==> pc' == CheckMask2(pc.ck, pc.words, pc.bit))
            && (pc.CheckMask2? ==> pc'.Out? && pc.ck.cand.sn in ConsumerDo(s, Advance(c)).cons[c].leases)
  {
    ReachableInv(s);
    var pc := s.cons[c].pc;
    MatchedIsCommitted(s, c, pc.ck, pc.words);
  }

  // ---- wake-ups -------------------------------------------------------------

  // A consumer that reaches its futex wait with the publish word still as it was loaded
  // before the scan has missed nothing whose commit was already signalled.
  lemma NoLostWake(s: State, c: nat)
    requires Reachable(s) && IsLive(s, c) && s.cons[c].pc.Asleep? && s.word == s.cons[c].pc.obs
    ensures forall q: nat :: q in s.log && q > s.cons[c].base && q !in s.cons[c].got ==> q in s.unsig
  {
    ReachableInv(s);
    forall q: nat | q in s.log && q > s.cons[c].base && q !in s.cons[c].got ensures q in s.unsig {
      assert Pending(s, c, q);
    }
  }

  // ---- claims ---------------------------------------------------------------

  // Every claim bit belongs to an active registry entry, so an entry that is handed out
  // again inherits no claim.
  lemma ClaimsAreActive(s: State, c: nat, i: nat)
    requires Reachable(s) && i < |s.slots| && c in s.slots[i].mask
    ensures c in s.active && c < |s.cons| && !s.cons[c].status.Absent?
  {
    ReachableInv(s);
    assert SlotOk(s, i);
  }

  // The slot was reserved for publication p and has its sequence and its header, whole.
  ghost predicate ReservedFor(s: State, i: nat, p: Publication)
    requires i < |s.slots|
  {
    p.slot == i && s.slots[i].sn == p.sn && s.slots[i].head == p.head
  }

  // The mask is stored after the sequence and the header.  So whoever sees a bit in a mask
  // sees a slot that is a committed publication's, payload and all, or the open or abandoned
  // reservation's with sequence and header already in place.
  lemma BitNamesOnePublication(s: State, c: nat, i: nat)
    requires Reachable(s) && i < |s.slots| && c in s.slots[i].mask
    ensures s.slots[i].state.Committed? || s.slots[i].state.Writing?
    ensures s.slots[i].state.Committed? ==>
              var q := s.slots[i].sn;
              q in s.log && ReservedFor(s, i, s.log[q]) && Holds(s.slots[i], s.log[q])
    ensures s.slots[i].state.Writing? ==> HasReservation(s.prod) && ReservedFor(s, i, s.prod.r.pub)
  {
    ReachableInv(s);
    assert SlotOk(s, i);
  }

  ghost predicate Retracts(s: State, t: Step) {
    || (t == ByProducer(NextStore) && s.prod.AbortMask?)
    || t == ByProducer(Recover)
  }

  // And from then on the slot is that publication's until the consumer clears its bit: the
  // only other thing that clears it is an abort or a recovery while the slot is WRITING.
  lemma BitPinsTheSlot(s: State, t: Step, c: nat, i: nat)
    requires Inv(s) && Can(s, t) && IsLive(s, c) && IsLive(Do(s, t), c)
    requires i < |s.slots| && c in s.slots[i].mask
    ensures i < |Do(s, t).slots|
    ensures var x, x' := s.slots[i], Do(s, t).slots[i];
            || (c in x'.mask && x'.sn == x.sn && (x'.state == x.state || (x.state.Writing? && x'.state.Committed?)))
            || (t == ByConsumer(Advance(c)) && s.cons[c].pc.ReleaseMask? && c !in x'.mask && x.state.Committed?)
            || (Retracts(s, t) && x.state.Writing? && c !in x'.mask)
  {
    assert SlotOk(s, i);
    match t
    case ByProducer(p) => BitThroughProducer(s, p, c, i);
    case ByConsumer(a) => BitThroughConsumer(s, a, c, i);
  }

  lemma BitThroughProducer(s: State, p: ProducerStep, c: nat, i: nat)
    requires Inv(s) && ProducerCan(s, p) && i < |s.slots| && c in s.slots[i].mask
    ensures |ProducerDo(s, p).slots| == |s.slots|
    ensures var x, x' := s.slots[i], ProducerDo(s, p).slots[i];
            || (c in x'.mask && x'.sn == x.sn && (x'.state == x.state || (x.state.Writing? && x'.state.Committed?)))
            || (Retracts(s, ByProducer(p)) && x.state.Writing? && c !in x'.mask)
  {
    assert SlotOk(s, i);
  }

  lemma BitThroughConsumer(s: State, a: ConsumerStep, c: nat, i: nat)
    requires Inv(s) && ConsumerCan(s, a) && IsLive(s, c) && IsLive(ConsumerDo(s, a), c)
    requires i < |s.slots| && c in s.slots[i].mask
    ensures |ConsumerDo(s, a).slots| == |s.slots|
    ensures var x, x' := s.slots[i], ConsumerDo(s, a).slots[i];
            || (c in x'.mask && x'.sn == x.sn && x'.state == x.state)
            || (a == Advance(c) && s.cons[c].pc.ReleaseMask? && c !in x'.mask && x.state.Committed?)
  {
    if a == Advance(c) && s.cons[c].pc.ReleaseMask? {
      assert LeaseOk(s, c, s.cons[c].pc.q);
    }
  }

  lemma NewEntryHasNoClaims(s: State, c: nat)
    requires Reachable(s) && ConsumerCan(s, Register(c))
    ensures forall i: nat :: i < |s.slots| ==> c !in ConsumerDo(s, Register(c)).slots[i].mask
    ensures ConsumerOk(ConsumerDo(s, Register(c)), c)
  {
    ReachableInv(s);
    forall i: nat | i < |s.slots| ensures c !in s.slots[i].mask {
      assert SlotOk(s, i);
    }
    RegisterEstablishes(s, c);
  }
}
