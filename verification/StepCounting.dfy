/**
 Two invariants that need a hypothesis about the run: sequence numbers are conserved
 when no producer dies, and every claim can still be taken when no abort hands back a
 sequence that a consumer registered against.
 */
module StepCounting {
  import opened StepRing
  import opened StepInvariant
  import opened StepProducer
  import opened StepConsumer
  import opened StepTheorems

  // ---- conservation ---------------------------------------------------------

  // 1 while a reservation holds a sequence number that next_sequence has moved past.
  function Outstanding(p: Producer): nat {
    if p.Filling? || p.AbortMask? || p.AbortState? || p.AbortNext? then 1 else 0
  }

  ghost predicate Conserved(s: State) {
    && (forall q: nat :: q in s.log <==> 1 <= q < Frontier(s))
    && !s.prod.Abandoned? && !s.prod.Recovering?
  }

  // Between commits neither the frontier nor the log moves; a commit moves both by one.
  lemma OnlyCommitCounts(s: State, t: ProducerStep)
    requires Ring(s) && ProducerCan(s, t) && !t.ProducerDies? && !t.Recover? && !t.Commit?
    ensures Frontier(ProducerDo(s, t)) == Frontier(s) && ProducerDo(s, t).log == s.log
    ensures !ProducerDo(s, t).prod.Abandoned? && !ProducerDo(s, t).prod.Recovering?
  {
  }

  // Committing, aborting, dropping and refusing keep the committed sequences exactly
  // 1 .. frontier-1; only the death of a producer can waste one.
  lemma StepConserves(s: State, t: Step)
    requires Inv(s) && Conserved(s) && Can(s, t) && t != ByProducer(ProducerDies)
    ensures Conserved(Do(s, t))
  {
    match t
    case ByProducer(p) => if !p.Commit? { OnlyCommitCounts(s, p); }
    case ByConsumer(a) => OnlyActorMoves(s, a);
  }

  lemma {:induction false} RunConserves(s: State, ts: seq<Step>, s': State)
    requires Inv(s) && Conserved(s) && Run(s, ts, s')
    requires ByProducer(ProducerDies) !in ts
    ensures Inv(s') && Conserved(s')
    decreases |ts|
  {
    if ts != [] {
      assert ts[0] in ts;
      StepKeepsInv(s, ts[0]);
      StepConserves(s, ts[0]);
      RunConserves(Do(s, ts[0]), ts[1..], s');
    }
  }

  // next_sequence = 1 + publications + reservations still open, after any crash-free run.
  lemma SequencesAreConserved(s0: State, ts: seq<Step>, s: State)
    requires Initial(s0) && Run(s0, ts, s)
    requires ByProducer(ProducerDies) !in ts
    ensures s.next == 1 + |s.log| + Outstanding(s.prod)
    ensures forall q: nat :: q in s.log <==> 1 <= q <= |s.log|
  {
    InitialInv(s0);
    RunConserves(s0, ts, s);
    CountUpTo(s.log.Keys, Frontier(s));
    assert |s.log| == |s.log.Keys|;
  }

  lemma {:induction false} CountUpTo(m: set<nat>, n: nat)
    requires n >= 1 && forall q: nat :: q in m <==> 1 <= q < n
    ensures |m| == n - 1
  {
    if n == 1 {
      assert m == {};
    } else {
      CountUpTo(m - {n - 1}, n - 1);
    }
  }

  // ---- every claim can be taken ---------------------------------------------

  // Every live consumer has its mark below this reservation, which is to say (module
  // StepDelivery) that it was registered when the reservation was made.
  ghost predicate NobodyJoined(s: State, r: Reservation) {
    forall c: nat :: IsLive(s, c) ==> s.cons[c].last < r.pub.sn
  }

  ghost predicate ClaimDeliverable(s: State, c: nat, i: nat)
    requires c < |s.cons| && i < |s.slots|
  {
    Claimed(s, c, i) ==> s.slots[i].sn > s.cons[c].last || s.slots[i].sn in s.cons[c].leases
  }

  ghost predicate Deliverable(s: State) {
    && (forall c: nat :: IsLive(s, c) ==> s.cons[c].last < s.next)
    && (forall c: nat, i: nat :: IsLive(s, c) && i < |s.slots| ==> ClaimDeliverable(s, c, i))
    && (Open(s.prod) && s.prod.r.pub.slot < |s.slots| ==>
          forall c: nat :: IsLive(s, c) && c in ReadersOf(s) ==> s.cons[c].last < s.prod.r.pub.sn)
    && (s.prod.AbortMask? || s.prod.AbortState? || s.prod.AbortNext? ==> NobodyJoined(s, s.prod.r))
  }

  // Only a commit makes a claim; every other producer step works on an uncommitted slot.
  lemma OnlyCommitClaims(s: State, t: ProducerStep, c: nat, i: nat)
    requires Inv(s) && ProducerCan(s, t) && !t.Commit? && Claimed(ProducerDo(s, t), c, i)
    ensures Claimed(s, c, i) && ProducerDo(s, t).slots[i].sn == s.slots[i].sn
  {
    assert SlotOk(s, i);
  }

  lemma CommitKeepsDeliverable(s: State)
    requires Inv(s) && Deliverable(s) && ProducerCan(s, Commit)
    ensures Deliverable(ProducerDo(s, Commit))
  {
    var s' := ProducerDo(s, Commit);
    assert forall c: nat :: IsLive(s', c) <==> IsLive(s, c);
    forall c: nat, i: nat | IsLive(s', c) && i < |s'.slots| ensures ClaimDeliverable(s', c, i) {
      assert ClaimDeliverable(s, c, i);
    }
  }

  lemma ProducerKeepsDeliverable(s: State, t: ProducerStep)
    requires Inv(s) && Deliverable(s) && ProducerCan(s, t)
    requires t.BeginAbort? ==> NobodyJoined(s, s.prod.r)
    ensures Deliverable(ProducerDo(s, t))
  {
    var s' := ProducerDo(s, t);
    if t.Commit? {
      CommitKeepsDeliverable(s);
    } else {
      OnlySlotsAndLog(s, t);
      assert forall c: nat :: IsLive(s', c) <==> IsLive(s, c);
      forall c: nat, i: nat | IsLive(s', c) && i < |s'.slots| ensures ClaimDeliverable(s', c, i) {
        if Claimed(s', c, i) {
          OnlyCommitClaims(s, t, c, i);
          assert ClaimDeliverable(s, c, i);
        }
      }
      ProducerMarks(s, t);
    }
  }

  // The parts of Deliverable about the counter and the open reservation.
  lemma ProducerMarks(s: State, t: ProducerStep)
    requires Inv(s) && Deliverable(s) && ProducerCan(s, t) && !t.Commit?
    requires t.BeginAbort? ==> NobodyJoined(s, s.prod.r)
    ensures var s' := ProducerDo(s, t);
      && (forall c: nat :: IsLive(s', c) ==> s'.cons[c].last < s'.next)
      && (Open(s'.prod) && s'.prod.r.pub.slot < |s'.slots| ==>
            forall c: nat :: IsLive(s', c) && c in ReadersOf(s') ==> s'.cons[c].last < s'.prod.r.pub.sn)
      && (s'.prod.AbortMask? || s'.prod.AbortState? || s'.prod.AbortNext? ==> NobodyJoined(s', s'.prod.r))
  {
    var s' := ProducerDo(s, t);
    OnlySlotsAndLog(s, t);
    assert forall c: nat :: IsLive(s', c) <==> IsLive(s, c);
    if t.NextStore? {
      StoreMarks(s);
    }
  }

  lemma StoreMarks(s: State)
    requires Inv(s) && Deliverable(s) && ProducerCan(s, NextStore)
    ensures var s' := ProducerStore(s);
      && (forall c: nat :: IsLive(s', c) ==> s'.cons[c].last < s'.next)
      && (Open(s'.prod) && s'.prod.r.pub.slot < |s'.slots| ==>
            forall c: nat :: IsLive(s', c) && c in ReadersOf(s') ==> s'.cons[c].last < s'.prod.r.pub.sn)
      && (s'.prod.AbortMask? || s'.prod.AbortState? || s'.prod.AbortNext? ==> NobodyJoined(s', s'.prod.r))
  {
    assert forall c: nat :: IsLive(ProducerStore(s), c) <==> IsLive(s, c);
  }

  lemma MasksShrink(s: State, t: ConsumerStep)
    requires ConsumerCan(s, t)
    ensures |ConsumerDo(s, t).slots| == |s.slots|
    ensures forall i: nat :: i < |s.slots| ==>
              var x, x' := s.slots[i], ConsumerDo(s, t).slots[i];
              x'.state == x.state && x'.sn == x.sn && x'.mask <= x.mask
  {
  }

  lemma FrontierBelowNext(s: State)
    requires Ring(s)
    ensures Frontier(s) <= s.next
  {
  }

  // What a step may do to the actor's own mark and leases.
  ghost predicate OwnMoves(s: State, s': State, a: nat) {
    && a < |s.cons| == |s'.cons|
    && var x, x' := s.cons[a], s'.cons[a];
    || (x'.last == x.last && forall q: nat :: q in x.leases ==>
          q in x'.leases || (q in s.log && s.log[q].slot < |s'.slots| && a !in s'.slots[s.log[q].slot].mask))
    || (Pending(s, a, x'.last) && x'.last in x'.leases
        && (forall q: nat :: Pending(s, a, q) ==> x'.last <= q)
        && (forall q: nat :: q in x.leases ==> q in x'.leases))
  }

  lemma AdvanceMovesOwn(s: State, a: nat)
    requires Inv(s) && ConsumerCan(s, Advance(a))
    ensures OwnMoves(s, ConsumerDo(s, Advance(a)), a)
  {
    var pc := s.cons[a].pc;
    if pc.CheckMask2? {
      TakeMovesOwn(s, a);
    } else if pc.ReleaseMask? {
      assert LeaseOk(s, a, pc.q);
    } else {
      LoadIsPrivate(s, a);
      PcStep(s, a);
    }
  }

  lemma TakeMovesOwn(s: State, a: nat)
    requires Inv(s) && ConsumerCan(s, Advance(a)) && s.cons[a].pc.CheckMask2?
    ensures OwnMoves(s, ConsumerDo(s, Advance(a)), a)
  {
    MatchedIsCommitted(s, a, s.cons[a].pc.ck, s.cons[a].pc.words);
  }

  lemma PcStep(s: State, a: nat)
    requires ConsumerCan(s, Advance(a)) && !s.cons[a].pc.CheckMask2? && !s.cons[a].pc.ReleaseMask?
    ensures ConsumerDo(s, Advance(a)).cons[a].last == s.cons[a].last
    ensures ConsumerDo(s, Advance(a)).cons[a].leases == s.cons[a].leases
  {
  }

  lemma OwnClaims(s: State, s': State, a: nat, i: nat)
    requires Inv(s) && IsLive(s, a) && OwnMoves(s, s', a) && |s'.slots| == |s.slots| && i < |s.slots|
    requires ClaimDeliverable(s, a, i)
    requires s'.slots[i].state == s.slots[i].state && s'.slots[i].sn == s.slots[i].sn && s'.slots[i].mask <= s.slots[i].mask
    ensures ClaimDeliverable(s', a, i)
  {
    assert SlotOk(s, i);
    if Claimed(s', a, i) && s.slots[i].sn > s.cons[a].last {
      assert Pending(s, a, s.slots[i].sn);
    }
  }

  lemma RegisterKeepsDeliverable(s: State, a: nat)
    requires Inv(s) && Deliverable(s) && ConsumerCan(s, Register(a))
    ensures Deliverable(ConsumerDo(s, Register(a)))
  {
    var s' := ConsumerDo(s, Register(a));
    forall i: nat | i < |s.slots| ensures a !in s.slots[i].mask {
      assert SlotOk(s, i);
    }
    forall c: nat, i: nat | IsLive(s', c) && i < |s'.slots| ensures ClaimDeliverable(s', c, i) {
      if c != a {
        assert IsLive(s, c) && ClaimDeliverable(s, c, i);
      }
    }
  }

  lemma ConsumerKeepsDeliverable(s: State, t: ConsumerStep)
    requires Inv(s) && Deliverable(s) && ConsumerCan(s, t)
    ensures Deliverable(ConsumerDo(s, t))
  {
    var s' := ConsumerDo(s, t);
    var a := t.c;
    if t.Register? {
      RegisterKeepsDeliverable(s, a);
    } else {
      OnlyActorMoves(s, t);
      MasksShrink(s, t);
      FrontierBelowNext(s);
      if IsLive(s', a) {
        OwnMovesOf(s, t);
      }
      ShrinkKeepsDeliverable(s, s', a);
    }
  }

  lemma OwnMovesOf(s: State, t: ConsumerStep)
    requires Inv(s) && ConsumerCan(s, t) && !t.Register? && IsLive(ConsumerDo(s, t), t.c)
    ensures IsLive(s, t.c) && OwnMoves(s, ConsumerDo(s, t), t.c)
  {
    if t.Advance? {
      AdvanceMovesOwn(s, t.c);
    }
  }

  lemma ShrinkKeepsDeliverable(s: State, s': State, a: nat)
    requires Inv(s) && Deliverable(s) && Frontier(s) <= s.next
    requires a < |s.cons| == |s'.cons| && |s'.slots| == |s.slots|
    requires s'.prod == s.prod && s'.next == s.next && s'.log == s.log
    requires forall c: nat :: c < |s.cons| && c != a ==> s'.cons[c] == s.cons[c]
    requires IsLive(s', a) ==> IsLive(s, a) && OwnMoves(s, s', a)
    requires forall i: nat :: i < |s.slots| ==>
               var x, x' := s.slots[i], s'.slots[i];
               x'.state == x.state && x'.sn == x.sn && x'.mask <= x.mask
    ensures Deliverable(s')
  {
    forall c: nat, i: nat | IsLive(s', c) && i < |s'.slots| ensures ClaimDeliverable(s', c, i) {
      assert IsLive(s, c) && ClaimDeliverable(s, c, i);
      if c == a {
        OwnClaims(s, s', a, i);
      }
    }
    assert Open(s.prod) && s.prod.r.pub.slot < |s.slots| ==> ReadersOf(s') <= ReadersOf(s);
  }

  lemma StepKeepsDeliverable(s: State, t: Step)
    requires Inv(s) && Deliverable(s) && Can(s, t)
    requires t == ByProducer(BeginAbort) ==> NobodyJoined(s, s.prod.r)
    ensures Inv(Do(s, t)) && Deliverable(Do(s, t))
  {
    StepKeepsInv(s, t);
    match t
    case ByProducer(p) => ProducerKeepsDeliverable(s, p);
    case ByConsumer(a) => ConsumerKeepsDeliverable(s, a);
  }

  // A run in which no abort hands back a sequence a live consumer registered against.
  ghost predicate CarefulRun(s: State, ts: seq<Step>, s': State)
    decreases |ts|
  {
    if ts == [] then s' == s
    else
      && Can(s, ts[0])
      && (ts[0] == ByProducer(BeginAbort) ==> NobodyJoined(s, s.prod.r))
      && CarefulRun(Do(s, ts[0]), ts[1..], s')
  }

  lemma {:induction false} CarefulRunDelivers(s: State, ts: seq<Step>, s': State)
    requires Inv(s) && Deliverable(s) && CarefulRun(s, ts, s')
    ensures Inv(s') && Deliverable(s')
    decreases |ts|
  {
    if ts != [] {
      StepKeepsDeliverable(s, ts[0]);
      CarefulRunDelivers(Do(s, ts[0]), ts[1..], s');
    }
  }

  // Every claim of a live consumer is one of its leases or is still to be taken by it, so
  // no slot is pinned by a publication its consumer can never take.
  lemma EveryClaimIsLeasedOrPending(s0: State, ts: seq<Step>, s: State, c: nat, i: nat)
    requires Initial(s0) && CarefulRun(s0, ts, s) && IsLive(s, c) && Claimed(s, c, i)
    ensures s.slots[i].sn in s.cons[c].leases || Pending(s, c, s.slots[i].sn)
  {
    InitialInv(s0);
    CarefulRunDelivers(s0, ts, s);
    assert SlotOk(s, i);
    assert ClaimDeliverable(s, c, i);
  }

  // ---- what goes wrong without the hypothesis --------------------------------

  function AfterAbort(s: State): State
    requires s.prod.Filling? && s.prod.r.pub.slot < |s.slots|
  {
    var i := s.prod.r.pub.slot;
    var s1 := ProducerDo(s, BeginAbort);
    var s2 := ProducerDo(s1, NextStore);
    var s3 := ProducerDo(s2, NextStore);
    ProducerDo(s3, NextStore)
  }

  // A claim on a publication that is neither leased nor newer than last_sequence.
  ghost predicate Stuck(s: State, c: nat, i: nat) {
    && IsLive(s, c) && Claimed(s, c, i)
    && s.slots[i].sn <= s.cons[c].last && s.slots[i].sn !in s.cons[c].leases
  }

  // What goes wrong otherwise: the next reservation reuses the consumer's own mark, counts
  // it as a reader, and once committed the slot is pinned ...
  lemma ReusedSequenceGetsStuck(s: State, c: nat)
    requires Inv(s) && IsLive(s, c) && s.cons[c].last >= s.next && s.prod.Chosen? && ProducerCan(s, BeginStores)
    ensures var s' := ProducerDo(s, BeginStores);
            s'.prod.StoreSeq? && c in s'.prod.r.readers && s'.prod.r.pub.sn <= s'.cons[c].last
  {
  }

  lemma CommitMakesStuck(s: State, c: nat)
    requires Inv(s) && IsLive(s, c) && ProducerCan(s, Commit)
    requires c in ReadersOf(s) && s.prod.r.pub.sn <= s.cons[c].last
    ensures Stuck(ProducerDo(s, Commit), c, s.prod.r.pub.slot)
  {
    assert forall q: nat :: q in s.cons[c].leases ==> LeaseOk(s, c, q);
    assert SlotOk(s, s.prod.r.pub.slot);
  }

  // ... until that consumer leaves, whatever anyone does.
  lemma StuckForever(s: State, t: Step, c: nat, i: nat)
    requires Inv(s) && Can(s, t) && Stuck(s, c, i) && t != ByConsumer(Leave(c))
    ensures Stuck(Do(s, t), c, i)
  {
    assert ConsumerOk(s, c);
    match t
    case ByProducer(p) =>
      OnlySlotsAndLog(s, p);
      ProducerGuarantee(s, p, c);
    case ByConsumer(a) => StuckThroughConsumers(s, a, c, i);
  }

  lemma StuckThroughConsumers(s: State, t: ConsumerStep, c: nat, i: nat)
    requires Inv(s) && ConsumerCan(s, t) && Stuck(s, c, i) && t != Leave(c)
    ensures Stuck(ConsumerDo(s, t), c, i)
  {
    assert ConsumerOk(s, c);
    if t.c != c {
      OnlyActorMoves(s, t);
      assert t.Advance? ==> ConsumerOk(s, t.c);
      ConsumerKeepsRing(s, t);
    } else if t.Advance? {
      StuckThroughOwn(s, c, i);
    }
  }

  lemma StuckThroughOwn(s: State, c: nat, i: nat)
    requires Inv(s) && ConsumerCan(s, Advance(c)) && Stuck(s, c, i)
    ensures Stuck(ConsumerDo(s, Advance(c)), c, i)
  {
    var pc := s.cons[c].pc;
    assert SlotOk(s, i);
    if pc.CheckMask2? {
      MatchedIsCommitted(s, c, pc.ck, pc.words);
    } else if pc.ReleaseMask? {
      assert LeaseOk(s, c, pc.q);
    } else {
      LoadIsPrivate(s, c);
      PcStep(s, c);
    }
  }
}
