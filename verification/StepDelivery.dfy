/**
 Who gets what.  A publication is meant for those whose registration its reservation
 found; the ghost `sent` records it for each of them.  The code has only masks and
 marks, and here stands how far these agree with the record.
 */
module StepDelivery {
  import opened StepRing
  import opened StepInvariant
  import opened StepTheorems
  import opened StepCounting

  // The mask, captured or stored, names exactly the recipients among the living.
  ghost predicate MaskNamesRecipients(s: State) {
    Open(s.prod) && s.prod.r.pub.slot < |s.slots| ==>
      forall c: nat :: IsLive(s, c) ==> (c in ReadersOf(s) <==> c in Recipients(s))
  }

  // The record of c holds every publication above its base, and besides these at most its
  // base itself.
  ghost predicate Recorded(s: State, c: nat)
    requires c < |s.cons| == |s.sent|
  {
    var base := s.cons[c].base;
    && base <= Frontier(s)
    && Increasing(s.sent[c])
    && (forall q: nat :: q in s.sent[c] ==> q in s.log && q >= base)
    && (forall q: nat :: q in s.log && q > base ==> q in s.sent[c])
  }

  ghost predicate Records(s: State) {
    && |s.sent| == |s.cons|
    && MaskNamesRecipients(s)
    && (forall c: nat :: IsLive(s, c) ==> Recorded(s, c))
  }

  // Nobody was sent the very sequence it registered at.
  ghost predicate Punctual(s: State) {
    |s.sent| == |s.cons| && forall c: nat :: IsLive(s, c) ==> s.cons[c].base !in s.sent[c]
  }

  // ---- the producer ---------------------------------------------------------

  lemma OnlyCommitSends(s: State, t: ProducerStep)
    requires ProducerCan(s, t) && !t.Commit?
    ensures ProducerDo(s, t).sent == s.sent && ProducerDo(s, t).log == s.log
  {
  }

  lemma ProducerKeepsMask(s: State, t: ProducerStep)
    requires Inv(s) && ProducerCan(s, t) && MaskNamesRecipients(s)
    ensures MaskNamesRecipients(ProducerDo(s, t))
  {
    OnlySlotsAndLog(s, t);
    assert forall c: nat :: IsLive(ProducerDo(s, t), c) <==> IsLive(s, c);
  }

  lemma FrontierGrows(s: State, t: ProducerStep)
    requires Ring(s) && ProducerCan(s, t)
    ensures Frontier(s) <= Frontier(ProducerDo(s, t))
  {
  }

  // At the commit, whoever is not yet past the publication is in the mask.
  lemma CommitRecords(s: State, c: nat)
    requires Inv(s) && Records(s) && ProducerCan(s, Commit) && IsLive(s, c)
    ensures Recorded(ProducerDo(s, Commit), c)
  {
    var s', q := ProducerDo(s, Commit), s.prod.r.pub.sn;
    assert ConsumerOk(s, c) && Recorded(s, c) && SlotOk(s, s.prod.r.pub.slot);
    assert forall p: nat :: p in s.sent[c] ==> p < q;
    AppendIncreasing(s.sent[c], q);
  }

  lemma AppendIncreasing(xs: seq<nat>, q: nat)
    requires Increasing(xs) && forall p: nat :: p in xs ==> p < q
    ensures Increasing(xs + [q])
  {
    forall k: nat | k < |xs| ensures xs[k] < q {
      assert xs[k] in xs;
    }
  }

  lemma ProducerKeepsRecords(s: State, t: ProducerStep)
    requires Inv(s) && Records(s) && ProducerCan(s, t)
    ensures Records(ProducerDo(s, t))
  {
    var s' := ProducerDo(s, t);
    OnlySlotsAndLog(s, t);
    ProducerKeepsMask(s, t);
    FrontierGrows(s, t);
    if !t.Commit? {
      OnlyCommitSends(s, t);
    }
    forall c: nat | IsLive(s', c) ensures Recorded(s', c) {
      assert IsLive(s, c) && Recorded(s, c);
      if t.Commit? {
        CommitRecords(s, c);
      }
    }
  }

  // ---- the consumers --------------------------------------------------------

  lemma RegisterKeepsRecords(s: State, c: nat)
    requires Inv(s) && Records(s) && ConsumerCan(s, Register(c))
    ensures Records(ConsumerDo(s, Register(c)))
  {
    var s' := ConsumerDo(s, Register(c));
    OnlyActorMoves(s, Register(c));
    FrontierIsNear(s);
    JoinIsLate(s, c);
    forall d: nat | IsLive(s', d) ensures Recorded(s', d) {
      if d != c {
        assert IsLive(s, d) && Recorded(s, d);
      }
    }
  }

  lemma FrontierIsNear(s: State)
    requires Ring(s) && LockFree(s.prod)
    ensures Frontier(s) <= s.next <= Frontier(s) + 1
  {
  }

  // A newcomer is in no mask, and in the record of latecomers.
  lemma JoinIsLate(s: State, c: nat)
    requires Inv(s) && MaskNamesRecipients(s) && ConsumerCan(s, Register(c))
    ensures MaskNamesRecipients(ConsumerDo(s, Register(c)))
  {
    var s' := ConsumerDo(s, Register(c));
    OnlyActorMoves(s, Register(c));
    if Open(s.prod) && s.prod.r.pub.slot < |s.slots| {
      assert SlotOk(s, s.prod.r.pub.slot);
      assert forall d: nat :: IsLive(s', d) && d != c ==> IsLive(s, d);
    }
  }

  // No other step of a consumer touches a record, or a bit of anyone alive in the open slot.
  lemma ConsumerSendsNothing(s: State, t: ConsumerStep)
    requires ConsumerCan(s, t) && !t.Register?
    ensures ConsumerDo(s, t).sent == s.sent && ConsumerDo(s, t).late == s.late
    ensures IsLive(ConsumerDo(s, t), t.c) ==> IsLive(s, t.c) && ConsumerDo(s, t).cons[t.c].base == s.cons[t.c].base
  {
  }

  lemma ReleaseLeavesTheOpenSlot(s: State, c: nat)
    requires Inv(s) && ConsumerCan(s, Advance(c)) && s.cons[c].pc.ReleaseMask? && Open(s.prod)
    ensures s.prod.r.pub.slot < |s.slots|
    ensures ConsumerDo(s, Advance(c)).slots[s.prod.r.pub.slot] == s.slots[s.prod.r.pub.slot]
  {
    assert LeaseOk(s, c, s.cons[c].pc.q);
    assert SlotOk(s, s.prod.r.pub.slot);
  }

  lemma ConsumerLeavesTheMask(s: State, t: ConsumerStep)
    requires Inv(s) && ConsumerCan(s, t) && !t.Register? && MaskNamesRecipients(s)
    ensures MaskNamesRecipients(ConsumerDo(s, t))
  {
    OnlyActorMoves(s, t);
    ConsumerSendsNothing(s, t);
    var s' := ConsumerDo(s, t);
    if Open(s.prod) {
      if t.Advance? && s.cons[t.c].pc.ReleaseMask? {
        ReleaseLeavesTheOpenSlot(s, t.c);
      }
      forall d: nat | IsLive(s', d) ensures d in ReadersOf(s') <==> d in ReadersOf(s) {
        assert IsLive(s, d);
      }
    }
  }

  lemma ConsumerKeepsRecords(s: State, t: ConsumerStep)
    requires Inv(s) && Records(s) && ConsumerCan(s, t)
    ensures Records(ConsumerDo(s, t))
  {
    var s' := ConsumerDo(s, t);
    if t.Register? {
      RegisterKeepsRecords(s, t.c);
    } else {
      OnlyActorMoves(s, t);
      ConsumerSendsNothing(s, t);
      ConsumerLeavesTheMask(s, t);
      assert Frontier(s') == Frontier(s);
      forall d: nat | IsLive(s', d) ensures Recorded(s', d) {
        assert IsLive(s, d) && Recorded(s, d);
      }
    }
  }

  lemma StepKeepsRecords(s: State, t: Step)
    requires Inv(s) && Records(s) && Can(s, t)
    ensures Records(Do(s, t))
  {
    match t
    case ByProducer(p) => ProducerKeepsRecords(s, p);
    case ByConsumer(a) => ConsumerKeepsRecords(s, a);
  }

  lemma {:induction false} RunKeepsRecords(s: State, ts: seq<Step>, s': State)
    requires Inv(s) && Records(s) && Run(s, ts, s')
    ensures Inv(s') && Records(s')
    decreases |ts|
  {
    if ts != [] {
      StepKeepsInv(s, ts[0]);
      StepKeepsRecords(s, ts[0]);
      RunKeepsRecords(Do(s, ts[0]), ts[1..], s');
    }
  }

  lemma ReachableRecords(s: State)
    requires Reachable(s)
    ensures Inv(s) && Records(s)
  {
    var s0, ts :| Initial(s0) && Run(s0, ts, s);
    InitialInv(s0);
    RunKeepsRecords(s0, ts, s);
  }

  // ---- who is addressed -----------------------------------------------------

  // In every run: a committed mask names exactly the living consumers that had registered
  // when the reservation was made.
  lemma MaskNamesTheRegistered(s: State, c: nat)
    requires Reachable(s) && ProducerCan(s, Commit) && IsLive(s, c)
    ensures c in ProducerDo(s, Commit).slots[s.prod.r.pub.slot].mask <==> c in Recipients(s)
    ensures s.prod.r.pub.sn > s.cons[c].base ==> c in Recipients(s)
  {
    ReachableRecords(s);
    assert ConsumerOk(s, c);
  }

  // The code's own test, sequence above mark, agrees with that if no abort has handed back
  // a sequence somebody registered at.
  lemma MarksNameTheRegistered(s: State, c: nat)
    requires Inv(s) && Records(s) && Deliverable(s) && ProducerCan(s, Commit) && IsLive(s, c)
    ensures c in s.slots[s.prod.r.pub.slot].mask <==> s.prod.r.pub.sn > s.cons[c].base
    ensures c in Recipients(s) <==> s.prod.r.pub.sn > s.cons[c].base
  {
    assert ConsumerOk(s, c);
  }

  // Without an unsafe abort so far, a consumer whose mark is not below the open reservation
  // is one that was not registered when it was made.
  lemma MarksNameTheLate(s: State, c: nat)
    requires Inv(s) && Records(s) && Deliverable(s) && s.prod.Filling? && IsLive(s, c)
    ensures s.cons[c].last >= s.prod.r.pub.sn <==> c !in Recipients(s)
  {
    assert ConsumerOk(s, c);
  }

  lemma StepKeepsPunctual(s: State, t: Step)
    requires Inv(s) && Records(s) && Deliverable(s) && Punctual(s) && Can(s, t)
    ensures Punctual(Do(s, t))
  {
    match t
    case ByProducer(p) =>
      OnlySlotsAndLog(s, p);
      if p.Commit? {
        forall c: nat | IsLive(s, c) ensures s.cons[c].base !in Do(s, t).sent[c] {
          MarksNameTheRegistered(s, c);
        }
      } else {
        OnlyCommitSends(s, p);
      }
    case ByConsumer(a) =>
      OnlyActorMoves(s, a);
      if !a.Register? {
        ConsumerSendsNothing(s, a);
      }
  }

  lemma {:induction false} CarefulRunIsPunctual(s: State, ts: seq<Step>, s': State)
    requires Inv(s) && Records(s) && Deliverable(s) && Punctual(s) && CarefulRun(s, ts, s')
    ensures Inv(s') && Records(s') && Deliverable(s') && Punctual(s')
    decreases |ts|
  {
    if ts != [] {
      StepKeepsRecords(s, ts[0]);
      StepKeepsPunctual(s, ts[0]);
      StepKeepsDeliverable(s, ts[0]);
      CarefulRunIsPunctual(Do(s, ts[0]), ts[1..], s');
    }
  }

  lemma CarefulFromFresh(s0: State, ts: seq<Step>, s: State)
    requires Initial(s0) && CarefulRun(s0, ts, s)
    ensures Inv(s) && Records(s) && Deliverable(s) && Punctual(s)
  {
    InitialInv(s0);
    CarefulRunIsPunctual(s0, ts, s);
  }

  // ---- order ----------------------------------------------------------------

  // The record above the base.
  function Above(xs: seq<nat>, base: nat): (ys: seq<nat>) {
    if xs != [] && xs[0] == base then xs[1..] else xs
  }

  lemma AboveIsTheRest(xs: seq<nat>, base: nat)
    requires Increasing(xs) && forall q: nat :: q in xs ==> q >= base
    ensures Increasing(Above(xs, base))
    ensures forall q: nat :: q in Above(xs, base) <==> q in xs && q > base
    ensures base !in xs ==> Above(xs, base) == xs
  {
    forall q: nat | q in xs && q > base ensures q in Above(xs, base) {
      var k :| 0 <= k < |xs| && xs[k] == q;
      if xs[0] == base {
        assert xs[1..][k - 1] == q;
      }
    }
    if xs != [] {
      assert xs[0] in xs;
    }
  }

  // In every run, what c has leased is, in order, a prefix of what was sent to it above its
  // mark: no gap, no repeat, no reordering.
  lemma DeliveredInOrder(s: State, c: nat)
    requires Reachable(s) && IsLive(s, c) && c < |s.sent|
    ensures s.cons[c].got <= Above(s.sent[c], s.cons[c].base)
    ensures forall q: nat :: q in Above(s.sent[c], s.cons[c].base) && q !in s.cons[c].got ==> Resident(s, c, q)
  {
    ReachableRecords(s);
    OrderOf(s, c);
  }

  lemma OrderOf(s: State, c: nat)
    requires Inv(s) && Records(s) && IsLive(s, c)
    ensures s.cons[c].got <= Above(s.sent[c], s.cons[c].base)
    ensures forall q: nat :: q in Above(s.sent[c], s.cons[c].base) <==> q in s.log && q > s.cons[c].base
    ensures forall q: nat :: q in Above(s.sent[c], s.cons[c].base) && q !in s.cons[c].got ==> Pending(s, c, q) && Resident(s, c, q)
  {
    var x := s.cons[c];
    assert ConsumerOk(s, c) && Recorded(s, c);
    AboveIsTheRest(s.sent[c], x.base);
    PrefixUpTo(x.got, Above(s.sent[c], x.base), x.last);
    forall q: nat | q in Above(s.sent[c], x.base) && q !in x.got ensures Resident(s, c, q) {
      assert Pending(s, c, q);
    }
  }

  // In a run without such an abort, everything reserved while c was registered and then
  // committed reaches it: leased in order, or waiting in its slot with the claim set.
  lemma EverythingSentIsDelivered(s0: State, ts: seq<Step>, s: State, c: nat)
    requires Initial(s0) && CarefulRun(s0, ts, s) && IsLive(s, c)
    ensures c < |s.sent| && s.cons[c].got <= s.sent[c]
    ensures forall q: nat :: q in s.sent[c] && q !in s.cons[c].got ==> Pending(s, c, q) && Resident(s, c, q)
  {
    CarefulFromFresh(s0, ts, s);
    OrderOf(s, c);
    assert Recorded(s, c);
    AboveIsTheRest(s.sent[c], s.cons[c].base);
  }

  // Delivery skips something sent if and only if the consumer's own mark was published.
  lemma SkipsExactlyWhen(s: State, c: nat)
    requires Reachable(s) && IsLive(s, c) && s.cons[c].got != [] && c < |s.sent|
    ensures s.cons[c].got <= s.sent[c] <==> s.cons[c].base !in s.sent[c]
  {
    ReachableRecords(s);
    OrderOf(s, c);
    var got, sent, base := s.cons[c].got, s.sent[c], s.cons[c].base;
    assert ConsumerOk(s, c) && Recorded(s, c);
    AboveIsTheRest(sent, base);
    assert got[0] in got && got[0] > base;
    if base in sent {
      var k :| 0 <= k < |sent| && sent[k] == base;
      assert sent[0] in sent && sent[0] >= base;
      assert k == 0;
    }
  }

  // A consumer that sleeps with the publish word unchanged since before its scan has been
  // sent nothing that it has not taken and whose signal is complete.
  lemma NothingSentIsSleptThrough(s0: State, ts: seq<Step>, s: State, c: nat)
    requires Initial(s0) && CarefulRun(s0, ts, s) && IsLive(s, c)
    requires s.cons[c].pc.Asleep? && s.word == s.cons[c].pc.obs
    ensures c < |s.sent| && forall q: nat :: q in s.sent[c] && q !in s.cons[c].got ==> q in s.unsig
  {
    CarefulFromFresh(s0, ts, s);
    assert ConsumerOk(s, c) && Recorded(s, c);
    forall q: nat | q in s.sent[c] && q !in s.cons[c].got ensures q in s.unsig {
      assert Pending(s, c, q);
    }
  }
}
