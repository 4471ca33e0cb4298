/**
 Runs that exist.  A reservation can be carried through from any idle state with a free
 slot; and the run that the abort hypothesis excludes really happens, from every fresh ring.
 */
module StepWitness {
  import opened TenzorCore
  import opened StepRing
  import opened StepInvariant
  import opened StepTheorems
  import opened StepCounting

  lemma {:induction false} Extend(s: State, ts: seq<Step>, m: State, t: Step)
    requires Run(s, ts, m) && Can(m, t)
    ensures Run(s, ts + [t], Do(m, t))
    decreases |ts|
  {
    if ts == [] {
      assert Run(Do(m, t), [], Do(m, t));
    } else {
      Extend(Do(s, ts[0]), ts[1..], m, t);
      assert (ts + [t])[1..] == ts[1..] + [t];
    }
  }

  // Everything but slot i, the counter and the producer's own state is as it was.
  ghost predicate SameRest(s: State, s': State, i: nat) {
    && s' == s.(slots := s'.slots, prod := s'.prod, next := s'.next, late := s'.late)
    && |s'.slots| == |s.slots|
    && (forall k: nat :: k < |s.slots| && k != i ==> s'.slots[k] == s.slots[k])
  }

  ghost predicate NoAbort(ts: seq<Step>) { ByProducer(BeginAbort) !in ts }

  function Below(k: nat): (b: set<nat>)
    ensures forall w: nat :: w in b <==> w < k
  {
    if k == 0 then {} else Below(k - 1) + {k - 1}
  }

  // The loop over header words, from word k on.
  lemma {:induction false} StoreWords(s0: State, ts: seq<Step>, s: State, k: nat) returns (us: seq<Step>, s': State)
    requires Inv(s) && Run(s0, ts, s)
    requires s.prod.StoreHead? && s.prod.stored == Below(k) && k <= HEAD_WORDS
    ensures Inv(s') && Run(s0, us, s') && SameRest(s, s', s.prod.r.pub.slot) && s'.next == s.next
    ensures s'.prod == StoreMask(s.prod.r)
    ensures s'.late == s.late
    ensures NoAbort(ts) ==> NoAbort(us)
    decreases HEAD_WORDS - k
  {
    us, s' := Step1(s0, ts, s, if k < HEAD_WORDS then StoreWord(k) else NextStore);
    if k < HEAD_WORDS {
      assert Below(k) + {k} == Below(k + 1);
      us, s' := StoreWords(s0, us, s', k + 1);
    }
  }

  lemma Step1(s0: State, ts: seq<Step>, s: State, t: ProducerStep) returns (us: seq<Step>, s': State)
    requires Inv(s) && Run(s0, ts, s) && ProducerCan(s, t)
    ensures us == ts + [ByProducer(t)] && s' == ProducerDo(s, t) && Inv(s') && Run(s0, us, s')
    ensures NoAbort(ts) && !t.BeginAbort? ==> NoAbort(us)
  {
    us, s' := ts + [ByProducer(t)], ProducerDo(s, t);
    Extend(s0, ts, s, ByProducer(t));
    StepKeepsInv(s, ByProducer(t));
  }

  predicate Reservable(s: State, i: nat, req: Request) {
    && s.prod.Idle? && i < |s.slots|
    && (s.slots[i].state.Free? || (s.slots[i].state.Committed? && s.slots[i].mask == {}))
    && req.Direct? && |req.head| == HEAD_WORDS
    && ReadableHead(req.head[W_NDIM], req.head[W_NBYTES], req.head[W_DTYPE], s.cap)
  }

  lemma SlotIsChosen(s0: State, ts: seq<Step>, s: State, i: nat, req: Request) returns (us: seq<Step>, s': State)
    requires Inv(s) && Run(s0, ts, s) && Reservable(s, i, req)
    ensures Inv(s') && Run(s0, us, s') && s' == s.(prod := Chosen(req, i))
    ensures NoAbort(ts) ==> NoAbort(us)
  {
    us, s' := Step1(s0, ts, s, BeginReserve(req));
    us, s' := Step1(s0, us, s', EndReap);
    if s.slots[i].state.Free? {
      us, s' := Step1(s0, us, s', SeeFree(i));
    } else {
      us, s' := Step1(s0, us, s', SeeCommitted(i));
      us, s' := Step1(s0, us, s', SeeMask);
    }
  }

  // Up to the first header store: the slot is WRITING, with sequence and readers captured.
  lemma ReservationBegins(s0: State, ts: seq<Step>, s: State, i: nat, req: Request) returns (us: seq<Step>, s': State)
    requires Inv(s) && Run(s0, ts, s) && Reservable(s, i, req)
    ensures Inv(s') && Run(s0, us, s') && SameRest(s, s', i) && s'.next == s.next
    ensures s'.prod.StoreHead? && s'.prod.stored == {} && s'.prod.r.direct && s'.prod.r.readers == s.active
    ensures s'.prod.r.pub.slot == i && s'.prod.r.pub.sn == s.next && s'.late == {}
    ensures NoAbort(ts) ==> NoAbort(us)
  {
    us, s' := SlotIsChosen(s0, ts, s, i, req);
    us, s' := Step1(s0, us, s', BeginStores);
    us, s' := Step1(s0, us, s', NextStore);
  }

  // From an idle producer and a slot that is free or unclaimed, a reservation can be carried through to the open
  // state: it has the next sequence, and addresses everyone registered.
  lemma ReservationCompletes(s0: State, ts: seq<Step>, s: State, i: nat, req: Request) returns (us: seq<Step>, s': State)
    requires Inv(s) && Run(s0, ts, s) && Reservable(s, i, req)
    ensures Inv(s') && Run(s0, us, s') && SameRest(s, s', i)
    ensures s'.prod.Filling? && s'.prod.r.direct && s'.prod.r.pub.slot == i && s'.prod.r.pub.sn == s.next
    ensures s'.next == s.next + 1 && s'.slots[i].mask == s.active == Recipients(s')
    ensures NoAbort(ts) ==> NoAbort(us)
  {
    us, s' := ReservationBegins(s0, ts, s, i, req);
    us, s' := StoreWords(s0, us, s', 0);
    us, s' := Step1(s0, us, s', NextStore);
    us, s' := Step1(s0, us, s', NextStore);
  }

  lemma AbortBegins(s: State) returns (us: seq<Step>, s2: State)
    requires Inv(s) && s.prod.Filling?
    ensures us == [ByProducer(BeginAbort), ByProducer(NextStore)] && Run(s, us, s2) && Inv(s2)
    ensures s.prod.r.pub.slot < |s.slots| && s.next == s.prod.r.pub.sn + 1
    ensures var i := s.prod.r.pub.slot;
            s2 == s.(slots := s.slots[i := s.slots[i].(mask := {})], prod := AbortState(s.prod.r))
  {
    var s1;
    us, s1 := Step1(s, [], s, BeginAbort);
    us, s2 := Step1(s, us, s1, NextStore);
  }

  lemma AbortEnds(s0: State, ts: seq<Step>, s2: State) returns (us: seq<Step>, s4: State)
    requires Inv(s2) && Run(s0, ts, s2) && s2.prod.AbortState? && ProducerCan(s2, NextStore)
    ensures us == ts + [ByProducer(NextStore), ByProducer(NextStore)] && Run(s0, us, s4) && Inv(s4)
    ensures ProducerStore(s2).prod.AbortNext? && s4 == ProducerStore(ProducerStore(s2))
  {
    var s3;
    us, s3 := Step1(s0, ts, s2, NextStore);
    us, s4 := Step1(s0, us, s3, NextStore);
  }

  // The four steps of an abort: the slot is freed, the sequence handed back, and no other
  // slot touched.
  lemma AbortDoes(s: State)
    requires Inv(s) && s.prod.Filling?
    ensures s.prod.r.pub.slot < |s.slots|
    ensures var i := s.prod.r.pub.slot;
            AfterAbort(s) == s.(slots := s.slots[i := s.slots[i].(mask := {}, state := Free)],
                                prod := Idle, next := s.prod.r.pub.sn)
    ensures Inv(AfterAbort(s)) && Run(s, AbortSteps(), AfterAbort(s))
  {
    var us, s2 := AbortBegins(s);
    var s4;
    AfterAbortIs(s, s2);
    us, s4 := AbortEnds(s, us, s2);
    assert us == AbortSteps();
  }

  lemma AfterAbortIs(s: State, s2: State)
    requires s.prod.Filling? && s.prod.r.pub.slot < |s.slots|
    requires var i := s.prod.r.pub.slot;
             s2 == s.(slots := s.slots[i := s.slots[i].(mask := {})], prod := AbortState(s.prod.r))
    ensures s2.prod.AbortState? && ProducerCan(s2, NextStore)
    ensures ProducerStore(s2).prod.AbortNext? && AfterAbort(s) == ProducerStore(ProducerStore(s2))
    ensures s.next == s.prod.r.pub.sn + 1 ==>
              var i := s.prod.r.pub.slot;
              AfterAbort(s) == s.(slots := s.slots[i := s.slots[i].(mask := {}, state := Free)],
                                  prod := Idle, next := s.prod.r.pub.sn)
  {
  }

  function AbortSteps(): seq<Step> {
    [ByProducer(BeginAbort), ByProducer(NextStore), ByProducer(NextStore), ByProducer(NextStore)]
  }

  lemma {:induction false} Then(s: State, ts: seq<Step>, m: State, us: seq<Step>, s': State)
    requires Run(s, ts, m) && Run(m, us, s')
    ensures Run(s, ts + us, s')
    decreases |ts|
  {
    if ts == [] {
      assert ts + us == us;
    } else {
      Then(Do(s, ts[0]), ts[1..], m, us, s');
      assert (ts + us)[1..] == ts[1..] + us;
    }
  }

  // ---- the hypothesis is exactly what abort needs ----------------------------

  // After the abort, a run with no unsafe abort in it ends with a claim that is stuck.
  ghost predicate CanStick(s: State) {
    exists ts: seq<Step>, s': State, c: nat, i: nat :: CarefulRun(s, ts, s') && Stuck(s', c, i)
  }

  lemma {:induction false} NoAbortIsCareful(s: State, ts: seq<Step>, s': State)
    requires Run(s, ts, s') && NoAbort(ts)
    ensures CarefulRun(s, ts, s')
    decreases |ts|
  {
    if ts != [] {
      assert ts[0] in ts;
      NoAbortIsCareful(Do(s, ts[0]), ts[1..], s');
    }
  }

  // Reserve the slot again and commit: a live consumer whose mark is at or above the
  // counter is addressed by what it can never take.
  lemma ReuseSticks(s: State, i: nat, c: nat, req: Request) returns (ts: seq<Step>, s': State)
    requires Inv(s) && Reservable(s, i, req) && IsLive(s, c) && s.cons[c].last >= s.next
    ensures Run(s, ts, s') && NoAbort(ts) && Stuck(s', c, i)
    ensures s'.cons == s.cons && s'.sent == SendTo(s.sent, s.active, s.next)
  {
    ts, s' := ReservationCompletes(s, [], s, i, req);
    assert c in s.active;
    CommitMakesStuck(s', c);
    ts, s' := Step1(s, ts, s', Commit);
  }

  // An abort can leave a claim stuck, without any further unsafe abort, if and only if a
  // live consumer registered after the reservation being aborted.
  lemma AbortIsSafeExactlyWhen(s: State)
    requires Inv(s) && Deliverable(s) && s.prod.Filling?
    ensures s.prod.r.pub.slot < |s.slots|
    ensures !CanStick(AfterAbort(s)) <==> NobodyJoined(s, s.prod.r)
  {
    AbortDoes(s);
    if NobodyJoined(s, s.prod.r) {
      SafeAbortNeverSticks(s);
    } else {
      var c: nat :| IsLive(s, c) && s.cons[c].last >= s.prod.r.pub.sn;
      UnsafeAbortSticks(s, c);
    }
  }

  lemma UnsafeAbortSticks(s: State, c: nat)
    requires Inv(s) && s.prod.Filling? && IsLive(s, c) && s.cons[c].last >= s.prod.r.pub.sn
    ensures s.prod.r.pub.slot < |s.slots| && CanStick(AfterAbort(s))
  {
    AbortDoes(s);
    var a, i := AfterAbort(s), s.prod.r.pub.slot;
    var ts, s' := ReuseSticks(a, i, c, Direct(s.prod.r.pub.head));
    NoAbortIsCareful(a, ts, s');
  }

  lemma SafeAbortDelivers(s: State)
    requires Inv(s) && Deliverable(s) && s.prod.Filling? && s.prod.r.pub.slot < |s.slots|
    requires NobodyJoined(s, s.prod.r)
    ensures Deliverable(AfterAbort(s))
  {
    var s1 := ProducerDo(s, BeginAbort);
    var s2 := ProducerDo(s1, NextStore);
    var s3 := ProducerDo(s2, NextStore);
    StepKeepsDeliverable(s, ByProducer(BeginAbort));
    StepKeepsDeliverable(s1, ByProducer(NextStore));
    StepKeepsDeliverable(s2, ByProducer(NextStore));
    StepKeepsDeliverable(s3, ByProducer(NextStore));
  }

  lemma SafeAbortNeverSticks(s: State)
    requires Inv(s) && Deliverable(s) && s.prod.Filling? && NobodyJoined(s, s.prod.r)
    ensures s.prod.r.pub.slot < |s.slots| && !CanStick(AfterAbort(s))
  {
    AbortDoes(s);
    SafeAbortDelivers(s);
    var a := AfterAbort(s);
    forall ts: seq<Step>, s': State, c: nat, i: nat | CarefulRun(a, ts, s') ensures !Stuck(s', c, i) {
      CarefulRunDelivers(a, ts, s');
      assert IsLive(s', c) && i < |s'.slots| ==> ClaimDeliverable(s', c, i);
    }
  }

  // On every fresh ring: reserve, let a consumer register, abort, reserve again, commit.
  // The consumer is sent a publication it can never take, in whatever slot.
  lemma StuckIsReachable(s0: State, i: nat, c: nat, req: Request) returns (ts: seq<Step>, s: State)
    requires Initial(s0) && c < MAX_CONSUMERS && Reservable(s0, i, req)
    ensures Run(s0, ts, s) && Stuck(s, c, i)
    ensures c < |s.sent| && s.sent[c] == [s.cons[c].base] && s.cons[c].got == []
  {
    InitialInv(s0);
    var us, m := ReservationCompletes(s0, [], s0, i, req);
    us, m := JoinCompletes(s0, us, m, c);
    AbortDoes(m);
    Then(s0, us, m, AbortSteps(), AfterAbort(m));
    us, m := us + AbortSteps(), AfterAbort(m);
    ts, s := ReuseSticks(m, i, c, req);
    Then(s0, us, m, ts, s);
    ts := us + ts;
  }

  lemma JoinCompletes(s0: State, ts: seq<Step>, s: State, c: nat) returns (us: seq<Step>, s': State)
    requires Inv(s) && Run(s0, ts, s) && s.prod.Filling? && s.cap == s0.cap
    requires c < |s.cons| == |s.sent| && s.cons[c].status.Absent?
    ensures Inv(s') && Run(s0, us, s') && s'.prod == s.prod && s'.next == s.next && s'.cap == s0.cap
    ensures IsLive(s', c) && |s'.sent| == |s.sent| && c in s'.active && s'.sent[c] == [] && s'.cons[c].got == []
    ensures s'.cons[c].last == s'.cons[c].base == s.prod.r.pub.sn
  {
    var join := ByConsumer(Register(c));
    Extend(s0, ts, s, join);
    StepKeepsInv(s, join);
    us, s' := ts + [join], Do(s, join);
  }
}
