/**
 A consumer gets there by itself: from any state of the invariant in which something is
 pending for it, and wherever it stands itself, its own steps and no one else's lead to a
 lease on the oldest.
 */
module StepProgress {
  import opened TenzorCore
  import opened StepRing
  import opened StepInvariant
  import opened StepConsumer
  import opened StepTheorems
  import opened StepWitness

  // Steps that c makes within `next`, or to finish a release it has begun.
  predicate OwnLoad(t: Step, c: nat) {
    || t == ByConsumer(CallNext(c)) || t == ByConsumer(Advance(c)) || t == ByConsumer(Wake(c))
    || (t.ByConsumer? && t.a.LoadWord? && t.a.c == c)
  }

  ghost predicate OwnLoads(ts: seq<Step>, c: nat) { forall t :: t in ts ==> OwnLoad(t, c) }

  predicate Scanning(pc: Pc) { pc.ScanState? || pc.ScanMask? || pc.ScanSeq? }

  predicate Checking(pc: Pc) {
    || pc.CheckState1? || pc.CheckSeq1? || pc.CheckHead? || pc.CheckMask1? || pc.CheckState2?
    || pc.CheckSeq2? || pc.CheckMask2?
  }

  // The frontier when the attempt began.
  function MarkOf(pc: Pc): nat {
    if Scanning(pc) then pc.sc.f0 else if Checking(pc) then pc.ck.f0 else if pc.Asleep? then pc.f0 else 0
  }

  // In the middle of an attempt, with something pending.
  ghost predicate Busy(s: State, c: nat) {
    && Inv(s) && IsLive(s, c)
    && (exists q: nat :: Pending(s, c, q))
    && (Scanning(s.cons[c].pc) || Checking(s.cons[c].pc))
  }

  // ---- how much is left -----------------------------------------------------

  function Rank(pc: Pc): nat {
    match pc
    case ScanState(_) => 2 case ScanMask(_) => 1 case ScanSeq(_) => 0
    case CheckState1(_) => 7 case CheckSeq1(_) => 6 case CheckHead(_, _) => 5 case CheckMask1(_, _) => 4
    case CheckState2(_, _, _) => 3 case CheckSeq2(_, _, _) => 2 case _ => 1
  }

  function Passes(s: State, pc: Pc): int { if Scanning(pc) then |s.slots| + 1 - pc.sc.pass else 0 }

  function Left(s: State, pc: Pc): int {
    if Scanning(pc) then 3 * (|s.slots| - pc.sc.i) + Rank(pc)
    else (HEAD_WORDS + 1) * Rank(pc) + (if pc.CheckHead? then HEAD_WORDS - |pc.words| else 0)
  }

  ghost predicate Less(s: State, pc': Pc, pc: Pc) {
    || Passes(s, pc') < Passes(s, pc)
    || (Passes(s, pc') == Passes(s, pc) && Left(s, pc') < Left(s, pc))
  }

  // ---- one load ---------------------------------------------------------------

  // What the load leaves behind is the same attempt, nearer its end or given up.
  ghost predicate Nearer(s: State, pc: Pc, pc': Pc) {
    && MarkOf(pc') == MarkOf(pc)
    && (pc'.Asleep? || ((Scanning(pc') || Checking(pc')) && Less(s, pc', pc)))
  }

  lemma PassEnds(s: State, c: nat)
    requires Busy(s, c) && s.cons[c].pc.ScanState? && s.cons[c].pc.sc.i == |s.slots|
    requires s.cons[c].pc.sc.pass <= |s.slots| && (s.cons[c].pc.sc.prev.None? ==> s.cons[c].pc.sc.pass == 0)
    ensures Nearer(s, s.cons[c].pc, NextPc(s, c))
  {
  }

  lemma SlotPasses(s: State, c: nat)
    requires Busy(s, c) && Scanning(s.cons[c].pc) && s.cons[c].pc.sc.i < |s.slots|
    ensures Nearer(s, s.cons[c].pc, NextPc(s, c))
  {
  }

  lemma ScanAdvances(s: State, c: nat)
    requires Busy(s, c) && Scanning(s.cons[c].pc)
    ensures ConsumerCan(s, Advance(c))
    ensures var pc' := NextPc(s, c);
            ConsumerDo(s, Advance(c)) == SetPc(s, c, pc') && Nearer(s, s.cons[c].pc, pc')
  {
    assert ConsumerOk(s, c);
    LoadIsPrivate(s, c);
    if s.cons[c].pc.sc.i == |s.slots| {
      PassEnds(s, c);
    } else {
      SlotPasses(s, c);
    }
  }

  lemma CheckAdvances(s: State, c: nat)
    requires Busy(s, c) && Checking(s.cons[c].pc) && !s.cons[c].pc.CheckMask2?
    requires s.cons[c].pc.CheckHead? ==> AllWords(s.cons[c].pc.words)
    ensures ConsumerCan(s, Advance(c))
    ensures var pc' := NextPc(s, c);
            ConsumerDo(s, Advance(c)) == SetPc(s, c, pc') && Nearer(s, s.cons[c].pc, pc')
  {
    assert ConsumerOk(s, c);
    if s.cons[c].pc.CheckHead? {
      WordsCounted(s.cons[c].pc.words);
    }
    LoadIsPrivate(s, c);
  }

  lemma WordsCounted(words: map<nat, nat>)
    requires forall u :: u in words ==> u < HEAD_WORDS
    ensures |words| <= HEAD_WORDS
  {
    assert words.Keys <= Below(HEAD_WORDS);
    SubsetSize(words.Keys, HEAD_WORDS);
    assert |words.Keys| == |words|;
  }

  lemma MoreWords(words: map<nat, nat>, w: nat, v: nat)
    requires w !in words && w < HEAD_WORDS && forall u :: u in words ==> u < HEAD_WORDS
    ensures |words[w := v]| == |words| + 1 <= HEAD_WORDS
  {
    var keys := words[w := v].Keys;
    assert keys == words.Keys + {w};
    assert |keys| == |words[w := v]| && |words.Keys| == |words|;
    WordsCounted(words[w := v]);
  }

  lemma {:induction false} SubsetSize(keys: set<nat>, n: nat)
    requires keys <= Below(n)
    ensures |keys| <= n
  {
    if n > 0 {
      assert keys - {n - 1} <= Below(n - 1);
      SubsetSize(keys - {n - 1}, n - 1);
    } else {
      assert keys == {};
    }
  }

  lemma WordAdvances(s: State, c: nat, w: nat)
    requires Busy(s, c) && s.cons[c].pc.CheckHead? && w < HEAD_WORDS && w !in s.cons[c].pc.words
    ensures ConsumerCan(s, LoadWord(c, w))
    ensures var pc, pc' := s.cons[c].pc, ConsumerDo(s, LoadWord(c, w)).cons[c].pc;
            ConsumerDo(s, LoadWord(c, w)) == SetPc(s, c, pc') && Nearer(s, pc, pc')
  {
    assert ConsumerOk(s, c);
    var pc := s.cons[c].pc;
    MoreWords(pc.words, w, s.slots[pc.ck.cand.slot].head[w]);
  }

  // The next load of c: it is possible, leaves everything else alone, and brings c nearer.
  lemma OwnStep(s: State, c: nat) returns (t: ConsumerStep)
    requires Busy(s, c) && !s.cons[c].pc.CheckMask2?
    ensures OwnLoad(ByConsumer(t), c) && ConsumerCan(s, t)
    ensures var pc' := ConsumerDo(s, t).cons[c].pc;
            && ConsumerDo(s, t) == SetPc(s, c, pc') && Inv(ConsumerDo(s, t)) && Nearer(s, s.cons[c].pc, pc')
            && (!pc'.Asleep? ==> Busy(ConsumerDo(s, t), c))
  {
    var pc := s.cons[c].pc;
    if Scanning(pc) {
      t := Advance(c);
      ScanAdvances(s, c);
    } else if w: nat :| pc.CheckHead? && w < HEAD_WORDS && w !in pc.words {
      t := LoadWord(c, w);
      WordAdvances(s, c, w);
    } else {
      t := Advance(c);
      CheckAdvances(s, c);
    }
    StepKeepsInv(s, ByConsumer(t));
    SamePending(s, c, ConsumerDo(s, t).cons[c].pc);
  }

  // ---- to the end -------------------------------------------------------------

  // c holds a lease on the publication that was the oldest pending for it in s, and nothing
  // but masks has changed.
  ghost predicate TookTheOldest(s: State, s': State, c: nat) {
    && c < |s.cons| && IsLive(s', c) && s'.cons[c].pc.Out?
    && var q := s'.cons[c].last;
    && Pending(s, c, q) && (forall p: nat :: Pending(s, c, p) ==> q <= p)
    && s'.cons[c].got == s.cons[c].got + [q] && q in s'.cons[c].leases
    && s'.log == s.log && SameContents(s, s')
  }

  ghost predicate SameContents(s: State, s': State) {
    |s'.slots| == |s.slots| && forall i: nat :: i < |s.slots| ==> s'.slots[i] == s.slots[i].(mask := s'.slots[i].mask)
  }

  lemma LastLoad(s: State, c: nat)
    requires Busy(s, c) && s.cons[c].pc.CheckMask2?
    ensures ConsumerCan(s, Advance(c)) && TookTheOldest(s, ConsumerDo(s, Advance(c)), c)
  {
    assert ConsumerOk(s, c);
    var pc := s.cons[c].pc;
    MatchedIsCommitted(s, c, pc.ck, pc.words);
    OnlyActorMoves(s, Advance(c));
  }

  lemma SamePending(s: State, c: nat, pc: Pc)
    requires c < |s.cons|
    ensures forall q: nat :: Pending(SetPc(s, c, pc), c, q) <==> Pending(s, c, q)
    ensures forall s': State :: TookTheOldest(SetPc(s, c, pc), s', c) ==> TookTheOldest(s, s', c)
  {
    assert forall q: nat :: Pending(SetPc(s, c, pc), c, q) <==> Pending(s, c, q);
  }

  // The measure of an attempt is never negative.
  lemma Measured(s: State, c: nat)
    requires Busy(s, c)
    ensures Passes(s, s.cons[c].pc) >= 0 && Left(s, s.cons[c].pc) >= 0
  {
    assert ConsumerOk(s, c);
    var pc := s.cons[c].pc;
    if pc.CheckHead? {
      WordsCounted(pc.words);
    }
  }

  // The attempt is over without a lease, and c alone has moved.
  ghost predicate GaveUp(s: State, s': State, c: nat) {
    && c < |s.cons| == |s'.cons| && s'.cons[c].pc.Asleep? && s' == SetPc(s, c, s'.cons[c].pc)
    && MarkOf(s'.cons[c].pc) == MarkOf(s.cons[c].pc)
  }

  lemma StillThere(s: State, m: State, s': State, c: nat)
    requires c < |s.cons| == |m.cons| && m == SetPc(s, c, m.cons[c].pc) && MarkOf(m.cons[c].pc) == MarkOf(s.cons[c].pc)
    requires TookTheOldest(m, s', c) || GaveUp(m, s', c)
    ensures TookTheOldest(s, s', c) || GaveUp(s, s', c)
  {
    SamePending(s, c, m.cons[c].pc);
  }

  lemma {:induction false} AttemptEnds(s0: State, ts: seq<Step>, s: State, c: nat) returns (us: seq<Step>, s': State)
    requires Busy(s, c) && Run(s0, ts, s) && OwnLoads(ts, c)
    ensures Run(s0, us, s') && OwnLoads(us, c) && Inv(s') && (TookTheOldest(s, s', c) || GaveUp(s, s', c))
    decreases Passes(s, s.cons[c].pc) + 1, Left(s, s.cons[c].pc) + 1
  {
    if s.cons[c].pc.CheckMask2? {
      LastLoad(s, c);
      us, s' := Own(s0, ts, s, Advance(c), c);
    } else {
      us, s' := OneLoad(s0, ts, s, c);
      if !s'.cons[c].pc.Asleep? {
        var m := s';
        us, s' := AttemptEnds(s0, us, m, c);
        StillThere(s, m, s', c);
      }
    }
  }

  // One load of an attempt, with what it leaves of the measure.
  lemma OneLoad(s0: State, ts: seq<Step>, s: State, c: nat) returns (us: seq<Step>, m: State)
    requires Busy(s, c) && Run(s0, ts, s) && OwnLoads(ts, c) && !s.cons[c].pc.CheckMask2?
    ensures Run(s0, us, m) && OwnLoads(us, c) && Inv(m)
    ensures |m.cons| == |s.cons| && m == SetPc(s, c, m.cons[c].pc) && MarkOf(m.cons[c].pc) == MarkOf(s.cons[c].pc)
    ensures !m.cons[c].pc.Asleep? ==>
              var pc, pc' := s.cons[c].pc, m.cons[c].pc;
              && Busy(m, c) && 0 <= Passes(m, pc') && 0 <= Left(m, pc')
              && (Passes(m, pc') < Passes(s, pc) || (Passes(m, pc') == Passes(s, pc) && Left(m, pc') < Left(s, pc)))
  {
    var t := OwnStep(s, c);
    us, m := Own(s0, ts, s, t, c);
    if !m.cons[c].pc.Asleep? {
      Measured(m, c);
    }
  }

  lemma Own(s0: State, ts: seq<Step>, s: State, t: ConsumerStep, c: nat) returns (us: seq<Step>, s': State)
    requires Inv(s) && Run(s0, ts, s) && OwnLoads(ts, c) && ConsumerCan(s, t) && OwnLoad(ByConsumer(t), c)
    ensures Run(s0, us, s') && OwnLoads(us, c) && s' == ConsumerDo(s, t) && Inv(s')
  {
    Extend(s0, ts, s, ByConsumer(t));
    StepKeepsInv(s, ByConsumer(t));
    us, s' := ts + [ByConsumer(t)], ConsumerDo(s, t);
  }

  // A call of `next` begun while something is pending does not give up.
  lemma FromOut(s0: State, ts: seq<Step>, s: State, c: nat) returns (us: seq<Step>, s': State)
    requires Inv(s) && Run(s0, ts, s) && OwnLoads(ts, c)
    requires IsLive(s, c) && s.cons[c].pc.Out? && exists q: nat :: Pending(s, c, q)
    ensures Run(s0, us, s') && OwnLoads(us, c) && Inv(s') && TookTheOldest(s, s', c)
  {
    var m;
    us, m := Own(s0, ts, s, CallNext(c), c);
    assert m == SetPc(s, c, m.cons[c].pc);
    SamePending(s, c, m.cons[c].pc);
    assert MarkOf(m.cons[c].pc) == Frontier(m);
    us, s' := AttemptEnds(s0, us, m, c);
    SleepsOnNothing(m, s', c);
  }

  // An attempt that began with the frontier where it is gives up only if nothing is pending.
  lemma SleepsOnNothing(m: State, s': State, c: nat)
    requires Inv(s') && IsLive(m, c) && MarkOf(m.cons[c].pc) == Frontier(m)
    ensures GaveUp(m, s', c) ==> forall q: nat :: !Pending(m, c, q)
  {
    if GaveUp(m, s', c) {
      SamePending(m, c, s'.cons[c].pc);
      assert IsLive(s', c) && ConsumerOk(s', c);
      assert NothingBelow(s', c, Frontier(s'));
    }
  }

  // A sleeper that wakes, by signal or time-out, is outside again and may call anew.
  lemma FromAsleep(s0: State, ts: seq<Step>, s: State, c: nat) returns (us: seq<Step>, s': State)
    requires Inv(s) && Run(s0, ts, s) && OwnLoads(ts, c)
    requires IsLive(s, c) && s.cons[c].pc.Asleep? && exists q: nat :: Pending(s, c, q)
    ensures Run(s0, us, s') && OwnLoads(us, c) && Inv(s') && TookTheOldest(s, s', c)
  {
    var m;
    us, m := Own(s0, ts, s, Wake(c), c);
    assert m == SetPc(s, c, m.cons[c].pc);
    SamePending(s, c, m.cons[c].pc);
    us, s' := FromOut(s0, us, m, c);
  }

  lemma FromAttempt(s0: State, ts: seq<Step>, s: State, c: nat) returns (us: seq<Step>, s': State)
    requires Busy(s, c) && Run(s0, ts, s) && OwnLoads(ts, c)
    ensures Run(s0, us, s') && OwnLoads(us, c) && Inv(s') && TookTheOldest(s, s', c)
  {
    us, s' := AttemptEnds(s0, ts, s, c);
    if !TookTheOldest(s, s', c) {
      var m := s';
      SamePending(s, c, m.cons[c].pc);
      us, s' := FromAsleep(s0, us, m, c);
    }
  }

  lemma SequenceMatches(s: State, c: nat)
    requires Inv(s) && IsLive(s, c) && s.cons[c].pc.ReleaseSeq?
    ensures ConsumerCan(s, Advance(c)) && ConsumerDo(s, Advance(c)) == SetPc(s, c, ReleaseMask(s.cons[c].pc.q))
  {
    assert ConsumerOk(s, c) && LeaseOk(s, c, s.cons[c].pc.q);
  }

  // Outside, with nothing changed but masks and c's leases.
  ghost predicate Released(s: State, s': State, c: nat) {
    && IsLive(s, c) && IsLive(s', c) && s'.cons[c].pc.Out?
    && s'.cons[c].got == s.cons[c].got && s'.cons[c].last == s.cons[c].last
    && s'.log == s.log && SameContents(s, s')
  }

  lemma BitIsCleared(s: State, c: nat)
    requires Inv(s) && IsLive(s, c) && s.cons[c].pc.ReleaseMask?
    ensures ConsumerCan(s, Advance(c)) && Released(s, ConsumerDo(s, Advance(c)), c)
  {
    assert ConsumerOk(s, c) && LeaseOk(s, c, s.cons[c].pc.q);
  }

  // A release in progress ends.
  lemma ReleaseEnds(s0: State, ts: seq<Step>, s: State, c: nat) returns (us: seq<Step>, s': State)
    requires Inv(s) && Run(s0, ts, s) && OwnLoads(ts, c) && IsLive(s, c)
    requires s.cons[c].pc.ReleaseSeq? || s.cons[c].pc.ReleaseMask?
    ensures Run(s0, us, s') && OwnLoads(us, c) && Inv(s') && Released(s, s', c)
  {
    us, s' := ts, s;
    if s.cons[c].pc.ReleaseSeq? {
      SequenceMatches(s, c);
      us, s' := Own(s0, ts, s, Advance(c), c);
    }
    BitIsCleared(s', c);
    us, s' := Own(s0, us, s', Advance(c), c);
  }

  // From any reachable state with something pending for c, wherever c stands, its own steps
  // lead to a lease on the oldest pending publication.
  lemma NextSucceeds(s: State, c: nat) returns (ts: seq<Step>, s': State)
    requires Reachable(s) && IsLive(s, c) && exists q: nat :: Pending(s, c, q)
    ensures Run(s, ts, s') && OwnLoads(ts, c) && Inv(s') && TookTheOldest(s, s', c)
  {
    ReachableInv(s);
    ReleaseNeverFails(s, c);
    var pc := s.cons[c].pc;
    if pc.Out? {
      ts, s' := FromOut(s, [], s, c);
    } else if pc.Asleep? {
      ts, s' := FromAsleep(s, [], s, c);
    } else if pc.ReleaseSeq? || pc.ReleaseMask? {
      var m;
      ts, m := ReleaseEnds(s, [], s, c);
      assert forall q: nat :: Pending(m, c, q) <==> Pending(s, c, q);
      ts, s' := FromOut(s, ts, m, c);
    } else {
      ts, s' := FromAttempt(s, [], s, c);
    }
  }
}
