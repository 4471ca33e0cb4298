/** Every step of the producer keeps Ring and is a guarantee to every live consumer. */
module StepProducer {
  import opened StepRing
  import opened StepInvariant

  lemma ProducerKeepsRing(s: State, t: ProducerStep)
    requires Ring(s) && ProducerCan(s, t)
    ensures Ring(ProducerDo(s, t))
  {
    match t
    case BeginStores => BeginStoresKeepsRing(s);
    case StoreWord(w) => StoreWordKeepsRing(s, w);
    case NextStore => NextStoreKeepsRing(s);
    case CopyByte(k) => CopyByteKeepsRing(s, k);
    case FillByte(k, v) => FillByteKeepsRing(s, k, v);
    case StampTime(v) => StampTimeKeepsRing(s, v);
    case Commit => CommitKeepsRing(s);
    case Recover => RecoverKeepsRing(s);
    case _ => QuietKeepsRing(s, t);
  }

  lemma QuietKeepsRing(s: State, t: ProducerStep)
    requires Ring(s) && ProducerCan(s, t) && Quiet(t)
    ensures Ring(ProducerDo(s, t))
  {
    var s' := ProducerDo(s, t);
    assert Frontier(s') == Frontier(s);
    assert s'.prod.Chosen? ==> SlotOk(s, s'.prod.i);
    forall i: nat | i < |s'.slots| ensures SlotOk(s', i) {
      assert SlotOk(s, i);
    }
  }

  lemma BeginStoresKeepsRing(s: State)
    requires Ring(s) && ProducerCan(s, BeginStores)
    ensures Ring(ProducerDo(s, BeginStores))
  {
    var s' := ProducerDo(s, BeginStores);
    forall i: nat | i < |s'.slots| ensures SlotOk(s', i) {
      assert SlotOk(s, i);
    }
  }

  lemma StoreWordKeepsRing(s: State, w: nat)
    requires Ring(s) && ProducerCan(s, StoreWord(w))
    ensures Ring(ProducerDo(s, StoreWord(w)))
  {
    var s' := ProducerDo(s, StoreWord(w));
    forall i: nat | i < |s'.slots| ensures SlotOk(s', i) {
      assert SlotOk(s, i);
    }
  }

  lemma NextStoreKeepsRing(s: State)
    requires Ring(s) && ProducerCan(s, NextStore)
    ensures Ring(ProducerDo(s, NextStore))
  {
    match s.prod
    case StoreSeq(_) => StoreSeqKeepsRing(s);
    case StoreMask(_) => StoreMaskKeepsRing(s);
    case AbortMask(_) => AbortMaskKeepsRing(s);
    case AbortState(_) => AbortStateKeepsRing(s);
    case _ => CounterStoreKeepsRing(s);
  }

  lemma StoreSeqKeepsRing(s: State)
    requires Ring(s) && ProducerCan(s, NextStore) && (s.prod.StoreSeq?)
    ensures Ring(ProducerDo(s, NextStore))
  {
    var s' := ProducerDo(s, NextStore);
    forall i: nat | i < |s'.slots| ensures SlotOk(s', i) {
      assert SlotOk(s, i);
    }
  }

  lemma StoreMaskKeepsRing(s: State)
    requires Ring(s) && ProducerCan(s, NextStore) && (s.prod.StoreMask?)
    ensures Ring(ProducerDo(s, NextStore))
  {
    var s' := ProducerDo(s, NextStore);
    forall i: nat | i < |s'.slots| ensures SlotOk(s', i) {
      assert SlotOk(s, i);
    }
  }

  lemma AbortMaskKeepsRing(s: State)
    requires Ring(s) && ProducerCan(s, NextStore) && (s.prod.AbortMask?)
    ensures Ring(ProducerDo(s, NextStore))
  {
    var s' := ProducerDo(s, NextStore);
    forall i: nat | i < |s'.slots| ensures SlotOk(s', i) {
      assert SlotOk(s, i);
    }
  }

  lemma AbortStateKeepsRing(s: State)
    requires Ring(s) && ProducerCan(s, NextStore) && (s.prod.AbortState?)
    ensures Ring(ProducerDo(s, NextStore))
  {
    var s' := ProducerDo(s, NextStore);
    forall i: nat | i < |s'.slots| ensures SlotOk(s', i) {
      assert SlotOk(s, i);
    }
  }

  lemma CounterStoreKeepsRing(s: State)
    requires Ring(s) && ProducerCan(s, NextStore) && (s.prod.StoreHead? || s.prod.StoreNext? || s.prod.Signalling? || s.prod.AbortNext?)
    ensures Ring(ProducerDo(s, NextStore))
  {
    var s' := ProducerDo(s, NextStore);
    forall i: nat | i < |s'.slots| ensures SlotOk(s', i) {
      assert SlotOk(s, i);
    }
  }

  lemma CopyByteKeepsRing(s: State, k: nat)
    requires Ring(s) && ProducerCan(s, CopyByte(k))
    ensures Ring(ProducerDo(s, CopyByte(k)))
  {
    var s' := ProducerDo(s, CopyByte(k));
    forall i: nat | i < |s'.slots| ensures SlotOk(s', i) {
      assert SlotOk(s, i);
    }
  }

  lemma FillByteKeepsRing(s: State, k: nat, v: nat)
    requires Ring(s) && ProducerCan(s, FillByte(k, v))
    ensures Ring(ProducerDo(s, FillByte(k, v)))
  {
    var s' := ProducerDo(s, FillByte(k, v));
    forall i: nat | i < |s'.slots| ensures SlotOk(s', i) {
      assert SlotOk(s, i);
    }
  }

  lemma StampTimeKeepsRing(s: State, v: nat)
    requires Ring(s) && ProducerCan(s, StampTime(v))
    ensures Ring(ProducerDo(s, StampTime(v)))
  {
    var s' := ProducerDo(s, StampTime(v));
    forall i: nat | i < |s'.slots| ensures SlotOk(s', i) {
      assert SlotOk(s, i);
    }
  }

  lemma CommitKeepsRing(s: State)
    requires Ring(s) && ProducerCan(s, Commit)
    ensures Ring(ProducerDo(s, Commit))
  {
    var s' := ProducerDo(s, Commit);
    forall i: nat | i < |s'.slots| ensures SlotOk(s', i) {
      assert SlotOk(s, i);
    }
  }

  lemma RecoverKeepsRing(s: State)
    requires Ring(s) && ProducerCan(s, Recover)
    ensures Ring(ProducerDo(s, Recover))
  {
    var s' := ProducerDo(s, Recover);
    forall i: nat | i < |s'.slots| ensures SlotOk(s', i) {
      assert SlotOk(s, i);
    }
  }

  // What every other live consumer may rely on, whichever store the producer makes.
  lemma ProducerGuarantee(s: State, t: ProducerStep, c: nat)
    requires Ring(s) && ProducerCan(s, t) && IsLive(s, c) && Addressed(s, c)
    ensures Others(s, ProducerDo(s, t), c)
  {
    match t
    case BeginStores => BeginStoresGuarantee(s, c);
    case NextStore => NextStoreGuarantee(s, c);
    case Commit => CommitGuarantee(s, c);
    case Recover => RecoverGuarantee(s, c);
    case StoreWord(_) => FillGuarantee(s, t, c);
    case CopyByte(_) => FillGuarantee(s, t, c);
    case FillByte(_, _) => FillGuarantee(s, t, c);
    case StampTime(_) => FillGuarantee(s, t, c);
    case _ => QuietGuarantee(s, t, c);
  }

  // A producer step that leaves every slot, the log and the publish word alone.
  lemma QuietGuarantee(s: State, t: ProducerStep, c: nat)
    requires Ring(s) && ProducerCan(s, t) && IsLive(s, c) && Addressed(s, c) && Quiet(t)
    ensures Others(s, ProducerDo(s, t), c)
  {
  }

  lemma BeginStoresGuarantee(s: State, c: nat)
    requires Ring(s) && ProducerCan(s, BeginStores) && IsLive(s, c)
    ensures Others(s, ProducerDo(s, BeginStores), c)
  {
  }

  // A store into the slot the producer owns, which is not committed before or after it.
  lemma OwnSlotGuarantee(s: State, s': State, c: nat)
    requires Ring(s) && IsLive(s, c) && Addressed(s, c) && Owns(s.prod)
    requires s'.cons == s.cons && s'.log == s.log && s'.word == s.word && s'.unsig == s.unsig
    requires |s'.slots| == |s.slots| && Frontier(s) <= Frontier(s')
    requires forall k: nat :: k < |s.slots| && k != s.prod.r.pub.slot ==> s'.slots[k] == s.slots[k]
    requires !s'.slots[s.prod.r.pub.slot].state.Committed?
    requires s.slots[s.prod.r.pub.slot].sn <= s'.slots[s.prod.r.pub.slot].sn
    requires Open(s'.prod) ==>
               && Open(s.prod) && s'.prod.r.pub.slot == s.prod.r.pub.slot && s'.prod.r.pub.sn == s.prod.r.pub.sn
               && ReadersOf(s') == ReadersOf(s)
    ensures Others(s, s', c)
  {
    assert SlotOk(s, s.prod.r.pub.slot);
  }

  // Stores of header words and payload bytes.
  lemma FillGuarantee(s: State, t: ProducerStep, c: nat)
    requires Ring(s) && ProducerCan(s, t) && IsLive(s, c) && Addressed(s, c)
    requires t.StoreWord? || t.CopyByte? || t.FillByte? || t.StampTime?
    ensures Others(s, ProducerDo(s, t), c)
  {
    assert SlotOk(s, s.prod.r.pub.slot);
    OwnSlotGuarantee(s, ProducerDo(s, t), c);
  }

  lemma CommitGuarantee(s: State, c: nat)
    requires Ring(s) && ProducerCan(s, Commit) && IsLive(s, c) && Addressed(s, c)
    ensures Others(s, ProducerDo(s, Commit), c)
  {
    assert SlotOk(s, s.prod.r.pub.slot);
  }

  lemma RecoverGuarantee(s: State, c: nat)
    requires Ring(s) && ProducerCan(s, Recover) && IsLive(s, c) && Addressed(s, c)
    ensures Others(s, ProducerDo(s, Recover), c)
  {
    assert SlotOk(s, s.prod.r.pub.slot);
    OwnSlotGuarantee(s, ProducerDo(s, Recover), c);
  }

  lemma NextStoreGuarantee(s: State, c: nat)
    requires Ring(s) && ProducerCan(s, NextStore) && IsLive(s, c) && Addressed(s, c)
    ensures Others(s, ProducerDo(s, NextStore), c)
  {
    if Owns(s.prod) {
      assert SlotOk(s, s.prod.r.pub.slot);
      OwnSlotGuarantee(s, ProducerStore(s), c);
    } else {
      CounterStoreGuarantee(s, c);
    }
  }

  lemma CounterStoreGuarantee(s: State, c: nat)
    requires Ring(s) && ProducerCan(s, NextStore) && IsLive(s, c) && (s.prod.Signalling? || s.prod.AbortNext?)
    ensures Others(s, ProducerDo(s, NextStore), c)
  {
  }
}
