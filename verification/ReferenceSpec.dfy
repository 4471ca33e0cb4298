/**
 The v0.1 reference ring: every operation runs under one file lock, and a slot
 counts its readers instead of naming them.  The ledger is a ghost that names them.
 */
module ReferenceSpec {
  import opened Basics
  import opened RingSpec

  datatype RefSlot = RefSlot(state: SlotState, sn: nat, readers: nat, tensor: Tensor)

  datatype RefValue = RefValue(slots: seq<RefSlot>, next: nat, consumers: nat, published: nat, dropped: nat)

  predicate RefUsable(x: RefSlot) {
    x.state.Free? || (x.state.Committed? && x.readers == 0)
  }

  ghost predicate RefSelected(p: RefValue, i: nat) {
    && i < |p.slots| && RefUsable(p.slots[i])
    && (p.slots[i].state.Free? ==> forall j: nat :: j < i ==> !p.slots[j].state.Free?)
    && (!p.slots[i].state.Free? ==>
          && (forall j: nat :: j < |p.slots| ==> !p.slots[j].state.Free?)
          && (forall j: nat :: j < |p.slots| && RefUsable(p.slots[j]) ==> p.slots[i].sn <= p.slots[j].sn)
          && (forall j: nat :: j < i && RefUsable(p.slots[j]) ==> p.slots[i].sn < p.slots[j].sn))
  }

  ghost predicate RefChooses(p: RefValue, choice: Option<nat>) {
    match choice
    case None => forall j: nat :: j < |p.slots| ==> !RefUsable(p.slots[j])
    case Some(i) => RefSelected(p, i)
  }

  function RefPublish(p: RefValue, i: nat, t: Tensor): RefValue
    requires i < |p.slots|
  {
    p.(slots := p.slots[i := RefSlot(Committed, p.next, p.consumers, t)],
       next := p.next + 1, published := p.published + 1)
  }

  predicate RefCandidate(p: RefValue, last: nat, j: nat) {
    j < |p.slots| && p.slots[j].state.Committed? && p.slots[j].sn > last
  }

  ghost predicate RefOldest(p: RefValue, last: nat, i: nat) {
    && RefCandidate(p, last, i)
    && (forall j: nat :: RefCandidate(p, last, j) ==> p.slots[i].sn <= p.slots[j].sn)
  }

  ghost predicate RefTakes(p: RefValue, last: nat, answer: Option<nat>) {
    match answer
    case None => forall j: nat :: !RefCandidate(p, last, j)
    case Some(i) => RefOldest(p, last, i)
  }

  function RefRelease(p: RefValue, i: nat, q: nat): Result<RefValue, ReleaseError>
    requires i < |p.slots|
  {
    if p.slots[i].sn != q then Err(Recycled)
    else if p.slots[i].readers == 0 then Err(ReleasedTwice)
    else Ok(p.(slots := p.slots[i := p.slots[i].(readers := p.slots[i].readers - 1)]))
  }

  // ---- the ledger -----------------------------------------------------------

  // owed[i]: consumers registered when slot i was published that have not released it.
  // marks: the consumers still open, with what each took last.  ids: numbers handed out.
  datatype Ledger = Ledger(owed: seq<set<nat>>, marks: map<nat, nat>, ids: nat)

  ghost predicate Accounts(p: RefValue, l: Ledger) {
    && |l.owed| == |p.slots| >= 2 && p.next >= 1
    && p.consumers == |l.marks.Keys|
    && (forall c: nat :: c in l.marks ==> c < l.ids && l.marks[c] < p.next)
    && (forall i: nat :: i < |p.slots| ==> SlotAccounts(p, l, i))
    && (forall i: nat, j: nat :: i < j < |p.slots| && p.slots[i].state.Committed? && p.slots[j].state.Committed? ==>
          p.slots[i].sn != p.slots[j].sn)
  }

  ghost predicate SlotAccounts(p: RefValue, l: Ledger, i: nat)
    requires i < |p.slots| == |l.owed|
  {
    var x := p.slots[i];
    && !x.state.Writing?
    && x.readers == |l.owed[i]|
    && (forall c: nat :: c in l.owed[i] ==> c < l.ids)
    && (x.state.Free? ==> l.owed[i] == {})
    && (x.state.Committed? ==> x.sn < p.next)
    && (x.state.Committed? ==> forall c: nat :: c in l.marks && x.sn > l.marks[c] ==> c in l.owed[i])
  }

  // Consumer c holds a lease on sequence q in slot i.
  ghost predicate Leased(p: RefValue, l: Ledger, c: nat, i: nat, q: nat) {
    && i < |p.slots| == |l.owed| && p.slots[i].state.Committed? && p.slots[i].sn == q
    && c in l.owed[i] && c in l.marks && q <= l.marks[c]
  }

  function LedgerPublish(l: Ledger, i: nat): Ledger
    requires i < |l.owed|
  {
    l.(owed := l.owed[i := l.marks.Keys])
  }

  function LedgerTake(l: Ledger, c: nat, q: nat): Ledger {
    l.(marks := l.marks[c := q])
  }

  function LedgerRelease(l: Ledger, c: nat, i: nat): Ledger
    requires i < |l.owed|
  {
    l.(owed := l.owed[i := l.owed[i] - {c}])
  }

  lemma PublishAccounts(p: RefValue, l: Ledger, i: nat, t: Tensor)
    requires Accounts(p, l) && RefSelected(p, i)
    ensures Accounts(RefPublish(p, i, t), LedgerPublish(l, i))
  {
    var p', l' := RefPublish(p, i, t), LedgerPublish(l, i);
    forall j: nat | j < |p'.slots| ensures SlotAccounts(p', l', j) {
      assert SlotAccounts(p, l, j);
    }
    forall j: nat | j < |p.slots| && p.slots[j].state.Committed? ensures p.slots[j].sn != p.next {
      assert SlotAccounts(p, l, j);
    }
  }

  lemma DropAccounts(p: RefValue, l: Ledger)
    requires Accounts(p, l)
    ensures Accounts(p.(dropped := p.dropped + 1), l)
  {
    var p' := p.(dropped := p.dropped + 1);
    forall j: nat | j < |p'.slots| ensures SlotAccounts(p', l, j) {
      assert SlotAccounts(p, l, j);
    }
  }

  // No publication overwrites a slot somebody still owes a release for: every lease stands.
  lemma PublishSparesLeases(p: RefValue, l: Ledger, i: nat, t: Tensor, c: nat, k: nat, q: nat)
    requires Accounts(p, l) && RefSelected(p, i) && Leased(p, l, c, k, q)
    ensures k != i && Leased(RefPublish(p, i, t), LedgerPublish(l, i), c, k, q)
    ensures RefPublish(p, i, t).slots[k] == p.slots[k]
  {
    assert SlotAccounts(p, l, k);
  }

  // The skip branch of `next` is unreachable: the oldest candidate counts this consumer.
  lemma CandidateCountsMe(p: RefValue, l: Ledger, c: nat, i: nat)
    requires Accounts(p, l) && c in l.marks && RefCandidate(p, l.marks[c], i)
    ensures c in l.owed[i] && p.slots[i].readers > 0
  {
    assert SlotAccounts(p, l, i);
  }

  lemma TakeAccounts(p: RefValue, l: Ledger, c: nat, i: nat)
    requires Accounts(p, l) && c in l.marks && RefOldest(p, l.marks[c], i)
    ensures Accounts(p, LedgerTake(l, c, p.slots[i].sn))
    ensures Leased(p, LedgerTake(l, c, p.slots[i].sn), c, i, p.slots[i].sn)
  {
    var l' := LedgerTake(l, c, p.slots[i].sn);
    CandidateCountsMe(p, l, c, i);
    assert l'.marks.Keys == l.marks.Keys;
    assert SlotAccounts(p, l, i);
    forall j: nat | j < |p.slots| ensures SlotAccounts(p, l', j) {
      assert SlotAccounts(p, l, j);
    }
  }

  // The first release of a lease succeeds, and takes exactly this consumer off the slot.
  lemma ReleaseAccounts(p: RefValue, l: Ledger, c: nat, i: nat, q: nat)
    requires Accounts(p, l) && Leased(p, l, c, i, q)
    ensures RefRelease(p, i, q).Ok?
    ensures Accounts(RefRelease(p, i, q).value, LedgerRelease(l, c, i))
    ensures forall d: nat, k: nat, r: nat :: Leased(p, l, d, k, r) && !(d == c && k == i) ==>
              Leased(RefRelease(p, i, q).value, LedgerRelease(l, c, i), d, k, r)
  {
    assert SlotAccounts(p, l, i);
    var p', l' := RefRelease(p, i, q).value, LedgerRelease(l, c, i);
    forall j: nat | j < |p'.slots| ensures SlotAccounts(p', l', j) {
      assert SlotAccounts(p, l, j);
    }
  }

  lemma SubscribeAccounts(p: RefValue, l: Ledger)
    requires Accounts(p, l)
    ensures Accounts(p.(consumers := p.consumers + 1), l.(marks := l.marks[l.ids := p.next - 1], ids := l.ids + 1))
  {
    var p', l' := p.(consumers := p.consumers + 1), l.(marks := l.marks[l.ids := p.next - 1], ids := l.ids + 1);
    assert l'.marks.Keys == l.marks.Keys + {l.ids};
    forall j: nat | j < |p'.slots| ensures SlotAccounts(p', l', j) {
      assert SlotAccounts(p, l, j);
    }
  }

  lemma CloseAccounts(p: RefValue, l: Ledger, c: nat)
    requires Accounts(p, l) && c in l.marks
    ensures p.consumers >= 1
    ensures Accounts(p.(consumers := p.consumers - 1), l.(marks := l.marks - {c}))
  {
    var l' := l.(marks := l.marks - {c});
    assert l'.marks.Keys == l.marks.Keys - {c};
    assert c in l.marks.Keys;
    var p' := p.(consumers := p.consumers - 1);
    forall j: nat | j < |p'.slots| ensures SlotAccounts(p', l', j) {
      assert SlotAccounts(p, l, j);
    }
  }
}
