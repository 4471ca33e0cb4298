/** The reference ring in place, with the ledger of module ReferenceSpec as ghost state. */
module ReferenceRing {
  import opened Basics
  import opened TenzorCore
  import opened RingSpec
  import opened ReferenceSpec

  datatype RefPublished = RefPublished(sequence: nat, slot: nat, readers: nat)

  datatype RefError = Invalid | RingFull

  datatype RefMeta = RefMeta(sequence: nat, slot: nat, tensor: Tensor)

  predicate PairLeq(a: (nat, nat), b: (nat, nat)) {
    a.0 < b.0 || (a.0 == b.0 && a.1 <= b.1)
  }

  // The least pair: what sorting a list of (sequence, slot) puts first.
  method LeastPair(xs: seq<(nat, nat)>) returns (m: (nat, nat))
    requires xs != []
    ensures m in xs && forall p :: p in xs ==> PairLeq(m, p)
  {
    m := xs[0];
    for k := 1 to |xs|
      invariant m in xs
      invariant forall j :: 0 <= j < k ==> PairLeq(m, xs[j])
    {
      if !PairLeq(m, xs[k]) {
        m := xs[k];
      }
    }
  }

  class SharedTensorRing {
    const slots: array<RefSlot>
    const cap: nat
    var next: nat
    var consumers: nat
    var published: nat
    var dropped: nat
    ghost var ledger: Ledger

    ghost function Value(): RefValue
      reads this, slots
    {
      RefValue(slots[..], next, consumers, published, dropped)
    }

    ghost predicate Valid()
      reads this, slots
    {
      Accounts(Value(), ledger)
    }

    constructor (slotCount: nat, capacity: nat, blank: Tensor)
      requires slotCount >= 2
      ensures Valid() && fresh(slots) && cap == capacity
      ensures Value() == RefValue(seq(slotCount, _ => RefSlot(Free, 0, 0, blank)), 1, 0, 0, 0)
      ensures ledger == Ledger(seq(slotCount, _ => {}), map[], 0)
    {
      slots := new RefSlot[slotCount](_ => RefSlot(Free, 0, 0, blank));
      cap := capacity;
      next, consumers, published, dropped := 1, 0, 0, 0;
      ledger := Ledger(seq(slotCount, _ => {}), map[], 0);
      new;
      assert slots[..] == seq(slotCount, _ => RefSlot(Free, 0, 0, blank));
    }

    method SelectSlot() returns (choice: Option<nat>)
      requires Valid()
      ensures RefChooses(Value(), choice)
    {
      var free: seq<nat> := [];
      var reclaimable: seq<(nat, nat)> := [];
      var i := 0;
      while i < slots.Length
        invariant 0 <= i <= slots.Length
        invariant free == [] ==> forall j: nat :: j < i ==> !slots[j].state.Free?
        invariant free != [] ==> free[0] < i && slots[free[0]].state.Free?
                                 && forall j: nat :: j < free[0] ==> !slots[j].state.Free?
        invariant forall p :: p in reclaimable ==> p.1 < i && Reclaimable(slots[p.1]) && slots[p.1].sn == p.0
        invariant forall j: nat :: j < i && Reclaimable(slots[j]) ==> (slots[j].sn, j) in reclaimable
      {
        if slots[i].state.Free? {
          free := free + [i];
        } else if slots[i].state.Committed? && slots[i].readers == 0 {
          reclaimable := reclaimable + [(slots[i].sn, i)];
        }
        i := i + 1;
      }
      if free != [] {
        choice := Some(free[0]);
      } else if reclaimable != [] {
        var least := LeastPair(reclaimable);
        choice := Some(least.1);
        forall j: nat | j < slots.Length && RefUsable(slots[j])
          ensures slots[least.1].sn <= slots[j].sn && (j < least.1 ==> slots[least.1].sn < slots[j].sn) {
          assert (slots[j].sn, j) in reclaimable;
        }
      } else {
        choice := None;
      }
    }

    // One attempt of `publish`, all of it under the lock.
    method Publish(t: Tensor, dropNewest: bool) returns (r: Result<Option<RefPublished>, RefError>)
      requires Valid() && |t.head| == HEAD_WORDS
      modifies this, slots
      ensures Valid()
      ensures r == Err(Invalid) <==> !ReadableHead(t.head[W_NDIM], t.head[W_NBYTES], t.head[W_DTYPE], cap)
      ensures r == Err(Invalid) ==> Value() == old(Value()) && ledger == old(ledger)
      ensures r == (if dropNewest then Ok(None) else Err(RingFull)) ==>
                && RefChooses(old(Value()), None)
                && Value() == old(Value()).(dropped := old(dropped) + if dropNewest then 1 else 0)
                && ledger == old(ledger)
      ensures r.Ok? && r.value.Some? ==>
                var p := r.value.value;
                && RefSelected(old(Value()), p.slot)
                && Value() == RefPublish(old(Value()), p.slot, t)
                && ledger == LedgerPublish(old(ledger), p.slot)
                && p == RefPublished(old(next), p.slot, |old(ledger).marks.Keys|)
      ensures (r == Ok(None) ==> dropNewest) && (r == Err(RingFull) ==> !dropNewest)
    {
      if !ReadableHead(t.head[W_NDIM], t.head[W_NBYTES], t.head[W_DTYPE], cap) {
        return Err(Invalid);
      }
      var choice := SelectSlot();
      if choice.Some? {
        var i := choice.value;
        ghost var before := Value();
        PublishAccounts(before, ledger, i, t);
        var sequence := next;
        slots[i] := slots[i].(state := Writing);
        slots[i] := slots[i].(sn := sequence);
        slots[i] := slots[i].(readers := consumers);
        slots[i] := slots[i].(tensor := t);
        slots[i] := slots[i].(state := Committed);
        next := sequence + 1;
        published := published + 1;
        ledger := LedgerPublish(ledger, i);
        assert Value() == RefPublish(before, i, t);
        r := Ok(Some(RefPublished(sequence, i, consumers)));
      } else {
        if dropNewest {
          dropped := dropped + 1;
          DropAccounts(old(Value()), ledger);
        }
        r := if dropNewest then Ok(None) else Err(RingFull);
      }
    }

    method Subscribe() returns (r: Result<TensorConsumer, string>)
      requires Valid()
      modifies this
      ensures Valid()
      ensures match r
              case Err(_) => old(consumers) >= MAX_CONSUMERS && Value() == old(Value()) && ledger == old(ledger)
              case Ok(c) =>
                && old(consumers) < MAX_CONSUMERS && Value() == old(Value()).(consumers := old(consumers) + 1)
                && fresh(c) && c.ring == this && c.Valid() && !c.closed && c.last == old(next) - 1
                && ledger == old(ledger).(marks := old(ledger).marks[c.id := c.last], ids := old(ledger).ids + 1)
                && c.id == old(ledger).ids
    {
      if consumers >= MAX_CONSUMERS {
        return Err("maximum consumer count reached");
      }
      SubscribeAccounts(Value(), ledger);
      consumers := consumers + 1;
      var last: nat := next - 1;
      ghost var id := ledger.ids;
      ledger := ledger.(marks := ledger.marks[id := last], ids := id + 1);
      var c := new TensorConsumer(this, last, id);
      r := Ok(c);
    }
  }

  predicate Reclaimable(x: RefSlot) { x.state.Committed? && x.readers == 0 }

  class TensorConsumer {
    const ring: SharedTensorRing
    ghost const id: nat
    var last: nat
    var closed: bool

    ghost predicate Valid()
      reads this, ring, ring.slots
    {
      ring.Valid() && (!closed ==> id in ring.ledger.marks && ring.ledger.marks[id] == last)
    }

    constructor (r: SharedTensorRing, l: nat, ghost i: nat)
      ensures ring == r && last == l && id == i && !closed
    {
      ring, last, closed := r, l, false;
      id := i;
    }

    // One attempt of `next`.  A candidate nobody counts is never met.
    method Next() returns (r: Option<RefMeta>)
      requires Valid() && !closed
      modifies this`last, ring`ledger
      ensures Valid() && ring.Value() == old(ring.Value())
      ensures RefTakes(ring.Value(), old(last), if r.Some? then Some(r.value.slot) else None)
      ensures match r
              case None => last == old(last) && ring.ledger == old(ring.ledger)
              case Some(m) =>
                && m.slot < ring.slots.Length
                && m == RefMeta(ring.slots[m.slot].sn, m.slot, ring.slots[m.slot].tensor)
                && last == m.sequence && ring.ledger == LedgerTake(old(ring.ledger), id, last)
                && Leased(ring.Value(), ring.ledger, id, m.slot, m.sequence)
    {
      var candidates: seq<(nat, nat)> := [];
      var i := 0;
      while i < ring.slots.Length
        invariant 0 <= i <= ring.slots.Length
        invariant forall p :: p in candidates ==> p.1 < i && RefCandidate(ring.Value(), last, p.1) && ring.slots[p.1].sn == p.0
        invariant forall j: nat :: j < i && RefCandidate(ring.Value(), last, j) ==> (ring.slots[j].sn, j) in candidates
      {
        if ring.slots[i].state.Committed? {
          var q := ring.slots[i].sn;
          if q > last {
            candidates := candidates + [(q, i)];
          }
        }
        i := i + 1;
      }
      if candidates == [] {
        return None;
      }
      var least := LeastPair(candidates);
      var k := least.1;
      assert RefOldest(ring.Value(), last, k) by {
        forall j: nat | RefCandidate(ring.Value(), last, j) ensures ring.slots[k].sn <= ring.slots[j].sn {
          assert (ring.slots[j].sn, j) in candidates;
        }
      }
      if ring.slots[k].readers == 0 {
        CandidateCountsMe(ring.Value(), ring.ledger, id, k);
        assert false;
      }
      TakeAccounts(ring.Value(), ring.ledger, id, k);
      last := least.0;
      ring.ledger := LedgerTake(ring.ledger, id, last);
      r := Some(RefMeta(last, k, ring.slots[k].tensor));
    }

    // The first release of a lease: neither error can occur.
    method Release(m: RefMeta) returns (r: Result<(), ReleaseError>)
      requires Valid() && Leased(ring.Value(), ring.ledger, id, m.slot, m.sequence)
      modifies ring`ledger, ring.slots
      ensures Valid() && r.Ok?
      ensures RefRelease(old(ring.Value()), m.slot, m.sequence) == Ok(ring.Value())
      ensures ring.ledger == LedgerRelease(old(ring.ledger), id, m.slot)
    {
      ghost var before := ring.Value();
      ReleaseAccounts(before, ring.ledger, id, m.slot, m.sequence);
      if ring.slots[m.slot].sn != m.sequence {
        return Err(Recycled);
      }
      var readers := ring.slots[m.slot].readers;
      if readers == 0 {
        return Err(ReleasedTwice);
      }
      ring.slots[m.slot] := ring.slots[m.slot].(readers := readers - 1);
      ring.ledger := LedgerRelease(ring.ledger, id, m.slot);
      assert ring.Value() == RefRelease(before, m.slot, m.sequence).value;
      r := Ok(());
    }

    method Close()
      requires Valid()
      modifies this`closed, ring`ledger, ring`consumers
      ensures Valid() && closed
      ensures if old(closed) then ring.Value() == old(ring.Value()) && ring.ledger == old(ring.ledger)
              else ring.Value() == old(ring.Value()).(consumers := Minus1(old(ring.consumers)))
                   && ring.ledger == old(ring.ledger).(marks := old(ring.ledger).marks - {id})
    {
      if closed {
        return;
      }
      CloseAccounts(ring.Value(), ring.ledger, id);
      ring.consumers := Minus1(ring.consumers);
      ring.ledger := ring.ledger.(marks := ring.ledger.marks - {id});
      closed := true;
    }
  }
}
