/**
 The production ring in place: slot and registry words are updated by the loops of the
 source, with sequences as 64-bit words.  The ghost `model` is the value of module
 RingSpec these words stand for; its sequences are the unbounded counters.
 */
module ProductionRing {
  import opened Basics
  import opened TenzorCore
  import opened RingSpec
  import opened RingResults

  datatype PublishResult = PublishResult(sequence: u64, slot: nat, readers: nat)

  datatype PublishError = Invalid | RingFull

  function Stored(x: Slot): Slot { x.(sn := Word(x.sn)) }

  predicate HeadOk(head: seq<nat>, cap: nat) {
    |head| == HEAD_WORDS && ReadableHead(head[W_NDIM], head[W_NBYTES], head[W_DTYPE], cap)
  }

  class Ring {
    const slots: array<Slot>
    const entries: array<Entry>
    const cap: nat
    var next: u64
    var consumers: nat
    var published: nat
    var dropped: nat
    var reaped: nat
    ghost var model: RingValue

    // The words in memory are those of the model.
    ghost predicate Tied()
      reads this, slots, entries
    {
      && slots.Length == |model.slots| && entries.Length == |model.entries| == MAX_CONSUMERS
      && (forall i :: 0 <= i < slots.Length ==> slots[i] == Stored(model.slots[i]))
      && (forall c :: 0 <= c < entries.Length ==> entries[c] == model.entries[c])
      && next == Word(model.next)
      && consumers == model.consumers && published == model.published
      && dropped == model.dropped && reaped == model.reaped
    }

    ghost predicate Valid()
      reads this, slots, entries
    {
      && Tied() && Sound(model)
      && (forall i :: 0 <= i < slots.Length && !slots[i].state.Free? ==> HeadOk(slots[i].tensor.head, cap))
    }

    // Every committed sequence is within 2^63 of the counter.
    ghost predicate Near()
      reads this
    {
      forall i: nat :: i < |model.slots| && model.slots[i].state.Committed? ==>
        model.next < model.slots[i].sn + HALF
    }

    constructor (slotCount: nat, capacity: nat, blank: Tensor)
      requires slotCount >= 2
      ensures Valid() && fresh(slots) && fresh(entries) && Near()
      ensures cap == capacity && |model.slots| == slotCount && model.next == 1 && Active(model) == {}
      ensures forall i :: 0 <= i < slotCount ==> model.slots[i] == Slot(Free, 0, {}, 0, 0, blank)
    {
      slots := new Slot[slotCount](_ => Slot(Free, 0, {}, 0, 0, blank));
      entries := new Entry[MAX_CONSUMERS](_ => Entry(false, 0, 0));
      cap := capacity;
      next, consumers, published, dropped, reaped := 1, 0, 0, 0, 0;
      new;
      model := RingValue(slots[..], entries[..], 1, 0, 0, 0, 0);
      assert Active(model) == {};
    }

    method ActiveMask() returns (mask: set<nat>)
      requires Tied()
      ensures mask == Active(model)
    {
      mask := {};
      for i := 0 to MAX_CONSUMERS
        invariant forall c: nat :: c in mask <==> c < i && entries[c].active
      {
        if entries[i].active {
          mask := mask + {i};
        }
      }
    }

    // The fetch_and on one mask and, where the bit was set, the readers store.
    method DropSlotBit(s: nat, c: nat) returns (emptied: bool)
      requires s < slots.Length
      modifies slots
      ensures slots[s] == ClearBit(old(slots[s]), c)
      ensures forall k :: 0 <= k < slots.Length && k != s ==> slots[k] == old(slots[k])
      ensures emptied <==> old(slots[s].mask) == {c}
    {
      var previous := slots[s].mask;
      var now := previous - {c};
      slots[s] := slots[s].(mask := now);
      if c in previous {
        slots[s] := slots[s].(readers := |now|);
        emptied := now == {};
        assert emptied ==> previous == {c};
      } else {
        assert now == previous;
        emptied := false;
      }
    }

    // Clear one consumer's bit from every slot.
    method DropConsumerBit(c: nat) returns (freedAny: bool)
      requires Tied()
      modifies this`model, slots
      ensures Tied() && model == DropBit(old(model), c)
      ensures freedAny <==> FreesAny(old(model), c)
      ensures forall i :: 0 <= i < slots.Length ==> slots[i].state == old(slots[i].state) && slots[i].tensor == old(slots[i].tensor)
    {
      freedAny := false;
      var s := 0;
      while s < slots.Length
        invariant 0 <= s <= slots.Length == |model.slots| && model == old(model)
        invariant forall k :: 0 <= k < s ==> slots[k] == Stored(ClearBit(model.slots[k], c))
        invariant forall k :: s <= k < slots.Length ==> slots[k] == Stored(model.slots[k])
        invariant freedAny <==> exists k: nat :: k < s && model.slots[k].mask == {c}
      {
        var emptied := DropSlotBit(s, c);
        freedAny := freedAny || emptied;
        s := s + 1;
      }
      model := DropBit(model, c);
    }

    // Reclaim the entries of dead consumers and the slots a dead producer abandoned.
    method ReapDead(me: nat, alive: set<nat>)
      requires Valid()
      modifies this, slots, entries
      ensures Valid() && model == Reap(old(model), me, alive)
      ensures model.next == old(model).next && (old(Near()) ==> Near())
    {
      ReapConsumers(me, alive);
      ReapWriters(me, alive);
      SweepKeepsSound(old(model), me, alive);
      SweepRemovesExactlyTheDead(old(model), me, alive);
    }

    method ReapConsumers(me: nat, alive: set<nat>)
      requires Tied()
      modifies this, slots, entries
      ensures Tied() && model == ReapEntries(old(model), me, alive, |old(model).entries|)
      ensures forall k :: 0 <= k < slots.Length ==> slots[k].state == old(slots[k].state) && slots[k].tensor == old(slots[k].tensor)
    {
      for i := 0 to MAX_CONSUMERS
        invariant Tied() && |old(model).entries| == MAX_CONSUMERS
        invariant model == ReapEntries(old(model), me, alive, i)
        invariant forall k :: 0 <= k < slots.Length ==> slots[k].state == old(slots[k].state) && slots[k].tensor == old(slots[k].tensor)
      {
        if entries[i].active && entries[i].pid != me && entries[i].pid !in alive {
          ghost var w := model;
          var freed := DropConsumerBit(i);
          entries[i] := entries[i].(generation := entries[i].generation + 1);
          entries[i] := entries[i].(active := false);
          consumers := Minus1(consumers);
          reaped := reaped + 1;
          model := ReapEntry(w, i);
        }
      }
    }

    method ReapWriters(me: nat, alive: set<nat>)
      requires Tied()
      modifies this`model, slots
      ensures Tied() && model == ReapSlots(old(model), me, alive)
      ensures forall k :: 0 <= k < slots.Length ==>
                slots[k].tensor == old(slots[k].tensor) && (!slots[k].state.Free? ==> !old(slots[k].state).Free?)
    {
      var s := 0;
      while s < slots.Length
        invariant 0 <= s <= slots.Length == |model.slots| && model == old(model)
        invariant forall k :: 0 <= k < s ==> slots[k] == Stored(ReapSlot(model.slots[k], me, alive))
        invariant forall k :: s <= k < slots.Length ==> slots[k] == Stored(model.slots[k])
        invariant forall k :: 0 <= k < slots.Length ==>
                    slots[k].tensor == old(slots[k].tensor) && (!slots[k].state.Free? ==> !old(slots[k].state).Free?)
      {
        if slots[s].state.Writing? && slots[s].pid != me && slots[s].pid !in alive {
          slots[s] := slots[s].(mask := {});
          slots[s] := slots[s].(readers := 0);
          slots[s] := slots[s].(state := Free);
        }
        s := s + 1;
      }
      model := ReapSlots(model, me, alive);
    }

    // The selection loop of reserve_header: prefer a free slot, else the oldest unclaimed.
    method SelectSlot() returns (choice: Option<nat>)
      requires Valid() && Near()
      ensures Chooses(model, choice)
    {
      var free: Option<nat> := None;
      var oldest: Option<(u64, nat)> := None;
      var i := 0;
      while i < slots.Length
        invariant 0 <= i <= slots.Length
        invariant free.None? ==> forall j: nat :: j < i ==> !model.slots[j].state.Free?
        invariant free.Some? ==> free.value < i && model.slots[free.value].state.Free?
                                 && forall j: nat :: j < free.value ==> !model.slots[j].state.Free?
        invariant oldest.None? ==> forall j: nat :: j < i ==> !Unclaimed(model.slots[j])
        invariant oldest.Some? ==> OldestBelow(model, i, oldest.value.1)
                                   && oldest.value.0 == Word(model.slots[oldest.value.1].sn)
      {
        match slots[i].state {
        case Free =>
          if free.None? {
            free := Some(i);
          }
        case Committed =>
          if slots[i].mask == {} {
            var q := slots[i].sn;
            assert SlotSound(model, model.slots[i]);
            if oldest.Some? {
              assert SlotSound(model, model.slots[oldest.value.1]);
              SeqNewerIsOrder(model.slots[oldest.value.1].sn, model.slots[i].sn);
            }
            if oldest.Some? && !SeqNewer(oldest.value.0, q) {
            } else {
              oldest := Some((q, i));
            }
          }
        case Writing =>
        }
        i := i + 1;
      }
      choice := if free.Some? then free else if oldest.Some? then Some(oldest.value.1) else None;
    }

    // Reserve under the registry lock: sweep, select, and write every header word.
    method ReserveHeader(head: seq<nat>, me: nat, alive: set<nat>) returns (choice: Option<nat>, sequence: u64, mask: set<nat>)
      requires Valid() && Near() && HeadOk(head, cap)
      modifies this, slots, entries
      ensures Valid() && Chooses(Reap(old(model), me, alive), choice)
      ensures choice.None? ==> model == Reap(old(model), me, alive)
      ensures choice.Some? ==>
                && choice.value < |old(model).slots|
                && model == RingSpec.Reserve(Reap(old(model), me, alive), choice.value, head, me)
                && sequence == Word(Reap(old(model), me, alive).next)
                && slots[choice.value].state.Writing?
                && mask == Active(Reap(old(model), me, alive))
    {
      ReapDead(me, alive);
      sequence, mask := next, {};
      choice := SelectSlot();
      if choice.Some? {
        mask := ActiveMask();
        WriteHeader(choice.value, head, me, sequence, mask);
      }
    }

    // The stores of reserve_header, in the source's order.
    method WriteHeader(i: nat, head: seq<nat>, me: nat, sequence: u64, mask: set<nat>)
      requires Valid() && HeadOk(head, cap) && i < slots.Length && Usable(model.slots[i])
      requires sequence == next && mask == Active(model)
      modifies this`model, this`next, slots
      ensures Valid() && model == RingSpec.Reserve(old(model), i, head, me) && slots[i].state.Writing?
    {
      ReserveKeepsSound(model, i, head, me);
      slots[i] := slots[i].(state := Writing);
      slots[i] := slots[i].(pid := me);
      slots[i] := slots[i].(sn := sequence);
      slots[i] := slots[i].(tensor := slots[i].tensor.(head := head));
      slots[i] := slots[i].(mask := mask);
      slots[i] := slots[i].(readers := |mask|);
      WordSucc(model.next);
      next := WrappingAdd(sequence, 1);
      model := RingSpec.Reserve(model, i, head, me);
    }

    method CopyPayload(i: nat, data: seq<nat>)
      requires Valid() && i < slots.Length && slots[i].state.Writing?
      modifies this`model, slots
      ensures Valid() && model == Fill(old(model), i, data)
    {
      slots[i] := slots[i].(tensor := slots[i].tensor.(data := data));
      model := Fill(model, i, data);
      assert Active(model) == Active(old(model));
      forall j: nat | j < |model.slots| ensures SlotSound(model, model.slots[j]) {
        assert SlotSound(old(model), old(model).slots[j]);
      }
    }

    method CommitSlot(i: nat)
      requires Valid() && i < slots.Length && slots[i].state.Writing?
      modifies this`model, this`published, slots
      ensures Valid() && model == Commit(old(model), i)
    {
      CommitKeepsSound(model, i);
      slots[i] := slots[i].(state := Committed);
      published := published + 1;
      model := Commit(model, i);
    }

    // SlotWriter::release_slot: free the slot and hand the sequence back if it is the newest.
    method ReleaseSlot(i: nat, sequence: u64)
      requires Valid() && i < slots.Length && slots[i].state.Writing? && slots[i].sn == sequence
      requires model.slots[i].sn >= 1 && model.next < model.slots[i].sn + HALF
      modifies this`model, this`next, slots
      ensures Valid() && model == Abort(old(model), i, old(model).slots[i].sn)
    {
      ghost var q := model.slots[i].sn;
      AbortKeepsSound(model, i);
      assert SlotSound(model, model.slots[i]);
      slots[i] := slots[i].(mask := {});
      slots[i] := slots[i].(readers := 0);
      slots[i] := slots[i].(state := Free);
      WordSucc(q);
      SeqNewerIsOrder(model.next, q + 1);
      if next == WrappingAdd(sequence, 1) {
        next := sequence;
      }
      model := Abort(model, i, q);
    }

    // The refusal policy: count a drop, or report that the ring is full.
    method Refuse(dropNewest: bool)
      requires Valid()
      modifies this`model, this`dropped
      ensures Valid() && model == Refused(old(model), dropNewest)
    {
      if dropNewest {
        dropped := dropped + 1;
        DropKeepsSound(model);
        model := model.(dropped := model.dropped + 1);
      }
    }

    // One attempt of `reserve`: the slot stays in state WRITING for the caller to fill.
    method Reserve(head: seq<nat>, dropNewest: bool, me: nat, alive: set<nat>)
      returns (r: Result<Option<PublishResult>, PublishError>)
      requires Valid() && Near() && |head| == HEAD_WORDS && 1 <= head[W_DTYPE] <= 9
      modifies this, slots, entries
      ensures Valid()
      ensures r == Err(Invalid) <==> head[W_NDIM] > MAX_NDIM || head[W_NBYTES] > cap
      ensures r == Err(Invalid) ==> model == old(model)
      ensures r == (if dropNewest then Ok(None) else Err(RingFull)) ==>
                var v := Reap(old(model), me, alive); Chooses(v, None) && model == Refused(v, dropNewest)
      ensures r.Ok? && r.value.Some? ==>
                var v, p := Reap(old(model), me, alive), r.value.value;
                && Selected(v, p.slot) && model == RingSpec.Reserve(v, p.slot, head, me)
                && p.sequence == Word(v.next) && p.readers == |Active(v)|
      ensures (r == Ok(None) ==> dropNewest) && (r == Err(RingFull) ==> !dropNewest)
    {
      if head[W_NDIM] > MAX_NDIM || head[W_NBYTES] > cap {
        return Err(Invalid);
      }
      var choice, sequence, mask := ReserveHeader(head, me, alive);
      if choice.Some? {
        return Ok(Some(PublishResult(sequence, choice.value, |mask|)));
      }
      Refuse(dropNewest);
      r := if dropNewest then Ok(None) else Err(RingFull);
    }

    // One attempt of `publish`, for a tensor whose header gives its own size.
    method Publish(head: seq<nat>, data: seq<nat>, dropNewest: bool, me: nat, alive: set<nat>)
      returns (r: Result<Option<PublishResult>, PublishError>)
      requires Valid() && Near() && |head| == HEAD_WORDS
      requires head[W_NDIM] <= MAX_NDIM && 1 <= head[W_DTYPE] <= 9 && head[W_NBYTES] == |data|
      modifies this, slots, entries
      ensures Valid()
      ensures r == Err(Invalid) <==> |data| > cap
      ensures r == Err(Invalid) ==> model == old(model)
      ensures r == (if dropNewest then Ok(None) else Err(RingFull)) ==>
                var v := Reap(old(model), me, alive); Chooses(v, None) && model == Refused(v, dropNewest)
      ensures r.Ok? && r.value.Some? ==>
                var v, p := Reap(old(model), me, alive), r.value.value;
                && Selected(v, p.slot)
                && model == Commit(Fill(RingSpec.Reserve(v, p.slot, head, me), p.slot, data), p.slot)
                && p.sequence == Word(v.next) && p.readers == |Active(v)|
      ensures (r == Ok(None) ==> dropNewest) && (r == Err(RingFull) ==> !dropNewest)
    {
      if |data| > cap {
        return Err(Invalid);
      }
      var choice, sequence, mask := ReserveHeader(head, me, alive);
      if choice.Some? {
        CopyPayload(choice.value, data);
        CommitSlot(choice.value);
        return Ok(Some(PublishResult(sequence, choice.value, |mask|)));
      }
      Refuse(dropNewest);
      r := if dropNewest then Ok(None) else Err(RingFull);
    }

    // Subscribe to future publications only.
    method Subscribe(me: nat, alive: set<nat>) returns (r: Result<Consumer, string>)
      requires Valid()
      modifies this, slots, entries
      ensures Valid()
      ensures var v := Reap(old(model), me, alive);
              match r
              case Err(_) => (forall c: nat :: c < MAX_CONSUMERS ==> v.entries[c].active) && model == v
              case Ok(c) =>
                && fresh(c) && c.ring == this && c.Valid()
                && FirstFreeEntry(v, c.index) && model == Register(v, c.index, me)
                && c.mark == v.next - 1 && !c.closed
    {
      ReapDead(me, alive);
      var i := 0;
      while i < MAX_CONSUMERS && entries[i].active
        invariant 0 <= i <= MAX_CONSUMERS
        invariant forall c: nat :: c < i ==> entries[c].active
      {
        i := i + 1;
      }
      if i == MAX_CONSUMERS {
        return Err("maximum consumer count reached");
      }
      RegisterKeepsSound(model, i, me);
      WordPred(model.next);
      var last := WrappingSub(next, 1);
      ghost var mark := model.next - 1;
      entries[i] := Entry(true, me, entries[i].generation + 1);
      consumers := consumers + 1;
      model := Register(model, i, me);
      var c := new Consumer(this, i, last, mark);
      r := Ok(c);
    }
  }

  datatype Meta = Meta(sequence: u64, slot: nat, tensor: Tensor)

  class Consumer {
    const ring: Ring
    const index: nat
    var last: u64
    var closed: bool
    ghost var mark: nat

    ghost predicate Valid()
      reads this, ring, ring.slots, ring.entries
    {
      ring.Valid() && index < MAX_CONSUMERS && last == Word(mark)
    }

    // Every committed sequence is within 2^63 of what this consumer took last.
    ghost predicate InReach()
      reads this, ring
    {
      forall i: nat :: i < |ring.model.slots| && ring.model.slots[i].state.Committed? ==>
        mark < ring.model.slots[i].sn + HALF && ring.model.slots[i].sn < mark + HALF
    }

    constructor (r: Ring, i: nat, l: u64, ghost m: nat)
      ensures ring == r && index == i && last == l && mark == m && !closed
    {
      ring, index, last, mark, closed := r, i, l, m, false;
    }

    // One pass over the slots.
    method ScanOldest() returns (best: Option<(u64, nat)>)
      requires Valid() && InReach()
      ensures Takes(ring.model, index, mark, if best.Some? then Some(best.value.1) else None)
      ensures best.Some? ==> best.value.1 < ring.slots.Length && best.value.0 == ring.slots[best.value.1].sn
    {
      best := None;
      var i := 0;
      while i < ring.slots.Length
        invariant 0 <= i <= ring.slots.Length
        invariant best.None? ==> forall j: nat :: j < i ==> !Candidate(ring.model, index, mark, j)
        invariant best.Some? ==>
                    && best.value.1 < i && best.value.0 == ring.slots[best.value.1].sn
                    && Candidate(ring.model, index, mark, best.value.1)
                    && (forall j: nat :: j < i && Candidate(ring.model, index, mark, j) ==>
                          ring.model.slots[best.value.1].sn <= ring.model.slots[j].sn)
      {
        if ring.slots[i].state.Committed? && index in ring.slots[i].mask {
          var q := ring.slots[i].sn;
          SeqNewerIsOrder(ring.model.slots[i].sn, mark);
          if SeqNewer(q, last) {
            if best.Some? {
              SeqNewerIsOrder(ring.model.slots[best.value.1].sn, ring.model.slots[i].sn);
            }
            if best.Some? && !SeqNewer(best.value.0, q) {
            } else {
              best := Some((q, i));
            }
          }
        }
        i := i + 1;
      }
    }

    // Rescan until two passes agree, at most once per slot, then validate.
    method TryTake() returns (r: Option<Meta>)
      requires Valid() && InReach()
      ensures Takes(ring.model, index, mark, if r.Some? then Some(r.value.slot) else None)
      ensures r.Some? ==>
                && r.value.slot < ring.slots.Length
                && r.value.sequence == ring.slots[r.value.slot].sn
                && r.value.tensor == ring.model.slots[r.value.slot].tensor
    {
      var first := ScanOldest();
      if first.None? {
        return None;
      }
      var best: (u64, nat) := first.value;
      var k := 0;
      while k < ring.slots.Length
        invariant Oldest(ring.model, index, mark, best.1)
        invariant best.1 < ring.slots.Length && best.0 == ring.slots[best.1].sn
      {
        var again := ScanOldest();
        if again.Some? && SeqNewer(best.0, again.value.0) {
          best := again.value;
        } else {
          break;
        }
        k := k + 1;
      }
      r := ReadValidated(best.1, best.0);
    }

    // The header copied out of one slot, if the slot still carries the expected sequence.
    method ReadValidated(i: nat, expected: u64) returns (r: Option<Meta>)
      requires Valid() && i < ring.slots.Length
      ensures r.Some? <==> ring.slots[i].state.Committed? && ring.slots[i].sn == expected && index in ring.slots[i].mask
      ensures r.Some? ==> r.value == Meta(expected, i, ring.model.slots[i].tensor)
    {
      var x := ring.slots[i];
      if !x.state.Committed? || x.sn != expected {
        return None;
      }
      var head := x.tensor.head;
      if index !in x.mask {
        return None;
      }
      if !ReadableHead(head[W_NDIM], head[W_NBYTES], head[W_DTYPE], ring.cap) {
        return None;
      }
      r := Some(Meta(expected, i, x.tensor));
    }

    // One attempt of `next`.
    method Next() returns (r: Option<Meta>)
      requires Valid() && InReach()
      modifies this`last, this`mark
      ensures Valid()
      ensures Takes(ring.model, index, old(mark), if r.Some? then Some(r.value.slot) else None)
      ensures r.Some? ==>
                && mark == ring.model.slots[r.value.slot].sn
                && r.value == Meta(Word(mark), r.value.slot, ring.model.slots[r.value.slot].tensor)
      ensures r.None? ==> mark == old(mark)
    {
      r := TryTake();
      if r.Some? {
        mark := ring.model.slots[r.value.slot].sn;
        last := r.value.sequence;
      }
    }

    // Give a lease on sequence `meta.sequence`, whose unbounded number is q, back.
    method Release(meta: Meta, ghost q: nat) returns (r: Result<(), ReleaseError>)
      requires Valid() && meta.slot < ring.slots.Length && meta.sequence == Word(q)
      requires q < ring.model.slots[meta.slot].sn + HALF && ring.model.slots[meta.slot].sn < q + HALF
      modifies ring`model, ring.slots
      ensures Valid()
      ensures match RingSpec.Release(old(ring.model), index, meta.slot, q)
              case Ok(v) => r.Ok? && ring.model == v
              case Err(e) => r == Err(e) && ring.model == old(ring.model)
    {
      var i := meta.slot;
      SeqNewerIsOrder(ring.model.slots[i].sn, q);
      if ring.slots[i].sn != meta.sequence {
        return Err(Recycled);
      }
      var previous := ring.slots[i].mask;
      if index !in previous {
        return Err(ReleasedTwice);
      }
      ReleaseKeepsSound(ring.model, index, i, q);
      ring.slots[i] := ring.slots[i].(mask := previous - {index});
      ring.slots[i] := ring.slots[i].(readers := |previous - {index}|);
      ring.model := RingSpec.Release(ring.model, index, i, q).value;
      r := Ok(());
    }

    method Close()
      requires Valid() && (!closed ==> ring.model.entries[index].active)
      modifies this`closed, ring, ring.slots, ring.entries
      ensures Valid() && closed
      ensures ring.model == if old(closed) then old(ring.model) else RingSpec.Close(old(ring.model), index)
    {
      if closed {
        return;
      }
      closed := true;
      CloseKeepsSound(ring.model, index);
      ghost var v := ring.model;
      var freed := ring.DropConsumerBit(index);
      ring.entries[index] := ring.entries[index].(active := false);
      ring.consumers := Minus1(ring.consumers);
      ring.model := RingSpec.Close(v, index);
    }
  }

  predicate Unclaimed(x: Slot) { x.state.Committed? && x.mask == {} }

  // Slot k is the first of the oldest unclaimed committed slots below n.
  ghost predicate OldestBelow(v: RingValue, n: nat, k: nat) {
    && k < n <= |v.slots| && Unclaimed(v.slots[k])
    && (forall j: nat :: j < n && Unclaimed(v.slots[j]) ==> v.slots[k].sn <= v.slots[j].sn)
    && (forall j: nat :: j < k && Unclaimed(v.slots[j]) ==> v.slots[k].sn < v.slots[j].sn)
  }
}
