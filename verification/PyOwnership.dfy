/**
 The Python handles: a lease and a slot writer that count the buffers exported from them
 and refuse to give the slot up while one is alive.  CPython keeps a handle alive while a
 buffer of it is exported, so a handle is dropped only with no export left.
 */
module PyOwnership {
  import opened Basics
  import opened TenzorCore
  import opened RingSpec
  import opened ProductionRing

  datatype PyError = BufferError | Finished | Ring(e: ReleaseError)

  // ---- the counters on their own ---------------------------------------------

  // `open`: the handle still owns its lease or reservation.
  datatype Handle = Handle(open: bool, exports: nat)

  datatype Call = GetBuffer | ReleaseBuffer | GiveUp | Drop

  // GiveUp is `release`, `commit` or `abort`: refused while something is exported.
  function AfterCall(h: Handle, c: Call): Handle {
    match c
    case GetBuffer => if h.open then h.(exports := h.exports + 1) else h
    case ReleaseBuffer => h.(exports := Minus1(h.exports))
    case GiveUp => if h.exports > 0 then h else h.(open := false)
    case Drop => h.(open := false)
  }

  // ---- handles and the views taken of them ------------------------------------

  // A handle together with the views of it that are alive, each with a number of its own.
  datatype Client = Client(h: Handle, views: set<nat>)

  // CPython asks for a buffer when a view is made and gives it back when that view dies; it
  // drops a handle only when no view is left.
  datatype Act = MakeView(id: nat) | ViewDies(id: nat) | Finish | Forget

  predicate MayAct(o: Client, a: Act) {
    match a
    case MakeView(id) => id !in o.views
    case ViewDies(id) => id in o.views
    case Finish => true
    case Forget => o.views == {}
  }

  function CallOf(a: Act): Call {
    match a
    case MakeView(_) => GetBuffer
    case ViewDies(_) => ReleaseBuffer
    case Finish => GiveUp
    case Forget => Drop
  }

  // The handle answers by its counter alone; a view comes to be only if its buffer is granted.
  function AfterAct(o: Client, a: Act): Client {
    var h' := AfterCall(o.h, CallOf(a));
    match a
    case MakeView(id) => Client(h', if o.h.open then o.views + {id} else o.views)
    case ViewDies(id) => Client(h', o.views - {id})
    case _ => Client(h', o.views)
  }

  ghost predicate Acts(o: Client, acts: seq<Act>, o': Client)
    decreases |acts|
  {
    if acts == [] then o' == o
    else MayAct(o, acts[0]) && Acts(AfterAct(o, acts[0]), acts[1..], o')
  }

  predicate Counted(o: Client) {
    o.h.exports == |o.views| && (o.views != {} ==> o.h.open)
  }

  lemma ActKeepsCount(o: Client, a: Act)
    requires Counted(o) && MayAct(o, a)
    ensures Counted(AfterAct(o, a))
  {
    if a.ViewDies? {
      assert o.views == (o.views - {a.id}) + {a.id};
    }
  }

  // A counted handle is given up exactly when no view of it is alive.
  lemma FinishesExactlyWhen(o: Client)
    requires Counted(o) && o.h.open
    ensures !AfterAct(o, Finish).h.open <==> o.views == {}
  {
    if o.views != {} {
      var id :| id in o.views;
      assert |o.views| > 0;
    }
  }

  // Whatever is done in whatever order, the counter is the number of views alive, a view that
  // is alive keeps its handle open, and once the handle has given its slot up there is no view.
  lemma {:induction false} ViewsKeepTheHandleOpen(o: Client, acts: seq<Act>, o': Client)
    requires Counted(o) && Acts(o, acts, o')
    ensures o'.h.exports == |o'.views|
    ensures o'.views != {} ==> o'.h.open && AfterAct(o', Finish) == o'
    ensures o'.h.open && o'.views == {} ==> !AfterAct(o', Finish).h.open
    ensures !o.h.open ==> !o'.h.open && o'.views == {}
    decreases |acts|
  {
    if acts == [] {
      if o'.views != {} {
        FinishesExactlyWhen(o');
      }
    } else {
      ActKeepsCount(o, acts[0]);
      ViewsKeepTheHandleOpen(AfterAct(o, acts[0]), acts[1..], o');
    }
  }

  // ---- what a handle stands for ----------------------------------------------

  // Consumer c claims slot i, committed with publication q.
  predicate ClaimOn(v: RingValue, c: nat, i: nat, q: nat) {
    i < |v.slots| && v.slots[i].state.Committed? && v.slots[i].sn == q && c in v.slots[i].mask
  }

  // Slot i is being written for publication q, so no consumer can see it.
  predicate WriteOn(v: RingValue, i: nat, q: nat) {
    i < |v.slots| && v.slots[i].state.Writing? && v.slots[i].sn == q && q >= 1
  }

  // ---- Lease ----------------------------------------------------------------

  class PyLease {
    const consumer: Consumer
    var meta: Option<Meta>
    var exports: nat
    ghost var q: nat

    // The consumer still claims the slot for the publication this lease was taken for.
    ghost predicate Claims()
      reads this, consumer.ring
    {
      && meta.Some? && meta.value.sequence == Word(q)
      && ClaimOn(consumer.ring.model, consumer.index, meta.value.slot, q)
    }

    // A handle on some slot, its claim perhaps gone because the consumer was closed under it.
    ghost predicate Formed()
      reads this, consumer, consumer.ring, consumer.ring.slots, consumer.ring.entries
    {
      && consumer.Valid() && (exports > 0 ==> meta.Some?)
      && (meta.Some? ==>
            && meta.value.sequence == Word(q) && meta.value.slot < |consumer.ring.model.slots|
            && var sn := consumer.ring.model.slots[meta.value.slot].sn; q < sn + HALF && sn < q + HALF)
    }

    ghost predicate Valid()
      reads this, consumer, consumer.ring, consumer.ring.slots, consumer.ring.entries
    {
      Formed() && (meta.Some? ==> Claims())
    }

    ghost function Counters(): Handle
      reads this
    {
      Handle(meta.Some?, exports)
    }

    // A lease taken by `next`.
    constructor (c: Consumer, m: Meta, ghost sequence: nat)
      requires c.Valid() && m.sequence == Word(sequence) && ClaimOn(c.ring.model, c.index, m.slot, sequence)
      ensures Valid() && consumer == c && meta == Some(m) && exports == 0 && q == sequence
    {
      consumer, meta, exports, q := c, Some(m), 0, sequence;
    }

    method GetBuffer() returns (r: Result<(), PyError>)
      requires Formed()
      modifies this`exports
      ensures Formed() && Counters() == AfterCall(old(Counters()), Call.GetBuffer)
      ensures r.Ok? <==> old(meta).Some?
      ensures old(Valid()) ==> Valid() && (r.Ok? ==> Claims())
    {
      if meta.None? {
        return Err(BufferError);
      }
      exports := exports + 1;
      r := Ok(());
    }

    method ReleaseBuffer()
      requires Formed()
      modifies this`exports
      ensures Formed() && Counters() == AfterCall(old(Counters()), Call.ReleaseBuffer)
      ensures old(Valid()) ==> Valid()
    {
      exports := Minus1(exports);
    }

    // Refused while a view is alive; otherwise it drops this consumer's claim, once.  With the
    // claim already gone the ring's own error comes out, and the handle is spent all the same.
    method Release() returns (r: Result<(), PyError>)
      requires Formed()
      modifies this`meta, consumer.ring`model, consumer.ring.slots
      ensures Formed() && Counters() == AfterCall(old(Counters()), Call.GiveUp)
      ensures r == Err(BufferError) <==> old(meta).Some? && exports > 0
      ensures r == Err(BufferError) || old(meta).None? ==> consumer.ring.model == old(consumer.ring.model)
      ensures old(meta).None? ==> r.Ok?
      ensures old(meta).Some? && exports == 0 ==>
                && old(meta).value.slot < |old(consumer.ring.model).slots|
                && match RingSpec.Release(old(consumer.ring.model), consumer.index, old(meta).value.slot, q)
                   case Ok(v) => r.Ok? && consumer.ring.model == v
                   case Err(e) => r == Err(Ring(e)) && consumer.ring.model == old(consumer.ring.model)
      ensures old(Valid()) ==> Valid() && (r.Ok? || r == Err(BufferError))
    {
      if meta.None? {
        return Ok(());
      }
      if exports > 0 {
        return Err(BufferError);
      }
      var m := meta.value;
      meta := None;
      var released := consumer.Release(m, q);
      r := match released case Ok(_) => Ok(()) case Err(e) => Err(Ring(e));
    }
  }

  // ---- SlotWriter -----------------------------------------------------------

  datatype Writer = Writer(slot: nat, sequence: u64)

  class PySlotWriter {
    const ring: ProductionRing.Ring
    var writer: Option<Writer>
    var exports: nat

    // The reserved slot is still in state WRITING, so no consumer can see it.
    ghost predicate Reserved()
      reads this, ring
    {
      && writer.Some? && writer.value.slot < |ring.model.slots|
      && var q := ring.model.slots[writer.value.slot].sn;
      writer.value.sequence == Word(q) && WriteOn(ring.model, writer.value.slot, q)
    }

    ghost predicate Valid()
      reads this, ring, ring.slots, ring.entries
    {
      ring.Valid() && (writer.Some? ==> Reserved()) && (exports > 0 ==> writer.Some?)
    }

    ghost function Counters(): Handle
      reads this
    {
      Handle(writer.Some?, exports)
    }

    constructor (r: ProductionRing.Ring, slot: nat, sequence: u64)
      requires r.Valid() && slot < |r.model.slots|
      requires sequence == Word(r.model.slots[slot].sn) && WriteOn(r.model, slot, r.model.slots[slot].sn)
      ensures Valid() && ring == r && writer == Some(Writer(slot, sequence)) && exports == 0
    {
      ring, writer, exports := r, Some(Writer(slot, sequence)), 0;
    }

    method GetBuffer() returns (r: Result<(), PyError>)
      requires Valid()
      modifies this`exports
      ensures Valid() && Counters() == AfterCall(old(Counters()), Call.GetBuffer)
      ensures r.Ok? <==> writer.Some?
      ensures r.Ok? ==> Reserved()
    {
      if writer.None? {
        return Err(Finished);
      }
      exports := exports + 1;
      r := Ok(());
    }

    method ReleaseBuffer()
      requires Valid()
      modifies this`exports
      ensures Valid() && Counters() == AfterCall(old(Counters()), Call.ReleaseBuffer)
    {
      exports := Minus1(exports);
    }

    // Publishing needs every writable view gone: a committed slot has no writer left.
    method Commit() returns (r: Result<u64, PyError>)
      requires Valid()
      modifies this`writer, ring`model, ring`published, ring.slots
      ensures Valid() && Counters() == AfterCall(old(Counters()), Call.GiveUp)
      ensures r.Ok? <==> old(writer).Some? && exports == 0
      ensures r.Err? ==> ring.model == old(ring.model)
      ensures r.Ok? ==>
                && writer.None? && old(writer).value.slot < |old(ring.model).slots|
                && ring.model == RingSpec.Commit(old(ring.model), old(writer).value.slot)
                && r.value == old(writer).value.sequence
    {
      if exports > 0 {
        return Err(BufferError);
      }
      if writer.None? {
        return Err(Finished);
      }
      var w := writer.value;
      writer := None;
      ring.CommitSlot(w.slot);
      r := Ok(w.sequence);
    }

    // Abort, or drop of a writer that was never finished.
    method Abort() returns (r: Result<(), PyError>)
      requires Valid()
      requires Reserved() ==> ring.model.next < ring.model.slots[writer.value.slot].sn + HALF
      modifies this`writer, ring`model, ring`next, ring.slots
      ensures Valid() && Counters() == AfterCall(old(Counters()), Call.GiveUp)
      ensures r.Ok? <==> exports == 0
      ensures r.Err? || old(writer).None? ==> ring.model == old(ring.model)
      ensures r.Ok? && old(writer).Some? ==>
                var i := old(writer).value.slot;
                i < |old(ring.model).slots|
                && ring.model == RingSpec.Abort(old(ring.model), i, old(ring.model).slots[i].sn)
    {
      if exports > 0 {
        return Err(BufferError);
      }
      if writer.Some? {
        var w := writer.value;
        writer := None;
        ring.ReleaseSlot(w.slot, w.sequence);
      }
      r := Ok(());
    }
  }
}
