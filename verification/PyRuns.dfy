/**
 The Python handles together with the ring: any interleaving of calls on leases and slot
 writers with everything else the ring's processes do.  A view that is alive has its slot:
 under a lease the claim stands and the tensor is untouched, under a writer the slot is
 still being written.
 */
module PyRuns {
  import opened RingSpec
  import opened RingResults
  import opened PyOwnership
  import AQ = AtomicQueue

  // ---- what other calls leave alone ------------------------------------------

  lemma CallKeepsSound(s: AQ.State, t: AQ.Call)
    requires Sound(s.ring) && AQ.Possible(s, t)
    ensures Sound(AQ.Do(s, t).ring)
  {
    var v := s.ring;
    match t
    case Reserve(i, head, pid) => ReserveKeepsSound(v, i, head, pid);
    case Fill(i, data) => FillKeepsSound(v, i, data);
    case Commit(i) => CommitKeepsSound(v, i);
    case Abort(i) => AbortKeepsSound(v, i);
    case Refuse(_) => DropKeepsSound(v);
    case Release(c, i) => ReleaseKeepsSound(v, c, i, v.slots[i].sn);
    case Subscribe(c, pid) => RegisterKeepsSound(v, c, pid);
    case Close(c) => CloseKeepsSound(v, c);
    case Sweep(pid, alive) => SweepKeepsSound(v, pid, alive);
    case Take(_, _) =>
    case FindNothing(_) =>
  }

  // Consumer c has taken what slot i holds, publication q with this tensor, and not released it.
  ghost predicate Leased(s: AQ.State, c: nat, i: nat, q: nat, tensor: Tensor) {
    && c in s.marks && AQ.Taken(s.ring, c, s.marks[c], i)
    && ClaimOn(s.ring, c, i, q) && s.ring.slots[i].tensor == tensor
  }

  // The call does not give up c's claim on slot i and does not find c dead.
  ghost predicate SparesLease(s: AQ.State, t: AQ.Call, c: nat, i: nat) {
    && t != AQ.Release(c, i) && t != AQ.Close(c)
    && (t.Sweep? && c < |s.ring.entries| ==>
          s.ring.entries[c].pid == t.pid || s.ring.entries[c].pid in t.alive)
  }

  // Whoever else reserves, fills, commits, aborts, registers, closes, dies or is reaped: a
  // lease stays, with its sequence, its claim and its tensor.
  lemma LeaseSurvives(s: AQ.State, t: AQ.Call, c: nat, i: nat, q: nat, tensor: Tensor)
    requires Sound(s.ring) && AQ.Possible(s, t) && SparesLease(s, t, c, i) && Leased(s, c, i, q, tensor)
    ensures Leased(AQ.Do(s, t), c, i, q, tensor)
  {
    SlotOfLease(s, t, c, i, q);
    MarkOfLease(s, t, c, i);
  }

  // The slot of a claim keeps everything a lease rests on ...
  lemma SlotOfLease(s: AQ.State, t: AQ.Call, c: nat, i: nat, q: nat)
    requires Sound(s.ring) && AQ.Possible(s, t) && SparesLease(s, t, c, i) && ClaimOn(s.ring, c, i, q)
    ensures ClaimOn(AQ.Do(s, t).ring, c, i, q)
    ensures AQ.Do(s, t).ring.slots[i].tensor == s.ring.slots[i].tensor
  {
    assert SlotSound(s.ring, s.ring.slots[i]);
    if t.Sweep? {
      SweepRemovesExactlyTheDead(s.ring, t.pid, t.alive);
    }
  }

  // ... and the consumer stays registered, with a mark that does not go back.
  lemma MarkOfLease(s: AQ.State, t: AQ.Call, c: nat, i: nat)
    requires Sound(s.ring) && AQ.Possible(s, t) && SparesLease(s, t, c, i)
    requires c in s.marks && AQ.Taken(s.ring, c, s.marks[c], i)
    ensures c in AQ.Do(s, t).marks && AQ.Do(s, t).marks[c] >= s.marks[c]
  {
    assert SlotSound(s.ring, s.ring.slots[i]);
  }

  // The call neither finishes the writer of slot i nor finds it dead.
  ghost predicate SparesWriter(s: AQ.State, t: AQ.Call, i: nat) {
    && t != AQ.Commit(i) && t != AQ.Abort(i)
    && (t.Sweep? && i < |s.ring.slots| ==>
          s.ring.slots[i].pid == t.pid || s.ring.slots[i].pid in t.alive)
  }

  lemma WriterSurvives(s: AQ.State, t: AQ.Call, i: nat, q: nat)
    requires Sound(s.ring) && AQ.Possible(s, t) && SparesWriter(s, t, i) && WriteOn(s.ring, i, q)
    ensures WriteOn(AQ.Do(s, t).ring, i, q)
  {
    if t.Sweep? {
      SweepRemovesExactlyTheDead(s.ring, t.pid, t.alive);
    }
  }

  // ---- handles and ring together ---------------------------------------------

  datatype Held = LeaseOn(c: nat, i: nat, q: nat, tensor: Tensor) | WriterOn(i: nat, q: nat)

  datatype Object = Object(on: Held, o: Client)

  datatype System = System(bus: AQ.State, objects: seq<Object>)

  datatype Event =
    | Bus(t: AQ.Call)
    | NewLease(c: nat, i: nat)
    | NewWriter(i: nat, head: seq<nat>, pid: nat)
    | OnHandle(k: nat, act: Act, commit: bool)

  ghost predicate Backed(s: AQ.State, on: Held) {
    match on
    case LeaseOn(c, i, q, tensor) => Leased(s, c, i, q, tensor)
    case WriterOn(i, q) => WriteOn(s.ring, i, q)
  }

  // The call gives up nothing that an open handle stands for; its process is alive.
  ghost predicate Spares(s: AQ.State, t: AQ.Call, on: Held) {
    match on
    case LeaseOn(c, i, _, _) => SparesLease(s, t, c, i)
    case WriterOn(i, _) => SparesWriter(s, t, i)
  }

  // Giving up a lease is a release; giving up a writer is `commit` or `abort`.
  function GiveUpCall(on: Held, commit: bool): AQ.Call {
    match on
    case LeaseOn(c, i, _, _) => AQ.Release(c, i)
    case WriterOn(i, _) => if commit then AQ.Commit(i) else AQ.Abort(i)
  }

  // Whether the call takes the handle's lease or reservation from it.
  predicate GivesUp(o: Client, act: Act) { o.h.open && !AfterAct(o, act).h.open }

  ghost predicate Can(s: System, e: Event) {
    match e
    case Bus(t) =>
      && AQ.Possible(s.bus, t)
      && (forall k: nat :: k < |s.objects| && s.objects[k].o.h.open ==> Spares(s.bus, t, s.objects[k].on))
    case NewLease(c, i) => AQ.Possible(s.bus, AQ.Take(c, i))
    case NewWriter(i, head, pid) => AQ.Possible(s.bus, AQ.Reserve(i, head, pid))
    case OnHandle(k, act, commit) => k < |s.objects| && MayAct(s.objects[k].o, act) && (act.Forget? ==> !commit)
  }

  ghost function Do(s: System, e: Event): System
    requires Can(s, e)
  {
    match e
    case Bus(t) => s.(bus := AQ.Do(s.bus, t))
    case NewLease(c, i) =>
      var x := s.bus.ring.slots[i];
      System(AQ.Do(s.bus, AQ.Take(c, i)), s.objects + [Object(LeaseOn(c, i, x.sn, x.tensor), Client(Handle(true, 0), {}))])
    case NewWriter(i, head, pid) =>
      System(AQ.Do(s.bus, AQ.Reserve(i, head, pid)), s.objects + [Object(WriterOn(i, s.bus.ring.next), Client(Handle(true, 0), {}))])
    case OnHandle(k, act, commit) =>
      var x := s.objects[k];
      var t := GiveUpCall(x.on, commit);
      System(if GivesUp(x.o, act) && AQ.Possible(s.bus, t) then AQ.Do(s.bus, t) else s.bus,
             s.objects[k := x.(o := AfterAct(x.o, act))])
  }

  ghost predicate Run(s: System, es: seq<Event>, s': System)
    decreases |es|
  {
    if es == [] then s' == s
    else Can(s, es[0]) && Run(Do(s, es[0]), es[1..], s')
  }

  // Two open handles never stand for the same claim or the same reservation.
  predicate Apart(a: Held, b: Held) {
    match a
    case LeaseOn(c, i, _, _) => b.LeaseOn? ==> b.c != c || b.i != i
    case WriterOn(i, _) => b.WriterOn? ==> b.i != i
  }

  ghost predicate ObjectOk(s: System, k: nat)
    requires k < |s.objects|
  {
    var x := s.objects[k];
    && (x.o.h.open ==> Backed(s.bus, x.on))
    && Counted(x.o)
  }

  ghost predicate Inv(s: System) {
    && Sound(s.bus.ring)
    && (forall k: nat :: k < |s.objects| ==> ObjectOk(s, k))
    && (forall k: nat, l: nat :: k < l < |s.objects| && s.objects[k].o.h.open && s.objects[l].o.h.open ==>
          Apart(s.objects[k].on, s.objects[l].on))
  }

  lemma Survives(s: AQ.State, t: AQ.Call, on: Held)
    requires Sound(s.ring) && AQ.Possible(s, t) && Spares(s, t, on) && Backed(s, on)
    ensures Backed(AQ.Do(s, t), on)
  {
    match on
    case LeaseOn(c, i, q, tensor) => LeaseSurvives(s, t, c, i, q, tensor);
    case WriterOn(i, q) => WriterSurvives(s, t, i, q);
  }

  lemma BusKeepsInv(s: System, t: AQ.Call)
    requires Inv(s) && Can(s, Bus(t))
    ensures Inv(Do(s, Bus(t)))
  {
    var s' := Do(s, Bus(t));
    CallKeepsSound(s.bus, t);
    forall k: nat | k < |s'.objects| ensures ObjectOk(s', k) {
      assert ObjectOk(s, k);
      if s.objects[k].o.h.open {
        Survives(s.bus, t, s.objects[k].on);
      }
    }
  }

  // A new lease is apart from every other, because what it takes is newer; a new reservation
  // is, because its slot was usable.
  lemma NewObjectKeepsInv(s: System, e: Event)
    requires Inv(s) && Can(s, e) && (e.NewLease? || e.NewWriter?)
    ensures Inv(Do(s, e))
  {
    var s' := Do(s, e);
    var t := if e.NewLease? then AQ.Take(e.c, e.i) else AQ.Reserve(e.i, e.head, e.pid);
    CallKeepsSound(s.bus, t);
    var n := |s.objects|;
    forall k: nat | k < |s'.objects| ensures ObjectOk(s', k) {
      if k < n {
        assert ObjectOk(s, k);
        if s.objects[k].o.h.open {
          Survives(s.bus, t, s.objects[k].on);
        }
      }
    }
    forall k: nat | k < n && s.objects[k].o.h.open ensures Apart(s.objects[k].on, s'.objects[n].on) {
      assert ObjectOk(s, k);
    }
  }

  // A handle that still stands for something can give it up.
  lemma CanGiveUp(s: System, k: nat, commit: bool)
    requires Inv(s) && k < |s.objects| && s.objects[k].o.h.open
    ensures AQ.Possible(s.bus, GiveUpCall(s.objects[k].on, commit))
  {
    assert ObjectOk(s, k);
  }

  lemma OnHandleKeepsInv(s: System, k: nat, act: Act, commit: bool)
    requires Inv(s) && Can(s, OnHandle(k, act, commit))
    ensures Inv(Do(s, OnHandle(k, act, commit)))
  {
    var s' := Do(s, OnHandle(k, act, commit));
    var t := GiveUpCall(s.objects[k].on, commit);
    var gives := GivesUp(s.objects[k].o, act);
    if gives {
      CanGiveUp(s, k, commit);
      CallKeepsSound(s.bus, t);
    }
    assert ObjectOk(s, k);
    ActKeepsCount(s.objects[k].o, act);
    forall l: nat | l < |s'.objects| ensures ObjectOk(s', l) {
      assert ObjectOk(s, l);
      if gives && l != k && s.objects[l].o.h.open {
        OthersAreSpared(s, k, l, commit);
        Survives(s.bus, t, s.objects[l].on);
      }
    }
  }

  lemma OthersAreSpared(s: System, k: nat, l: nat, commit: bool)
    requires Inv(s) && k < |s.objects| && l < |s.objects| && k != l
    requires s.objects[k].o.h.open && s.objects[l].o.h.open
    ensures Spares(s.bus, GiveUpCall(s.objects[k].on, commit), s.objects[l].on)
  {
    assert if k < l then Apart(s.objects[k].on, s.objects[l].on) else Apart(s.objects[l].on, s.objects[k].on);
  }

  lemma EventKeepsInv(s: System, e: Event)
    requires Inv(s) && Can(s, e)
    ensures Inv(Do(s, e))
  {
    match e
    case Bus(t) => BusKeepsInv(s, t);
    case NewLease(_, _) => NewObjectKeepsInv(s, e);
    case NewWriter(_, _, _) => NewObjectKeepsInv(s, e);
    case OnHandle(k, act, commit) => OnHandleKeepsInv(s, k, act, commit);
  }

  lemma {:induction false} RunKeepsInv(s: System, es: seq<Event>, s': System)
    requires Inv(s) && Run(s, es, s')
    ensures Inv(s') && |s.objects| <= |s'.objects|
    decreases |es|
  {
    if es != [] {
      EventKeepsInv(s, es[0]);
      RunKeepsInv(Do(s, es[0]), es[1..], s');
    }
  }

  // After any interleaving, started with no handle on any sound ring: every counter is the
  // number of views alive; as long as a view of a lease is alive, its slot is committed with the
  // leased sequence and tensor and its claim is set; as long as a writable view is alive, its
  // slot is not committed.
  lemma ViewsAreBacked(s0: System, es: seq<Event>, s: System, k: nat)
    requires Sound(s0.bus.ring) && s0.objects == [] && Run(s0, es, s)
    requires k < |s.objects|
    ensures s.objects[k].o.h.exports == |s.objects[k].o.views|
    ensures s.objects[k].o.views != {} ==>
            var on, ring := s.objects[k].on, s.bus.ring;
            on.i < |ring.slots|
            && (on.LeaseOn? ==> ClaimOn(ring, on.c, on.i, on.q) && ring.slots[on.i].tensor == on.tensor)
            && (on.WriterOn? ==> ring.slots[on.i].state.Writing? && ring.slots[on.i].sn == on.q)
  {
    RunKeepsInv(s0, es, s);
    assert ObjectOk(s, k);
  }

  // Finishing a handle: with a view alive nothing happens; with none, a lease gives up its own
  // claim and no other, a commit makes the slot COMMITTED with its sequence, an abort frees it.
  lemma FinishTakesEffect(s: System, k: nat, commit: bool)
    requires Inv(s) && k < |s.objects| && s.objects[k].o.h.open
    ensures var x, s' := s.objects[k], Do(s, OnHandle(k, Finish, commit));
            && (x.o.views != {} ==> s'.bus == s.bus && s'.objects == s.objects)
            && (x.o.views == {} ==>
                  && !s'.objects[k].o.h.open && x.on.i < |s.bus.ring.slots| == |s'.bus.ring.slots|
                  && (forall j: nat :: j < |s.bus.ring.slots| && j != x.on.i ==> s'.bus.ring.slots[j] == s.bus.ring.slots[j])
                  && var y, y' := s.bus.ring.slots[x.on.i], s'.bus.ring.slots[x.on.i];
                  && y'.tensor == y.tensor && y'.sn == y.sn
                  && (x.on.LeaseOn? ==> y'.state == y.state && y'.mask == y.mask - {x.on.c})
                  && (x.on.WriterOn? && commit ==> y'.state.Committed? && y'.sn == x.on.q && y'.mask == y.mask)
                  && (x.on.WriterOn? && !commit ==> y'.state.Free? && y'.mask == {}))
  {
    assert ObjectOk(s, k);
    CanGiveUp(s, k, commit);
    FinishesExactlyWhen(s.objects[k].o);
  }

  // So the producer cannot choose a slot that a view is alive on, ...
  lemma ReserveAvoidsViews(s: System, k: nat, i: nat)
    requires Inv(s) && k < |s.objects| && s.objects[k].o.views != {} && Selected(s.bus.ring, i)
    ensures i != s.objects[k].on.i
  {
    assert ObjectOk(s, k);
  }

  // ... and a whole publication by anyone leaves a claim and its tensor as they were.
  lemma PublishKeepsClaim(v: RingValue, c: nat, i: nat, q: nat, p: nat, head: seq<nat>, data: seq<nat>, me: nat, alive: set<nat>)
    requires Sound(v) && ClaimOn(v, c, i, q) && (c < |v.entries| ==> v.entries[c].pid == me || v.entries[c].pid in alive)
    requires Selected(Reap(v, me, alive), p)
    ensures var v' := Commit(Fill(RingSpec.Reserve(Reap(v, me, alive), p, head, me), p, data), p);
            ClaimOn(v', c, i, q) && v'.slots[i].tensor == v.slots[i].tensor
  {
    var w := Reap(v, me, alive);
    SweepRemovesExactlyTheDead(v, me, alive);
    assert SlotSound(v, v.slots[i]);
    assert c !in Dead(v, me, alive, |v.entries|);
    assert w.slots[i].mask == v.slots[i].mask - Dead(v, me, alive, |v.entries|);
    assert ClaimOn(w, c, i, q) && w.slots[i].tensor == v.slots[i].tensor;
    assert p != i;
    assert Commit(Fill(RingSpec.Reserve(w, p, head, me), p, data), p).slots[i] == w.slots[i];
  }
}
