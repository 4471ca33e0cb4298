/** Recovery, refusal and conservation for the ring with atomic operations. */
module RingResults {
  import opened Basics
  import opened RingSpec

  // ---- crash recovery -------------------------------------------------------

  ghost function Dead(v: RingValue, me: nat, alive: set<nat>, k: nat): (d: set<nat>)
    ensures forall c: nat :: c in d <==> c < k && c < |v.entries| && EntryDead(v.entries[c], me, alive)
  {
    set c: nat | c < |v.entries| && c < k && EntryDead(v.entries[c], me, alive)
  }

  // What sweeping the first k entries does to one slot.
  ghost predicate Swept(x: Slot, x': Slot, dead: set<nat>) {
    && x'.mask == x.mask - dead
    && x'.state == x.state && x'.sn == x.sn && x'.pid == x.pid && x'.tensor == x.tensor
    && (x.readers == |x.mask| ==> x'.readers == |x'.mask|)
  }

  // v' is v after the entries in d, all dead, have been swept.
  ghost predicate SweptBy(v: RingValue, v': RingValue, d: set<nat>) {
    && |v'.slots| == |v.slots| && |v'.entries| == |v.entries|
    && (forall i: nat :: i < |v.slots| ==> Swept(v.slots[i], v'.slots[i], d))
    && (forall c: nat :: c < |v.entries| ==> v'.entries[c] == SweptEntry(v.entries[c], c in d))
    && v'.next == v.next && v'.published == v.published && v'.dropped == v.dropped
    && v'.reaped == v.reaped + |d|
    && (v.consumers == |Active(v)| ==> v'.consumers == |Active(v')|)
  }

  function SweptEntry(e: Entry, dead: bool): Entry {
    if dead then e.(active := false, generation := e.generation + 1) else e
  }

  lemma {:induction false} SweepEntries(v: RingValue, me: nat, alive: set<nat>, k: nat)
    requires k <= |v.entries|
    ensures SweptBy(v, ReapEntries(v, me, alive, k), Dead(v, me, alive, k))
    decreases k
  {
    var d := Dead(v, me, alive, k);
    if k == 0 {
      assert d == {};
    } else {
      SweepEntries(v, me, alive, k - 1);
      var d0 := Dead(v, me, alive, k - 1);
      var w := ReapEntries(v, me, alive, k - 1);
      assert w.entries[k - 1] == v.entries[k - 1];
      if EntryDead(v.entries[k - 1], me, alive) {
        assert d == d0 + {k - 1};
        SweepOneMore(v, w, d0, k - 1);
      } else {
        assert d == d0;
      }
    }
  }

  lemma SweepOneMore(v: RingValue, w: RingValue, d: set<nat>, c: nat)
    requires c < |v.entries| && SweptBy(v, w, d) && c !in d && v.entries[c].active
    ensures SweptBy(v, ReapEntry(w, c), d + {c})
  {
    var w' := ReapEntry(w, c);
    assert Active(w') == Active(w) - {c};
    forall i: nat | i < |v.slots| ensures Swept(v.slots[i], w'.slots[i], d + {c}) {
      assert Swept(v.slots[i], w.slots[i], d);
      assert w'.slots[i] == ClearBit(w.slots[i], c);
      assert v.slots[i].mask - (d + {c}) == (v.slots[i].mask - d) - {c};
    }
  }

  // One sweep removes exactly the dead: their bits, their entries and the slots a dead
  // producer left in state WRITING.  Live claims, sequences and payloads are untouched.
  lemma SweepRemovesExactlyTheDead(v: RingValue, me: nat, alive: set<nat>)
    ensures var v', d := Reap(v, me, alive), Dead(v, me, alive, |v.entries|);
      && |v'.slots| == |v.slots| && |v'.entries| == |v.entries| && v'.next == v.next
      && (forall c: nat :: c < |v.entries| ==> (v'.entries[c].active <==> v.entries[c].active && c !in d))
      && (forall i: nat :: i < |v.slots| ==>
            var x, x' := v.slots[i], v'.slots[i];
            && x'.sn == x.sn && x'.tensor == x.tensor
            && (if WriterDead(x, me, alive) then x'.state.Free? && x'.mask == {}
                else x'.state == x.state && x'.mask == x.mask - d))
  {
    SweepEntries(v, me, alive, |v.entries|);
  }

  // The same in plain terms: who stays is decided by the process ids alone.  An entry stays
  // active if and only if its process is the sweeper or alive; a slot being written is freed if
  // and only if its producer is neither, and otherwise keeps everything but the bits of the
  // consumers that go; no other slot changes but for those bits.
  lemma SweepGoesByPids(v: RingValue, me: nat, alive: set<nat>)
    ensures var v' := Reap(v, me, alive);
      && |v'.slots| == |v.slots| && |v'.entries| == |v.entries|
      && (forall c: nat :: c < |v.entries| ==>
            var e, e' := v.entries[c], v'.entries[c];
            && e'.pid == e.pid
            && (e'.active <==> e.active && (e.pid == me || e.pid in alive)))
      && (forall i: nat :: i < |v.slots| ==>
            var x, x' := v.slots[i], v'.slots[i];
            && x'.sn == x.sn && x'.tensor == x.tensor && x'.pid == x.pid
            && (x.state.Writing? ==> (x'.state.Free? <==> x.pid != me && x.pid !in alive))
            && (x.state.Writing? && !x'.state.Free? ==> x'.state.Writing?)
            && (!x.state.Writing? ==> x'.state == x.state)
            && (x.state.Writing? && x'.state.Free? ==> x'.mask == {})
            && (!(x.state.Writing? && x'.state.Free?) ==> forall c: nat ::
                  c in x'.mask <==> c in x.mask && (c < |v.entries| && v.entries[c].active ==>
                    v.entries[c].pid == me || v.entries[c].pid in alive)))
  {
    SweepEntries(v, me, alive, |v.entries|);
    forall c: nat | c < |v.entries|
      ensures c in Dead(v, me, alive, |v.entries|) <==>
                v.entries[c].active && v.entries[c].pid != me && v.entries[c].pid !in alive {
    }
  }

  // A reservation is freed by a sweep if and only if the process that made it is gone.
  lemma ReservationFallsWithItsMaker(v: RingValue, i: nat, head: seq<nat>, data: seq<nat>, maker: nat,
                                     me: nat, alive: set<nat>)
    requires i < |v.slots|
    ensures Reap(Fill(Reserve(v, i, head, maker), i, data), me, alive).slots[i].state.Free? <==>
              maker != me && maker !in alive
  {
    SweepGoesByPids(Fill(Reserve(v, i, head, maker), i, data), me, alive);
  }

  lemma SweepLeavesNothingDead(v: RingValue, me: nat, alive: set<nat>)
    requires Sound(v)
    ensures var v' := Reap(v, me, alive);
      && (forall c: nat :: c < |v'.entries| && v'.entries[c].active ==>
            v'.entries[c].pid == me || v'.entries[c].pid in alive)
      && (forall i: nat :: i < |v'.slots| && v'.slots[i].state.Writing? ==>
            v'.slots[i].pid == me || v'.slots[i].pid in alive)
      && (forall i: nat, c: nat :: i < |v'.slots| && c in v'.slots[i].mask ==>
            c < |v'.entries| && v'.entries[c].active && (v'.entries[c].pid == me || v'.entries[c].pid in alive))
  {
    SweepGoesByPids(v, me, alive);
    forall i: nat, c: nat | i < |v.slots| && c in Reap(v, me, alive).slots[i].mask
      ensures c in v.slots[i].mask && c in Active(v) {
      assert SlotSound(v, v.slots[i]);
    }
  }

  // The set of reclaimable slots only grows, and a slot pinned only by the dead is in it.
  lemma SweepOnlyFrees(v: RingValue, me: nat, alive: set<nat>, i: nat)
    requires i < |v.slots|
    ensures Usable(v.slots[i]) ==> Usable(Reap(v, me, alive).slots[i])
    ensures v.slots[i].state.Committed? && v.slots[i].mask <= Dead(v, me, alive, |v.entries|) ==>
              Usable(Reap(v, me, alive).slots[i])
    ensures WriterDead(v.slots[i], me, alive) ==> Usable(Reap(v, me, alive).slots[i])
    ensures Usable(Reap(v, me, alive).slots[i]) ==> !Chooses(Reap(v, me, alive), None)
  {
    SweepRemovesExactlyTheDead(v, me, alive);
  }

  lemma SweepKeepsSound(v: RingValue, me: nat, alive: set<nat>)
    requires Sound(v)
    ensures Sound(Reap(v, me, alive))
  {
    var v' := Reap(v, me, alive);
    SweepEntries(v, me, alive, |v.entries|);
    SweepRemovesExactlyTheDead(v, me, alive);
    assert Active(v') == Active(ReapEntries(v, me, alive, |v.entries|));
    forall i: nat | i < |v'.slots| ensures SlotSound(v', v'.slots[i]) {
      assert SlotSound(v, v.slots[i]);
      forall c: nat | c in v'.slots[i].mask ensures c in Active(v') {
        assert c in v.slots[i].mask && c in Active(v);
      }
    }
  }

  // ---- refusal --------------------------------------------------------------

  // Being written, or still claimed by some registered consumer.
  ghost predicate Held(v: RingValue, x: Slot) {
    x.state.Writing? || (x.state.Committed? && exists c: nat :: c in x.mask && c in Active(v))
  }

  // After its sweep a reservation is refused exactly when every slot is being written or
  // is still claimed by some registered consumer.
  lemma RefusedExactlyWhenAllHeld(v: RingValue, me: nat, alive: set<nat>)
    requires Sound(v)
    ensures var v' := Reap(v, me, alive);
            Chooses(v', None) <==> forall i: nat :: i < |v'.slots| ==> Held(v', v'.slots[i])
  {
    var v' := Reap(v, me, alive);
    SweepKeepsSound(v, me, alive);
    forall i: nat | i < |v'.slots|
      ensures !Usable(v'.slots[i]) <==> Held(v', v'.slots[i]) {
      assert SlotSound(v', v'.slots[i]);
      if v'.slots[i].mask != {} {
        var c :| c in v'.slots[i].mask;
        assert c in Active(v');
      }
    }
  }

  // At most one slot can be selected.
  lemma SelectionIsUnique(v: RingValue, i: nat, j: nat)
    requires Selected(v, i) && Selected(v, j)
    ensures i == j
  {
  }

  // ---- every operation keeps Sound ------------------------------------------

  lemma ReserveKeepsSound(v: RingValue, i: nat, head: seq<nat>, me: nat)
    requires Sound(v) && i < |v.slots| && Usable(v.slots[i])
    ensures Sound(Reserve(v, i, head, me))
  {
    var v' := Reserve(v, i, head, me);
    assert Active(v') == Active(v);
    forall j: nat | j < |v'.slots| ensures SlotSound(v', v'.slots[j]) {
      assert SlotSound(v, v.slots[j]);
    }
  }

  lemma CommitKeepsSound(v: RingValue, i: nat)
    requires Sound(v) && i < |v.slots| && v.slots[i].state.Writing?
    ensures Sound(Commit(v, i))
  {
    var v' := Commit(v, i);
    assert Active(v') == Active(v);
    forall j: nat | j < |v'.slots| ensures SlotSound(v', v'.slots[j]) {
      assert SlotSound(v, v.slots[j]);
    }
  }

  lemma FillKeepsSound(v: RingValue, i: nat, data: seq<nat>)
    requires Sound(v) && i < |v.slots|
    ensures Sound(Fill(v, i, data))
  {
    var v' := Fill(v, i, data);
    assert Active(v') == Active(v);
    forall j: nat | j < |v'.slots| ensures SlotSound(v', v'.slots[j]) {
      assert SlotSound(v, v.slots[j]);
    }
  }

  lemma DropKeepsSound(v: RingValue)
    requires Sound(v)
    ensures Sound(v.(dropped := v.dropped + 1))
  {
    var v' := v.(dropped := v.dropped + 1);
    assert Active(v') == Active(v);
    forall j: nat | j < |v'.slots| ensures SlotSound(v', v'.slots[j]) {
      assert SlotSound(v, v.slots[j]);
    }
  }

  lemma AbortKeepsSound(v: RingValue, i: nat)
    requires Sound(v) && i < |v.slots| && v.slots[i].state.Writing? && v.slots[i].sn >= 1
    ensures Sound(Abort(v, i, v.slots[i].sn))
  {
    var v' := Abort(v, i, v.slots[i].sn);
    assert Active(v') == Active(v);
    forall j: nat | j < |v'.slots| ensures SlotSound(v', v'.slots[j]) {
      assert SlotSound(v, v.slots[j]);
    }
  }

  lemma RegisterKeepsSound(v: RingValue, c: nat, me: nat)
    requires Sound(v) && FirstFreeEntry(v, c)
    ensures Sound(Register(v, c, me))
    ensures forall i: nat :: i < |v.slots| ==> c !in v.slots[i].mask
  {
    var v' := Register(v, c, me);
    assert Active(v') == Active(v) + {c};
    forall j: nat | j < |v'.slots| ensures SlotSound(v', v'.slots[j]) && c !in v.slots[j].mask {
      assert SlotSound(v, v.slots[j]);
    }
  }

  lemma CloseKeepsSound(v: RingValue, c: nat)
    requires Sound(v) && c < |v.entries| && v.entries[c].active
    ensures Sound(Close(v, c))
  {
    var v' := Close(v, c);
    assert Active(v') == Active(v) - {c};
    forall j: nat | j < |v'.slots| ensures SlotSound(v', v'.slots[j]) {
      assert SlotSound(v, v.slots[j]);
    }
  }

  lemma ReleaseKeepsSound(v: RingValue, c: nat, i: nat, q: nat)
    requires Sound(v) && i < |v.slots| && Release(v, c, i, q).Ok?
    ensures Sound(Release(v, c, i, q).value)
  {
    var v' := Release(v, c, i, q).value;
    assert Active(v') == Active(v);
    forall j: nat | j < |v'.slots| ensures SlotSound(v', v'.slots[j]) {
      assert SlotSound(v, v.slots[j]);
    }
  }

  // ---- aborting -------------------------------------------------------------

  // An abort that directly follows its reservation restores the ring: the same counter,
  // every other slot untouched, and slot i reclaimable as it was before.
  lemma AbortUndoesReserve(v: RingValue, i: nat, head: seq<nat>, data: seq<nat>, me: nat)
    requires Sound(v) && Selected(v, i)
    ensures var r := Reserve(v, i, head, me);
            var a := Abort(Fill(r, i, data), i, r.slots[i].sn);
            && a.next == v.next && a.published == v.published && a.entries == v.entries
            && a.consumers == v.consumers && a.dropped == v.dropped
            && a.slots == v.slots[i := a.slots[i]] && Usable(a.slots[i]) && a.slots[i].mask == {}
  {
  }

  // ---- the closing hypothesis -----------------------------------------------

  // A consumer closed while it claims a slot gives that claim up: releasing it afterwards is
  // always a violation, and the slot may be overwritten if and only if nobody else claims it.
  lemma ClosingDropsLeases(v: RingValue, c: nat, i: nat)
    requires i < |v.slots| && c < |v.entries| && v.slots[i].state.Committed? && c in v.slots[i].mask
    ensures RingSpec.Release(Close(v, c), c, i, v.slots[i].sn) == Err(ReleasedTwice)
    ensures Usable(Close(v, c).slots[i]) <==> v.slots[i].mask == {c}
  {
    var mask := v.slots[i].mask;
    assert mask - {c} == {} <==> mask == {c};
  }
}
