/**
 The mask ring and the count ring run in lockstep on every history of registrations,
 publications, leases and releases: same answers, same states, and the reader count is
 always the number of bits in the mask.
 */
module Lockstep {
  import opened Basics
  import opened TenzorCore
  import opened RingSpec
  import opened RingResults
  import opened ReferenceSpec

  datatype Op =
    | Subscribe
    | Publish(t: Tensor, drop: bool)
    | Next(c: nat)
    | Release(c: nat, i: nat, q: nat)

  datatype Answer =
    | Subscribed(c: nat)
    | RegistryFull
    | Published(q: nat, i: nat, readers: nat)
    | Refused
    | Leased(q: nat, i: nat, t: Tensor)
    | Nothing
    | Released
    | Violation(e: ReleaseError)

  datatype Lease = Lease(c: nat, i: nat, q: nat)

  // The production ring with last_sequence of every consumer registered so far, by entry,
  // and the leases that are out.
  datatype Production = Production(ring: RingValue, marks: seq<nat>, held: set<Lease>)

  datatype Reference = Reference(ring: RefValue, marks: seq<nat>)

  ghost predicate ProductionStep(x: Production, op: Op, a: Answer, x': Production, me: nat, alive: set<nat>) {
    var v := x.ring;
    match op
    case Subscribe =>
      var w := Reap(v, me, alive);
      (match a
       case Subscribed(c) =>
         && FirstFreeEntry(w, c) && w.next >= 1
         && x' == Production(Register(w, c, me), x.marks + [(w.next - 1) as nat], x.held)
       case RegistryFull => (forall c: nat :: c < |w.entries| ==> w.entries[c].active) && x' == x.(ring := w)
       case _ => false)
    case Publish(t, drop) =>
      var w := Reap(v, me, alive);
      (match a
       case Published(q, i, readers) =>
         && Selected(w, i) && q == w.next && readers == |Active(w)|
         && x' == x.(ring := Commit(Fill(Reserve(w, i, t.head, me), i, t.data), i))
       case Refused => Chooses(w, None) && x' == x.(ring := RingSpec.Refused(w, drop))
       case _ => false)
    case Next(c) =>
      c < |x.marks| &&
      (match a
       case Leased(q, i, t) =>
         && Oldest(v, c, x.marks[c], i) && q == v.slots[i].sn && t == v.slots[i].tensor
         && x' == x.(marks := x.marks[c := q], held := x.held + {Lease(c, i, q)})
       case Nothing => Takes(v, c, x.marks[c], None) && x' == x
       case _ => false)
    case Release(c, i, q) =>
      i < |v.slots| &&
      (match a
       case Released =>
         && RingSpec.Release(v, c, i, q).Ok?
         && x' == x.(ring := RingSpec.Release(v, c, i, q).value, held := x.held - {Lease(c, i, q)})
       case Violation(e) => RingSpec.Release(v, c, i, q) == Err(e) && x' == x
       case _ => false)
  }

  ghost predicate ReferenceStep(y: Reference, op: Op, a: Answer, y': Reference) {
    var p := y.ring;
    match op
    case Subscribe =>
      (match a
       case Subscribed(c) =>
         && p.consumers < MAX_CONSUMERS && c == |y.marks| && p.next >= 1
         && y' == Reference(p.(consumers := p.consumers + 1), y.marks + [(p.next - 1) as nat])
       case RegistryFull => p.consumers >= MAX_CONSUMERS && y' == y
       case _ => false)
    case Publish(t, drop) =>
      (match a
       case Published(q, i, readers) =>
         RefSelected(p, i) && q == p.next && readers == p.consumers && y' == y.(ring := RefPublish(p, i, t))
       case Refused => RefChooses(p, None) && y' == y.(ring := if drop then p.(dropped := p.dropped + 1) else p)
       case _ => false)
    case Next(c) =>
      c < |y.marks| &&
      (match a
       case Leased(q, i, t) =>
         && RefOldest(p, y.marks[c], i) && p.slots[i].readers > 0 && q == p.slots[i].sn && t == p.slots[i].tensor
         && y' == y.(marks := y.marks[c := q])
       case Nothing => RefTakes(p, y.marks[c], None) && y' == y
       case _ => false)
    case Release(c, i, q) =>
      i < |p.slots| &&
      (match a
       case Released => RefRelease(p, i, q).Ok? && y' == y.(ring := RefRelease(p, i, q).value)
       case Violation(e) => RefRelease(p, i, q) == Err(e) && y' == y
       case _ => false)
  }

  // ---- the correspondence ---------------------------------------------------

  ghost predicate SameSlot(x: Slot, y: RefSlot) {
    x.state == y.state && x.sn == y.sn && y.readers == |x.mask| == x.readers && x.tensor == y.tensor
  }

  ghost predicate InStep(x: Production, y: Reference, crew: set<nat>) {
    var v, p := x.ring, y.ring;
    && Sound(v) && |v.slots| == |p.slots| && x.marks == y.marks && |x.marks| <= |v.entries|
    && (forall i: nat :: i < |v.slots| ==> SameSlot(v.slots[i], p.slots[i]) && !v.slots[i].state.Writing?)
    && v.next == p.next && v.consumers == p.consumers == |x.marks|
    && v.published == p.published && v.dropped == p.dropped
    // registrations fill the registry from the bottom, and nobody has left or died
    && (forall c: nat :: c < |v.entries| ==> (v.entries[c].active <==> c < |x.marks|))
    && (forall c: nat :: c < |x.marks| ==> v.entries[c].pid in crew)
    // a publication newer than a consumer's mark names it
    && (forall c: nat :: c < |x.marks| ==> x.marks[c] < v.next)
    && (forall c: nat, i: nat :: c < |x.marks| && i < |v.slots| ==> Names(v, i, c, x.marks[c]))
    && (forall l :: l in x.held ==> Stands(x, l))
  }

  // A lease that is out names its slot, which still carries the sequence it was taken for.
  ghost predicate Stands(x: Production, l: Lease) {
    && l.c < |x.marks| && l.i < |x.ring.slots| && l.q <= x.marks[l.c]
    && x.ring.slots[l.i].state.Committed? && x.ring.slots[l.i].sn == l.q && l.c in x.ring.slots[l.i].mask
  }

  ghost predicate Names(v: RingValue, i: nat, c: nat, mark: nat) {
    i < |v.slots| && v.slots[i].state.Committed? && v.slots[i].sn > mark ==> c in v.slots[i].mask
  }

  lemma NobodyToReap(x: Production, y: Reference, crew: set<nat>, me: nat, alive: set<nat>)
    requires InStep(x, y, crew) && crew <= alive
    ensures Reap(x.ring, me, alive) == x.ring
  {
    var v := x.ring;
    NoEntryDead(v, me, alive, |v.entries|);
    var w := ReapSlots(v, me, alive);
    assert w.slots == v.slots;
  }

  lemma {:induction false} NoEntryDead(v: RingValue, me: nat, alive: set<nat>, k: nat)
    requires k <= |v.entries|
    requires forall c: nat :: c < |v.entries| ==> !EntryDead(v.entries[c], me, alive)
    ensures ReapEntries(v, me, alive, k) == v
    decreases k
  {
    if k > 0 {
      NoEntryDead(v, me, alive, k - 1);
    }
  }

  lemma SameUsable(x: Production, y: Reference, crew: set<nat>)
    requires InStep(x, y, crew)
    ensures forall i: nat :: i < |x.ring.slots| ==> (Usable(x.ring.slots[i]) <==> RefUsable(y.ring.slots[i]))
    ensures forall i: nat :: Selected(x.ring, i) <==> RefSelected(y.ring, i)
  {
    forall i: nat | i < |x.ring.slots| ensures Usable(x.ring.slots[i]) <==> RefUsable(y.ring.slots[i]) {
      assert SameSlot(x.ring.slots[i], y.ring.slots[i]);
    }
  }

  lemma SameCandidates(x: Production, y: Reference, c: nat, crew: set<nat>)
    requires InStep(x, y, crew) && c < |x.marks|
    ensures forall i: nat :: Candidate(x.ring, c, x.marks[c], i) <==> RefCandidate(y.ring, x.marks[c], i)
  {
    forall i: nat | i < |x.ring.slots|
      ensures Candidate(x.ring, c, x.marks[c], i) <==> RefCandidate(y.ring, x.marks[c], i) {
      assert SameSlot(x.ring.slots[i], y.ring.slots[i]) && Names(x.ring, i, c, x.marks[c]);
    }
  }

  // ---- one step -------------------------------------------------------------

  lemma SubscribeInStep(x: Production, y: Reference, a: Answer, b: Answer, x': Production, y': Reference, crew: set<nat>, me: nat, alive: set<nat>)
    requires InStep(x, y, crew) && me in crew && crew <= alive
    requires ProductionStep(x, Subscribe, a, x', me, alive) && ReferenceStep(y, Subscribe, b, y')
    ensures a == b && InStep(x', y', crew)
  {
    NobodyToReap(x, y, crew, me, alive);
    assert |x.marks| < MAX_CONSUMERS ==> !x.ring.entries[|x.marks|].active;
    if a.Subscribed? {
      RegisterKeepsSound(x.ring, a.c, me);
      forall c: nat, i: nat | c < |x'.marks| && i < |x'.ring.slots| ensures Names(x'.ring, i, c, x'.marks[c]) {
        if c < |x.marks| {
          assert Names(x.ring, i, c, x.marks[c]);
        }
        assert SlotSound(x.ring, x.ring.slots[i]);
      }
      assert forall l :: l in x'.held ==> Stands(x, l);
    }
  }

  lemma PublishInStep(x: Production, y: Reference, t: Tensor, drop: bool, a: Answer, b: Answer,
                      x': Production, y': Reference, crew: set<nat>, me: nat, alive: set<nat>)
    requires InStep(x, y, crew) && me in crew && crew <= alive
    requires ProductionStep(x, Publish(t, drop), a, x', me, alive) && ReferenceStep(y, Publish(t, drop), b, y')
    ensures a == b && InStep(x', y', crew)
  {
    NobodyToReap(x, y, crew, me, alive);
    SameUsable(x, y, crew);
    if a.Published? {
      assert Usable(x.ring.slots[a.i]);
      SelectionIsUnique(x.ring, a.i, b.i);
      PublishedSound(x.ring, a.i, t, me);
      PublishedInStep(x, y, t, a.i, x', y', crew, me);
    } else {
      DropKeepsSound(x.ring);
      forall c: nat, i: nat | c < |x'.marks| && i < |x'.ring.slots| ensures Names(x'.ring, i, c, x'.marks[c]) {
        assert Names(x.ring, i, c, x.marks[c]);
      }
      assert forall l :: l in x'.held ==> Stands(x, l);
    }
  }

  lemma PublishedSound(v: RingValue, i: nat, t: Tensor, me: nat)
    requires Sound(v) && Selected(v, i)
    ensures Sound(Commit(Fill(Reserve(v, i, t.head, me), i, t.data), i))
  {
    ReserveKeepsSound(v, i, t.head, me);
    FillKeepsSound(Reserve(v, i, t.head, me), i, t.data);
    CommitKeepsSound(Fill(Reserve(v, i, t.head, me), i, t.data), i);
  }

  lemma PublishedInStep(x: Production, y: Reference, t: Tensor, i: nat, x': Production, y': Reference,
                        crew: set<nat>, me: nat)
    requires InStep(x, y, crew) && Selected(x.ring, i)
    requires x' == x.(ring := Commit(Fill(Reserve(x.ring, i, t.head, me), i, t.data), i)) && Sound(x'.ring)
    requires y' == y.(ring := RefPublish(y.ring, i, t))
    ensures InStep(x', y', crew)
  {
    var s := x'.ring.slots;
    assert s == x.ring.slots[i := s[i]];
    assert s[i] == Slot(Committed, x.ring.next, Active(x.ring), |Active(x.ring)|, me, t);
    forall k: nat | k < |s| ensures SameSlot(s[k], y'.ring.slots[k]) {
      assert SameSlot(x.ring.slots[k], y.ring.slots[k]);
    }
    forall c: nat, k: nat | c < |x'.marks| && k < |s| ensures Names(x'.ring, k, c, x'.marks[c]) {
      assert Names(x.ring, k, c, x.marks[c]);
    }
    forall l | l in x'.held ensures Stands(x', l) {
      assert Stands(x, l);
    }
  }

  lemma NextInStep(x: Production, y: Reference, c: nat, a: Answer, b: Answer,
                   x': Production, y': Reference, crew: set<nat>, me: nat, alive: set<nat>)
    requires InStep(x, y, crew) && me in crew && crew <= alive
    requires ProductionStep(x, Next(c), a, x', me, alive) && ReferenceStep(y, Next(c), b, y')
    ensures a == b && InStep(x', y', crew)
  {
    SameCandidates(x, y, c, crew);
    if a.Leased? && b.Leased? {
      assert SameSlot(x.ring.slots[a.i], y.ring.slots[a.i]) && SameSlot(x.ring.slots[b.i], y.ring.slots[b.i]);
      assert a.i == b.i;
      assert SlotSound(x.ring, x.ring.slots[a.i]);
      forall d: nat, i: nat | d < |x'.marks| && i < |x'.ring.slots| ensures Names(x'.ring, i, d, x'.marks[d]) {
        assert Names(x.ring, i, d, x.marks[d]);
      }
      assert forall l :: l in x.held ==> Stands(x, l);
    }
  }

  // The first release of a lease succeeds on both.
  lemma ReleaseInStep(x: Production, y: Reference, l: Lease, a: Answer, b: Answer,
                      x': Production, y': Reference, crew: set<nat>, me: nat, alive: set<nat>)
    requires InStep(x, y, crew) && me in crew && crew <= alive && l in x.held
    requires ProductionStep(x, Op.Release(l.c, l.i, l.q), a, x', me, alive)
    requires ReferenceStep(y, Op.Release(l.c, l.i, l.q), b, y')
    ensures a == b == Released && InStep(x', y', crew)
  {
    var c, i := l.c, l.i;
    assert Stands(x, l) && SameSlot(x.ring.slots[i], y.ring.slots[i]);
    ReleaseKeepsSound(x.ring, c, i, l.q);
    assert Active(x'.ring) == Active(x.ring);
    forall d: nat, k: nat | d < |x'.marks| && k < |x'.ring.slots| ensures Names(x'.ring, k, d, x'.marks[d]) {
      assert Names(x.ring, k, d, x.marks[d]);
    }
    forall k: nat | k < |x'.ring.slots| ensures SameSlot(x'.ring.slots[k], y'.ring.slots[k]) {
      assert SameSlot(x.ring.slots[k], y.ring.slots[k]);
    }
    forall m | m in x'.held ensures Stands(x', m) {
      assert Stands(x, m);
    }
  }

  // Releasing again is where the two part: with other readers left on the slot the count
  // ring silently takes one of them off.  They answer alike if and only if this holds.
  lemma ReleaseAgreesExactlyWhen(x: Production, y: Reference, c: nat, i: nat, q: nat, crew: set<nat>)
    requires InStep(x, y, crew) && i < |x.ring.slots|
    ensures (RingSpec.Release(x.ring, c, i, q).Ok? <==> RefRelease(y.ring, i, q).Ok?) <==>
              x.ring.slots[i].sn != q || c in x.ring.slots[i].mask || x.ring.slots[i].mask == {}
  {
    assert SameSlot(x.ring.slots[i], y.ring.slots[i]);
    if x.ring.slots[i].mask != {} {
      assert |x.ring.slots[i].mask| > 0;
    }
  }

  // ---- whole histories ------------------------------------------------------

  lemma StepInStep(x: Production, y: Reference, op: Op, a: Answer, b: Answer,
                   x': Production, y': Reference, crew: set<nat>, me: nat, alive: set<nat>)
    requires InStep(x, y, crew) && me in crew && crew <= alive
    requires ProductionStep(x, op, a, x', me, alive) && ReferenceStep(y, op, b, y')
    requires op.Release? ==> Lease(op.c, op.i, op.q) in x.held
    ensures a == b && InStep(x', y', crew)
  {
    match op
    case Subscribe => SubscribeInStep(x, y, a, b, x', y', crew, me, alive);
    case Publish(t, drop) => PublishInStep(x, y, t, drop, a, b, x', y', crew, me, alive);
    case Next(c) => NextInStep(x, y, c, a, b, x', y', crew, me, alive);
    case Release(c, i, q) => ReleaseInStep(x, y, Lease(c, i, q), a, b, x', y', crew, me, alive);
  }

  // Operation k of a history of the mask ring: made by process who[k], with alive[k] the
  // processes its sweep finds alive, among them the whole crew; releases are of leases held.
  ghost predicate ProductionAt(xs: seq<Production>, ops: seq<Op>, a: seq<Answer>, crew: set<nat>,
                               who: seq<nat>, alive: seq<set<nat>>, k: nat)
    requires |xs| == |ops| + 1 && |a| == |who| == |alive| == |ops| && k < |ops|
  {
    && who[k] in crew && crew <= alive[k]
    && ProductionStep(xs[k], ops[k], a[k], xs[k + 1], who[k], alive[k])
    && (ops[k].Release? ==> Lease(ops[k].c, ops[k].i, ops[k].q) in xs[k].held)
  }

  ghost predicate ReferenceAt(ys: seq<Reference>, ops: seq<Op>, b: seq<Answer>, k: nat)
    requires k < |ops| && k + 1 < |ys| && k < |b|
  {
    ReferenceStep(ys[k], ops[k], b[k], ys[k + 1])
  }

  // The same operations on both rings, from states in step, give the same answers and end
  // in step after every one of them.
  lemma {:induction false} HistoriesRunInLockstep(xs: seq<Production>, ys: seq<Reference>, ops: seq<Op>,
                                                  a: seq<Answer>, b: seq<Answer>, crew: set<nat>,
                                                  who: seq<nat>, alive: seq<set<nat>>, n: nat)
    requires |xs| == |ys| == |ops| + 1 && |a| == |b| == |who| == |alive| == |ops| && n <= |ops|
    requires InStep(xs[0], ys[0], crew)
    requires forall k: nat :: k < |ops| ==> ProductionAt(xs, ops, a, crew, who, alive, k)
    requires forall k: nat :: k < |ops| ==> ReferenceAt(ys, ops, b, k)
    ensures InStep(xs[n], ys[n], crew)
    ensures a[..n] == b[..n]
    decreases n
  {
    if n > 0 {
      HistoriesRunInLockstep(xs, ys, ops, a, b, crew, who, alive, n - 1);
      assert ProductionAt(xs, ops, a, crew, who, alive, n - 1) && ReferenceAt(ys, ops, b, n - 1);
      StepInStep(xs[n - 1], ys[n - 1], ops[n - 1], a[n - 1], b[n - 1], xs[n], ys[n], crew, who[n - 1], alive[n - 1]);
      assert a[..n] == a[..n - 1] + [a[n - 1]];
    }
  }

  // ---- one run yields the other ----------------------------------------------

  // Whatever the mask ring does, the count ring can do, and ...
  lemma ReferenceFollows(x: Production, y: Reference, op: Op, a: Answer, x': Production,
                         crew: set<nat>, me: nat, alive: set<nat>) returns (y': Reference)
    requires InStep(x, y, crew) && me in crew && crew <= alive && ProductionStep(x, op, a, x', me, alive)
    requires op.Release? ==> Lease(op.c, op.i, op.q) in x.held
    ensures ReferenceStep(y, op, a, y')
  {
    NobodyToReap(x, y, crew, me, alive);
    SameUsable(x, y, crew);
    var p := y.ring;
    match op
    case Subscribe =>
      y' := if a.Subscribed? then Reference(p.(consumers := p.consumers + 1), y.marks + [p.next - 1]) else y;
      assert |x.marks| < MAX_CONSUMERS ==> !x.ring.entries[|x.marks|].active;
    case Publish(t, drop) =>
      y' := if a.Published? then y.(ring := RefPublish(p, a.i, t))
            else y.(ring := if drop then p.(dropped := p.dropped + 1) else p);
      if a.Published? {
        ActiveIsCounted(x, y, crew);
      }
    case Next(c) =>
      y' := if a.Leased? then y.(marks := y.marks[c := a.q]) else y;
      SameCandidates(x, y, c, crew);
      if a.Leased? {
        assert SameSlot(x.ring.slots[a.i], p.slots[a.i]);
        Nonempty(x.ring.slots[a.i].mask, c);
      }
    case Release(c, i, q) =>
      assert Stands(x, Lease(c, i, q)) && SameSlot(x.ring.slots[i], p.slots[i]);
      Nonempty(x.ring.slots[i].mask, c);
      y' := y.(ring := RefRelease(p, i, q).value);
  }

  // ... whatever the count ring does, the mask ring can do.
  lemma ProductionFollows(x: Production, y: Reference, op: Op, b: Answer, y': Reference,
                          crew: set<nat>, me: nat, alive: set<nat>) returns (x': Production)
    requires InStep(x, y, crew) && me in crew && crew <= alive && ReferenceStep(y, op, b, y')
    requires op.Release? ==> Lease(op.c, op.i, op.q) in x.held
    ensures ProductionStep(x, op, b, x', me, alive)
  {
    NobodyToReap(x, y, crew, me, alive);
    SameUsable(x, y, crew);
    var v := x.ring;
    match op
    case Subscribe =>
      x' := if b.Subscribed? then Production(Register(v, b.c, me), x.marks + [v.next - 1], x.held) else x;
    case Publish(t, drop) =>
      x' := if b.Published? then x.(ring := Commit(Fill(Reserve(v, b.i, t.head, me), b.i, t.data), b.i))
            else x.(ring := RingSpec.Refused(v, drop));
      ActiveIsCounted(x, y, crew);
    case Next(c) =>
      x' := if b.Leased? then x.(marks := x.marks[c := b.q], held := x.held + {Lease(c, b.i, b.q)}) else x;
      SameCandidates(x, y, c, crew);
      if b.Leased? {
        assert SameSlot(v.slots[b.i], y.ring.slots[b.i]);
      }
    case Release(c, i, q) =>
      assert Stands(x, Lease(c, i, q)) && SameSlot(v.slots[i], y.ring.slots[i]);
      Nonempty(v.slots[i].mask, c);
      x' := x.(ring := RingSpec.Release(v, c, i, q).value, held := x.held - {Lease(c, i, q)});
  }

  lemma Nonempty(mask: set<nat>, c: nat)
    requires c in mask
    ensures |mask| > 0
  {
  }

  lemma ActiveIsCounted(x: Production, y: Reference, crew: set<nat>)
    requires InStep(x, y, crew)
    ensures |Active(x.ring)| == y.ring.consumers
  {
  }

  // A whole history of the mask ring alone: the count ring has one with the same answers, in
  // step all along.
  lemma {:induction false} HistoryHasATwin(xs: seq<Production>, y0: Reference, ops: seq<Op>, a: seq<Answer>,
                                           crew: set<nat>, who: seq<nat>, alive: seq<set<nat>>, n: nat)
      returns (ys: seq<Reference>)
    requires |xs| == |ops| + 1 && |a| == |who| == |alive| == |ops| && n <= |ops|
    requires InStep(xs[0], y0, crew)
    requires forall k: nat :: k < |ops| ==> ProductionAt(xs, ops, a, crew, who, alive, k)
    ensures |ys| == n + 1 && ys[0] == y0
    ensures forall k: nat :: k < n ==> ReferenceAt(ys, ops, a, k)
    ensures forall k: nat :: k <= n ==> InStep(xs[k], ys[k], crew)
    decreases n
  {
    if n == 0 {
      ys := [y0];
    } else {
      var m := n - 1;
      var before := HistoryHasATwin(xs, y0, ops, a, crew, who, alive, m);
      assert ProductionAt(xs, ops, a, crew, who, alive, m);
      var y' := ReferenceFollows(xs[m], before[m], ops[m], a[m], xs[m + 1], crew, who[m], alive[m]);
      StepInStep(xs[m], before[m], ops[m], a[m], a[m], xs[m + 1], y', crew, who[m], alive[m]);
      ys := before + [y'];
      forall k: nat | k < n ensures ReferenceAt(ys, ops, a, k) {
        assert k < m ==> ReferenceAt(before, ops, a, k);
      }
    }
  }

  // Two freshly created rings are in step.
  lemma FreshRingsAreInStep(n: nat, blank: Tensor, crew: set<nat>)
    requires n >= 2
    ensures InStep(Production(RingValue(seq(n, _ => Slot(Free, 0, {}, 0, 0, blank)),
                                        seq(MAX_CONSUMERS, _ => Entry(false, 0, 0)), 1, 0, 0, 0, 0), [], {}),
                   Reference(RefValue(seq(n, _ => RefSlot(Free, 0, 0, blank)), 1, 0, 0, 0), []), crew)
  {
    var v := RingValue(seq(n, _ => Slot(Free, 0, {}, 0, 0, blank)),
                       seq(MAX_CONSUMERS, _ => Entry(false, 0, 0)), 1, 0, 0, 0, 0);
    assert Active(v) == {};
  }
}
