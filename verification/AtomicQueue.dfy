/**
 The ring with atomic operations refines the same broadcast queue as the step model:
 what class Ring does to its words is, call by call, one operation on the FIFOs or none.
 */
module AtomicQueue {
  import opened Basics
  import opened TenzorCore
  import opened RingSpec
  import opened RingResults
  import StepInvariant
  import BQ = BroadcastQueue

  // The ring with what each registered consumer took last.
  datatype State = State(ring: RingValue, marks: map<nat, nat>)

  // One call, with the process that makes it where that matters.
  datatype Call =
    | Reserve(i: nat, head: seq<nat>, pid: nat)
    | Fill(i: nat, data: seq<nat>)
    | Commit(i: nat)
    | Abort(i: nat)
    | Refuse(drop: bool)
    | Take(c: nat, i: nat)
    | FindNothing(c: nat)
    | Release(c: nat, i: nat)
    | Subscribe(c: nat, pid: nat)
    | Close(c: nat)
    | Sweep(pid: nat, alive: set<nat>)

  // Claimed by c and already taken: what a lease rests on.
  predicate Taken(v: RingValue, c: nat, mark: nat, i: nat) {
    i < |v.slots| && v.slots[i].state.Committed? && c in v.slots[i].mask && v.slots[i].sn <= mark
  }

  // The box of c: its candidates in order, and the publications it has taken and not released.
  ghost predicate BoxIs(v: RingValue, c: nat, mark: nat, b: BQ.Box) {
    && mark < v.next
    && StepInvariant.Increasing(b.queue)
    && (forall q: nat :: q in b.queue <==> exists i: nat :: Candidate(v, c, mark, i) && v.slots[i].sn == q)
    && (forall q: nat :: q in b.leased <==> exists i: nat :: Taken(v, c, mark, i) && v.slots[i].sn == q)
  }

  // The one open reservation has the newest number, and whoever it names has not passed it.
  ghost predicate WriterIs(s: State, i: nat, b: BQ.Boxes)
    requires i < |s.ring.slots|
  {
    var x := s.ring.slots[i];
    x.state.Writing? ==>
      && x.sn + 1 == s.ring.next
      && forall c: nat :: c in b && c in s.marks && c in x.mask ==> s.marks[c] < x.sn
  }

  ghost predicate Abstracts(s: State, b: BQ.Boxes) {
    && Sound(s.ring)
    && (forall c: nat :: c in b <==> c in Active(s.ring))
    && (forall c: nat :: c in s.marks <==> c in b)
    && (forall c: nat :: c in b && c in s.marks ==> BoxIs(s.ring, c, s.marks[c], b[c]))
    && (forall i: nat :: i < |s.ring.slots| ==> WriterIs(s, i, b))
  }

  // What the ring itself makes sure of.
  ghost predicate Possible(s: State, t: Call) {
    var v := s.ring;
    match t
    case Reserve(i, _, _) => Selected(v, i)
    case Fill(i, _) => i < |v.slots| && v.slots[i].state.Writing?
    case Commit(i) => i < |v.slots| && v.slots[i].state.Writing?
    case Abort(i) => i < |v.slots| && v.slots[i].state.Writing? && v.slots[i].sn >= 1
    case Refuse(_) => Chooses(v, None)
    case Take(c, i) => c in s.marks && Oldest(v, c, s.marks[c], i)
    case FindNothing(c) => c in s.marks && Takes(v, c, s.marks[c], None)
    case Release(c, i) => c in s.marks && Taken(v, c, s.marks[c], i)
    case Subscribe(c, _) => FirstFreeEntry(v, c)
    case Close(c) => c in Active(v)
    case Sweep(_, _) => true
  }

  // And what its callers must respect: one open reservation at a time, and no abort once
  // somebody has registered at its sequence.
  ghost predicate Can(s: State, t: Call) {
    var v := s.ring;
    && Possible(s, t)
    && (t.Reserve? ==> forall j: nat :: j < |v.slots| ==> !v.slots[j].state.Writing?)
    && (t.Abort? ==> forall c: nat :: c in s.marks ==> s.marks[c] < v.slots[t.i].sn)
  }

  ghost function Do(s: State, t: Call): State
    requires Possible(s, t)
  {
    var v := s.ring;
    match t
    case Reserve(i, head, pid) => s.(ring := RingSpec.Reserve(v, i, head, pid))
    case Fill(i, data) => s.(ring := RingSpec.Fill(v, i, data))
    case Commit(i) => s.(ring := RingSpec.Commit(v, i))
    case Abort(i) => s.(ring := RingSpec.Abort(v, i, v.slots[i].sn))
    case Refuse(drop) => s.(ring := Refused(v, drop))
    case Take(c, i) => s.(marks := s.marks[c := v.slots[i].sn])
    case FindNothing(c) => s
    case Release(c, i) =>
      var r := RingSpec.Release(v, c, i, v.slots[i].sn);
      if r.Ok? then s.(ring := r.value) else s
    case Subscribe(c, pid) => State(Register(v, c, pid), s.marks[c := Minus1(v.next)])
    case Close(c) => State(RingSpec.Close(v, c), s.marks - {c})
    case Sweep(pid, alive) => State(Reap(v, pid, alive), s.marks - Dead(v, pid, alive, |v.entries|))
  }

  // What the call is on the queues.
  ghost predicate IsQueueOp(s: State, t: Call, b: BQ.Boxes, b': BQ.Boxes)
    requires Can(s, t)
  {
    match t
    case Commit(i) => Performs(b, BQ.Publish(s.ring.slots[i].sn, s.ring.slots[i].mask), b')
    case Take(c, i) => Performs(b, BQ.Pop(c), b') && b[c].queue[0] == s.ring.slots[i].sn
    case FindNothing(c) => c in b && b[c].queue == [] && b' == b
    case Release(c, i) => Performs(b, BQ.Discard(c, s.ring.slots[i].sn), b')
    case Subscribe(c, _) => Performs(b, BQ.Join(c), b')
    case Close(c) => Performs(b, BQ.Part(c), b')
    case Sweep(pid, alive) => b' == b - Dead(s.ring, pid, alive, |s.ring.entries|)
    case _ => b' == b
  }

  ghost predicate Performs(b: BQ.Boxes, e: BQ.Event, b': BQ.Boxes) {
    BQ.Allowed(b, e) && b' == BQ.Perform(b, e)
  }

  // ---- boxes that a call leaves alone ----------------------------------------

  // A change to slots that c does not claim, before or after, leaves the box of c alone.
  lemma SameBox(v: RingValue, v': RingValue, c: nat, mark: nat, b: BQ.Box)
    requires BoxIs(v, c, mark, b) && mark < v'.next && |v'.slots| == |v.slots|
    requires forall i: nat :: i < |v.slots| ==> SameClaim(v.slots[i], v'.slots[i], c)
    ensures BoxIs(v', c, mark, b)
  {
    assert forall i: nat :: Candidate(v', c, mark, i) <==> Candidate(v, c, mark, i);
    assert forall i: nat :: Taken(v', c, mark, i) <==> Taken(v, c, mark, i);
  }

  predicate SameClaim(x: Slot, x': Slot, c: nat) {
    if x.state.Committed? && c in x.mask then x'.state.Committed? && c in x'.mask && x'.sn == x.sn
    else !(x'.state.Committed? && c in x'.mask)
  }

  // ---- the producer ---------------------------------------------------------

  lemma ReserveIsSilent(s: State, b: BQ.Boxes, i: nat, head: seq<nat>, pid: nat)
    requires Abstracts(s, b) && Can(s, Reserve(i, head, pid))
    ensures Abstracts(Do(s, Reserve(i, head, pid)), b)
  {
    var v, s' := s.ring, Do(s, Reserve(i, head, pid));
    ReserveKeepsSound(v, i, head, pid);
    assert Active(s'.ring) == Active(v);
    assert SlotSound(v, v.slots[i]);
    forall c: nat | c in b ensures BoxIs(s'.ring, c, s.marks[c], b[c]) {
      SameBox(v, s'.ring, c, s.marks[c], b[c]);
    }
  }

  lemma FillIsSilent(s: State, b: BQ.Boxes, i: nat, data: seq<nat>)
    requires Abstracts(s, b) && Can(s, Fill(i, data))
    ensures Abstracts(Do(s, Fill(i, data)), b)
  {
    var v, s' := s.ring, Do(s, Fill(i, data));
    FillKeepsSound(v, i, data);
    assert Active(s'.ring) == Active(v);
    forall c: nat | c in b ensures BoxIs(s'.ring, c, s.marks[c], b[c]) {
      SameBox(v, s'.ring, c, s.marks[c], b[c]);
    }
    forall j: nat | j < |v.slots| ensures WriterIs(s', j, b) {
      assert WriterIs(s, j, b);
    }
  }

  lemma AbortIsSilent(s: State, b: BQ.Boxes, i: nat)
    requires Abstracts(s, b) && Can(s, Abort(i))
    ensures Abstracts(Do(s, Abort(i)), b)
  {
    var v, s' := s.ring, Do(s, Abort(i));
    AbortKeepsSound(v, i);
    assert Active(s'.ring) == Active(v);
    assert WriterIs(s, i, b);
    forall c: nat | c in b ensures BoxIs(s'.ring, c, s.marks[c], b[c]) {
      SameBox(v, s'.ring, c, s.marks[c], b[c]);
    }
    forall j: nat | j < |v.slots| ensures WriterIs(s', j, b) {
      assert WriterIs(s, j, b);
    }
  }

  lemma RefuseIsSilent(s: State, b: BQ.Boxes, drop: bool)
    requires Abstracts(s, b) && Can(s, Refuse(drop))
    ensures Abstracts(Do(s, Refuse(drop)), b)
  {
    var v, s' := s.ring, Do(s, Refuse(drop));
    DropKeepsSound(v);
    assert Active(s'.ring) == Active(v);
    forall c: nat | c in b ensures BoxIs(s'.ring, c, s.marks[c], b[c]) {
      SameBox(v, s'.ring, c, s.marks[c], b[c]);
    }
    forall j: nat | j < |v.slots| ensures WriterIs(s', j, b) {
      assert WriterIs(s, j, b);
    }
  }

  // The new publication comes after everything queued or leased, and reaches exactly the
  // boxes of those who had registered when it was reserved.
  lemma CommitPublishes(s: State, b: BQ.Boxes, i: nat)
    requires Abstracts(s, b) && Can(s, Commit(i))
    ensures var e := BQ.Publish(s.ring.slots[i].sn, s.ring.slots[i].mask);
            BQ.Allowed(b, e) && Abstracts(Do(s, Commit(i)), BQ.Perform(b, e))
  {
    var v, s' := s.ring, Do(s, Commit(i));
    var q := v.slots[i].sn;
    var b' := BQ.Perform(b, BQ.Publish(q, v.slots[i].mask));
    CommitKeepsSound(v, i);
    assert Active(s'.ring) == Active(v);
    assert WriterIs(s, i, b);
    forall j: nat | j < |v.slots| && v.slots[j].state.Committed? ensures v.slots[j].sn < q {
      assert SlotSound(v, v.slots[j]);
      assert if j < i then v.slots[j].sn != v.slots[i].sn else v.slots[i].sn != v.slots[j].sn;
    }
    forall c: nat, p: nat | c in b && (p in b[c].queue || p in b[c].leased) ensures p < q {
      assert BoxIs(v, c, s.marks[c], b[c]);
    }
    forall c: nat | c in b' ensures BoxIs(s'.ring, c, s.marks[c], b'[c]) {
      CommitFillsBox(s, b, i, c);
    }
    forall j: nat | j < |v.slots| ensures WriterIs(s', j, b') {
      assert WriterIs(s, j, b);
    }
  }

  lemma CommitFillsBox(s: State, b: BQ.Boxes, i: nat, c: nat)
    requires Abstracts(s, b) && Can(s, Commit(i)) && c in b
    requires forall p: nat :: p in b[c].queue ==> p < s.ring.slots[i].sn
    ensures BoxIs(RingSpec.Commit(s.ring, i), c, s.marks[c], BQ.Perform(b, BQ.Publish(s.ring.slots[i].sn, s.ring.slots[i].mask))[c])
  {
    var v, v' := s.ring, RingSpec.Commit(s.ring, i);
    var q, mark := v.slots[i].sn, s.marks[c];
    assert WriterIs(s, i, b) && BoxIs(v, c, mark, b[c]);
    if c in v.slots[i].mask {
      BQ.AppendKeepsOrder(b[c].queue, q);
      assert forall j: nat :: Candidate(v', c, mark, j) <==> Candidate(v, c, mark, j) || j == i;
      assert forall j: nat :: Taken(v', c, mark, j) <==> Taken(v, c, mark, j);
      assert Candidate(v', c, mark, i);
      assert forall j: nat :: j != i ==> (j < |v.slots| ==> v'.slots[j] == v.slots[j]);
    } else {
      SameBox(v, v', c, mark, b[c]);
    }
  }

  // ---- consumers ------------------------------------------------------------

  lemma TakePops(s: State, b: BQ.Boxes, c: nat, i: nat)
    requires Abstracts(s, b) && Can(s, Take(c, i))
    ensures BQ.Allowed(b, BQ.Pop(c)) && b[c].queue[0] == s.ring.slots[i].sn
    ensures Abstracts(Do(s, Take(c, i)), BQ.Perform(b, BQ.Pop(c)))
  {
    var v, s' := s.ring, Do(s, Take(c, i));
    var mark, q := s.marks[c], v.slots[i].sn;
    assert BoxIs(v, c, mark, b[c]) && q in b[c].queue;
    BQ.HeadIsLeast(b[c].queue, q);
    var b' := BQ.Perform(b, BQ.Pop(c));
    assert SlotSound(v, v.slots[i]);
    TakeMovesMark(v, c, mark, i);
    forall p: nat ensures p in b'[c].queue <==> exists j: nat :: Candidate(v, c, q, j) && v.slots[j].sn == p {
      assert p in b'[c].queue <==> p in b[c].queue && p > q;
    }
    forall p: nat ensures p in b'[c].leased <==> exists j: nat :: Taken(v, c, q, j) && v.slots[j].sn == p {
      assert p in b'[c].leased <==> p in b[c].leased || p == q;
    }
    assert BoxIs(v, c, q, b'[c]);
    forall j: nat | j < |v.slots| ensures WriterIs(s', j, b') {
      assert WriterIs(s, j, b);
      if v.slots[j].state.Writing? {
        assert if i < j then v.slots[i].sn != v.slots[j].sn else v.slots[j].sn != v.slots[i].sn;
      }
    }
  }

  lemma TakeMovesMark(v: RingValue, c: nat, mark: nat, i: nat)
    requires Oldest(v, c, mark, i)
    ensures var q := v.slots[i].sn;
      && Taken(v, c, q, i)
      && (forall j: nat :: Candidate(v, c, q, j) <==> Candidate(v, c, mark, j) && v.slots[j].sn > q)
      && (forall j: nat :: Taken(v, c, q, j) ==> Taken(v, c, mark, j) || v.slots[j].sn == q)
      && (forall j: nat :: Taken(v, c, mark, j) ==> Taken(v, c, q, j))
  {
  }

  lemma NothingMeansEmpty(s: State, b: BQ.Boxes, c: nat)
    requires Abstracts(s, b) && Can(s, FindNothing(c))
    ensures c in b && b[c].queue == []
  {
    assert BoxIs(s.ring, c, s.marks[c], b[c]);
    assert forall p: nat :: p !in b[c].queue;
    EmptyOrNot(b[c].queue);
  }

  lemma EmptyOrNot(xs: seq<nat>)
    ensures xs == [] || exists p: nat :: p in xs
  {
    if xs != [] {
      assert xs[0] in xs;
    }
  }

  // A held lease can be released, and releasing it gives up this claim and no other.
  lemma ReleaseDiscards(s: State, b: BQ.Boxes, c: nat, i: nat)
    requires Abstracts(s, b) && Can(s, Release(c, i))
    ensures var q := s.ring.slots[i].sn;
      && RingSpec.Release(s.ring, c, i, q).Ok? && BQ.Allowed(b, BQ.Discard(c, q))
      && Abstracts(Do(s, Release(c, i)), BQ.Perform(b, BQ.Discard(c, q)))
  {
    var v, q, mark := s.ring, s.ring.slots[i].sn, s.marks[c];
    assert BoxIs(v, c, mark, b[c]) && q in b[c].leased;
    ReleaseKeepsSound(v, c, i, q);
    var s', b' := Do(s, Release(c, i)), BQ.Perform(b, BQ.Discard(c, q));
    assert Active(s'.ring) == Active(v);
    forall d: nat | d in b' ensures BoxIs(s'.ring, d, s.marks[d], b'[d]) {
      if d == c {
        DiscardOne(v, s'.ring, c, mark, i, b[c]);
      } else {
        SameBox(v, s'.ring, d, s.marks[d], b[d]);
      }
    }
    forall j: nat | j < |v.slots| ensures WriterIs(s', j, b') {
      assert WriterIs(s, j, b);
    }
  }

  lemma DiscardOne(v: RingValue, v': RingValue, c: nat, mark: nat, i: nat, b: BQ.Box)
    requires Sound(v) && Taken(v, c, mark, i) && BoxIs(v, c, mark, b)
    requires v'.slots == v.slots[i := ClearBit(v.slots[i], c)] && v'.next == v.next
    ensures BoxIs(v', c, mark, b.(leased := b.leased - {v.slots[i].sn}))
  {
    assert forall j: nat :: Candidate(v', c, mark, j) <==> Candidate(v, c, mark, j);
    assert forall j: nat :: Taken(v', c, mark, j) <==> Taken(v, c, mark, j) && j != i;
    assert forall j: nat :: Taken(v, c, mark, j) && j != i ==> v.slots[j].sn != v.slots[i].sn;
    assert forall j: nat :: j < |v.slots| ==> v'.slots[j].sn == v.slots[j].sn;
  }

  lemma SubscribeJoins(s: State, b: BQ.Boxes, c: nat, pid: nat)
    requires Abstracts(s, b) && Can(s, Subscribe(c, pid))
    ensures var e := BQ.Join(c);
            BQ.Allowed(b, e) && Abstracts(Do(s, Subscribe(c, pid)), BQ.Perform(b, e))
  {
    var v, s' := s.ring, Do(s, Subscribe(c, pid));
    var b' := BQ.Perform(b, BQ.Join(c));
    RegisterKeepsSound(v, c, pid);
    assert Active(s'.ring) == Active(v) + {c};
    forall d: nat | d in b' ensures BoxIs(s'.ring, d, s'.marks[d], b'[d]) {
      if d == c {
        NewBox(s'.ring, c);
      } else {
        SameBox(v, s'.ring, d, s.marks[d], b[d]);
      }
    }
    forall j: nat | j < |v.slots| ensures WriterIs(s', j, b') {
      JoinKeepsWriter(s, b, c, pid, j);
    }
  }

  lemma NewBox(v: RingValue, c: nat)
    requires v.next >= 1 && forall i: nat :: i < |v.slots| ==> c !in v.slots[i].mask
    ensures BoxIs(v, c, Minus1(v.next), BQ.Box([], {}))
  {
  }

  // A newcomer is no reader of the reservation that is open, and its mark says so.
  lemma JoinKeepsWriter(s: State, b: BQ.Boxes, c: nat, pid: nat, j: nat)
    requires Abstracts(s, b) && Can(s, Subscribe(c, pid)) && j < |s.ring.slots|
    ensures WriterIs(Do(s, Subscribe(c, pid)), j, BQ.Perform(b, BQ.Join(c)))
  {
    assert WriterIs(s, j, b) && SlotSound(s.ring, s.ring.slots[j]);
  }

  // ---- leaving and dying ----------------------------------------------------

  // Taking the consumers in `gone` out of the registry and out of every mask.
  lemma LeavingKeepsTheRest(s: State, b: BQ.Boxes, v': RingValue, gone: set<nat>)
    requires Abstracts(s, b) && Sound(v') && v'.next == s.ring.next && |v'.slots| == |s.ring.slots|
    requires forall c: nat :: c in Active(v') <==> c in Active(s.ring) && c !in gone
    requires forall i: nat :: i < |s.ring.slots| ==>
               var x, x' := s.ring.slots[i], v'.slots[i];
               x'.sn == x.sn && ((x'.state == x.state && x'.mask == x.mask - gone) || (x.state.Writing? && x'.state.Free?))
    ensures Abstracts(State(v', s.marks - gone), b - gone)
  {
    var s', b' := State(v', s.marks - gone), b - gone;
    forall c: nat | c in b' ensures BoxIs(v', c, s.marks[c], b[c]) {
      SameBox(s.ring, v', c, s.marks[c], b[c]);
    }
    forall j: nat | j < |v'.slots| ensures WriterIs(s', j, b') {
      assert WriterIs(s, j, b);
    }
  }

  lemma CloseParts(s: State, b: BQ.Boxes, c: nat)
    requires Abstracts(s, b) && Can(s, Close(c))
    ensures BQ.Allowed(b, BQ.Part(c)) && Abstracts(Do(s, Close(c)), BQ.Perform(b, BQ.Part(c)))
  {
    CloseKeepsSound(s.ring, c);
    assert Active(RingSpec.Close(s.ring, c)) == Active(s.ring) - {c};
    forall i: nat | i < |s.ring.slots|
      ensures RingSpec.Close(s.ring, c).slots[i].mask == s.ring.slots[i].mask - {c} {
    }
    LeavingKeepsTheRest(s, b, RingSpec.Close(s.ring, c), {c});
  }

  lemma SweepParts(s: State, b: BQ.Boxes, pid: nat, alive: set<nat>)
    requires Abstracts(s, b)
    ensures Abstracts(Do(s, Sweep(pid, alive)), b - Dead(s.ring, pid, alive, |s.ring.entries|))
  {
    var v := s.ring;
    SweepKeepsSound(v, pid, alive);
    SweepRemovesExactlyTheDead(v, pid, alive);
    LeavingKeepsTheRest(s, b, Reap(v, pid, alive), Dead(v, pid, alive, |v.entries|));
  }

  // In plain terms: the boxes that stay are those of the sweeper's own and of live processes.
  lemma SweepKeepsTheLiving(s: State, b: BQ.Boxes, pid: nat, alive: set<nat>, c: nat)
    requires Abstracts(s, b) && c in b
    ensures c in b - Dead(s.ring, pid, alive, |s.ring.entries|) <==>
              s.ring.entries[c].pid == pid || s.ring.entries[c].pid in alive
  {
    SweepGoesByPids(s.ring, pid, alive);
  }

  // Generations never go back and grow with every registration, so no two consumers of one
  // entry have the same.
  lemma GenerationsGrow(s: State, t: Call, c: nat)
    requires Possible(s, t) && c < |s.ring.entries|
    ensures c < |Do(s, t).ring.entries|
    ensures var e, e' := s.ring.entries[c], Do(s, t).ring.entries[c];
            e'.generation >= e.generation && (!e.active && e'.active ==> e'.generation > e.generation)
  {
    if t.Sweep? {
      SweepEntries(s.ring, t.pid, t.alive, |s.ring.entries|);
    }
  }

  // ---- runs -----------------------------------------------------------------

  // Each call is its queue operation and leads to the queues of the new state.
  lemma CallRefinesQueue(s: State, t: Call, b: BQ.Boxes) returns (b': BQ.Boxes)
    requires Abstracts(s, b) && Can(s, t)
    ensures IsQueueOp(s, t, b, b') && Abstracts(Do(s, t), b')
  {
    b' := b;
    match t
    case Reserve(i, head, pid) => ReserveIsSilent(s, b, i, head, pid);
    case Fill(i, data) => FillIsSilent(s, b, i, data);
    case Abort(i) => AbortIsSilent(s, b, i);
    case Refuse(drop) => RefuseIsSilent(s, b, drop);
    case FindNothing(c) => NothingMeansEmpty(s, b, c);
    case Commit(i) =>
      CommitPublishes(s, b, i);
      b' := BQ.Perform(b, BQ.Publish(s.ring.slots[i].sn, s.ring.slots[i].mask));
    case Take(c, i) =>
      TakePops(s, b, c, i);
      b' := BQ.Perform(b, BQ.Pop(c));
    case Release(c, i) =>
      ReleaseDiscards(s, b, c, i);
      b' := BQ.Perform(b, BQ.Discard(c, s.ring.slots[i].sn));
    case Subscribe(c, pid) =>
      SubscribeJoins(s, b, c, pid);
      b' := BQ.Perform(b, BQ.Join(c));
    case Close(c) =>
      CloseParts(s, b, c);
      b' := BQ.Perform(b, BQ.Part(c));
    case Sweep(pid, alive) =>
      SweepParts(s, b, pid, alive);
      b' := b - Dead(s.ring, pid, alive, |s.ring.entries|);
  }

  ghost predicate Run(s: State, ts: seq<Call>, s': State)
    decreases |ts|
  {
    if ts == [] then s' == s
    else Can(s, ts[0]) && Run(Do(s, ts[0]), ts[1..], s')
  }

  // Performing the queue operations of a whole run of calls.
  ghost predicate QueueHistory(s: State, ts: seq<Call>, b: BQ.Boxes, b': BQ.Boxes)
    decreases |ts|
  {
    if ts == [] then b' == b
    else
      && Can(s, ts[0])
      && exists m: BQ.Boxes :: IsQueueOp(s, ts[0], b, m) && QueueHistory(Do(s, ts[0]), ts[1..], m, b')
  }

  lemma {:induction false} RunRefinesQueue(s: State, ts: seq<Call>, s': State, b: BQ.Boxes) returns (b': BQ.Boxes)
    requires Abstracts(s, b) && Run(s, ts, s')
    ensures QueueHistory(s, ts, b, b') && Abstracts(s', b')
    decreases |ts|
  {
    if ts == [] {
      b' := b;
    } else {
      var m := CallRefinesQueue(s, ts[0], b);
      b' := RunRefinesQueue(Do(s, ts[0]), ts[1..], s', m);
    }
  }

  // Every history of calls on a freshly formatted ring is a history of the broadcast queue.
  lemma AtomicRingIsABroadcastQueue(n: nat, blank: Tensor, ts: seq<Call>, s: State)
    requires n >= 2 && Run(Fresh(n, blank), ts, s)
    ensures exists b: BQ.Boxes :: QueueHistory(Fresh(n, blank), ts, map[], b) && Abstracts(s, b)
  {
    assert Active(Fresh(n, blank).ring) == {};
    var b := RunRefinesQueue(Fresh(n, blank), ts, s, map[]);
  }

  function Fresh(n: nat, blank: Tensor): State {
    State(RingValue(seq(n, _ => Slot(Free, 0, {}, 0, 0, blank)),
                    seq(MAX_CONSUMERS, _ => Entry(false, 0, 0)), 1, 0, 0, 0, 0), map[])
  }
}
