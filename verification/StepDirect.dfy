/**
 The direct-write path: between the reservation and the commit the caller writes the payload
 in place, byte by byte, and may stamp a time.  What is published is what the caller wrote.
 */
module StepDirect {
  import opened TenzorCore
  import opened StepRing
  import opened StepInvariant
  import opened StepTheorems

  // ---- one write --------------------------------------------------------------

  // Writing v to byte k puts v in byte k of the reserved slot, and nowhere else.
  lemma FillWritesTheByte(s: State, k: nat, v: nat)
    requires Inv(s) && ProducerCan(s, FillByte(k, v))
    ensures var s', i := ProducerDo(s, FillByte(k, v)), s.prod.r.pub.slot;
            && i < |s.slots| == |s'.slots|
            && (forall j: nat :: j < |s.slots| && j != i ==> s'.slots[j] == s.slots[j])
            && s'.slots[i].state == s.slots[i].state && s'.slots[i].sn == s.slots[i].sn
            && s'.slots[i].head == s.slots[i].head && s'.slots[i].mask == s.slots[i].mask
            && |s'.slots[i].data| == |s.slots[i].data| && k < |s.slots[i].data|
            && s'.slots[i].data[k] == v
            && (forall j: nat :: j < |s.slots[i].data| && j != k ==> s'.slots[i].data[j] == s.slots[i].data[j])
            && s'.log == s.log && s'.cons == s.cons && s'.next == s.next
  {
  }

  // Stamping a time changes that header word of the reserved slot, and nothing else.
  lemma StampWritesTheTime(s: State, v: nat)
    requires Inv(s) && ProducerCan(s, StampTime(v))
    ensures var s', i := ProducerDo(s, StampTime(v)), s.prod.r.pub.slot;
            && i < |s.slots| == |s'.slots|
            && (forall j: nat :: j < |s.slots| && j != i ==> s'.slots[j] == s.slots[j])
            && s'.slots[i].state == s.slots[i].state && s'.slots[i].sn == s.slots[i].sn
            && s'.slots[i].data == s.slots[i].data && s'.slots[i].mask == s.slots[i].mask
            && |s'.slots[i].head| == |s.slots[i].head| == HEAD_WORDS
            && s'.slots[i].head[W_TIMESTAMP] == v
            && (forall w: nat :: w < HEAD_WORDS && w != W_TIMESTAMP ==> s'.slots[i].head[w] == s.slots[i].head[w])
            && s'.log == s.log && s'.cons == s.cons && s'.next == s.next
  {
  }

  // ---- from reservation to commit ---------------------------------------------

  // What byte k holds after ts, if it held init before and nobody else writes.
  function Written(ts: seq<Step>, k: nat, init: nat): nat {
    if ts == [] then init
    else if ts[0].ByProducer? && ts[0].p.FillByte? && ts[0].p.k == k then Written(ts[1..], k, ts[0].p.v)
    else Written(ts[1..], k, init)
  }

  // It is the last value written there, or what the byte held.
  lemma {:induction false} WrittenIsTheLast(ts: seq<Step>, k: nat, init: nat)
    ensures (exists n: nat, v: nat :: LastWrite(ts, k, n, v) && Written(ts, k, init) == v)
            || (Written(ts, k, init) == init && forall v: nat :: ByProducer(FillByte(k, v)) !in ts)
    decreases |ts|
  {
    if ts != [] {
      var here := ts[0].ByProducer? && ts[0].p.FillByte? && ts[0].p.k == k;
      var next := if here then ts[0].p.v else init;
      WrittenIsTheLast(ts[1..], k, next);
      if n: nat, v: nat :| LastWrite(ts[1..], k, n, v) && Written(ts[1..], k, next) == v {
        forall j: nat, u: nat | n + 1 < j < |ts| ensures ts[j] != ByProducer(FillByte(k, u)) {
          assert ts[1..][j - 1] == ts[j];
        }
        assert LastWrite(ts, k, n + 1, v);
      } else {
        forall j: nat, u: nat | 0 < j < |ts| ensures ts[j] != ByProducer(FillByte(k, u)) {
          assert ts[1..][j - 1] == ts[j];
        }
        assert here ==> LastWrite(ts, k, 0, ts[0].p.v);
      }
    }
  }

  ghost predicate LastWrite(ts: seq<Step>, k: nat, n: nat, v: nat) {
    && n < |ts| && ts[n] == ByProducer(FillByte(k, v))
    && (forall j: nat, u: nat :: n < j < |ts| ==> ts[j] != ByProducer(FillByte(k, u)))
  }

  // The time word after ts, if it was init before.
  function Stamped(ts: seq<Step>, init: nat): nat {
    if ts == [] then init
    else if ts[0].ByProducer? && ts[0].p.StampTime? then Stamped(ts[1..], ts[0].p.v)
    else Stamped(ts[1..], init)
  }

  // The reservation is neither committed nor given up meanwhile.
  ghost predicate StaysOpen(ts: seq<Step>) {
    ByProducer(Commit) !in ts && ByProducer(BeginAbort) !in ts && ByProducer(ProducerDies) !in ts
  }

  // The slot of an open direct reservation, and what it is to publish.
  ghost predicate Direct(s: State) {
    Inv(s) && Open(s.prod) && s.prod.r.direct
  }

  // From s to s' the payload and the time have changed by the writes in ts and no others.
  ghost predicate ChangedBy(s: State, ts: seq<Step>, s': State) {
    && HasReservation(s.prod) && HasReservation(s'.prod)
    && var r, r', x, x' := s.prod.r.pub, s'.prod.r.pub, s.slots, s'.slots;
    && r'.slot == r.slot < |x| == |x'| && r'.sn == r.sn
    && |x'[r.slot].data| == |x[r.slot].data|
    && (forall k: nat :: k < |x[r.slot].data| ==> x'[r.slot].data[k] == Written(ts, k, x[r.slot].data[k]))
    && |r.head| == |r'.head| == HEAD_WORDS && |r'.data| == |r.data|
    && r'.head == r.head[W_TIMESTAMP := Stamped(ts, r.head[W_TIMESTAMP])]
  }

  lemma DirectStep(s: State, t: Step)
    requires Direct(s) && Can(s, t) && StaysOpen([t])
    ensures Direct(Do(s, t)) && ChangedBy(s, [t], Do(s, t))
  {
    StepKeepsInv(s, t);
    assert t in [t];
    match t
    case ByProducer(p) => DirectProducerStep(s, p);
    case ByConsumer(a) =>
      OnlyActorMoves(s, a);
      ConsumerLeavesPayloads(s, a, s.prod.r.pub.slot);
      QuietStep(s, t);
  }

  lemma DirectProducerStep(s: State, p: ProducerStep)
    requires Direct(s) && ProducerCan(s, p) && !p.Commit? && !p.BeginAbort? && !p.ProducerDies?
    ensures Open(ProducerDo(s, p).prod) && ProducerDo(s, p).prod.r.direct
    ensures ChangedBy(s, [ByProducer(p)], ProducerDo(s, p))
  {
    assert ReservationOk(s, s.prod.r);
    var t := ByProducer(p);
    assert [t][1..] == [];
    if p.FillByte? {
      assert forall k: nat, x: nat :: Written([t], k, x) == if k == p.k then p.v else x;
      assert forall x: nat :: Stamped([t], x) == x;
    } else if p.StampTime? {
      assert forall k: nat, x: nat :: Written([t], k, x) == x;
      assert forall x: nat :: Stamped([t], x) == p.v;
    } else {
      QuietStep(s, t);
    }
  }

  // A step that is no such write leaves the payload and what is to be published alone.
  lemma QuietStep(s: State, t: Step)
    requires Direct(s) && Can(s, t) && StaysOpen([t])
    requires t.ByProducer? ==> !t.p.FillByte? && !t.p.StampTime?
    requires t.ByConsumer? ==>
               && Do(s, t).prod == s.prod && |Do(s, t).slots| == |s.slots| && s.prod.r.pub.slot < |s.slots|
               && Do(s, t).slots[s.prod.r.pub.slot].data == s.slots[s.prod.r.pub.slot].data
    ensures Open(Do(s, t).prod) && Do(s, t).prod.r.direct
    ensures ChangedBy(s, [t], Do(s, t))
  {
    assert t in [t] && [t][1..] == [];
    assert ReservationOk(s, s.prod.r);
    assert forall k: nat, x: nat :: Written([t], k, x) == x;
    assert forall x: nat :: Stamped([t], x) == x;
  }

  lemma ChangesCompose(s: State, t: Step, m: State, ts: seq<Step>, s': State)
    requires ChangedBy(s, [t], m) && ChangedBy(m, ts, s')
    ensures ChangedBy(s, [t] + ts, s')
  {
    forall k: nat, x: nat ensures Written([t] + ts, k, x) == Written(ts, k, Written([t], k, x)) {
      OneMore(t, ts, k, x);
    }
    OneMore(t, ts, 0, s.prod.r.pub.head[W_TIMESTAMP]);
  }

  lemma OneMore(t: Step, ts: seq<Step>, k: nat, x: nat)
    ensures Written([t] + ts, k, x) == Written(ts, k, Written([t], k, x))
    ensures Stamped([t] + ts, x) == Stamped(ts, Stamped([t], x))
  {
    assert [t][1..] == [] && ([t] + ts)[1..] == ts && ([t] + ts)[0] == t;
  }

  lemma ConsumerLeavesPayloads(s: State, a: ConsumerStep, i: nat)
    requires ConsumerCan(s, a) && i < |s.slots|
    ensures |ConsumerDo(s, a).slots| == |s.slots| && ConsumerDo(s, a).slots[i].data == s.slots[i].data
  {
  }

  lemma {:induction false} DirectRun(s: State, ts: seq<Step>, s': State)
    requires Direct(s) && Run(s, ts, s') && StaysOpen(ts)
    ensures Direct(s') && ChangedBy(s, ts, s')
    decreases |ts|
  {
    if ts == [] {
      assert ReservationOk(s, s.prod.r);
    } else {
      var t := ts[0];
      assert t in ts && forall u :: u in ts[1..] ==> u in ts;
      DirectStep(s, t);
      DirectRun(Do(s, t), ts[1..], s');
      ChangesCompose(s, t, Do(s, t), ts[1..], s');
      assert [t] + ts[1..] == ts;
    }
  }

  // Whatever others do meanwhile: the publication a direct commit logs, under the sequence
  // and in the slot of its reservation, has in each byte the last value the caller wrote
  // there, or what the slot held before; its header is the one asked for, with the last time
  // stamped; and that is what the slot then holds for its consumers.
  lemma DirectIsWhatWasWritten(s: State, ts: seq<Step>, s': State)
    requires Inv(s) && ProducerCan(s, BeginStores) && s.prod.req.Direct?
    requires Run(ProducerDo(s, BeginStores), ts, s') && StaysOpen(ts) && ProducerCan(s', Commit)
    ensures var i, q, head, after := s.prod.i, s.next, s.prod.req.head, ProducerDo(s', Commit);
            && i < |s.slots| && |head| == HEAD_WORDS && q !in s'.log && q in after.log
            && var p := after.log[q];
            && p.slot == i && p.sn == q && |p.data| == head[W_NBYTES] <= |s.slots[i].data|
            && (forall k: nat :: k < |p.data| ==> p.data[k] == Written(ts, k, s.slots[i].data[k]))
            && p.head == head[W_TIMESTAMP := Stamped(ts, head[W_TIMESTAMP])]
            && i < |after.slots| && after.slots[i].state.Committed? && Holds(after.slots[i], p)
  {
    var m := ProducerDo(s, BeginStores);
    StepKeepsInv(s, ByProducer(BeginStores));
    DirectRun(m, ts, s');
    CopyIsVerbatim(s', Commit);
  }
}
