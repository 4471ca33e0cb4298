/**
 What the ring is for, stated without slots: one FIFO and one set of held leases per
 registered consumer.  The step model refines it: a commit is the append, the final
 check of read_validated is the pop, the fetch_and of a release is the discard, and
 every other load or store is silent.
 */
module BroadcastQueue {
  import opened StepRing
  import opened StepInvariant
  import opened StepConsumer
  import opened StepTheorems
  import opened StepCounting
  import opened StepDelivery

  datatype Box = Box(queue: seq<nat>, leased: set<nat>)

  type Boxes = map<nat, Box>

  datatype Event =
    | Silent
    | Publish(q: nat, to: set<nat>)
    | Pop(c: nat)
    | Discard(c: nat, q: nat)
    | Join(c: nat)
    | Part(c: nat)

  ghost predicate Allowed(b: Boxes, e: Event) {
    match e
    case Silent => true
    case Publish(q, _) => forall c: nat, p: nat :: c in b && (p in b[c].queue || p in b[c].leased) ==> p < q
    case Pop(c) => c in b && b[c].queue != []
    case Discard(c, q) => c in b && q in b[c].leased
    case Join(c) => c !in b
    case Part(c) => c in b
  }

  function Perform(b: Boxes, e: Event): Boxes
    requires e.Pop? ==> e.c in b && b[e.c].queue != []
    requires e.Discard? ==> e.c in b
  {
    match e
    case Silent => b
    case Publish(q, to) =>
      map c | c in b :: if c in to then b[c].(queue := b[c].queue + [q]) else b[c]
    case Pop(c) => b[c := b[c].(queue := b[c].queue[1..], leased := b[c].leased + {b[c].queue[0]})]
    case Discard(c, q) => b[c := b[c].(leased := b[c].leased - {q})]
    case Join(c) => b[c := Box([], {})]
    case Part(c) => b - {c}
  }

  // The entries whose mark is below the open reservation.
  function Below(s: State): (b: set<nat>)
    requires HasReservation(s.prod)
    ensures forall c: nat :: c in b <==> c < |s.cons| && s.cons[c].base < s.prod.r.pub.sn
  {
    set c: nat | c < |s.cons| && s.cons[c].base < s.prod.r.pub.sn
  }

  // The queue operation a step of the ring performs.  A publication goes to those its
  // reservation found registered, or, byMark, to those whose mark is below it.
  function EventOf(s: State, t: Step, byMark: bool): Event
    requires Can(s, t)
  {
    match t
    case ByProducer(p) =>
      if p.Commit? then Publish(s.prod.r.pub.sn, if byMark then Below(s) else Recipients(s)) else Silent
    case ByConsumer(a) => ConsumerEvent(s, a)
  }

  function ConsumerEvent(s: State, t: ConsumerStep): Event
    requires ConsumerCan(s, t)
  {
    if t.Register? then Join(t.c)
    else if t.Leave? then Part(t.c)
    else if t.Advance? && s.cons[t.c].pc.CheckMask2? && ConsumerDo(s, t).cons[t.c].pc.Out? then Pop(t.c)
    else if t.Advance? && s.cons[t.c].pc.ReleaseMask? && ConsumerDo(s, t).cons[t.c].pc.Out? then
      Discard(t.c, s.cons[t.c].pc.q)
    else Silent
  }

  ghost predicate BoxOf(s: State, c: nat, b: Box)
    requires c < |s.cons|
  {
    && b.leased == s.cons[c].leases.Keys
    && Increasing(b.queue)
    && (forall q: nat :: q in b.queue <==> Pending(s, c, q))
  }

  ghost predicate Abstracts(s: State, b: Boxes) {
    && (forall c: nat :: c in b <==> IsLive(s, c))
    && (forall c: nat :: c in b ==> BoxOf(s, c, b[c]))
  }

  // ---- one step -------------------------------------------------------------

  // The commit store appends to the FIFOs of exactly those it reaches, if the given set
  // holds, of the living, exactly those whose mark is below it.
  lemma CommitPublishes(s: State, b: Boxes, to: set<nat>)
    requires Inv(s) && ProducerCan(s, Commit) && Abstracts(s, b)
    requires forall c: nat :: IsLive(s, c) ==> (c in to <==> s.cons[c].base < s.prod.r.pub.sn)
    ensures Allowed(b, Publish(s.prod.r.pub.sn, to))
    ensures Abstracts(ProducerDo(s, Commit), Perform(b, Publish(s.prod.r.pub.sn, to)))
  {
    var s', q := ProducerDo(s, Commit), s.prod.r.pub.sn;
    var b' := Perform(b, Publish(q, to));
    QueuedBelow(s, b, to);
    forall c: nat | c in b' ensures BoxOf(s', c, b'[c]) {
      CommitFillsBox(s, b, c, to);
    }
  }

  lemma QueuedBelow(s: State, b: Boxes, to: set<nat>)
    requires Inv(s) && ProducerCan(s, Commit) && Abstracts(s, b)
    ensures Allowed(b, Publish(s.prod.r.pub.sn, to))
  {
    forall c: nat, p: nat | c in b && (p in b[c].queue || p in b[c].leased) ensures p < s.prod.r.pub.sn {
      assert BoxOf(s, c, b[c]) && ConsumerOk(s, c);
      if p in b[c].leased {
        assert LeaseOk(s, c, p);
      }
    }
  }

  lemma CommitFillsBox(s: State, b: Boxes, c: nat, to: set<nat>)
    requires Inv(s) && ProducerCan(s, Commit) && Abstracts(s, b) && c in b
    requires c in to <==> s.cons[c].base < s.prod.r.pub.sn
    ensures BoxOf(ProducerDo(s, Commit), c, Perform(b, Publish(s.prod.r.pub.sn, to))[c])
  {
    var s', q := ProducerDo(s, Commit), s.prod.r.pub.sn;
    assert BoxOf(s, c, b[c]) && ConsumerOk(s, c);
    assert forall p: nat :: Pending(s', c, p) <==> Pending(s, c, p) || (p == q && q > s.cons[c].last);
    assert q > s.cons[c].last <==> q > s.cons[c].base;
    AppendKeepsOrder(b[c].queue, q);
  }

  // A commit is the broadcast to its true recipients if and only if none of those alive
  // has its mark at the publication already.
  lemma CommitRefinesExactlyWhen(s: State, b: Boxes)
    requires Inv(s) && Records(s) && ProducerCan(s, Commit) && Abstracts(s, b)
    ensures Abstracts(ProducerDo(s, Commit), Perform(b, Publish(s.prod.r.pub.sn, Recipients(s)))) <==>
              forall c: nat :: IsLive(s, c) && c in Recipients(s) ==> s.cons[c].base != s.prod.r.pub.sn
  {
    var to, q := Recipients(s), s.prod.r.pub.sn;
    forall c: nat | IsLive(s, c) ensures q > s.cons[c].base ==> c in to
                                 ensures q >= s.cons[c].base {
      assert ConsumerOk(s, c) && Recorded(s, c);
    }
    if c: nat :| IsLive(s, c) && c in to && s.cons[c].base == q {
      var s', b' := ProducerDo(s, Commit), Perform(b, Publish(q, to));
      assert ConsumerOk(s, c) && c in b';
      assert q in b'[c].queue by { assert b'[c].queue[|b[c].queue|] == q; }
      assert !Pending(s', c, q);
      assert !BoxOf(s', c, b'[c]);
    } else {
      CommitPublishes(s, b, to);
    }
  }

  lemma AppendKeepsOrder(xs: seq<nat>, q: nat)
    requires Increasing(xs) && forall p: nat :: p in xs ==> p < q
    ensures Increasing(xs + [q]) && forall p: nat :: p in xs + [q] <==> p in xs || p == q
  {
    forall k: nat | k < |xs| ensures xs[k] < q {
      assert xs[k] in xs;
    }
  }

  // A step that changes no consumer but c, and not what c has pending, touches no box but c's.
  lemma OtherBoxes(s: State, s': State, b: Boxes, c: nat)
    requires Abstracts(s, b) && s'.log == s.log && |s'.cons| == |s.cons|
    requires forall d: nat :: d < |s.cons| && d != c ==> s'.cons[d] == s.cons[d]
    ensures forall d: nat :: d != c && d in b ==> IsLive(s', d) && BoxOf(s', d, b[d])
    ensures forall d: nat :: d != c && IsLive(s', d) ==> d in b
  {
    forall d: nat | d != c && d in b ensures IsLive(s', d) && BoxOf(s', d, b[d]) {
      assert IsLive(s, d) && BoxOf(s, d, b[d]);
      assert forall q: nat :: Pending(s', d, q) <==> Pending(s, d, q);
    }
    forall d: nat | d != c && IsLive(s', d) ensures d in b {
      assert IsLive(s, d);
    }
  }

  lemma TakePops(s: State, b: Boxes, c: nat)
    requires Inv(s) && Abstracts(s, b) && ConsumerCan(s, Advance(c)) && s.cons[c].pc.CheckMask2?
    ensures ConsumerEvent(s, Advance(c)) == Pop(c) && Allowed(b, Pop(c))
    ensures b[c].queue[0] == s.cons[c].pc.ck.cand.sn
    ensures Abstracts(ConsumerDo(s, Advance(c)), Perform(b, Pop(c)))
  {
    var t := Advance(c);
    var s', pc := ConsumerDo(s, t), s.cons[c].pc;
    var q := pc.ck.cand.sn;
    MatchedIsCommitted(s, c, pc.ck, pc.words);
    OnlyActorMoves(s, t);
    OtherBoxes(s, s', b, c);
    assert BoxOf(s, c, b[c]) && Pending(s, c, q);
    HeadIsLeast(b[c].queue, q);
    var b' := Perform(b, Pop(c));
    assert s'.cons[c].last == q;
    forall p: nat ensures p in b'[c].queue <==> Pending(s', c, p) {
    }
    assert BoxOf(s', c, b'[c]);
  }

  lemma HeadIsLeast(xs: seq<nat>, q: nat)
    requires Increasing(xs) && q in xs && forall p: nat :: p in xs ==> q <= p
    ensures xs[0] == q && Increasing(xs[1..])
    ensures forall p: nat :: p in xs[1..] <==> p in xs && p > q
  {
    var k :| 0 <= k < |xs| && xs[k] == q;
    assert xs[0] in xs;
    forall p: nat ensures p in xs[1..] <==> p in xs && p > q {
      if p in xs && p > q {
        var j :| 0 <= j < |xs| && xs[j] == p;
        assert xs[1..][j - 1] == p;
      }
    }
  }

  lemma ReleaseDiscards(s: State, b: Boxes, c: nat)
    requires Inv(s) && Abstracts(s, b) && ConsumerCan(s, Advance(c)) && s.cons[c].pc.ReleaseMask?
    ensures ConsumerEvent(s, Advance(c)) == Discard(c, s.cons[c].pc.q) && Allowed(b, Discard(c, s.cons[c].pc.q))
    ensures Abstracts(ConsumerDo(s, Advance(c)), Perform(b, Discard(c, s.cons[c].pc.q)))
  {
    var t := Advance(c);
    var s' := ConsumerDo(s, t);
    assert LeaseOk(s, c, s.cons[c].pc.q);
    OnlyActorMoves(s, t);
    OtherBoxes(s, s', b, c);
    assert BoxOf(s, c, b[c]);
    assert forall p: nat :: Pending(s', c, p) <==> Pending(s, c, p);
    assert BoxOf(s', c, Perform(b, Discard(c, s.cons[c].pc.q))[c]);
  }

  lemma RegisterJoins(s: State, b: Boxes, c: nat)
    requires Inv(s) && Abstracts(s, b) && ConsumerCan(s, Register(c))
    ensures Allowed(b, Join(c))
    ensures Abstracts(ConsumerDo(s, Register(c)), Perform(b, Join(c)))
  {
    var s' := ConsumerDo(s, Register(c));
    OnlyActorMoves(s, Register(c));
    OtherBoxes(s, s', b, c);
    RegisterEstablishes(s, c);
    assert Frontier(s) <= s.next;
    assert forall q: nat :: !Pending(s', c, q);
  }

  // Everything else leaves every box as it is, except that leaving closes one.
  lemma SilentSteps(s: State, b: Boxes, t: ConsumerStep)
    requires Inv(s) && Abstracts(s, b) && ConsumerCan(s, t) && !t.Register?
    requires !(t.Advance? && (s.cons[t.c].pc.CheckMask2? || s.cons[t.c].pc.ReleaseMask?))
    ensures Allowed(b, if t.Leave? then Part(t.c) else Silent)
    ensures Abstracts(ConsumerDo(s, t), Perform(b, if t.Leave? then Part(t.c) else Silent))
  {
    OnlyActorMoves(s, t);
    SamePrivate(s, t);
    assert t.Leave? ==> IsLive(s, t.c);
    SameBoxes(s, ConsumerDo(s, t), b, t.c, t.Leave?);
  }

  lemma SameBoxes(s: State, s': State, b: Boxes, c: nat, leaves: bool)
    requires Abstracts(s, b) && s'.log == s.log && c < |s'.cons| == |s.cons|
    requires forall d: nat :: d < |s.cons| && d != c ==> s'.cons[d] == s.cons[d]
    requires leaves ==> IsLive(s, c) && !IsLive(s', c)
    requires !leaves && IsLive(s, c) ==>
               var x, x' := s.cons[c], s'.cons[c];
               x'.status.Live? && x'.last == x.last && x'.base == x.base && x'.leases == x.leases
    requires !leaves && !IsLive(s, c) ==> !IsLive(s', c)
    ensures Abstracts(s', if leaves then b - {c} else b)
    ensures leaves ==> c in b
  {
    OtherBoxes(s, s', b, c);
    if c in b && !leaves {
      assert BoxOf(s, c, b[c]);
      assert forall q: nat :: Pending(s', c, q) <==> Pending(s, c, q);
      assert BoxOf(s', c, b[c]);
    }
  }

  lemma SamePrivate(s: State, t: ConsumerStep)
    requires ConsumerCan(s, t) && !t.Register?
    requires !(t.Advance? && (s.cons[t.c].pc.CheckMask2? || s.cons[t.c].pc.ReleaseMask?))
    ensures var x, x' := s.cons[t.c], ConsumerDo(s, t).cons[t.c];
            if t.Leave? then x.status.Live? && x'.status.Gone?
            else if x.status.Live? then
              x'.status.Live? && x'.last == x.last && x'.base == x.base && x'.leases == x.leases
            else !x'.status.Live?
  {
  }

  lemma ProducerIsSilent(s: State, t: ProducerStep, b: Boxes)
    requires Abstracts(s, b) && ProducerCan(s, t) && !t.Commit?
    ensures Abstracts(ProducerDo(s, t), b)
  {
    OnlySlotsAndLog(s, t);
    OnlyCommitLogs(s, t);
    OtherBoxes(s, ProducerDo(s, t), b, |s.cons|);
  }

  lemma OnlyCommitLogs(s: State, t: ProducerStep)
    requires ProducerCan(s, t) && !t.Commit?
    ensures ProducerDo(s, t).log == s.log
  {
  }

  // The step is allowed on the queues and leads to the queues of the new state.
  ghost predicate Refines(s: State, t: Step, b: Boxes, byMark: bool)
    requires Can(s, t)
  {
    Allowed(b, EventOf(s, t, byMark)) && Abstracts(Do(s, t), Perform(b, EventOf(s, t, byMark)))
  }

  lemma ProducerRefines(s: State, t: ProducerStep, b: Boxes, byMark: bool)
    requires Inv(s) && ProducerCan(s, t) && Abstracts(s, b)
    requires !byMark ==> Records(s) && Deliverable(s)
    ensures Refines(s, ByProducer(t), b, byMark)
  {
    if t.Commit? {
      if !byMark {
        forall c: nat | IsLive(s, c) ensures c in Recipients(s) <==> s.cons[c].base < s.prod.r.pub.sn {
          MarksNameTheRegistered(s, c);
        }
      }
      CommitPublishes(s, b, if byMark then Below(s) else Recipients(s));
    } else {
      ProducerIsSilent(s, t, b);
    }
  }

  lemma RegisterRefines(s: State, c: nat, b: Boxes, byMark: bool)
    requires Inv(s) && ConsumerCan(s, Register(c)) && Abstracts(s, b)
    ensures Refines(s, ByConsumer(Register(c)), b, byMark)
  {
    RegisterJoins(s, b, c);
    assert EventOf(s, ByConsumer(Register(c)), byMark) == Join(c);
  }

  lemma TakeRefines(s: State, c: nat, b: Boxes, byMark: bool)
    requires Inv(s) && ConsumerCan(s, Advance(c)) && Abstracts(s, b) && s.cons[c].pc.CheckMask2?
    ensures Refines(s, ByConsumer(Advance(c)), b, byMark)
  {
    TakePops(s, b, c);
    assert EventOf(s, ByConsumer(Advance(c)), byMark) == Pop(c);
  }

  lemma ReleaseRefines(s: State, c: nat, b: Boxes, byMark: bool)
    requires Inv(s) && ConsumerCan(s, Advance(c)) && Abstracts(s, b) && s.cons[c].pc.ReleaseMask?
    ensures Refines(s, ByConsumer(Advance(c)), b, byMark)
  {
    ReleaseDiscards(s, b, c);
    assert EventOf(s, ByConsumer(Advance(c)), byMark) == Discard(c, s.cons[c].pc.q);
  }

  lemma OtherRefines(s: State, t: ConsumerStep, b: Boxes, byMark: bool)
    requires Inv(s) && ConsumerCan(s, t) && Abstracts(s, b)
    requires !t.Register? && !(t.Advance? && (s.cons[t.c].pc.CheckMask2? || s.cons[t.c].pc.ReleaseMask?))
    ensures Refines(s, ByConsumer(t), b, byMark)
  {
    SilentSteps(s, b, t);
    SilentEvent(s, t);
  }

  lemma SilentEvent(s: State, t: ConsumerStep)
    requires ConsumerCan(s, t) && !t.Register?
    requires !(t.Advance? && (s.cons[t.c].pc.CheckMask2? || s.cons[t.c].pc.ReleaseMask?))
    ensures ConsumerEvent(s, t) == if t.Leave? then Part(t.c) else Silent
  {
  }

  // The forward simulation: each load or store of the ring is one queue operation or none.
  // For the true recipients it takes a history without unsafe aborts; by mark it holds always.
  lemma StepRefinesQueue(s: State, t: Step, b: Boxes, byMark: bool)
    requires Inv(s) && Can(s, t) && Abstracts(s, b)
    requires !byMark ==> Records(s) && Deliverable(s)
    ensures Refines(s, t, b, byMark)
  {
    match t
    case ByProducer(p) => ProducerRefines(s, p, b, byMark);
    case ByConsumer(a) =>
      if a.Register? {
        RegisterRefines(s, a.c, b, byMark);
      } else if a.Advance? && s.cons[a.c].pc.CheckMask2? {
        TakeRefines(s, a.c, b, byMark);
      } else if a.Advance? && s.cons[a.c].pc.ReleaseMask? {
        ReleaseRefines(s, a.c, b, byMark);
      } else {
        OtherRefines(s, a, b, byMark);
      }
  }

  // Performing a whole run of the ring on the queues.
  ghost predicate QueueRun(s: State, ts: seq<Step>, b: Boxes, b': Boxes, byMark: bool)
    decreases |ts|
  {
    if ts == [] then b' == b
    else
      && Can(s, ts[0])
      && Allowed(b, EventOf(s, ts[0], byMark))
      && QueueRun(Do(s, ts[0]), ts[1..], Perform(b, EventOf(s, ts[0], byMark)), b', byMark)
  }

  lemma {:induction false} RunRefinesQueue(s: State, ts: seq<Step>, s': State, b: Boxes) returns (b': Boxes)
    requires Inv(s) && Records(s) && Deliverable(s) && CarefulRun(s, ts, s') && Abstracts(s, b)
    ensures QueueRun(s, ts, b, b', false) && Abstracts(s', b')
    decreases |ts|
  {
    if ts == [] {
      b' := b;
    } else {
      StepKeepsRecords(s, ts[0]);
      StepKeepsDeliverable(s, ts[0]);
      StepRefinesQueue(s, ts[0], b, false);
      b' := RunRefinesQueue(Do(s, ts[0]), ts[1..], s', Perform(b, EventOf(s, ts[0], false)));
    }
  }

  lemma {:induction false} RunRefinesMarkedQueue(s: State, ts: seq<Step>, s': State, b: Boxes) returns (b': Boxes)
    requires Inv(s) && Run(s, ts, s') && Abstracts(s, b)
    ensures QueueRun(s, ts, b, b', true) && Abstracts(s', b')
    decreases |ts|
  {
    if ts == [] {
      b' := b;
    } else {
      StepKeepsInv(s, ts[0]);
      StepRefinesQueue(s, ts[0], b, true);
      b' := RunRefinesMarkedQueue(Do(s, ts[0]), ts[1..], s', Perform(b, EventOf(s, ts[0], true)));
    }
  }

  // Every run from a fresh ring without an unsafe abort is a run of the broadcast queue in
  // which each publication goes to exactly those registered when it was reserved.
  lemma RingIsABroadcastQueue(s0: State, ts: seq<Step>, s: State)
    requires Initial(s0) && CarefulRun(s0, ts, s)
    ensures exists b: Boxes :: QueueRun(s0, ts, map[], b, false) && Abstracts(s, b)
  {
    InitialInv(s0);
    var b := RunRefinesQueue(s0, ts, s, map[]);
  }

  // Every run at all is one in which it goes to exactly those whose mark is below it.
  lemma RingFollowsItsMarks(s0: State, ts: seq<Step>, s: State)
    requires Initial(s0) && Run(s0, ts, s)
    ensures exists b: Boxes :: QueueRun(s0, ts, map[], b, true) && Abstracts(s, b)
  {
    InitialInv(s0);
    var b := RunRefinesMarkedQueue(s0, ts, s, map[]);
  }
}
