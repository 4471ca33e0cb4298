/**
 The ring at the granularity of single loads and stores of the shared mapping.

 One producer and up to MAX_CONSUMERS consumers each run their own program
 counter; a run is any interleaving of their steps.  Regions under the registry
 lock exclude each other (see LockFree) but never exclude a consumer's scan.
 Sequence numbers are the unbounded counters whose low 64 bits the mapping
 holds; module TenzorCore proves that comparing the low bits agrees.
 */
module StepRing {
  import opened Basics
  import opened TenzorCore

  // ---- shared memory --------------------------------------------------------

  datatype SlotState = Free | Committed | Writing

  // One slot: the state word, the sequence, the header words in the order of
  // HeaderWord below, the reader mask as the set of its bits, and the payload.
  datatype Slot = Slot(state: SlotState, sn: nat, head: seq<nat>, mask: set<nat>, data: seq<nat>)

  // A publication: what the producer means to deliver under one sequence number.
  datatype Publication = Publication(slot: nat, sn: nat, head: seq<nat>, data: seq<nat>)

  // What the producer's interface guarantees of a tensor it was asked to publish.
  predicate ValidTensor(head: seq<nat>, data: seq<nat>, cap: nat) {
    && |head| == HEAD_WORDS
    && head[W_NBYTES] == |data|
    && ReadableHead(head[W_NDIM], head[W_NBYTES], head[W_DTYPE], cap)
  }

  // ---- the producer's program counter ---------------------------------------

  // `publish` copies a tensor it already holds; `reserve` fills the slot in place.
  datatype Request = Copy(head: seq<nat>, data: seq<nat>) | Direct(head: seq<nat>)

  // An open reservation: the publication being built, the reader mask captured for
  // it, and whether the payload is filled in place.
  datatype Reservation = Reservation(pub: Publication, readers: set<nat>, direct: bool)

  datatype Producer =
    | Idle
    | Reaping(req: Request)
    | Looking(req: Request)
    | SawCommitted(req: Request, i: nat)
    | Chosen(req: Request, i: nat)
    | StoreSeq(r: Reservation)
    | StoreHead(r: Reservation, stored: set<nat>)
    | StoreMask(r: Reservation)
    | StoreNext(r: Reservation)
    | Filling(r: Reservation, copied: set<nat>)
    | Signalling(q: nat)
    | AbortMask(r: Reservation)
    | AbortState(r: Reservation)
    | AbortNext(r: Reservation)
    | Abandoned(r: Reservation)
    | Recovering(r: Reservation)

  // ---- the consumers' program counters --------------------------------------

  datatype Candidate = Candidate(sn: nat, slot: nat)

  // A lease: the slot it pins and the header words that were read for it.
  datatype Lease = Lease(slot: nat, words: map<nat, nat>)

  // `obs` is the publish word loaded before the scan.  `f0` and `f` are ghost marks:
  // every publication below f0 was committed before that load, and every one below f
  // before the current pass began.  `pass` counts rescans; `prev` is the best
  // candidate of the earlier passes and `cur` the best of this one.
  datatype Scan = Scan(obs: nat, f0: nat, pass: nat, f: nat,
                       prev: Option<Candidate>, cur: Option<Candidate>, i: nat)

  datatype Check = Check(obs: nat, f0: nat, cand: Candidate)

  datatype Pc =
    | Out
    | ScanState(sc: Scan)
    | ScanMask(sc: Scan)
    | ScanSeq(sc: Scan)
    | CheckState1(ck: Check)
    | CheckSeq1(ck: Check)
    | CheckHead(ck: Check, words: map<nat, nat>)
    | CheckMask1(ck: Check, words: map<nat, nat>)
    | CheckState2(ck: Check, words: map<nat, nat>, bit: bool)
    | CheckSeq2(ck: Check, words: map<nat, nat>, bit: bool)
    | CheckMask2(ck: Check, words: map<nat, nat>, bit: bool)
    | Asleep(obs: nat, f0: nat)
    | ReleaseSeq(q: nat)
    | ReleaseMask(q: nat)
    | Violated

  datatype Status = Absent | Live | Gone

  // One registry entry and the process behind it.  `base` is last_sequence as it was
  // set at registration and `got` the sequences leased since, in order.
  datatype Consumer = Consumer(status: Status, base: nat, last: nat, got: seq<nat>,
                               leases: map<nat, Lease>, pc: Pc)

  const ABSENT := Consumer(Absent, 0, 0, [], map[], Out)

  // ---- the whole system -----------------------------------------------------

  // `word` is the publish futex word.  Four ghosts: `log` holds every committed publication
  // by sequence and `unsig` those whose commit has not yet been signalled; `late` holds the
  // entries registered since the latest reservation was made, and `sent[c]` lists, in the
  // order of their commits, the publications whose reservation found entry c registered.
  datatype State = State(slots: seq<Slot>, cap: nat, next: nat, active: set<nat>, word: nat,
                         prod: Producer, cons: seq<Consumer>,
                         log: map<nat, Publication>, unsig: set<nat>, late: set<nat>, sent: seq<seq<nat>>)

  // A freshly formatted ring.
  predicate Initial(s: State) {
    && |s.slots| >= 2
    && (forall i :: 0 <= i < |s.slots| ==>
          && s.slots[i].state.Free? && s.slots[i].sn == 0 && s.slots[i].mask == {}
          && |s.slots[i].head| == HEAD_WORDS && |s.slots[i].data| == s.cap)
    && s.next == 1 && s.active == {} && s.word == 0 && s.prod.Idle?
    && |s.cons| == MAX_CONSUMERS
    && (forall c :: 0 <= c < |s.cons| ==> s.cons[c] == ABSENT)
    && s.log == map[] && s.unsig == {} && s.late == {} && s.sent == seq(MAX_CONSUMERS, _ => [])
  }

  // The registry lock is held by the producer in exactly the other states.
  predicate LockFree(p: Producer) {
    p.Idle? || p.Filling? || p.Signalling? || p.Abandoned?
  }

  predicate IsLive(s: State, c: nat) {
    c < |s.cons| && s.cons[c].status.Live?
  }

  // ---- steps ----------------------------------------------------------------

  datatype ProducerStep =
    | BeginReserve(req: Request)
    | EndReap
    | SeeFree(i: nat)
    | SeeCommitted(i: nat)
    | SeeMask
    | GiveUp
    | BeginStores
    | StoreWord(w: nat)
    | NextStore
    | CopyByte(k: nat)
    | FillByte(k: nat, v: nat)
    | StampTime(v: nat)
    | Commit
    | BeginAbort
    | ProducerDies
    | Recover

  datatype ConsumerStep =
    | Register(c: nat)
    | CallNext(c: nat)
    | LoadWord(c: nat, w: nat)
    | Advance(c: nat)
    | Wake(c: nat)
    | CallRelease(c: nat, q: nat)
    | Leave(c: nat)
    // reap_dead and close, on behalf of a consumer that is gone
    | DropBit(c: nat, i: nat)
    | FreeEntry(c: nat)

  datatype Step = ByProducer(p: ProducerStep) | ByConsumer(a: ConsumerStep)

  predicate ProducerCan(s: State, t: ProducerStep) {
    match t
    case BeginReserve(req) =>
      && s.prod.Idle?
      && |req.head| == HEAD_WORDS
      && (req.Copy? ==> ValidTensor(req.head, req.data, s.cap))
      && ReadableHead(req.head[W_NDIM], req.head[W_NBYTES], req.head[W_DTYPE], s.cap)
    case EndReap => s.prod.Reaping?
    case SeeFree(i) => s.prod.Looking? && i < |s.slots| && s.slots[i].state.Free?
    case SeeCommitted(i) => s.prod.Looking? && i < |s.slots| && s.slots[i].state.Committed?
    case SeeMask => s.prod.SawCommitted? && s.prod.i < |s.slots|
    case GiveUp => s.prod.Looking?
    case BeginStores =>
      && s.prod.Chosen? && s.prod.i < |s.slots|
      && |s.prod.req.head| == HEAD_WORDS && s.prod.req.head[W_NBYTES] <= |s.slots[s.prod.i].data|
    case StoreWord(w) =>
      && s.prod.StoreHead? && w < HEAD_WORDS && w !in s.prod.stored && s.prod.r.pub.slot < |s.slots|
      && |s.prod.r.pub.head| == HEAD_WORDS == |s.slots[s.prod.r.pub.slot].head|
    case NextStore =>
      || (s.prod.StoreSeq? && s.prod.r.pub.slot < |s.slots|)
      || (s.prod.StoreHead? && forall w :: 0 <= w < HEAD_WORDS ==> w in s.prod.stored)
      || (s.prod.StoreMask? && s.prod.r.pub.slot < |s.slots|)
      || s.prod.StoreNext?
      || s.prod.Signalling?
      || (s.prod.AbortMask? && s.prod.r.pub.slot < |s.slots|)
      || (s.prod.AbortState? && s.prod.r.pub.slot < |s.slots|)
      || s.prod.AbortNext?
    case CopyByte(k) =>
      && s.prod.Filling? && !s.prod.r.direct && s.prod.r.pub.slot < |s.slots|
      && k < |s.prod.r.pub.data| && k < |s.slots[s.prod.r.pub.slot].data|
    case FillByte(k, v) =>
      && s.prod.Filling? && s.prod.r.direct && s.prod.r.pub.slot < |s.slots|
      && k < |s.prod.r.pub.data| && k < |s.slots[s.prod.r.pub.slot].data|
    case StampTime(v) =>
      && s.prod.Filling? && s.prod.r.direct && s.prod.r.pub.slot < |s.slots|
      && |s.prod.r.pub.head| == HEAD_WORDS == |s.slots[s.prod.r.pub.slot].head|
    case Commit =>
      && s.prod.Filling? && s.prod.r.pub.slot < |s.slots|
      && (s.prod.r.direct || forall k :: 0 <= k < |s.prod.r.pub.data| ==> k in s.prod.copied)
    case BeginAbort => s.prod.Filling?
    case ProducerDies => s.prod.Filling? || s.prod.Signalling?
    case Recover => (s.prod.Abandoned? || s.prod.Recovering?) && s.prod.r.pub.slot < |s.slots|
  }

  function SetSlot(s: State, i: nat, x: Slot): State
    requires i < |s.slots|
  {
    s.(slots := s.slots[i := x])
  }

  // Steps that store nothing to shared memory.
  predicate Quiet(t: ProducerStep) {
    || t.BeginReserve? || t.EndReap? || t.SeeFree? || t.SeeCommitted? || t.SeeMask?
    || t.GiveUp? || t.BeginAbort? || t.ProducerDies?
  }

  function QuietPc(s: State, t: ProducerStep): Producer
    requires ProducerCan(s, t) && Quiet(t)
  {
    match t
    case BeginReserve(req) => Reaping(req)
    case EndReap => Looking(s.prod.req)
    case SeeFree(i) => Chosen(s.prod.req, i)
    case SeeCommitted(i) => SawCommitted(s.prod.req, i)
    case SeeMask =>
      if s.slots[s.prod.i].mask == {} then Chosen(s.prod.req, s.prod.i) else Looking(s.prod.req)
    case GiveUp => Idle
    case BeginAbort => AbortMask(s.prod.r)
    case ProducerDies => if s.prod.Filling? then Abandoned(s.prod.r) else Idle
  }

  function ProducerDo(s: State, t: ProducerStep): State
    requires ProducerCan(s, t)
  {
    if Quiet(t) then s.(prod := QuietPc(s, t))
    else if t.NextStore? then ProducerStore(s)
    else if t.BeginStores? then StartReservation(s)
    else if t.Commit? then
      var p := s.prod.r.pub;
      SetSlot(s, p.slot, s.slots[p.slot].(state := Committed))
        .(prod := Signalling(p.sn), log := s.log[p.sn := p], unsig := s.unsig + {p.sn},
          sent := SendTo(s.sent, Recipients(s), p.sn))
    else if t.Recover? then
      var i := s.prod.r.pub.slot;
      if s.prod.Abandoned? then SetSlot(s, i, s.slots[i].(mask := {})).(prod := Recovering(s.prod.r))
      else SetSlot(s, i, s.slots[i].(state := Free)).(prod := Idle)
    else WriteSlot(s, t)
  }

  // The sequence and the active mask are loaded, and the slot's state is stored.
  function StartReservation(s: State): State
    requires ProducerCan(s, BeginStores)
  {
    var i := s.prod.i;
    // An in-place payload starts out as whatever the slot already holds.
    var data := if s.prod.req.Copy? then s.prod.req.data
                else s.slots[i].data[..s.prod.req.head[W_NBYTES]];
    var r := Reservation(Publication(i, s.next, s.prod.req.head, data), s.active, s.prod.req.Direct?);
    SetSlot(s, i, s.slots[i].(state := Writing)).(prod := StoreSeq(r), late := {})
  }

  // Those registered when the open reservation was made, and not since replaced.
  function Recipients(s: State): set<nat>
    requires HasReservation(s.prod)
  {
    s.prod.r.readers - s.late
  }

  function SendTo(sent: seq<seq<nat>>, to: set<nat>, q: nat): (r: seq<seq<nat>>)
    ensures |r| == |sent|
    ensures forall c: nat :: c < |sent| ==> r[c] == if c in to then sent[c] + [q] else sent[c]
  {
    seq(|sent|, c requires 0 <= c < |sent| => if c in to then sent[c] + [q] else sent[c])
  }

  // A store of one header word or payload byte of the reserved slot.
  function WriteSlot(s: State, t: ProducerStep): State
    requires ProducerCan(s, t) && (t.StoreWord? || t.CopyByte? || t.FillByte? || t.StampTime?)
  {
    var r := s.prod.r;
    var x := s.slots[r.pub.slot];
    match t
    case StoreWord(w) =>
      SetSlot(s, r.pub.slot, x.(head := x.head[w := r.pub.head[w]])).(prod := StoreHead(r, s.prod.stored + {w}))
    case CopyByte(k) =>
      SetSlot(s, r.pub.slot, x.(data := x.data[k := r.pub.data[k]])).(prod := Filling(r, s.prod.copied + {k}))
    case FillByte(k, v) =>
      SetSlot(s, r.pub.slot, x.(data := x.data[k := v]))
        .(prod := Filling(r.(pub := r.pub.(data := r.pub.data[k := v])), s.prod.copied))
    case StampTime(v) =>
      SetSlot(s, r.pub.slot, x.(head := x.head[W_TIMESTAMP := v]))
        .(prod := Filling(r.(pub := r.pub.(head := r.pub.head[W_TIMESTAMP := v])), s.prod.copied))
  }

  // The stores whose order the source fixes.
  function ProducerStore(s: State): State
    requires ProducerCan(s, NextStore)
  {
    match s.prod
    case StoreSeq(r) =>
      SetSlot(s, r.pub.slot, s.slots[r.pub.slot].(sn := r.pub.sn)).(prod := StoreHead(r, {}))
    case StoreHead(r, stored) => s.(prod := StoreMask(r))
    case StoreMask(r) =>
      SetSlot(s, r.pub.slot, s.slots[r.pub.slot].(mask := r.readers)).(prod := StoreNext(r))
    case StoreNext(r) =>
      s.(next := r.pub.sn + 1, prod := Filling(r, {}))
    case Signalling(q) => s.(word := s.word + 1, unsig := s.unsig - {q}, prod := Idle)
    case AbortMask(r) =>
      SetSlot(s, r.pub.slot, s.slots[r.pub.slot].(mask := {})).(prod := AbortState(r))
    case AbortState(r) =>
      SetSlot(s, r.pub.slot, s.slots[r.pub.slot].(state := Free)).(prod := AbortNext(r))
    case AbortNext(r) =>
      s.(next := if s.next == r.pub.sn + 1 then r.pub.sn else s.next, prod := Idle)
  }

  // ---- consumer steps -------------------------------------------------------

  predicate ConsumerCan(s: State, t: ConsumerStep) {
    match t
    case Register(c) =>
      c < |s.cons| && c !in s.active && s.cons[c].status.Absent? && LockFree(s.prod) && 1 <= s.next
    case CallNext(c) => IsLive(s, c) && s.cons[c].pc.Out?
    case LoadWord(c, w) =>
      && IsLive(s, c) && s.cons[c].pc.CheckHead? && w < HEAD_WORDS && w !in s.cons[c].pc.words
      && s.cons[c].pc.ck.cand.slot < |s.slots|
      && |s.slots[s.cons[c].pc.ck.cand.slot].head| == HEAD_WORDS
    case Advance(c) => IsLive(s, c) && CanAdvance(s, s.cons[c])
    case Wake(c) => IsLive(s, c) && s.cons[c].pc.Asleep?
    case CallRelease(c, q) => IsLive(s, c) && s.cons[c].pc.Out? && q in s.cons[c].leases
    case Leave(c) => IsLive(s, c)
    case DropBit(c, i) =>
      && c < |s.cons| && s.cons[c].status.Gone? && i < |s.slots|
      && (LockFree(s.prod) || s.prod.Reaping?)
    case FreeEntry(c) =>
      && c < |s.cons| && s.cons[c].status.Gone?
      && (LockFree(s.prod) || s.prod.Reaping?)
      && (forall i :: 0 <= i < |s.slots| ==> c !in s.slots[i].mask)
  }

  predicate CanAdvance(s: State, x: Consumer) {
    match x.pc
    case ScanState(sc) => sc.i <= |s.slots|
    case ScanMask(sc) => sc.i < |s.slots|
    case ScanSeq(sc) => sc.i < |s.slots|
    case CheckState1(ck) => ck.cand.slot < |s.slots|
    case CheckSeq1(ck) => ck.cand.slot < |s.slots|
    case CheckHead(ck, words) => forall w :: 0 <= w < HEAD_WORDS ==> w in words
    case CheckMask1(ck, _) => ck.cand.slot < |s.slots|
    case CheckState2(ck, _, _) => ck.cand.slot < |s.slots|
    case CheckSeq2(ck, _, _) => ck.cand.slot < |s.slots|
    case CheckMask2(ck, words, _) =>
      ck.cand.slot < |s.slots| && W_NDIM in words && W_NBYTES in words && W_DTYPE in words
    case ReleaseSeq(q) => q in x.leases && x.leases[q].slot < |s.slots|
    case ReleaseMask(q) => q in x.leases && x.leases[q].slot < |s.slots|
    case _ => false
  }

  function SetConsumer(s: State, c: nat, x: Consumer): State
    requires c < |s.cons|
  {
    s.(cons := s.cons[c := x])
  }

  function SetPc(s: State, c: nat, pc: Pc): State
    requires c < |s.cons|
  {
    SetConsumer(s, c, s.cons[c].(pc := pc))
  }

  // A reservation is open, being aborted or abandoned.
  predicate HasReservation(p: Producer) {
    || p.StoreSeq? || p.StoreHead? || p.StoreMask? || p.StoreNext? || p.Filling?
    || p.AbortMask? || p.AbortState? || p.AbortNext? || p.Abandoned? || p.Recovering?
  }

  // The sequence that will be committed next, unless it is aborted or abandoned.
  function Frontier(s: State): nat {
    if HasReservation(s.prod) then s.prod.r.pub.sn else s.next
  }

  // What a step does to the actor's own state ...
  function ActorAfter(s: State, t: ConsumerStep): Consumer
    requires ConsumerCan(s, t)
  {
    var x := s.cons[t.c];
    match t
    case Register(c) => Consumer(Live, s.next - 1, s.next - 1, [], map[], Out)
    case CallNext(c) => x.(pc := ScanState(Scan(s.word, Frontier(s), 0, Frontier(s), None, None, 0)))
    case LoadWord(c, w) =>
      x.(pc := CheckHead(x.pc.ck, x.pc.words[w := s.slots[x.pc.ck.cand.slot].head[w]]))
    case Advance(c) =>
      if x.pc.CheckMask2? then Taken(s, c)
      else if x.pc.ReleaseMask? then Released(s, c)
      else x.(pc := NextPc(s, c))
    case Wake(c) => x.(pc := Out)
    case CallRelease(c, q) => x.(pc := ReleaseSeq(q))
    case Leave(c) => x.(status := Gone)
    case DropBit(c, i) => x
    case FreeEntry(c) => ABSENT
  }

  // ... and to what everybody shares.
  function SharedAfter(s: State, t: ConsumerStep): State
    requires ConsumerCan(s, t)
  {
    if t.Register? then
      s.(active := s.active + {t.c}, late := s.late + {t.c},
         sent := if t.c < |s.sent| then s.sent[t.c := []] else s.sent)
    else if t.FreeEntry? then s.(active := s.active - {t.c})
    else if t.DropBit? then DropBitIn(s, t.c, t.i)
    else if t.Advance? && s.cons[t.c].pc.ReleaseMask? then
      DropBitIn(s, t.c, s.cons[t.c].leases[s.cons[t.c].pc.q].slot)
    else s
  }

  function DropBitIn(s: State, c: nat, i: nat): State
    requires i < |s.slots|
  {
    SetSlot(s, i, s.slots[i].(mask := s.slots[i].mask - {c}))
  }

  function ConsumerDo(s: State, t: ConsumerStep): State
    requires ConsumerCan(s, t)
  {
    SetConsumer(SharedAfter(s, t), t.c, ActorAfter(s, t))
  }

  // The candidate kept by scan_oldest after it has read sequence `q` in slot `i`.
  function Older(cur: Option<Candidate>, q: nat, i: nat): Option<Candidate> {
    if cur.Some? && !(cur.value.sn > q) then cur else Some(Candidate(q, i))
  }

  // What try_take does at the end of one pass over the slots.
  function EndPass(sc: Scan, frontier: nat, slots: nat): Pc {
    if sc.prev.None? then
      if sc.cur.None? then Asleep(sc.obs, sc.f0)
      else ScanState(Scan(sc.obs, sc.f0, 1, frontier, sc.cur, None, 0))
    else if sc.cur.Some? && sc.prev.value.sn > sc.cur.value.sn then
      if sc.pass < slots then ScanState(Scan(sc.obs, sc.f0, sc.pass + 1, frontier, sc.cur, None, 0))
      else CheckState1(Check(sc.obs, sc.f0, sc.cur.value))
    else CheckState1(Check(sc.obs, sc.f0, sc.prev.value))
  }

  function Refuse(ck: Check): Pc { Asleep(ck.obs, ck.f0) }

  // The last load of read_validated: a lease if every check passed.
  function Taken(s: State, c: nat): Consumer
    requires IsLive(s, c) && s.cons[c].pc.CheckMask2? && CanAdvance(s, s.cons[c])
  {
    var x := s.cons[c];
    var ck, words := x.pc.ck, x.pc.words;
    if x.pc.bit && c in s.slots[ck.cand.slot].mask
       && ReadableHead(words[W_NDIM], words[W_NBYTES], words[W_DTYPE], s.cap) then
      x.(last := ck.cand.sn, got := x.got + [ck.cand.sn],
         leases := x.leases[ck.cand.sn := Lease(ck.cand.slot, words)], pc := Out)
    else x.(pc := Refuse(ck))
  }

  // The fetch_and of a release.
  function Released(s: State, c: nat): Consumer
    requires IsLive(s, c) && s.cons[c].pc.ReleaseMask? && CanAdvance(s, s.cons[c])
  {
    var x := s.cons[c];
    if c in s.slots[x.leases[x.pc.q].slot].mask then x.(leases := x.leases - {x.pc.q}, pc := Out)
    else x.(pc := Violated)
  }

  // Every other step is a load that only moves the program counter.
  function NextPc(s: State, c: nat): Pc
    requires IsLive(s, c) && CanAdvance(s, s.cons[c]) && !s.cons[c].pc.CheckMask2? && !s.cons[c].pc.ReleaseMask?
  {
    var x := s.cons[c];
    match x.pc
    case ScanState(sc) =>
      if sc.i == |s.slots| then EndPass(sc, Frontier(s), |s.slots|)
      else if s.slots[sc.i].state.Committed? then ScanMask(sc)
      else ScanState(sc.(i := sc.i + 1))
    case ScanMask(sc) =>
      if c in s.slots[sc.i].mask then ScanSeq(sc) else ScanState(sc.(i := sc.i + 1))
    case ScanSeq(sc) =>
      var q := s.slots[sc.i].sn;
      if q > x.last then ScanState(sc.(cur := Older(sc.cur, q, sc.i), i := sc.i + 1))
      else ScanState(sc.(i := sc.i + 1))
    case CheckState1(ck) => if s.slots[ck.cand.slot].state.Committed? then CheckSeq1(ck) else Refuse(ck)
    case CheckSeq1(ck) => if s.slots[ck.cand.slot].sn == ck.cand.sn then CheckHead(ck, map[]) else Refuse(ck)
    case CheckHead(ck, words) => CheckMask1(ck, words)
    case CheckMask1(ck, words) => CheckState2(ck, words, c in s.slots[ck.cand.slot].mask)
    case CheckState2(ck, words, bit) =>
      if s.slots[ck.cand.slot].state.Committed? then CheckSeq2(ck, words, bit) else Refuse(ck)
    case CheckSeq2(ck, words, bit) =>
      if s.slots[ck.cand.slot].sn == ck.cand.sn then CheckMask2(ck, words, bit) else Refuse(ck)
    case ReleaseSeq(q) => if s.slots[x.leases[q].slot].sn == q then ReleaseMask(q) else Violated
  }

  // ---- runs -----------------------------------------------------------------

  predicate Can(s: State, t: Step) {
    match t
    case ByProducer(p) => ProducerCan(s, p)
    case ByConsumer(a) => ConsumerCan(s, a)
  }

  function Do(s: State, t: Step): State
    requires Can(s, t)
  {
    match t
    case ByProducer(p) => ProducerDo(s, p)
    case ByConsumer(a) => ConsumerDo(s, a)
  }

  // Run(s, ts, s'): performing ts from s is possible and ends in s'.
  ghost predicate Run(s: State, ts: seq<Step>, s': State)
    decreases |ts|
  {
    if ts == [] then s' == s
    else Can(s, ts[0]) && Run(Do(s, ts[0]), ts[1..], s')
  }
}
