/**
 The production ring with each public operation taken as one atomic transition on a
 value.  Class Ring in module ProductionRing is proved to perform these
 transitions in place; here stand the results about them.
 */
module RingSpec {
  import opened Basics
  import opened TenzorCore

  datatype SlotState = Free | Committed | Writing

  datatype Tensor = Tensor(head: seq<nat>, data: seq<nat>)

  // `readers` is the u16 the reference reads; `pid` is the producer that reserved.
  datatype Slot = Slot(state: SlotState, sn: nat, mask: set<nat>, readers: nat, pid: nat, tensor: Tensor)

  datatype Entry = Entry(active: bool, pid: nat, generation: nat)

  datatype RingValue = RingValue(slots: seq<Slot>, entries: seq<Entry>, next: nat, consumers: nat,
                                 published: nat, dropped: nat, reaped: nat)

  // ---- registry and masks ---------------------------------------------------

  function Active(v: RingValue): (a: set<nat>)
    ensures forall c: nat :: c in a <==> c < |v.entries| && v.entries[c].active
  {
    set c: nat | c < |v.entries| && v.entries[c].active
  }

  function ClearBit(x: Slot, c: nat): Slot {
    if c in x.mask then x.(mask := x.mask - {c}, readers := |x.mask - {c}|) else x
  }

  function DropBit(v: RingValue, c: nat): RingValue {
    v.(slots := seq(|v.slots|, i requires 0 <= i < |v.slots| => ClearBit(v.slots[i], c)))
  }

  // Whether dropping the bit leaves some slot it was set in without readers.
  ghost predicate FreesAny(v: RingValue, c: nat) {
    exists i: nat :: i < |v.slots| && v.slots[i].mask == {c}
  }

  function Minus1(n: nat): nat { if n == 0 then 0 else n - 1 }

  // ---- liveness sweep -------------------------------------------------------

  // The entry belongs to a process other than `me` that is no longer running.
  predicate EntryDead(e: Entry, me: nat, alive: set<nat>) {
    e.active && e.pid != me && e.pid !in alive
  }

  predicate WriterDead(x: Slot, me: nat, alive: set<nat>) {
    x.state.Writing? && x.pid != me && x.pid !in alive
  }

  function ReapEntry(v: RingValue, c: nat): RingValue
    requires c < |v.entries|
  {
    var e := v.entries[c];
    DropBit(v, c).(entries := v.entries[c := e.(active := false, generation := e.generation + 1)],
                   consumers := Minus1(v.consumers), reaped := v.reaped + 1)
  }

  // The first k registry entries swept.
  function ReapEntries(v: RingValue, me: nat, alive: set<nat>, k: nat): (v': RingValue)
    requires k <= |v.entries|
    ensures |v'.entries| == |v.entries| && |v'.slots| == |v.slots|
    ensures forall c: nat :: k <= c < |v.entries| ==> v'.entries[c] == v.entries[c]
  {
    if k == 0 then v
    else
      var w := ReapEntries(v, me, alive, k - 1);
      if EntryDead(w.entries[k - 1], me, alive) then ReapEntry(w, k - 1) else w
  }

  function ReapSlot(x: Slot, me: nat, alive: set<nat>): Slot {
    if WriterDead(x, me, alive) then x.(state := Free, mask := {}, readers := 0) else x
  }

  function ReapSlots(v: RingValue, me: nat, alive: set<nat>): RingValue {
    v.(slots := seq(|v.slots|, i requires 0 <= i < |v.slots| => ReapSlot(v.slots[i], me, alive)))
  }

  function Reap(v: RingValue, me: nat, alive: set<nat>): RingValue {
    ReapSlots(ReapEntries(v, me, alive, |v.entries|), me, alive)
  }

  // ---- reserving ------------------------------------------------------------

  predicate Usable(x: Slot) {
    x.state.Free? || (x.state.Committed? && x.mask == {})
  }

  // The first free slot, or with none free the unclaimed slot committed longest ago.
  ghost predicate Selected(v: RingValue, i: nat) {
    && i < |v.slots| && Usable(v.slots[i])
    && (v.slots[i].state.Free? ==> forall j: nat :: j < i ==> !v.slots[j].state.Free?)
    && (!v.slots[i].state.Free? ==>
          && (forall j: nat :: j < |v.slots| ==> !v.slots[j].state.Free?)
          && (forall j: nat :: j < |v.slots| && Usable(v.slots[j]) ==> v.slots[i].sn <= v.slots[j].sn)
          && (forall j: nat :: j < i && Usable(v.slots[j]) ==> v.slots[i].sn < v.slots[j].sn))
  }

  ghost predicate Chooses(v: RingValue, choice: Option<nat>) {
    match choice
    case None => forall j: nat :: j < |v.slots| ==> !Usable(v.slots[j])
    case Some(i) => Selected(v, i)
  }

  function Reserve(v: RingValue, i: nat, head: seq<nat>, me: nat): RingValue
    requires i < |v.slots|
  {
    var x := v.slots[i].(state := Writing, sn := v.next, mask := Active(v), readers := |Active(v)|,
                         pid := me, tensor := v.slots[i].tensor.(head := head));
    v.(slots := v.slots[i := x], next := v.next + 1)
  }

  function Refused(v: RingValue, drop: bool): RingValue {
    if drop then v.(dropped := v.dropped + 1) else v
  }

  function Fill(v: RingValue, i: nat, data: seq<nat>): RingValue
    requires i < |v.slots|
  {
    v.(slots := v.slots[i := v.slots[i].(tensor := v.slots[i].tensor.(data := data))])
  }

  function Commit(v: RingValue, i: nat): RingValue
    requires i < |v.slots|
  {
    v.(slots := v.slots[i := v.slots[i].(state := Committed)], published := v.published + 1)
  }

  // Give slot i back; the sequence returns to the counter only if it was the newest.
  function Abort(v: RingValue, i: nat, q: nat): RingValue
    requires i < |v.slots|
  {
    v.(slots := v.slots[i := v.slots[i].(state := Free, mask := {}, readers := 0)],
       next := if v.next == q + 1 then q else v.next)
  }

  // ---- consumers ------------------------------------------------------------

  ghost predicate FirstFreeEntry(v: RingValue, c: nat) {
    && c < |v.entries| && !v.entries[c].active
    && (forall d: nat :: d < c ==> v.entries[d].active)
  }

  function Register(v: RingValue, c: nat, me: nat): RingValue
    requires c < |v.entries|
  {
    v.(entries := v.entries[c := Entry(true, me, v.entries[c].generation + 1)], consumers := v.consumers + 1)
  }

  function Close(v: RingValue, c: nat): RingValue
    requires c < |v.entries|
  {
    DropBit(v, c).(entries := v.entries[c := v.entries[c].(active := false)], consumers := Minus1(v.consumers))
  }

  predicate Candidate(v: RingValue, c: nat, last: nat, i: nat) {
    i < |v.slots| && v.slots[i].state.Committed? && c in v.slots[i].mask && v.slots[i].sn > last
  }

  ghost predicate Oldest(v: RingValue, c: nat, last: nat, i: nat) {
    && Candidate(v, c, last, i)
    && (forall j: nat :: Candidate(v, c, last, j) ==> v.slots[i].sn <= v.slots[j].sn)
  }

  // What one attempt of `next` may answer.
  ghost predicate Takes(v: RingValue, c: nat, last: nat, answer: Option<nat>) {
    match answer
    case None => forall j: nat :: !Candidate(v, c, last, j)
    case Some(i) => Oldest(v, c, last, i)
  }

  datatype ReleaseError = Recycled | ReleasedTwice

  function Release(v: RingValue, c: nat, i: nat, q: nat): Result<RingValue, ReleaseError>
    requires i < |v.slots|
  {
    if v.slots[i].sn != q then Err(Recycled)
    else if c !in v.slots[i].mask then Err(ReleasedTwice)
    else Ok(v.(slots := v.slots[i := ClearBit(v.slots[i], c)]))
  }

  // ---- what every operation keeps -------------------------------------------

  ghost predicate Sound(v: RingValue) {
    && |v.slots| >= 2 && |v.entries| == MAX_CONSUMERS && v.next >= 1
    && v.consumers == |Active(v)|
    && (forall i: nat :: i < |v.slots| ==> SlotSound(v, v.slots[i]))
    && (forall i: nat, j: nat :: i < j < |v.slots| && !v.slots[i].state.Free? && !v.slots[j].state.Free? ==>
          v.slots[i].sn != v.slots[j].sn)
  }

  ghost predicate SlotSound(v: RingValue, x: Slot) {
    && x.mask <= Active(v)
    && x.readers == |x.mask|
    && (!x.state.Free? ==> x.sn < v.next)
    && (x.state.Free? ==> x.mask == {})
  }
}
