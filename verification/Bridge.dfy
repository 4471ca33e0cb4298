/**
 The media bridge: BusSink turns the engine's callbacks into reservations, commits,
 copies and aborts.  The ring is reduced to what the sink can tell of it: which sequence a
 publication gets, in which slot (chosen by the ring, a parameter here), or a refusal.
 */
module Bridge {
  import opened Basics

  datatype Reservation = Reservation(sequence: nat, slot: nat)

  // The producer role.  `log` is what it has committed, `writers` its open reservations.
  class Producer {
    var next: nat
    ghost var log: seq<Reservation>
    ghost var writers: set<Reservation>

    constructor (first: nat)
      ensures next == first && log == [] && writers == {}
    {
      next := first;
      log, writers := [], {};
    }

    method Reserve(room: Option<nat>) returns (r: Option<Reservation>)
      modifies this
      ensures room.None? ==> r.None? && next == old(next) && writers == old(writers)
      ensures room.Some? ==> r == Some(Reservation(old(next), room.value)) && next == old(next) + 1
                             && writers == old(writers) + {r.value}
      ensures log == old(log)
    {
      if room.None? {
        return None;
      }
      var w := Reservation(next, room.value);
      next := next + 1;
      writers := writers + {w};
      r := Some(w);
    }

    method Commit(w: Reservation)
      requires w in writers
      modifies this
      ensures next == old(next) && log == old(log) + [w] && writers == old(writers) - {w}
    {
      log, writers := log + [w], writers - {w};
    }

    // The compare-exchange returns the sequence only when it is the newest.
    method Abort(w: Reservation)
      requires w in writers
      modifies this
      ensures next == (if old(next) == w.sequence + 1 then w.sequence else old(next))
      ensures log == old(log) && writers == old(writers) - {w}
    {
      if next == w.sequence + 1 {
        next := w.sequence;
      }
      writers := writers - {w};
    }
  }

  datatype SinkError = WrongLength | RingFull | TensorAndDestination | NeitherTensorNorDestination

  class BusSink {
    const producer: Producer
    const len: nat
    const direct: bool
    const base: nat
    var pending: Option<Reservation>
    var published: nat
    var destinationsTaken: nat
    var copied: nat
    var slotTrace: seq<Reservation>
    var firstSequence: Option<nat>
    var lastSequence: nat
    ghost var committed: nat

    // At most one reservation is open and it is the pending one; the trace is what was
    // published, with consecutive sequences; nothing was published except by one of the
    // two paths.
    ghost predicate Valid()
      reads this, producer
    {
      && producer.writers == (if pending.Some? then {pending.value} else {})
      && producer.log == slotTrace
      && published == |slotTrace| == committed + copied
      && (forall k :: 0 <= k < |slotTrace| ==> slotTrace[k].sequence == base + k)
      && producer.next == base + |slotTrace| + (if pending.Some? then 1 else 0)
      && (pending.Some? ==> pending.value.sequence == base + |slotTrace|)
      && firstSequence == (if slotTrace == [] then None else Some(base))
      && (slotTrace != [] ==> lastSequence == base + |slotTrace| - 1)
    }

    constructor (p: Producer, floats: nat, inPlace: bool)
      requires p.writers == {} && p.log == []
      ensures Valid() && fresh(this) && producer == p && len == floats && direct == inPlace
      ensures base == p.next && pending.None? && slotTrace == [] && copied == 0 && destinationsTaken == 0
    {
      producer, len, direct, base := p, floats, inPlace, p.next;
      pending, published, destinationsTaken, copied := None, 0, 0, 0;
      slotTrace, firstSequence, lastSequence := [], None, 0;
      committed := 0;
    }

    // Offer a slot to fill in place.  If a destination is still pending when another is
    // given, the earlier writer is dropped with a newer reservation open, so the number it
    // held is lost and consecutive numbering ends.
    method VideoDestination(floats: nat, room: Option<nat>) returns (r: Result<bool, SinkError>)
      requires Valid()
      modifies this, producer
      ensures slotTrace == old(slotTrace) && copied == old(copied) && published == old(published)
      ensures destinationsTaken == old(destinationsTaken) + if r == Ok(true) then 1 else 0
      ensures r == (if !direct then Ok(false) else if floats != len then Err(WrongLength)
                    else if room.None? then Err(RingFull) else Ok(true))
      ensures Valid() <==> r != Ok(true) || old(pending).None?
      ensures r != Ok(true) ==> pending == old(pending)
      ensures r == Ok(true) ==>
                && pending == Some(Reservation(old(producer.next), room.value))
                && producer.writers == {pending.value} && producer.log == slotTrace
                && producer.next == old(producer.next) + 1
    {
      if !direct {
        return Ok(false);
      }
      if floats != len {
        return Err(WrongLength);
      }
      var w := producer.Reserve(room);
      if w.None? {
        return Err(RingFull);
      }
      destinationsTaken := destinationsTaken + 1;
      var earlier := pending;
      pending := w;
      if earlier.Some? {
        producer.Abort(earlier.value);
      }
      r := Ok(true);
    }

    method Record(w: Reservation)
      modifies this`slotTrace, this`firstSequence, this`lastSequence, this`published
      ensures slotTrace == old(slotTrace) + [w] && published == old(published) + 1
      ensures firstSequence == (if old(firstSequence).None? then Some(w.sequence) else old(firstSequence))
      ensures lastSequence == w.sequence
    {
      slotTrace := slotTrace + [w];
      if firstSequence.None? {
        firstSequence := Some(w.sequence);
      }
      lastSequence := w.sequence;
      published := published + 1;
    }

    // An epoch is complete: in the slot handed out, or as a tensor to be copied.
    method EpochReady(tensor: bool, room: Option<nat>) returns (r: Result<(), SinkError>)
      requires Valid()
      modifies this, producer
      ensures Valid() && pending.None? && destinationsTaken == old(destinationsTaken)
      ensures r == (if tensor then
                      if old(pending).Some? then Err(TensorAndDestination) else if room.None? then Err(RingFull) else Ok(())
                    else if old(pending).Some? then Ok(()) else Err(NeitherTensorNorDestination))
      ensures r.Ok? ==> slotTrace == old(slotTrace) + [if tensor then Reservation(base + |old(slotTrace)|, room.value)
                                                       else old(pending).value]
      ensures r.Ok? ==> copied == old(copied) + (if tensor then 1 else 0)
      ensures r.Err? ==> slotTrace == old(slotTrace) && copied == old(copied)
    {
      var taken := pending;
      pending := None;
      if taken.Some? && !tensor {
        producer.Commit(taken.value);
        committed := committed + 1;
        Record(taken.value);
        return Ok(());
      }
      if taken.None? && tensor {
        var w := producer.Reserve(room);
        if w.None? {
          return Err(RingFull);
        }
        producer.Commit(w.value);
        copied := copied + 1;
        Record(w.value);
        return Ok(());
      }
      if taken.Some? {
        producer.Abort(taken.value);
        return Err(TensorAndDestination);
      }
      r := Err(NeitherTensorNorDestination);
    }

    method AbortEpoch()
      requires Valid()
      modifies this, producer
      ensures Valid() && pending.None? && slotTrace == old(slotTrace) && copied == old(copied)
      ensures destinationsTaken == old(destinationsTaken)
    {
      if pending.Some? {
        var w := pending.value;
        pending := None;
        producer.Abort(w);
      }
    }
  }

  // One decoded picture: how many epochs it completes, whether decoding into a destination
  // fails, whether the engine's own handling of the epoch fails before the sink is told,
  // and what the ring answers to each reservation it causes.
  datatype Picture = Picture(epochs: nat, broken: bool, emitFails: bool, rooms: seq<Option<nat>>)

  function Room(p: Picture, k: nat): Option<nat> {
    if k < |p.rooms| then p.rooms[k] else None
  }

  function Epochs(ps: seq<Picture>): nat {
    if ps == [] then 0 else ps[0].epochs + Epochs(ps[1..])
  }

  // ---- what a run should publish, picture by picture -------------------------

  // The picture is decoded straight into a slot.
  predicate InPlace(direct: bool, p: Picture) { direct && p.epochs == 1 }

  // Nothing goes wrong with the picture.
  ghost predicate Fine(direct: bool, p: Picture) {
    && (p.epochs > 0 ==> !p.emitFails)
    && (InPlace(direct, p) ==> !p.broken)
    && (forall k: nat :: k < p.epochs ==> Room(p, k).Some?)
  }

  // How many of its epochs, from the k-th on, find room before the first that does not.
  function Roomy(p: Picture, k: nat): (n: nat)
    requires k <= p.epochs
    ensures k <= n <= p.epochs && (forall j: nat :: k <= j < n ==> Room(p, j).Some?)
    ensures n < p.epochs ==> Room(p, n).None?
    decreases p.epochs - k
  {
    if k < p.epochs && Room(p, k).Some? then Roomy(p, k + 1) else k
  }

  // How many destinations a run takes: one for each picture decoded in place that found room.
  ghost function Offers(direct: bool, ps: seq<Picture>): nat {
    if ps == [] then 0
    else (if InPlace(direct, ps[0]) && Room(ps[0], 0).Some? then 1 else 0)
         + if Fine(direct, ps[0]) then Offers(direct, ps[1..]) else 0
  }

  datatype Publication = InPlaceAt(slot: nat) | CopiedTo(slot: nat)

  // What comes of one picture: all of its epochs, or those before what goes wrong.
  ghost function Outcome(direct: bool, p: Picture): seq<Publication> {
    if InPlace(direct, p) then if Fine(direct, p) then [InPlaceAt(Room(p, 0).value)] else []
    else if p.emitFails then []
    else seq(Roomy(p, 0), k requires 0 <= k < Roomy(p, 0) => CopiedTo(Room(p, k).value))
  }

  // What comes of a run: it ends with the first picture with which something goes wrong.
  ghost function Expected(direct: bool, ps: seq<Picture>): seq<Publication> {
    if ps == [] then []
    else if Fine(direct, ps[0]) then Outcome(direct, ps[0]) + Expected(direct, ps[1..])
    else Outcome(direct, ps[0])
  }

  function Copies(xs: seq<Publication>): nat {
    if xs == [] then 0 else Copies(xs[..|xs| - 1]) + if xs[|xs| - 1].CopiedTo? then 1 else 0
  }

  // The sink has published exactly xs, each epoch under the next sequence.
  ghost predicate HasPublished(sink: BusSink, xs: seq<Publication>, copiedBefore: nat)
    reads sink
  {
    && |sink.slotTrace| == |xs| && sink.copied == copiedBefore + Copies(xs)
    && (forall k :: 0 <= k < |xs| ==> sink.slotTrace[k] == Reservation(sink.base + k, xs[k].slot))
  }

  lemma OneCopyMore(xs: seq<Publication>, x: Publication)
    ensures Copies(xs + [x]) == Copies(xs) + if x.CopiedTo? then 1 else 0
  {
    assert (xs + [x])[..|xs|] == xs;
  }

  // The pictures from n on, when picture n is fine.
  lemma FinePicture(direct: bool, ps: seq<Picture>, n: nat)
    requires n < |ps|
    ensures Expected(direct, ps[n..]) == Outcome(direct, ps[n]) +
              if Fine(direct, ps[n]) then Expected(direct, ps[n + 1..]) else []
    ensures Offers(direct, ps[n..]) == (if InPlace(direct, ps[n]) && Room(ps[n], 0).Some? then 1 else 0) +
              if Fine(direct, ps[n]) then Offers(direct, ps[n + 1..]) else 0
  {
    assert ps[n..][1..] == ps[n + 1..] && ps[n..][0] == ps[n];
  }

  // A fine picture comes to one publication for each of its epochs.
  lemma FineOutcome(direct: bool, p: Picture)
    requires Fine(direct, p)
    ensures |Outcome(direct, p)| == p.epochs
  {
  }

  // One epoch handed over as a tensor.
  method HandOverOne(sink: BusSink, room: Option<nat>, ghost done: seq<Publication>, ghost copied: nat) returns (ok: bool)
    requires sink.Valid() && sink.pending.None? && HasPublished(sink, done, copied)
    modifies sink, sink.producer
    ensures sink.Valid() && sink.pending.None? && sink.destinationsTaken == old(sink.destinationsTaken)
    ensures ok <==> room.Some?
    ensures HasPublished(sink, if ok then done + [CopiedTo(room.value)] else done, copied)
  {
    var r := sink.EpochReady(true, room);
    if r.Ok? {
      OneCopyMore(done, CopiedTo(room.value));
    }
    ok := r.Ok?;
  }

  // The first k epochs of a picture handed over as tensors all found room: what the next brings.
  lemma NextEpoch(direct: bool, p: Picture, k: nat)
    requires !InPlace(direct, p) && !p.emitFails && k < p.epochs && k <= |Outcome(direct, p)|
    ensures var outcome := Outcome(direct, p);
            if Room(p, k).Some? then k < |outcome| && outcome[..k + 1] == outcome[..k] + [CopiedTo(Room(p, k).value)]
            else outcome[..k] == outcome && !Fine(direct, p)
  {
  }

  lemma Append(done: seq<Publication>, some: seq<Publication>, x: Publication)
    ensures done + (some + [x]) == (done + some) + [x]
  {
  }

  // The epochs of one picture, each handed over as a tensor.
  method HandOver(sink: BusSink, p: Picture, first: nat, ghost done: seq<Publication>, ghost copied: nat)
      returns (ok: bool, epoch: nat)
    requires sink.Valid() && sink.pending.None? && !InPlace(sink.direct, p) && HasPublished(sink, done, copied)
    modifies sink, sink.producer
    ensures sink.Valid() && sink.pending.None? && sink.destinationsTaken == old(sink.destinationsTaken)
    ensures ok <==> Fine(sink.direct, p)
    ensures HasPublished(sink, done + Outcome(sink.direct, p), copied)
    ensures epoch == first + |Outcome(sink.direct, p)|
  {
    ghost var outcome := Outcome(sink.direct, p);
    ghost var some: seq<Publication> := [];
    epoch := first;
    assert done + [] == done;
    var k := 0;
    while k < p.epochs
      invariant 0 <= k <= p.epochs && k <= |outcome| && (k > 0 ==> !p.emitFails)
      invariant sink.Valid() && sink.pending.None? && sink.destinationsTaken == old(sink.destinationsTaken)
      invariant some == outcome[..k] && HasPublished(sink, done + some, copied) && epoch == first + k
    {
      if p.emitFails {
        return false, epoch;
      }
      NextEpoch(sink.direct, p, k);
      ok := HandOverOne(sink, Room(p, k), done + some, copied);
      if !ok {
        return false, epoch;
      }
      Append(done, some, outcome[k]);
      some := some + [outcome[k]];
      epoch := epoch + 1;
      k := k + 1;
    }
    AllEpochs(sink.direct, p);
    ok := true;
  }

  lemma AllEpochs(direct: bool, p: Picture)
    requires !InPlace(direct, p) && p.epochs <= |Outcome(direct, p)|
    ensures Fine(direct, p) && Outcome(direct, p)[..p.epochs] == Outcome(direct, p)
  {
  }

  // One picture: offered a destination if it completes exactly one epoch.
  method DecodePicture(sink: BusSink, p: Picture, first: nat, ghost done: seq<Publication>, ghost copied: nat)
      returns (ok: bool, epoch: nat)
    requires sink.Valid() && sink.pending.None? && HasPublished(sink, done, copied)
    modifies sink, sink.producer
    ensures sink.Valid() && (ok ==> sink.pending.None?)
    ensures ok <==> Fine(sink.direct, p)
    ensures HasPublished(sink, done + Outcome(sink.direct, p), copied)
    ensures epoch == first + |Outcome(sink.direct, p)|
    ensures sink.destinationsTaken == old(sink.destinationsTaken) +
              if InPlace(sink.direct, p) && Room(p, 0).Some? then 1 else 0
  {
    ghost var outcome := Outcome(sink.direct, p);
    assert done + [] == done;
    var filled := false;
    if p.epochs == 1 {
      var offer := sink.VideoDestination(sink.len, Room(p, 0));
      if offer.Err? {
        return false, first;
      }
      filled := offer.value;
      if filled && p.broken {
        // The decode error leaves the callback loop with the destination still taken.
        return false, first;
      }
    }
    if filled && p.emitFails {
      sink.AbortEpoch();
      return false, first;
    } else if filled {
      var r := sink.EpochReady(false, None);
      assert outcome == [InPlaceAt(Room(p, 0).value)];
      OneCopyMore(done, outcome[0]);
      return true, first + 1;
    }
    ok, epoch := HandOver(sink, p, first, done, copied);
  }

  lemma {:induction false} FineRun(direct: bool, ps: seq<Picture>)
    requires forall n :: 0 <= n < |ps| ==> Fine(direct, ps[n])
    ensures |Expected(direct, ps)| == Epochs(ps)
  {
    if ps != [] {
      FineOutcome(direct, ps[0]);
      FineRun(direct, ps[1..]);
    }
  }

  lemma Regroup(all: seq<Publication>, done: seq<Publication>, outcome: seq<Publication>, rest: seq<Publication>)
    requires all == done + (outcome + rest)
    ensures all == (done + outcome) + rest
    ensures rest == [] ==> all == done + outcome
  {
  }

  // The engine's loop over pictures.
  method Decode(sink: BusSink, pictures: seq<Picture>) returns (ok: bool, epoch: nat)
    requires sink.Valid() && sink.pending.None? && sink.slotTrace == []
    modifies sink, sink.producer
    ensures sink.Valid() && |sink.producer.writers| <= 1
    ensures sink.published == epoch == |sink.slotTrace|
    ensures ok <==> forall n :: 0 <= n < |pictures| ==> Fine(sink.direct, pictures[n])
    ensures HasPublished(sink, Expected(sink.direct, pictures), old(sink.copied))
    ensures sink.destinationsTaken == old(sink.destinationsTaken) + Offers(sink.direct, pictures)
    ensures ok ==> epoch == Epochs(pictures) && sink.pending.None? && sink.producer.next == sink.base + epoch
  {
    epoch := 0;
    ghost var done: seq<Publication> := [];
    ghost var rest := Expected(sink.direct, pictures);
    ghost var copied := sink.copied;
    assert pictures[0..] == pictures;
    var n := 0;
    while n < |pictures|
      invariant 0 <= n <= |pictures|
      invariant sink.Valid() && sink.pending.None? && epoch == |done|
      invariant forall j :: 0 <= j < n ==> Fine(sink.direct, pictures[j])
      invariant HasPublished(sink, done, copied)
      invariant rest == Expected(sink.direct, pictures[n..])
      invariant Expected(sink.direct, pictures) == done + rest
      invariant sink.destinationsTaken + Offers(sink.direct, pictures[n..]) ==
                  old(sink.destinationsTaken) + Offers(sink.direct, pictures)
    {
      FinePicture(sink.direct, pictures, n);
      ghost var outcome := Outcome(sink.direct, pictures[n]);
      ghost var next := if Fine(sink.direct, pictures[n]) then Expected(sink.direct, pictures[n + 1..]) else [];
      Regroup(Expected(sink.direct, pictures), done, outcome, next);
      ok, epoch := DecodePicture(sink, pictures[n], epoch, done, copied);
      if !ok {
        assert Expected(sink.direct, pictures) == done + outcome;
        return false, epoch;
      }
      done, rest := done + outcome, next;
      n := n + 1;
    }
    FineRun(sink.direct, pictures);
    assert pictures[n..] == [] && done + [] == done;
    ok := true;
  }
}
