/**
 What the one-writer hypothesis is for: the ring lets a second reservation be made while
 one is open, and here stands what then goes wrong, and exactly when.
 */
module TwoWriters {
  import opened RingSpec
  import opened RingResults
  import AQ = AtomicQueue

  // Two reservations, the second committed first, then the other.
  function BothCommitted(v: RingValue, i: nat, j: nat, head: seq<nat>, me: nat): RingValue
    requires i < |v.slots| && j < |v.slots|
  {
    Commit(Commit(Reserve(Reserve(v, i, head, me), j, head, me), j), i)
  }

  // Whatever it took before, a reader of both can take the older publication if and only if
  // it has not yet taken the newer; and once the newer is committed alone, that is what it
  // takes.
  lemma TwoWritersLoseAPublication(v: RingValue, i: nat, j: nat, c: nat, last: nat, mark: nat, me: nat, head: seq<nat>)
    requires Sound(v) && i < |v.slots| && j < |v.slots| && i != j
    requires Usable(v.slots[i]) && Usable(v.slots[j]) && c in Active(v) && last < v.next
    requires forall k: nat :: !Candidate(v, c, last, k)
    requires mark == last || mark == v.next + 1
    ensures var first := Commit(Reserve(Reserve(v, i, head, me), j, head, me), j);
            Oldest(first, c, last, j) && first.slots[j].sn == v.next + 1
    ensures var both := BothCommitted(v, i, j, head, me);
            && both.slots[i].state.Committed? && c in both.slots[i].mask && both.slots[i].sn == v.next
            && (Candidate(both, c, mark, i) <==> mark != v.next + 1)
            && (Candidate(both, c, mark, i) ==> Oldest(both, c, mark, i))
  {
    var r := Reserve(Reserve(v, i, head, me), j, head, me);
    var first, both := Commit(r, j), BothCommitted(v, i, j, head, me);
    assert Active(Reserve(v, i, head, me)) == Active(v);
    assert forall k: nat :: Candidate(first, c, last, k) && k != j && k != i ==> Candidate(v, c, last, k);
    assert forall k: nat :: Candidate(both, c, last, k) && k != j && k != i ==> Candidate(v, c, last, k);
  }

  // ---- a number that is never handed out -------------------------------------

  // The counter is past n, no open reservation can hand n back, and n is not published.
  ghost predicate Skipped(v: RingValue, n: nat) {
    && v.next > n
    && (forall k: nat :: k < |v.slots| && v.slots[k].state.Writing? ==> v.slots[k].sn > n)
    && (forall k: nat :: k < |v.slots| && v.slots[k].state.Committed? ==> v.slots[k].sn != n)
  }

  // Nothing the ring lets anybody do brings a skipped number back.
  lemma CallKeepsSkipped(s: AQ.State, t: AQ.Call, n: nat)
    requires AQ.Possible(s, t) && Skipped(s.ring, n)
    ensures Skipped(AQ.Do(s, t).ring, n)
  {
    if t.Sweep? {
      SweepRemovesExactlyTheDead(s.ring, t.pid, t.alive);
    }
  }

  ghost predicate AnyRun(s: AQ.State, ts: seq<AQ.Call>, s': AQ.State)
    decreases |ts|
  {
    if ts == [] then s' == s
    else AQ.Possible(s, ts[0]) && AnyRun(AQ.Do(s, ts[0]), ts[1..], s')
  }

  lemma {:induction false} SkippedForever(s: AQ.State, ts: seq<AQ.Call>, s': AQ.State, n: nat)
    requires AnyRun(s, ts, s') && Skipped(s.ring, n)
    ensures Skipped(s'.ring, n)
    decreases |ts|
  {
    if ts != [] {
      CallKeepsSkipped(s, ts[0], n);
      SkippedForever(AQ.Do(s, ts[0]), ts[1..], s', n);
    }
  }

  // The older of two reservations is aborted.  Its number is never handed out or published
  // in any continuation, if and only if the newer one was not aborted before it: then both
  // numbers go back.
  lemma TwoWritersLeaveAHole(v: RingValue, i: nat, j: nat, me: nat, head: seq<nat>, commit: bool,
                             marks: map<nat, nat>, ts: seq<AQ.Call>, s': AQ.State)
    requires Sound(v) && i < |v.slots| && j < |v.slots| && i != j
    requires Usable(v.slots[i]) && Usable(v.slots[j])
    requires forall k: nat :: k < |v.slots| ==> !v.slots[k].state.Writing?
    ensures var r := Reserve(Reserve(v, i, head, me), j, head, me);
            var newer := if commit then Commit(r, j) else r;
            AnyRun(AQ.State(Abort(newer, i, v.next), marks), ts, s') ==> Skipped(s'.ring, v.next)
    ensures var r := Reserve(Reserve(v, i, head, me), j, head, me);
            Abort(Abort(r, j, v.next + 1), i, v.next).next == v.next
  {
    var r := Reserve(Reserve(v, i, head, me), j, head, me);
    var a := Abort(if commit then Commit(r, j) else r, i, v.next);
    forall k: nat | k < |a.slots| && a.slots[k].state.Committed? && k != j ensures a.slots[k].sn != v.next {
      assert SlotSound(v, v.slots[k]);
    }
    if AnyRun(AQ.State(a, marks), ts, s') {
      SkippedForever(AQ.State(a, marks), ts, s', v.next);
    }
  }
}
