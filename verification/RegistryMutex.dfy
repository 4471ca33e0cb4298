/**
 The three-state futex mutex that guards the registry, at the granularity of single
 atomic operations on the lock word and the owner word.

 A process may die anywhere.  Stealing the lock from a dead owner is one guarded step here;
 the kernel's part is that FUTEX_WAIT compares and sleeps atomically, that FUTEX_WAKE wakes
 a sleeper if there is one, and that a sleeper may also wake by itself (time-out or
 spuriously).
 */
module RegistryMutex {

  datatype LockWord = Unlocked | Locked | Contended

  datatype Pc =
    | Outside
    | FirstTry      // about to compare-exchange UNLOCKED -> LOCKED
    | Swapping      // about to swap in CONTENDED
    | ToWait        // about to FUTEX_WAIT for CONTENDED
    | Asleep
    | Rechecking    // back from the wait
    | Naming        // got the lock, about to store itself as owner
    | Critical
    | Unnaming      // about to store 0 as owner
    | Unlocking     // about to swap in UNLOCKED
    | Waking        // the swap returned CONTENDED: a FUTEX_WAKE is owed
    | DeadNamed     // died holding the lock, with the owner word naming it
    | DeadNameless  // died holding the lock before naming itself or after unnaming
    | Dead

  // `owner` is the pid word, 0 for none; process p has pid p + 1.
  datatype State = State(word: LockWord, owner: nat, procs: seq<Pc>)

  predicate Initial(s: State) {
    s.word.Unlocked? && s.owner == 0 && forall p :: 0 <= p < |s.procs| ==> s.procs[p].Outside?
  }

  datatype Step =
    | Call(p: nat)
    | Exchange(p: nat)
    | Swap(p: nat)
    | Wait(p: nat)
    | WakeUp(p: nat)
    | Retry(p: nat)
    | Steal(p: nat)
    | StoreOwner(p: nat)
    | Finish(p: nat)
    | ClearOwner(p: nat)
    | Release(p: nat)
    | Wake(p: nat, sleeper: nat)
    | Die(p: nat)

  predicate IsDead(pc: Pc) { pc.DeadNamed? || pc.DeadNameless? || pc.Dead? }

  predicate At(s: State, p: nat, pc: Pc) { p < |s.procs| && s.procs[p] == pc }

  ghost predicate Can(s: State, t: Step) {
    match t
    case Call(p) => At(s, p, Outside)
    case Exchange(p) => At(s, p, FirstTry)
    case Swap(p) => At(s, p, Swapping)
    case Wait(p) => At(s, p, ToWait)
    case WakeUp(p) => At(s, p, Asleep)
    case Retry(p) => At(s, p, Rechecking)
    case Steal(p) =>
      && At(s, p, Rechecking) && !s.word.Unlocked?
      && s.owner != 0 && s.owner != p + 1 && s.owner <= |s.procs| && IsDead(s.procs[s.owner - 1])
    case StoreOwner(p) => At(s, p, Naming)
    case Finish(p) => At(s, p, Critical)
    case ClearOwner(p) => At(s, p, Unnaming)
    case Release(p) => At(s, p, Unlocking)
    case Wake(p, sleeper) =>
      && At(s, p, Waking)
      && (At(s, sleeper, Asleep) || (forall q: nat :: !At(s, q, Asleep)))
    case Die(p) => p < |s.procs| && !IsDead(s.procs[p])
  }

  function Move(s: State, p: nat, pc: Pc): State
    requires p < |s.procs|
  {
    s.(procs := s.procs[p := pc])
  }

  function Do(s: State, t: Step): State
    requires Can(s, t)
  {
    match t
    case Call(p) => Move(s, p, FirstTry)
    case Exchange(p) => if s.word.Unlocked? then Move(s, p, Naming).(word := Locked) else Move(s, p, Swapping)
    case Swap(p) => Move(s, p, if s.word.Unlocked? then Naming else ToWait).(word := Contended)
    case Wait(p) => Move(s, p, if s.word.Contended? then Asleep else Rechecking)
    case WakeUp(p) => Move(s, p, Rechecking)
    case Retry(p) => Move(s, p, Swapping)
    case Steal(p) => Move(Move(s, s.owner - 1, Dead), p, Critical).(owner := p + 1, word := Contended)
    case StoreOwner(p) => Move(s, p, Critical).(owner := p + 1)
    case Finish(p) => Move(s, p, Unnaming)
    case ClearOwner(p) => Move(s, p, Unlocking).(owner := 0)
    case Release(p) => Move(s, p, if s.word.Contended? then Waking else Outside).(word := Unlocked)
    case Wake(p, sleeper) =>
      if At(s, sleeper, Asleep) then Move(Move(s, p, Outside), sleeper, Rechecking) else Move(s, p, Outside)
    case Die(p) => Move(s, p, Corpse(s.procs[p]))
  }

  function Corpse(pc: Pc): Pc {
    if Named(pc) then DeadNamed else if Holds(pc) then DeadNameless else Dead
  }

  predicate Holds(pc: Pc) {
    pc.Naming? || pc.Critical? || pc.Unnaming? || pc.Unlocking? || pc.DeadNamed? || pc.DeadNameless?
  }

  // A waiter that is not asleep: it will put CONTENDED back before it sleeps again.
  predicate AwakeWaiter(pc: Pc) {
    pc.Swapping? || pc.ToWait? || pc.Rechecking?
  }

  ghost predicate Inv(s: State) {
    && HolderOk(s)
    && (s.owner != 0 ==> s.owner <= |s.procs| && Named(s.procs[s.owner - 1]))
    && (forall p: nat :: p < |s.procs| && Named(s.procs[p]) ==> s.owner == p + 1)
  }

  predicate Named(pc: Pc) { pc.Critical? || pc.Unnaming? || pc.DeadNamed? }

  // Nobody sleeps unnoticed.
  ghost predicate Noticed(s: State) {
    (exists p: nat :: At(s, p, Asleep)) ==>
      || s.word.Contended?
      || (exists p: nat :: p < |s.procs| && AwakeWaiter(s.procs[p]))
      || (exists p: nat :: At(s, p, Waking))
  }

  ghost predicate Run(s: State, ts: seq<Step>, s': State)
    decreases |ts|
  {
    if ts == [] then s' == s
    else Can(s, ts[0]) && Run(Do(s, ts[0]), ts[1..], s')
  }

  predicate Takes(s: State, t: Step) {
    (t.Exchange? || t.Swap?) && s.word.Unlocked?
  }

  ghost predicate OnlyHolder(s: State, p: nat) {
    && p < |s.procs| && Holds(s.procs[p]) && !s.word.Unlocked?
    && forall r: nat :: r < |s.procs| && r != p ==> !Holds(s.procs[r])
  }

  ghost predicate NoHolder(s: State) {
    s.word.Unlocked? && forall r: nat :: r < |s.procs| ==> !Holds(s.procs[r])
  }

  ghost predicate HolderOk(s: State) {
    NoHolder(s) || exists p: nat :: OnlyHolder(s, p)
  }

  lemma HolderOkSays(s: State)
    requires HolderOk(s)
    ensures forall p: nat, q: nat :: p < |s.procs| && q < |s.procs| && Holds(s.procs[p]) && Holds(s.procs[q]) ==> p == q
    ensures s.word.Unlocked? <==> forall p: nat :: p < |s.procs| ==> !Holds(s.procs[p])
  {
    if !NoHolder(s) {
      var p: nat :| OnlyHolder(s, p);
      assert Holds(s.procs[p]);
    }
  }

  lemma TakingSteps(s: State, t: Step)
    requires Inv(s) && Can(s, t) && (Takes(s, t) || t.Steal?)
    ensures OnlyHolder(Do(s, t), t.p)
  {
    if t.Steal? {
      assert Holds(s.procs[s.owner - 1]);
      HolderOkSays(s);
    }
  }

  lemma ReleasingStep(s: State, t: Step)
    requires HolderOk(s) && Can(s, t) && t.Release?
    ensures NoHolder(Do(s, t))
  {
    assert Holds(s.procs[t.p]);
    HolderOkSays(s);
  }

  lemma KeepingSteps(s: State, t: Step)
    requires HolderOk(s) && Can(s, t) && !Takes(s, t) && !t.Steal? && !t.Release?
    ensures HolderOk(Do(s, t))
  {
    var s' := Do(s, t);
    assert |s'.procs| == |s.procs| && (s'.word.Unlocked? <==> s.word.Unlocked?);
    assert forall r: nat :: r < |s.procs| ==> (Holds(s'.procs[r]) <==> Holds(s.procs[r]));
    if !NoHolder(s) {
      var p: nat :| OnlyHolder(s, p);
      assert OnlyHolder(s', p);
    } else {
      assert NoHolder(s');
    }
  }

  lemma StepKeepsHolder(s: State, t: Step)
    requires Inv(s) && Can(s, t)
    ensures HolderOk(Do(s, t))
  {
    if Takes(s, t) || t.Steal? {
      TakingSteps(s, t);
    } else if t.Release? {
      ReleasingStep(s, t);
    } else {
      KeepingSteps(s, t);
    }
  }

  lemma StepKeepsOwner(s: State, t: Step)
    requires Inv(s) && Can(s, t)
    ensures var s' := Do(s, t);
      && (s'.owner != 0 ==> s'.owner <= |s'.procs| && Named(s'.procs[s'.owner - 1]))
      && (forall p: nat :: p < |s'.procs| && Named(s'.procs[p]) ==> s'.owner == p + 1)
  {
    var s' := Do(s, t);
    if t.StoreOwner? {
      HolderOkSays(s);
    } else if t.Steal? {
      TakingSteps(s, t);
      assert forall p: nat :: p < |s'.procs| && Named(s'.procs[p]) ==> Holds(s'.procs[p]);
    }
  }

  lemma StepKeepsInv(s: State, t: Step)
    requires Inv(s) && Can(s, t)
    ensures Inv(Do(s, t))
  {
    StepKeepsHolder(s, t);
    StepKeepsOwner(s, t);
  }

  lemma {:induction false} RunIsExclusive(s: State, ts: seq<Step>, s': State)
    requires Inv(s) && Run(s, ts, s')
    ensures Inv(s') && |s'.procs| == |s.procs|
    decreases |ts|
  {
    if ts != [] {
      StepKeepsInv(s, ts[0]);
      RunIsExclusive(Do(s, ts[0]), ts[1..], s');
    }
  }

  // In every run, wherever processes die: at most one live process is in the critical
  // section, and the word reads UNLOCKED exactly when nobody holds the lock.
  lemma MutexIsSafe(s0: State, ts: seq<Step>, s: State, p: nat, q: nat)
    requires Initial(s0) && Run(s0, ts, s)
    ensures At(s, p, Critical) && At(s, q, Critical) ==> p == q
    ensures s.word.Unlocked? <==> forall r: nat :: r < |s.procs| ==> !Holds(s.procs[r])
  {
    RunIsExclusive(s0, ts, s);
    HolderOkSays(s);
  }

  // The owner word never names a process that does not hold the lock, so a steal takes the
  // lock from the dead holder and from nobody else.
  lemma StealIsFromTheHolder(s0: State, ts: seq<Step>, s: State, p: nat)
    requires Initial(s0) && Run(s0, ts, s) && Can(s, Steal(p))
    ensures At(s, s.owner - 1, DeadNamed)
    ensures forall r: nat :: r < |s.procs| && Holds(s.procs[r]) ==> r == s.owner - 1
    ensures At(Do(s, Steal(p)), p, Critical)
    ensures forall r: nat :: r != p ==> !At(Do(s, Steal(p)), r, Critical)
  {
    RunIsExclusive(s0, ts, s);
    HolderOkSays(s);
    TakingSteps(s, Steal(p));
    assert forall r: nat :: At(Do(s, Steal(p)), r, Critical) ==> Holds(Do(s, Steal(p)).procs[r]);
  }

  // ---- a holder that dies ----------------------------------------------------

  // The lock is held by a dead process that the owner word does not name.
  ghost predicate Wedged(s: State, p: nat) {
    OnlyHolder(s, p) && s.procs[p].DeadNameless? && s.owner == 0
  }

  lemma StepKeepsWedged(s: State, t: Step, p: nat)
    requires Wedged(s, p) && Can(s, t)
    ensures Wedged(Do(s, t), p)
  {
  }

  lemma {:induction false} WedgedForever(s: State, ts: seq<Step>, s': State, p: nat)
    requires Wedged(s, p) && Run(s, ts, s')
    ensures Wedged(s', p)
    decreases |ts|
  {
    if ts != [] {
      StepKeepsWedged(s, ts[0], p);
      WedgedForever(Do(s, ts[0]), ts[1..], s', p);
    }
  }

  lemma {:induction false} Extend(s: State, ts: seq<Step>, m: State, t: Step)
    requires Run(s, ts, m) && Can(m, t)
    ensures Run(s, ts + [t], Do(m, t))
    decreases |ts|
  {
    if ts == [] {
      assert Run(Do(m, t), [], Do(m, t));
    } else {
      Extend(Do(s, ts[0]), ts[1..], m, t);
      assert (ts + [t])[1..] == ts[1..] + [t];
    }
  }

  // How far a waiter is from the check that steals.
  function Distance(pc: Pc): nat {
    match pc
    case Rechecking => 0 case Asleep => 1 case ToWait => 2 case Swapping => 3 case FirstTry => 4
    case Outside => 5 case _ => 6
  }

  function TowardSteal(s: State, r: nat): Step
    requires r < |s.procs|
  {
    match s.procs[r]
    case Asleep => WakeUp(r) case ToWait => Wait(r) case Swapping => Swap(r) case FirstTry => Exchange(r)
    case Outside => Call(r) case _ => Retry(r)
  }

  lemma NearerToSteal(s: State, p: nat, r: nat)
    requires OnlyHolder(s, p) && r < |s.procs| && r != p && 0 < Distance(s.procs[r]) < 6
    ensures Can(s, TowardSteal(s, r))
    ensures var s' := Do(s, TowardSteal(s, r));
            && OnlyHolder(s', p) && s'.procs[p] == s.procs[p] && s'.owner == s.owner
            && r < |s'.procs| && Distance(s'.procs[r]) < Distance(s.procs[r])
  {
  }

  // A live process on its way to the lock, or outside, can steal it from a dead named holder.
  lemma {:induction false} CanDriveToSteal(s0: State, us: seq<Step>, s: State, p: nat, r: nat) returns (ts: seq<Step>, s': State)
    requires Run(s0, us, s) && OnlyHolder(s, p) && s.procs[p].DeadNamed? && s.owner == p + 1
    requires r < |s.procs| && Distance(s.procs[r]) < 6
    ensures Run(s0, ts, s') && At(s', r, Critical)
    decreases Distance(s.procs[r])
  {
    if s.procs[r].Rechecking? {
      ts, s' := Go(s0, us, s, Steal(r));
    } else {
      NearerToSteal(s, p, r);
      ts, s' := Go(s0, us, s, TowardSteal(s, r));
      ts, s' := CanDriveToSteal(s0, ts, s', p, r);
    }
  }

  ghost predicate CanEnter(s: State, r: nat) {
    exists ts: seq<Step>, s': State :: Run(s, ts, s') && At(s', r, Critical)
  }

  // The holder has died.  Another process that is alive can get in again if and only if the
  // owner word names the dead one; otherwise the lock is wedged for good.
  lemma RecoversExactlyWhen(s0: State, ts: seq<Step>, s: State, p: nat, r: nat)
    requires Initial(s0) && Run(s0, ts, s)
    requires p < |s.procs| && Holds(s.procs[p]) && IsDead(s.procs[p])
    requires r < |s.procs| && !IsDead(s.procs[r])
    ensures CanEnter(s, r) <==> s.owner == p + 1
    ensures s.owner == p + 1 <==> s.procs[p].DeadNamed?
  {
    RunIsExclusive(s0, ts, s);
    HolderOkSays(s);
    assert OnlyHolder(s, p);
    if s.owner == p + 1 {
      NamedRecovers(s, p, r);
    } else {
      assert Wedged(s, p);
      forall us: seq<Step>, s': State | Run(s, us, s') ensures !At(s', r, Critical) {
        WedgedForever(s, us, s', p);
      }
    }
  }

  lemma NamedRecovers(s: State, p: nat, r: nat)
    requires OnlyHolder(s, p) && s.procs[p].DeadNamed? && s.owner == p + 1
    requires r < |s.procs| && !IsDead(s.procs[r])
    ensures CanEnter(s, r)
  {
    if s.procs[r].Waking? {
      // It owes a wake first.
      var q: nat := if q: nat :| At(s, q, Asleep) then q else r;
      var m := Do(s, Wake(r, q));
      Extend(s, [], s, Wake(r, q));
      assert OnlyHolder(m, p);
      var ts, s' := CanDriveToSteal(s, [] + [Wake(r, q)], m, p, r);
    } else {
      var ts, s' := CanDriveToSteal(s, [], s, p, r);
    }
  }

  // Both ways of wedging it: dying between winning the word and storing the owner, and
  // between clearing the owner and the swap.
  lemma NamelessDeathWedges(s0: State, ts: seq<Step>, s: State, p: nat)
    requires Initial(s0) && Run(s0, ts, s) && p < |s.procs|
    requires s.procs[p].Naming? || s.procs[p].Unlocking?
    ensures Wedged(Do(s, Die(p)), p)
  {
    RunIsExclusive(s0, ts, s);
    HolderOkSays(s);
    assert OnlyHolder(s, p);
  }

  // ---- sleepers -------------------------------------------------------------

  // A step after which the word is CONTENDED, or its own process or the one it woke is an
  // awake waiter, or it owes a wake.
  predicate Notices(s: State, t: Step) {
    || t.Swap? || t.Steal? || t.Wait? || t.WakeUp? || t.Retry?
    || (t.Exchange? && !s.word.Unlocked?)
    || (t.Release? && s.word.Contended?)
  }

  lemma NoticingSteps(s: State, t: Step)
    requires Can(s, t) && Notices(s, t)
    ensures Noticed(Do(s, t))
  {
    var s' := Do(s, t);
    assert s'.word.Contended? || AwakeWaiter(s'.procs[t.p]) || At(s', t.p, Waking);
  }

  lemma WakeNotices(s: State, t: Step)
    requires Can(s, t) && t.Wake?
    ensures Noticed(Do(s, t))
  {
    var s' := Do(s, t);
    if At(s, t.sleeper, Asleep) {
      assert AwakeWaiter(s'.procs[t.sleeper]);
    } else {
      assert forall p: nat :: At(s', p, Asleep) ==> At(s, p, Asleep);
    }
  }

  // A death that takes no notice of the sleepers away: not of an awake waiter, nor of a
  // process that owes a wake.
  predicate Harmless(s: State, t: Step) {
    t.Die? && t.p < |s.procs| ==> !AwakeWaiter(s.procs[t.p]) && !s.procs[t.p].Waking?
  }

  // Every other step is taken by a process that is no waiter and owes no wake.
  lemma OtherSteps(s: State, t: Step)
    requires Noticed(s) && Can(s, t) && !Notices(s, t) && !t.Wake? && Harmless(s, t)
    ensures Noticed(Do(s, t))
  {
    var s' := Do(s, t);
    assert forall p: nat :: At(s', p, Asleep) ==> At(s, p, Asleep);
    assert forall p: nat :: At(s, p, Waking) ==> At(s', p, Waking);
    assert forall p: nat :: p < |s.procs| && AwakeWaiter(s.procs[p]) ==> AwakeWaiter(s'.procs[p]);
  }

  lemma StepKeepsNoticed(s: State, t: Step)
    requires Noticed(s) && Can(s, t) && Harmless(s, t)
    ensures Noticed(Do(s, t))
  {
    if t.Wake? {
      WakeNotices(s, t);
    } else if Notices(s, t) {
      NoticingSteps(s, t);
    } else {
      OtherSteps(s, t);
    }
  }

  ghost predicate HarmlessRun(s: State, ts: seq<Step>, s': State)
    decreases |ts|
  {
    if ts == [] then s' == s
    else Can(s, ts[0]) && Harmless(s, ts[0]) && HarmlessRun(Do(s, ts[0]), ts[1..], s')
  }

  lemma {:induction false} RunNotices(s: State, ts: seq<Step>, s': State)
    requires Noticed(s) && HarmlessRun(s, ts, s')
    ensures Noticed(s')
    decreases |ts|
  {
    if ts != [] {
      StepKeepsNoticed(s, ts[0]);
      RunNotices(Do(s, ts[0]), ts[1..], s');
    }
  }

  // As long as nobody dies who has a sleeper's wake-up in hand, a sleeper implies that the
  // word is CONTENDED, an awake waiter will set it so, or a wake is owed.
  lemma SleepersAreNoticed(s0: State, ts: seq<Step>, s: State, p: nat)
    requires Initial(s0) && HarmlessRun(s0, ts, s) && At(s, p, Asleep)
    ensures || s.word.Contended?
            || (exists r: nat :: r < |s.procs| && AwakeWaiter(s.procs[r]))
            || (exists r: nat :: At(s, r, Waking))
  {
    RunNotices(s0, ts, s);
  }

  // The death of any process keeps that if and only if nobody sleeps, the word is
  // CONTENDED, or some other process has the wake-up in hand.
  lemma DeathIsNoticedExactlyWhen(s: State, w: nat)
    requires Can(s, Die(w))
    ensures Noticed(Do(s, Die(w))) <==>
              || (forall p: nat :: p != w ==> !At(s, p, Asleep))
              || s.word.Contended?
              || (exists p: nat :: p != w && p < |s.procs| && (AwakeWaiter(s.procs[p]) || s.procs[p].Waking?))
  {
    var s' := Do(s, Die(w));
    assert forall p: nat :: At(s', p, Asleep) <==> p != w && At(s, p, Asleep);
    assert forall p: nat :: At(s', p, Waking) <==> p != w && At(s, p, Waking);
    assert forall p: nat :: p < |s.procs| ==> (AwakeWaiter(s'.procs[p]) <==> p != w && AwakeWaiter(s.procs[p]));
    if p: nat :| p != w && p < |s.procs| && (AwakeWaiter(s.procs[p]) || s.procs[p].Waking?) {
      assert s'.procs[p] == s.procs[p];
      assert At(s', p, Waking) || AwakeWaiter(s'.procs[p]);
    }
    if p: nat :| p != w && At(s, p, Asleep) {
      assert At(s', p, Asleep);
    }
  }

  lemma Go(s0: State, ts: seq<Step>, s: State, t: Step) returns (us: seq<Step>, s': State)
    requires Run(s0, ts, s) && Can(s, t)
    ensures Run(s0, us, s') && us == ts + [t] && s' == Do(s, t)
  {
    Extend(s0, ts, s, t);
    us, s' := ts + [t], Do(s, t);
  }

  // ---- getting the lock and giving it back -----------------------------------

  // A step that p takes itself, other than dying or stealing.
  predicate OwnStep(t: Step, p: nat) { t.p == p && !t.Die? && !t.Steal? }

  ghost predicate OwnSteps(ts: seq<Step>, p: nat) { forall t :: t in ts ==> OwnStep(t, p) }

  // On the way into the lock: how many steps of its own p still needs when the lock is free.
  function StepsIn(pc: Pc): nat {
    match pc
    case Naming => 1 case Swapping => 2 case Rechecking => 3 case FirstTry => 2 case Outside => 3
    case ToWait => 4 case Asleep => 4 case _ => 0
  }

  predicate WantsIn(pc: Pc) { StepsIn(pc) > 0 && !pc.Naming? }

  function TowardLock(s: State, p: nat): Step
    requires p < |s.procs|
  {
    match s.procs[p]
    case Naming => StoreOwner(p) case Swapping => Swap(p) case Rechecking => Retry(p) case FirstTry => Exchange(p)
    case ToWait => Wait(p) case Asleep => WakeUp(p) case _ => Call(p)
  }

  // Once the word is UNLOCKED, whoever waits for the lock, wherever in the loop and even if
  // only its time-out wakes it, gets it by its own steps alone, in at most four.
  lemma {:induction false} FreeLockIsTaken(s0: State, us: seq<Step>, s: State, p: nat) returns (ts: seq<Step>, s': State)
    requires Run(s0, us, s) && OwnSteps(us, p) && p < |s.procs| && StepsIn(s.procs[p]) > 0
    requires if s.procs[p].Naming? then !s.word.Unlocked? else s.word.Unlocked?
    ensures Run(s0, ts, s') && OwnSteps(ts, p) && At(s', p, Critical) && s'.owner == p + 1 && !s'.word.Unlocked?
    ensures |ts| == |us| + StepsIn(s.procs[p])
    ensures |s'.procs| == |s.procs| && forall q: nat :: q < |s.procs| && q != p ==> s'.procs[q] == s.procs[q]
    decreases StepsIn(s.procs[p])
  {
    var t := TowardLock(s, p);
    ts, s' := Go(s0, us, s, t);
    if !s.procs[p].Naming? {
      ts, s' := FreeLockIsTaken(s0, ts, s', p);
    }
  }

  // Giving it back: three steps to UNLOCKED, with the owner cleared; if the word was CONTENDED
  // a fourth wakes one sleeper if there is one, and nobody else moves.
  lemma UnlockCompletes(s0: State, us: seq<Step>, s: State, p: nat, sleeper: nat) returns (ts: seq<Step>, s': State)
    requires Run(s0, us, s) && OwnSteps(us, p) && At(s, p, Critical)
    requires At(s, sleeper, Asleep) || forall q: nat :: !At(s, q, Asleep)
    ensures Run(s0, ts, s') && OwnSteps(ts, p) && s'.word.Unlocked? && s'.owner == 0
    ensures s'.procs == if s.word.Contended? && At(s, sleeper, Asleep) then s.procs[p := Outside][sleeper := Rechecking]
                        else s.procs[p := Outside]
  {
    ts, s' := Go(s0, us, s, Finish(p));
    ts, s' := Go(s0, ts, s', ClearOwner(p));
    ts, s' := Go(s0, ts, s', Release(p));
    assert s'.procs == s.procs[p := s'.procs[p]];
    if s.word.Contended? {
      assert At(s', sleeper, Asleep) <==> At(s, sleeper, Asleep);
      assert forall q: nat :: At(s', q, Asleep) ==> At(s, q, Asleep);
      ts, s' := Go(s0, ts, s', Wake(p, sleeper));
    }
  }

  lemma FallsAsleep(s0: State, ts: seq<Step>, s: State, p: nat) returns (us: seq<Step>, s': State)
    requires Run(s0, ts, s) && At(s, p, Outside) && !s.word.Unlocked?
    ensures Run(s0, us, s') && s' == State(Contended, s.owner, s.procs[p := Asleep])
  {
    us, s' := Go(s0, ts, s, Call(p));
    us, s' := Go(s0, us, s', Exchange(p));
    us, s' := Go(s0, us, s', Swap(p));
    us, s' := Go(s0, us, s', Wait(p));
    assert s'.procs == s.procs[p := Asleep];
  }

  lemma WakesOne(s0: State, ts: seq<Step>, s: State, p: nat, q: nat) returns (us: seq<Step>, s': State)
    requires Run(s0, ts, s) && At(s, p, Critical) && At(s, q, Asleep) && s.word.Contended?
    ensures Run(s0, us, s') && s' == State(Unlocked, 0, s.procs[p := Outside][q := Rechecking])
  {
    us, s' := Go(s0, ts, s, Finish(p));
    us, s' := Go(s0, us, s', ClearOwner(p));
    us, s' := Go(s0, us, s', Release(p));
    us, s' := Go(s0, us, s', Wake(p, q));
    assert s'.procs == s.procs[p := Outside][q := Rechecking];
  }

  lemma Acquires(s0: State, ts: seq<Step>, s: State, p: nat) returns (us: seq<Step>, s': State)
    requires Run(s0, ts, s) && At(s, p, Outside) && s.word.Unlocked?
    ensures Run(s0, us, s') && s' == State(Locked, p + 1, s.procs[p := Critical])
  {
    us, s' := Go(s0, ts, s, Call(p));
    us, s' := Go(s0, us, s', Exchange(p));
    us, s' := Go(s0, us, s', StoreOwner(p));
    assert s'.procs == s.procs[p := Critical];
  }

  // And it does happen.  0 holds the lock, 1 and 2 go to sleep, 0 unlocks and wakes 1, 3
  // takes the word, and 1 dies: 2 sleeps behind a word that will wake nobody.
  lemma DyingWaiterForgetsASleeper(s0: State) returns (ts: seq<Step>, s: State)
    requires Initial(s0) && |s0.procs| >= 4
    ensures Run(s0, ts, s) && At(s, 2, Asleep) && !Noticed(s)
  {
    ts, s := OneWokenOneAsleep(s0);
    ts, s := Acquires(s0, ts, s, 3);
    ts, s := Go(s0, ts, s, Die(1));
    assert At(s, 2, Asleep);
    assert forall p: nat :: p < |s.procs| && p > 3 ==> s.procs[p].Outside?;
  }

  lemma OneWokenOneAsleep(s0: State) returns (ts: seq<Step>, s: State)
    requires Initial(s0) && |s0.procs| >= 4
    ensures Run(s0, ts, s) && s == State(Unlocked, 0, s0.procs[1 := Rechecking][2 := Asleep])
  {
    ts, s := Acquires(s0, [], s0, 0);
    ts, s := FallsAsleep(s0, ts, s, 1);
    ts, s := FallsAsleep(s0, ts, s, 2);
    ts, s := WakesOne(s0, ts, s, 0, 1);
    assert s.procs == s0.procs[1 := Rechecking][2 := Asleep];
  }
}
