/** The WiFi observer's shared snapshot and condition variable, as interleaved steps of any
    number of updaters and waiters. The snapshot has its own lock, so writing it and
    notifying the waiters are separate steps. */
module Observer {
  import opened Common

  datatype LinkState = Connected | NotConnected(code: nat)

  /** `WifiState`. */
  datatype Snapshot = Snapshot(link: LinkState, lastChange: nat)

  /** Where a thread is inside `update_state`. */
  datatype UpdaterPc =
    | Idle
    | Stamped(update: Snapshot)     // has its new state, not yet written
    | Written                       // snapshot written, mutex not yet taken
    | Locked                        // holds the mutex, not yet notified
    | Notified                      // notified, still holds the mutex

  /** Where a thread is inside `wait_for_connection`. */
  datatype WaiterPc =
    | Outside
    | Entering                      // before the check without the mutex
    | Locking                       // about to take the mutex
    | Testing                       // holds it, at the loop condition
    | Tested                        // holds it, found the link down
    | Blocked                       // in the condition variable's wait set
    | Woken(timedOut: bool)         // out of the wait set, mutex not yet retaken
    | Rechecking(timedOut: bool)    // retaken
    | ReturnedOk
    | ReturnedTimedOut

  datatype Owner = Updater(id: nat) | Waiter(id: nat)

  datatype State = State(
    clock: nat,
    snapshot: Snapshot,
    mutex: Option<Owner>,
    updaters: map<nat, UpdaterPc>,
    waiters: map<nat, WaiterPc>)

  datatype Action =
    | Tick
    | Stamp(u: nat, link: LinkState)
    | Write(u: nat)
    | LockUpdater(u: nat)
    | NotifyAll(u: nat)
    | UnlockUpdater(u: nat)
    | Call(w: nat)
    | FastCheck(w: nat)
    | LockWaiter(w: nat)
    | Test(w: nat)
    | Sleep(w: nat)
    | Expire(w: nat)
    | Wake(w: nat, timedOut: bool)  // a timeout or a spurious wake-up
    | Relock(w: nat)
    | Recheck(w: nat)

  predicate At(s: State, u: nat, pc: UpdaterPc) {
    u in s.updaters && s.updaters[u] == pc
  }

  predicate WaitsAt(s: State, w: nat, pc: WaiterPc) {
    w in s.waiters && s.waiters[w] == pc
  }

  predicate Enabled(s: State, a: Action) {
    match a
    case Tick => true
    case Stamp(u, _) => At(s, u, Idle)
    case Write(u) => u in s.updaters && s.updaters[u].Stamped?
    case LockUpdater(u) => At(s, u, Written) && s.mutex.None?
    case NotifyAll(u) => At(s, u, Locked)
    case UnlockUpdater(u) => At(s, u, Notified)
    case Call(w) => WaitsAt(s, w, Outside) || WaitsAt(s, w, ReturnedOk) || WaitsAt(s, w, ReturnedTimedOut)
    case FastCheck(w) => WaitsAt(s, w, Entering)
    case LockWaiter(w) => WaitsAt(s, w, Locking) && s.mutex.None?
    case Test(w) => WaitsAt(s, w, Testing)
    case Sleep(w) => WaitsAt(s, w, Tested)
    case Expire(w) => WaitsAt(s, w, Tested)
    case Wake(w, _) => WaitsAt(s, w, Blocked)
    case Relock(w) => w in s.waiters && s.waiters[w].Woken? && s.mutex.None?
    case Recheck(w) => w in s.waiters && s.waiters[w].Rechecking?
  }

  function Move(s: State, u: nat, pc: UpdaterPc): State {
    s.(updaters := s.updaters[u := pc])
  }

  function Go(s: State, w: nat, pc: WaiterPc): State {
    s.(waiters := s.waiters[w := pc])
  }

  function WakeAll(waiters: map<nat, WaiterPc>): map<nat, WaiterPc> {
    map w | w in waiters :: if waiters[w] == Blocked then Woken(false) else waiters[w]
  }

  function Apply(s: State, a: Action): State
    requires Enabled(s, a)
  {
    match a
    case Tick => s.(clock := s.clock + 1)
    case Stamp(u, link) => Move(s, u, Stamped(Snapshot(link, s.clock)))
    case Write(u) =>
      var update := s.updaters[u].update;
      if update.lastChange < s.snapshot.lastChange then Move(s, u, Idle)
      else Move(s.(snapshot := update), u, Written)
    case LockUpdater(u) => Move(s.(mutex := Some(Updater(u))), u, Locked)
    case NotifyAll(u) => Move(s.(waiters := WakeAll(s.waiters)), u, Notified)
    case UnlockUpdater(u) => Move(s.(mutex := None), u, Idle)
    case Call(w) => Go(s, w, Entering)
    case FastCheck(w) => Go(s, w, if s.snapshot.link.Connected? then ReturnedOk else Locking)
    case LockWaiter(w) => Go(s.(mutex := Some(Waiter(w))), w, Testing)
    case Test(w) =>
      if s.snapshot.link.Connected? then Go(s.(mutex := None), w, ReturnedOk) else Go(s, w, Tested)
    case Sleep(w) => Go(s.(mutex := None), w, Blocked)
    case Expire(w) => Go(s.(mutex := None), w, ReturnedTimedOut)
    case Wake(w, timedOut) => Go(s, w, Woken(timedOut))
    case Relock(w) => Go(s.(mutex := Some(Waiter(w))), w, Rechecking(s.waiters[w].timedOut))
    case Recheck(w) =>
      if s.waiters[w].timedOut && !s.snapshot.link.Connected? then Go(s.(mutex := None), w, ReturnedTimedOut)
      else Go(s, w, Testing)
  }

  predicate Init(s: State) {
    && s.mutex.None?
    && (forall u :: u in s.updaters ==> s.updaters[u] == Idle)
    && (forall w :: w in s.waiters ==> s.waiters[w] == Outside)
  }

  /** A run: states joined by enabled actions. */
  ghost predicate IsRun(states: seq<State>, actions: seq<Action>) {
    && |states| == |actions| + 1 && Init(states[0])
    && forall i :: 0 <= i < |actions| ==> Enabled(states[i], actions[i]) && states[i + 1] == Apply(states[i], actions[i])
  }

  // ----- no lost wake-up -----

  predicate HoldsAsUpdater(pc: UpdaterPc) {
    pc.Locked? || pc.Notified?
  }

  predicate HoldsAsWaiter(pc: WaiterPc) {
    pc.Testing? || pc.Tested? || pc.Rechecking?
  }

  /** Exactly the owner recorded in the mutex is at a step that holds it. */
  ghost predicate MutexInv(s: State) {
    && (forall u :: u in s.updaters && HoldsAsUpdater(s.updaters[u]) ==> s.mutex == Some(Updater(u)))
    && (forall w :: w in s.waiters && HoldsAsWaiter(s.waiters[w]) ==> s.mutex == Some(Waiter(w)))
  }

  /** Has found the link down and not yet been woken. */
  predicate Committed(pc: WaiterPc) {
    pc.Tested? || pc.Blocked?
  }

  /** Has written the snapshot and not yet notified. */
  predicate OwesNotify(pc: UpdaterPc) {
    pc.Written? || pc.Locked?
  }

  ghost predicate SomeoneOwes(s: State) {
    exists u :: u in s.updaters && OwesNotify(s.updaters[u])
  }

  ghost predicate WakeInv(s: State) {
    (exists w :: w in s.waiters && Committed(s.waiters[w])) && s.snapshot.link.Connected? ==> SomeoneOwes(s)
  }

  lemma MutexStep(s: State, a: Action)
    requires MutexInv(s) && Enabled(s, a)
    ensures MutexInv(Apply(s, a))
  {
  }

  lemma OwesStep(s: State, a: Action)
    requires Enabled(s, a) && SomeoneOwes(s) && !a.NotifyAll?
    ensures SomeoneOwes(Apply(s, a))
  {
    var u :| u in s.updaters && OwesNotify(s.updaters[u]);
    assert OwesNotify(Apply(s, a).updaters[u]);
  }

  lemma WakeStep(s: State, a: Action)
    requires MutexInv(s) && WakeInv(s) && Enabled(s, a)
    ensures WakeInv(Apply(s, a))
  {
    var s' := Apply(s, a);
    if w :| w in s'.waiters && Committed(s'.waiters[w]) && s'.snapshot.link.Connected? {
      NobodyCommittedAfterNotify(s, a, w);
      match a
      case Write(u) =>
        if s'.snapshot == s.snapshot && !OwesNotify(s'.updaters[u]) {
          OwesStep(s, a);
        } else {
          assert OwesNotify(s'.updaters[u]);
        }
      case _ =>
        assert Committed(s.waiters[w]);
        OwesStep(s, a);
    }
  }

  lemma NobodyCommittedAfterNotify(s: State, a: Action, w: nat)
    requires MutexInv(s) && Enabled(s, a) && w in Apply(s, a).waiters && Committed(Apply(s, a).waiters[w])
    ensures !a.NotifyAll?
  {
  }

  lemma {:induction false} RunKeepsInv(states: seq<State>, actions: seq<Action>, n: nat)
    requires IsRun(states, actions) && n < |states|
    ensures MutexInv(states[n]) && WakeInv(states[n])
  {
    if n > 0 {
      RunKeepsInv(states, actions, n - 1);
      MutexStep(states[n - 1], actions[n - 1]);
      WakeStep(states[n - 1], actions[n - 1]);
    }
  }

  /** In every reachable interleaving, a waiter blocked while the link is up implies an updater
      that has written and will still notify: no wake-up is lost. */
  lemma NoLostWakeup(states: seq<State>, actions: seq<Action>, n: nat, w: nat)
    requires IsRun(states, actions) && n < |states|
    requires WaitsAt(states[n], w, Blocked) && states[n].snapshot.link.Connected?
    ensures exists u :: u in states[n].updaters && OwesNotify(states[n].updaters[u])
  {
    RunKeepsInv(states, actions, n);
    assert Committed(states[n].waiters[w]);
  }

  // ----- what a result means -----

  predicate InCall(s: State, w: nat) {
    w in s.waiters && !s.waiters[w].Outside? && !s.waiters[w].ReturnedOk? && !s.waiters[w].ReturnedTimedOut?
  }

  /** `Ok` is returned only by a call that saw the link up: at some step of that very call the
      snapshot was Connected. */
  lemma {:induction false} OkMeansConnectedSeen(states: seq<State>, actions: seq<Action>, n: nat, w: nat) returns (m: nat)
    requires IsRun(states, actions) && n < |states| && WaitsAt(states[n], w, ReturnedOk)
    ensures m < n && InCall(states[m], w) && states[m].snapshot.link.Connected?
    ensures forall k :: m < k <= n ==> WaitsAt(states[k], w, ReturnedOk)
  {
    assert n > 0;
    var s, a := states[n - 1], actions[n - 1];
    assert states[n - 1 + 1] == Apply(s, a);
    if WaitsAt(s, w, ReturnedOk) {
      m := OkMeansConnectedSeen(states, actions, n - 1, w);
    } else {
      OkStep(s, a, w);
      m := n - 1;
    }
  }

  lemma OkStep(s: State, a: Action, w: nat)
    requires Enabled(s, a) && WaitsAt(Apply(s, a), w, ReturnedOk) && !WaitsAt(s, w, ReturnedOk)
    ensures InCall(s, w) && s.snapshot.link.Connected?
  {
  }

  /** A timeout is returned only by a call that saw the link down. */
  lemma {:induction false} TimeoutMeansDownSeen(states: seq<State>, actions: seq<Action>, n: nat, w: nat) returns (m: nat)
    requires IsRun(states, actions) && n < |states|
    requires WaitsAt(states[n], w, ReturnedTimedOut) || WaitsAt(states[n], w, Tested)
    ensures m < n && InCall(states[m], w) && !states[m].snapshot.link.Connected?
    ensures forall k :: m < k <= n ==> WaitsAt(states[k], w, Tested) || WaitsAt(states[k], w, ReturnedTimedOut)
  {
    assert n > 0;
    var s, a := states[n - 1], actions[n - 1];
    assert states[n - 1 + 1] == Apply(s, a);
    if WaitsAt(s, w, ReturnedTimedOut) || WaitsAt(s, w, Tested) {
      m := TimeoutMeansDownSeen(states, actions, n - 1, w);
    } else {
      m := n - 1;
    }
  }

  /** `last_change` never goes back, even when stamped updates are written out of order. */
  lemma {:induction false} LastChangeMonotone(states: seq<State>, actions: seq<Action>, i: nat, j: nat)
    requires IsRun(states, actions) && i <= j < |states|
    ensures states[i].snapshot.lastChange <= states[j].snapshot.lastChange
  {
    if i < j {
      LastChangeMonotone(states, actions, i, j - 1);
      assert states[j - 1 + 1] == Apply(states[j - 1], actions[j - 1]);
    }
  }

  // ----- what the snapshot shows -----

  /** Step `i` writes this update. */
  predicate Writes(states: seq<State>, actions: seq<Action>, i: nat, update: Snapshot) {
    && i < |actions| && i < |states| && actions[i].Write?
    && actions[i].u in states[i].updaters && states[i].updaters[actions[i].u] == Stamped(update)
  }

  /** A written update that is not older than what is shown is shown, until one at least as new is
      written; an older one changes nothing. */
  lemma {:induction false} NewestIsShown(states: seq<State>, actions: seq<Action>, i: nat, n: nat, update: Snapshot)
    requires IsRun(states, actions) && i < n < |states| && Writes(states, actions, i, update)
    requires forall j, v :: i < j < n && Writes(states, actions, j, v) ==> v.lastChange < update.lastChange
    ensures update.lastChange >= states[i].snapshot.lastChange ==> states[n].snapshot == update
    ensures update.lastChange < states[i].snapshot.lastChange ==> states[i + 1].snapshot == states[i].snapshot
  {
    assert states[n - 1 + 1] == Apply(states[n - 1], actions[n - 1]);
    if n - 1 > i {
      NewestIsShown(states, actions, i, n - 1, update);
      if actions[n - 1].Write? {
        var v := states[n - 1].updaters[actions[n - 1].u].update;
        assert Writes(states, actions, n - 1, v);
      }
    }
  }

  /** An update carries the time at which it was stamped. */
  lemma {:induction false} StampIsTheClock(states: seq<State>, actions: seq<Action>, n: nat, u: nat, update: Snapshot) returns (i: nat)
    requires IsRun(states, actions) && n < |states| && At(states[n], u, Stamped(update))
    ensures i < n && actions[i] == Stamp(u, update.link) && update.lastChange == states[i].clock
  {
    assert n > 0;
    assert states[n - 1 + 1] == Apply(states[n - 1], actions[n - 1]);
    if At(states[n - 1], u, Stamped(update)) && actions[n - 1] != Stamp(u, update.link) {
      i := StampIsTheClock(states, actions, n - 1, u, update);
    } else {
      i := n - 1;
    }
  }

  /** And only written updates are ever shown. */
  lemma {:induction false} ShownWasWritten(states: seq<State>, actions: seq<Action>, n: nat)
    requires IsRun(states, actions) && n < |states|
    ensures states[n].snapshot == states[0].snapshot || exists i :: 0 <= i < n && Writes(states, actions, i, states[n].snapshot)
  {
    if n > 0 {
      ShownWasWritten(states, actions, n - 1);
      assert states[n - 1 + 1] == Apply(states[n - 1], actions[n - 1]);
      if states[n].snapshot != states[n - 1].snapshot {
        assert Writes(states, actions, n - 1, states[n].snapshot);
      } else if states[n].snapshot != states[0].snapshot {
        var i :| 0 <= i < n - 1 && Writes(states, actions, i, states[n - 1].snapshot);
        assert Writes(states, actions, i, states[n].snapshot);
      }
    }
  }
}
