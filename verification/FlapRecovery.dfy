/** `Manager::link` with its retry-once rule, the flap watchers it leaves behind, and the single
    observer thread that runs them, as interleaved steps. */
module FlapRecovery {
  import Observer

  type LinkState = Observer.LinkState

  /** A `FlapWatcher` closure: the attempt whose token and server it holds, and the link state it
      saw last. Listeners are never removed. */
  datatype Listener = Listener(attempt: Attempt, last: LinkState)

  datatype Attempt = First | Second

  /** Inside one callback of the observer thread: the update being fanned out, how many listeners
      were cloned, and which one is running. */
  datatype Fan = Fan(link: LinkState, count: nat, next: nat)

  datatype ObserverPc =
    | Idle
    | Written(link: LinkState)      // snapshot written, listeners not yet cloned
    | Fanning(fan: Fan)             // about to run listener `next`
    | Flapped(fan: Fan)             // it saw Connected go away: about to set its token
    | TokenSet(fan: Fan)            // about to swap its server's dedup flag
    | Swapped(fan: Fan)             // the flag was clear: about to send FlapCancel

  datatype MainPc =
    | Connecting(attempt: Attempt)              // up to the worker's spawn
    | Spawned(attempt: Attempt)                 // worker alive, watcher not yet made
    | Seeded(attempt: Attempt, seed: LinkState) // watcher has read the current link
    | Watching(attempt: Attempt)                // listener registered; modal, wait, cancel
    | Succeeded(attempt: Attempt)
    | FailedAttempt(attempt: Attempt)
    | Waiting                                   // in wait_for_connection
    | Reconnected                               // it saw the link up
    | Returned(ok: bool)

  datatype State = State(
    link: LinkState,                 // the observer's snapshot
    main: MainPc,
    observer: ObserverPc,
    listeners: seq<Listener>,
    token: map<Attempt, bool>,       // CancellationToken
    signaled: map<Attempt, bool>,    // CancelHandle's dedup flag
    sends: seq<Attempt>,             // FlapCancel messages sent, by worker
    starts: seq<Attempt>)            // provisioning attempts begun

  datatype Action =
    // the observer thread
    | Update(link: LinkState)
    | CloneListeners
    | RunListener
    | SetToken
    | SwapFlag
    | SendCancel
    | FanDone
    // the main thread
    | Spawn
    | Seed
    | Subscribe
    | EndAttempt(ok: bool)
    | Decide
    | SeeConnected
    | GiveUpWaiting
    | Retry
    | Finish

  predicate Enabled(s: State, a: Action) {
    match a
    case Update(_) => s.observer.Idle?
    case CloneListeners => s.observer.Written?
    case RunListener => s.observer.Fanning? && s.observer.fan.next < s.observer.fan.count <= |s.listeners|
    case SetToken => s.observer.Flapped? && s.observer.fan.next < |s.listeners|
    case SwapFlag => s.observer.TokenSet? && s.observer.fan.next < |s.listeners|
    case SendCancel => s.observer.Swapped? && s.observer.fan.next < |s.listeners|
    case FanDone => s.observer.Fanning? && s.observer.fan.next >= s.observer.fan.count
    case Spawn => s.main.Connecting?
    case Seed => s.main.Spawned?
    case Subscribe => s.main.Seeded?
    case EndAttempt(ok) => s.main.Watching? || (!ok && s.main.Connecting?)
    case Decide => s.main == FailedAttempt(First)
    case SeeConnected => s.main.Waiting? && s.link.Connected?
    case GiveUpWaiting => s.main.Waiting?
    case Retry => s.main.Reconnected?
    case Finish => s.main.Succeeded? || s.main == FailedAttempt(Second)
  }

  function Next(fan: Fan): ObserverPc {
    Fanning(fan.(next := fan.next + 1))
  }

  function Apply(s: State, a: Action): State
    requires Enabled(s, a)
  {
    match a
    case Update(link) => s.(link := link, observer := Written(link))
    case CloneListeners => s.(observer := Fanning(Fan(s.observer.link, |s.listeners|, 0)))
    case RunListener =>
      var fan := s.observer.fan;
      var l := s.listeners[fan.next];
      s.(listeners := s.listeners[fan.next := l.(last := fan.link)],
         observer := if l.last.Connected? && !fan.link.Connected? then Flapped(fan) else Next(fan))
    case SetToken =>
      var fan := s.observer.fan;
      s.(token := s.token[s.listeners[fan.next].attempt := true], observer := TokenSet(fan))
    case SwapFlag =>
      var fan := s.observer.fan;
      var n := s.listeners[fan.next].attempt;
      s.(signaled := s.signaled[n := true],
         observer := if n in s.signaled && s.signaled[n] then Next(fan) else Swapped(fan))
    case SendCancel =>
      var fan := s.observer.fan;
      s.(sends := s.sends + [s.listeners[fan.next].attempt], observer := Next(fan))
    case FanDone => s.(observer := Idle)
    case Spawn => s.(main := Spawned(s.main.attempt))
    case Seed => s.(main := Seeded(s.main.attempt, s.link))
    case Subscribe => s.(main := Watching(s.main.attempt), listeners := s.listeners + [Listener(s.main.attempt, s.main.seed)])
    case EndAttempt(ok) => s.(main := if ok then Succeeded(s.main.attempt) else FailedAttempt(s.main.attempt))
    case Decide => s.(main := if Cancelled(s, First) then Waiting else Returned(false))
    case SeeConnected => s.(main := Reconnected)
    case GiveUpWaiting => s.(main := Returned(false))
    case Retry => s.(main := Connecting(Second), starts := s.starts + [Second], token := s.token[Second := false])
    case Finish => s.(main := Returned(s.main.Succeeded?))
  }

  predicate Cancelled(s: State, n: Attempt) {
    n in s.token && s.token[n]
  }

  predicate Signaled(s: State, n: Attempt) {
    n in s.signaled && s.signaled[n]
  }

  /** `link` has made its observer and first token, and begins attempt one. */
  predicate Init(s: State) {
    && s.main == Connecting(First) && s.observer.Idle? && s.listeners == []
    && s.token == map[First := false] && s.signaled == map[] && s.sends == [] && s.starts == [First]
  }

  ghost predicate IsRun(states: seq<State>, actions: seq<Action>) {
    && |states| == |actions| + 1 && Init(states[0])
    && forall i :: 0 <= i < |actions| ==> Enabled(states[i], actions[i]) && states[i + 1] == Apply(states[i], actions[i])
  }

  // ----- what every state keeps -----

  predicate InCallback(s: State, n: Attempt) {
    && (s.observer.Flapped? || s.observer.TokenSet? || s.observer.Swapped?)
    && s.observer.fan.next < |s.listeners| && s.listeners[s.observer.fan.next].attempt == n
  }

  /** A send for worker n is due: the flag has been taken and the message not yet sent. */
  predicate SendDue(s: State, n: Attempt) {
    s.observer.Swapped? && InCallback(s, n)
  }

  predicate SecondStarted(s: State) {
    s.starts == [First, Second]
  }

  /** The attempts begun so far, told from where the main thread is. */
  predicate StartsInv(s: State) {
    match s.main
    case Waiting => s.starts == [First]
    case Reconnected => s.starts == [First]
    case Returned(_) => s.starts == [First] || SecondStarted(s)
    case _ => if s.main.attempt.First? then s.starts == [First] else SecondStarted(s)
  }

  /** The thread fans out what it has just written, one listener at a time; only the loss of the
      link gets it into a callback. */
  ghost predicate ObserverInv(s: State) {
    match s.observer
    case Idle => true
    case Written(link) => link == s.link
    case Fanning(fan) => fan.link == s.link && fan.count <= |s.listeners|
    case Flapped(fan) => fan.link == s.link && fan.next < fan.count <= |s.listeners| && !s.link.Connected?
    case TokenSet(fan) => fan.link == s.link && fan.next < fan.count <= |s.listeners| && !s.link.Connected?
    case Swapped(fan) => fan.link == s.link && fan.next < fan.count <= |s.listeners| && !s.link.Connected?
  }

  function Count(sends: seq<Attempt>, n: Attempt): nat {
    if sends == [] then 0 else Count(sends[..|sends| - 1], n) + if sends[|sends| - 1] == n then 1 else 0
  }

  /** One FlapCancel at most per worker: sent or due exactly when the flag is set. */
  ghost predicate SendInv(s: State, n: Attempt) {
    Count(s.sends, n) + (if SendDue(s, n) then 1 else 0) == if Signaled(s, n) then 1 else 0
  }

  ghost predicate Inv(s: State) {
    && ObserverInv(s) && StartsInv(s)
    && SendInv(s, First) && SendInv(s, Second)
    // the token goes first, the flag follows in the same callback
    && (Cancelled(s, First) && !Signaled(s, First) ==> s.observer.TokenSet? && InCallback(s, First))
    && (s.main.Waiting? ==> Cancelled(s, First))
    && (s.main.Reconnected? || SecondStarted(s) ==> Signaled(s, First) && !SendDue(s, First))
  }

  lemma CountAppend(sends: seq<Attempt>, n: Attempt, m: Attempt)
    ensures Count(sends + [m], n) == Count(sends, n) + if m == n then 1 else 0
  {
    assert (sends + [m])[..|sends|] == sends;
  }

  lemma ObserverStep(s: State, a: Action)
    requires Inv(s) && Enabled(s, a)
    ensures ObserverInv(Apply(s, a)) && StartsInv(Apply(s, a))
  {
  }

  lemma SendStep(s: State, a: Action, n: Attempt)
    requires ObserverInv(s) && SendInv(s, n) && Enabled(s, a)
    ensures SendInv(Apply(s, a), n)
  {
    var s' := Apply(s, a);
    if a.SendCancel? {
      CountAppend(s.sends, n, s.listeners[s.observer.fan.next].attempt);
    } else if a.SwapFlag? {
      assert s'.sends == s.sends && !SendDue(s, n);
    } else {
      assert s'.sends == s.sends && s'.signaled == s.signaled;
      assert SendDue(s', n) == SendDue(s, n);
    }
  }

  lemma StepKeepsInv(s: State, a: Action)
    requires Inv(s) && Enabled(s, a)
    ensures Inv(Apply(s, a))
  {
    ObserverStep(s, a);
    SendStep(s, a, First);
    SendStep(s, a, Second);
  }

  lemma {:induction false} RunKeepsInv(states: seq<State>, actions: seq<Action>, n: nat)
    requires IsRun(states, actions) && n < |states|
    ensures Inv(states[n])
  {
    if n > 0 {
      RunKeepsInv(states, actions, n - 1);
      StepKeepsInv(states[n - 1], actions[n - 1]);
    }
  }

  // ----- what every run shows -----

  /** At most two attempts are ever begun, and at most one FlapCancel is sent to each worker. */
  lemma AtMostTwoAttempts(states: seq<State>, actions: seq<Action>, n: nat)
    requires IsRun(states, actions) && n < |states|
    ensures states[n].starts == [First] || states[n].starts == [First, Second]
    ensures Count(states[n].sends, First) <= 1 && Count(states[n].sends, Second) <= 1
  {
    RunKeepsInv(states, actions, n);
  }

  /** The second attempt begins only after the first failed with its own token set (at `i`) and
      the link was later up while the main thread waited for it (at `j`). */
  lemma {:induction false} SecondOnlyAfterFlapAndReconnect(states: seq<State>, actions: seq<Action>, n: nat) returns (i: nat, j: nat)
    requires IsRun(states, actions) && n < |states| && SecondStarted(states[n])
    ensures i < j < n
    ensures states[i].main == FailedAttempt(First) && Cancelled(states[i], First)
    ensures states[j].main == Waiting && states[j].link.Connected?
  {
    assert n > 0;
    assert states[n - 1 + 1] == Apply(states[n - 1], actions[n - 1]);
    if SecondStarted(states[n - 1]) {
      i, j := SecondOnlyAfterFlapAndReconnect(states, actions, n - 1);
    } else {
      assert states[n - 1].main == Reconnected;
      j := ReconnectedSaw(states, actions, n - 1);
      i := WaitingDecided(states, actions, j);
    }
  }

  lemma {:induction false} ReconnectedSaw(states: seq<State>, actions: seq<Action>, n: nat) returns (j: nat)
    requires IsRun(states, actions) && n < |states| && states[n].main == Reconnected
    ensures j < n && states[j].main == Waiting && states[j].link.Connected?
  {
    assert n > 0;
    assert states[n - 1 + 1] == Apply(states[n - 1], actions[n - 1]);
    if states[n - 1].main == Reconnected {
      j := ReconnectedSaw(states, actions, n - 1);
    } else {
      j := n - 1;
    }
  }

  lemma {:induction false} WaitingDecided(states: seq<State>, actions: seq<Action>, n: nat) returns (i: nat)
    requires IsRun(states, actions) && n < |states| && states[n].main == Waiting
    ensures i < n && states[i].main == FailedAttempt(First) && Cancelled(states[i], First)
  {
    assert n > 0;
    assert states[n - 1 + 1] == Apply(states[n - 1], actions[n - 1]);
    if states[n - 1].main == Waiting {
      i := WaitingDecided(states, actions, n - 1);
    } else {
      i := n - 1;
    }
  }

  lemma {:induction false} StaysStarted(states: seq<State>, actions: seq<Action>, n: nat, k: nat)
    requires IsRun(states, actions) && n <= k < |states| && SecondStarted(states[n])
    ensures SecondStarted(states[k])
  {
    if n < k {
      StaysStarted(states, actions, n, k - 1);
      StartsAreTold(states, actions, k - 1);
      assert Enabled(states[k - 1], actions[k - 1]);
      NeverUnstarted(states[k - 1], actions[k - 1]);
      StartedNext(states, actions, k - 1);
    }
  }

  lemma StartedNext(states: seq<State>, actions: seq<Action>, n: nat)
    requires IsRun(states, actions) && n < |actions| && Enabled(states[n], actions[n])
    requires SecondStarted(Apply(states[n], actions[n]))
    ensures SecondStarted(states[n + 1])
  {
  }

  lemma StartsAreTold(states: seq<State>, actions: seq<Action>, n: nat)
    requires IsRun(states, actions) && n < |states|
    ensures StartsInv(states[n])
    ensures n < |actions| ==> Enabled(states[n], actions[n]) && states[n + 1] == Apply(states[n], actions[n])
  {
    RunKeepsInv(states, actions, n);
  }

  lemma NeverUnstarted(s: State, a: Action)
    requires StartsInv(s) && Enabled(s, a) && SecondStarted(s)
    ensures SecondStarted(Apply(s, a))
  {
  }

  /** Once attempt two has begun, attempt one's flag is set and its single FlapCancel is out: from
      then on nothing is ever sent to worker one again. */
  lemma FirstWorkerIsLeftAlone(states: seq<State>, actions: seq<Action>, n: nat, k: nat)
    requires IsRun(states, actions) && n <= k < |states| && SecondStarted(states[n])
    ensures Signaled(states[k], First)
    ensures Count(states[k].sends, First) == Count(states[n].sends, First) == 1
  {
    StaysStarted(states, actions, n, k);
    RunKeepsInv(states, actions, n);
    RunKeepsInv(states, actions, k);
  }

  /** While attempt two runs, the leftover listener of attempt one touches neither the second
      token, nor the second worker's flag, nor sends anything at all. */
  lemma LeftoverListenerIsHarmless(states: seq<State>, actions: seq<Action>, n: nat)
    requires IsRun(states, actions) && n < |actions| && SecondStarted(states[n])
    requires var o := states[n].observer;
             && (o.Fanning? || o.Flapped? || o.TokenSet? || o.Swapped?)
             && o.fan.next < |states[n].listeners| && states[n].listeners[o.fan.next].attempt == First
    requires actions[n].RunListener? || actions[n].SetToken? || actions[n].SwapFlag? || actions[n].SendCancel?
    ensures var s, s' := states[n], states[n + 1];
            && Cancelled(s', Second) == Cancelled(s, Second)
            && Signaled(s', Second) == Signaled(s, Second)
            && s'.sends == s.sends
  {
    RunKeepsInv(states, actions, n);
    assert states[n + 1] == Apply(states[n], actions[n]);
  }

  // ----- what `link` returns -----

  ghost predicate SomeSucceeded(states: seq<State>, n: nat)
    requires n < |states|
  {
    exists j :: 0 <= j <= n && states[j].main.Succeeded?
  }

  /** In every run, `link` returns success iff one of its attempts succeeded. */
  lemma ReturnsOkExactlyWhen(states: seq<State>, actions: seq<Action>, n: nat)
    requires IsRun(states, actions) && n < |states| && states[n].main.Returned?
    ensures states[n].main.ok <==> exists j :: 0 <= j <= n && states[j].main.Succeeded?
  {
    SuccessShows(states, actions, n);
  }

  lemma {:induction false} SuccessShows(states: seq<State>, actions: seq<Action>, n: nat)
    requires IsRun(states, actions) && n < |states|
    ensures SomeSucceeded(states, n) <==> states[n].main.Succeeded? || states[n].main == Returned(true)
  {
    if n == 0 {
      assert !SomeSucceeded(states, 0);
    } else {
      SuccessShows(states, actions, n - 1);
      assert states[n - 1 + 1] == Apply(states[n - 1], actions[n - 1]);
      assert SomeSucceeded(states, n) <==> SomeSucceeded(states, n - 1) || states[n].main.Succeeded? by {
        if SomeSucceeded(states, n - 1) {
          var j :| 0 <= j <= n - 1 && states[j].main.Succeeded?;
        }
      }
      SuccessStep(states[n - 1], actions[n - 1]);
    }
  }

  lemma SuccessStep(s: State, a: Action)
    requires Enabled(s, a)
    ensures var s' := Apply(s, a);
            && (s.main.Succeeded? || s.main == Returned(true) ==> s'.main.Succeeded? || s'.main == Returned(true))
            && (!s.main.Succeeded? && s.main != Returned(true) ==> s'.main != Returned(true))
  {
  }
}
