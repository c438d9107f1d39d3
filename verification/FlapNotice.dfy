/** Which flaps a watcher of `Manager::link` notices: the exact condition, over every run and for
    both attempts. */
module FlapNotice {
  import Observer
  import opened FlapRecovery

  // ----- what a watcher notices -----

  ghost predicate Registered(s: State, a: Attempt) {
    exists l :: l in s.listeners && l.attempt == a
  }

  /** The link at the last reading of a seed. */
  ghost function SeedOf(states: seq<State>, actions: seq<Action>, n: nat): LinkState
    requires |states| == |actions| + 1 && n < |states|
  {
    if n == 0 then states[0].link
    else if actions[n - 1].Seed? then states[n - 1].link
    else SeedOf(states, actions, n - 1)
  }

  /** What the watcher of an attempt goes by: the link as it was when its seed was read, and the link at
      every cloning of the listeners once it is registered. */
  ghost function Seen(states: seq<State>, actions: seq<Action>, n: nat, a: Attempt): seq<LinkState>
    requires |states| == |actions| + 1 && n < |states|
  {
    if n == 0 then []
    else
      var before, s, act := Seen(states, actions, n - 1, a), states[n - 1], actions[n - 1];
      if act.Subscribe? && s.main.Seeded? && s.main.attempt == a then before + [SeedOf(states, actions, n - 1)]
      else if act.CloneListeners? && Registered(s, a) then before + [s.link]
      else before
  }

  /** The same, step by step, from what the threads hold. */
  ghost function Observes(s: State, act: Action, a: Attempt): seq<LinkState> {
    if act.Subscribe? && s.main.Seeded? && s.main.attempt == a then [s.main.seed]
    else if act.CloneListeners? && s.observer.Written? && Registered(s, a) then [s.observer.link]
    else []
  }

  ghost function Noted(states: seq<State>, actions: seq<Action>, n: nat, a: Attempt): seq<LinkState>
    requires |states| == |actions| + 1 && n < |states|
  {
    if n == 0 then [] else Noted(states, actions, n - 1, a) + Observes(states[n - 1], actions[n - 1], a)
  }

  lemma {:induction false} SeedIsTheLink(states: seq<State>, actions: seq<Action>, n: nat)
    requires IsRun(states, actions) && n < |states| && states[n].main.Seeded?
    ensures states[n].main.seed == SeedOf(states, actions, n)
  {
    assert n > 0;
    assert states[n - 1 + 1] == Apply(states[n - 1], actions[n - 1]);
    if !actions[n - 1].Seed? {
      SeedIsTheLink(states, actions, n - 1);
    }
  }

  lemma {:induction false} SeenIsNoted(states: seq<State>, actions: seq<Action>, n: nat, a: Attempt)
    requires IsRun(states, actions) && n < |states|
    ensures Seen(states, actions, n, a) == Noted(states, actions, n, a)
  {
    if n > 0 {
      SeenIsNoted(states, actions, n - 1, a);
      RunKeepsInv(states, actions, n - 1);
      assert Enabled(states[n - 1], actions[n - 1]);
      if actions[n - 1].Subscribe? {
        SeedIsTheLink(states, actions, n - 1);
      }
    }
  }

  /** Somewhere the link is up and next it is not. */
  ghost predicate Drops(seen: seq<LinkState>) {
    exists i :: 0 < i < |seen| && seen[i - 1].Connected? && !seen[i].Connected?
  }

  lemma DropsAppend(seen: seq<LinkState>, link: LinkState)
    ensures Drops(seen + [link]) <==> Drops(seen) || (seen != [] && seen[|seen| - 1].Connected? && !link.Connected?)
  {
    var t := seen + [link];
    if i :| 0 < i < |seen| && seen[i - 1].Connected? && !seen[i].Connected? {
      assert t[i - 1].Connected? && !t[i].Connected?;
    }
    if seen != [] && seen[|seen| - 1].Connected? && !link.Connected? {
      assert t[|seen| - 1].Connected? && !t[|seen|].Connected?;
    }
  }

  /** Listeners are registered in the order of the attempts, one each. */
  function Slot(a: Attempt): nat {
    if a.First? then 0 else 1
  }

  predicate HasSlot(s: State, a: Attempt) {
    Slot(a) < |s.listeners|
  }

  /** How many listeners there are, told from where the main thread is. */
  predicate SlotsInv(s: State) {
    && (forall i :: 0 <= i < |s.listeners| ==> s.listeners[i].attempt == if i == 0 then First else Second)
    && (Cancelled(s, First) ==> s.listeners != [])
    && match s.main
       case Waiting => |s.listeners| == 1
       case Reconnected => |s.listeners| == 1
       case Connecting(a) => |s.listeners| == Slot(a)
       case Spawned(a) => |s.listeners| == Slot(a)
       case Seeded(a, _) => |s.listeners| == Slot(a)
       case Watching(a) => |s.listeners| == Slot(a) + 1
       case Succeeded(a) => |s.listeners| == Slot(a) + 1
       case FailedAttempt(a) => Slot(a) <= |s.listeners| <= Slot(a) + 1
       case Returned(_) => |s.listeners| <= 2
  }

  lemma SlotsTell(s: State, a: Attempt)
    requires SlotsInv(s)
    ensures Registered(s, a) <==> HasSlot(s, a)
    ensures HasSlot(s, a) ==> s.listeners[Slot(a)].attempt == a
  {
    if HasSlot(s, a) {
      assert s.listeners[Slot(a)] in s.listeners;
    }
  }

  /** The update being fanned out has been cloned for this listener and not yet run on it. */
  predicate Due(s: State, a: Attempt) {
    match s.observer
    case Idle => false
    case Written(_) => false
    case Fanning(fan) => fan.next <= Slot(a) < fan.count
    case Flapped(fan) => fan.next < Slot(a) < fan.count
    case TokenSet(fan) => fan.next < Slot(a) < fan.count
    case Swapped(fan) => fan.next < Slot(a) < fan.count
  }

  /** Its callback has started and not yet set the token. */
  predicate AboutToCancel(s: State, a: Attempt) {
    s.observer.Flapped? && s.observer.fan.next == Slot(a)
  }

  /** Its callback has set the token and not yet taken the flag. */
  predicate AboutToSwap(s: State, a: Attempt) {
    s.observer.TokenSet? && s.observer.fan.next == Slot(a)
  }

  /** What the listener has run on so far. */
  ghost function Handled(s: State, a: Attempt, seen: seq<LinkState>): seq<LinkState> {
    if Due(s, a) && seen != [] then seen[..|seen| - 1] else seen
  }

  /** One listener against the links it has observed: its `last` is the one it handled last, and
      its token is set, or about to be, iff the link dropped among those it has handled. */
  ghost predicate WatchInv(s: State, a: Attempt, seen: seq<LinkState>) {
    && (HasSlot(s, a) <==> seen != [])
    && (Signaled(s, a) ==> Cancelled(s, a))
    && (Cancelled(s, a) ==> Signaled(s, a) || AboutToSwap(s, a))
    && (AboutToSwap(s, a) ==> Cancelled(s, a))
    && (seen == [] ==> !Cancelled(s, a) && !AboutToCancel(s, a))
    && (seen != [] ==>
          var done := Handled(s, a, seen);
          && done != []
          && s.listeners[Slot(a)].last == done[|done| - 1]
          && (Due(s, a) ==> seen[|seen| - 1] == s.observer.fan.link)
          && (Cancelled(s, a) || AboutToCancel(s, a) <==> Drops(done)))
  }

  lemma SlotsStep(s: State, act: Action)
    requires Inv(s) && SlotsInv(s) && Enabled(s, act)
    ensures SlotsInv(Apply(s, act))
  {
  }

  lemma CloneWatchStep(s: State, a: Attempt, seen: seq<LinkState>)
    requires ObserverInv(s) && SlotsInv(s) && WatchInv(s, a, seen) && Enabled(s, CloneListeners)
    ensures WatchInv(Apply(s, CloneListeners), a, seen + Observes(s, CloneListeners, a))
  {
    SlotsTell(s, a);
    var s', seen' := Apply(s, CloneListeners), seen + Observes(s, CloneListeners, a);
    if HasSlot(s, a) {
      assert Handled(s', a, seen') == seen;
    } else {
      assert seen' == seen;
    }
  }

  lemma RunWatchStep(s: State, a: Attempt, seen: seq<LinkState>)
    requires ObserverInv(s) && SlotsInv(s) && WatchInv(s, a, seen) && Enabled(s, RunListener)
    ensures WatchInv(Apply(s, RunListener), a, seen)
  {
    var s' := Apply(s, RunListener);
    if s.observer.fan.next == Slot(a) {
      var done := seen[..|seen| - 1];
      assert Handled(s, a, seen) == done && Handled(s', a, seen) == seen;
      assert seen == done + [seen[|seen| - 1]];
      DropsAppend(done, seen[|seen| - 1]);
    } else {
      assert Due(s', a) == Due(s, a);
      assert Handled(s', a, seen) == Handled(s, a, seen);
    }
  }

  lemma CallbackWatchStep(s: State, act: Action, a: Attempt, seen: seq<LinkState>)
    requires ObserverInv(s) && SlotsInv(s) && WatchInv(s, a, seen) && Enabled(s, act)
    requires act.SetToken? || act.SwapFlag? || act.SendCancel?
    ensures WatchInv(Apply(s, act), a, seen)
  {
    var s' := Apply(s, act);
    assert Due(s', a) == Due(s, a);
    assert Handled(s', a, seen) == Handled(s, a, seen);
  }

  lemma IdleWatchStep(s: State, act: Action, a: Attempt, seen: seq<LinkState>)
    requires ObserverInv(s) && SlotsInv(s) && WatchInv(s, a, seen) && Enabled(s, act)
    requires act.Update? || act.FanDone?
    ensures WatchInv(Apply(s, act), a, seen)
  {
    assert Handled(Apply(s, act), a, seen) == Handled(s, a, seen) == seen;
  }

  lemma SubscribeOwn(s: State, a: Attempt)
    requires ObserverInv(s) && SlotsInv(s) && WatchInv(s, a, []) && Enabled(s, Subscribe) && s.main.attempt == a
    ensures WatchInv(Apply(s, Subscribe), a, [s.main.seed])
  {
    var s', seen := Apply(s, Subscribe), [s.main.seed];
    assert !Due(s', a) && !Drops(seen);
    assert s'.listeners[Slot(a)] == Listener(a, s.main.seed);
    assert Handled(s', a, seen) == seen;
  }

  lemma SubscribeOther(s: State, a: Attempt, seen: seq<LinkState>)
    requires ObserverInv(s) && SlotsInv(s) && WatchInv(s, a, seen) && Enabled(s, Subscribe) && s.main.attempt != a
    ensures WatchInv(Apply(s, Subscribe), a, seen)
  {
    var s' := Apply(s, Subscribe);
    assert HasSlot(s', a) == HasSlot(s, a) && Due(s', a) == Due(s, a);
    assert HasSlot(s, a) ==> s'.listeners[Slot(a)] == s.listeners[Slot(a)];
    assert Handled(s', a, seen) == Handled(s, a, seen);
  }

  lemma SubscribeWatchStep(s: State, a: Attempt, seen: seq<LinkState>)
    requires ObserverInv(s) && SlotsInv(s) && WatchInv(s, a, seen) && Enabled(s, Subscribe)
    ensures WatchInv(Apply(s, Subscribe), a, seen + Observes(s, Subscribe, a))
  {
    if s.main.attempt == a {
      assert seen == [] && seen + Observes(s, Subscribe, a) == [s.main.seed];
      SubscribeOwn(s, a);
    } else {
      assert seen + Observes(s, Subscribe, a) == seen;
      SubscribeOther(s, a, seen);
    }
  }

  /** Steps that touch neither observer, listeners, flags nor this attempt's token. */
  lemma WatchFrame(s: State, s': State, a: Attempt, seen: seq<LinkState>)
    requires WatchInv(s, a, seen)
    requires s'.observer == s.observer && s'.listeners == s.listeners && s'.signaled == s.signaled
    requires Cancelled(s', a) == Cancelled(s, a)
    ensures WatchInv(s', a, seen)
  {
  }

  lemma MainWatchStep(s: State, act: Action, a: Attempt, seen: seq<LinkState>)
    requires SlotsInv(s) && WatchInv(s, a, seen) && Enabled(s, act)
    requires act.Spawn? || act.Seed? || act.EndAttempt? || act.Decide? || act.SeeConnected? || act.GiveUpWaiting? || act.Retry? || act.Finish?
    ensures WatchInv(Apply(s, act), a, seen)
  {
    WatchFrame(s, Apply(s, act), a, seen);
  }

  lemma {:induction false} RunKeepsWatch(states: seq<State>, actions: seq<Action>, n: nat, a: Attempt)
    requires IsRun(states, actions) && n < |states|
    ensures SlotsInv(states[n]) && WatchInv(states[n], a, Noted(states, actions, n, a))
  {
    if n > 0 {
      var s, act, seen := states[n - 1], actions[n - 1], Noted(states, actions, n - 1, a);
      RunKeepsWatch(states, actions, n - 1, a);
      RunKeepsInv(states, actions, n - 1);
      SlotsStep(s, act);
      WatchStep(s, act, a, seen);
    }
  }

  lemma WatchStep(s: State, act: Action, a: Attempt, seen: seq<LinkState>)
    requires ObserverInv(s) && SlotsInv(s) && WatchInv(s, a, seen) && Enabled(s, act)
    ensures WatchInv(Apply(s, act), a, seen + Observes(s, act, a))
  {
    if act.CloneListeners? {
      CloneWatchStep(s, a, seen);
    } else if act.Subscribe? {
      SubscribeWatchStep(s, a, seen);
    } else {
      assert seen + Observes(s, act, a) == seen;
      if act.RunListener? {
        RunWatchStep(s, a, seen);
      } else if act.Update? || act.FanDone? {
        IdleWatchStep(s, act, a, seen);
      } else if act.SetToken? || act.SwapFlag? || act.SendCancel? {
        CallbackWatchStep(s, act, a, seen);
      } else {
        MainWatchStep(s, act, a, seen);
      }
    }
  }

  /** In every run, between the observer's callbacks: an attempt's token is set, and its worker has
      been sent exactly one FlapCancel, iff among what its watcher observed, its seed and then the
      updates cloned after it subscribed, the link was up and next it was not. */
  lemma NoticedExactlyWhen(states: seq<State>, actions: seq<Action>, n: nat, a: Attempt)
    requires IsRun(states, actions) && n < |states| && states[n].observer.Idle?
    ensures Cancelled(states[n], a) <==> Drops(Seen(states, actions, n, a))
    ensures Count(states[n].sends, a) == if Drops(Seen(states, actions, n, a)) then 1 else 0
  {
    RunKeepsWatch(states, actions, n, a);
    RunKeepsInv(states, actions, n);
    SeenIsNoted(states, actions, n, a);
    assert SendInv(states[n], a);
    var seen := Seen(states, actions, n, a);
    assert seen == [] ==> !Drops(seen);
  }

  lemma {:induction false} SeenGrows(states: seq<State>, actions: seq<Action>, i: nat, n: nat, a: Attempt)
    requires |states| == |actions| + 1 && i <= n < |states|
    ensures Seen(states, actions, i, a) <= Seen(states, actions, n, a)
  {
    if i < n {
      SeenGrows(states, actions, i, n - 1, a);
    }
  }

  lemma DropsStay(seen: seq<LinkState>, more: seq<LinkState>)
    requires seen <= more && Drops(seen)
    ensures Drops(more)
  {
    var i :| 0 < i < |seen| && seen[i - 1].Connected? && !seen[i].Connected?;
    assert more[i - 1].Connected? && !more[i].Connected?;
  }

  /** So a drop that is cloned after the watcher subscribed, when the watcher last observed the link
      up, always sets the token and puts out exactly one FlapCancel. */
  lemma DropAfterSubscribeIsNoticed(states: seq<State>, actions: seq<Action>, i: nat, n: nat, a: Attempt)
    requires IsRun(states, actions) && i < n < |states| && states[n].observer.Idle?
    requires actions[i] == CloneListeners && Registered(states[i], a) && !states[i].link.Connected?
    requires var seen := Seen(states, actions, i, a); seen != [] && seen[|seen| - 1].Connected?
    ensures Cancelled(states[n], a) && Count(states[n].sends, a) == 1
  {
    RunKeepsInv(states, actions, i);
    DropsAppend(Seen(states, actions, i, a), states[i].link);
    SeenGrows(states, actions, i + 1, n, a);
    DropsStay(Seen(states, actions, i + 1, a), Seen(states, actions, n, a));
    NoticedExactlyWhen(states, actions, n, a);
  }

  // ----- what the seed does not catch -----

  lemma Extend(states: seq<State>, actions: seq<Action>, act: Action) returns (states': seq<State>, actions': seq<Action>)
    requires IsRun(states, actions) && Enabled(states[|states| - 1], act)
    ensures IsRun(states', actions')
    ensures states' == states + [Apply(states[|states| - 1], act)] && actions' == actions + [act]
  {
    states', actions' := states + [Apply(states[|states| - 1], act)], actions + [act];
  }

  /** The run starts with the link up and ends watching with the link down, the update fully fanned
      out, no token set and nothing sent. */
  ghost predicate MissedFlap(states: seq<State>, actions: seq<Action>) {
    && IsRun(states, actions) && states[0].link.Connected?
    && var s := states[|states| - 1];
       s.main == Watching(First) && s.observer.Idle? && !s.link.Connected? && !Cancelled(s, First) && s.sends == []
  }

  function UpAndConnecting(): State {
    State(Observer.Connected, Connecting(First), Idle, [], map[First := false], map[], [], [First])
  }

  /** A flap between reading the current link and registering the listener is missed: the
      watcher's comment says that it is not lost. */
  lemma FlapDuringSetupIsMissed() returns (states: seq<State>, actions: seq<Action>)
    ensures MissedFlap(states, actions)
    ensures actions == [Spawn, Seed, Update(Observer.NotConnected(0)), CloneListeners, FanDone, Subscribe]
  {
    var down := Observer.NotConnected(0);
    states, actions := [UpAndConnecting()], [];
    states, actions := Extend(states, actions, Spawn);
    states, actions := Extend(states, actions, Seed);
    states, actions := Extend(states, actions, Update(down));
    states, actions := Extend(states, actions, CloneListeners);
    states, actions := Extend(states, actions, FanDone);
    states, actions := Extend(states, actions, Subscribe);
  }

  /** So is a flap before the current link is read: the seed itself is then down. */
  lemma FlapBeforeSeedIsMissed() returns (states: seq<State>, actions: seq<Action>)
    ensures MissedFlap(states, actions)
    ensures actions == [Update(Observer.NotConnected(0)), CloneListeners, FanDone, Spawn, Seed, Subscribe]
  {
    var down := Observer.NotConnected(0);
    states, actions := [UpAndConnecting()], [];
    states, actions := Extend(states, actions, Update(down));
    states, actions := Extend(states, actions, CloneListeners);
    states, actions := Extend(states, actions, FanDone);
    states, actions := Extend(states, actions, Spawn);
    states, actions := Extend(states, actions, Seed);
    states, actions := Extend(states, actions, Subscribe);
  }
}
