/** `Manager::link` joined to the workers it talks to: the flap machine, each attempt's worker and
    its message queue, as interleaved steps. */
module LinkRun {
  import opened Common
  import W = WsWorker
  import F = FlapRecovery
  import N = FlapNotice

  type Attempt = F.Attempt

  /** An attempt's worker: what its iterations have met, and the messages waiting for it. */
  datatype Box = Box(deadline: nat, started: nat, inputs: seq<W.Input>, inbox: seq<W.Ipc>)
  {
    function Worker(): W.State {
      W.Run(deadline, W.Started(started), inputs)
    }

    /** What `wait_and_take_binary` returns once the page is back; an untouched page is an error. */
    function Result(): Option<W.PendingResult> {
      var answers := Worker().answers;
      if answers == [] then None
      else Some(if answers[0].reply.Filled? then answers[0].reply.result else W.Error)
    }
  }

  datatype State = State(flap: F.State, boxes: map<Attempt, Box>, waited: set<Attempt>)

  datatype Action =
    | SpawnWorker(deadline: nat, started: nat)
    | Wait                                       // the main thread blocks in wait_and_take_binary
    | Iterate(a: Attempt, input: W.Input)        // one turn of a worker's loop
    | Flap(act: F.Action)                        // any other step of the two threads

  /** An attempt with its worker spawned ends when the modal fails, or with what the worker answered. */
  predicate MayEnd(s: State, a: Attempt, ok: bool) {
    if a !in s.waited then !ok
    else a in s.boxes && s.boxes[a].Result().Some? && ok == s.boxes[a].Result().value.Binary?
  }

  predicate Taken(b: Box, input: W.Input) {
    b.inbox != [] && input.ipc == b.inbox[0]
  }

  predicate Enabled(s: State, x: Action) {
    match x
    case SpawnWorker(_, _) => F.Enabled(s.flap, F.Spawn)
    case Wait => s.flap.main.Watching? && s.flap.main.attempt !in s.waited
    case Iterate(a, input) =>
      && a in s.boxes
      && (input.ipc.Nothing? || input.ipc.UnknownOpcode? || input.ipc.ReceiveError? || Taken(s.boxes[a], input))
    case Flap(act) =>
      && !act.Spawn? && F.Enabled(s.flap, act)
      && (act.EndAttempt? && s.flap.main.Watching? ==> MayEnd(s, s.flap.main.attempt, act.ok))
  }

  function Post(boxes: map<Attempt, Box>, a: Attempt, ipc: W.Ipc): map<Attempt, Box> {
    if a in boxes then boxes[a := boxes[a].(inbox := boxes[a].inbox + [ipc])] else boxes
  }

  function Turn(b: Box, input: W.Input): Box {
    b.(inputs := b.inputs + [input], inbox := if Taken(b, input) then b.inbox[1..] else b.inbox)
  }

  /** The messages that a step of the two threads puts in the queues: a FlapCancel from the callback,
      and the Cancel handshake when an attempt with a worker ends. */
  function Mail(s: State, act: F.Action): map<Attempt, Box>
    requires F.Enabled(s.flap, act)
  {
    if act.SendCancel? then Post(s.boxes, s.flap.listeners[s.flap.observer.fan.next].attempt, W.FlapCancel)
    else if act.EndAttempt? && s.flap.main.Watching? then Post(s.boxes, s.flap.main.attempt, W.Cancel)
    else s.boxes
  }

  function Apply(s: State, x: Action): State
    requires Enabled(s, x)
  {
    match x
    case SpawnWorker(deadline, started) =>
      State(F.Apply(s.flap, F.Spawn), s.boxes[s.flap.main.attempt := Box(deadline, started, [], [])], s.waited)
    case Wait =>
      var a := s.flap.main.attempt;
      s.(boxes := Post(s.boxes, a, W.WaitAndTake(W.Call(0, true))), waited := s.waited + {a})
    case Iterate(a, input) => s.(boxes := s.boxes[a := Turn(s.boxes[a], input)])
    case Flap(act) => State(F.Apply(s.flap, act), Mail(s, act), s.waited)
  }

  ghost predicate IsRun(states: seq<State>, actions: seq<Action>) {
    && |states| == |actions| + 1
    && F.Init(states[0].flap) && states[0].boxes == map[] && states[0].waited == {}
    && forall i :: 0 <= i < |actions| ==> Enabled(states[i], actions[i]) && states[i + 1] == Apply(states[i], actions[i])
  }

  // ----- the flap machine inside -----

  /** The token goes before the flag. */
  predicate TokenInv(f: F.State, a: Attempt) {
    && (F.Signaled(f, a) ==> F.Cancelled(f, a) && N.HasSlot(f, a))
    && (N.AboutToSwap(f, a) ==> F.Cancelled(f, a))
  }

  ghost predicate FlapInv(f: F.State) {
    F.Inv(f) && N.SlotsInv(f) && TokenInv(f, F.First) && TokenInv(f, F.Second)
  }

  lemma TokenStep(f: F.State, act: F.Action, a: Attempt)
    requires F.ObserverInv(f) && N.SlotsInv(f) && TokenInv(f, a) && F.Enabled(f, act)
    ensures TokenInv(F.Apply(f, act), a)
  {
  }

  lemma FlapStep(f: F.State, act: F.Action)
    requires FlapInv(f) && F.Enabled(f, act)
    ensures FlapInv(F.Apply(f, act))
  {
    F.StepKeepsInv(f, act);
    N.SlotsStep(f, act);
    TokenStep(f, act, F.First);
    TokenStep(f, act, F.Second);
  }

  /** A FlapCancel that has been sent to a worker means that the attempt's token is set. */
  lemma SentMeansToken(f: F.State, a: Attempt)
    requires FlapInv(f) && F.Count(f.sends, a) >= 1
    ensures F.Cancelled(f, a)
  {
    assert F.SendInv(f, a);
    assert TokenInv(f, a);
  }

  // ----- the mail -----

  function Ipcs(inputs: seq<W.Input>): (r: seq<W.Ipc>)
    ensures |r| == |inputs| && forall i :: 0 <= i < |inputs| ==> r[i] == inputs[i].ipc
  {
    seq(|inputs|, i requires 0 <= i < |inputs| => inputs[i].ipc)
  }

  /** Everything a worker has met or will meet, in order. */
  function Stream(b: Box): seq<W.Ipc> {
    Ipcs(b.inputs) + b.inbox
  }

  function Calls(ipcs: seq<W.Ipc>): nat {
    if ipcs == [] then 0
    else Calls(ipcs[..|ipcs| - 1]) + if ipcs[|ipcs| - 1].WaitAndTake? then 1 else 0
  }

  lemma CallsAppend(ipcs: seq<W.Ipc>, ipc: W.Ipc)
    ensures Calls(ipcs + [ipc]) == Calls(ipcs) + if ipc.WaitAndTake? then 1 else 0
  {
    assert (ipcs + [ipc])[..|ipcs|] == ipcs;
  }

  lemma {:induction false} CallsConcat(a: seq<W.Ipc>, b: seq<W.Ipc>)
    ensures Calls(a + b) == Calls(a) + Calls(b)
  {
    if b == [] {
      assert a + b == a;
    } else {
      var n := |b| - 1;
      assert a + b == a + b[..n] + [b[n]];
      CallsAppend(a + b[..n], b[n]);
      CallsConcat(a, b[..n]);
    }
  }

  predicate Before(main: F.MainPc, a: Attempt) {
    main == F.Connecting(a) || main == F.Spawned(a) || (main.Seeded? && main.attempt == a) || main == F.Watching(a)
  }

  ghost predicate StreamInv(ipcs: seq<W.Ipc>, sends: nat, waited: bool, before: bool) {
    && Calls(ipcs) <= (if waited then 1 else 0)
    && (forall i :: 0 <= i < |ipcs| ==>
          && (ipcs[i].WaitAndTake? ==> ipcs[i].call.memory)
          && (ipcs[i].FlapCancel? ==> sends >= 1)
          && (ipcs[i].Cancel? ==> !before))
  }

  ghost predicate BoxInv(s: State, a: Attempt) {
    && (a in s.waited ==> a in s.boxes)
    && (a.Second? && a in s.boxes ==> F.SecondStarted(s.flap))
    && (Before(s.flap.main, a) && !s.flap.main.Connecting? ==> a in s.boxes)
    && (a in s.boxes ==>
          StreamInv(Stream(s.boxes[a]), F.Count(s.flap.sends, a), a in s.waited, Before(s.flap.main, a)))
  }

  ghost predicate Inv(s: State) {
    FlapInv(s.flap) && BoxInv(s, F.First) && BoxInv(s, F.Second)
  }

  /** The stream with one more message, or with one that means nothing. */
  lemma StreamGrows(ipcs: seq<W.Ipc>, ipc: W.Ipc, sends: nat, sends': nat, waited: bool, waited': bool, before: bool, before': bool)
    requires StreamInv(ipcs, sends, waited, before)
    requires sends <= sends' && (waited ==> waited') && (before' ==> before)
    requires ipc.WaitAndTake? ==> !waited && waited' && ipc.call.memory
    requires ipc.FlapCancel? ==> sends' >= 1
    requires ipc.Cancel? ==> !before'
    ensures StreamInv(ipcs + [ipc], sends', waited', before')
  {
    CallsAppend(ipcs, ipc);
  }

  lemma StreamStays(ipcs: seq<W.Ipc>, sends: nat, sends': nat, waited: bool, before: bool, before': bool)
    requires StreamInv(ipcs, sends, waited, before) && sends <= sends' && (before' ==> before)
    ensures StreamInv(ipcs, sends', waited, before')
  {
  }

  lemma PostStream(b: Box, ipc: W.Ipc)
    ensures Stream(b.(inbox := b.inbox + [ipc])) == Stream(b) + [ipc]
  {
  }

  lemma IpcsAppend(inputs: seq<W.Input>, input: W.Input)
    ensures Ipcs(inputs + [input]) == Ipcs(inputs) + [input.ipc]
  {
  }

  lemma TurnStream(b: Box, input: W.Input, sends: nat, waited: bool, before: bool)
    requires StreamInv(Stream(b), sends, waited, before)
    requires input.ipc.Nothing? || input.ipc.UnknownOpcode? || input.ipc.ReceiveError? || Taken(b, input)
    ensures StreamInv(Stream(Turn(b, input)), sends, waited, before)
  {
    IpcsAppend(b.inputs, input);
    if Taken(b, input) {
      assert Stream(Turn(b, input)) == Stream(b);
    } else {
      var head, met := Ipcs(b.inputs), Ipcs(b.inputs) + [input.ipc];
      CallsConcat(head, b.inbox);
      CallsConcat(met, b.inbox);
      CallsAppend(head, input.ipc);
      var all, was := met + b.inbox, head + b.inbox;
      forall i | 0 <= i < |all|
        ensures (all[i].WaitAndTake? ==> all[i].call.memory) && (all[i].FlapCancel? ==> sends >= 1) && (all[i].Cancel? ==> !before)
      {
        if i < |head| {
          assert all[i] == was[i];
        } else if i > |head| {
          assert all[i] == was[i - 1];
        }
      }
    }
  }

  /** What a step of the two threads does to the sends and to where the main thread is. */
  lemma FlapFrame(f: F.State, act: F.Action, a: Attempt)
    requires F.StartsInv(f) && F.Enabled(f, act)
    ensures var f' := F.Apply(f, act);
            && F.Count(f'.sends, a) == F.Count(f.sends, a)
                 + (if act.SendCancel? && f.listeners[f.observer.fan.next].attempt == a then 1 else 0)
            && (F.SecondStarted(f) ==> F.SecondStarted(f'))
            && (Before(f'.main, a) && !act.Spawn? ==> Before(f.main, a) || (a.Second? && !F.SecondStarted(f) && f'.main.Connecting?))
  {
    if act.SendCancel? {
      F.CountAppend(f.sends, a, f.listeners[f.observer.fan.next].attempt);
    }
  }

  lemma SpawnStep(s: State, x: Action, a: Attempt)
    requires Inv(s) && BoxInv(s, a) && x.SpawnWorker? && Enabled(s, x)
    ensures BoxInv(Apply(s, x), a)
  {
    FlapFrame(s.flap, F.Spawn, a);
    if s.flap.main.attempt == a {
      assert Stream(Apply(s, x).boxes[a]) == [];
    }
  }

  lemma WaitStep(s: State, a: Attempt)
    requires Inv(s) && BoxInv(s, a) && Enabled(s, Wait)
    ensures BoxInv(Apply(s, Wait), a)
  {
    if s.flap.main.attempt == a {
      var b, call := s.boxes[a], W.WaitAndTake(W.Call(0, true));
      var n, before := F.Count(s.flap.sends, a), Before(s.flap.main, a);
      PostStream(b, call);
      StreamGrows(Stream(b), call, n, n, false, true, before, before);
    }
  }

  lemma IterateStep(s: State, x: Action, a: Attempt)
    requires Inv(s) && BoxInv(s, a) && x.Iterate? && Enabled(s, x)
    ensures BoxInv(Apply(s, x), a)
  {
    if x.a == a {
      TurnStream(s.boxes[a], x.input, F.Count(s.flap.sends, a), a in s.waited, Before(s.flap.main, a));
    }
  }

  lemma SendStep(s: State, a: Attempt)
    requires Inv(s) && BoxInv(s, a) && Enabled(s, Flap(F.SendCancel))
    requires s.flap.listeners[s.flap.observer.fan.next].attempt == a
    ensures BoxInv(Apply(s, Flap(F.SendCancel)), a)
  {
    FlapFrame(s.flap, F.SendCancel, a);
    if a in s.boxes {
      var b, n, before := s.boxes[a], F.Count(s.flap.sends, a), Before(s.flap.main, a);
      PostStream(b, W.FlapCancel);
      StreamGrows(Stream(b), W.FlapCancel, n, n + 1, a in s.waited, a in s.waited, before, before);
    }
  }

  lemma EndStep(s: State, ok: bool, a: Attempt)
    requires BoxInv(s, a) && s.flap.main == F.Watching(a)
    ensures BoxInv(State(F.Apply(s.flap, F.EndAttempt(ok)), Post(s.boxes, a, W.Cancel), s.waited), a)
  {
    var f' := F.Apply(s.flap, F.EndAttempt(ok));
    assert f'.sends == s.flap.sends && f'.starts == s.flap.starts && !Before(f'.main, a);
    var b, n := s.boxes[a], F.Count(s.flap.sends, a);
    PostStream(b, W.Cancel);
    StreamGrows(Stream(b), W.Cancel, n, n, a in s.waited, a in s.waited, true, false);
  }

  lemma NoMailStep(s: State, act: F.Action, a: Attempt)
    requires Inv(s) && BoxInv(s, a) && Enabled(s, Flap(act))
    requires a in s.boxes ==> a in Mail(s, act) && Mail(s, act)[a] == s.boxes[a]
    requires a in Mail(s, act) ==> a in s.boxes
    ensures BoxInv(Apply(s, Flap(act)), a)
  {
    var s' := Apply(s, Flap(act));
    FlapFrame(s.flap, act, a);
    if a in s.boxes {
      StreamStays(Stream(s.boxes[a]), F.Count(s.flap.sends, a), F.Count(s'.flap.sends, a), a in s.waited,
                  Before(s.flap.main, a), Before(s'.flap.main, a));
    }
  }

  lemma MailStep(s: State, act: F.Action, a: Attempt)
    requires Inv(s) && BoxInv(s, a) && Enabled(s, Flap(act))
    ensures BoxInv(Apply(s, Flap(act)), a)
  {
    if act.SendCancel? && s.flap.listeners[s.flap.observer.fan.next].attempt == a {
      SendStep(s, a);
    } else if act.EndAttempt? && s.flap.main == F.Watching(a) {
      EndStep(s, act.ok, a);
    } else {
      NoMailStep(s, act, a);
    }
  }

  lemma BoxStep(s: State, x: Action, a: Attempt)
    requires Inv(s) && BoxInv(s, a) && Enabled(s, x)
    ensures BoxInv(Apply(s, x), a)
  {
    match x
    case SpawnWorker(_, _) => SpawnStep(s, x, a);
    case Wait => WaitStep(s, a);
    case Iterate(_, _) => IterateStep(s, x, a);
    case Flap(act) => MailStep(s, act, a);
  }

  lemma StepKeepsInv(s: State, x: Action)
    requires Inv(s) && Enabled(s, x)
    ensures Inv(Apply(s, x))
  {
    if x.Flap? {
      FlapStep(s.flap, x.act);
    } else if x.SpawnWorker? {
      FlapStep(s.flap, F.Spawn);
    }
    BoxStep(s, x, F.First);
    BoxStep(s, x, F.Second);
  }

  lemma {:induction false} RunKeepsInv(states: seq<State>, actions: seq<Action>, n: nat)
    requires IsRun(states, actions) && n < |states|
    ensures Inv(states[n])
  {
    if n > 0 {
      RunKeepsInv(states, actions, n - 1);
      StepKeepsInv(states[n - 1], actions[n - 1]);
    }
  }

  // ----- one call blocks -----

  lemma {:induction false} NoCallBlocks(deadline: nat, s: W.State, inputs: seq<W.Input>)
    requires forall i :: 0 <= i < |inputs| ==> !inputs[i].ipc.WaitAndTake?
    ensures W.Blocking(deadline, s, inputs)
    decreases |inputs|
  {
    if inputs != [] {
      NoCallBlocks(deadline, W.Step(deadline, s, inputs[0]), inputs[1..]);
    }
  }

  /** A worker that is called at most once, with a page, has a caller that blocks. */
  lemma {:induction false} OneCallBlocks(deadline: nat, s: W.State, inputs: seq<W.Input>)
    requires s.waiter.None? && Calls(Ipcs(inputs)) <= 1
    requires forall i :: 0 <= i < |inputs| && inputs[i].ipc.WaitAndTake? ==> inputs[i].ipc.call.memory
    ensures W.Blocking(deadline, s, inputs)
    decreases |inputs|
  {
    if inputs != [] {
      var rest, s' := inputs[1..], W.Step(deadline, s, inputs[0]);
      CallsHead(inputs);
      if inputs[0].ipc.WaitAndTake? {
        NoneLeft(rest);
        NoCallBlocks(deadline, s', rest);
      } else {
        NoCallNoWaiter(deadline, s, inputs[0]);
        OneCallBlocks(deadline, s', rest);
      }
      BlockingStep(deadline, s, inputs);
    }
  }

  lemma CallsHead(inputs: seq<W.Input>)
    requires inputs != []
    ensures Calls(Ipcs(inputs)) == Calls(Ipcs(inputs[1..])) + if inputs[0].ipc.WaitAndTake? then 1 else 0
  {
    var ipcs, rest := Ipcs(inputs), Ipcs(inputs[1..]);
    assert ipcs == [ipcs[0]] + rest;
    CallsConcat([ipcs[0]], rest);
    CallsAppend([], ipcs[0]);
    assert [] + [ipcs[0]] == [ipcs[0]];
  }

  lemma NoCallNoWaiter(deadline: nat, s: W.State, input: W.Input)
    requires s.waiter.None? && !input.ipc.WaitAndTake?
    ensures W.Step(deadline, s, input).waiter.None?
  {
    W.MiddleFrame(deadline, W.Serve(s, input.ipc), input);
  }

  lemma BlockingStep(deadline: nat, s: W.State, inputs: seq<W.Input>)
    requires inputs != [] && (inputs[0].ipc.WaitAndTake? ==> s.waiter.None? && inputs[0].ipc.call.memory)
    requires W.Blocking(deadline, W.Step(deadline, s, inputs[0]), inputs[1..])
    ensures W.Blocking(deadline, s, inputs)
  {
  }

  lemma {:induction false} NoneLeft(inputs: seq<W.Input>)
    requires Calls(Ipcs(inputs)) == 0
    ensures forall i :: 0 <= i < |inputs| ==> !inputs[i].ipc.WaitAndTake?
  {
    if inputs != [] {
      var n := |inputs| - 1;
      assert Ipcs(inputs)[..n] == Ipcs(inputs[..n]);
      NoneLeft(inputs[..n]);
    }
  }

  /** What the mail says of the inputs met so far. */
  lemma InputsOf(b: Box, sends: nat, waited: bool, before: bool)
    requires StreamInv(Stream(b), sends, waited, before)
    ensures Calls(Ipcs(b.inputs)) <= 1
    ensures forall i :: 0 <= i < |b.inputs| ==>
              && (b.inputs[i].ipc.WaitAndTake? ==> b.inputs[i].ipc.call.memory)
              && (b.inputs[i].ipc.FlapCancel? ==> sends >= 1)
              && (b.inputs[i].ipc.Cancel? ==> !before)
  {
    CallsConcat(Ipcs(b.inputs), b.inbox);
    forall i | 0 <= i < |b.inputs| ensures Stream(b)[i] == b.inputs[i].ipc {
    }
  }

  // ----- the two machines together -----

  lemma {:induction false} CancelledIsFlap(deadline: nat, sent: nat, inputs: seq<W.Input>) returns (k: nat)
    requires W.FirstTerminal(deadline, sent, inputs) == Some(W.Cancelled)
    ensures k < |inputs| && inputs[k].ipc.FlapCancel?
    decreases |inputs|
  {
    if inputs[0].ipc.FlapCancel? {
      k := 0;
    } else {
      k := CancelledIsFlap(deadline, W.LastSent(sent, inputs[0]), inputs[1..]);
      k := k + 1;
    }
  }

  lemma {:induction false} FlapIsFirst(deadline: nat, sent: nat, inputs: seq<W.Input>, k: nat)
    requires k < |inputs| && k < W.Until(inputs) && inputs[k].ipc.FlapCancel?
    requires W.FirstTerminal(deadline, sent, inputs[..k]).None?
    ensures W.FirstTerminal(deadline, sent, inputs) == Some(W.Cancelled)
    decreases |inputs|
  {
    if k > 0 {
      assert inputs[..k][0] == inputs[0] && inputs[..k][1..] == inputs[1..][..k - 1];
      FlapIsFirst(deadline, W.LastSent(sent, inputs[0]), inputs[1..], k - 1);
    }
  }

  /** The page of a waiting attempt comes back with the earliest terminal event of its worker. */
  lemma ResultIsFirst(b: Box, sends: nat)
    requires StreamInv(Stream(b), sends, true, true)
    ensures var first := W.FirstTerminal(b.deadline, b.started, b.inputs);
            && (W.Received(b.inputs) != [] && first.Some? ==> b.Result() == first)
            && (b.Result() == Some(W.Cancelled) ==> first == Some(W.Cancelled))
  {
    InputsOf(b, sends, true, true);
    OneCallBlocks(b.deadline, W.Started(b.started), b.inputs);
    var s0 := W.Started(b.started);
    assert W.Inv(s0) && W.Ledger(s0) == [];
    W.AnsweredExactlyOnce(b.deadline, s0, b.inputs);
    assert W.Ledger(b.Worker()) == W.Received(b.inputs);
    if W.Received(b.inputs) != [] {
      W.BlockedCallerGetsFirst(b.deadline, b.started, b.inputs);
    } else {
      assert b.Worker().answers == [];
    }
  }

  /** In every run: once the worker has received the call and its first terminal event is a frame that
      fits, the attempt can only succeed. */
  lemma FrameMeansSuccess(states: seq<State>, actions: seq<Action>, n: nat, a: Attempt, frame: Bytes, ok: bool)
    requires IsRun(states, actions) && n < |states| && states[n].flap.main == F.Watching(a) && a in states[n].waited
    requires a in states[n].boxes
    requires var b := states[n].boxes[a];
             W.Received(b.inputs) != [] && W.FirstTerminal(b.deadline, b.started, b.inputs) == Some(W.Binary(frame))
    ensures Enabled(states[n], Flap(F.EndAttempt(ok))) <==> ok
  {
    RunKeepsInv(states, actions, n);
    assert BoxInv(states[n], a);
    ResultIsFirst(states[n].boxes[a], F.Count(states[n].flap.sends, a));
  }

  /** In every run of `link` with its workers: if `wait_and_take_binary` says Cancelled, the attempt's
      own token is set, so a first attempt that ends this way always goes on to wait for the link. */
  lemma CancelledIsRetried(states: seq<State>, actions: seq<Action>, n: nat, a: Attempt)
    requires IsRun(states, actions) && n < |states| && states[n].flap.main == F.Watching(a) && a in states[n].waited
    requires a in states[n].boxes && states[n].boxes[a].Result() == Some(W.Cancelled)
    ensures F.Cancelled(states[n].flap, a)
    ensures a.First? ==>
              var ended := F.Apply(states[n].flap, F.EndAttempt(false));
              F.Enabled(ended, F.Decide) && F.Apply(ended, F.Decide).main == F.Waiting
  {
    var s, b := states[n], states[n].boxes[a];
    RunKeepsInv(states, actions, n);
    assert BoxInv(s, a);
    ResultIsFirst(b, F.Count(s.flap.sends, a));
    var k := CancelledIsFlap(b.deadline, b.started, b.inputs);
    InputsOf(b, F.Count(s.flap.sends, a), true, true);
    SentMeansToken(s.flap, a);
  }

  /** And if an attempt's FlapCancel reaches its worker before any other terminal event, then once the
      worker has received the call it answers Cancelled, the attempt can only fail, and its token is
      set: a first attempt goes on to wait for the link. */
  lemma FlapEndsTheAttempt(states: seq<State>, actions: seq<Action>, n: nat, a: Attempt, k: nat, ok: bool)
    requires IsRun(states, actions) && n < |states| && states[n].flap.main == F.Watching(a)
    requires a in states[n].boxes
    requires var b := states[n].boxes[a];
             && k < |b.inputs| && k < W.Until(b.inputs) && b.inputs[k].ipc.FlapCancel?
             && W.FirstTerminal(b.deadline, b.started, b.inputs[..k]).None?
    requires Enabled(states[n], Flap(F.EndAttempt(ok)))
    ensures !ok && F.Cancelled(states[n].flap, a)
    ensures W.Received(states[n].boxes[a].inputs) != [] ==> states[n].boxes[a].Result() == Some(W.Cancelled)
    ensures a.First? ==>
              var ended := Apply(states[n], Flap(F.EndAttempt(ok)));
              Enabled(ended, Flap(F.Decide)) && Apply(ended, Flap(F.Decide)).flap.main == F.Waiting
  {
    var s, b := states[n], states[n].boxes[a];
    RunKeepsInv(states, actions, n);
    assert BoxInv(s, a);
    var sends := F.Count(s.flap.sends, a);
    InputsOf(b, sends, a in s.waited, true);
    SentMeansToken(s.flap, a);
    FlapIsFirst(b.deadline, b.started, b.inputs, k);
    AsWaited(Stream(b), sends, a in s.waited);
    ResultIsFirst(b, sends);
    if a in s.waited {
      AnsweredMeansReceived(b);
    }
    if a.First? {
      GoesOnToWait(s, ok);
    }
  }

  /** A first attempt that fails with its token set is followed by the wait for the link. */
  lemma GoesOnToWait(s: State, ok: bool)
    requires s.flap.main == F.Watching(F.First) && Enabled(s, Flap(F.EndAttempt(ok))) && !ok && F.Cancelled(s.flap, F.First)
    ensures var ended := Apply(s, Flap(F.EndAttempt(ok)));
            Enabled(ended, Flap(F.Decide)) && Apply(ended, Flap(F.Decide)).flap.main == F.Waiting
  {
  }

  lemma AsWaited(ipcs: seq<W.Ipc>, sends: nat, waited: bool)
    requires StreamInv(ipcs, sends, waited, true)
    ensures StreamInv(ipcs, sends, true, true)
  {
  }

  lemma AnsweredMeansReceived(b: Box)
    ensures b.Result().Some? ==> W.Received(b.inputs) != []
  {
    var s0 := W.Started(b.started);
    assert W.Inv(s0) && W.Ledger(s0) == [];
    W.AnsweredExactlyOnce(b.deadline, s0, b.inputs);
    var s := b.Worker();
    assert W.Ledger(s) == W.Received(b.inputs);
    assert s.answers != [] ==> W.Ledger(s) != [];
  }
}
