/** The one-shot provisioning worker: a loop that serves IPC, watches a deadline, keeps the
    socket alive, reads it, and hands one terminal result to a parked caller. */
module WsWorker {
  import opened Common

  const WS_PROVISION_MAX: nat := 8192
  const KEEPALIVE_MS: nat := 25_000

  datatype PendingResult = Binary(bytes: Bytes) | Closed | TimedOut | Cancelled | Error

  /** A `WaitAndTakeBinary` message; `memory` says that it carries a lent page. */
  datatype Call = Call(id: nat, memory: bool)

  datatype Ipc = Nothing | WaitAndTake(call: Call) | Cancel | FlapCancel | UnknownOpcode | ReceiveError

  datatype Read = GotBinary(bytes: Bytes) | GotIgnored | GotClose | ReadTimeout | ReadError

  /** What one iteration finds: the message waiting, the three clock readings in the order they are
      taken, whether a ping goes out, and what the socket yields. */
  datatype Input = Input(ipc: Ipc, deadlineClock: nat, pingClock: nat, pingOk: bool, sentClock: nat, read: Read)

  /** How a call's page goes back: filled, lost because the message carried no page, or returned
      as it came because the message was dropped. */
  datatype Reply = Filled(result: PendingResult) | Lost(result: PendingResult) | Untouched

  datatype Answer = Answer(call: Call, reply: Reply)

  datatype SocketOp = PingOp | ReadOp

  datatype State = State(
    pending: Option<PendingResult>,
    waiter: Option<Call>,
    flapCancelled: bool,
    lastSendAt: nat,
    running: bool,
    answers: seq<Answer>,
    socket: seq<SocketOp>)

  function Started(now: nat): State {
    State(None, None, false, now, true, [], [])
  }

  function FillBuf(call: Call, result: PendingResult): Answer {
    Answer(call, if call.memory then Filled(result) else Lost(result))
  }

  /** (1) IPC. A second caller replaces a parked one, whose message is dropped. */
  function Serve(s: State, ipc: Ipc): State {
    match ipc
    case WaitAndTake(call) =>
      if s.pending.Some? then s.(pending := None, answers := s.answers + [FillBuf(call, s.pending.value)])
      else if s.waiter.Some? then s.(waiter := Some(call), answers := s.answers + [Answer(s.waiter.value, Untouched)])
      else s.(waiter := Some(call))
    case Cancel =>
      if s.waiter.Some? then
        s.(running := false, waiter := None, answers := s.answers + [FillBuf(s.waiter.value, Cancelled)])
      else s.(running := false)
    case FlapCancel => s.(flapCancelled := true, pending := if s.pending.None? then Some(Cancelled) else s.pending)
    case ReceiveError =>
      if s.waiter.Some? then
        s.(running := false, waiter := None, answers := s.answers + [Answer(s.waiter.value, Untouched)])
      else s.(running := false)
    case _ => s
  }

  /** (2) Deadline. */
  function CheckDeadline(s: State, deadline: nat, now: nat): State {
    if s.pending.None? && now >= deadline then s.(pending := Some(TimedOut)) else s
  }

  predicate PingDue(lastSendAt: nat, now: nat) {
    (if now >= lastSendAt then now - lastSendAt else 0) >= KEEPALIVE_MS
  }

  /** (3) Keepalive. */
  function KeepAlive(s: State, input: Input): State {
    if s.flapCancelled || s.pending.Some? || !PingDue(s.lastSendAt, input.pingClock) then s
    else
      var t := s.(socket := s.socket + [PingOp]);
      if input.pingOk then t.(lastSendAt := input.sentClock) else t.(pending := Some(Error))
  }

  function ReadResult(read: Read): Option<PendingResult> {
    match read
    case GotBinary(b) => Some(if |b| > WS_PROVISION_MAX then Error else Binary(b))
    case GotClose => Some(Closed)
    case ReadError => Some(Error)
    case _ => None
  }

  /** (4) Drive the socket. */
  function Drive(s: State, read: Read): State {
    if s.flapCancelled || s.pending.Some? then s
    else s.(socket := s.socket + [ReadOp], pending := ReadResult(read))
  }

  /** (5) Deliver. */
  function Deliver(s: State): State {
    if s.pending.Some? && s.waiter.Some? then
      s.(pending := None, waiter := None, answers := s.answers + [FillBuf(s.waiter.value, s.pending.value)])
    else s
  }

  /** (2) to (4): what an iteration does between its IPC and its delivery. */
  function Middle(deadline: nat, s: State, input: Input): State {
    Drive(KeepAlive(CheckDeadline(s, deadline, input.deadlineClock), input), input.read)
  }

  function Step(deadline: nat, s: State, input: Input): State {
    var s1 := Serve(s, input.ipc);
    if s1.running then Deliver(Middle(deadline, s1, input)) else s1
  }

  /** The middle touches neither the caller nor the answers, and keeps a pending result. */
  lemma MiddleFrame(deadline: nat, s: State, input: Input)
    ensures var t := Middle(deadline, s, input);
            && t.answers == s.answers && t.waiter == s.waiter
            && t.running == s.running && t.flapCancelled == s.flapCancelled
            && (s.pending.Some? ==> t.pending == s.pending)
            && (s.flapCancelled ==> t.socket == s.socket)
  {
  }

  /** The loop over the inputs it meets; after it ends nothing happens. */
  function Run(deadline: nat, s: State, inputs: seq<Input>): State
    decreases |inputs|
  {
    if inputs == [] || !s.running then s else Run(deadline, Step(deadline, s, inputs[0]), inputs[1..])
  }

  lemma RunTurn(deadline: nat, s: State, inputs: seq<Input>)
    requires inputs != [] && s.running
    ensures Run(deadline, s, inputs) == Run(deadline, Step(deadline, s, inputs[0]), inputs[1..])
    ensures !Step(deadline, s, inputs[0]).running ==> Run(deadline, s, inputs) == Step(deadline, s, inputs[0])
  {
  }

  lemma {:induction false} RunSplit(deadline: nat, s: State, a: seq<Input>, b: seq<Input>)
    ensures Run(deadline, s, a + b) == Run(deadline, Run(deadline, s, a), b)
    decreases |a|
  {
    if a == [] {
      assert a + b == b;
    } else if s.running {
      assert (a + b)[0] == a[0] && (a + b)[1..] == a[1..] + b;
      RunSplit(deadline, Step(deadline, s, a[0]), a[1..], b);
    }
  }

  // ----- every call is answered exactly once, in the order received -----

  /** At the head of the loop a result and a caller never wait for each other. */
  predicate Inv(s: State) {
    && !(s.pending.Some? && s.waiter.Some?)
    && (!s.running ==> s.waiter.None?)
  }

  function Answered(answers: seq<Answer>): seq<Call> {
    seq(|answers|, i requires 0 <= i < |answers| => answers[i].call)
  }

  function Parked(s: State): seq<Call> {
    if s.waiter.Some? then [s.waiter.value] else []
  }

  /** The calls the worker receives: those before the message that ends the loop. */
  function Received(inputs: seq<Input>): seq<Call> {
    if inputs == [] || inputs[0].ipc.Cancel? || inputs[0].ipc.ReceiveError? then []
    else (if inputs[0].ipc.WaitAndTake? then [inputs[0].ipc.call] else []) + Received(inputs[1..])
  }

  /** The calls seen so far: those answered, then the parked one. */
  function Ledger(s: State): seq<Call> {
    Answered(s.answers) + Parked(s)
  }

  lemma LedgerAppend(answers: seq<Answer>, a: Answer)
    ensures Answered(answers + [a]) == Answered(answers) + [a.call]
  {
  }

  lemma ServeKeepsCalls(s: State, ipc: Ipc)
    requires Inv(s) && s.running
    ensures var s1 := Serve(s, ipc);
            && Ledger(s1) == Ledger(s) + (if ipc.WaitAndTake? then [ipc.call] else [])
            && (s1.running <==> !ipc.Cancel? && !ipc.ReceiveError?)
            && (!s1.running ==> s1.waiter.None?)
  {
    var s1 := Serve(s, ipc);
    if s1.answers != s.answers {
      LedgerAppend(s.answers, s1.answers[|s.answers|]);
    }
  }

  lemma DeliverKeepsCalls(s: State)
    requires s.running
    ensures Ledger(Deliver(s)) == Ledger(s) && Inv(Deliver(s))
  {
    if s.pending.Some? && s.waiter.Some? {
      LedgerAppend(s.answers, FillBuf(s.waiter.value, s.pending.value));
    }
  }

  lemma StepKeepsCalls(deadline: nat, s: State, input: Input)
    requires Inv(s) && s.running
    ensures var s' := Step(deadline, s, input);
            && Inv(s')
            && Ledger(s') == Ledger(s) + (if input.ipc.WaitAndTake? then [input.ipc.call] else [])
            && (s'.running <==> !input.ipc.Cancel? && !input.ipc.ReceiveError?)
  {
    ServeKeepsCalls(s, input.ipc);
    var s1 := Serve(s, input.ipc);
    if s1.running {
      MiddleFrame(deadline, s1, input);
      DeliverKeepsCalls(Middle(deadline, s1, input));
    }
  }

  /** Each call is returned exactly once and in order: what has been answered, followed by the one
      parked call if any, is what was received; once the loop has ended nothing is parked. */
  lemma {:induction false} AnsweredExactlyOnce(deadline: nat, s: State, inputs: seq<Input>)
    requires Inv(s) && s.running
    ensures var s' := Run(deadline, s, inputs);
            && Inv(s')
            && Ledger(s') == Ledger(s) + Received(inputs)
    decreases |inputs|
  {
    if inputs != [] {
      StepKeepsCalls(deadline, s, inputs[0]);
      var s1 := Step(deadline, s, inputs[0]);
      if s1.running {
        AnsweredExactlyOnce(deadline, s1, inputs[1..]);
        assert Received(inputs) == (if inputs[0].ipc.WaitAndTake? then [inputs[0].ipc.call] else []) + Received(inputs[1..]);
      } else {
        assert Received(inputs) == [];
      }
    }
  }

  // ----- the first terminal event wins -----

  /** The terminal event of an iteration that starts with nothing pending and the socket live, by
      precedence: flap, deadline, failed ping, what the socket yields. */
  function TerminalEvent(deadline: nat, lastSendAt: nat, input: Input): Option<PendingResult> {
    if input.ipc.FlapCancel? then Some(Cancelled)
    else if input.deadlineClock >= deadline then Some(TimedOut)
    else if PingDue(lastSendAt, input.pingClock) && !input.pingOk then Some(Error)
    else ReadResult(input.read)
  }

  function LastSent(lastSendAt: nat, input: Input): nat {
    if PingDue(lastSendAt, input.pingClock) && input.pingOk then input.sentClock else lastSendAt
  }

  /** The earliest terminal event, read off the inputs alone; `None` if the loop ends first. */
  function FirstTerminal(deadline: nat, lastSendAt: nat, inputs: seq<Input>): Option<PendingResult>
    decreases |inputs|
  {
    if inputs == [] || inputs[0].ipc.Cancel? || inputs[0].ipc.ReceiveError? then None
    else
      var e := TerminalEvent(deadline, lastSendAt, inputs[0]);
      if e.Some? then e else FirstTerminal(deadline, LastSent(lastSendAt, inputs[0]), inputs[1..])
  }

  /** The results handed over so far, in order. */
  function Handed(answers: seq<Answer>): seq<PendingResult> {
    if answers == [] then []
    else
      var rest := Handed(answers[..|answers| - 1]);
      match answers[|answers| - 1].reply
      case Filled(r) => rest + [r]
      case Lost(r) => rest + [r]
      case Untouched => rest
  }

  lemma HandedAppend(answers: seq<Answer>, a: Answer)
    ensures Handed(answers + [a]) == Handed(answers) + (if a.reply.Untouched? then [] else [a.reply.result])
  {
    assert (answers + [a])[..|answers|] == answers;
  }

  /** Nothing terminal has happened yet: no result pending or handed over, and the socket is live. */
  predicate Quiet(s: State) {
    s.pending.None? && !s.flapCancelled && Handed(s.answers) == [] && s.running
  }

  /** Whoever is served first gets, or has got, `r`. */
  predicate Settled(s: State, r: PendingResult) {
    if Handed(s.answers) != [] then Handed(s.answers)[0] == r else s.pending == Some(r)
  }

  lemma MiddleEvent(deadline: nat, s: State, input: Input)
    requires s.pending.None? && !s.flapCancelled && !input.ipc.FlapCancel?
    ensures var t := Middle(deadline, s, input);
            && t.pending == TerminalEvent(deadline, s.lastSendAt, input)
            && (t.pending.None? ==> t.lastSendAt == LastSent(s.lastSendAt, input))
  {
  }

  lemma DeliverHands(s: State)
    ensures var t := Deliver(s);
            if s.pending.Some? && s.waiter.Some? then Handed(t.answers) == Handed(s.answers) + [s.pending.value]
            else t == s
  {
    if s.pending.Some? && s.waiter.Some? {
      HandedAppend(s.answers, FillBuf(s.waiter.value, s.pending.value));
    }
  }

  lemma QuietStep(deadline: nat, s: State, input: Input)
    requires Quiet(s) && Inv(s) && !input.ipc.Cancel? && !input.ipc.ReceiveError?
    ensures var s' := Step(deadline, s, input);
            match TerminalEvent(deadline, s.lastSendAt, input)
            case None => Quiet(s') && s'.lastSendAt == LastSent(s.lastSendAt, input)
            case Some(r) => Settled(s', r)
  {
    var s1 := Serve(s, input.ipc);
    ServeWhileQuiet(s, input.ipc);
    MiddleFrame(deadline, s1, input);
    DeliverHands(Middle(deadline, s1, input));
    if !input.ipc.FlapCancel? {
      MiddleEvent(deadline, s1, input);
    }
  }

  lemma ServeWhileQuiet(s: State, ipc: Ipc)
    requires Quiet(s) && !ipc.Cancel? && !ipc.ReceiveError?
    ensures var s1 := Serve(s, ipc);
            && s1.running && Handed(s1.answers) == [] && s1.lastSendAt == s.lastSendAt
            && (if ipc.FlapCancel? then s1.pending == Some(Cancelled) else s1.pending.None? && !s1.flapCancelled)
  {
    var s1 := Serve(s, ipc);
    if s1.answers != s.answers {
      HandedAppend(s.answers, s1.answers[|s.answers|]);
    }
  }

  /** A settled result is never overwritten: not by a flap, a deadline or a later frame. */
  lemma SettledStep(deadline: nat, s: State, r: PendingResult, input: Input)
    requires Inv(s) && s.running && Settled(s, r)
    requires Handed(s.answers) == [] ==> !input.ipc.Cancel? && !input.ipc.ReceiveError?
    ensures Settled(Step(deadline, s, input), r)
  {
    var s1 := Serve(s, input.ipc);
    AppendsOne(s, input.ipc);
    if s1.running {
      MiddleFrame(deadline, s1, input);
      DeliverHands(Middle(deadline, s1, input));
    }
  }

  lemma AppendsOne(s: State, ipc: Ipc)
    requires Inv(s)
    ensures var s1 := Serve(s, ipc);
            && Handed(s.answers) <= Handed(s1.answers)
            && (s1.answers == s.answers || s1.answers == s.answers + [s1.answers[|s.answers|]])
            && (s.pending.Some? && ipc.WaitAndTake? ==> Handed(s1.answers) == Handed(s.answers) + [s.pending.value])
            && (s.pending.Some? && !ipc.WaitAndTake? ==> s1.answers == s.answers && s1.pending == s.pending)
  {
    var s1 := Serve(s, ipc);
    if s1.answers != s.answers {
      HandedAppend(s.answers, s1.answers[|s.answers|]);
    }
  }

  /** The first result handed over is the earliest terminal event of the run; if the loop is
      cancelled before any, the parked caller is told so. */
  lemma {:induction false} FirstResultWins(deadline: nat, s: State, inputs: seq<Input>)
    requires Inv(s) && Quiet(s)
    ensures var s' := Run(deadline, s, inputs);
            var first := FirstTerminal(deadline, s.lastSendAt, inputs);
            Handed(s'.answers) != [] ==>
              Handed(s'.answers)[0] == if first.Some? then first.value else Cancelled
    decreases |inputs|
  {
    if inputs != [] {
      var input := inputs[0];
      var s1 := Step(deadline, s, input);
      StepKeepsCalls(deadline, s, input);
      RunTurn(deadline, s, inputs);
      if input.ipc.Cancel? || input.ipc.ReceiveError? {
        EndsQuiet(deadline, s, input);
      } else {
        QuietStep(deadline, s, input);
        var e := TerminalEvent(deadline, s.lastSendAt, input);
        if e.Some? {
          SettledRun(deadline, s1, e.value, inputs[1..]);
        } else {
          FirstResultWins(deadline, s1, inputs[1..]);
        }
      }
    }
  }

  lemma EndsQuiet(deadline: nat, s: State, input: Input)
    requires Inv(s) && Quiet(s) && (input.ipc.Cancel? || input.ipc.ReceiveError?)
    ensures var s' := Step(deadline, s, input);
            Handed(s'.answers) != [] ==> Handed(s'.answers)[0] == Cancelled
  {
    var s' := Serve(s, input.ipc);
    assert Step(deadline, s, input) == s';
    if s.waiter.Some? {
      var a := if input.ipc.Cancel? then FillBuf(s.waiter.value, Cancelled) else Answer(s.waiter.value, Untouched);
      assert s'.answers == s.answers + [a];
      HandedAppend(s.answers, a);
    } else {
      assert s'.answers == s.answers;
    }
  }

  lemma {:induction false} SettledRun(deadline: nat, s: State, r: PendingResult, inputs: seq<Input>)
    requires Inv(s) && Settled(s, r)
    ensures var s' := Run(deadline, s, inputs);
            Handed(s'.answers) != [] ==> Handed(s'.answers)[0] == r
    decreases |inputs|
  {
    if inputs != [] && s.running {
      var input := inputs[0];
      StepKeepsCalls(deadline, s, input);
      RunTurn(deadline, s, inputs);
      if Handed(s.answers) == [] && (input.ipc.Cancel? || input.ipc.ReceiveError?) {
        AppendsOne(s, input.ipc);
      } else {
        SettledStep(deadline, s, r, input);
        SettledRun(deadline, Step(deadline, s, input), r, inputs[1..]);
      }
    }
  }

  lemma {:induction false} SettledStays(deadline: nat, s: State, r: PendingResult, inputs: seq<Input>)
    requires Inv(s) && Settled(s, r)
    ensures var s' := Run(deadline, s, inputs); s'.running ==> Settled(s', r)
    decreases |inputs|
  {
    if inputs != [] && s.running {
      var input := inputs[0];
      StepKeepsCalls(deadline, s, input);
      RunTurn(deadline, s, inputs);
      if Step(deadline, s, input).running {
        SettledStep(deadline, s, r, input);
        SettledStays(deadline, Step(deadline, s, input), r, inputs[1..]);
      }
    }
  }

  /** As long as the loop runs, both ways: if the inputs hold a terminal event, the earliest one is
      pending or was the first result handed over; if they hold none, nothing is pending, nothing
      was handed over and the socket is live. */
  lemma {:induction false} EarliestIsOwed(deadline: nat, s: State, inputs: seq<Input>)
    requires Inv(s) && Quiet(s)
    ensures var s' := Run(deadline, s, inputs);
            s'.running ==>
              match FirstTerminal(deadline, s.lastSendAt, inputs)
              case Some(r) => Settled(s', r)
              case None => Quiet(s')
    decreases |inputs|
  {
    if inputs != [] {
      var input := inputs[0];
      var s1 := Step(deadline, s, input);
      StepKeepsCalls(deadline, s, input);
      RunTurn(deadline, s, inputs);
      if s1.running {
        QuietStep(deadline, s, input);
        var e := TerminalEvent(deadline, s.lastSendAt, input);
        if e.Some? {
          SettledStays(deadline, s1, e.value, inputs[1..]);
        } else {
          EarliestIsOwed(deadline, s1, inputs[1..]);
        }
      }
    }
  }

  /** A caller that lends a page and blocks until it comes back: it never calls while parked. */
  predicate Blocking(deadline: nat, s: State, inputs: seq<Input>)
    decreases |inputs|
  {
    inputs == [] || !s.running ||
    (&& (inputs[0].ipc.WaitAndTake? ==> s.waiter.None? && inputs[0].ipc.call.memory)
     && Blocking(deadline, Step(deadline, s, inputs[0]), inputs[1..]))
  }

  predicate Ends(ipc: Ipc) {
    ipc.Cancel? || ipc.ReceiveError?
  }

  /** How many inputs come before the message that ends the loop. */
  function Until(inputs: seq<Input>): (k: nat)
    ensures k <= |inputs| && (k < |inputs| ==> Ends(inputs[k].ipc))
  {
    if inputs == [] || Ends(inputs[0].ipc) then 0 else 1 + Until(inputs[1..])
  }

  /** Nothing after that message counts. */
  lemma {:induction false} UntilCounts(deadline: nat, s: State, inputs: seq<Input>)
    requires Inv(s) && s.running
    ensures var k := Until(inputs);
            var s1 := Run(deadline, s, inputs[..k]);
            && s1.running && Until(inputs[..k]) == k
            && Received(inputs[..k]) == Received(inputs)
            && (forall sent :: FirstTerminal(deadline, sent, inputs[..k]) == FirstTerminal(deadline, sent, inputs))
            && Run(deadline, s, inputs) == (if k < |inputs| then Step(deadline, s1, inputs[k]) else s1)
            && (Blocking(deadline, s, inputs) ==> Blocking(deadline, s, inputs[..k]))
    decreases |inputs|
  {
    var k := Until(inputs);
    if inputs != [] {
      StepKeepsCalls(deadline, s, inputs[0]);
      RunTurn(deadline, s, inputs);
      if k > 0 {
        var rest := inputs[1..];
        UntilCounts(deadline, Step(deadline, s, inputs[0]), rest);
        assert inputs[..k][1..] == rest[..k - 1];
      }
    }
  }

  predicate AllFilled(s: State) {
    && (forall i :: 0 <= i < |s.answers| ==> s.answers[i].reply.Filled?)
    && (s.waiter.Some? ==> s.waiter.value.memory)
  }

  lemma {:induction false} BlockingFills(deadline: nat, s: State, inputs: seq<Input>)
    requires AllFilled(s) && Blocking(deadline, s, inputs) && Until(inputs) == |inputs|
    ensures AllFilled(Run(deadline, s, inputs))
    decreases |inputs|
  {
    if inputs != [] && s.running {
      var s1 := Serve(s, inputs[0].ipc);
      assert AllFilled(s1);
      MiddleFrame(deadline, s1, inputs[0]);
      RunTurn(deadline, s, inputs);
      BlockingFills(deadline, Step(deadline, s, inputs[0]), inputs[1..]);
    }
  }

  lemma {:induction false} HandedFirst(answers: seq<Answer>)
    requires answers != [] && forall i :: 0 <= i < |answers| ==> answers[i].reply.Filled?
    ensures Handed(answers) != [] && Handed(answers)[0] == answers[0].reply.result
  {
    if |answers| == 1 {
      assert answers == [] + [answers[0]];
      HandedAppend([], answers[0]);
    } else {
      HandedFirst(answers[..|answers| - 1]);
    }
  }

  /** While the loop runs, the blocking caller is answered iff a terminal event has happened, and
      then its first answer is the earliest one; until then it is parked. */
  lemma BlockedWhileRunning(deadline: nat, now: nat, inputs: seq<Input>)
    requires Blocking(deadline, Started(now), inputs) && Until(inputs) == |inputs| && Received(inputs) != []
    ensures var s := Run(deadline, Started(now), inputs);
            match FirstTerminal(deadline, now, inputs)
            case Some(r) => s.answers != [] && s.answers[0] == Answer(Received(inputs)[0], Filled(r))
            case None => s.answers == [] && s.waiter == Some(Received(inputs)[0]) && s.waiter.value.memory
  {
    var s0 := Started(now);
    assert Ledger(s0) == [] && Quiet(s0) && Inv(s0) && AllFilled(s0);
    UntilCounts(deadline, s0, inputs);
    assert inputs[..|inputs|] == inputs;
    EarliestIsOwed(deadline, s0, inputs);
    AnsweredExactlyOnce(deadline, s0, inputs);
    BlockingFills(deadline, s0, inputs);
    var s := Run(deadline, s0, inputs);
    assert Ledger(s) == Received(inputs);
    if s.answers != [] {
      FirstAnswer(s, Received(inputs));
    } else {
      assert Ledger(s) == Parked(s) && Handed(s.answers) == [];
    }
  }

  /** A caller that blocks is answered exactly when a terminal event has happened or the loop has
      ended. Its first answer is the earliest terminal event of the run; if the loop ended before
      any, it is `Cancelled` after a Cancel, and the page as it came after a receive error. */
  lemma BlockedCallerGetsFirst(deadline: nat, now: nat, inputs: seq<Input>)
    requires Blocking(deadline, Started(now), inputs) && Received(inputs) != []
    ensures var s := Run(deadline, Started(now), inputs);
            var k := Until(inputs);
            var first := FirstTerminal(deadline, now, inputs);
            && (s.running <==> k == |inputs|)
            && (s.answers != [] <==> first.Some? || !s.running)
            && (s.answers != [] ==>
                  s.answers[0] == Answer(Received(inputs)[0],
                                         if first.Some? then Filled(first.value)
                                         else if inputs[k].ipc.Cancel? then Filled(Cancelled)
                                         else Untouched))
  {
    var k := Until(inputs);
    UntilCounts(deadline, Started(now), inputs);
    BlockedWhileRunning(deadline, now, inputs[..k]);
    var s1 := Run(deadline, Started(now), inputs[..k]);
    if k < |inputs| {
      EndAnswers(deadline, s1, inputs[k]);
    }
  }

  lemma EndAnswers(deadline: nat, s: State, input: Input)
    requires Ends(input.ipc)
    ensures var s' := Step(deadline, s, input);
            && !s'.running
            && s'.answers == s.answers + (if s.waiter.None? then []
                                          else [if input.ipc.Cancel? then FillBuf(s.waiter.value, Cancelled)
                                                else Answer(s.waiter.value, Untouched)])
  {
  }

  lemma FirstAnswer(s: State, calls: seq<Call>)
    requires AllFilled(s) && Ledger(s) == calls && s.answers != []
    ensures calls != [] && Handed(s.answers) != []
    ensures s.answers[0] == Answer(calls[0], Filled(Handed(s.answers)[0]))
  {
    HandedFirst(s.answers);
    assert Ledger(s)[0] == s.answers[0].call;
  }

  /** Cancel discards nothing that a parked caller is owed. In every run: whoever is parked when it
      arrives is told `Cancelled`, no result is pending for anyone, and if no caller has been served
      yet there has been no terminal event at all. */
  lemma CancelDiscardsNothingOwed(deadline: nat, now: nat, inputs: seq<Input>, cancel: Input)
    requires cancel.ipc.Cancel?
    requires var s := Run(deadline, Started(now), inputs); s.running && s.waiter.Some?
    ensures var s := Run(deadline, Started(now), inputs);
            && s.pending.None?
            && (Handed(s.answers) == [] ==> FirstTerminal(deadline, now, inputs).None?)
            && Run(deadline, Started(now), inputs + [cancel]).answers == s.answers + [FillBuf(s.waiter.value, Cancelled)]
  {
    var s := Run(deadline, Started(now), inputs);
    AnsweredExactlyOnce(deadline, Started(now), inputs);
    EarliestIsOwed(deadline, Started(now), inputs);
    RunSplit(deadline, Started(now), inputs, [cancel]);
    RunTurn(deadline, s, [cancel]);
  }

  // ----- which event it is, told from the clocks and the socket alone -----

  predicate KeepaliveDue(last: nat, input: Input) {
    input.pingClock >= last + 25_000
  }

  /** When something was last sent, after an iteration that sent what was due. */
  function SentAfter(last: nat, input: Input): nat {
    if KeepaliveDue(last, input) then input.sentClock else last
  }

  /** An iteration in which nothing terminal happens: no flap and no end of the loop, before the
      deadline, a due keepalive goes out, and the socket yields nothing or a frame to ignore. */
  predicate Uneventful(deadline: nat, last: nat, input: Input) {
    && !input.ipc.FlapCancel? && !Ends(input.ipc) && input.deadlineClock < deadline
    && (KeepaliveDue(last, input) ==> input.pingOk)
    && (input.read.GotIgnored? || input.read.ReadTimeout?)
  }

  /** The first `k` iterations are uneventful. */
  predicate UneventfulFor(deadline: nat, last: nat, inputs: seq<Input>, k: nat)
    decreases k
  {
    k == 0 || (inputs != [] && Uneventful(deadline, last, inputs[0])
               && UneventfulFor(deadline, SentAfter(last, inputs[0]), inputs[1..], k - 1))
  }

  function SentAfterAll(last: nat, inputs: seq<Input>, k: nat): nat
    requires k <= |inputs|
    decreases k
  {
    if k == 0 then last else SentAfterAll(SentAfter(last, inputs[0]), inputs[1..], k - 1)
  }

  lemma {:induction false} UneventfulSkips(deadline: nat, last: nat, inputs: seq<Input>, k: nat)
    requires k <= |inputs| && UneventfulFor(deadline, last, inputs, k)
    ensures FirstTerminal(deadline, last, inputs) == FirstTerminal(deadline, SentAfterAll(last, inputs, k), inputs[k..])
    ensures Until(inputs) == k + Until(inputs[k..])
    decreases k
  {
    if k > 0 {
      UneventfulSkips(deadline, SentAfter(last, inputs[0]), inputs[1..], k - 1);
      assert inputs[1..][k - 1..] == inputs[k..];
    } else {
      assert inputs[0..] == inputs;
    }
  }

  /** While nothing happens the blocked caller stays parked. */
  lemma UneventfulParks(deadline: nat, now: nat, inputs: seq<Input>)
    requires UneventfulFor(deadline, now, inputs, |inputs|) && Blocking(deadline, Started(now), inputs) && Received(inputs) != []
    ensures var s := Run(deadline, Started(now), inputs); s.running && s.answers == [] && s.waiter == Some(Received(inputs)[0])
  {
    UneventfulSkips(deadline, now, inputs, |inputs|);
    BlockedCallerGetsFirst(deadline, now, inputs);
    BlockedWhileRunning(deadline, now, inputs);
  }

  /** The first iteration that is not uneventful decides the blocked caller's first answer: a flap
      makes it Cancelled; else the deadline TimedOut; else a keepalive that fails Error; else a frame
      of at most 8192 bytes is handed over as it came and a longer one is an error; a close is Closed
      and a read error is an error. */
  lemma FirstEventDecides(deadline: nat, now: nat, inputs: seq<Input>, k: nat)
    requires k < |inputs| && UneventfulFor(deadline, now, inputs, k) && !Ends(inputs[k].ipc)
    requires !Uneventful(deadline, SentAfterAll(now, inputs, k), inputs[k])
    requires Blocking(deadline, Started(now), inputs) && Received(inputs) != []
    ensures var s := Run(deadline, Started(now), inputs);
            s.answers != [] && s.answers[0].call == Received(inputs)[0] && s.answers[0].reply.Filled? &&
            var input, result := inputs[k], s.answers[0].reply.result;
            if input.ipc.FlapCancel? then result == Cancelled
            else if input.deadlineClock >= deadline then result == TimedOut
            else if KeepaliveDue(SentAfterAll(now, inputs, k), input) && !input.pingOk then result == Error
            else match input.read
              case GotBinary(b) => result == if |b| <= 8192 then Binary(b) else Error
              case GotClose => result == Closed
              case ReadError => result == Error
              case _ => false
  {
    UneventfulSkips(deadline, now, inputs, k);
    assert inputs[k..][0] == inputs[k];
    BlockedCallerGetsFirst(deadline, now, inputs);
  }

  // ----- what goes over the socket -----

  /** What uneventful iterations do on the socket: a ping whenever 25 seconds have passed since
      something was sent, and one read each. */
  function Traffic(last: nat, inputs: seq<Input>): seq<SocketOp>
    decreases |inputs|
  {
    if inputs == [] then []
    else Ops(last, inputs[0]) + Traffic(SentAfter(last, inputs[0]), inputs[1..])
  }

  function Ops(last: nat, input: Input): seq<SocketOp> {
    if KeepaliveDue(last, input) then [PingOp, ReadOp] else [ReadOp]
  }

  lemma UneventfulStep(deadline: nat, s: State, input: Input)
    requires Inv(s) && Quiet(s) && Uneventful(deadline, s.lastSendAt, input)
    ensures var s' := Step(deadline, s, input);
            && Inv(s') && Quiet(s') && s'.lastSendAt == SentAfter(s.lastSendAt, input)
            && s'.socket == s.socket + Ops(s.lastSendAt, input)
  {
    QuietStep(deadline, s, input);
    StepKeepsCalls(deadline, s, input);
    ServeWhileQuiet(s, input.ipc);
    var s1 := Serve(s, input.ipc);
    assert s1.socket == s.socket;
    MiddleTraffic(deadline, s1, input);
  }

  lemma MiddleTraffic(deadline: nat, s: State, input: Input)
    requires s.pending.None? && !s.flapCancelled && Uneventful(deadline, s.lastSendAt, input)
    ensures var t := Middle(deadline, s, input);
            t.pending.None? && t.socket == s.socket + Ops(s.lastSendAt, input)
  {
    assert s.socket + [PingOp] + [ReadOp] == s.socket + [PingOp, ReadOp];
  }

  lemma UneventfulTurn(deadline: nat, s: State, inputs: seq<Input>) returns (s1: State)
    requires Inv(s) && Quiet(s) && inputs != [] && Uneventful(deadline, s.lastSendAt, inputs[0])
    ensures Inv(s1) && Quiet(s1) && s1.lastSendAt == SentAfter(s.lastSendAt, inputs[0])
    ensures s1.socket == s.socket + Ops(s.lastSendAt, inputs[0]) && Run(deadline, s, inputs) == Run(deadline, s1, inputs[1..])
  {
    UneventfulStep(deadline, s, inputs[0]);
    RunTurn(deadline, s, inputs);
    s1 := Step(deadline, s, inputs[0]);
  }

  lemma {:induction false} TrafficIsExact(deadline: nat, s: State, inputs: seq<Input>)
    requires Inv(s) && Quiet(s) && UneventfulFor(deadline, s.lastSendAt, inputs, |inputs|)
    ensures Run(deadline, s, inputs).socket == s.socket + Traffic(s.lastSendAt, inputs)
    decreases |inputs|
  {
    if inputs == [] {
      assert s.socket + [] == s.socket;
    } else {
      var s1 := UneventfulTurn(deadline, s, inputs);
      TrafficIsExact(deadline, s1, inputs[1..]);
      Associates(s.socket, Ops(s.lastSendAt, inputs[0]), Traffic(s1.lastSendAt, inputs[1..]));
    }
  }

  lemma Associates(a: seq<SocketOp>, b: seq<SocketOp>, c: seq<SocketOp>)
    ensures a + b + c == a + (b + c)
  {
  }

  // ----- callers that get no page back filled -----

  /** In every run: a call that carries no page takes a pending result with it, and nobody gets that
      result; a call that arrives while another is parked has the parked one's page given back as it
      came. */
  lemma PagesNotFilled(deadline: nat, now: nat, inputs: seq<Input>, input: Input)
    requires input.ipc.WaitAndTake?
    requires Run(deadline, Started(now), inputs).running
    ensures var s := Run(deadline, Started(now), inputs);
            var answers := Run(deadline, Started(now), inputs + [input]).answers;
            && (s.pending.Some? && !input.ipc.call.memory ==>
                  |s.answers| < |answers| && answers[|s.answers|] == Answer(input.ipc.call, Lost(s.pending.value)))
            && (s.waiter.Some? ==>
                  |s.answers| < |answers| && answers[|s.answers|] == Answer(s.waiter.value, Untouched))
  {
    var s := Run(deadline, Started(now), inputs);
    AnsweredExactlyOnce(deadline, Started(now), inputs);
    RunSplit(deadline, Started(now), inputs, [input]);
    RunTurn(deadline, s, [input]);
    MiddleFrame(deadline, Serve(s, input.ipc), input);
  }

  // ----- bounds -----

  /** No caller stays parked past the first iteration at or after the deadline. */
  lemma DeadlineReleases(deadline: nat, s: State, inputs: seq<Input>, k: nat)
    requires Inv(s) && s.running && k < |inputs| && inputs[k].deadlineClock >= deadline
    ensures Run(deadline, s, inputs[..k + 1]).waiter.None?
  {
    AnsweredExactlyOnce(deadline, s, inputs[..k]);
    var s1 := Run(deadline, s, inputs[..k]);
    assert inputs[..k + 1] == inputs[..k] + [inputs[k]];
    RunSplit(deadline, s, inputs[..k], [inputs[k]]);
    if s1.running {
      RunTurn(deadline, s1, [inputs[k]]);
      StepDeadline(deadline, s1, inputs[k]);
    }
  }

  lemma StepDeadline(deadline: nat, s: State, input: Input)
    requires Inv(s) && s.running && input.deadlineClock >= deadline
    ensures Step(deadline, s, input).waiter.None?
  {
    ServeKeepsCalls(s, input.ipc);
    var s1 := Serve(s, input.ipc);
    MiddleFrame(deadline, s1, input);
    assert CheckDeadline(s1, deadline, input.deadlineClock).pending.Some?;
  }

  lemma {:induction false} FlapStopsSocket(deadline: nat, s: State, inputs: seq<Input>)
    requires s.flapCancelled
    ensures Run(deadline, s, inputs).socket == s.socket
    decreases |inputs|
  {
    if inputs != [] && s.running {
      MiddleFrame(deadline, Serve(s, inputs[0].ipc), inputs[0]);
      FlapStopsSocket(deadline, Step(deadline, s, inputs[0]), inputs[1..]);
    }
  }

  /** From the iteration that receives FlapCancel on, the socket is never read or written again. */
  lemma NoSocketAfterFlap(deadline: nat, s: State, inputs: seq<Input>, k: nat)
    requires k < |inputs| && inputs[k].ipc.FlapCancel?
    ensures Run(deadline, s, inputs).socket == Run(deadline, s, inputs[..k]).socket
  {
    var s1 := Run(deadline, s, inputs[..k]);
    assert inputs == inputs[..k] + inputs[k..];
    RunSplit(deadline, s, inputs[..k], inputs[k..]);
    if s1.running {
      MiddleFrame(deadline, Serve(s1, FlapCancel), inputs[k]);
      FlapStopsSocket(deadline, Step(deadline, s1, inputs[k]), inputs[k..][1..]);
    }
  }

  predicate Fits(r: PendingResult) {
    r.Binary? ==> |r.bytes| <= WS_PROVISION_MAX
  }

  predicate AllFit(s: State) {
    && (s.pending.Some? ==> Fits(s.pending.value))
    && forall i :: 0 <= i < |s.answers| ==> s.answers[i].reply.Untouched? || Fits(s.answers[i].reply.result)
  }

  lemma StepFits(deadline: nat, s: State, input: Input)
    requires AllFit(s)
    ensures AllFit(Step(deadline, s, input))
  {
    var s1 := Serve(s, input.ipc);
    assert AllFit(s1);
    MiddleFits(deadline, s1, input);
  }

  lemma MiddleFits(deadline: nat, s: State, input: Input)
    requires AllFit(s)
    ensures AllFit(Middle(deadline, s, input))
  {
    assert AllFit(CheckDeadline(s, deadline, input.deadlineClock));
    assert AllFit(KeepAlive(CheckDeadline(s, deadline, input.deadlineClock), input));
  }

  /** Every frame handed over fits the page. */
  lemma {:induction false} DeliveredFits(deadline: nat, s: State, inputs: seq<Input>)
    requires AllFit(s)
    ensures AllFit(Run(deadline, s, inputs))
    decreases |inputs|
  {
    if inputs != [] && s.running {
      RunTurn(deadline, s, inputs);
      StepFits(deadline, s, inputs[0]);
      DeliveredFits(deadline, Step(deadline, s, inputs[0]), inputs[1..]);
    }
  }

  // ----- the loop as it runs -----

  class Worker {
    const deadline: nat
    var pending: Option<PendingResult>
    var waiter: Option<Call>
    var flapCancelled: bool
    var lastSendAt: nat
    var running: bool
    var answers: seq<Answer>
    var socket: seq<SocketOp>

    ghost function Abs(): State
      reads this
    {
      State(pending, waiter, flapCancelled, lastSendAt, running, answers, socket)
    }

    constructor (deadlineSecs: nat, startClock: nat, sendClock: nat)
      ensures Abs() == Started(sendClock) && deadline == startClock + deadlineSecs * 1000
    {
      deadline := startClock + deadlineSecs * 1000;
      pending, waiter, flapCancelled, lastSendAt, running, answers, socket := None, None, false, sendClock, true, [], [];
    }

    method GiveBack(call: Call, result: PendingResult)
      modifies this`answers
      ensures answers == old(answers) + [FillBuf(call, result)]
    {
      answers := answers + [FillBuf(call, result)];
    }

    method Drop(call: Call)
      modifies this`answers
      ensures answers == old(answers) + [Answer(call, Untouched)]
    {
      answers := answers + [Answer(call, Untouched)];
    }

    method Receive(ipc: Ipc)
      modifies this
      ensures Abs() == Serve(old(Abs()), ipc)
    {
      match ipc {
        case WaitAndTake(call) =>
          if pending.Some? {
            var result := pending.value;
            pending := None;
            GiveBack(call, result);
          } else {
            if waiter.Some? {
              Drop(waiter.value);
            }
            waiter := Some(call);
          }
        case Cancel =>
          if waiter.Some? {
            var w := waiter.value;
            waiter := None;
            GiveBack(w, Cancelled);
          }
          running := false;
        case FlapCancel =>
          flapCancelled := true;
          if pending.None? {
            pending := Some(Cancelled);
          }
        case ReceiveError =>
          if waiter.Some? {
            Drop(waiter.value);
            waiter := None;
          }
          running := false;
        case _ =>
      }
    }

    method Iterate(input: Input)
      modifies this
      ensures Abs() == Step(deadline, old(Abs()), input)
    {
      Receive(input.ipc);
      if !running {
        return;
      }
      if pending.None? && input.deadlineClock >= deadline {
        pending := Some(TimedOut);
      }
      if !flapCancelled && pending.None? && PingDue(lastSendAt, input.pingClock) {
        socket := socket + [PingOp];
        if input.pingOk {
          lastSendAt := input.sentClock;
        } else {
          pending := Some(Error);
        }
      }
      if !flapCancelled && pending.None? {
        socket := socket + [ReadOp];
        pending := ReadResult(input.read);
      }
      if pending.Some? && waiter.Some? {
        var result, call := pending.value, waiter.value;
        pending, waiter := None, None;
        GiveBack(call, result);
      }
    }

    /** `worker_loop`. */
    method Loop(inputs: seq<Input>)
      modifies this
      ensures Abs() == Run(deadline, old(Abs()), inputs)
    {
      var i := 0;
      while i < |inputs| && running
        invariant i <= |inputs|
        invariant Run(deadline, Abs(), inputs[i..]) == Run(deadline, old(Abs()), inputs)
      {
        assert inputs[i..][1..] == inputs[i + 1..];
        Iterate(inputs[i]);
        i := i + 1;
      }
    }
  }

  // ----- the lent page -----

  const STATUS_BINARY: nat := 0
  const STATUS_CLOSED: nat := 1
  const STATUS_TIMED_OUT: nat := 2
  const STATUS_CANCELLED: nat := 3
  const STATUS_ERROR: nat := 4
  const STATUS_EMPTY: nat := 255

  /** `WsResultBuf`. */
  class Page {
    var status: nat
    var len: nat
    const bytes: array<byte>

    constructor ()
      ensures status == STATUS_EMPTY && len == 0 && bytes.Length == WS_PROVISION_MAX && fresh(bytes)
    {
      status, len := STATUS_EMPTY, 0;
      bytes := new byte[WS_PROVISION_MAX](_ => 0);
    }

    /** `fill_buf`: a frame that fits is copied to the front of the page. */
    method Fill(result: PendingResult)
      requires bytes.Length == WS_PROVISION_MAX && Fits(result)
      modifies this, bytes
      ensures match result
              case Binary(b) => status == STATUS_BINARY && len == |b| && bytes[..|b|] == b
              case Closed => status == STATUS_CLOSED
              case TimedOut => status == STATUS_TIMED_OUT
              case Cancelled => status == STATUS_CANCELLED
              case Error => status == STATUS_ERROR
    {
      match result {
        case Binary(b) =>
          status := STATUS_BINARY;
          len := |b|;
          for i := 0 to |b|
            invariant bytes[..i] == b[..i] && status == STATUS_BINARY && len == |b|
          {
            bytes[i] := b[i];
          }
        case Closed => status := STATUS_CLOSED;
        case TimedOut => status := STATUS_TIMED_OUT;
        case Cancelled => status := STATUS_CANCELLED;
        case Error => status := STATUS_ERROR;
      }
    }

    /** The reading half of `wait_and_take_binary`. */
    method Take() returns (r: PendingResult)
      requires bytes.Length == WS_PROVISION_MAX
      ensures r == match status
                   case 0 => if len > WS_PROVISION_MAX then Error else Binary(bytes[..len])
                   case 1 => Closed
                   case 2 => TimedOut
                   case 3 => Cancelled
                   case _ => Error
    {
      if status == STATUS_BINARY {
        if len > WS_PROVISION_MAX {
          return Error;
        }
        r := Binary(bytes[..len]);
      } else if status == STATUS_CLOSED {
        r := Closed;
      } else if status == STATUS_TIMED_OUT {
        r := TimedOut;
      } else if status == STATUS_CANCELLED {
        r := Cancelled;
      } else {
        r := Error;
      }
    }
  }

  /** The page carries every result the worker hands over to the caller byte for byte, and a page
      that comes back untouched reads as an error. */
  method Lend(reply: Reply) returns (seen: PendingResult)
    requires reply.Filled? ==> Fits(reply.result)
    ensures seen == if reply.Filled? then reply.result else Error
  {
    var page := new Page();
    if reply.Filled? {
      page.Fill(reply.result);
    }
    seen := page.Take();
  }
}
