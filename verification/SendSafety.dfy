/** What every run of the send path keeps, against a server that may answer anything. */
module SendSafety {
  import opened Common
  import Utf8
  import opened Sessions
  import opened Send

  // ----- the in-band 409/410 marker -----

  /** `from_utf8_lossy` changes nothing in a well-formed string. */
  ghost predicate LossyKeepsUtf8(env: Env) {
    forall b :: Utf8.Valid(b) ==> env.lossy(b) == b
  }

  /** Whether the decision calls for a repair, and from which bytes. */
  function RepairBody(decision: Decision): Option<(nat, Bytes)> {
    match decision
    case Mismatch409(b) => Some((409, b))
    case Mismatch410(b) => Some((410, b))
    case _ => None
  }

  predicate Accepted(reply: Reply) {
    reply.Reply? && (reply.status == 200 || reply.status == 204)
  }

  /** The text marker carries every 409/410 body through unchanged, and no other answer is
      mistaken for one; success and backoff are read off the status alone. */
  lemma MarkerIsExact(env: Env, reply: Reply)
    requires LossyKeepsUtf8(env)
    ensures var d := Classify(InterpretStatus(env, reply));
            && (RepairBody(d).Some? <==> reply.Reply? && (reply.status == 409 || reply.status == 410))
            && (RepairBody(d).Some? && Utf8.Valid(reply.body) ==> RepairBody(d).value == (reply.status, reply.body))
            && (d == Done <==> Accepted(reply))
            && (d == Backoff <==> reply.Unreachable? || reply.status == 429 || 500 <= reply.status <= 599)
  {
    if reply.Reply? {
      MarkerCarries(env, reply);
    }
  }

  lemma MarkerCarries(env: Env, reply: Reply)
    requires reply.Reply?
    ensures reply.status == 409 ==> Classify(InterpretStatus(env, reply)) == Mismatch409(env.lossy(reply.body))
    ensures reply.status == 410 ==> Classify(InterpretStatus(env, reply)) == Mismatch410(env.lossy(reply.body))
  {
    var text := env.lossy(reply.body);
    assert (MISMATCH_409 + text)[|MISMATCH_409|..] == text;
    assert (MISMATCH_410 + text)[|MISMATCH_410|..] == text;
    assert (MISMATCH_410 + text)[10] == '1' as int && MISMATCH_409[10] == '0' as int;
  }

  // ----- what an exchange of one call may be -----

  /** The PUT addresses exactly the sessions held at that moment, less the excluded device, in
      ascending order, each with the registration id of its session. */
  ghost predicate AddressesSessions(job: Job, e: Exchange)
    requires e.request.Put?
  {
    var targets, messages := Targets(e.sessions, job), e.request.messages;
    && targets != [] && |messages| == |targets|
    && forall i :: 0 <= i < |targets| ==>
         && Live(e.sessions, job.name, targets[i])
         && messages[i] == Entity(targets[i], e.sessions[Address(job.name, targets[i])], job.content)
  }

  /** The same, said without the target list: ascending devices, exactly the live ones but the
      excluded, each entity with its session's registration id and the job's content. */
  ghost predicate ExactlyAddressed(job: Job, e: Exchange)
    requires e.request.Put?
  {
    var messages := e.request.messages;
    && messages != []
    && (forall i, j :: 0 <= i < j < |messages| ==> messages[i].device < messages[j].device)
    && (forall i :: 0 <= i < |messages| ==>
          && Live(e.sessions, job.name, messages[i].device) && job.excluded != Some(messages[i].device)
          && messages[i] == Entity(messages[i].device, e.sessions[Address(job.name, messages[i].device)], job.content))
    && (forall d: nat :: Live(e.sessions, job.name, d) && job.excluded != Some(d) ==>
          exists i :: 0 <= i < |messages| && messages[i].device == d)
  }

  ghost predicate Good(job: Job, e: Exchange) {
    match e.request
    case Put(name, _, timestamp) => name == job.name && timestamp == job.timestamp && AddressesSessions(job, e)
    case GetBundle(name, _) => name == job.name
    case GetAllBundles(name) => name == job.name
  }

  /** No session of another account differs. */
  ghost predicate SameElsewhere(name: string, s: SessionMap, s': SessionMap) {
    forall a: Address :: a.name != name ==> (a in s <==> a in s') && (a in s ==> s[a] == s'[a])
  }

  /** `w'` is reached from `w` by good exchanges of this job, leaving other accounts alone. */
  ghost predicate Extends(job: Job, w: World, w': World) {
    && w.log <= w'.log
    && (forall i :: |w.log| <= i < |w'.log| ==> Good(job, w'.log[i]))
    && SameElsewhere(job.name, w.sessions, w'.sessions)
    && w.sleptMs <= w'.sleptMs
  }

  function Puts(log: seq<Exchange>): seq<Exchange> {
    if log == [] then []
    else (if log[0].request.Put? then [log[0]] else []) + Puts(log[1..])
  }

  lemma {:induction false} PutsConcat(a: seq<Exchange>, b: seq<Exchange>)
    ensures Puts(a + b) == Puts(a) + Puts(b)
  {
    if a == [] {
      assert a + b == b;
    } else {
      PutsConcat(a[1..], b);
      assert (a + b)[1..] == a[1..] + b;
    }
  }

  function Since(w: World, w': World): seq<Exchange>
    requires w.log <= w'.log
  {
    w'.log[|w.log|..]
  }

  // ----- the pieces of an attempt -----

  lemma {:induction false} EncryptAllExact(sessions: SessionMap, job: Job, ids: seq<nat>)
    ensures var r := EncryptAll(sessions, job, ids);
            r.Ok? ==> |r.value| == |ids| && forall i :: 0 <= i < |ids| ==>
              && Live(sessions, job.name, ids[i])
              && r.value[i] == Entity(ids[i], sessions[Address(job.name, ids[i])], job.content)
    ensures (forall i :: 0 <= i < |ids| ==> Live(sessions, job.name, ids[i])) ==> EncryptAll(sessions, job, ids).Ok?
  {
    if ids != [] {
      EncryptAllExact(sessions, job, ids[1..]);
      assert (forall i :: 0 <= i < |ids| ==> Live(sessions, job.name, ids[i])) ==>
          forall i :: 0 <= i < |ids[1..]| ==> ids[1..][i] == ids[i + 1] && Live(sessions, job.name, ids[1..][i]);
    }
  }

  lemma {:induction false} DropSessionsElsewhere(sessions: SessionMap, name: string, ids: seq<nat>)
    ensures SameElsewhere(name, sessions, DropSessions(sessions, name, ids))
    decreases |ids|
  {
    if ids != [] {
      DropSessionsElsewhere(DropSession(sessions, name, ids[0]), name, ids[1..]);
    }
  }

  /** Reached by good exchanges without a PUT and without sleeping. */
  ghost predicate Quiet(job: Job, w: World, w': World) {
    Extends(job, w, w') && Puts(Since(w, w')) == [] && w'.sleptMs == w.sleptMs
  }

  lemma QuietTwice(job: Job, w: World, w1: World, w': World)
    requires Quiet(job, w, w1) && Quiet(job, w1, w')
    ensures Quiet(job, w, w')
  {
    assert Since(w, w') == Since(w, w1) + Since(w1, w');
    PutsConcat(Since(w, w1), Since(w1, w'));
  }

  lemma FetchOneQuiet(env: Env, job: Job, w: World, id: nat)
    ensures Quiet(job, w, FetchOne(env, w, job.name, id).0)
  {
    var w1 := FetchOne(env, w, job.name, id).0;
    assert w1.log == w.log + [w1.log[|w.log|]];
    assert Since(w, w1) == [w1.log[|w.log|]];
  }

  /** Repairing makes only GETs, for this account, and never sleeps. */
  lemma {:induction false} FetchAllQuiet(env: Env, job: Job, w: World, ids: seq<nat>)
    ensures Quiet(job, w, FetchAll(env, w, job.name, ids).0)
    decreases |ids|
  {
    if ids != [] {
      var (w1, e) := FetchOne(env, w, job.name, ids[0]);
      FetchOneQuiet(env, job, w, ids[0]);
      if e.None? {
        FetchAllQuiet(env, job, w1, ids[1..]);
        QuietTwice(job, w, w1, FetchAll(env, w1, job.name, ids[1..]).0);
      }
    } else {
      assert Since(w, w) == [];
    }
  }

  lemma RepairExtends(env: Env, job: Job, w: World, mm: Mismatch)
    ensures Quiet(job, w, RepairMismatch(env, w, job.name, mm).0)
  {
    var w1 := w.(sessions := DropSessions(w.sessions, job.name, mm.extra));
    DropSessionsElsewhere(w.sessions, job.name, mm.extra);
    FetchAllQuiet(env, job, w1, mm.missing);
  }

  lemma AfterPutExtends(env: Env, job: Job, attempt: nat, w: World, decision: Decision)
    ensures var (w', stop) := AfterPut(env, job, attempt, w, decision);
            && Extends(job, w, w') && Puts(Since(w, w')) == []
            && w'.sleptMs <= w.sleptMs + BackoffMs(attempt)
            && (stop == Some(Delivered(true)) <==> decision == Done)
  {
    match decision
    case Mismatch409(body) =>
      if env.parseMismatch(body).Some? {
        RepairExtends(env, job, w, env.parseMismatch(body).value);
      }
    case Mismatch410(body) =>
      if env.parseMismatch(body).Some? {
        DropSessionsElsewhere(w.sessions, job.name, env.parseMismatch(body).value.stale);
      }
    case _ =>
  }

  lemma {:induction false} WithoutNone(ids: seq<nat>)
    ensures Without(ids, None) == ids
  {
    if ids != [] {
      WithoutNone(ids[1..]);
    }
  }

  /** Leaving a device out keeps the order and every other device. */
  lemma {:induction false} WithoutExact(ids: seq<nat>, excluded: Option<nat>)
    requires Ascending(ids)
    ensures Ascending(Without(ids, excluded))
    ensures forall id :: id in Without(ids, excluded) <==> id in ids && excluded != Some(id)
  {
    if ids != [] {
      WithoutExact(ids[1..], excluded);
      var rest := Without(ids[1..], excluded);
      assert ids == [ids[0]] + ids[1..];
      assert forall i :: 0 <= i < |rest| ==> rest[i] in rest;
    }
  }

  lemma TargetsExact(sessions: SessionMap, job: Job)
    ensures Ascending(Targets(sessions, job))
    ensures forall id :: id in Targets(sessions, job) <==> Live(sessions, job.name, id) && job.excluded != Some(id)
  {
    DeviceIdsExact(sessions, job.name);
    WithoutExact(DeviceIds(sessions, job.name), job.excluded);
  }

  lemma GoodIsExact(job: Job, e: Exchange)
    requires e.request.Put? && Good(job, e)
    ensures ExactlyAddressed(job, e)
  {
    var targets, messages := Targets(e.sessions, job), e.request.messages;
    TargetsExact(e.sessions, job);
    assert forall i :: 0 <= i < |targets| ==> targets[i] in targets && messages[i].device == targets[i];
    forall d: nat | Live(e.sessions, job.name, d) && job.excluded != Some(d)
      ensures exists i :: 0 <= i < |messages| && messages[i].device == d
    {
      assert d in targets;
      var i :| 0 <= i < |targets| && targets[i] == d;
      assert messages[i].device == d;
    }
  }

  /** A device with no session cannot be encrypted to, so the fallback device never reaches the
      server: what is encrypted is exactly the non-empty target list. */
  lemma OnlySessionsAreEncrypted(sessions: SessionMap, job: Job)
    requires Targets(sessions, job) == [] && job.excluded.None?
    ensures EncryptAll(sessions, job, [job.fallback]).Err?
    ensures ToDeviceId(job.fallback).Some? ==> EncryptAll(sessions, job, [job.fallback]) == Err(NoSession)
  {
    WithoutNone(DeviceIds(sessions, job.name));
    DeviceIdsExact(sessions, job.name);
    assert !Live(sessions, job.name, job.fallback);
  }

  ghost predicate SafeAttempt(job: Job, attempt: nat, w: World, w': World, stop: Option<Outcome>) {
    && Extends(job, w, w')
    && w'.sleptMs <= w.sleptMs + BackoffMs(attempt)
    && (w'.log == w.log ==> stop.Some? && stop != Some(Delivered(true)))
    && (w'.log != w.log ==>
          && Puts(Since(w, w')) == [w'.log[|w.log|]]
          && (stop == Some(Delivered(true)) <==> Accepted(w'.log[|w.log|].reply)))
  }

  /** An attempt makes no request at all and stops, or exactly one PUT; it reports delivery iff
      that PUT was accepted. */
  lemma AttemptExtends(env: Env, job: Job, attempt: nat, w: World)
    ensures var (w', stop) := Attempt(env, job, attempt, w);
            SafeAttempt(job, attempt, w, w', stop)
  {
    var targets := Targets(w.sessions, job);
    if targets == [] && job.excluded.None? {
      OnlySessionsAreEncrypted(w.sessions, job);
    } else if targets != [] && ToDeviceId(job.fallback).Some? {
      EncryptAllExact(w.sessions, job, targets);
      var encrypted := EncryptAll(w.sessions, job, targets);
      if encrypted.Ok? {
        var (w1, reply) := Ask(env, w, Put(job.name, encrypted.value, job.timestamp));
        var put := Exchange(w.sessions, Put(job.name, encrypted.value, job.timestamp), reply);
        assert Good(job, put);
        var decision := Classify(InterpretStatus(env, reply));
        StatusDecides(env, reply);
        AfterPutExtends(env, job, attempt, w1, decision);
        var (w', stop) := Attempt(env, job, attempt, w);
        assert (w', stop) == AfterPut(env, job, attempt, w1, decision);
        assert w1.log == w.log + [put] && w'.log[|w.log|] == put;
        assert Since(w, w') == [put] + Since(w1, w');
        PutsConcat([put], Since(w1, w'));
      }
    }
  }

  lemma StatusDecides(env: Env, reply: Reply)
    ensures Classify(InterpretStatus(env, reply)) == Done <==> Accepted(reply)
  {
    if reply.Reply? {
      MarkerCarries(env, reply);
    }
  }

  // ----- the whole loop -----

  /** The sleeping still possible after `attempt` attempts: 500, 1000 and 2000 ms in turn. */
  function SleepLeft(attempt: nat): nat {
    if attempt == 0 then 3500 else if attempt == 1 then 3000 else if attempt == 2 then 2000 else 0
  }

  lemma BackoffValues()
    ensures BackoffMs(1) == 500 && BackoffMs(2) == 1000 && BackoffMs(3) == 2000
  {
    assert Shl(500, 2) == Shl(1000, 1) == Shl(2000, 0);
  }

  /** Later delays would stay at the cap. */
  lemma BackoffCaps(attempt: nat)
    requires attempt >= 4
    ensures BackoffMs(attempt) == 4000
  {
    assert Shl(500, 3) == Shl(1000, 2) == Shl(2000, 1) == Shl(4000, 0);
    assert Shl(500, 4) == Shl(1000, 3) == Shl(2000, 2) == Shl(4000, 1) == Shl(8000, 0);
  }

  ghost predicate LastAccepted(puts: seq<Exchange>) {
    puts != [] && Accepted(puts[|puts| - 1].reply)
  }

  ghost predicate SafeRun(job: Job, attempt: nat, w: World, w': World, outcome: Outcome) {
    && Extends(job, w, w')
    && |Puts(Since(w, w'))| <= MAX_ATTEMPTS - attempt
    && w'.sleptMs <= w.sleptMs + SleepLeft(attempt)
    && (outcome == Delivered(true) <==> LastAccepted(Puts(Since(w, w'))))
  }

  lemma SafeStop(job: Job, attempt: nat, w: World, w': World, outcome: Outcome)
    requires attempt < MAX_ATTEMPTS && SafeAttempt(job, attempt + 1, w, w', Some(outcome))
    ensures SafeRun(job, attempt, w, w', outcome)
  {
    BackoffValues();
    assert w'.log == w.log ==> Since(w, w') == [];
  }

  lemma SafeRetry(job: Job, attempt: nat, w: World, w1: World, w': World, outcome: Outcome)
    requires attempt < MAX_ATTEMPTS && SafeAttempt(job, attempt + 1, w, w1, None)
    requires SafeRun(job, attempt + 1, w1, w', outcome)
    ensures SafeRun(job, attempt, w, w', outcome)
  {
    BackoffValues();
    assert Since(w, w') == Since(w, w1) + Since(w1, w');
    PutsConcat(Since(w, w1), Since(w1, w'));
  }

  lemma SafeNothing(job: Job, attempt: nat, w: World)
    requires attempt <= MAX_ATTEMPTS
    ensures SafeRun(job, attempt, w, w, Failed(RetryExhausted))
  {
    assert Since(w, w) == [];
  }

  lemma {:induction false} LoopIsSafe(env: Env, job: Job, t: Turn)
    requires t.attempt <= MAX_ATTEMPTS
    ensures var (w', outcome) := RunLoop(env, job, t);
            SafeRun(job, t.attempt, t.world, w', outcome)
    decreases MAX_ATTEMPTS - t.attempt
  {
    var w := t.world;
    if env.overBudget(|w.log|) || t.attempt == MAX_ATTEMPTS {
      SafeNothing(job, t.attempt, w);
      assert RunLoop(env, job, t) == (w, Failed(RetryExhausted));
    } else {
      AttemptExtends(env, job, t.attempt + 1, w);
      var (w1, stop) := Attempt(env, job, t.attempt + 1, w);
      LoopTurn(env, job, t, w1, stop);
      if stop.None? {
        LoopIsSafe(env, job, Turn(t.attempt + 1, w1));
        var (w', outcome) := RunLoop(env, job, Turn(t.attempt + 1, w1));
        SafeRetry(job, t.attempt, w, w1, w', outcome);
      } else {
        SafeStop(job, t.attempt, w, w1, stop.value);
      }
    }
  }

  /** Against any server: at most 3 PUTs and 3500 ms of sleep; every PUT addresses exactly the
      sessions then held; success iff the last PUT got 200/204; other accounts untouched. */
  lemma SubmitIsSafe(env: Env, job: Job, w: World)
    ensures var (w', outcome) := Submit(env, job, w);
            && Extends(job, w, w')
            && |Puts(Since(w, w'))| <= 3
            && w'.sleptMs <= w.sleptMs + 3500
            && (outcome == Delivered(true) <==> LastAccepted(Puts(Since(w, w'))))
            && (forall i :: |w.log| <= i < |w'.log| && w'.log[i].request.Put? ==> ExactlyAddressed(job, w'.log[i]))
  {
    LoopIsSafe(env, job, Turn(0, w));
    var w' := Submit(env, job, w).0;
    forall i | |w.log| <= i < |w'.log| && w'.log[i].request.Put? ensures ExactlyAddressed(job, w'.log[i]) {
      GoodIsExact(job, w'.log[i]);
    }
  }

  // ----- the two legs -----

  lemma {:induction false} WithoutDrops(ids: seq<nat>, own: nat)
    ensures own !in Without(ids, Some(own))
  {
    if ids != [] {
      WithoutDrops(ids[1..], own);
    }
  }

  /** A PUT of the sync leg never addresses the sending device, whatever sessions exist. */
  lemma SyncPutSkipsSelf(job: Job, own: nat, e: Exchange)
    requires job.excluded == Some(own) && e.request.Put? && Good(job, e)
    ensures forall i :: 0 <= i < |e.request.messages| ==> e.request.messages[i].device != own
  {
    WithoutDrops(DeviceIds(e.sessions, job.name), own);
    var targets := Targets(e.sessions, job);
    assert forall i :: 0 <= i < |targets| ==> targets[i] in targets;
  }

  lemma {:induction false} EstablishElsewhere(w: World, name: string, excluded: Option<nat>, devices: seq<DeviceEntry>, done: seq<nat>)
    ensures var w' := EstablishAll(w, name, excluded, devices, done).0;
            w'.log == w.log && w'.sleptMs == w.sleptMs && SameElsewhere(name, w.sessions, w'.sessions)
    decreases |devices|
  {
    if devices != [] {
      var entry := devices[0];
      if excluded == Some(entry.device) {
        EstablishElsewhere(w, name, excluded, devices[1..], done);
      } else if Processes(entry) {
        var w1 := w.(sessions := w.sessions[Address(name, entry.device) := entry.registrationId]);
        EstablishElsewhere(w1, name, excluded, devices[1..], done + [entry.device]);
      }
    }
  }

  lemma DiscoverExtends(env: Env, job: Job, w: World)
    ensures Extends(job, w, Discover(env, w, job.name, job.excluded).0)
  {
    var (w1, reply) := Ask(env, w, GetAllBundles(job.name));
    if reply.Reply? && reply.status == 200 && env.parseBundles(reply.body).Some? {
      EstablishElsewhere(w1, job.name, job.excluded, env.parseBundles(reply.body).value.devices, []);
    }
  }

  lemma SyncExtends(env: Env, job: Job, w: World)
    ensures Extends(job, w, SubmitSync(env, job, w).0)
  {
    var w1 := w;
    if Targets(w.sessions, job) == [] {
      DiscoverExtends(env, job, w);
      w1 := Discover(env, w, job.name, job.excluded).0;
    }
    SubmitIsSafe(env, job, w1);
  }

  predicate AllCarry(messages: seq<Entity>, content: Bytes) {
    forall i :: 0 <= i < |messages| ==> messages[i].content == content
  }

  /** A request of the recipient leg: for the recipient's account, and a PUT carries the message's
      timestamp and, in every entity, the data content. */
  predicate ToRecipient(m: Message, e: Exchange) {
    match e.request
    case Put(name, messages, timestamp) =>
      name == m.to.name && timestamp == m.timestamp && messages != [] && AllCarry(messages, m.data)
    case GetBundle(name, _) => name == m.to.name
    case GetAllBundles(name) => name == m.to.name
  }

  /** A request of the sync leg: for the own account, and a PUT carries the same timestamp and, in
      every entity, the transcript, and skips the sending device. */
  predicate ToOwnDevices(m: Message, e: Exchange) {
    match e.request
    case Put(name, messages, timestamp) =>
      && name == m.ownName && timestamp == m.timestamp && messages != [] && AllCarry(messages, m.transcript)
      && forall i :: 0 <= i < |messages| ==> messages[i].device != m.ownDevice
    case GetBundle(name, _) => name == m.ownName
    case GetAllBundles(name) => name == m.ownName
  }

  lemma GoodCarries(job: Job, e: Exchange)
    requires Good(job, e)
    ensures match e.request
            case Put(name, messages, timestamp) =>
              name == job.name && timestamp == job.timestamp && messages != [] && AllCarry(messages, job.content)
            case GetBundle(name, _) => name == job.name
            case GetAllBundles(name) => name == job.name
  {
  }

  ghost predicate OtherOwnDevice(m: Message, sessions: SessionMap) {
    exists d: nat :: Live(sessions, m.ownName, d) && d != m.ownDevice
  }

  /** The trace of one outgoing message splits at `k`: before it only requests of the recipient leg,
      with the data content; from it on only requests of the sync leg, with the transcript; anything
      from it on was preceded by an accepted recipient PUT; and the reported result is the recipient
      leg's. */
  lemma TwoLegTrace(env: Env, m: Message, w: World) returns (k: nat)
    ensures var (w', e) := SubmitBoth(env, m, w);
            && |w.log| <= k <= |w'.log| && w.log <= w'.log
            && (forall i :: |w.log| <= i < k ==> ToRecipient(m, w'.log[i]))
            && (forall i :: k <= i < |w'.log| ==> ToOwnDevices(m, w'.log[i]))
            && (k < |w'.log| ==> LastAccepted(Puts(w'.log[|w.log|..k])))
            && (e.None? <==> LastAccepted(Puts(w'.log[|w.log|..k])))
            && (e.Some? ==> k == |w'.log|)
  {
    SubmitIsSafe(env, m.Data(), w);
    var (w1, outcome) := Submit(env, m.Data(), w);
    NotSkipped(env, m, w);
    k := |w1.log|;
    var w' := SubmitBoth(env, m, w).0;
    if !outcome.Failed? {
      SyncExtends(env, m.Sync(), w1);
      forall i | k <= i < |w'.log| ensures ToOwnDevices(m, w'.log[i]) {
        GoodCarries(m.Sync(), w'.log[i]);
        if w'.log[i].request.Put? {
          SyncPutSkipsSelf(m.Sync(), m.ownDevice, w'.log[i]);
        }
      }
      assert w'.log[..k] == w1.log;
    }
    forall i | |w.log| <= i < k ensures ToRecipient(m, w'.log[i]) {
      assert w'.log[i] == w1.log[i];
      GoodCarries(m.Data(), w1.log[i]);
    }
    assert w'.log[|w.log|..k] == Since(w, w1);
  }

  /** The recipient leg's error is the one reported, and after its success the sync leg does run: it
      asks for the own account's devices if no other one is known, and otherwise goes straight to a
      PUT, unless the budget is spent. */
  lemma SyncLegFollows(env: Env, m: Message, w: World)
    ensures var (w1, outcome) := Submit(env, Job(m.data, m.timestamp, m.to.name, m.to.device, None), w);
            var (w', e) := SubmitBoth(env, m, w);
            && (outcome.Failed? ==> w' == w1 && e == Some(outcome.error))
            && (!outcome.Failed? ==>
                  && e.None? && w1.log <= w'.log
                  && (!OtherOwnDevice(m, w1.sessions) ==>
                        |w1.log| < |w'.log| && w'.log[|w1.log|].request == GetAllBundles(m.ownName))
                  && (OtherOwnDevice(m, w1.sessions) && 1 <= m.ownDevice <= 127 && !env.overBudget(|w1.log|) ==>
                        |w1.log| < |w'.log| && w'.log[|w1.log|].request.Put?))
  {
    var (w1, outcome) := Submit(env, m.Data(), w);
    if !outcome.Failed? {
      SyncExtends(env, m.Sync(), w1);
      TargetsExact(w1.sessions, m.Sync());
      var targets := Targets(w1.sessions, m.Sync());
      assert targets == [] || targets[0] in targets;
      if targets == [] {
        assert !OtherOwnDevice(m, w1.sessions);
        DiscoversFirst(env, m.Sync(), w1);
      } else {
        assert Live(w1.sessions, m.ownName, targets[0]) && targets[0] != m.ownDevice;
        if 1 <= m.ownDevice <= 127 && !env.overBudget(|w1.log|) {
          PutsFirst(env, m.Sync(), w1);
        }
      }
    }
  }

  lemma DiscoversFirst(env: Env, job: Job, w: World)
    requires Targets(w.sessions, job) == []
    ensures var w' := SubmitSync(env, job, w).0;
            w.log <= w'.log && |w.log| < |w'.log| && w'.log[|w.log|].request == GetAllBundles(job.name)
  {
    var w1 := Discover(env, w, job.name, job.excluded).0;
    var (asked, reply) := Ask(env, w, GetAllBundles(job.name));
    if reply.Reply? && reply.status == 200 && env.parseBundles(reply.body).Some? {
      EstablishElsewhere(asked, job.name, job.excluded, env.parseBundles(reply.body).value.devices, []);
    }
    assert w1.log == asked.log;
    SubmitIsSafe(env, job, w1);
  }

  lemma PutsFirst(env: Env, job: Job, w: World)
    requires Targets(w.sessions, job) != [] && ToDeviceId(job.fallback).Some? && !env.overBudget(|w.log|)
    ensures var w' := SubmitSync(env, job, w).0;
            w.log <= w'.log && |w.log| < |w'.log| && w'.log[|w.log|].request.Put?
  {
    LoopPutsFirst(env, job, Turn(0, w));
  }

  lemma LoopPutsFirst(env: Env, job: Job, t: Turn)
    requires t.attempt < MAX_ATTEMPTS && !env.overBudget(|t.world.log|)
    requires Targets(t.world.sessions, job) != [] && ToDeviceId(job.fallback).Some?
    ensures var w' := RunLoop(env, job, t).0;
            t.world.log <= w'.log && |t.world.log| < |w'.log| && w'.log[|t.world.log|].request.Put?
  {
    var (w1, stop) := Attempt(env, job, t.attempt + 1, t.world);
    LoopTurn(env, job, t, w1, stop);
    AttemptAsks(env, job, t.attempt + 1, t.world);
    if stop.None? {
      LoopIsSafe(env, job, Turn(t.attempt + 1, w1));
    }
  }

  lemma AttemptAsks(env: Env, job: Job, attempt: nat, w: World)
    requires Targets(w.sessions, job) != [] && ToDeviceId(job.fallback).Some?
    ensures var w1 := Attempt(env, job, attempt, w).0;
            w.log <= w1.log && |w.log| < |w1.log| && w1.log[|w.log|].request.Put?
  {
    var targets := Targets(w.sessions, job);
    TargetsExact(w.sessions, job);
    assert forall i :: 0 <= i < |targets| ==> targets[i] in targets && Live(w.sessions, job.name, targets[i]);
    EncryptAllExact(w.sessions, job, targets);
    var request := Put(job.name, EncryptAll(w.sessions, job, targets).value, job.timestamp);
    var (asked, reply) := Ask(env, w, request);
    AfterPutExtends(env, job, attempt, asked, Classify(InterpretStatus(env, reply)));
  }

  /** The recipient leg has no excluded device, so it never ends with "nothing to send". */
  lemma NotSkipped(env: Env, m: Message, w: World)
    ensures Submit(env, m.Data(), w).1 != Delivered(false)
  {
    NotSkippedFrom(env, m.Data(), Turn(0, w));
  }

  lemma {:induction false} NotSkippedFrom(env: Env, job: Job, t: Turn)
    requires t.attempt <= MAX_ATTEMPTS && job.excluded.None?
    ensures RunLoop(env, job, t).1 != Delivered(false)
    decreases MAX_ATTEMPTS - t.attempt
  {
    if !env.overBudget(|t.world.log|) && t.attempt < MAX_ATTEMPTS {
      var (w, stop) := Attempt(env, job, t.attempt + 1, t.world);
      LoopTurn(env, job, t, w, stop);
      if stop.None? {
        NotSkippedFrom(env, job, Turn(t.attempt + 1, w));
      }
    }
  }
}
