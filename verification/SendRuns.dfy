/** The exact course of a send, against any server: what each answer makes the client do next, said
    without the client's own decision functions. */
module SendRuns {
  import opened Common
  import opened Sessions
  import opened Send
  import opened SendSafety

  // ----- what an answer means -----

  predicate Transient(reply: Reply) {
    reply.Unreachable? || reply.status == 429 || 500 <= reply.status <= 599
  }

  /** The error that ends a call on an answer that is neither success, nor a device mismatch, nor
      transient. */
  function FinalError(status: nat): SendError {
    match status
    case 401 => AuthFailed
    case 404 => ServiceIdNotFound
    case 413 => PayloadTooLarge
    case 428 => ChallengeRequired
    case _ => Unexpected(status)
  }

  /** The pause after the n-th attempt of a call. */
  function Pause(attempt: nat): nat {
    if attempt == 1 then 500 else if attempt == 2 then 1000 else 2000
  }

  lemma DecisionOf(env: Env, reply: Reply)
    ensures var d := Classify(InterpretStatus(env, reply));
            if Accepted(reply) then d == Done
            else if Transient(reply) then d == Backoff
            else if reply.status == 409 then d == Mismatch409(env.lossy(reply.body))
            else if reply.status == 410 then d == Mismatch410(env.lossy(reply.body))
            else d == Fatal(FinalError(reply.status))
  {
    if reply.Reply? {
      MarkerCarries(env, reply);
    }
  }

  lemma PauseIsBackoff(attempt: nat)
    requires 1 <= attempt <= 3
    ensures BackoffMs(attempt) == Pause(attempt)
  {
    BackoffValues();
  }

  // ----- one bundle request -----

  /** The entry used for a device: the first one with its id, or the very first if there is none. */
  predicate Picked(devices: seq<DeviceEntry>, id: nat, j: nat) {
    && j < |devices|
    && (if devices[j].device == id then forall i :: 0 <= i < j ==> devices[i].device != id
        else j == 0 && forall i :: 0 <= i < |devices| ==> devices[i].device != id)
  }

  /** The answer yields a session with this registration id. */
  ghost predicate Gives(env: Env, id: nat, reply: Reply, reg: RegistrationId) {
    && reply.Reply? && reply.status == 200 && 1 <= id <= 127
    && var pre := env.parseBundles(reply.body);
       && pre.Some? && pre.value.identityDecodes
       && exists j: nat :: Picked(pre.value.devices, id, j) && 1 <= pre.value.devices[j].device <= 127
            && pre.value.devices[j].acceptable && pre.value.devices[j].registrationId == reg
  }

  predicate NotFound(reply: Reply) {
    reply.Reply? && reply.status == 404
  }

  /** The error of a bundle request that gives no session. */
  predicate BundleError(reply: Reply, e: SendError) {
    match reply
    case Unreachable => e == Transport
    case Reply(status, _) =>
      if status == 200 then e.BadResponse? else if status == 401 then e == AuthFailed else e == Unexpected(status)
  }

  lemma {:induction false} FindFirst(devices: seq<DeviceEntry>, id: nat)
    ensures var found := FindEntry(devices, id);
            && (found.None? <==> forall i :: 0 <= i < |devices| ==> devices[i].device != id)
            && (found.Some? ==> exists j: nat :: Picked(devices, id, j) && devices[j].device == id && devices[j] == found.value)
  {
    if devices != [] && devices[0].device != id {
      var rest := devices[1..];
      FindFirst(rest, id);
      assert forall i :: 0 <= i < |rest| ==> rest[i] == devices[i + 1];
      if FindEntry(rest, id).Some? {
        var j: nat :| Picked(rest, id, j) && rest[j].device == id && rest[j] == FindEntry(rest, id).value;
        assert forall i :: 1 <= i < j + 1 ==> devices[i] == rest[i - 1];
        assert Picked(devices, id, j + 1);
      }
    } else if devices != [] {
      assert Picked(devices, id, 0);
    }
  }

  lemma PickedOnce(devices: seq<DeviceEntry>, id: nat, i: nat, j: nat)
    requires Picked(devices, id, i) && Picked(devices, id, j)
    ensures i == j
  {
  }

  lemma GivesOnce(env: Env, id: nat, reply: Reply, reg: RegistrationId, reg': RegistrationId)
    requires Gives(env, id, reply, reg) && Gives(env, id, reply, reg')
    ensures reg == reg'
  {
    var devices := env.parseBundles(reply.body).value.devices;
    var i: nat :| Picked(devices, id, i) && devices[i].registrationId == reg;
    var j: nat :| Picked(devices, id, j) && devices[j].registrationId == reg';
    PickedOnce(devices, id, i, j);
  }

  /** `process_one_prekey_bundle`. */
  lemma ProcessLaw(env: Env, sessions: SessionMap, name: string, id: nat, reply: Reply)
    requires reply.Reply? && reply.status == 200 && env.parseBundles(reply.body).Some?
    ensures var r := ProcessBundle(sessions, name, id, env.parseBundles(reply.body).value);
            && (forall reg: RegistrationId :: Gives(env, id, reply, reg) ==> r == Ok(sessions[Address(name, id) := reg]))
            && ((forall reg: RegistrationId :: !Gives(env, id, reply, reg)) ==> r.Err? && r.error.BadResponse?)
  {
    var pre := env.parseBundles(reply.body).value;
    FindFirst(pre.devices, id);
    var found := FindEntry(pre.devices, id);
    if pre.devices != [] {
      var j: nat := 0;
      if found.Some? {
        j :| Picked(pre.devices, id, j) && pre.devices[j] == found.value;
      }
      assert Picked(pre.devices, id, j);
      var entry := pre.devices[j];
      assert pre.identityDecodes && 1 <= id <= 127 && Processes(entry) ==> Gives(env, id, reply, entry.registrationId);
      forall reg: RegistrationId | Gives(env, id, reply, reg)
        ensures ProcessBundle(sessions, name, id, pre) == Ok(sessions[Address(name, id) := reg])
      {
        var i: nat :| Picked(pre.devices, id, i) && 1 <= pre.devices[i].device <= 127
                 && pre.devices[i].acceptable && pre.devices[i].registrationId == reg;
        PickedOnce(pre.devices, id, i, j);
      }
    }
  }

  /** One turn of the missing-device loop: one GET; a 404 is passed over, a bundle becomes a session
      of that device, and anything else aborts with its error and leaves the sessions alone. */
  lemma FetchOneLaw(env: Env, w: World, name: string, id: nat)
    ensures var (w', e) := FetchOne(env, w, name, id);
            var reply := env.reply(|w.log|, GetBundle(name, id));
            && w'.log == w.log + [Exchange(w.sessions, GetBundle(name, id), reply)] && w'.sleptMs == w.sleptMs
            && (NotFound(reply) ==> e.None? && w'.sessions == w.sessions)
            && (forall reg: RegistrationId :: Gives(env, id, reply, reg) ==> e.None? && w'.sessions == w.sessions[Address(name, id) := reg])
            && (!NotFound(reply) && (forall reg: RegistrationId :: !Gives(env, id, reply, reg)) ==>
                  e.Some? && BundleError(reply, e.value) && w'.sessions == w.sessions)
  {
    var reply := env.reply(|w.log|, GetBundle(name, id));
    if reply.Reply? && reply.status == 200 && env.parseBundles(reply.body).Some? {
      ProcessLaw(env, w.sessions, name, id, reply);
    }
  }

  // ----- the whole repair -----

  ghost predicate Fine(env: Env, id: nat, reply: Reply) {
    NotFound(reply) || exists reg: RegistrationId :: Gives(env, id, reply, reg)
  }

  /** The i-th GET was for this device and gave it this session. */
  ghost predicate GivenTo(env: Env, ids: seq<nat>, gets: seq<Exchange>, d: nat, i: nat, reg: RegistrationId) {
    i < |gets| <= |ids| && ids[i] == d && Gives(env, d, gets[i].reply, reg)
  }

  ghost predicate LastGiven(env: Env, ids: seq<nat>, gets: seq<Exchange>, d: nat, i: nat, reg: RegistrationId) {
    && GivenTo(env, ids, gets, d, i, reg)
    && forall j: nat, reg': RegistrationId :: i < j ==> !GivenTo(env, ids, gets, d, j, reg')
  }

  ghost predicate NoneGiven(env: Env, ids: seq<nat>, gets: seq<Exchange>, d: nat) {
    forall i: nat, reg: RegistrationId :: !GivenTo(env, ids, gets, d, i, reg)
  }

  predicate SameAt(a: Address, s: SessionMap, s': SessionMap) {
    (a in s' <==> a in s) && (a in s ==> s'[a] == s[a])
  }

  /** A device has the session given to it last, and otherwise what it had. */
  ghost predicate SessionLaw(env: Env, name: string, ids: seq<nat>, gets: seq<Exchange>, d: DeviceId, s: SessionMap, s': SessionMap) {
    var a := Address(name, d);
    && (forall i: nat, reg: RegistrationId :: LastGiven(env, ids, gets, d, i, reg) ==> a in s' && s'[a] == reg)
    && (NoneGiven(env, ids, gets, d) ==> SameAt(a, s, s'))
  }

  /** The missing-device loop: one GET per id in order, up to the first answer that is neither 404 nor
      a usable bundle; an error iff there is such an answer; each device gets what its GETs gave. */
  ghost predicate FetchLaw(env: Env, name: string, ids: seq<nat>, w: World, w': World, e: Option<SendError>) {
    && w.log <= w'.log && w'.sleptMs == w.sleptMs
    && SameElsewhere(name, w.sessions, w'.sessions)
    && var gets := Since(w, w');
       && GetsLaw(env, name, ids, |w.log|, gets, e)
       && forall d: DeviceId :: SessionLaw(env, name, ids, gets, d, w.sessions, w'.sessions)
  }

  ghost predicate GetsLaw(env: Env, name: string, ids: seq<nat>, at: nat, gets: seq<Exchange>, e: Option<SendError>) {
    && |gets| <= |ids|
    && (forall i :: 0 <= i < |gets| ==>
          gets[i].request == GetBundle(name, ids[i]) && gets[i].reply == env.reply(at + i, gets[i].request))
    && (forall i :: 0 <= i < |gets| - 1 ==> Fine(env, ids[i], gets[i].reply))
    && (e.None? ==> |gets| == |ids| && forall i :: 0 <= i < |gets| ==> Fine(env, ids[i], gets[i].reply))
    && (e.Some? ==>
          && gets != [] && !Fine(env, ids[|gets| - 1], gets[|gets| - 1].reply)
          && BundleError(gets[|gets| - 1].reply, e.value))
  }

  lemma GetsPrepend(env: Env, name: string, ids: seq<nat>, at: nat, get: Exchange, rest: seq<Exchange>, e: Option<SendError>)
    requires ids != [] && get.request == GetBundle(name, ids[0]) && get.reply == env.reply(at, get.request)
    requires Fine(env, ids[0], get.reply) && GetsLaw(env, name, ids[1..], at + 1, rest, e)
    ensures GetsLaw(env, name, ids, at, [get] + rest, e)
  {
    var gets, tail := [get] + rest, ids[1..];
    assert forall i :: 1 <= i < |gets| ==> gets[i] == rest[i - 1] && ids[i] == tail[i - 1];
    forall i | 0 <= i < |gets|
      ensures gets[i].request == GetBundle(name, ids[i]) && gets[i].reply == env.reply(at + i, gets[i].request)
    {
      if i > 0 {
        assert gets[i] == rest[i - 1] && ids[i] == tail[i - 1];
        assert at + i == at + 1 + (i - 1);
      }
    }
  }

  lemma GivenShift(env: Env, ids: seq<nat>, get: Exchange, rest: seq<Exchange>, d: nat, i: nat, reg: RegistrationId)
    requires ids != [] && |rest| < |ids|
    ensures GivenTo(env, ids, [get] + rest, d, i + 1, reg) <==> GivenTo(env, ids[1..], rest, d, i, reg)
    ensures GivenTo(env, ids, [get] + rest, d, 0, reg) <==> ids[0] == d && Gives(env, d, get.reply, reg)
  {
  }

  lemma NonePrepend(env: Env, ids: seq<nat>, get: Exchange, rest: seq<Exchange>, d: nat)
    requires ids != [] && |rest| < |ids|
    ensures NoneGiven(env, ids, [get] + rest, d) ==> NoneGiven(env, ids[1..], rest, d)
    ensures NoneGiven(env, ids, [get] + rest, d) && ids[0] == d ==> forall reg: RegistrationId :: !Gives(env, d, get.reply, reg)
  {
    forall i: nat, reg: RegistrationId
      ensures GivenTo(env, ids[1..], rest, d, i, reg) ==> GivenTo(env, ids, [get] + rest, d, i + 1, reg)
    {
      GivenShift(env, ids, get, rest, d, i, reg);
    }
    forall reg: RegistrationId ensures ids[0] == d && Gives(env, d, get.reply, reg) ==> GivenTo(env, ids, [get] + rest, d, 0, reg) {
      GivenShift(env, ids, get, rest, d, 0, reg);
    }
  }

  lemma LastPrepend(env: Env, ids: seq<nat>, get: Exchange, rest: seq<Exchange>, d: nat, i: nat, reg: RegistrationId)
    requires ids != [] && |rest| < |ids| && LastGiven(env, ids, [get] + rest, d, i, reg)
    ensures i > 0 ==> LastGiven(env, ids[1..], rest, d, i - 1, reg)
    ensures i == 0 ==> NoneGiven(env, ids[1..], rest, d) && ids[0] == d && Gives(env, d, get.reply, reg)
  {
    var gets, tail := [get] + rest, ids[1..];
    forall j: nat, reg': RegistrationId
      ensures GivenTo(env, tail, rest, d, j, reg') <==> GivenTo(env, ids, gets, d, j + 1, reg')
    {
      GivenShift(env, ids, get, rest, d, j, reg');
    }
    forall j: nat, reg': RegistrationId ensures i < j + 1 ==> !GivenTo(env, tail, rest, d, j, reg') {
      assert i < j + 1 ==> !GivenTo(env, ids, gets, d, j + 1, reg');
    }
    if i > 0 {
      assert GivenTo(env, tail, rest, d, i - 1, reg) <==> GivenTo(env, ids, gets, d, i - 1 + 1, reg);
    } else {
      GivenShift(env, ids, get, rest, d, 0, reg);
    }
  }

  lemma SessionPrepend(env: Env, name: string, ids: seq<nat>, get: Exchange, rest: seq<Exchange>, d: DeviceId,
                       s: SessionMap, s1: SessionMap, s': SessionMap)
    requires ids != [] && |rest| < |ids|
    requires NotFound(get.reply) ==> s1 == s
    requires forall reg: RegistrationId :: Gives(env, ids[0], get.reply, reg) ==> 1 <= ids[0] <= 127 && s1 == s[Address(name, ids[0]) := reg]
    requires Fine(env, ids[0], get.reply)
    requires SessionLaw(env, name, ids[1..], rest, d, s1, s')
    ensures SessionLaw(env, name, ids, [get] + rest, d, s, s')
  {
    var a, gets := Address(name, d), [get] + rest;
    forall i: nat, reg: RegistrationId | LastGiven(env, ids, gets, d, i, reg) ensures a in s' && s'[a] == reg {
      LastPrepend(env, ids, get, rest, d, i, reg);
      if i == 0 {
        assert SameAt(a, s1, s') && s1 == s[Address(name, ids[0]) := reg];
      } else {
        assert LastGiven(env, ids[1..], rest, d, i - 1, reg);
      }
    }
    NonePrepend(env, ids, get, rest, d);
    if NoneGiven(env, ids, gets, d) {
      assert SameAt(a, s1, s');
      if !NotFound(get.reply) {
        var reg: RegistrationId :| Gives(env, ids[0], get.reply, reg);
        assert ids[0] != d;
      }
      assert SameAt(a, s, s1);
    }
  }

  lemma {:induction false} FetchAllLaw(env: Env, w: World, name: string, ids: seq<nat>)
    ensures var (w', e) := FetchAll(env, w, name, ids);
            FetchLaw(env, name, ids, w, w', e)
    decreases |ids|
  {
    if ids == [] {
      assert Since(w, w) == [];
    } else {
      FetchOneLaw(env, w, name, ids[0]);
      var (w1, e) := FetchOne(env, w, name, ids[0]);
      var reply := env.reply(|w.log|, GetBundle(name, ids[0]));
      var get := Exchange(w.sessions, GetBundle(name, ids[0]), reply);
      if e.Some? {
        FetchStops(env, w, name, ids, w1, e, get);
      } else {
        FetchAllLaw(env, w1, name, ids[1..]);
        FetchGoesOn(env, w, name, ids, w1, get);
      }
    }
  }

  lemma FetchStops(env: Env, w: World, name: string, ids: seq<nat>, w1: World, e: Option<SendError>, get: Exchange)
    requires ids != [] && e.Some? && w1 == w.(log := w.log + [get])
    requires get.request == GetBundle(name, ids[0]) && get.reply == env.reply(|w.log|, get.request)
    requires !Fine(env, ids[0], get.reply) && BundleError(get.reply, e.value)
    ensures FetchLaw(env, name, ids, w, w1, e)
  {
    assert Since(w, w1) == [get];
    var first := ids[0];
    forall d: DeviceId ensures SessionLaw(env, name, ids, [get], d, w.sessions, w1.sessions) {
      forall i: nat, reg: RegistrationId ensures !GivenTo(env, ids, [get], d, i, reg) {
        assert GivenTo(env, ids, [get], d, i, reg) ==> Gives(env, first, get.reply, reg);
      }
    }
  }

  lemma FetchGoesOn(env: Env, w: World, name: string, ids: seq<nat>, w1: World, get: Exchange)
    requires ids != [] && FetchOne(env, w, name, ids[0]) == (w1, None)
    requires get == Exchange(w.sessions, GetBundle(name, ids[0]), env.reply(|w.log|, GetBundle(name, ids[0])))
    requires var (w', e) := FetchAll(env, w1, name, ids[1..]); FetchLaw(env, name, ids[1..], w1, w', e)
    ensures var (w', e) := FetchAll(env, w, name, ids); FetchLaw(env, name, ids, w, w', e)
  {
    var (w', e) := FetchAll(env, w1, name, ids[1..]);
    FetchOneLaw(env, w, name, ids[0]);
    LawPrepend(env, w, name, ids, w1, get, w', e);
  }

  lemma LawPrepend(env: Env, w: World, name: string, ids: seq<nat>, w1: World, get: Exchange, w': World, e: Option<SendError>)
    requires ids != [] && get.request == GetBundle(name, ids[0]) && get.reply == env.reply(|w.log|, get.request)
    requires w1.log == w.log + [get] && w1.sleptMs == w.sleptMs && SameElsewhere(name, w.sessions, w1.sessions)
    requires NotFound(get.reply) ==> w1.sessions == w.sessions
    requires forall reg: RegistrationId :: Gives(env, ids[0], get.reply, reg) ==>
               1 <= ids[0] <= 127 && w1.sessions == w.sessions[Address(name, ids[0]) := reg]
    requires Fine(env, ids[0], get.reply) && FetchLaw(env, name, ids[1..], w1, w', e)
    ensures FetchLaw(env, name, ids, w, w', e)
  {
    var rest := Since(w1, w');
    assert Since(w, w') == [get] + rest;
    GetsPrepend(env, name, ids, |w.log|, get, rest, e);
    forall d: DeviceId ensures SessionLaw(env, name, ids, [get] + rest, d, w.sessions, w'.sessions) {
      SessionPrepend(env, name, ids, get, rest, d, w.sessions, w1.sessions, w'.sessions);
    }
  }

  /** Exactly these devices of the account lose their sessions. */
  ghost predicate Dropped(s: SessionMap, s': SessionMap, name: string, ids: seq<nat>) {
    forall a: Address ::
      && (a in s' <==> a in s && !(a.name == name && a.device in ids))
      && (a in s' ==> s'[a] == s[a])
  }

  lemma {:induction false} DropLaw(sessions: SessionMap, name: string, ids: seq<nat>)
    ensures Dropped(sessions, DropSessions(sessions, name, ids), name, ids)
    decreases |ids|
  {
    if ids != [] {
      var next := DropSession(sessions, name, ids[0]);
      DropLaw(next, name, ids[1..]);
      assert ids == [ids[0]] + ids[1..];
    }
  }

  /** A 409: the extra devices are dropped, then the missing ones fetched. */
  ghost predicate RepairLaw(env: Env, name: string, mm: Mismatch, w: World, w': World, e: Option<SendError>) {
    exists s :: Dropped(w.sessions, s, name, mm.extra) && FetchLaw(env, name, mm.missing, w.(sessions := s), w', e)
  }

  lemma RepairObeys(env: Env, name: string, mm: Mismatch, w: World)
    ensures var (w', e) := RepairMismatch(env, w, name, mm); RepairLaw(env, name, mm, w, w', e)
  {
    var s := DropSessions(w.sessions, name, mm.extra);
    DropLaw(w.sessions, name, mm.extra);
    FetchAllLaw(env, w.(sessions := s), name, mm.missing);
  }

  // ----- one attempt -----

  ghost predicate Reachable(job: Job, sessions: SessionMap) {
    exists d: nat :: Live(sessions, job.name, d) && job.excluded != Some(d)
  }

  ghost predicate PutLaw(env: Env, job: Job, w: World, put: Exchange) {
    && put.sessions == w.sessions && put.request.Put?
    && put.request.name == job.name && put.request.timestamp == job.timestamp && ExactlyAddressed(job, put)
    && put.reply == env.reply(|w.log|, put.request)
  }

  /** What an answer to a PUT leads to. `w` already has the PUT in its log; no `stop` means retry. */
  ghost predicate AnswerLaw(env: Env, job: Job, attempt: nat, w: World, reply: Reply, w': World, stop: Option<Outcome>) {
    if Accepted(reply) then w' == w && stop == Some(Delivered(true))
    else if Transient(reply) then w' == w.(sleptMs := w.sleptMs + Pause(attempt)) && stop.None?
    else if reply.status == 409 || reply.status == 410 then
      match env.parseMismatch(env.lossy(reply.body))
      case None => w' == w && stop.Some? && stop.value.Failed? && stop.value.error.BadResponse?
      case Some(mm) =>
        if reply.status == 410 then
          w'.log == w.log && w'.sleptMs == w.sleptMs && Dropped(w.sessions, w'.sessions, job.name, mm.stale) && stop.None?
        else
          && (stop.Some? ==> stop.value.Failed?)
          && RepairLaw(env, job.name, mm, w, w', if stop.Some? then Some(stop.value.error) else None)
    else w' == w && stop == Some(Failed(FinalError(reply.status)))
  }

  /** An attempt with nobody to address, or with a fallback id that no address can carry, ends the
      call without a request; any other makes one PUT and follows its answer. */
  ghost predicate AttemptLaw(env: Env, job: Job, attempt: nat, w: World, w': World, stop: Option<Outcome>) {
    if !Reachable(job, w.sessions) then
      && w' == w && stop.Some?
      && (job.excluded.Some? ==> stop.value == Delivered(false))
      && (job.excluded.None? && 1 <= job.fallback <= 127 ==> stop.value == Failed(NoSession))
      && (job.excluded.None? && !(1 <= job.fallback <= 127) ==> stop.value.Failed? && stop.value.error.BadResponse?)
    else if !(1 <= job.fallback <= 127) then w' == w && stop.Some? && stop.value.Failed? && stop.value.error.BadResponse?
    else
      && |w.log| < |w'.log| && w.log <= w'.log
      && PutLaw(env, job, w, w'.log[|w.log|])
      && AnswerLaw(env, job, attempt, w.(log := w.log + [w'.log[|w.log|]]), w'.log[|w.log|].reply, w', stop)
  }

  lemma AnswerObeys(env: Env, job: Job, attempt: nat, w: World, reply: Reply)
    requires 1 <= attempt <= 3
    ensures var (w', stop) := AfterPut(env, job, attempt, w, Classify(InterpretStatus(env, reply)));
            AnswerLaw(env, job, attempt, w, reply, w', stop)
  {
    DecisionOf(env, reply);
    PauseIsBackoff(attempt);
    if !Accepted(reply) && !Transient(reply) && (reply.status == 409 || reply.status == 410) {
      var mm := env.parseMismatch(env.lossy(reply.body));
      if mm.Some? {
        RepairObeys(env, job.name, mm.value, w);
        DropLaw(w.sessions, job.name, mm.value.stale);
        var (w', e) := RepairMismatch(env, w, job.name, mm.value);
        assert e == if e.Some? then Some(Failed(e.value).error) else None;
        assert reply.status == 409 ==>
            AfterPut(env, job, attempt, w, Classify(InterpretStatus(env, reply))) == (w', if e.Some? then Some(Failed(e.value)) else None);
      }
    }
  }

  lemma TargetsOfReachable(sessions: SessionMap, job: Job)
    ensures Targets(sessions, job) == [] <==> !Reachable(job, sessions)
  {
    TargetsExact(sessions, job);
    var targets := Targets(sessions, job);
    if targets != [] {
      assert targets[0] in targets;
    }
  }

  lemma AttemptObeys(env: Env, job: Job, attempt: nat, w: World)
    requires 1 <= attempt <= 3
    ensures var (w', stop) := Attempt(env, job, attempt, w);
            AttemptLaw(env, job, attempt, w, w', stop)
  {
    TargetsOfReachable(w.sessions, job);
    var targets := Targets(w.sessions, job);
    if targets == [] {
      if job.excluded.None? {
        OnlySessionsAreEncrypted(w.sessions, job);
      }
    } else if ToDeviceId(job.fallback).Some? {
      AttemptPutLaw(env, job, attempt, w);
    }
  }

  lemma AttemptPutLaw(env: Env, job: Job, attempt: nat, w: World)
    requires 1 <= attempt <= 3 && Targets(w.sessions, job) != [] && ToDeviceId(job.fallback).Some?
    ensures var (w', stop) := Attempt(env, job, attempt, w);
            && |w.log| < |w'.log| && w.log <= w'.log
            && PutLaw(env, job, w, w'.log[|w.log|])
            && AnswerLaw(env, job, attempt, w.(log := w.log + [w'.log[|w.log|]]), w'.log[|w.log|].reply, w', stop)
  {
    var targets := Targets(w.sessions, job);
    TargetsExact(w.sessions, job);
    assert forall i :: 0 <= i < |targets| ==> targets[i] in targets && Live(w.sessions, job.name, targets[i]);
    EncryptAllExact(w.sessions, job, targets);
    var request := Put(job.name, EncryptAll(w.sessions, job, targets).value, job.timestamp);
    var (w1, reply) := Ask(env, w, request);
    var put := Exchange(w.sessions, request, reply);
    GoodIsExact(job, put);
    AnswerObeys(env, job, attempt, w1, reply);
    AfterPutExtends(env, job, attempt, w1, Classify(InterpretStatus(env, reply)));
    var (w', stop) := Attempt(env, job, attempt, w);
    assert (w', stop) == AfterPut(env, job, attempt, w1, Classify(InterpretStatus(env, reply)));
    assert w1.log == w.log + [put] && w'.log[|w.log|] == put;
  }

  // ----- the whole call -----

  /** Attempts in a row: each within the budget, all but the last asking for another. */
  ghost predicate Attempts(env: Env, job: Job, before: nat, ws: seq<World>, stops: seq<Option<Outcome>>) {
    && |ws| == |stops| + 1 && before + |stops| <= 3
    && (forall j :: 0 <= j < |stops| ==>
          !env.overBudget(|ws[j].log|) && AttemptLaw(env, job, before + j + 1, ws[j], ws[j + 1], stops[j]))
    && (forall j :: 0 <= j < |stops| - 1 ==> stops[j].None?)
  }

  /** How a call ends: as its last attempt says, or exhausted, after three attempts or over budget. */
  ghost predicate Ends(env: Env, before: nat, ws: seq<World>, stops: seq<Option<Outcome>>, outcome: Outcome)
    requires |ws| == |stops| + 1
  {
    if stops != [] && stops[|stops| - 1].Some? then outcome == stops[|stops| - 1].value
    else outcome == Failed(RetryExhausted) && (env.overBudget(|ws[|ws| - 1].log|) || before + |stops| == 3)
  }

  lemma AttemptsPrepend(env: Env, job: Job, before: nat, w: World, ws: seq<World>, stops: seq<Option<Outcome>>, outcome: Outcome)
    requires before < 3 && !env.overBudget(|w.log|) && ws != [] && AttemptLaw(env, job, before + 1, w, ws[0], None)
    requires Attempts(env, job, before + 1, ws, stops) && Ends(env, before + 1, ws, stops, outcome)
    ensures Attempts(env, job, before, [w] + ws, [None] + stops) && Ends(env, before, [w] + ws, [None] + stops, outcome)
  {
    var ws', stops' := [w] + ws, [None] + stops;
    forall j | 0 <= j < |stops'|
      ensures !env.overBudget(|ws'[j].log|) && AttemptLaw(env, job, before + j + 1, ws'[j], ws'[j + 1], stops'[j])
    {
      if j > 0 {
        assert ws'[j] == ws[j - 1] && ws'[j + 1] == ws[j] && stops'[j] == stops[j - 1];
        assert before + j + 1 == before + 1 + (j - 1) + 1;
      }
    }
  }

  /** The row of attempts behind one run of the loop. */
  ghost predicate IsRow(env: Env, job: Job, before: nat, w: World, w': World, outcome: Outcome,
                        ws: seq<World>, stops: seq<Option<Outcome>>) {
    && Attempts(env, job, before, ws, stops) && Ends(env, before, ws, stops, outcome)
    && ws[0] == w && ws[|ws| - 1] == w'
  }

  ghost predicate HasRow(env: Env, job: Job, before: nat, w: World, w': World, outcome: Outcome) {
    exists ws, stops :: IsRow(env, job, before, w, w', outcome, ws, stops)
  }

  lemma NoAttempt(env: Env, job: Job, before: nat, w: World)
    requires before <= 3 && (env.overBudget(|w.log|) || before == 3)
    ensures HasRow(env, job, before, w, w, Failed(RetryExhausted))
  {
    assert IsRow(env, job, before, w, w, Failed(RetryExhausted), [w], []);
  }

  lemma ObeysAs(env: Env, job: Job, attempt: nat, w: World, w': World, stop: Option<Outcome>)
    requires 1 <= attempt <= 3 && Attempt(env, job, attempt, w) == (w', stop)
    ensures AttemptLaw(env, job, attempt, w, w', stop)
  {
    AttemptObeys(env, job, attempt, w);
  }

  lemma LastAttempt(env: Env, job: Job, before: nat, w: World, w': World, outcome: Outcome)
    requires before < 3 && !env.overBudget(|w.log|) && AttemptLaw(env, job, before + 1, w, w', Some(outcome))
    ensures IsRow(env, job, before, w, w', outcome, [w, w'], [Some(outcome)])
  {
  }

  lemma OneMore(env: Env, job: Job, before: nat, w: World, w1: World, w': World, outcome: Outcome,
                ws: seq<World>, stops: seq<Option<Outcome>>)
    requires before < 3 && !env.overBudget(|w.log|) && AttemptLaw(env, job, before + 1, w, w1, None)
    requires IsRow(env, job, before + 1, w1, w', outcome, ws, stops)
    ensures IsRow(env, job, before, w, w', outcome, [w] + ws, [None] + stops)
  {
    AttemptsPrepend(env, job, before, w, ws, stops, outcome);
  }

  lemma StopRow(env: Env, job: Job, t: Turn, w1: World, outcome: Outcome)
    requires t.attempt < 3 && !env.overBudget(|t.world.log|) && Attempt(env, job, t.attempt + 1, t.world) == (w1, Some(outcome))
    ensures HasRow(env, job, t.attempt, t.world, w1, outcome)
  {
    ObeysAs(env, job, t.attempt + 1, t.world, w1, Some(outcome));
    LastAttempt(env, job, t.attempt, t.world, w1, outcome);
  }

  lemma RetryLaw(env: Env, job: Job, before: nat, w: World, w1: World, w': World, outcome: Outcome)
    requires before < 3 && !env.overBudget(|w.log|) && AttemptLaw(env, job, before + 1, w, w1, None)
    requires HasRow(env, job, before + 1, w1, w', outcome)
    ensures HasRow(env, job, before, w, w', outcome)
  {
    var ws, stops :| IsRow(env, job, before + 1, w1, w', outcome, ws, stops);
    OneMore(env, job, before, w, w1, w', outcome, ws, stops);
  }

  lemma RetryRow(env: Env, job: Job, t: Turn, w1: World, w': World, outcome: Outcome)
    requires t.attempt < 3 && !env.overBudget(|t.world.log|) && Attempt(env, job, t.attempt + 1, t.world) == (w1, None)
    requires HasRow(env, job, t.attempt + 1, w1, w', outcome)
    ensures HasRow(env, job, t.attempt, t.world, w', outcome)
  {
    ObeysAs(env, job, t.attempt + 1, t.world, w1, None);
    RetryLaw(env, job, t.attempt, t.world, w1, w', outcome);
  }

  lemma {:induction false} LoopLaw(env: Env, job: Job, t: Turn)
    requires t.attempt <= MAX_ATTEMPTS
    ensures var (w', outcome) := RunLoop(env, job, t); HasRow(env, job, t.attempt, t.world, w', outcome)
    decreases MAX_ATTEMPTS - t.attempt
  {
    if env.overBudget(|t.world.log|) || t.attempt == MAX_ATTEMPTS {
      LoopGivesUp(env, job, t);
      NoAttempt(env, job, t.attempt, t.world);
    } else {
      var (w1, stop) := Attempt(env, job, t.attempt + 1, t.world);
      LoopTurn(env, job, t, w1, stop);
      if stop.Some? {
        StopRow(env, job, t, w1, stop.value);
      } else {
        LoopLaw(env, job, Turn(t.attempt + 1, w1));
        var (w', outcome) := RunLoop(env, job, Turn(t.attempt + 1, w1));
        RetryRow(env, job, t, w1, w', outcome);
      }
    }
  }

  /** Every call, against any server, is a row of such attempts from `w` to `w'`, and ends as the row
      says. */
  lemma SubmitLaw(env: Env, job: Job, w: World) returns (ws: seq<World>, stops: seq<Option<Outcome>>)
    ensures var (w', outcome) := Submit(env, job, w); IsRow(env, job, 0, w, w', outcome, ws, stops)
  {
    LoopLaw(env, job, Turn(0, w));
    var (w', outcome) := Submit(env, job, w);
    ws, stops :| IsRow(env, job, 0, w, w', outcome, ws, stops);
  }

  // ----- what follows each PUT -----

  /** What the answer to the PUT at `p` decides, if it is the call's attempt number `n`. A transient
      one is followed at once by a PUT from the same sessions while attempts and budget remain; success,
      a final error and a mismatch that cannot be read end the call there. */
  ghost predicate Decides(env: Env, n: nat, log: seq<Exchange>, p: nat, outcome: Outcome)
    requires p < |log|
  {
    var reply := log[p].reply;
    var last := p + 1 == |log|;
    if Accepted(reply) then last && outcome == Delivered(true)
    else if Transient(reply) then
      if n < 3 && !env.overBudget(p + 1) then !last && log[p + 1].request.Put? && log[p + 1].sessions == log[p].sessions
      else last && outcome == Failed(RetryExhausted)
    else if reply.status == 409 || reply.status == 410 then
      env.parseMismatch(env.lossy(reply.body)).None? ==> last && outcome.Failed? && outcome.error.BadResponse?
    else last && outcome == Failed(FinalError(reply.status))
  }

  lemma {:induction false} NoPuts(log: seq<Exchange>, i: nat)
    requires Puts(log) == [] && i < |log|
    ensures !log[i].request.Put?
  {
    if i > 0 {
      NoPuts(log[1..], i - 1);
      assert log[1..][i - 1] == log[i];
    }
  }

  lemma OnlyPut(log: seq<Exchange>, i: nat)
    requires log != [] && Puts(log) == [log[0]] && i < |log| && log[i].request.Put?
    ensures i == 0
  {
    PutsArePuts(log);
    var rest := Puts(log[1..]);
    assert Puts(log)[0] == log[0];
    assert Puts(log) == [log[0]] + rest;
    assert |rest| == 0;
    if i > 0 {
      assert log[1..][i - 1] == log[i];
      NoPuts(log[1..], i - 1);
    }
  }

  lemma {:induction false} PutsArePuts(log: seq<Exchange>)
    ensures forall i :: 0 <= i < |Puts(log)| ==> Puts(log)[i].request.Put?
  {
    if log != [] {
      PutsArePuts(log[1..]);
    }
  }

  /** An attempt makes no request and stops, or its only PUT is its first request. */
  ghost predicate OnePut(w: World, w1: World, stop: Option<Outcome>) {
    && w.log <= w1.log
    && (|w1.log| == |w.log| ==> w1 == w && stop.Some?)
    && (|w1.log| > |w.log| ==> Puts(Since(w, w1)) == [w1.log[|w.log|]])
  }

  lemma {:induction false} AllGets(log: seq<Exchange>)
    requires forall i :: 0 <= i < |log| ==> !log[i].request.Put?
    ensures Puts(log) == []
  {
    if log != [] {
      AllGets(log[1..]);
    }
  }

  lemma AttemptHasOnePut(env: Env, job: Job, n: nat, w: World, w1: World, stop: Option<Outcome>)
    requires AttemptLaw(env, job, n, w, w1, stop)
    ensures OnePut(w, w1, stop)
  {
    if |w1.log| > |w.log| {
      var put := w1.log[|w.log|];
      var asked := w.(log := w.log + [put]);
      AnswerHasNoPut(env, job, n, asked, put.reply, w1, stop);
      assert Since(w, w1) == [put] + Since(asked, w1);
      PutsConcat([put], Since(asked, w1));
    }
  }

  lemma AnswerHasNoPut(env: Env, job: Job, n: nat, w: World, reply: Reply, w1: World, stop: Option<Outcome>)
    requires AnswerLaw(env, job, n, w, reply, w1, stop)
    ensures w.log <= w1.log && Puts(Since(w, w1)) == []
  {
    if w1.log == w.log {
      assert Since(w, w1) == [];
    } else {
      var mm := env.parseMismatch(env.lossy(reply.body)).value;
      var e := if stop.Some? then Some(stop.value.error) else None;
      var s :| Dropped(w.sessions, s, job.name, mm.extra) && FetchLaw(env, job.name, mm.missing, w.(sessions := s), w1, e);
      AllGets(Since(w, w1));
    }
  }

  /** An attempt in brief: its requests, its pause, and what ends it. */
  ghost predicate Brief(env: Env, job: Job, n: nat, w: World, w1: World, stop: Option<Outcome>) {
    && OnePut(w, w1, stop) && stop != Some(Failed(RetryExhausted))
    && (Reachable(job, w.sessions) && 1 <= job.fallback <= 127 ==> |w1.log| > |w.log|)
    && (|w1.log| > |w.log| ==>
          && 1 <= job.fallback <= 127 && Reachable(job, w.sessions)
          && w1.log[|w.log|].request.Put? && w1.log[|w.log|].sessions == w.sessions
          && BriefAnswer(env, n, w, w1.log[|w.log|].reply, w1, stop))
  }

  ghost predicate BriefAnswer(env: Env, n: nat, w: World, reply: Reply, w1: World, stop: Option<Outcome>) {
    if Accepted(reply) then |w1.log| == |w.log| + 1 && w1.sleptMs == w.sleptMs && stop == Some(Delivered(true))
    else if Transient(reply) then
      |w1.log| == |w.log| + 1 && w1.sessions == w.sessions && w1.sleptMs == w.sleptMs + Pause(n) && stop.None?
    else
      && w1.sleptMs == w.sleptMs
      && (if reply.status == 409 || reply.status == 410 then
            env.parseMismatch(env.lossy(reply.body)).None? ==>
              |w1.log| == |w.log| + 1 && stop.Some? && stop.value.Failed? && stop.value.error.BadResponse?
          else |w1.log| == |w.log| + 1 && stop == Some(Failed(FinalError(reply.status))))
  }

  lemma AttemptInBrief(env: Env, job: Job, n: nat, w: World, w1: World, stop: Option<Outcome>)
    requires 1 <= n <= 3 && AttemptLaw(env, job, n, w, w1, stop)
    ensures Brief(env, job, n, w, w1, stop)
  {
    AttemptHasOnePut(env, job, n, w, w1, stop);
  }

  /** A row of attempts in brief, told from its first. */
  ghost predicate Chain(env: Env, job: Job, before: nat, ws: seq<World>, stops: seq<Option<Outcome>>, outcome: Outcome)
    decreases |stops|
  {
    if stops == [] then
      |ws| == 1 && before <= 3 && outcome == Failed(RetryExhausted) && (env.overBudget(|ws[0].log|) || before == 3)
    else
      && |ws| == |stops| + 1 && before < 3 && !env.overBudget(|ws[0].log|)
      && Brief(env, job, before + 1, ws[0], ws[1], stops[0])
      && (if stops[0].Some? then |stops| == 1 && outcome == stops[0].value
          else Chain(env, job, before + 1, ws[1..], stops[1..], outcome))
  }

  /** Attempts in a row, each in brief. */
  ghost predicate Briefs(env: Env, job: Job, before: nat, ws: seq<World>, stops: seq<Option<Outcome>>) {
    && |ws| == |stops| + 1 && before + |stops| <= 3
    && (forall j :: 0 <= j < |stops| ==>
          !env.overBudget(|ws[j].log|) && Brief(env, job, before + j + 1, ws[j], ws[j + 1], stops[j]))
    && (forall j :: 0 <= j < |stops| - 1 ==> stops[j].None?)
  }

  lemma AttemptsInBrief(env: Env, job: Job, before: nat, ws: seq<World>, stops: seq<Option<Outcome>>)
    requires Attempts(env, job, before, ws, stops)
    ensures Briefs(env, job, before, ws, stops)
  {
    forall j | 0 <= j < |stops| ensures Brief(env, job, before + j + 1, ws[j], ws[j + 1], stops[j]) {
      AttemptInBrief(env, job, before + j + 1, ws[j], ws[j + 1], stops[j]);
    }
  }

  lemma BriefsRest(env: Env, job: Job, before: nat, ws: seq<World>, stops: seq<Option<Outcome>>, outcome: Outcome)
    requires Briefs(env, job, before, ws, stops) && Ends(env, before, ws, stops, outcome) && stops != [] && stops[0].None?
    ensures Briefs(env, job, before + 1, ws[1..], stops[1..]) && Ends(env, before + 1, ws[1..], stops[1..], outcome)
  {
    var ws1, stops1 := ws[1..], stops[1..];
    forall j | 0 <= j < |stops1|
      ensures !env.overBudget(|ws1[j].log|) && Brief(env, job, before + 1 + j + 1, ws1[j], ws1[j + 1], stops1[j])
    {
      assert ws1[j] == ws[j + 1] && ws1[j + 1] == ws[j + 2] && stops1[j] == stops[j + 1];
      assert before + 1 + j + 1 == before + (j + 1) + 1;
    }
    assert forall j :: 0 <= j < |stops1| - 1 ==> stops1[j] == stops[j + 1];
  }

  lemma {:induction false} BriefsAreChain(env: Env, job: Job, before: nat, ws: seq<World>, stops: seq<Option<Outcome>>, outcome: Outcome)
    requires Briefs(env, job, before, ws, stops) && Ends(env, before, ws, stops, outcome)
    ensures Chain(env, job, before, ws, stops, outcome)
    decreases |stops|
  {
    if stops != [] && stops[0].None? {
      BriefsRest(env, job, before, ws, stops, outcome);
      BriefsAreChain(env, job, before + 1, ws[1..], stops[1..], outcome);
    }
  }

  lemma RowIsChain(env: Env, job: Job, before: nat, w: World, w': World, outcome: Outcome, ws: seq<World>, stops: seq<Option<Outcome>>)
    requires IsRow(env, job, before, w, w', outcome, ws, stops)
    ensures Chain(env, job, before, ws, stops, outcome)
  {
    AttemptsInBrief(env, job, before, ws, stops);
    BriefsAreChain(env, job, before, ws, stops, outcome);
  }

  lemma {:induction false} ChainGrows(env: Env, job: Job, before: nat, ws: seq<World>, stops: seq<Option<Outcome>>, outcome: Outcome)
    requires Chain(env, job, before, ws, stops, outcome)
    ensures ws[0].log <= ws[|ws| - 1].log
    decreases |stops|
  {
    if stops != [] && stops[0].None? {
      ChainGrows(env, job, before + 1, ws[1..], stops[1..], outcome);
    }
  }

  /** A chain that starts with somebody to address: nothing is left of it, or its first request is a PUT. */
  lemma NextIsPut(env: Env, job: Job, before: nat, ws: seq<World>, stops: seq<Option<Outcome>>, outcome: Outcome)
    requires Chain(env, job, before, ws, stops, outcome) && Reachable(job, ws[0].sessions) && 1 <= job.fallback <= 127
    ensures var w, w' := ws[0], ws[|ws| - 1];
            if env.overBudget(|w.log|) || before == 3 then w' == w && outcome == Failed(RetryExhausted)
            else |w.log| < |w'.log| && w.log <= w'.log && w'.log[|w.log|].request.Put? && w'.log[|w.log|].sessions == w.sessions
  {
    if stops != [] && stops[0].None? {
      ChainGrows(env, job, before + 1, ws[1..], stops[1..], outcome);
    }
  }

  lemma FirstDecides(env: Env, job: Job, before: nat, ws: seq<World>, stops: seq<Option<Outcome>>, outcome: Outcome)
    requires Chain(env, job, before, ws, stops, outcome) && stops != [] && |ws[0].log| < |ws[1].log|
    requires ws[1].log <= ws[|ws| - 1].log
    ensures Decides(env, before + 1, ws[|ws| - 1].log, |ws[0].log|, outcome)
  {
    var reply := ws[1].log[|ws[0].log|].reply;
    if Transient(reply) && !Accepted(reply) {
      NextIsPut(env, job, before + 1, ws[1..], stops[1..], outcome);
    }
  }

  lemma {:induction false} ChainDecides(env: Env, job: Job, before: nat, ws: seq<World>, stops: seq<Option<Outcome>>, outcome: Outcome, p: nat)
    requires Chain(env, job, before, ws, stops, outcome)
    requires |ws[0].log| <= p < |ws[|ws| - 1].log| && ws[|ws| - 1].log[p].request.Put?
    ensures var w, w' := ws[0], ws[|ws| - 1];
            Decides(env, before + |Puts(w'.log[|w.log|..p])| + 1, w'.log, p, outcome)
    decreases |stops|
  {
    var w, w1, w' := ws[0], ws[1], ws[|ws| - 1];
    if stops[0].None? {
      ChainGrows(env, job, before + 1, ws[1..], stops[1..], outcome);
    }
    if p < |w1.log| {
      assert Since(w, w1)[p - |w.log|] == w'.log[p];
      OnlyPut(Since(w, w1), p - |w.log|);
      assert w'.log[|w.log|..p] == [];
      FirstDecides(env, job, before, ws, stops, outcome);
    } else {
      ChainDecides(env, job, before + 1, ws[1..], stops[1..], outcome, p);
      assert w'.log[|w.log|..p] == Since(w, w1) + w'.log[|w1.log|..p];
      PutsConcat(Since(w, w1), w'.log[|w1.log|..p]);
    }
  }

  /** In every call, against any server, the answer to each PUT decides what follows as above. */
  lemma AnswerDecides(env: Env, job: Job, w: World, p: nat)
    requires var w' := Submit(env, job, w).0; |w.log| <= p < |w'.log| && w'.log[p].request.Put?
    ensures var (w', outcome) := Submit(env, job, w);
            Decides(env, |Puts(w'.log[|w.log|..p])| + 1, w'.log, p, outcome)
  {
    var (w', outcome) := Submit(env, job, w);
    var ws, stops := SubmitLaw(env, job, w);
    RowIsChain(env, job, 0, w, w', outcome, ws, stops);
    ChainDecides(env, job, 0, ws, stops, outcome, p);
  }

  // ----- how long it sleeps, and when it gives up -----

  /** The pauses of a row of PUTs, the first being attempt number `n`. */
  function Pauses(puts: seq<Exchange>, n: nat): nat {
    if puts == [] then 0
    else (if Transient(puts[0].reply) && !Accepted(puts[0].reply) then Pause(n) else 0) + Pauses(puts[1..], n + 1)
  }

  ghost predicate Exact(env: Env, before: nat, w: World, w': World, outcome: Outcome) {
    && w.log <= w'.log
    && w'.sleptMs == w.sleptMs + Pauses(Puts(Since(w, w')), before + 1)
    && (outcome == Failed(RetryExhausted) ==> env.overBudget(|w'.log|) || before + |Puts(Since(w, w'))| == 3)
  }

  lemma ExactPrepend(env: Env, before: nat, w: World, w1: World, w': World, outcome: Outcome)
    requires w.log <= w1.log && |w.log| < |w1.log| && Puts(Since(w, w1)) == [w1.log[|w.log|]]
    requires var reply := w1.log[|w.log|].reply;
             w1.sleptMs == w.sleptMs + if Transient(reply) && !Accepted(reply) then Pause(before + 1) else 0
    requires Exact(env, before + 1, w1, w', outcome)
    ensures Exact(env, before, w, w', outcome)
  {
    assert Since(w, w') == Since(w, w1) + Since(w1, w');
    PutsConcat(Since(w, w1), Since(w1, w'));
    var puts := Puts(Since(w, w'));
    assert puts[1..] == Puts(Since(w1, w'));
  }

  lemma ExactEnd(env: Env, before: nat, w: World, w1: World, outcome: Outcome)
    requires outcome != Failed(RetryExhausted) && w.log <= w1.log
    requires |w.log| == |w1.log| ==> w1 == w
    requires |w.log| < |w1.log| ==>
               && Puts(Since(w, w1)) == [w1.log[|w.log|]]
               && var reply := w1.log[|w.log|].reply;
                  w1.sleptMs == w.sleptMs + if Transient(reply) && !Accepted(reply) then Pause(before + 1) else 0
    ensures Exact(env, before, w, w1, outcome)
  {
    if |w.log| == |w1.log| {
      assert Since(w, w1) == [];
    } else {
      assert Puts(Since(w, w1))[1..] == [];
      assert Pauses([], before + 2) == 0;
    }
  }

  lemma NothingExact(env: Env, before: nat, w: World)
    requires env.overBudget(|w.log|) || before == 3
    ensures Exact(env, before, w, w, Failed(RetryExhausted))
  {
    assert Since(w, w) == [];
  }

  lemma {:induction false} ChainExact(env: Env, job: Job, before: nat, ws: seq<World>, stops: seq<Option<Outcome>>, outcome: Outcome)
    requires Chain(env, job, before, ws, stops, outcome)
    ensures Exact(env, before, ws[0], ws[|ws| - 1], outcome)
    decreases |stops|
  {
    if stops == [] {
      NothingExact(env, before, ws[0]);
    } else if stops[0].Some? {
      ExactEnd(env, before, ws[0], ws[1], outcome);
    } else {
      ChainExact(env, job, before + 1, ws[1..], stops[1..], outcome);
      ExactPrepend(env, before, ws[0], ws[1], ws[|ws| - 1], outcome);
    }
  }

  /** In every call the time slept is exactly 500, 1000 and 2000 ms for a first, second and third PUT
      that met a transient answer, and exhaustion means three PUTs or a spent budget. */
  lemma SleepIsExact(env: Env, job: Job, w: World)
    ensures var (w', outcome) := Submit(env, job, w);
            && w.log <= w'.log
            && var puts := Puts(Since(w, w'));
            && w'.sleptMs == w.sleptMs + Pauses(puts, 1)
            && (outcome == Failed(RetryExhausted) ==> env.overBudget(|w'.log|) || |puts| == 3)
  {
    var (w', outcome) := Submit(env, job, w);
    var ws, stops := SubmitLaw(env, job, w);
    RowIsChain(env, job, 0, w, w', outcome, ws, stops);
    ChainExact(env, job, 0, ws, stops, outcome);
  }

  // ----- discovery -----

  /** The entry is skipped, or yields a session. */
  predicate Usable(entry: DeviceEntry, excluded: Option<nat>) {
    excluded == Some(entry.device) || (1 <= entry.device <= 127 && entry.acceptable)
  }

  /** Entry `i` is for this device, which is not the excluded one. */
  predicate ListsAt(devices: seq<DeviceEntry>, excluded: Option<nat>, d: nat, i: nat) {
    i < |devices| && devices[i].device == d && excluded != Some(d)
  }

  ghost predicate LastListed(devices: seq<DeviceEntry>, excluded: Option<nat>, d: nat, i: nat) {
    ListsAt(devices, excluded, d, i) && forall j: nat :: i < j ==> !ListsAt(devices, excluded, d, j)
  }

  ghost predicate NotListed(devices: seq<DeviceEntry>, excluded: Option<nat>, d: nat) {
    forall i: nat :: !ListsAt(devices, excluded, d, i)
  }

  /** A listed device has the session of its last entry, and any other what it had. */
  ghost predicate ListedLaw(name: string, excluded: Option<nat>, devices: seq<DeviceEntry>, d: DeviceId, s: SessionMap, s': SessionMap) {
    var a := Address(name, d);
    && (forall i: nat :: LastListed(devices, excluded, d, i) ==> a in s' && s'[a] == devices[i].registrationId)
    && (NotListed(devices, excluded, d) ==> SameAt(a, s, s'))
  }

  lemma ListsShift(entry: DeviceEntry, rest: seq<DeviceEntry>, excluded: Option<nat>, d: nat, i: nat)
    ensures ListsAt([entry] + rest, excluded, d, i + 1) <==> ListsAt(rest, excluded, d, i)
    ensures ListsAt([entry] + rest, excluded, d, 0) <==> entry.device == d && excluded != Some(d)
  {
  }

  lemma LastListedRest(entry: DeviceEntry, rest: seq<DeviceEntry>, excluded: Option<nat>, d: nat, i: nat)
    requires LastListed([entry] + rest, excluded, d, i)
    ensures i > 0 ==> LastListed(rest, excluded, d, i - 1) && ([entry] + rest)[i] == rest[i - 1]
    ensures i == 0 ==> NotListed(rest, excluded, d) && entry.device == d && excluded != Some(d)
  {
    var all := [entry] + rest;
    forall j: nat ensures i < j + 1 ==> !ListsAt(rest, excluded, d, j) {
      ListsShift(entry, rest, excluded, d, j);
      assert i < j + 1 ==> !ListsAt(all, excluded, d, j + 1);
    }
    if i > 0 {
      ListsShift(entry, rest, excluded, d, i - 1);
    } else {
      ListsShift(entry, rest, excluded, d, 0);
    }
  }

  lemma NotListedRest(entry: DeviceEntry, rest: seq<DeviceEntry>, excluded: Option<nat>, d: nat)
    requires NotListed([entry] + rest, excluded, d)
    ensures NotListed(rest, excluded, d) && !(entry.device == d && excluded != Some(d))
  {
    forall j: nat ensures !ListsAt(rest, excluded, d, j) {
      ListsShift(entry, rest, excluded, d, j);
      assert !ListsAt([entry] + rest, excluded, d, j + 1);
    }
    ListsShift(entry, rest, excluded, d, 0);
    assert !ListsAt([entry] + rest, excluded, d, 0);
  }

  lemma ListedPrepend(name: string, excluded: Option<nat>, entry: DeviceEntry, rest: seq<DeviceEntry>, d: DeviceId,
                      s: SessionMap, s1: SessionMap, s': SessionMap)
    requires Usable(entry, excluded)
    requires s1 == if excluded == Some(entry.device) then s else s[Address(name, entry.device) := entry.registrationId]
    requires ListedLaw(name, excluded, rest, d, s1, s')
    ensures ListedLaw(name, excluded, [entry] + rest, d, s, s')
  {
    var a, all := Address(name, d), [entry] + rest;
    forall i: nat | LastListed(all, excluded, d, i) ensures a in s' && s'[a] == all[i].registrationId {
      LastListedRest(entry, rest, excluded, d, i);
      if i == 0 {
        assert SameAt(a, s1, s');
      }
    }
    if NotListed(all, excluded, d) {
      NotListedRest(entry, rest, excluded, d);
      assert SameAt(a, s1, s') && SameAt(a, s, s1);
    }
  }

  /** How many entries are used before the first that cannot be. */
  function UsableCount(devices: seq<DeviceEntry>, excluded: Option<nat>): (m: nat)
    ensures m <= |devices|
    ensures forall i :: 0 <= i < m ==> Usable(devices[i], excluded)
    ensures m < |devices| ==> !Usable(devices[m], excluded)
  {
    if devices == [] || !Usable(devices[0], excluded) then 0 else 1 + UsableCount(devices[1..], excluded)
  }

  /** The entries loop: sessions for the usable entries up to the first that is not; an error iff
      there is one. */
  lemma {:induction false} EstablishLaw(w: World, name: string, excluded: Option<nat>, devices: seq<DeviceEntry>, done: seq<nat>)
    ensures var (w', found) := EstablishAll(w, name, excluded, devices, done);
            var m := UsableCount(devices, excluded);
            && w'.log == w.log && w'.sleptMs == w.sleptMs && SameElsewhere(name, w.sessions, w'.sessions)
            && (found.Ok? <==> m == |devices|) && (found.Err? ==> found.error.BadResponse?)
            && (forall d: DeviceId :: ListedLaw(name, excluded, devices[..m], d, w.sessions, w'.sessions))
    decreases |devices|
  {
    var m := UsableCount(devices, excluded);
    EstablishElsewhere(w, name, excluded, devices, done);
    if m > 0 {
      var entry, rest := devices[0], devices[1..];
      var skip := excluded == Some(entry.device);
      var w1 := if skip then w else w.(sessions := w.sessions[Address(name, entry.device) := entry.registrationId]);
      EstablishLaw(w1, name, excluded, rest, if skip then done else done + [entry.device]);
      var w' := EstablishAll(w, name, excluded, devices, done).0;
      assert devices[..m] == [entry] + rest[..m - 1];
      forall d: DeviceId ensures ListedLaw(name, excluded, devices[..m], d, w.sessions, w'.sessions) {
        ListedPrepend(name, excluded, entry, rest[..m - 1], d, w.sessions, w1.sessions, w'.sessions);
      }
    }
  }

  /** Discovery makes one request; a 404 means no devices, any other failure is an error, and neither
      changes a session. */
  lemma DiscoverLaw(env: Env, w: World, name: string, excluded: Option<nat>)
    ensures var (w', found) := Discover(env, w, name, excluded);
            var reply := env.reply(|w.log|, GetAllBundles(name));
            && w'.log == w.log + [Exchange(w.sessions, GetAllBundles(name), reply)]
            && (reply.Unreachable? ==> found == Err(Transport) && w'.sessions == w.sessions)
            && (reply.Reply? && reply.status == 404 ==> found == Ok([]) && w'.sessions == w.sessions)
            && (reply.Reply? && reply.status == 401 ==> found == Err(AuthFailed) && w'.sessions == w.sessions)
            && (reply.Reply? && reply.status != 200 && reply.status != 404 && reply.status != 401 ==>
                  found == Err(Unexpected(reply.status)) && w'.sessions == w.sessions)
            && (reply.Reply? && reply.status == 200 && env.parseBundles(reply.body).None? ==>
                  found.Err? && found.error.BadResponse? && w'.sessions == w.sessions)
  {
    var (w1, reply) := Ask(env, w, GetAllBundles(name));
    if reply.Reply? && reply.status == 200 && env.parseBundles(reply.body).Some? {
      EstablishElsewhere(w1, name, excluded, env.parseBundles(reply.body).value.devices, []);
    }
  }

  /** A sync leg whose discovery fails or finds nobody ends there, without an error and without a PUT. */
  lemma FailedDiscoverySkips(env: Env, job: Job, w: World)
    requires !Reachable(job, w.sessions)
    requires var found := Discover(env, w, job.name, job.excluded).1; found.Err? || found.value == []
    ensures SubmitSync(env, job, w) == (Discover(env, w, job.name, job.excluded).0, None)
  {
    TargetsOfReachable(w.sessions, job);
  }
}
