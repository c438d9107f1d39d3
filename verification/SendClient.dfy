/** The send path as the client runs it: loops over a session store that they change in place,
    each proved to do what the value-level protocol says. */
module SendClient {
  import opened Common
  import opened Sessions
  import opened Send

  /** Entities already built, followed by what the remaining devices yield. */
  ghost function Prefixed(done: seq<Entity>, rest: Result<seq<Entity>, SendError>): Result<seq<Entity>, SendError> {
    match rest
    case Err(e) => Err(e)
    case Ok(entities) => Ok(done + entities)
  }

  lemma PrefixedStep(done: seq<Entity>, e: Entity, rest: Result<seq<Entity>, SendError>)
    ensures Prefixed(done, Prefixed([e], rest)) == Prefixed(done + [e], rest)
  {
    assert rest.Ok? ==> done + ([e] + rest.value) == done + [e] + rest.value;
  }

  lemma PrefixedEnds(done: seq<Entity>, all: Result<seq<Entity>, SendError>)
    ensures Prefixed([], all) == all && Prefixed(done, Ok([])) == Ok(done)
  {
    assert all.Ok? ==> [] + all.value == all.value;
    assert done + [] == done;
  }

  class Client {
    const store: SessionStore
    var requestCount: nat
    var sleptMs: nat
    ghost var log: seq<Exchange>

    ghost predicate Valid()
      reads this, store
    {
      store.Valid() && requestCount == |log|
    }

    ghost function State(): World
      reads this, store
    {
      World(store.sessions, log, sleptMs)
    }

    constructor (store: SessionStore)
      requires store.Valid()
      ensures Valid() && this.store == store && State() == World(store.sessions, [], 0)
    {
      this.store := store;
      requestCount, sleptMs, log := 0, 0, [];
    }

    method Ask(env: Env, request: Request) returns (reply: Reply)
      requires Valid()
      modifies this
      ensures Valid() && (State(), reply) == Send.Ask(env, old(State()), request)
    {
      reply := env.reply(requestCount, request);
      log := log + [Exchange(store.sessions, request, reply)];
      requestCount := requestCount + 1;
    }

    method DropSessions(name: string, ids: seq<nat>)
      requires Valid()
      modifies this, store
      ensures Valid()
      ensures State() == old(State()).(sessions := Send.DropSessions(old(store.sessions), name, ids))
    {
      for i := 0 to |ids|
        invariant Valid() && log == old(log) && sleptMs == old(sleptMs)
        invariant Send.DropSessions(store.sessions, name, ids[i..]) == Send.DropSessions(old(store.sessions), name, ids)
      {
        assert ids[i..][1..] == ids[i + 1..];
        var device := ToDeviceId(ids[i]);
        if device.Some? {
          store.Delete(Address(name, device.value));
        }
      }
    }

    method HandleStale(name: string, mm: Mismatch)
      requires Valid()
      modifies this, store
      ensures Valid()
      ensures State() == old(State()).(sessions := Send.DropSessions(old(store.sessions), name, mm.stale))
    {
      DropSessions(name, mm.stale);
    }

    method FetchOne(env: Env, name: string, id: nat) returns (e: Option<SendError>)
      requires Valid()
      modifies this, store
      ensures Valid() && (State(), e) == Send.FetchOne(env, old(State()), name, id)
    {
      var reply := Ask(env, GetBundle(name, id));
      if reply.Unreachable? {
        return Some(Transport);
      }
      if reply.status == 404 {
        return None;
      }
      if reply.status == 401 {
        return Some(AuthFailed);
      }
      if reply.status != 200 {
        return Some(Unexpected(reply.status));
      }
      var parsed := env.parseBundles(reply.body);
      if parsed.None? {
        return Some(BadResponse(Ascii("prekey response parse")));
      }
      var pre := parsed.value;
      var found := FindEntry(pre.devices, id);
      if found.None? {
        if pre.devices == [] {
          return Some(BadResponse(Ascii("prekey response: empty devices")));
        }
        found := Some(pre.devices[0]);
      }
      var device := ToDeviceId(id);
      if device.None? {
        return Some(BadResponse(Ascii("device id out of range")));
      }
      if !pre.identityDecodes || !Processes(found.value) {
        return Some(BadResponse(Ascii("prekey bundle rejected")));
      }
      store.Save(Address(name, device.value), found.value.registrationId);
      e := None;
    }

    method HandleMismatched(env: Env, name: string, mm: Mismatch) returns (e: Option<SendError>)
      requires Valid()
      modifies this, store
      ensures Valid() && (State(), e) == RepairMismatch(env, old(State()), name, mm)
    {
      DropSessions(name, mm.extra);
      ghost var w := State();
      for i := 0 to |mm.missing|
        invariant Valid()
        invariant FetchAll(env, State(), name, mm.missing[i..]) == FetchAll(env, w, name, mm.missing)
      {
        assert mm.missing[i..][1..] == mm.missing[i + 1..];
        e := FetchOne(env, name, mm.missing[i]);
        if e.Some? {
          return;
        }
      }
      e := None;
    }

    method Targets(job: Job) returns (ids: seq<nat>)
      requires Valid()
      ensures ids == Send.Targets(store.sessions, job)
    {
      var all := store.DeviceIdsFor(job.name);
      ids := [];
      assert all[0..] == all;
      for i := 0 to |all|
        invariant ids + Without(all[i..], job.excluded) == Without(all, job.excluded)
      {
        assert all[i..][1..] == all[i + 1..];
        ghost var before, rest := ids, Without(all[i + 1..], job.excluded);
        if job.excluded != Some(all[i]) {
          ids := ids + [all[i]];
          assert before + ([all[i]] + rest) == ids + rest;
        }
      }
    }

    method EncryptAll(job: Job, ids: seq<nat>) returns (r: Result<seq<Entity>, SendError>)
      requires Valid()
      ensures r == Send.EncryptAll(store.sessions, job, ids)
    {
      var entities: seq<Entity> := [];
      ghost var all := Send.EncryptAll(store.sessions, job, ids);
      assert ids[0..] == ids;
      PrefixedEnds(entities, all);
      for i := 0 to |ids|
        invariant all == Prefixed(entities, Send.EncryptAll(store.sessions, job, ids[i..]))
      {
        assert ids[i..][1..] == ids[i + 1..];
        var device := ToDeviceId(ids[i]);
        if device.None? {
          return Err(BadResponse(Ascii("device id out of range")));
        }
        var record := store.Load(Address(job.name, device.value));
        if record.None? {
          return Err(NoSession);
        }
        var entity := Entity(device.value, record.value, job.content);
        PrefixedStep(entities, entity, Send.EncryptAll(store.sessions, job, ids[i + 1..]));
        entities := entities + [entity];
      }
      PrefixedEnds(entities, all);
      r := Ok(entities);
    }

    /** `submit_padded_with_retry_generic`. */
    method Submit(env: Env, job: Job) returns (outcome: Outcome)
      requires Valid()
      modifies this, store
      ensures Valid() && (State(), outcome) == Send.Submit(env, job, old(State()))
    {
      var attempt := 0;
      ghost var t := Turn(0, State());
      ghost var goal := RunLoop(env, job, t);
      while true
        invariant Valid() && attempt <= MAX_ATTEMPTS
        invariant t == Turn(attempt, State()) && RunLoop(env, job, t) == goal
        decreases MAX_ATTEMPTS - attempt
      {
        if env.overBudget(requestCount) || attempt >= MAX_ATTEMPTS {
          LoopGivesUp(env, job, t);
          return Failed(RetryExhausted);
        }
        attempt := attempt + 1;
        var stop := OneAttempt(env, job, attempt);
        LoopTurn(env, job, t, State(), stop);
        t := Turn(attempt, State());
        if stop.Some? {
          return stop.value;
        }
      }
    }

    /** The body of the loop up to the PUT, with its fallback and encryption. */
    method OneAttempt(env: Env, job: Job, attempt: nat) returns (stop: Option<Outcome>)
      requires Valid()
      modifies this, store
      ensures Valid() && (State(), stop) == Attempt(env, job, attempt, old(State()))
    {
      var ids := Targets(job);
      if ids == [] {
        if job.excluded.Some? {
          return Some(Delivered(false));
        }
        ids := [job.fallback];
      }
      if ToDeviceId(job.fallback).None? {
        return Some(Failed(BadResponse(Ascii("fallback device id out of range"))));
      }
      var encrypted := EncryptAll(job, ids);
      if encrypted.Err? {
        return Some(Failed(encrypted.error));
      }
      var reply := Ask(env, Put(job.name, encrypted.value, job.timestamp));
      stop := AfterPut(env, job, attempt, Classify(InterpretStatus(env, reply)));
    }

    method AfterPut(env: Env, job: Job, attempt: nat, decision: Decision) returns (stop: Option<Outcome>)
      requires Valid()
      modifies this, store
      ensures Valid() && (State(), stop) == Send.AfterPut(env, job, attempt, old(State()), decision)
    {
      match decision {
        case Done =>
          stop := Some(Delivered(true));
        case Mismatch409(body) =>
          var mm := env.parseMismatch(body);
          if mm.None? {
            return Some(Failed(BadResponse(Ascii("mismatch parse"))));
          }
          var e := HandleMismatched(env, job.name, mm.value);
          stop := if e.Some? then Some(Failed(e.value)) else None;
        case Mismatch410(body) =>
          var mm := env.parseMismatch(body);
          if mm.None? {
            return Some(Failed(BadResponse(Ascii("mismatch parse"))));
          }
          HandleStale(job.name, mm.value);
          stop := None;
        case Backoff =>
          sleptMs := sleptMs + BackoffMs(attempt);
          stop := None;
        case Fatal(e) =>
          stop := Some(Failed(e));
      }
    }

    method Discover(env: Env, name: string, excluded: Option<nat>) returns (r: Result<seq<nat>, SendError>)
      requires Valid()
      modifies this, store
      ensures Valid() && (State(), r) == Send.Discover(env, old(State()), name, excluded)
    {
      var reply := Ask(env, GetAllBundles(name));
      if reply.Unreachable? {
        return Err(Transport);
      }
      if reply.status == 401 {
        return Err(AuthFailed);
      }
      if reply.status == 404 {
        return Ok([]);
      }
      if reply.status != 200 {
        return Err(Unexpected(reply.status));
      }
      var parsed := env.parseBundles(reply.body);
      if parsed.None? {
        return Err(BadResponse(Ascii("discover prekey parse")));
      }
      var pre := parsed.value;
      if !pre.identityDecodes {
        return Err(BadResponse(Ascii("identity key decode")));
      }
      var established: seq<nat> := [];
      ghost var w := State();
      for i := 0 to |pre.devices|
        invariant Valid()
        invariant EstablishAll(State(), name, excluded, pre.devices[i..], established)
               == EstablishAll(w, name, excluded, pre.devices, [])
      {
        assert pre.devices[i..][1..] == pre.devices[i + 1..];
        var entry := pre.devices[i];
        if excluded != Some(entry.device) {
          if !Processes(entry) {
            return Err(BadResponse(Ascii("discover rejected")));
          }
          store.Save(Address(name, entry.device), entry.registrationId);
          established := established + [entry.device];
        }
      }
      r := Ok(established);
    }

    /** `submit_sync_transcript_generic`. */
    method SubmitSync(env: Env, job: Job) returns (e: Option<SendError>)
      requires Valid()
      modifies this, store
      ensures Valid() && (State(), e) == Send.SubmitSync(env, job, old(State()))
    {
      var known := Targets(job);
      if known == [] {
        var found := Discover(env, job.name, job.excluded);
        if found.Err? || found.value == [] {
          return None;
        }
      }
      var outcome := Submit(env, job);
      e := if outcome.Failed? then Some(outcome.error) else None;
    }

    /** `submit_with_retry_with_stores`. */
    method SubmitBoth(env: Env, m: Message) returns (e: Option<SendError>)
      requires Valid()
      modifies this, store
      ensures Valid() && (State(), e) == Send.SubmitBoth(env, m, old(State()))
    {
      var outcome := Submit(env, m.Data());
      if outcome.Failed? {
        return Some(outcome.error);
      }
      var ignored := SubmitSync(env, m.Sync());
      e := None;
    }
  }
}
