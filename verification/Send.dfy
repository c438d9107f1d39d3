/** The send protocol on values: what one call does to the sessions, the request log and the
    time slept, for any server. */
module Send {
  import opened Common
  import opened Sessions

  const MAX_ATTEMPTS: nat := 3
  const BACKOFF_BASE_MS: nat := 500
  const BACKOFF_CAP_MS: nat := 4_000

  datatype SendError =
    | AuthFailed
    | ServiceIdNotFound
    | PayloadTooLarge
    | ChallengeRequired
    | RetryExhausted
    | NoSession                 // Encryption(OutgoingError::NoSession)
    | Transport
    | BadResponse(text: Bytes)
    | Unexpected(status: nat)

  // ----- the wire -----

  /** One ciphertext: the device and registration id it is addressed to, and the padded
      content that decrypting it yields. */
  datatype Entity = Entity(device: nat, registrationId: RegistrationId, content: Bytes)

  datatype Request =
    | Put(name: string, messages: seq<Entity>, timestamp: nat)   // PUT /v1/messages/{name}
    | GetBundle(name: string, device: nat)                       // GET /v2/keys/{name}/{device}
    | GetAllBundles(name: string)                                // GET /v2/keys/{name}/*

  datatype Reply = Unreachable | Reply(status: nat, body: Bytes)

  /** `DeviceMismatchResponse`. */
  datatype Mismatch = Mismatch(missing: seq<nat>, extra: seq<nat>, stale: seq<nat>)

  /** One device of a prekey response; `acceptable` says that its keys decode, that its
      signatures verify and that libsignal processes the bundle. */
  datatype DeviceEntry = DeviceEntry(device: nat, registrationId: RegistrationId, acceptable: bool)

  datatype PreKeyResponse = PreKeyResponse(identityDecodes: bool, devices: seq<DeviceEntry>)

  /** Everything outside the client. The answer to a request may depend on its position in the
      run, so quantifying over `reply` covers every server, adaptive ones included. `overBudget`
      is the reading of the 30 s clock when that many requests have been made; `lossy` is
      `String::from_utf8_lossy`; the parsers stand for serde. */
  datatype Env = Env(
    reply: (nat, Request) -> Reply,
    overBudget: nat -> bool,
    lossy: Bytes -> Bytes,
    parseMismatch: Bytes -> Option<Mismatch>,
    parseBundles: Bytes -> Option<PreKeyResponse>)

  /** A request, the sessions held when it was made, and its answer. */
  datatype Exchange = Exchange(sessions: SessionMap, request: Request, reply: Reply)

  datatype World = World(sessions: SessionMap, log: seq<Exchange>, sleptMs: nat)

  function Ask(env: Env, w: World, request: Request): (World, Reply) {
    var reply := env.reply(|w.log|, request);
    (w.(log := w.log + [Exchange(w.sessions, request, reply)]), reply)
  }

  // ----- reading a PUT's answer -----

  const MISMATCH_409: Bytes := Ascii("MISMATCH 409 ")
  const MISMATCH_410: Bytes := Ascii("MISMATCH 410 ")

  /** `submit_messages` after the PUT, with `interpret_send_status`. */
  function InterpretStatus(env: Env, reply: Reply): Result<(), SendError> {
    match reply
    case Unreachable => Err(Transport)
    case Reply(status, body) =>
      if status == 200 || status == 204 then Ok(())
      else if status == 401 then Err(AuthFailed)
      else if status == 404 then Err(ServiceIdNotFound)
      else if status == 413 then Err(PayloadTooLarge)
      else if status == 428 then Err(ChallengeRequired)
      else if status == 409 then Err(BadResponse(MISMATCH_409 + env.lossy(body)))
      else if status == 410 then Err(BadResponse(MISMATCH_410 + env.lossy(body)))
      else Err(Unexpected(status))
  }

  datatype Decision =
    | Done
    | Mismatch409(body: Bytes)
    | Mismatch410(body: Bytes)
    | Backoff
    | Fatal(error: SendError)

  function Classify(result: Result<(), SendError>): Decision {
    match result
    case Ok(_) => Done
    case Err(BadResponse(m)) =>
      if MISMATCH_409 <= m then Mismatch409(m[|MISMATCH_409|..])
      else if MISMATCH_410 <= m then Mismatch410(m[|MISMATCH_410|..])
      else Fatal(BadResponse(m))
    case Err(Unexpected(code)) =>
      if code == 429 || 500 <= code <= 599 then Backoff else Fatal(Unexpected(code))
    case Err(Transport) => Backoff
    case Err(other) => Fatal(other)
  }

  function Shl(n: nat, shift: nat): nat
    decreases shift
  {
    if shift == 0 then n else Shl(2 * n, shift - 1)
  }

  function BackoffMs(attempt: nat): nat {
    var less := if attempt == 0 then 0 else attempt - 1;
    var ms := Shl(BACKOFF_BASE_MS, if less < 4 then less else 4);
    if ms < BACKOFF_CAP_MS then ms else BACKOFF_CAP_MS
  }

  // ----- whom an attempt addresses -----

  /** `content`, addressed to `name`; `excluded` is the sending device on the sync leg. */
  datatype Job = Job(content: Bytes, timestamp: nat, name: string, fallback: nat, excluded: Option<nat>)

  function Without(ids: seq<nat>, excluded: Option<nat>): seq<nat> {
    if ids == [] then []
    else (if excluded == Some(ids[0]) then [] else [ids[0]]) + Without(ids[1..], excluded)
  }

  function Targets(sessions: SessionMap, job: Job): seq<nat> {
    Without(DeviceIds(sessions, job.name), job.excluded)
  }

  /** One ciphertext per device; a device with no session is fatal. */
  function EncryptAll(sessions: SessionMap, job: Job, ids: seq<nat>): Result<seq<Entity>, SendError> {
    if ids == [] then Ok([])
    else match ToDeviceId(ids[0])
      case None => Err(BadResponse(Ascii("device id out of range")))
      case Some(d) =>
        var a := Address(job.name, d);
        if a !in sessions then Err(NoSession)
        else match EncryptAll(sessions, job, ids[1..])
          case Err(e) => Err(e)
          case Ok(rest) => Ok([Entity(d, sessions[a], job.content)] + rest)
  }

  // ----- repairing the session set -----

  function DropSession(sessions: SessionMap, name: string, id: nat): SessionMap {
    match ToDeviceId(id)
    case None => sessions
    case Some(d) => sessions - {Address(name, d)}
  }

  function DropSessions(sessions: SessionMap, name: string, ids: seq<nat>): SessionMap
    decreases |ids|
  {
    if ids == [] then sessions else DropSessions(DropSession(sessions, name, ids[0]), name, ids[1..])
  }

  function FindEntry(devices: seq<DeviceEntry>, id: nat): Option<DeviceEntry> {
    if devices == [] then None
    else if devices[0].device == id then Some(devices[0])
    else FindEntry(devices[1..], id)
  }

  /** `build_prekey_bundle` and `process_prekey_bundle` succeed for this entry. */
  predicate Processes(entry: DeviceEntry) {
    ToDeviceId(entry.device).Some? && entry.acceptable
  }

  /** `process_one_prekey_bundle`: the entry for `id`, or else the first one, is used; the session
      is filed under the requested device. */
  function ProcessBundle(sessions: SessionMap, name: string, id: nat, pre: PreKeyResponse): Result<SessionMap, SendError> {
    var found := FindEntry(pre.devices, id);
    var entry := if found.Some? then found else if pre.devices != [] then Some(pre.devices[0]) else None;
    match (entry, ToDeviceId(id))
    case (Some(e), Some(d)) =>
      if pre.identityDecodes && Processes(e) then Ok(sessions[Address(name, d) := e.registrationId])
      else Err(BadResponse(Ascii("prekey bundle rejected")))
    case (Some(e), None) => Err(BadResponse(Ascii("device id out of range")))
    case (None, _) => Err(BadResponse(Ascii("prekey response: empty devices")))
  }

  /** One turn of the missing-device loop; `Some(e)` aborts the send with `e`. */
  function FetchOne(env: Env, w: World, name: string, id: nat): (World, Option<SendError>) {
    var (w1, reply) := Ask(env, w, GetBundle(name, id));
    match reply
    case Unreachable => (w1, Some(Transport))
    case Reply(status, body) =>
      if status == 200 then
        match env.parseBundles(body)
        case None => (w1, Some(BadResponse(Ascii("prekey response parse"))))
        case Some(pre) =>
          match ProcessBundle(w1.sessions, name, id, pre)
          case Ok(sessions) => (w1.(sessions := sessions), None)
          case Err(e) => (w1, Some(e))
      else if status == 404 then (w1, None)
      else if status == 401 then (w1, Some(AuthFailed))
      else (w1, Some(Unexpected(status)))
  }

  function FetchAll(env: Env, w: World, name: string, ids: seq<nat>): (World, Option<SendError>)
    decreases |ids|
  {
    if ids == [] then (w, None)
    else
      var (w1, e) := FetchOne(env, w, name, ids[0]);
      if e.Some? then (w1, e) else FetchAll(env, w1, name, ids[1..])
  }

  /** `handle_mismatched_devices`: extras are dropped first, then the missing are fetched. */
  function RepairMismatch(env: Env, w: World, name: string, mm: Mismatch): (World, Option<SendError>) {
    FetchAll(env, w.(sessions := DropSessions(w.sessions, name, mm.extra)), name, mm.missing)
  }

  // ----- the retry loop -----

  datatype Outcome = Delivered(sent: bool) | Failed(error: SendError)

  /** The body of one turn of the loop, after the budget and attempt checks; `None` means retry. */
  function Attempt(env: Env, job: Job, attempt: nat, w: World): (World, Option<Outcome>) {
    var targets := Targets(w.sessions, job);
    if targets == [] && job.excluded.Some? then (w, Some(Delivered(false)))
    else if ToDeviceId(job.fallback).None? then (w, Some(Failed(BadResponse(Ascii("fallback device id out of range")))))
    else
      var ids := if targets == [] then [job.fallback] else targets;
      match EncryptAll(w.sessions, job, ids)
      case Err(e) => (w, Some(Failed(e)))
      case Ok(entities) =>
        var (w1, reply) := Ask(env, w, Put(job.name, entities, job.timestamp));
        AfterPut(env, job, attempt, w1, Classify(InterpretStatus(env, reply)))
  }

  function AfterPut(env: Env, job: Job, attempt: nat, w: World, decision: Decision): (World, Option<Outcome>) {
    match decision
    case Done => (w, Some(Delivered(true)))
    case Mismatch409(body) => (
      match env.parseMismatch(body)
      case None => (w, Some(Failed(BadResponse(Ascii("mismatch parse")))))
      case Some(mm) =>
        var (w1, e) := RepairMismatch(env, w, job.name, mm);
        (w1, if e.Some? then Some(Failed(e.value)) else None))
    case Mismatch410(body) => (
      match env.parseMismatch(body)
      case None => (w, Some(Failed(BadResponse(Ascii("mismatch parse")))))
      case Some(mm) => (w.(sessions := DropSessions(w.sessions, job.name, mm.stale)), None))
    case Backoff => (w.(sleptMs := w.sleptMs + BackoffMs(attempt)), None)
    case Fatal(e) => (w, Some(Failed(e)))
  }

  /** The loop's state at its head: attempts made by this call, and the world. */
  datatype Turn = Turn(attempt: nat, world: World)

  /** `submit_padded_with_retry_generic`, from the head of its loop. */
  function RunLoop(env: Env, job: Job, t: Turn): (World, Outcome)
    requires t.attempt <= MAX_ATTEMPTS
    decreases MAX_ATTEMPTS - t.attempt
  {
    if env.overBudget(|t.world.log|) || t.attempt == MAX_ATTEMPTS then (t.world, Failed(RetryExhausted))
    else
      var (w, stop) := Attempt(env, job, t.attempt + 1, t.world);
      if stop.Some? then (w, stop.value) else RunLoop(env, job, Turn(t.attempt + 1, w))
  }

  /** One turn of the loop, for proofs that must not look inside an attempt. */
  lemma LoopTurn(env: Env, job: Job, t: Turn, w: World, stop: Option<Outcome>)
    requires t.attempt < MAX_ATTEMPTS && !env.overBudget(|t.world.log|)
    requires Attempt(env, job, t.attempt + 1, t.world) == (w, stop)
    ensures RunLoop(env, job, t) == if stop.Some? then (w, stop.value) else RunLoop(env, job, Turn(t.attempt + 1, w))
  {
  }

  lemma LoopGivesUp(env: Env, job: Job, t: Turn)
    requires t.attempt <= MAX_ATTEMPTS && (env.overBudget(|t.world.log|) || t.attempt == MAX_ATTEMPTS)
    ensures RunLoop(env, job, t) == (t.world, Failed(RetryExhausted))
  {
  }

  function Submit(env: Env, job: Job, w: World): (World, Outcome) {
    RunLoop(env, job, Turn(0, w))
  }

  // ----- the sync leg and the two-leg driver -----

  /** The entries loop of `discover_and_establish_account_devices`. */
  function EstablishAll(w: World, name: string, excluded: Option<nat>, devices: seq<DeviceEntry>, established: seq<nat>)
    : (World, Result<seq<nat>, SendError>)
    decreases |devices|
  {
    if devices == [] then (w, Ok(established))
    else
      var entry := devices[0];
      if excluded == Some(entry.device) then EstablishAll(w, name, excluded, devices[1..], established)
      else if !Processes(entry) then (w, Err(BadResponse(Ascii("discover rejected"))))
      else
        var w1 := w.(sessions := w.sessions[Address(name, entry.device) := entry.registrationId]);
        EstablishAll(w1, name, excluded, devices[1..], established + [entry.device])
  }

  function Discover(env: Env, w: World, name: string, excluded: Option<nat>): (World, Result<seq<nat>, SendError>) {
    var (w1, reply) := Ask(env, w, GetAllBundles(name));
    match reply
    case Unreachable => (w1, Err(Transport))
    case Reply(status, body) =>
      if status == 404 then (w1, Ok([]))
      else if status == 401 then (w1, Err(AuthFailed))
      else if status != 200 then (w1, Err(Unexpected(status)))
      else match env.parseBundles(body)
        case None => (w1, Err(BadResponse(Ascii("discover prekey parse"))))
        case Some(pre) =>
          if !pre.identityDecodes then (w1, Err(BadResponse(Ascii("identity key decode"))))
          else EstablishAll(w1, name, excluded, pre.devices, [])
  }

  /** `submit_sync_transcript_generic`; `job` excludes the sending device. */
  function SubmitSync(env: Env, job: Job, w: World): (World, Option<SendError>) {
    var (w1, ready) :=
      if Targets(w.sessions, job) != [] then (w, true)
      else
        var (w2, found) := Discover(env, w, job.name, job.excluded);
        (w2, found.Ok? && found.value != []);
    if !ready then (w1, None)
    else
      var (w3, outcome) := Submit(env, job, w1);
      (w3, if outcome.Failed? then Some(outcome.error) else None)
  }

  function DataJob(content: Bytes, timestamp: nat, to: Address): Job {
    Job(content, timestamp, to.name, to.device, None)
  }

  function SyncJob(content: Bytes, timestamp: nat, ownName: string, ownDevice: nat): Job {
    Job(content, timestamp, ownName, ownDevice, Some(ownDevice))
  }

  /** One outgoing message: the two contents, the recipient, and the sending device. */
  datatype Message = Message(data: Bytes, transcript: Bytes, timestamp: nat, to: Address, ownName: string, ownDevice: nat)
  {
    function Data(): Job { DataJob(data, timestamp, to) }
    function Sync(): Job { SyncJob(transcript, timestamp, ownName, ownDevice) }
  }

  /** `submit_with_retry_with_stores`: the transcript goes out only after the recipient's PUT was
      accepted, and its failure is not reported. */
  function SubmitBoth(env: Env, m: Message, w: World): (World, Option<SendError>) {
    var (w1, outcome) := Submit(env, m.Data(), w);
    if outcome.Failed? then (w1, Some(outcome.error))
    else
      var (w2, _) := SubmitSync(env, m.Sync(), w1);
      (w2, None)
  }
}
