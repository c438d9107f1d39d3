/** How the session set converges to what the server has registered. */
module SendConvergence {
  import opened Common
  import opened Sessions
  import opened Send
  import opened SendSafety

  /** The sessions of one account: device id to registration id. */
  type Devices = map<nat, RegistrationId>

  function View(sessions: SessionMap, name: string): Devices {
    map d: nat | 1 <= d <= 127 && Address(name, d) in sessions :: sessions[Address(name, d)]
  }

  /** The device that a job leaves out: on the sync leg the sending one. */
  function Skipped(job: Job): set<nat> {
    if job.excluded.Some? then {job.excluded.value} else {}
  }

  /** The sessions a job addresses. */
  function Others(sessions: SessionMap, job: Job): Devices {
    View(sessions, job.name) - Skipped(job)
  }

  /** How an attempt with nobody to address ends: fatally for a recipient, quietly on the sync leg. */
  function Nobody(job: Job): Outcome {
    if job.excluded.Some? then Delivered(false) else Failed(NoSession)
  }

  function Elements(ids: seq<nat>): set<nat> {
    set x | x in ids
  }

  ghost predicate Registered(r: Devices) {
    forall d :: d in r ==> 1 <= d <= 127
  }

  /** Devices on both sides whose registration id has changed. */
  function Stale(s: Devices, r: Devices): set<nat> {
    set d | d in s && d in r && s[d] != r[d]
  }

  /** What a server does beyond comparing device sets: whether it also compares registration ids,
      and for which registered devices it has no bundle and answers 404. */
  datatype Policy = Policy(checksStale: bool, absent: set<nat>)

  const PLAIN: Policy := Policy(false, {})
  const STRICT: Policy := Policy(true, {})

  /** `s` after a repair: known devices keep their session, missing ones get a fresh one if there is
      a bundle for them. */
  function Repaired(s: Devices, r: Devices, absent: set<nat>): Devices {
    map d | d in r && (d in s || d !in absent) :: if d in s then s[d] else r[d]
  }

  // ----- monotone progress -----

  function SymDiff(sessions: SessionMap, name: string, r: set<nat>): set<nat> {
    var live := View(sessions, name).Keys;
    (live - r) + (r - live)
  }

  /** The session maps that the extra-device loop passes through. */
  function DropTrace(sessions: SessionMap, name: string, ids: seq<nat>): seq<SessionMap>
    decreases |ids|
  {
    if ids == [] then [sessions] else [sessions] + DropTrace(DropSession(sessions, name, ids[0]), name, ids[1..])
  }

  /** The session maps that the missing-device loop passes through, up to where it ends or aborts. */
  function FetchTrace(env: Env, w: World, name: string, ids: seq<nat>): seq<SessionMap>
    decreases |ids|
  {
    if ids == [] then [w.sessions]
    else
      var (w1, e) := FetchOne(env, w, name, ids[0]);
      [w.sessions] + if e.Some? then [w1.sessions] else FetchTrace(env, w1, name, ids[1..])
  }

  function RepairTrace(env: Env, w: World, name: string, mm: Mismatch): seq<SessionMap> {
    var dropped := DropSessions(w.sessions, name, mm.extra);
    DropTrace(w.sessions, name, mm.extra) + FetchTrace(env, w.(sessions := dropped), name, mm.missing)
  }

  ghost predicate Shrinking(trace: seq<SessionMap>, name: string, r: set<nat>) {
    forall i, j :: 0 <= i <= j < |trace| ==> SymDiff(trace[j], name, r) <= SymDiff(trace[i], name, r)
  }

  lemma ShrinkingPrepend(s: SessionMap, trace: seq<SessionMap>, name: string, r: set<nat>)
    requires Shrinking(trace, name, r) && trace != [] && SymDiff(trace[0], name, r) <= SymDiff(s, name, r)
    ensures Shrinking([s] + trace, name, r)
  {
    var t := [s] + trace;
    forall i, j | 0 <= i <= j < |t| ensures SymDiff(t[j], name, r) <= SymDiff(t[i], name, r) {
      if i == 0 && j > 0 {
        assert SymDiff(trace[j - 1], name, r) <= SymDiff(trace[0], name, r);
      }
    }
  }

  lemma ShrinkingConcat(a: seq<SessionMap>, b: seq<SessionMap>, name: string, r: set<nat>)
    requires Shrinking(a, name, r) && Shrinking(b, name, r) && a != [] && b != [] && a[|a| - 1] == b[0]
    ensures Shrinking(a + b, name, r)
  {
    var t := a + b;
    forall i, j | 0 <= i <= j < |t| ensures SymDiff(t[j], name, r) <= SymDiff(t[i], name, r) {
      if i < |a| <= j {
        assert SymDiff(a[|a| - 1], name, r) <= SymDiff(a[i], name, r);
        assert SymDiff(b[j - |a|], name, r) <= SymDiff(b[0], name, r);
      }
    }
  }

  lemma {:induction false} DropShrinks(sessions: SessionMap, name: string, r: set<nat>, ids: seq<nat>)
    requires Elements(ids) !! r
    ensures var t := DropTrace(sessions, name, ids);
            Shrinking(t, name, r) && t[0] == sessions && t[|t| - 1] == DropSessions(sessions, name, ids)
    decreases |ids|
  {
    if ids != [] {
      var next := DropSession(sessions, name, ids[0]);
      assert ids[0] in Elements(ids) && Elements(ids[1..]) <= Elements(ids);
      DropShrinks(next, name, r, ids[1..]);
      ShrinkingPrepend(sessions, DropTrace(next, name, ids[1..]), name, r);
    }
  }

  /** Whatever the server answers, fetching a registered device's bundle cannot move the sessions
      further from the registered set. */
  lemma FetchOneShrinks(env: Env, w: World, name: string, r: set<nat>, id: nat)
    requires id in r
    ensures SymDiff(FetchOne(env, w, name, id).0.sessions, name, r) <= SymDiff(w.sessions, name, r)
  {
    var s' := FetchOne(env, w, name, id).0.sessions;
    assert forall d :: d in View(s', name) ==> d == id || d in View(w.sessions, name);
    assert forall d :: d in View(w.sessions, name) ==> d in View(s', name);
  }

  lemma {:induction false} FetchShrinks(env: Env, w: World, name: string, r: set<nat>, ids: seq<nat>)
    requires Elements(ids) <= r
    ensures var t := FetchTrace(env, w, name, ids);
            Shrinking(t, name, r) && t[0] == w.sessions && t[|t| - 1] == FetchAll(env, w, name, ids).0.sessions
    decreases |ids|
  {
    if ids != [] {
      assert ids[0] in Elements(ids) && Elements(ids[1..]) <= Elements(ids);
      FetchOneShrinks(env, w, name, r, ids[0]);
      var (w1, e) := FetchOne(env, w, name, ids[0]);
      if e.None? {
        FetchShrinks(env, w1, name, r, ids[1..]);
        ShrinkingPrepend(w.sessions, FetchTrace(env, w1, name, ids[1..]), name, r);
      }
    }
  }

  /** A truthful 409 names as extra only unregistered devices and as missing only registered ones. */
  ghost predicate Truthful(mm: Mismatch, r: set<nat>) {
    Elements(mm.extra) !! r && Elements(mm.missing) <= r
  }

  lemma {:induction false} DropTraceElsewhere(sessions: SessionMap, name: string, ids: seq<nat>)
    ensures forall t :: t in DropTrace(sessions, name, ids) ==> SameElsewhere(name, sessions, t)
    decreases |ids|
  {
    if ids != [] {
      DropTraceElsewhere(DropSession(sessions, name, ids[0]), name, ids[1..]);
    }
  }

  lemma {:induction false} FetchTraceElsewhere(env: Env, w: World, name: string, ids: seq<nat>)
    ensures forall t :: t in FetchTrace(env, w, name, ids) ==> SameElsewhere(name, w.sessions, t)
    decreases |ids|
  {
    if ids != [] {
      var (w1, e) := FetchOne(env, w, name, ids[0]);
      if e.None? {
        FetchTraceElsewhere(env, w1, name, ids[1..]);
      }
    }
  }

  /** Against a truthful 409, every step of the repair, aborted or not and whatever the bundle
      requests are answered, keeps or shrinks the difference from the registered set, and no step
      touches another account's sessions. */
  lemma RepairShrinks(env: Env, job: Job, w: World, mm: Mismatch, r: set<nat>)
    requires Truthful(mm, r)
    ensures var t := RepairTrace(env, w, job.name, mm);
            && Shrinking(t, job.name, r)
            && t[0] == w.sessions && t[|t| - 1] == RepairMismatch(env, w, job.name, mm).0.sessions
            && forall s :: s in t ==> SameElsewhere(job.name, w.sessions, s)
  {
    var w1 := w.(sessions := DropSessions(w.sessions, job.name, mm.extra));
    DropShrinks(w.sessions, job.name, r, mm.extra);
    FetchShrinks(env, w1, job.name, r, mm.missing);
    ShrinkingConcat(DropTrace(w.sessions, job.name, mm.extra), FetchTrace(env, w1, job.name, mm.missing), job.name, r);
    DropTraceElsewhere(w.sessions, job.name, mm.extra);
    FetchTraceElsewhere(env, w1, job.name, mm.missing);
    DropSessionsElsewhere(w.sessions, job.name, mm.extra);
  }

  // ----- the server that holds `r` -----

  function SentTo(messages: seq<Entity>): set<nat> {
    set e | e in messages :: e.device
  }

  function StaleIn(messages: seq<Entity>, r: Devices): set<nat> {
    set e | e in messages && e.device in r && e.registrationId != r[e.device] :: e.device
  }

  /** How such a server answers a PUT: the two set differences first, then (if it checks them)
      the changed registration ids, then 200. */
  ghost predicate Answers(env: Env, r: Devices, p: Policy, messages: seq<Entity>, reply: Reply) {
    && reply.Reply?
    && var mm := env.parseMismatch(env.lossy(reply.body));
       if SentTo(messages) != r.Keys then
         && reply.status == 409 && mm.Some?
         && Elements(mm.value.missing) == r.Keys - SentTo(messages)
         && Elements(mm.value.extra) == SentTo(messages) - r.Keys
       else if p.checksStale && StaleIn(messages, r) != {} then
         reply.status == 410 && mm.Some? && Elements(mm.value.stale) == StaleIn(messages, r)
       else reply.status == 200
  }

  ghost predicate ServesBundle(env: Env, r: Devices, d: nat, reply: Reply)
    requires d in r
  {
    && reply.Reply? && reply.status == 200
    && var pre := env.parseBundles(reply.body);
       && pre.Some? && pre.value.identityDecodes
       && var entry := FindEntry(pre.value.devices, d);
          entry.Some? && Processes(entry.value) && entry.value.registrationId == r[d]
  }

  predicate Addressable(messages: seq<Entity>) {
    forall i :: 0 <= i < |messages| ==> 1 <= messages[i].device <= 127
  }

  ghost predicate AnswersPuts(env: Env, name: string, r: Devices, p: Policy) {
    forall n: nat, messages, timestamp :: Addressable(messages) ==>
      Answers(env, r, p, messages, env.reply(n, Put(name, messages, timestamp)))
  }

  ghost predicate ServesBundles(env: Env, name: string, r: Devices, absent: set<nat>) {
    forall n: nat, d :: d in r ==>
      var reply := env.reply(n, GetBundle(name, d));
      if d in absent then reply.Reply? && reply.status == 404 else ServesBundle(env, r, d, reply)
  }

  /** The server holds `r` for `name` throughout, and the 30 s budget never runs out. */
  ghost predicate Serves(env: Env, name: string, r: Devices, p: Policy) {
    && Registered(r)
    && AnswersPuts(env, name, r, p)
    && ServesBundles(env, name, r, p.absent)
    && (forall n :: !env.overBudget(n))
  }

  /** The server holds `r` for the devices a job is for; on the sync leg that is the own account
      without the sending device. */
  ghost predicate ServesJob(env: Env, job: Job, r: Devices, p: Policy) {
    Serves(env, job.name, r, p) && r.Keys !! Skipped(job) && ToDeviceId(job.fallback).Some?
  }

  // ----- one attempt against it -----

  lemma {:induction false} DropView(sessions: SessionMap, name: string, ids: seq<nat>)
    ensures View(DropSessions(sessions, name, ids), name) == View(sessions, name) - Elements(ids)
    decreases |ids|
  {
    if ids != [] {
      var next := DropSession(sessions, name, ids[0]);
      DropView(next, name, ids[1..]);
      assert Elements(ids) == {ids[0]} + Elements(ids[1..]);
      assert View(next, name) == View(sessions, name) - {ids[0]};
    }
  }

  lemma FetchOneView(env: Env, w: World, name: string, r: Devices, absent: set<nat>, id: nat)
    requires Registered(r) && ServesBundles(env, name, r, absent) && id in r
    ensures var (w', e) := FetchOne(env, w, name, id);
            e.None? && View(w'.sessions, name) ==
              if id in absent then View(w.sessions, name) else View(w.sessions, name)[id := r[id]]
  {
    var reply := env.reply(|w.log|, GetBundle(name, id));
    assert if id in absent then reply.Reply? && reply.status == 404 else ServesBundle(env, r, id, reply);
    var w' := FetchOne(env, w, name, id).0;
    if id !in absent {
      assert w'.sessions == w.sessions[Address(name, id) := r[id]];
    }
  }

  function Fresh(r: Devices, ids: set<nat>): Devices {
    map d | d in ids && d in r :: r[d]
  }

  lemma {:induction false} FetchView(env: Env, w: World, name: string, r: Devices, absent: set<nat>, ids: seq<nat>)
    requires Registered(r) && ServesBundles(env, name, r, absent) && Elements(ids) <= r.Keys
    ensures var (w', e) := FetchAll(env, w, name, ids);
            e.None? && View(w'.sessions, name) == View(w.sessions, name) + Fresh(r, Elements(ids) - absent)
    decreases |ids|
  {
    if ids != [] {
      var id := ids[0];
      assert id in Elements(ids) && Elements(ids) == {id} + Elements(ids[1..]);
      FetchOneView(env, w, name, r, absent, id);
      var (w1, e) := FetchOne(env, w, name, id);
      FetchView(env, w1, name, r, absent, ids[1..]);
      FreshAfter(View(w.sessions, name), View(w1.sessions, name), r, absent, id, Elements(ids[1..]), Elements(ids));
    }
  }

  lemma FreshAfter(v: Devices, v1: Devices, r: Devices, absent: set<nat>, id: nat, rest: set<nat>, all: set<nat>)
    requires id in r && all == {id} + rest && v1 == if id in absent then v else v[id := r[id]]
    ensures v1 + Fresh(r, rest - absent) == v + Fresh(r, all - absent)
  {
    if id in absent {
      assert all - absent == rest - absent;
    } else {
      assert all - absent == {id} + (rest - absent);
      FreshStep(v, r, id, rest - absent);
    }
  }

  lemma FreshStep(s: Devices, r: Devices, id: nat, rest: set<nat>)
    requires id in r
    ensures s[id := r[id]] + Fresh(r, rest) == s + Fresh(r, {id} + rest)
  {
  }

  lemma TargetsAreView(sessions: SessionMap, job: Job)
    ensures forall d :: d in Targets(sessions, job) <==> d in Others(sessions, job)
    ensures Targets(sessions, job) == [] <==> Others(sessions, job) == map[]
  {
    var targets := Targets(sessions, job);
    assert targets == [] || targets[0] in targets;
    TargetsExact(sessions, job);
  }

  /** The PUT of an attempt carries exactly the view. */
  lemma MessagesCarryView(job: Job, e: Exchange, r: Devices)
    requires e.request.Put? && Good(job, e)
    ensures var s, messages := Others(e.sessions, job), e.request.messages;
            && s != map[] && SentTo(messages) == s.Keys
            && (s.Keys == r.Keys ==> StaleIn(messages, r) == Stale(s, r))
  {
    var s, messages := Others(e.sessions, job), e.request.messages;
    var targets := Targets(e.sessions, job);
    TargetsAreView(e.sessions, job);
    assert targets[0] in targets;
    forall d | d in s ensures exists m :: m in messages && m.device == d && m.registrationId == s[d] {
      assert d in targets;
      var i :| 0 <= i < |targets| && targets[i] == d;
      assert messages[i] in messages;
    }
    forall m | m in messages ensures m.device in s && m.registrationId == s[m.device] {
      var i :| 0 <= i < |messages| && messages[i] == m;
      assert targets[i] in targets;
    }
  }

  function Statuses(puts: seq<Exchange>): seq<nat> {
    seq(|puts|, i requires 0 <= i < |puts| => if puts[i].reply.Reply? then puts[i].reply.status else 0)
  }

  /** What one attempt does, seen on the device map alone. */
  datatype Move = NoSessions | Mismatched | WentStale | Accept

  function MoveOf(s: Devices, r: Devices, p: Policy): Move {
    if s == map[] then NoSessions
    else if s.Keys != r.Keys then Mismatched
    else if p.checksStale && Stale(s, r) != {} then WentStale
    else Accept
  }

  function After(s: Devices, r: Devices, p: Policy, move: Move): Devices {
    match move
    case Mismatched => Repaired(s, r, p.absent)
    case WentStale => s - Stale(s, r)
    case _ => s
  }

  function StatusOf(move: Move): nat {
    match move
    case Mismatched => 409
    case WentStale => 410
    case _ => 200
  }

  /** With sessions to send to, an attempt is a PUT carrying the view, then what its answer asks. */
  lemma AttemptPuts(env: Env, job: Job, r: Devices, attempt: nat, w: World) returns (w1: World, reply: Reply)
    requires ToDeviceId(job.fallback).Some? && Others(w.sessions, job) != map[]
    ensures w1.sessions == w.sessions && |w1.log| == |w.log| + 1 && w.log <= w1.log
    ensures var put := w1.log[|w.log|];
            var s := Others(w.sessions, job);
            && put.request.Put? && put.reply == reply && put.request.name == job.name
            && reply == env.reply(|w.log|, put.request)
            && SentTo(put.request.messages) == s.Keys
            && (s.Keys == r.Keys ==> StaleIn(put.request.messages, r) == Stale(s, r))
    ensures Attempt(env, job, attempt, w) == AfterPut(env, job, attempt, w1, Classify(InterpretStatus(env, reply)))
  {
    var targets := Targets(w.sessions, job);
    TargetsAreView(w.sessions, job);
    var d :| d in Others(w.sessions, job);
    assert d in targets;
    assert forall i :: 0 <= i < |targets| ==> targets[i] in targets && Live(w.sessions, job.name, targets[i]);
    EncryptAllExact(w.sessions, job, targets);
    var request := Put(job.name, EncryptAll(w.sessions, job, targets).value, job.timestamp);
    var (w2, answer) := Ask(env, w, request);
    w1, reply := w2, answer;
    MessagesCarryView(job, Exchange(w.sessions, request, reply), r);
  }

  /** Dropping the extras and fetching the missing repairs the map, the skipped device aside. */
  lemma RepairOfMap(v: Devices, r: Devices, absent: set<nat>, skipped: set<nat>, missing: set<nat>, extra: set<nat>)
    requires r.Keys !! skipped && missing == r.Keys - (v - skipped).Keys && extra == (v - skipped).Keys - r.Keys
    ensures (v - extra + Fresh(r, missing - absent)) - skipped == Repaired(v - skipped, r, absent)
  {
  }

  /** A repair in which every bundle request is answered with an acceptable bundle or with 404 ends
      without an error and leaves the known devices that are registered, and a fresh session for
      exactly the missing ones that have a bundle. */
  lemma RepairView(env: Env, job: Job, w: World, r: Devices, absent: set<nat>, mm: Mismatch)
    requires Registered(r) && ServesBundles(env, job.name, r, absent) && r.Keys !! Skipped(job)
    requires var s := Others(w.sessions, job);
             Elements(mm.missing) == r.Keys - s.Keys && Elements(mm.extra) == s.Keys - r.Keys
    ensures var (w', e) := RepairMismatch(env, w, job.name, mm);
            e.None? && Others(w'.sessions, job) == Repaired(Others(w.sessions, job), r, absent)
  {
    DropView(w.sessions, job.name, mm.extra);
    FetchView(env, w.(sessions := DropSessions(w.sessions, job.name, mm.extra)), job.name, r, absent, mm.missing);
    RepairOfMap(View(w.sessions, job.name), r, absent, Skipped(job), Elements(mm.missing), Elements(mm.extra));
  }

  /** One attempt: whether it stops and how, the PUT it made, and the view it leaves. */
  ghost predicate Moves(job: Job, s: Devices, r: Devices, p: Policy, move: Move, w: World, w': World, stop: Option<Outcome>) {
    && w.log <= w'.log
    && Others(w'.sessions, job) == After(s, r, p, move)
    && (move.NoSessions? ==> stop == Some(Nobody(job)) && w'.log == w.log)
    && (!move.NoSessions? ==>
          && stop == (if move.Accept? then Some(Delivered(true)) else None)
          && |w.log| < |w'.log| && Puts(Since(w, w')) == [w'.log[|w.log|]]
          && var put := w'.log[|w.log|];
             && put.reply.Reply? && put.reply.status == StatusOf(move)
             && put.request.Put? && SentTo(put.request.messages) == s.Keys)
  }

  lemma AttemptWithoutSessions(env: Env, job: Job, r: Devices, attempt: nat, w: World)
    requires ToDeviceId(job.fallback).Some? && Others(w.sessions, job) == map[]
    ensures Attempt(env, job, attempt, w) == (w, Some(Nobody(job)))
  {
    TargetsAreView(w.sessions, job);
    if job.excluded.None? {
      OnlySessionsAreEncrypted(w.sessions, job);
    }
  }

  lemma AfterPutView(env: Env, job: Job, r: Devices, p: Policy, attempt: nat, w: World, messages: seq<Entity>, reply: Reply)
    requires Registered(r) && ServesBundles(env, job.name, r, p.absent) && r.Keys !! Skipped(job) && Answers(env, r, p, messages, reply)
    requires var s := Others(w.sessions, job);
             && s != map[] && SentTo(messages) == s.Keys
             && (s.Keys == r.Keys ==> StaleIn(messages, r) == Stale(s, r))
    ensures var s := Others(w.sessions, job);
            var move := MoveOf(s, r, p);
            var (w', stop) := AfterPut(env, job, attempt, w, Classify(InterpretStatus(env, reply)));
            && Others(w'.sessions, job) == After(s, r, p, move)
            && stop == (if move.Accept? then Some(Delivered(true)) else None)
            && reply.status == StatusOf(move)
  {
    var s := Others(w.sessions, job);
    MarkerCarries(env, reply);
    var mm := env.parseMismatch(env.lossy(reply.body));
    if s.Keys != r.Keys {
      RepairView(env, job, w, r, p.absent, mm.value);
    } else if p.checksStale && Stale(s, r) != {} {
      DropView(w.sessions, job.name, mm.value.stale);
    }
  }

  lemma AttemptMoves(env: Env, job: Job, r: Devices, p: Policy, attempt: nat, w: World)
    requires ServesJob(env, job, r, p)
    ensures var s := Others(w.sessions, job);
            var (w', stop) := Attempt(env, job, attempt, w);
            Moves(job, s, r, p, MoveOf(s, r, p), w, w', stop)
  {
    if Others(w.sessions, job) == map[] {
      AttemptWithoutSessions(env, job, r, attempt, w);
    } else {
      var w1, reply := AttemptPuts(env, job, r, attempt, w);
      var request := w1.log[|w.log|].request;
      assert Addressable(request.messages) by {
        assert forall i :: 0 <= i < |request.messages| ==> request.messages[i].device in SentTo(request.messages);
      }
      assert Answers(env, r, p, request.messages, env.reply(|w.log|, Put(job.name, request.messages, request.timestamp)));
      AttemptExtends(env, job, attempt, w);
      AfterPutExtends(env, job, attempt, w1, Classify(InterpretStatus(env, reply)));
      AfterPutView(env, job, r, p, attempt, w1, request.messages, reply);
    }
  }

  // ----- whole runs against it -----

  /** The run on device maps: the PUT statuses, how it ends and the map it leaves. */
  datatype Course = Course(statuses: seq<nat>, outcome: Outcome, left: Devices)

  function CourseOf(s: Devices, r: Devices, p: Policy, nobody: Outcome, attemptsLeft: nat): Course
    decreases attemptsLeft
  {
    if attemptsLeft == 0 then Course([], Failed(RetryExhausted), s)
    else
      var move := MoveOf(s, r, p);
      match move
      case NoSessions => Course([], nobody, s)
      case Accept => Course([200], Delivered(true), s)
      case _ =>
        var rest := CourseOf(After(s, r, p, move), r, p, nobody, attemptsLeft - 1);
        rest.(statuses := [StatusOf(move)] + rest.statuses)
  }

  /** What the run did, seen on the device map. */
  ghost function Observed(job: Job, w: World, w': World, outcome: Outcome): Course
    requires w.log <= w'.log
  {
    Course(Statuses(Puts(Since(w, w'))), outcome, Others(w'.sessions, job))
  }

  lemma ObservedPrepend(job: Job, w: World, w1: World, w': World, outcome: Outcome)
    requires w.log <= w1.log <= w'.log && |w.log| < |w1.log|
    requires Puts(Since(w, w1)) == [w1.log[|w.log|]] && w1.log[|w.log|].reply.Reply?
    ensures Puts(Since(w, w')) == [w1.log[|w.log|]] + Puts(Since(w1, w'))
    ensures var rest := Observed(job, w1, w', outcome);
            Observed(job, w, w', outcome) == rest.(statuses := [w1.log[|w.log|].reply.status] + rest.statuses)
  {
    assert Since(w, w') == Since(w, w1) + Since(w1, w');
    PutsConcat(Since(w, w1), Since(w1, w'));
  }

  /** From `w` to `w'` the run took the course, and delivery means the last PUT addressed `r`. */
  ghost predicate Follows(job: Job, r: Devices, p: Policy, attemptsLeft: nat, w: World, w': World, outcome: Outcome) {
    && w.log <= w'.log
    && Observed(job, w, w', outcome) == CourseOf(Others(w.sessions, job), r, p, Nobody(job), attemptsLeft)
    && (outcome == Delivered(true) ==>
          var puts := Puts(Since(w, w'));
          && puts != [] && puts[|puts| - 1].request.Put?
          && SentTo(puts[|puts| - 1].request.messages) == r.Keys)
  }

  lemma MoveThenFollow(job: Job, r: Devices, p: Policy, attemptsLeft: nat, w: World, w1: World, w': World, outcome: Outcome)
    requires attemptsLeft > 0
    requires var s := Others(w.sessions, job);
             Moves(job, s, r, p, MoveOf(s, r, p), w, w1, None)
    requires Follows(job, r, p, attemptsLeft - 1, w1, w', outcome)
    ensures Follows(job, r, p, attemptsLeft, w, w', outcome)
  {
    ObservedPrepend(job, w, w1, w', outcome);
  }

  lemma MoveThenStop(job: Job, r: Devices, p: Policy, attemptsLeft: nat, w: World, w': World, outcome: Outcome)
    requires attemptsLeft > 0
    requires var s := Others(w.sessions, job);
             Moves(job, s, r, p, MoveOf(s, r, p), w, w', Some(outcome))
    ensures Follows(job, r, p, attemptsLeft, w, w', outcome)
  {
    assert w'.log == w.log ==> Since(w, w') == [];
  }

  lemma FollowEmpty(job: Job, r: Devices, p: Policy, w: World)
    ensures Follows(job, r, p, 0, w, w, Failed(RetryExhausted))
  {
    assert Since(w, w) == [];
  }

  ghost predicate MovesFrom(env: Env, job: Job, r: Devices, p: Policy, attempt: nat, w: World) {
    var s := Others(w.sessions, job);
    var (w', stop) := Attempt(env, job, attempt, w);
    Moves(job, s, r, p, MoveOf(s, r, p), w, w', stop)
  }

  lemma {:induction false} LoopOfMoves(env: Env, job: Job, r: Devices, p: Policy, t: Turn)
    requires forall attempt, w :: MovesFrom(env, job, r, p, attempt, w)
    requires forall n :: !env.overBudget(n)
    requires t.attempt <= MAX_ATTEMPTS
    ensures var (w', outcome) := RunLoop(env, job, t);
            Follows(job, r, p, MAX_ATTEMPTS - t.attempt, t.world, w', outcome)
    decreases MAX_ATTEMPTS - t.attempt
  {
    var w, left := t.world, MAX_ATTEMPTS - t.attempt;
    if left > 0 {
      assert MovesFrom(env, job, r, p, t.attempt + 1, w);
      var (w1, stop) := Attempt(env, job, t.attempt + 1, w);
      LoopTurn(env, job, t, w1, stop);
      if stop.None? {
        LoopOfMoves(env, job, r, p, Turn(t.attempt + 1, w1));
        var (w', outcome) := RunLoop(env, job, Turn(t.attempt + 1, w1));
        MoveThenFollow(job, r, p, left, w, w1, w', outcome);
      } else {
        MoveThenStop(job, r, p, left, w, w1, stop.value);
      }
    } else {
      FollowEmpty(job, r, p, w);
      assert RunLoop(env, job, t) == (w, Failed(RetryExhausted));
    }
  }

  /** The loop against the server that holds `r` is the run on device maps. */
  lemma SubmitFollowsCourse(env: Env, job: Job, r: Devices, p: Policy, w: World)
    requires ServesJob(env, job, r, p)
    ensures var (w', outcome) := Submit(env, job, w);
            Follows(job, r, p, MAX_ATTEMPTS, w, w', outcome)
  {
    forall attempt, w' ensures MovesFrom(env, job, r, p, attempt, w') {
      AttemptMoves(env, job, r, p, attempt, w');
    }
    LoopOfMoves(env, job, r, p, Turn(0, w));
  }

  /** Delivered, by one PUT if the sessions already were `r`'s devices and else by a 409 and a
      second PUT; the accepted PUT addressed exactly `r`, and the sessions now are `r`'s. */
  ghost predicate Converged(job: Job, r: Devices, w: World, w': World, outcome: Outcome) {
    && w.log <= w'.log
    && var s, puts := Others(w.sessions, job), Puts(Since(w, w'));
       && outcome == Delivered(true)
       && Statuses(puts) == (if s.Keys == r.Keys then [200] else [409, 200])
       && puts != [] && puts[|puts| - 1].request.Put? && SentTo(puts[|puts| - 1].request.messages) == r.Keys
       && Others(w'.sessions, job) == Repaired(s, r, {})
       && SameElsewhere(job.name, w.sessions, w'.sessions)
  }

  /** Fan-out convergence: against a server that answers 409 with the two set differences, any
      non-empty session set converges within two PUTs, for a recipient and on the sync leg. */
  lemma FanOutConverges(env: Env, job: Job, r: Devices, w: World)
    requires ServesJob(env, job, r, PLAIN) && r != map[]
    requires Others(w.sessions, job) != map[]
    ensures var (w', outcome) := Submit(env, job, w);
            Converged(job, r, w, w', outcome)
  {
    SubmitFollowsCourse(env, job, r, PLAIN, w);
    SubmitIsSafe(env, job, w);
    var (w', outcome) := Submit(env, job, w);
    CourseConverged(job, r, w, w', outcome);
  }

  // ----- the sync leg, with its discovery -----

  function Listed(job: Job, devices: seq<DeviceEntry>): set<nat> {
    set e | e in devices && job.excluded != Some(e.device) :: e.device
  }

  /** A device list that names exactly the devices of `r`, the sending one aside, with good bundles. */
  ghost predicate Lists(env: Env, job: Job, r: Devices, reply: Reply) {
    && reply.Reply? && reply.status == 200
    && var pre := env.parseBundles(reply.body);
       pre.Some? && pre.value.identityDecodes && GoodEntries(job, r, pre.value.devices) && Listed(job, pre.value.devices) == r.Keys
  }

  ghost predicate GoodEntries(job: Job, r: Devices, devices: seq<DeviceEntry>) {
    forall i :: 0 <= i < |devices| && job.excluded != Some(devices[i].device) ==>
      Processes(devices[i]) && devices[i].device in r && devices[i].registrationId == r[devices[i].device]
  }

  ghost predicate ServesDiscovery(env: Env, job: Job, r: Devices) {
    forall n: nat :: Lists(env, job, r, env.reply(n, GetAllBundles(job.name)))
  }

  lemma {:induction false} EstablishView(job: Job, w: World, r: Devices, devices: seq<DeviceEntry>, done: seq<nat>)
    requires GoodEntries(job, r, devices)
    ensures var (w', found) := EstablishAll(w, job.name, job.excluded, devices, done);
            && w'.log == w.log && found.Ok? && (found.value == [] <==> done == [] && Listed(job, devices) == {})
            && Others(w'.sessions, job) == Others(w.sessions, job) + Fresh(r, Listed(job, devices))
    decreases |devices|
  {
    if devices == [] {
      assert Listed(job, devices) == {};
    } else {
      var entry, rest := devices[0], devices[1..];
      assert forall i :: 0 <= i < |rest| ==> rest[i] == devices[i + 1];
      assert devices == [entry] + rest;
      if job.excluded == Some(entry.device) {
        assert Listed(job, devices) == Listed(job, rest);
        EstablishView(job, w, r, rest, done);
      } else {
        assert Listed(job, devices) == {entry.device} + Listed(job, rest);
        var w1 := w.(sessions := w.sessions[Address(job.name, entry.device) := entry.registrationId]);
        assert Others(w1.sessions, job) == Others(w.sessions, job)[entry.device := r[entry.device]];
        EstablishView(job, w1, r, rest, done + [entry.device]);
        FreshStep(Others(w.sessions, job), r, entry.device, Listed(job, rest));
      }
    }
  }

  /** With no other own device known, discovery leaves exactly the registered ones. */
  lemma DiscoverView(env: Env, job: Job, r: Devices, w: World)
    requires ServesDiscovery(env, job, r) && Others(w.sessions, job) == map[]
    ensures var (w', found) := Discover(env, w, job.name, job.excluded);
            && found.Ok? && (found.value == [] <==> r == map[]) && Others(w'.sessions, job) == r
            && |w'.log| == |w.log| + 1 && w.log <= w'.log && !w'.log[|w.log|].request.Put?
  {
    var (w1, reply) := Ask(env, w, GetAllBundles(job.name));
    assert Lists(env, job, r, reply);
    var devices := env.parseBundles(reply.body).value.devices;
    EstablishView(job, w1, r, devices, []);
    assert r == map[] <==> r.Keys == {};
    assert Fresh(r, r.Keys) == r && map[] + r == r;
  }

  /** The PUT statuses of a sync leg. */
  function SyncStatuses(s: Devices, r: Devices): seq<nat> {
    if r == map[] then (if s == map[] then [] else [409])
    else if s == map[] || s.Keys == r.Keys then [200]
    else [409, 200]
  }

  ghost predicate SyncConverged(job: Job, r: Devices, w: World, w': World) {
    && w.log <= w'.log && Others(w'.sessions, job).Keys == r.Keys
    && var puts := Puts(Since(w, w'));
       && Statuses(puts) == SyncStatuses(Others(w.sessions, job), r)
       && (r != map[] ==>
             puts != [] && puts[|puts| - 1].request.Put? && SentTo(puts[|puts| - 1].request.messages) == r.Keys)
  }

  /** A sync leg that knows another own device goes straight to the loop. */
  lemma SyncOfKnown(env: Env, job: Job, r: Devices, w: World)
    requires ServesJob(env, job, r, PLAIN) && job.excluded.Some? && Others(w.sessions, job) != map[]
    ensures var (w', e) := SubmitSync(env, job, w); e.None? && SyncConverged(job, r, w, w')
  {
    TargetsAreView(w.sessions, job);
    SubmitFollowsCourse(env, job, r, PLAIN, w);
    FanOutCourse(Others(w.sessions, job), r, Nobody(job));
  }

  /** One that knows none discovers first. */
  lemma SyncOfNone(env: Env, job: Job, r: Devices, w: World)
    requires ServesJob(env, job, r, PLAIN) && ServesDiscovery(env, job, r) && job.excluded.Some? && Others(w.sessions, job) == map[]
    ensures var (w', e) := SubmitSync(env, job, w); e.None? && SyncConverged(job, r, w, w')
  {
    TargetsAreView(w.sessions, job);
    DiscoverView(env, job, r, w);
    var w1 := Discover(env, w, job.name, job.excluded).0;
    if r == map[] {
      QuietPrefix(w, w1, w1);
      assert Since(w1, w1) == [];
    } else {
      TargetsAreView(w1.sessions, job);
      SyncOfKnown(env, job, r, w1);
      QuietPrefix(w, w1, Submit(env, job, w1).0);
    }
  }

  /** The sync leg: against a server that holds the own account without the sending device, and
      lists it when asked, the leg never fails, and the sessions end up being the other own devices.
      If there are any, the last PUT is accepted by exactly them; if there are none, nothing is
      accepted and stale sessions are gone. */
  lemma SyncLegConverges(env: Env, job: Job, r: Devices, w: World)
    requires ServesJob(env, job, r, PLAIN) && ServesDiscovery(env, job, r) && job.excluded.Some?
    ensures var (w', e) := SubmitSync(env, job, w); e.None? && SyncConverged(job, r, w, w')
  {
    if Others(w.sessions, job) != map[] {
      SyncOfKnown(env, job, r, w);
    } else {
      SyncOfNone(env, job, r, w);
    }
  }

  lemma QuietPrefix(w: World, w1: World, w': World)
    requires w.log <= w1.log <= w'.log && |w1.log| == |w.log| + 1 && !w1.log[|w.log|].request.Put?
    ensures Puts(Since(w, w')) == Puts(Since(w1, w'))
  {
    assert Since(w, w') == [w1.log[|w.log|]] + Since(w1, w');
    PutsConcat([w1.log[|w.log|]], Since(w1, w'));
  }

  lemma CourseConverged(job: Job, r: Devices, w: World, w': World, outcome: Outcome)
    requires r != map[] && Others(w.sessions, job) != map[]
    requires Follows(job, r, PLAIN, MAX_ATTEMPTS, w, w', outcome) && SameElsewhere(job.name, w.sessions, w'.sessions)
    ensures Converged(job, r, w, w', outcome)
  {
    FanOutCourse(Others(w.sessions, job), r, Nobody(job));
  }

  lemma FanOutCourse(s: Devices, r: Devices, nobody: Outcome)
    requires s != map[]
    ensures CourseOf(s, r, PLAIN, nobody, 3) ==
            if r == map[] then Course([409], nobody, map[])
            else Course(if s.Keys == r.Keys then [200] else [409, 200], Delivered(true), Repaired(s, r, {}))
  {
    assert Repaired(s, r, {}).Keys == r.Keys;
    if r == map[] {
      NobodyLeft(s, r, PLAIN, nobody, 3);
    } else if s.Keys == r.Keys {
      assert Repaired(s, r, {}) == s;
    } else {
      var c := CourseOf(Repaired(s, r, {}), r, PLAIN, nobody, 2);
      assert c == Course([200], Delivered(true), Repaired(s, r, {}));
      assert [409] + [200] == [409, 200];
    }
  }

  /** With no device registered the extras go, and then there is nobody to address. */
  lemma NobodyLeft(s: Devices, r: Devices, p: Policy, nobody: Outcome, attemptsLeft: nat)
    requires s != map[] && r == map[] && attemptsLeft >= 2
    ensures CourseOf(s, r, p, nobody, attemptsLeft) == Course([409], nobody, map[])
  {
    assert s.Keys != r.Keys && Repaired(s, r, p.absent) == map[];
    assert CourseOf(map[], r, p, nobody, attemptsLeft - 1) == Course([], nobody, map[]);
  }

  lemma NoneStale(s: Devices, r: Devices)
    requires s.Keys == r.Keys && Stale(s, r) == {}
    ensures s == r
  {
    assert forall d :: d in r ==> d !in Stale(s, r);
  }

  /** Every course against a server that also checks registration ids, after the mismatch check. */
  lemma CourseTable(s: Devices, r: Devices, nobody: Outcome)
    ensures var c := CourseOf(s, r, STRICT, nobody, 3);
            var stale := Stale(s, r);
            if s == map[] then c == Course([], nobody, s)
            else if r == map[] then c == Course([409], nobody, map[])
            else if s.Keys == r.Keys then
              if stale == {} then c == Course([200], Delivered(true), r)
              else if stale == r.Keys then c == Course([410], nobody, map[])
              else c == Course([410, 409, 200], Delivered(true), r)
            else
              if stale == {} then c == Course([409, 200], Delivered(true), r)
              else if stale == r.Keys then c == Course([409, 410], nobody, map[])
              else c == Course([409, 410, 409], Failed(RetryExhausted), r)
  {
    if s != map[] && r == map[] {
      NobodyLeft(s, r, STRICT, nobody, 3);
    } else if s != map[] {
      if s.Keys == r.Keys {
        if Stale(s, r) == {} {
          NoneStale(s, r);
        } else {
          AfterStale(s, r, nobody, 2);
        }
      } else {
        var m := Repaired(s, r, {});
        assert m.Keys == r.Keys && Stale(m, r) == Stale(s, r);
        if Stale(s, r) == {} {
          NoneStale(m, r);
          assert [409] + [200] == [409, 200];
        } else {
          AfterStale(m, r, nobody, 1);
        }
      }
    }
  }

  /** After a 410 the stale sessions are gone: nothing is left to send to, or the next attempt
      meets a 409 for them. */
  lemma AfterStale(s: Devices, r: Devices, nobody: Outcome, attemptsLeft: nat)
    requires s.Keys == r.Keys && Stale(s, r) != {} && 1 <= attemptsLeft <= 2
    ensures var c := CourseOf(s - Stale(s, r), r, STRICT, nobody, attemptsLeft);
            if Stale(s, r) == r.Keys then c == Course([], nobody, map[])
            else if attemptsLeft == 1 then c == Course([409], Failed(RetryExhausted), r)
            else c == Course([409, 200], Delivered(true), r)
  {
    var u := s - Stale(s, r);
    if Stale(s, r) == r.Keys {
      assert u == map[];
    } else {
      assert u.Keys == r.Keys - Stale(s, r);
      assert Stale(s, r) <= r.Keys && !(r.Keys <= Stale(s, r));
      var d :| d in r.Keys && d !in Stale(s, r);
      assert d in u;
      assert Repaired(u, r, {}) == r;
      assert Stale(r, r) == {};
      if attemptsLeft == 1 {
        assert CourseOf(r, r, STRICT, nobody, 0) == Course([], Failed(RetryExhausted), r);
      } else {
        assert CourseOf(r, r, STRICT, nobody, 1) == Course([200], Delivered(true), r);
        assert [409] + [200] == [409, 200];
      }
    }
  }

  // ----- devices without a bundle -----

  /** A device that is registered, unknown here and without a bundle can never be reached: every PUT
      is answered 409, or nothing is left to send to. The skipped 404s do not end the call. */
  lemma AbsentCourse(s: Devices, r: Devices, p: Policy, nobody: Outcome)
    requires s != map[] && (r.Keys * p.absent) - s.Keys != {}
    ensures var m := Repaired(s, r, p.absent);
            CourseOf(s, r, p, nobody, 3) ==
            if m == map[] then Course([409], nobody, map[]) else Course([409, 409, 409], Failed(RetryExhausted), m)
  {
    var m := Repaired(s, r, p.absent);
    var d :| d in (r.Keys * p.absent) - s.Keys;
    assert d in r && d !in m && m.Keys != r.Keys && s.Keys != r.Keys;
    assert Repaired(m, r, p.absent) == m;
    if m == map[] {
      assert CourseOf(m, r, p, nobody, 2) == Course([], nobody, map[]);
    } else {
      StaysMismatched(m, r, p, nobody);
      assert [409] + [409, 409] == [409, 409, 409];
    }
  }

  lemma StaysMismatched(m: Devices, r: Devices, p: Policy, nobody: Outcome)
    requires m != map[] && m.Keys != r.Keys && Repaired(m, r, p.absent) == m
    ensures CourseOf(m, r, p, nobody, 2) == Course([409, 409], Failed(RetryExhausted), m)
  {
    assert CourseOf(m, r, p, nobody, 0) == Course([], Failed(RetryExhausted), m);
    assert CourseOf(m, r, p, nobody, 1) == Course([409], Failed(RetryExhausted), m);
    assert [409] + [409] == [409, 409];
  }

  /** When a call is delivered within its three attempts. */
  predicate Deliverable(s: Devices, r: Devices, p: Policy) {
    var stale := if p.checksStale then Stale(s, r) else {};
    && s != map[] && r != map[]
    && ((stale == {} && r.Keys * p.absent <= s.Keys)
        || (s.Keys == r.Keys && stale != r.Keys && stale !! p.absent))
  }

  lemma CourseDelivers(s: Devices, r: Devices, p: Policy, nobody: Outcome)
    requires nobody != Delivered(true)
    ensures CourseOf(s, r, p, nobody, 3).outcome == Delivered(true) <==> Deliverable(s, r, p)
  {
    if s == map[] {
      assert CourseOf(s, r, p, nobody, 3).outcome == nobody;
    } else if r == map[] {
      NobodyLeft(s, r, p, nobody, 3);
    } else if !(r.Keys * p.absent <= s.Keys) {
      var d :| d in r.Keys * p.absent && d !in s.Keys;
      assert d in (r.Keys * p.absent) - s.Keys && d in r.Keys;
      AbsentCourse(s, r, p, nobody);
    } else if s.Keys == r.Keys {
      MatchingDelivers(s, r, p, nobody);
    } else {
      RepairedDelivers(s, r, p, nobody);
    }
  }

  lemma MatchingDelivers(s: Devices, r: Devices, p: Policy, nobody: Outcome)
    requires nobody != Delivered(true) && s != map[] && r != map[] && s.Keys == r.Keys
    ensures CourseOf(s, r, p, nobody, 3).outcome == Delivered(true) <==> Deliverable(s, r, p)
  {
    if p.checksStale && Stale(s, r) != {} {
      var u := s - Stale(s, r);
      if Stale(s, r) == r.Keys {
        assert u == map[];
        assert CourseOf(u, r, p, nobody, 2).outcome == nobody;
      } else {
        StaleDelivers(s, r, p, nobody);
      }
      assert CourseOf(s, r, p, nobody, 3).outcome == CourseOf(u, r, p, nobody, 2).outcome;
    } else {
      assert CourseOf(s, r, p, nobody, 3).outcome == Delivered(true);
    }
  }

  /** After a 410 the stale devices are fetched anew, if they have bundles. */
  lemma StaleDelivers(s: Devices, r: Devices, p: Policy, nobody: Outcome)
    requires nobody != Delivered(true) && s.Keys == r.Keys && Stale(s, r) != {} && Stale(s, r) != r.Keys
    ensures CourseOf(s - Stale(s, r), r, p, nobody, 2).outcome == Delivered(true) <==> Stale(s, r) !! p.absent
  {
    var u := s - Stale(s, r);
    assert u.Keys == r.Keys - Stale(s, r) && Stale(s, r) <= r.Keys;
    var kept :| kept in r.Keys && kept !in Stale(s, r);
    assert kept in u && u.Keys != r.Keys;
    var v := Repaired(u, r, p.absent);
    assert CourseOf(u, r, p, nobody, 2).outcome == CourseOf(v, r, p, nobody, 1).outcome;
    if Stale(s, r) !! p.absent {
      assert v == r && Stale(r, r) == {};
      assert CourseOf(r, r, p, nobody, 1).outcome == Delivered(true);
    } else {
      var d :| d in Stale(s, r) && d in p.absent;
      assert d in r && d !in v && v.Keys != r.Keys && kept in v;
      assert CourseOf(v, r, p, nobody, 1).outcome == Failed(RetryExhausted);
    }
  }

  lemma RepairedDelivers(s: Devices, r: Devices, p: Policy, nobody: Outcome)
    requires nobody != Delivered(true) && s != map[] && r != map[] && s.Keys != r.Keys && r.Keys * p.absent <= s.Keys
    ensures CourseOf(s, r, p, nobody, 3).outcome == Delivered(true) <==> Deliverable(s, r, p)
  {
    var m := Repaired(s, r, p.absent);
    assert forall d :: d in r && d !in s ==> d !in p.absent by {
      forall d | d in r && d !in s ensures d !in p.absent {
        assert d in p.absent ==> d in r.Keys * p.absent;
      }
    }
    assert m.Keys == r.Keys && Stale(m, r) == Stale(s, r);
    assert CourseOf(s, r, p, nobody, 3).outcome == CourseOf(m, r, p, nobody, 2).outcome;
    if p.checksStale && Stale(m, r) != {} {
      var u := m - Stale(m, r);
      assert CourseOf(m, r, p, nobody, 2).outcome == CourseOf(u, r, p, nobody, 1).outcome;
      var d :| d in Stale(m, r);
      assert d in r && d !in u;
      assert CourseOf(u, r, p, nobody, 1).outcome != Delivered(true);
    } else {
      assert CourseOf(m, r, p, nobody, 2).outcome == Delivered(true);
    }
  }

  /** The whole protocol against a server holding `r`, with or without the staleness check and with
      any of the bundles missing: the run is the course on device maps, and it ends delivered iff some
      session and some device exist, and either nothing is stale and every unknown device has a
      bundle, or exactly the registered devices are known, not all of them are stale and the stale
      ones have bundles. */
  lemma DeliveryExactlyWhen(env: Env, job: Job, r: Devices, p: Policy, w: World)
    requires ServesJob(env, job, r, p)
    ensures var s := Others(w.sessions, job);
            var (w', outcome) := Submit(env, job, w);
            && w.log <= w'.log
            && Observed(job, w, w', outcome) == CourseOf(s, r, p, Nobody(job), 3)
            && (outcome == Delivered(true) <==> Deliverable(s, r, p))
            && SameElsewhere(job.name, w.sessions, w'.sessions)
  {
    SubmitFollowsCourse(env, job, r, p, w);
    SubmitIsSafe(env, job, w);
    CourseDelivers(Others(w.sessions, job), r, p, Nobody(job));
  }

  /** Mismatch together with staleness never fits in three attempts, but the failed call leaves the
      sessions equal to the server's map, so the next call is accepted on its first PUT. */
  lemma NextCallSucceeds(env: Env, job: Job, r: Devices, w: World)
    requires ServesJob(env, job, r, STRICT)
    requires var s := Others(w.sessions, job);
             s != map[] && s.Keys != r.Keys && Stale(s, r) != {} && Stale(s, r) != r.Keys
    ensures var (w1, first) := Submit(env, job, w);
            var (w2, second) := Submit(env, job, w1);
            && w.log <= w1.log <= w2.log
            && Observed(job, w, w1, first) == Course([409, 410, 409], Failed(RetryExhausted), r)
            && Observed(job, w1, w2, second) == Course([200], Delivered(true), r)
  {
    DeliveryExactlyWhen(env, job, r, STRICT, w);
    CourseTable(Others(w.sessions, job), r, Nobody(job));
    var w1 := Submit(env, job, w).0;
    DeliveryExactlyWhen(env, job, r, STRICT, w1);
    CourseTable(Others(w1.sessions, job), r, Nobody(job));
  }
}
