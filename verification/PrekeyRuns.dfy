/** Whole runs of replenishment: generation, crashes, uploads that may or may not arrive, bundles
    handed to peers, and the removal of a record once it has been used. */
module PrekeyRuns {
  import opened Common
  import opened Decimal
  import opened Prekeys

  /** A generated key pair. `position` is the counter without its wrap, and `serial` the number of
      key pairs generated before; neither exists in the program, which sees only the id. */
  datatype Made = Made(position: nat, key: Key, serial: nat) {
    function Id(): nat { IdAt(position) }
  }

  /** Where an uploaded key is: on its way, in the server's stock, or in a bundle given to a peer. */
  datatype Place = InFlight | Advertised | HandedOut

  datatype Pc =
    | Idle
    | Generating(next: nat, at: nat, left: nat, batch: seq<Made>)  // in the loop
    | Generated(batch: seq<Made>)                                  // counter written; about to upload

  datatype State = State(
    dict: map<string, Key>,       // the records, on disk
    counter: Option<string>,      // the counter's text, on disk
    pc: Pc,
    out: map<Made, Place>,        // keys that a peer may still come to use
    position: Option<nat>,        // the counter without its wrap, once there is one
    made: nat,                    // key pairs generated
    issued: set<Key>)             // and which

  datatype Action =
    | Begin(count: nat, seed: nat)
    | Save(key: Key)
    | SaveTorn(key: Key)   // a crash or an error between the delete and the write of a record
    | Advance
    | AdvanceTorn          // the same for the counter
    | Upload
    | Crash
    | Arrive(e: Made)      // the server takes it into stock, perhaps long after the client gave up
    | Lose(e: Made)        // it never arrives, or the server drops it
    | HandOut(e: Made)
    | Consume(e: Made)     // a first message that uses it is decrypted, then the record is removed

  predicate Held(s: State, e: Made) {
    RecordKey(e.Id()) in s.dict && s.dict[RecordKey(e.Id())] == e.key
  }

  /** The random generator gives no key pair twice. */
  predicate Enabled(s: State, a: Action) {
    match a
    case Begin(count, seed) => s.pc.Idle? && count > 0 && 1 <= seed <= 1000
    case Save(key) => s.pc.Generating? && s.pc.left > 0 && key !in s.issued
    case SaveTorn(key) => s.pc.Generating? && s.pc.left > 0 && key !in s.issued
    case Advance => s.pc.Generating? && s.pc.left == 0
    case AdvanceTorn => s.pc.Generating? && s.pc.left == 0
    case Upload => s.pc.Generated?
    case Crash => true
    case Arrive(e) => e in s.out && s.out[e].InFlight?
    case Lose(e) => e in s.out
    case HandOut(e) => e in s.out && s.out[e].Advertised?
    case Consume(e) => e in s.out && s.out[e].HandedOut? && Held(s, e)
  }

  function Apply(s: State, a: Action): State
    requires Enabled(s, a)
  {
    match a
    case Begin(count, seed) =>
      var start := Start(s.counter, seed);
      var position := if s.position.Some? then s.position.value else start - 1;
      s.(counter := Seeded(s.counter, seed), position := Some(position), pc := Generating(start, position, count, []))
    case Save(key) =>
      var e := Made(s.pc.at, key, s.made);
      s.(dict := s.dict[RecordKey(s.pc.next) := key], made := s.made + 1, issued := s.issued + {key},
         pc := Generating(Next(s.pc.next), s.pc.at + 1, s.pc.left - 1, s.pc.batch + [e]))
    case SaveTorn(key) =>
      s.(dict := s.dict - {RecordKey(s.pc.next)}, made := s.made + 1, issued := s.issued + {key}, pc := Idle)
    case Advance => s.(counter := Some(Dec(s.pc.next)), position := Some(s.pc.at), pc := Generated(s.pc.batch))
    case AdvanceTorn => s.(counter := None, position := None, pc := Idle)
    case Upload => s.(out := s.out + (map e | e in s.pc.batch :: InFlight), pc := Idle)
    case Crash => s.(pc := Idle)
    case Arrive(e) => s.(out := s.out[e := Advertised])
    case Lose(e) => s.(out := s.out - {e})
    case HandOut(e) => s.(out := s.out[e := HandedOut])
    case Consume(e) => s.(dict := s.dict - {RecordKey(e.Id())}, out := s.out - {e})
  }

  /** Any records and any counter text may be there; nothing has been uploaded. */
  predicate Init(s: State) {
    s.pc.Idle? && s.out == map[] && s.position.None? && s.made == 0 && s.issued == {}
  }

  /** The state after a run, if every action could be taken. */
  function Run(s: State, actions: seq<Action>): Option<State> {
    if actions == [] then Some(s)
    else
      match Run(s, actions[..|actions| - 1])
      case None => None
      case Some(t) =>
        var a := actions[|actions| - 1];
        if Enabled(t, a) then Some(Apply(t, a)) else None
  }

  /** No crash falls inside a write of the counter. */
  predicate AtomicCounter(actions: seq<Action>) {
    AdvanceTorn !in actions
  }

  // ----- what every state keeps -----

  function Batch(s: State): seq<Made> {
    match s.pc
    case Idle => []
    case Generating(_, _, _, batch) => batch
    case Generated(batch) => batch
  }

  /** Keys that are uploaded, or may still be. */
  predicate Alive(s: State, e: Made) {
    e in s.out || e in Batch(s)
  }

  function At(s: State): nat {
    if s.pc.Generating? then s.pc.at else if s.position.Some? then s.position.value else 0
  }

  predicate CounterInv(s: State) {
    && (s.position.Some? ==> ReadCounter(s.counter) == Some(IdAt(s.position.value)))
    && (!s.pc.Idle? ==> s.position.Some?)
    && (s.pc.Generating? ==> s.position.value <= s.pc.at && s.pc.next == IdAt(s.pc.at))
  }

  /** Positions never run ahead of the number of keys made, and only a position a whole turn later
      can have taken the record away. */
  predicate Tracked(s: State, e: Made) {
    && s.position.Some? && e.serial < s.made && e.key in s.issued
    && e.position < At(s) <= e.position + (s.made - e.serial)
    && (Held(s, e) || s.made - e.serial > MEDIUM_MAX)
    && (e in s.out || s.pc.Generated? ==> e.position < s.position.value)
  }

  ghost predicate Inv(s: State) {
    && CounterInv(s)
    && (forall e :: Alive(s, e) ==> Tracked(s, e))
    && (forall e, f :: Alive(s, e) && Alive(s, f) && e.key == f.key ==> e == f)
    && (forall e :: e in Batch(s) ==> e !in s.out)
  }

  lemma CounterStep(s: State, a: Action)
    requires CounterInv(s) && Enabled(s, a)
    ensures CounterInv(Apply(s, a))
  {
    match a
    case Begin(count, seed) =>
      SeededReads(s.counter, seed);
      IdOfStart(Start(s.counter, seed));
    case Save(_) => NextIsNextPosition(s.pc.at);
    case Advance => CounterRoundTrip(s.pc.next);
    case _ =>
  }

  /** Only the key just saved is new. */
  lemma AliveStep(s: State, a: Action, e: Made)
    requires Enabled(s, a) && Alive(Apply(s, a), e)
    ensures Alive(s, e) || (a.Save? && e == Made(s.pc.at, a.key, s.made))
  {
  }

  lemma TrackedStep(s: State, a: Action, e: Made)
    requires Inv(s) && Enabled(s, a) && !a.AdvanceTorn?
    requires Alive(s, e) && Alive(Apply(s, a), e)
    ensures Tracked(Apply(s, a), e)
  {
    match a
    case Save(key) => OverwriteIsLate(s, e);
    case SaveTorn(key) => OverwriteIsLate(s, e);
    case Consume(f) =>
      assert e != f && e.key != f.key by {
        assert Alive(s, f);
        assert f !in Batch(s);
      }
    case _ =>
  }

  /** The record about to be written is e's only a whole turn later. */
  lemma OverwriteIsLate(s: State, e: Made)
    requires CounterInv(s) && s.pc.Generating? && Tracked(s, e)
    ensures RecordKey(s.pc.next) != RecordKey(e.Id()) || s.made - e.serial >= MEDIUM_MAX
  {
    if s.pc.at < e.position + MEDIUM_MAX {
      NearIdsDiffer(e.position, s.pc.at);
    }
  }

  lemma StepKeepsInv(s: State, a: Action)
    requires Inv(s) && Enabled(s, a) && !a.AdvanceTorn?
    ensures Inv(Apply(s, a))
  {
    var t := Apply(s, a);
    CounterStep(s, a);
    forall e | Alive(t, e) ensures Tracked(t, e) {
      AliveStep(s, a, e);
      if Alive(s, e) { TrackedStep(s, a, e); }
    }
    forall e, f | Alive(t, e) && Alive(t, f) && e.key == f.key ensures e == f {
      AliveStep(s, a, e);
      AliveStep(s, a, f);
    }
    forall e | e in Batch(t) ensures e !in t.out {
      assert Alive(t, e);
      AliveStep(s, a, e);
      assert Alive(s, e) ==> e.key in s.issued;
    }
  }

  lemma {:induction false} RunKeepsInv(s: State, actions: seq<Action>)
    requires Init(s) && AtomicCounter(actions) && Run(s, actions).Some?
    ensures Inv(Run(s, actions).value)
  {
    if actions != [] {
      var n := |actions| - 1;
      assert actions[n] in actions;
      RunKeepsInv(s, actions[..n]);
      StepKeepsInv(Run(s, actions[..n]).value, actions[n]);
    }
  }

  // ----- what every run shows -----

  /** Advertised is held: over every run with atomic counter writes, a key that is on its way to
      the server, in stock, or in a peer's hands has its private record on file under its id until
      MEDIUM_MAX further key pairs have been generated. */
  lemma AdvertisedIsHeld(s: State, actions: seq<Action>, e: Made)
    requires Init(s) && AtomicCounter(actions) && Run(s, actions).Some?
    requires var t := Run(s, actions).value; e in t.out && t.made - e.serial - 1 < MEDIUM_MAX
    ensures Held(Run(s, actions).value, e) && IsId(e.Id())
  {
    RunKeepsInv(s, actions);
    assert Alive(Run(s, actions).value, e);
  }

  /** So two such keys never share an id: a peer's id names one key. */
  lemma OutstandingIdsDiffer(s: State, actions: seq<Action>, e: Made, f: Made)
    requires Init(s) && AtomicCounter(actions) && Run(s, actions).Some?
    requires var t := Run(s, actions).value;
             && e in t.out && t.made - e.serial - 1 < MEDIUM_MAX
             && f in t.out && t.made - f.serial - 1 < MEDIUM_MAX
    requires e.Id() == f.Id()
    ensures e == f
  {
    AdvertisedIsHeld(s, actions, e);
    AdvertisedIsHeld(s, actions, f);
    RunKeepsInv(s, actions);
    assert Alive(Run(s, actions).value, e) && Alive(Run(s, actions).value, f);
  }

  /** And a bundle handed to a peer can be used. */
  lemma HandedOutCanBeUsed(s: State, actions: seq<Action>, e: Made)
    requires Init(s) && AtomicCounter(actions) && Run(s, actions).Some?
    requires var t := Run(s, actions).value;
             e in t.out && t.out[e].HandedOut? && t.made - e.serial - 1 < MEDIUM_MAX
    ensures Run(s, actions + [Consume(e)]).Some?
  {
    AdvertisedIsHeld(s, actions, e);
    assert (actions + [Consume(e)])[..|actions|] == actions;
  }

  /** Used once: after a key has been consumed its record is gone, and no peer can have it any more. */
  lemma ConsumedIsGone(s: State, actions: seq<Action>, e: Made)
    requires Run(s, actions + [Consume(e)]).Some?
    ensures var t := Run(s, actions + [Consume(e)]).value; RecordKey(e.Id()) !in t.dict && e !in t.out
  {
    assert (actions + [Consume(e)])[..|actions|] == actions;
  }

  /** An upload puts every key of its batch on its way, and nothing else. */
  lemma UploadSendsTheBatch(s: State, actions: seq<Action>, t: State, e: Made)
    requires Run(s, actions) == Some(t) && t.pc.Generated?
    ensures Run(s, actions + [Upload]).Some?
    ensures var u := Run(s, actions + [Upload]).value;
            && (e in u.out <==> e in t.out || e in t.pc.batch)
            && (e in t.pc.batch ==> u.out[e] == InFlight) && u.dict == t.dict && u.counter == t.counter
  {
    assert (actions + [Upload])[..|actions|] == actions;
  }

  // ----- with or without torn writes -----

  /** The id whose record a step writes or deletes for a new key pair. */
  function WritesId(s: State, a: Action): seq<nat> {
    if (a.Save? || a.SaveTorn?) && s.pc.Generating? then [s.pc.next] else []
  }

  /** The ids written in a run, in order. */
  function Written(s: State, actions: seq<Action>): seq<nat> {
    if actions == [] then []
    else
      var before := actions[..|actions| - 1];
      match Run(s, before)
      case None => []
      case Some(t) => Written(s, before) + WritesId(t, actions[|actions| - 1])
  }

  /** No later key pair was given the same id. */
  ghost predicate NotRewritten(log: seq<nat>, e: Made) {
    forall i :: e.serial < i < |log| ==> log[i] != e.Id()
  }

  ghost predicate Logged(s: State, log: seq<nat>, e: Made) {
    && e.serial < |log| && log[e.serial] == e.Id() && e.key in s.issued
    && (Held(s, e) <==> NotRewritten(log, e))
  }

  ghost predicate LogInv(s: State, log: seq<nat>) {
    && CounterInv(s) && |log| == s.made
    && (forall e :: Alive(s, e) ==> Logged(s, log, e))
    && (forall e, f :: Alive(s, e) && Alive(s, f) && e.key == f.key ==> e == f)
    && (forall e :: e in Batch(s) ==> e !in s.out)
  }

  lemma NotRewrittenAppend(log: seq<nat>, id: nat, e: Made)
    requires e.serial < |log|
    ensures NotRewritten(log + [id], e) <==> NotRewritten(log, e) && id != e.Id()
  {
    var log' := log + [id];
    if NotRewritten(log', e) {
      assert log'[|log|] == id;
      forall i | e.serial < i < |log| ensures log[i] != e.Id() {
        assert log'[i] == log[i];
      }
    }
  }

  lemma SameRecord(m: nat, e: Made)
    ensures RecordKey(m) == RecordKey(e.Id()) <==> m == e.Id()
  {
    if RecordKey(m) == RecordKey(e.Id()) {
      DecInjective(m, e.Id());
    }
  }

  lemma LoggedStep(s: State, a: Action, log: seq<nat>, e: Made)
    requires LogInv(s, log) && Enabled(s, a) && Alive(s, e) && Alive(Apply(s, a), e)
    ensures Logged(Apply(s, a), log + WritesId(s, a), e)
  {
    if a.Save? || a.SaveTorn? {
      NotRewrittenAppend(log, s.pc.next, e);
      SameRecord(s.pc.next, e);
    } else {
      assert log + WritesId(s, a) == log;
      if a.Consume? {
        assert Alive(s, a.e) && a.e !in Batch(s);
        assert e != a.e && e.key != a.e.key;
      }
    }
  }

  lemma LoggedNew(s: State, key: Key, log: seq<nat>)
    requires LogInv(s, log) && Enabled(s, Save(key))
    ensures Logged(Apply(s, Save(key)), log + [s.pc.next], Made(s.pc.at, key, s.made))
  {
  }

  lemma LogStep(s: State, a: Action, log: seq<nat>)
    requires LogInv(s, log) && Enabled(s, a)
    ensures LogInv(Apply(s, a), log + WritesId(s, a))
  {
    var t, log' := Apply(s, a), log + WritesId(s, a);
    CounterStep(s, a);
    forall e | Alive(t, e) ensures Logged(t, log', e) {
      AliveStep(s, a, e);
      if Alive(s, e) { LoggedStep(s, a, log, e); } else { LoggedNew(s, a.key, log); }
    }
    forall e, f | Alive(t, e) && Alive(t, f) && e.key == f.key ensures e == f {
      AliveStep(s, a, e);
      AliveStep(s, a, f);
      assert Alive(s, e) ==> e.key in s.issued;
      assert Alive(s, f) ==> f.key in s.issued;
    }
    forall e | e in Batch(t) ensures e !in t.out {
      assert Alive(t, e);
      AliveStep(s, a, e);
      assert Alive(s, e) ==> e.key in s.issued;
    }
  }

  lemma {:induction false} RunKeepsLog(s: State, actions: seq<Action>)
    requires Init(s) && Run(s, actions).Some?
    ensures LogInv(Run(s, actions).value, Written(s, actions))
  {
    if actions != [] {
      var n := |actions| - 1;
      RunKeepsLog(s, actions[..n]);
      LogStep(Run(s, actions[..n]).value, actions[n], Written(s, actions[..n]));
    }
  }

  /** Over every run, torn writes of records and of the counter included: a key that a peer may
      come to use has its record on file exactly until some later key pair is given its id. */
  lemma HeldExactlyUntilRewritten(s: State, actions: seq<Action>, e: Made)
    requires Init(s) && Run(s, actions).Some? && e in Run(s, actions).value.out
    ensures var t, log := Run(s, actions).value, Written(s, actions);
            && |log| == t.made && e.serial < |log| && log[e.serial] == e.Id()
            && (Held(t, e) <==> forall i :: e.serial < i < |log| ==> log[i] != e.Id())
  {
    RunKeepsLog(s, actions);
    assert Alive(Run(s, actions).value, e);
  }

  // ----- the generator is a run of these steps -----

  function Saves(keys: seq<Key>): seq<Action> {
    seq(|keys|, i => if 0 <= i < |keys| then Save(keys[i]) else Crash)
  }

  predicate Distinct(keys: seq<Key>) {
    forall i, j :: 0 <= i < j < |keys| ==> keys[i] != keys[j]
  }

  function Plain(batch: seq<Made>): seq<Entry> {
    seq(|batch|, i => if 0 <= i < |batch| then Entry(batch[i].Id(), batch[i].key) else Entry(0, 0))
  }

  /** What the generator's loop invariant names, after some of its keys are saved. */
  ghost predicate LoopState(s: State, t: State, count: nat, seed: nat, keys: seq<Key>)
    requires 1 <= seed <= 1000
  {
    var start := Start(s.counter, seed);
    && CounterInv(t) && t.pc.Generating? && t.pc.left == count - |keys|
    && IdAt(t.pc.at) == IdAt(start - 1 + |keys|)
    && Plain(t.pc.batch) == Entries(start, keys)
    && t.dict == Filed(s.dict, start, keys)
    && t.counter == Seeded(s.counter, seed)
    && t.out == s.out && t.made == s.made + |keys|
    && (forall k :: k in t.issued <==> k in s.issued || k in keys)
  }

  lemma RunAppend(s: State, actions: seq<Action>, a: Action)
    ensures Run(s, actions + [a]) ==
            match Run(s, actions)
            case None => None
            case Some(t) => if Enabled(t, a) then Some(Apply(t, a)) else None
  {
    assert (actions + [a])[..|actions|] == actions;
  }

  lemma PlainAppend(batch: seq<Made>, e: Made)
    ensures Plain(batch + [e]) == Plain(batch) + [Entry(e.Id(), e.key)]
  {
  }

  lemma LoopStep(s: State, t: State, count: nat, seed: nat, keys: seq<Key>, key: Key)
    requires 1 <= seed <= 1000 && LoopState(s, t, count, seed, keys) && Enabled(t, Save(key))
    ensures LoopState(s, Apply(t, Save(key)), count, seed, keys + [key])
  {
    var start, n := Start(s.counter, seed), |keys|;
    CounterStep(t, Save(key));
    NextIsNextPosition(start - 1 + n);
    NextIsNextPosition(t.pc.at);
    assert (keys + [key])[..n] == keys && (keys + [key])[..n + 1] == keys + [key];
    BatchGrows(s.dict, start, keys + [key], n);
    PlainAppend(t.pc.batch, Made(t.pc.at, key, t.made));
  }

  lemma LoopStart(s: State, count: nat, seed: nat)
    requires CounterInv(s) && Enabled(s, Begin(count, seed))
    ensures LoopState(s, Apply(s, Begin(count, seed)), count, seed, [])
  {
    CounterStep(s, Begin(count, seed));
    IdOfStart(Start(s.counter, seed));
  }

  lemma SavesGrow(first: Action, keys: seq<Key>)
    requires keys != []
    ensures [first] + Saves(keys) == [first] + Saves(keys[..|keys| - 1]) + [Save(keys[|keys| - 1])]
  {
  }

  lemma LoopGoesOn(s: State, t: State, count: nat, seed: nat, keys: seq<Key>)
    requires 1 <= seed <= 1000 && 0 < |keys| <= count && LoopState(s, t, count, seed, keys[..|keys| - 1])
    requires Distinct(keys) && keys[|keys| - 1] !in s.issued
    ensures Enabled(t, Save(keys[|keys| - 1]))
    ensures LoopState(s, Apply(t, Save(keys[|keys| - 1])), count, seed, keys)
  {
    var n := |keys| - 1;
    assert keys == keys[..n] + [keys[n]];
    assert keys[n] !in keys[..n];
    LoopStep(s, t, count, seed, keys[..n], keys[n]);
  }

  lemma {:induction false} LoopIsARun(s: State, count: nat, seed: nat, keys: seq<Key>) returns (actions: seq<Action>, t: State)
    requires CounterInv(s) && s.pc.Idle? && 1 <= seed <= 1000 && 0 < count && |keys| <= count
    requires Distinct(keys) && forall i :: 0 <= i < |keys| ==> keys[i] !in s.issued
    ensures actions == [Begin(count, seed)] + Saves(keys)
    ensures Run(s, actions) == Some(t) && LoopState(s, t, count, seed, keys)
  {
    if keys == [] {
      t, actions := Try(s, [], s, Begin(count, seed));
      LoopStart(s, count, seed);
    } else {
      var n := |keys| - 1;
      var before, u := LoopIsARun(s, count, seed, keys[..n]);
      SavesGrow(Begin(count, seed), keys);
      LoopGoesOn(s, u, count, seed, keys);
      t, actions := Try(s, before, u, Save(keys[n]));
    }
  }

  lemma LoopEnd(s: State, t: State, seed: nat, keys: seq<Key>)
    requires 1 <= seed <= 1000 && LoopState(s, t, |keys|, seed, keys)
    ensures Enabled(t, Advance)
    ensures Apply(t, Advance).counter == Some(Dec(After(Start(s.counter, seed), |keys|)))
  {
    CounterAfter(Start(s.counter, seed), |keys|);
  }

  /** A generation without a fault is a run of these steps, and ends with the records, the counter
      and the upload body that the generator's contract names. */
  lemma GenerationIsARun(s: State, seed: nat, keys: seq<Key>) returns (actions: seq<Action>, t: State)
    requires CounterInv(s) && s.pc.Idle? && 1 <= seed <= 1000 && keys != []
    requires Distinct(keys) && forall i :: 0 <= i < |keys| ==> keys[i] !in s.issued
    ensures actions == [Begin(|keys|, seed)] + Saves(keys) + [Advance]
    ensures Run(s, actions) == Some(t) && t.pc.Generated?
    ensures var start := Start(s.counter, seed);
            && Plain(t.pc.batch) == Entries(start, keys)
            && t.dict == Filed(s.dict, start, keys)
            && t.counter == Some(Dec(After(start, |keys|)))
  {
    var before, u := LoopIsARun(s, |keys|, seed, keys);
    LoopEnd(s, u, seed, keys);
    t, actions := Try(s, before, u, Advance);
  }

  lemma Try(s: State, actions: seq<Action>, t: State, a: Action) returns (t': State, actions': seq<Action>)
    requires Run(s, actions) == Some(t) && Enabled(t, a)
    ensures Run(s, actions') == Some(t') && t' == Apply(t, a) && actions' == actions + [a]
  {
    RunAppend(s, actions, a);
    t', actions' := Apply(t, a), actions + [a];
  }

  lemma {:induction false} RunConcat(s: State, a: seq<Action>, t: State, b: seq<Action>)
    requires Run(s, a) == Some(t)
    ensures Run(s, a + b) == Run(t, b)
  {
    if b == [] {
      assert a + b == a;
    } else {
      var n := |b| - 1;
      RunConcat(s, a, t, b[..n]);
      assert (a + b)[..|a + b| - 1] == a + b[..n];
    }
  }

  /** A batch leaves a record alone exactly if it stops short of the record's id. */
  lemma FiledKeepsExactlyWhen(dict: map<string, Key>, start: nat, keys: seq<Key>, e: Made)
    requires IsId(start) && |keys| <= MEDIUM_MAX && e.key !in keys
    requires RecordKey(e.Id()) in dict && dict[RecordKey(e.Id())] == e.key
    ensures var d := Filed(dict, start, keys);
            RecordKey(e.Id()) in d && d[RecordKey(e.Id())] == e.key <==> (e.Id() + MEDIUM_MAX - start) % MEDIUM_MAX >= |keys|
  {
    var k := (e.Id() + MEDIUM_MAX - start) % MEDIUM_MAX;
    OffsetReaches(start, e.Id());
    if k < |keys| {
      FiledHolds(dict, start, keys, k);
    } else {
      forall i | 0 <= i < |keys| ensures RecordKey(e.Id()) != RecordKey(Entries(start, keys)[i].id) {
        NearIdsDiffer(start - 1 + i, start - 1 + k);
      }
      FiledKeeps(dict, start, keys, RecordKey(e.Id()));
    }
  }

  lemma OffsetReaches(start: nat, id: nat)
    requires IsId(start) && IsId(id)
    ensures var k := (id + MEDIUM_MAX - start) % MEDIUM_MAX; IdAt(start - 1 + k) == id
  {
    if id >= start {
      assert (id + MEDIUM_MAX - start) % MEDIUM_MAX == id - start;
    } else {
      assert (id + MEDIUM_MAX - start) % MEDIUM_MAX == id + MEDIUM_MAX - start;
    }
  }

  // ----- the bound is met -----

  /** The keys of a whole turn, none of them `key`. */
  function WholeTurn(key: Key): seq<Key> {
    seq(MEDIUM_MAX, i => key + 1 + i)
  }

  /** The window is no wider than stated: there is a run, without any torn write, at whose end a key
      is still advertised, exactly MEDIUM_MAX further key pairs have been generated, and its record
      is gone. */
  lemma WholeTurnOverwrites(seed: nat, key: Key) returns (s: State, actions: seq<Action>, e: Made)
    requires 1 <= seed <= 1000
    ensures Init(s) && AtomicCounter(actions) && Run(s, actions).Some?
    ensures var t := Run(s, actions).value;
            e in t.out && t.out[e].Advertised? && t.made - e.serial - 1 == MEDIUM_MAX && !Held(t, e)
  {
    s := Blank();
    e := Made(seed - 1, key, 0);
    var first := FirstKeyAdvertised(seed, key, e);
    var u;
    actions, u := NextBatch(first, seed, key, e, WholeTurn(key));
  }

  // ----- the counter's own write is not atomic -----

  function Blank(): State {
    State(map[], None, Idle, map[], None, 0, {})
  }

  /** One key generated from the seed, uploaded and taken into stock. */
  function OneKeyOut(seed: nat, key: Key, e: Made): State {
    State(map[RecordKey(seed) := key], Some(Dec(seed + 1)), Idle, map[e := Advertised], Some(seed), 1, {key})
  }

  function FirstBegun(seed: nat): State
    requires seed > 0
  {
    State(map[], Some(Dec(seed)), Generating(seed, seed - 1, 1, []), map[], Some(seed - 1), 0, {})
  }

  function FirstSaved(seed: nat, key: Key, e: Made): State
    requires seed > 0
  {
    State(map[RecordKey(seed) := key], Some(Dec(seed)), Generating(seed + 1, seed, 0, [e]), map[], Some(seed - 1), 1, {key})
  }

  function FirstAdvanced(seed: nat, key: Key, e: Made): State {
    State(map[RecordKey(seed) := key], Some(Dec(seed + 1)), Generated([e]), map[], Some(seed), 1, {key})
  }

  function Step(s: State, a: Action): Option<State> {
    if Enabled(s, a) then Some(Apply(s, a)) else None
  }

  lemma StepTo(s: State, before: seq<Action>, t: State, a: Action, u: State)
    requires Run(s, before) == Some(t) && Step(t, a) == Some(u) && AtomicCounter(before) && !a.AdvanceTorn?
    ensures Run(s, before + [a]) == Some(u) && AtomicCounter(before + [a])
  {
    RunAppend(s, before, a);
  }

  lemma BeginFirst(seed: nat)
    requires 1 <= seed <= 1000
    ensures Step(Blank(), Begin(1, seed)) == Some(FirstBegun(seed))
  {
  }

  lemma SaveFirst(seed: nat, key: Key, e: Made)
    requires 1 <= seed <= 1000 && e == Made(seed - 1, key, 0)
    ensures Step(FirstBegun(seed), Save(key)) == Some(FirstSaved(seed, key, e))
  {
    var u := Apply(FirstBegun(seed), Save(key));
    assert u.dict == map[RecordKey(seed) := key] && u.issued == {key} && u.pc.batch == [e];
  }

  lemma AdvanceFirst(seed: nat, key: Key, e: Made)
    requires 1 <= seed <= 1000
    ensures Step(FirstSaved(seed, key, e), Advance) == Some(FirstAdvanced(seed, key, e))
  {
  }

  lemma UploadFirst(seed: nat, key: Key, e: Made)
    ensures Step(FirstAdvanced(seed, key, e), Upload) == Some(OneKeyOut(seed, key, e).(out := map[e := InFlight]))
  {
    assert Apply(FirstAdvanced(seed, key, e), Upload).out == map[e := InFlight];
  }

  lemma ArriveFirst(seed: nat, key: Key, e: Made)
    ensures Step(OneKeyOut(seed, key, e).(out := map[e := InFlight]), Arrive(e)) == Some(OneKeyOut(seed, key, e))
  {
    assert map[e := InFlight][e := Advertised] == map[e := Advertised];
  }

  lemma FirstKeyAdvertised(seed: nat, key: Key, e: Made) returns (actions: seq<Action>)
    requires 1 <= seed <= 1000 && e == Made(seed - 1, key, 0)
    ensures Run(Blank(), actions) == Some(OneKeyOut(seed, key, e)) && AtomicCounter(actions)
  {
    var s, begun, saved, advanced, out := Blank(), FirstBegun(seed), FirstSaved(seed, key, e), FirstAdvanced(seed, key, e), OneKeyOut(seed, key, e);
    BeginFirst(seed);
    StepTo(s, [], s, Begin(1, seed), begun);
    SaveFirst(seed, key, e);
    StepTo(s, [] + [Begin(1, seed)], begun, Save(key), saved);
    AdvanceFirst(seed, key, e);
    StepTo(s, [] + [Begin(1, seed)] + [Save(key)], saved, Advance, advanced);
    UploadFirst(seed, key, e);
    var uploaded := [] + [Begin(1, seed)] + [Save(key)] + [Advance];
    StepTo(s, uploaded, advanced, Upload, out.(out := map[e := InFlight]));
    ArriveFirst(seed, key, e);
    StepTo(s, uploaded + [Upload], out.(out := map[e := InFlight]), Arrive(e), out);
    actions := uploaded + [Upload] + [Arrive(e)];
  }

  lemma FirstId(seed: nat, e: Made)
    requires 1 <= seed <= 1000 && e.position == seed - 1
    ensures e.Id() == seed && (e.Id() + MEDIUM_MAX - (seed + 1)) % MEDIUM_MAX == MEDIUM_MAX - 1
    ensures (e.Id() + MEDIUM_MAX - seed) % MEDIUM_MAX == 0
  {
  }

  /** A further batch of any keys after the first one. */
  lemma NextBatch(before: seq<Action>, seed: nat, key: Key, e: Made, keys: seq<Key>)
      returns (actions: seq<Action>, u: State)
    requires 1 <= seed <= 1000 && e == Made(seed - 1, key, 0) && keys != [] && |keys| <= MEDIUM_MAX
    requires Run(Blank(), before) == Some(OneKeyOut(seed, key, e)) && AtomicCounter(before)
    requires Distinct(keys) && key !in keys
    ensures Run(Blank(), actions) == Some(u) && AtomicCounter(actions) && Enabled(u, AdvanceTorn)
    ensures u.out == map[e := Advertised] && u.made == 1 + |keys|
    ensures forall k :: k in u.issued <==> k == key || k in keys
    ensures Held(u, e) <==> |keys| < MEDIUM_MAX
  {
    var t := OneKeyOut(seed, key, e);
    OneKeyCounter(seed, key, e);
    var more, v := LoopIsARun(t, |keys|, seed, keys);
    RunConcat(Blank(), before, t, more);
    actions, u := before + more, v;
    FiledAfterFirst(seed, key, e, keys);
  }

  lemma OneKeyCounter(seed: nat, key: Key, e: Made)
    requires 1 <= seed <= 1000
    ensures var t := OneKeyOut(seed, key, e); CounterInv(t) && Start(t.counter, seed) == seed + 1
  {
    CounterRoundTrip(seed + 1);
  }

  lemma FiledAfterFirst(seed: nat, key: Key, e: Made, keys: seq<Key>)
    requires 1 <= seed <= 1000 && e == Made(seed - 1, key, 0) && |keys| <= MEDIUM_MAX && key !in keys
    ensures var d := Filed(map[RecordKey(seed) := key], seed + 1, keys);
            RecordKey(e.Id()) in d && d[RecordKey(e.Id())] == key <==> |keys| < MEDIUM_MAX
  {
    FirstId(seed, e);
    FiledKeepsExactlyWhen(map[RecordKey(seed) := key], seed + 1, keys, e);
  }

  /** `write_prekey_counter` deletes the key before it writes it. In any run, after a crash in
      between and the next batch, a key that was on file still is exactly if the batch, counted on
      from the new seed, stops short of its id. */
  lemma ReseedKeepsExactlyWhen(s: State, actions: seq<Action>, u: State, e: Made, seed: nat, keys: seq<Key>)
      returns (t: State)
    requires Init(s) && Run(s, actions) == Some(u) && Enabled(u, AdvanceTorn) && e in u.out && Held(u, e)
    requires 1 <= seed <= 1000 && 0 < |keys| <= MEDIUM_MAX
    requires Distinct(keys) && forall i :: 0 <= i < |keys| ==> keys[i] !in u.issued
    ensures Run(s, actions + [AdvanceTorn] + ([Begin(|keys|, seed)] + Saves(keys))) == Some(t)
    ensures t.out == u.out && t.made == u.made + |keys|
    ensures Held(t, e) <==> (e.Id() + MEDIUM_MAX - seed) % MEDIUM_MAX >= |keys|
  {
    RunKeepsLog(s, actions);
    assert Alive(u, e);
    var v, torn := Try(s, actions, u, AdvanceTorn);
    var more, w := LoopIsARun(v, |keys|, seed, keys);
    RunConcat(s, torn, v, more);
    t := w;
    FiledKeepsExactlyWhen(v.dict, seed, keys, e);
  }

  /** For instance, seeded with the same number again, the third key pair ever made takes the place
      of the first one while the server still advertises it. */
  lemma TornCounterLosesAnAdvertisedKey(seed: nat, k1: Key, k2: Key, k3: Key) returns (s: State, actions: seq<Action>, e: Made)
    requires 1 <= seed <= 1000 && k1 != k2 && k1 != k3 && k2 != k3
    ensures Init(s) && Run(s, actions).Some?
    ensures var t := Run(s, actions).value;
            e in t.out && t.out[e].Advertised? && t.made == 3 && !Held(t, e)
  {
    s := Blank();
    e := Made(seed - 1, k1, 0);
    var first := FirstKeyAdvertised(seed, k1, e);
    var before, u := NextBatch(first, seed, k1, e, [k2]);
    FirstId(seed, e);
    var v := ReseedKeepsExactlyWhen(s, before, u, e, seed, [k3]);
    actions := before + [AdvanceTorn] + ([Begin(1, seed)] + Saves([k3]));
  }
}
