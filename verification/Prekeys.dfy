/** One-time pre-keys on the device: the wrapping id counter, its persisted text, the generator and
    the replenishment decision. */
module Prekeys {
  import opened Common
  import opened Decimal

  const MEDIUM_MAX: nat := 0xFF_FFFF

  const PRE_KEY_MINIMUM: nat := 10
  const PRE_KEY_BATCH_SIZE: nat := 100

  /** A key pair. The public half determines the private one, so one value stands for both. */
  type Key = nat

  /** What is uploaded: an id and the public half. */
  datatype Entry = Entry(id: nat, key: Key)

  // ----- the wrapping counter -----

  predicate IsId(id: nat) {
    1 <= id <= MEDIUM_MAX
  }

  function Next(id: nat): nat {
    if id >= MEDIUM_MAX then 1 else id + 1
  }

  /** The id used at a position of an unbounded count that starts at id 1. */
  function IdAt(position: nat): (id: nat)
    ensures IsId(id)
  {
    position % MEDIUM_MAX + 1
  }

  function After(start: nat, n: nat): nat {
    if n == 0 then start else Next(After(start, n - 1))
  }

  lemma NextIsNextPosition(p: nat)
    ensures Next(IdAt(p)) == IdAt(p + 1)
  {
  }

  /** The counter after n keys, and it is always an id. */
  lemma {:induction false} CounterAfter(start: nat, n: nat)
    requires IsId(start)
    ensures After(start, n) == (start - 1 + n) % 0xFF_FFFF + 1
    ensures 1 <= After(start, n) <= 0xFF_FFFF
  {
    if n > 0 {
      CounterAfter(start, n - 1);
      NextIsNextPosition(start - 1 + n - 1);
    }
  }

  lemma NearIdsDiffer(p: nat, q: nat)
    requires p < q < p + MEDIUM_MAX
    ensures IdAt(p) != IdAt(q) && RecordKey(IdAt(p)) != RecordKey(IdAt(q))
  {
    if RecordKey(IdAt(p)) == RecordKey(IdAt(q)) {
      DecInjective(IdAt(p), IdAt(q));
    }
  }

  /** Any MEDIUM_MAX consecutive ids are distinct, wherever the counter stands. */
  lemma ConsecutiveIdsDiffer(start: nat, i: nat, j: nat)
    requires IsId(start) && i < j < i + MEDIUM_MAX
    ensures After(start, i) != After(start, j)
  {
    CounterAfter(start, i);
    CounterAfter(start, j);
    NearIdsDiffer(start - 1 + i, start - 1 + j);
  }

  // ----- the counter's text -----

  /** Unicode White_Space, what `str::trim` removes. */
  predicate IsSpace(c: char) {
    var n := c as int;
    9 <= n <= 13 || n == 32 || n == 0x85 || n == 0xA0 || n == 0x1680 || 0x2000 <= n <= 0x200A
    || n == 0x2028 || n == 0x2029 || n == 0x202F || n == 0x205F || n == 0x3000
  }

  function Trim(s: string): string {
    if s == [] then []
    else if IsSpace(s[0]) then Trim(s[1..])
    else if IsSpace(s[|s| - 1]) then Trim(s[..|s| - 1])
    else s
  }

  /** The stored counter if it can be used: text that parses as a `u32` and is an id. */
  function ReadCounter(text: Option<string>): (r: Option<nat>)
    ensures r.Some? ==> IsId(r.value)
  {
    match text
    case None => None
    case Some(s) =>
      match ParseUnsigned(Trim(s), U32_BOUND)
      case Some(v) => if 1 <= v <= MEDIUM_MAX then Some(v) else None
      case None => None
  }

  /** What `write_prekey_counter` stores is read back, for every id and only for ids. */
  lemma CounterRoundTrip(v: nat)
    ensures ReadCounter(Some(Dec(v))) == if IsId(v) then Some(v) else None
  {
    DecRoundTrip(v);
    ParseDec(v, U32_BOUND);
    var s := Dec(v);
    assert IsDigit(s[0]) && IsDigit(s[|s| - 1]);
    assert Trim(s) == s;
  }

  predicate Blank(s: string) {
    forall i :: 0 <= i < |s| ==> IsSpace(s[i])
  }

  lemma {:induction false} TrimRemoves(before: string, text: string, after: string)
    requires Blank(before) && Blank(after) && text != [] && !IsSpace(text[0]) && !IsSpace(text[|text| - 1])
    ensures Trim(before + text + after) == text
    decreases |before| + |after|
  {
    var s := before + text + after;
    if before != [] {
      assert s[1..] == before[1..] + text + after;
      TrimRemoves(before[1..], text, after);
    } else if after != [] {
      assert s[0] == text[0] && s[|s| - 1] == after[|after| - 1];
      assert s[..|s| - 1] == before + text + after[..|after| - 1];
      TrimRemoves(before, text, after[..|after| - 1]);
    } else {
      assert s == text;
    }
  }

  /** White space around the stored number does not matter. */
  lemma CounterMayBePadded(before: string, v: nat, after: string)
    requires Blank(before) && Blank(after)
    ensures ReadCounter(Some(before + Dec(v) + after)) == ReadCounter(Some(Dec(v)))
  {
    DecRoundTrip(v);
    var s := Dec(v);
    assert IsDigit(s[0]) && IsDigit(s[|s| - 1]);
    TrimRemoves(before, s, after);
    TrimRemoves([], s, []);
    assert [] + s + [] == s;
  }

  /** Where a batch starts, and the counter text once that is decided: a text that cannot be used
      is replaced by the seed before anything else happens. */
  function Start(text: Option<string>, seed: nat): (start: nat)
    requires 1 <= seed <= 1000
    ensures IsId(start)
  {
    match ReadCounter(text)
    case Some(v) => v
    case None => seed
  }

  function Seeded(text: Option<string>, seed: nat): Option<string> {
    if ReadCounter(text).Some? then text else Some(Dec(seed))
  }

  /** Either way, the counter that is stored then reads as the start. */
  lemma SeededReads(text: Option<string>, seed: nat)
    requires 1 <= seed <= 1000
    ensures ReadCounter(Seeded(text, seed)) == Some(Start(text, seed))
  {
    CounterRoundTrip(seed);
  }

  lemma IdOfStart(start: nat)
    requires IsId(start)
    ensures IdAt(start - 1) == start
  {
  }

  // ----- what a batch leaves behind -----

  function RecordKey(id: nat): string {
    Dec(id)
  }

  function Entries(start: nat, keys: seq<Key>): seq<Entry>
    requires IsId(start)
  {
    seq(|keys|, i => if 0 <= i < |keys| then Entry(IdAt(start - 1 + i), keys[i]) else Entry(0, 0))
  }

  /** The records after filing the keys one by one under consecutive ids. */
  function Filed(dict: map<string, Key>, start: nat, keys: seq<Key>): map<string, Key>
    requires IsId(start)
  {
    if keys == [] then dict
    else Filed(dict, start, keys[..|keys| - 1])[RecordKey(IdAt(start - 1 + |keys| - 1)) := keys[|keys| - 1]]
  }

  /** In a batch of at most MEDIUM_MAX keys every one is on file under its own id. */
  lemma {:induction false} FiledHolds(dict: map<string, Key>, start: nat, keys: seq<Key>, i: nat)
    requires IsId(start) && i < |keys| <= i + MEDIUM_MAX
    ensures RecordKey(IdAt(start - 1 + i)) in Filed(dict, start, keys)
    ensures Filed(dict, start, keys)[RecordKey(IdAt(start - 1 + i))] == keys[i]
  {
    var n := |keys| - 1;
    if i < n {
      FiledHolds(dict, start, keys[..n], i);
      NearIdsDiffer(start - 1 + i, start - 1 + n);
    }
  }

  /** A batch changes no record but those of its own ids. */
  lemma {:induction false} FiledKeeps(dict: map<string, Key>, start: nat, keys: seq<Key>, key: string)
    requires IsId(start)
    requires forall i :: 0 <= i < |keys| ==> key != RecordKey(Entries(start, keys)[i].id)
    ensures key in Filed(dict, start, keys) <==> key in dict
    ensures key in dict ==> Filed(dict, start, keys)[key] == dict[key]
  {
    if keys != [] {
      var n := |keys| - 1;
      assert key != RecordKey(Entries(start, keys)[n].id);
      forall i | 0 <= i < n ensures key != RecordKey(Entries(start, keys[..n])[i].id) {
        assert Entries(start, keys[..n])[i] == Entries(start, keys)[i];
      }
      FiledKeeps(dict, start, keys[..n], key);
    }
  }

  // ----- the device -----

  datatype Outcome =
    | Skipped(serverCount: nat)
    | Replenished(uploaded: nat)
    | Failed(reason: string)

  /** A store error in the write of the seed, of the record with this index, or of the advanced
      counter. The delete that starts every write has been done by then. */
  datatype Fault = NoFault | SeedFault(error: string) | SaveFault(index: nat, error: string) | CounterFault(error: string)

  /** The fault that a batch meets: a seed is written only if the stored text cannot be used. */
  function Met(fault: Fault, count: nat, text: Option<string>): Fault {
    match fault
    case NoFault => NoFault
    case SeedFault(_) => if count > 0 && ReadCounter(text).None? then fault else NoFault
    case SaveFault(index, _) => if index < count then fault else NoFault
    case CounterFault(_) => if count > 0 then fault else NoFault
  }

  /** What a batch leaves on disk. After a failed save the counter has not moved; after a failed
      write of the counter itself it is gone, with every record filed. */
  datatype Disk = Disk(dict: map<string, Key>, counter: Option<string>)

  function BatchLeaves(disk: Disk, seed: nat, keys: seq<Key>, fault: Fault): Disk
    requires 1 <= seed <= 1000
  {
    if keys == [] then disk
    else if Met(fault, |keys|, disk.counter).SeedFault? then Disk(disk.dict, None)
    else FilingLeaves(Disk(disk.dict, Seeded(disk.counter, seed)), Start(disk.counter, seed), keys, fault)
  }

  /** The same from where the start is known. */
  function FilingLeaves(disk: Disk, start: nat, keys: seq<Key>, fault: Fault): Disk
    requires IsId(start)
  {
    match fault
    case SaveFault(index, _) =>
      if index < |keys| then
        Disk(Filed(disk.dict, start, keys[..index]) - {RecordKey(IdAt(start - 1 + index))}, disk.counter)
      else Disk(Filed(disk.dict, start, keys), Some(Dec(After(start, |keys|))))
    case CounterFault(_) => Disk(Filed(disk.dict, start, keys), None)
    case _ => Disk(Filed(disk.dict, start, keys), Some(Dec(After(start, |keys|))))
  }

  /** Where the next batch starts: past this one iff it met no fault and was not empty; at the same
      id again after a failed save; anew after a failed write of the seed or of the counter. */
  lemma NextBatchStarts(disk: Disk, seed: nat, keys: seq<Key>, fault: Fault)
    requires 1 <= seed <= 1000
    ensures var start := Start(disk.counter, seed);
            ReadCounter(BatchLeaves(disk, seed, keys, fault).counter) ==
            match Met(fault, |keys|, disk.counter)
            case NoFault => if keys == [] then ReadCounter(disk.counter) else Some(After(start, |keys|))
            case SaveFault(_, _) => Some(start)
            case _ => None
  {
    var start := Start(disk.counter, seed);
    CounterAfter(start, |keys|);
    CounterRoundTrip(After(start, |keys|));
    SeededReads(disk.counter, seed);
  }

  /** Every entry of an upload has its record, and no two share an id. */
  ghost predicate OnFile(dict: map<string, Key>, body: seq<Entry>) {
    && (forall i :: 0 <= i < |body| ==>
          IsId(body[i].id) && RecordKey(body[i].id) in dict && dict[RecordKey(body[i].id)] == body[i].key)
    && forall i, j :: 0 <= i < j < |body| ==> body[i].id != body[j].id
  }

  class Device {
    var dict: map<string, Key>
    var counter: Option<string>

    constructor ()
      ensures dict == map[] && counter == None
    {
      dict := map[];
      counter := None;
    }

    ghost function OnDisk(): Disk
      reads this
    {
      Disk(dict, counter)
    }

    method ReadOrInitCounter(seed: nat, error: Option<string>) returns (r: Result<nat, string>)
      requires 1 <= seed <= 1000
      modifies this`counter
      ensures ReadCounter(old(counter)).Some? ==> r == Ok(ReadCounter(old(counter)).value) && counter == old(counter)
      ensures ReadCounter(old(counter)).None? && error.None? ==> r == Ok(seed) && counter == Some(Dec(seed))
      ensures r.Ok? ==> ReadCounter(counter) == Some(r.value)
      ensures ReadCounter(old(counter)).None? && error.Some? ==> r == Err(error.value) && counter == None
    {
      match ReadCounter(counter) {
        case Some(v) =>
          r := Ok(v);
        case None =>
          var written := WriteCounter(seed, error);
          r := if written.Ok? then Ok(seed) else Err(written.error);
      }
    }

    /** `write_prekey_counter`: the old text is deleted first, so an error leaves none. */
    method WriteCounter(next: nat, error: Option<string>) returns (r: Result<(), string>)
      requires IsId(next)
      modifies this`counter
      ensures error.None? ==> r == Ok(()) && counter == Some(Dec(next)) && ReadCounter(counter) == Some(next)
      ensures error.Some? ==> r == Err(error.value) && counter == None
    {
      CounterRoundTrip(next);
      counter := None;
      if error.Some? {
        return Err(error.value);
      }
      counter := Some(Dec(next));
      r := Ok(());
    }

    /** `generate_one_time_prekeys`: each record is filed, then the counter moves on. `keys` is
        what the random generator gives. */
    method Generate(count: nat, seed: nat, keys: seq<Key>, fault: Fault) returns (r: Result<seq<Entry>, string>)
      requires 1 <= seed <= 1000 && |keys| == count < U32_BOUND
      modifies this
      ensures OnDisk() == BatchLeaves(old(OnDisk()), seed, keys, fault)
      ensures var met := Met(fault, count, old(counter));
              r == if met.NoFault? then Ok(Entries(Start(old(counter), seed), keys)) else Err(met.error)
    {
      if count == 0 {
        assert Entries(Start(counter, seed), keys) == [];
        return Ok([]);
      }
      var started := ReadOrInitCounter(seed, if fault.SeedFault? then Some(fault.error) else None);
      if started.Err? {
        return Err(started.error);
      }
      assert started.value == Start(old(counter), seed) && counter == Seeded(old(counter), seed);
      r := FileAndAdvance(started.value, keys, fault);
    }

    /** The rest of the generator, once it knows where to start. */
    method FileAndAdvance(start: nat, keys: seq<Key>, fault: Fault) returns (r: Result<seq<Entry>, string>)
      requires IsId(start)
      modifies this
      ensures OnDisk() == FilingLeaves(old(OnDisk()), start, keys, fault)
      ensures match fault
              case SaveFault(index, error) =>
                if index < |keys| then
                  && r == Err(error) && counter == old(counter)
                  && dict == Filed(old(dict), start, keys[..index]) - {RecordKey(IdAt(start - 1 + index))}
                else
                  && r == Ok(Entries(start, keys))
                  && dict == Filed(old(dict), start, keys) && counter == Some(Dec(After(start, |keys|)))
              case CounterFault(error) =>
                r == Err(error) && dict == Filed(old(dict), start, keys) && counter == None
              case _ =>
                && r == Ok(Entries(start, keys))
                && dict == Filed(old(dict), start, keys) && counter == Some(Dec(After(start, |keys|)))
    {
      var json, next := FileKeys(start, keys, fault);
      if fault.SaveFault? && fault.index < |keys| {
        return Err(fault.error);
      }
      var written := WriteCounter(next, if fault.CounterFault? then Some(fault.error) else None);
      r := if written.Ok? then Ok(json) else Err(written.error);
    }

    /** The generator's loop, with the store error that ends it early. */
    method FileKeys(start: nat, keys: seq<Key>, fault: Fault) returns (json: seq<Entry>, next: nat)
      requires IsId(start)
      modifies this`dict
      ensures !(fault.SaveFault? && fault.index < |keys|) ==>
                && json == Entries(start, keys) && next == After(start, |keys|) && IsId(next)
                && dict == Filed(old(dict), start, keys)
      ensures fault.SaveFault? && fault.index < |keys| ==>
                dict == Filed(old(dict), start, keys[..fault.index]) - {RecordKey(IdAt(start - 1 + fault.index))}
    {
      json := [];
      next := start;
      FilingStarts(dict, start, keys);
      for i := 0 to |keys|
        invariant Filing(old(dict), start, keys, i, dict, json, next)
        invariant fault.SaveFault? && fault.index < |keys| ==> i <= fault.index
      {
        var id := next;
        if fault.SaveFault? && fault.index == i {
          dict := dict - {RecordKey(id)};
          return;
        }
        FilingGoesOn(old(dict), start, keys, i, dict, json, next);
        next := Next(next);
        dict := dict[RecordKey(id) := keys[i]];
        json := json + [Entry(id, keys[i])];
      }
      FilingEnds(old(dict), start, keys, dict, json, next);
    }

    /** `run_replenish`. By the time of the upload its keys are on file and the counter has moved
        past them, however the upload ends. `uploads` lists the bodies sent. */
    method RunReplenish(threshold: nat, batch: nat, status: Result<nat, string>, seed: nat, keys: seq<Key>,
                        fault: Fault, put: Result<(), string>) returns (outcome: Outcome, uploads: seq<seq<Entry>>)
      requires 1 <= seed <= 1000 && |keys| == batch < U32_BOUND
      modifies this
      ensures status.Err? || status.value >= threshold ==>
                && outcome == (if status.Err? then Failed("get_keys_status: " + status.error) else Skipped(status.value))
                && uploads == [] && dict == old(dict) && counter == old(counter)
      ensures status.Ok? && status.value < threshold ==>
                var met := Met(fault, batch, old(counter));
                && OnDisk() == BatchLeaves(old(OnDisk()), seed, keys, fault)
                && uploads == (if met.NoFault? then [Entries(Start(old(counter), seed), keys)] else [])
                && outcome == (if !met.NoFault? then Failed("generate_one_time_prekeys: " + met.error)
                               else if put.Err? then Failed("put_keys: " + put.error)
                               else Replenished(batch))
      ensures |keys| <= MEDIUM_MAX ==> forall u :: 0 <= u < |uploads| ==> OnFile(dict, uploads[u])
    {
      uploads := [];
      if status.Err? {
        return Failed("get_keys_status: " + status.error), uploads;
      }
      if status.value >= threshold {
        return Skipped(status.value), uploads;
      }
      var generated := Generate(batch, seed, keys, fault);
      if generated.Err? {
        return Failed("generate_one_time_prekeys: " + generated.error), uploads;
      }
      var body := generated.value;
      uploads := [body];
      UploadIsOnFile(old(dict), Start(old(counter), seed), keys);
      if put.Err? {
        return Failed("put_keys: " + put.error), uploads;
      }
      outcome := Replenished(|body|);
    }

    /** `replenish_aci_one_time_prekeys`: below ten keys in stock, a batch of a hundred. Whatever is
        sent is on file under ids that differ from each other. */
    method ReplenishAci(status: Result<nat, string>, seed: nat, keys: seq<Key>, fault: Fault, put: Result<(), string>)
        returns (outcome: Outcome, uploads: seq<seq<Entry>>)
      requires 1 <= seed <= 1000 && |keys| == PRE_KEY_BATCH_SIZE
      modifies this
      ensures uploads != [] <==> status.Ok? && status.value < 10 && Met(fault, 100, old(counter)).NoFault?
      ensures outcome.Skipped? <==> status.Ok? && status.value >= 10
      ensures outcome == Replenished(100) <==> uploads != [] && put.Ok?
      ensures uploads != [] ==>
                |uploads| == 1 && |uploads[0]| == 100 && OnFile(dict, uploads[0])
    {
      outcome, uploads := RunReplenish(PRE_KEY_MINIMUM, PRE_KEY_BATCH_SIZE, status, seed, keys, fault, put);
    }
  }

  /** The generator's loop with `i` keys filed. */
  ghost predicate Filing(dict0: map<string, Key>, start: nat, keys: seq<Key>, i: nat,
                         dict: map<string, Key>, json: seq<Entry>, next: nat)
    requires IsId(start)
  {
    && i <= |keys| && next == IdAt(start - 1 + i)
    && json == Entries(start, keys[..i]) && dict == Filed(dict0, start, keys[..i])
  }

  lemma FilingStarts(dict0: map<string, Key>, start: nat, keys: seq<Key>)
    requires IsId(start)
    ensures Filing(dict0, start, keys, 0, dict0, [], start)
  {
  }

  lemma FilingGoesOn(dict0: map<string, Key>, start: nat, keys: seq<Key>, i: nat,
                     dict: map<string, Key>, json: seq<Entry>, next: nat)
    requires IsId(start) && i < |keys| && Filing(dict0, start, keys, i, dict, json, next)
    ensures Filing(dict0, start, keys, i + 1, dict[RecordKey(next) := keys[i]], json + [Entry(next, keys[i])], Next(next))
  {
    NextIsNextPosition(start - 1 + i);
    BatchGrows(dict0, start, keys, i);
  }

  lemma FilingEnds(dict0: map<string, Key>, start: nat, keys: seq<Key>, dict: map<string, Key>, json: seq<Entry>, next: nat)
    requires IsId(start) && Filing(dict0, start, keys, |keys|, dict, json, next)
    ensures json == Entries(start, keys) && next == After(start, |keys|) && IsId(next) && dict == Filed(dict0, start, keys)
  {
    assert keys[..|keys|] == keys;
    CounterAfter(start, |keys|);
  }

  lemma BatchGrows(dict: map<string, Key>, start: nat, keys: seq<Key>, i: nat)
    requires IsId(start) && i < |keys|
    ensures Entries(start, keys[..i + 1]) == Entries(start, keys[..i]) + [Entry(IdAt(start - 1 + i), keys[i])]
    ensures Filed(dict, start, keys[..i + 1]) == Filed(dict, start, keys[..i])[RecordKey(IdAt(start - 1 + i)) := keys[i]]
  {
    assert keys[..i + 1][..i] == keys[..i];
  }

  lemma UploadIsOnFile(dict: map<string, Key>, start: nat, keys: seq<Key>)
    requires IsId(start)
    ensures |keys| <= MEDIUM_MAX ==> OnFile(Filed(dict, start, keys), Entries(start, keys))
  {
    if |keys| <= MEDIUM_MAX {
      var d, body := Filed(dict, start, keys), Entries(start, keys);
      forall i | 0 <= i < |body| ensures IsId(body[i].id) && RecordKey(body[i].id) in d && d[RecordKey(body[i].id)] == body[i].key {
        FiledHolds(dict, start, keys, i);
      }
      forall i, j | 0 <= i < j < |body| ensures body[i].id != body[j].id {
        NearIdsDiffer(start - 1 + i, start - 1 + j);
      }
    }
  }
}
