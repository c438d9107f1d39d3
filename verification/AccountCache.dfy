/** The account's fields in memory, mirrored on every write, against what the store reads back. */
module AccountCache {
  import opened Common
  import opened Decimal
  import opened Account

  /** A call of `Account::set` or `Account::set_new`. */
  datatype Op = SetOp(key: Key, value: Option<Bytes>) | SetNewOp(key: Key, value: Option<Bytes>)

  /** The host is not a settable key: the call is refused and the key deleted. */
  function ApplyOp(dict: Dict, op: Op): Dict {
    if op.key == HostKey then dict - {HostKey}
    else match op
      case SetOp(key, value) => Set(dict, key, value)
      case SetNewOp(key, value) => SetNew(dict, key, value)
  }

  function RunOps(dict: Dict, ops: seq<Op>): Dict {
    if ops == [] then dict else ApplyOp(RunOps(dict, ops[..|ops| - 1]), ops[|ops| - 1])
  }

  lemma RunOpsAppend(dict: Dict, ops: seq<Op>, op: Op)
    ensures RunOps(dict, ops + [op]) == ApplyOp(RunOps(dict, ops), op)
  {
    assert (ops + [op])[..|ops|] == ops;
  }

  // ----- what a run leaves in the store -----

  function LenAfter(before: nat, op: Op): nat {
    if op.key == HostKey then 0
    else match op
      case SetOp(_, value) => if value.Some? then |value.value| else 0
      case SetNewOp(_, value) => if value.Some? && |value.value| > before then |value.value| else before
  }

  /** The length stored under a key: the longest value since it was last deleted or set. */
  function Longest(dict: Dict, ops: seq<Op>, key: Key): nat {
    if ops == [] then |Old(dict, key)|
    else
      var op, before := ops[|ops| - 1], Longest(dict, ops[..|ops| - 1], key);
      if op.key == key then LenAfter(before, op) else before
  }

  lemma OpLength(dict: Dict, op: Op)
    ensures |Old(ApplyOp(dict, op), op.key)| == LenAfter(|Old(dict, op.key)|, op)
  {
  }

  lemma OtherKey(dict: Dict, op: Op, key: Key)
    requires op.key != key || (op.SetNewOp? && op.value.None? && key != HostKey)
    ensures Old(ApplyOp(dict, op), key) == Old(dict, key) && Get(ApplyOp(dict, op), key) == Get(dict, key)
  {
  }

  lemma {:induction false} LongestIsStored(dict: Dict, ops: seq<Op>, key: Key)
    ensures |Old(RunOps(dict, ops), key)| == Longest(dict, ops, key)
  {
    if ops != [] {
      var before, op := ops[..|ops| - 1], ops[|ops| - 1];
      LongestIsStored(dict, before, key);
      if op.key == key {
        OpLength(RunOps(dict, before), op);
      } else {
        OtherKey(RunOps(dict, before), op, key);
      }
    }
  }

  /** The last call that wrote or deleted the key; a `set_new` of nothing does neither. */
  function LastWrite(ops: seq<Op>, key: Key): (r: Option<Op>)
    ensures r.Some? ==> r.value.key == key
  {
    if ops == [] then None
    else
      var op := ops[|ops| - 1];
      if op.key != key || (op.SetNewOp? && op.value.None? && key != HostKey) then LastWrite(ops[..|ops| - 1], key)
      else Some(op)
  }

  /** The condition under which a written value reads back: it was `set`, or `set_new` over nothing
      longer since the last deletion, or it fills the 256-byte read. */
  predicate Intact(dict: Dict, ops: seq<Op>, op: Op, v: Bytes) {
    op.SetOp? || Longest(dict, ops, op.key) <= |v| || |v| == READ_MAX
  }

  /** How a key reads after a run, told from the last call that wrote or deleted it. */
  ghost predicate ReadsBack(dict: Dict, ops: seq<Op>, key: Key) {
    var text := Get(RunOps(dict, ops), key);
    match LastWrite(ops, key)
    case None => text == Get(dict, key)
    case Some(op) =>
      if key == HostKey || op.value.None? then text == None
      else Readable(op.value.value) ==> (text == op.value <==> Intact(dict, ops, op, op.value.value))
  }

  /** Over every run of `set` and `set_new`, on any dictionary: a key never written reads as before;
      one deleted reads as nothing; and one written reads back as exactly its last value iff that
      write was `set`, or `set_new` over nothing longer, or the value fills the read. */
  lemma {:induction false} ReadBackExactlyWhen(dict: Dict, ops: seq<Op>, key: Key)
    ensures ReadsBack(dict, ops, key)
  {
    if ops != [] {
      var before, op := ops[..|ops| - 1], ops[|ops| - 1];
      assert ops == before + [op];
      if op.key != key || (op.SetNewOp? && op.value.None? && key != HostKey) {
        ReadBackExactlyWhen(dict, before, key);
        SkipReadsBack(dict, before, op, key);
      } else {
        WriteReadsBack(dict, before, op);
      }
    }
  }

  lemma SkipReadsBack(dict: Dict, before: seq<Op>, op: Op, key: Key)
    requires ReadsBack(dict, before, key) && (op.key != key || (op.SetNewOp? && op.value.None? && key != HostKey))
    ensures ReadsBack(dict, before + [op], key)
  {
    SkipKeepsLast(dict, before, op, key);
    RunOpsAppend(dict, before, op);
    OtherKey(RunOps(dict, before), op, key);
  }

  lemma SkipKeepsLast(dict: Dict, before: seq<Op>, op: Op, key: Key)
    requires op.key != key || (op.SetNewOp? && op.value.None? && key != HostKey)
    ensures LastWrite(before + [op], key) == LastWrite(before, key)
    ensures Longest(dict, before + [op], key) == Longest(dict, before, key)
  {
    var ops := before + [op];
    assert ops[..|ops| - 1] == before;
  }

  lemma WriteReadsBack(dict: Dict, before: seq<Op>, op: Op)
    requires op.key == HostKey || op.SetOp? || op.value.Some?
    ensures ReadsBack(dict, before + [op], op.key)
  {
    var ops := before + [op];
    assert ops[..|ops| - 1] == before;
    assert LastWrite(ops, op.key) == Some(op);
    RunOpsAppend(dict, before, op);
    LongestIsStored(dict, before, op.key);
    var d := RunOps(dict, before);
    if op.key != HostKey && op.value.Some? && Readable(op.value.value) {
      if op.SetOp? {
        SetReadsBack(d, op.key, op.value, op.key);
      } else {
        SetNewReadsBackExactlyWhen(d, op.key, op.value, op.key);
      }
    }
  }

  // ----- the cache -----

  /** The in-memory field that a written key mirrors. */
  function Mirror(f: Fields, op: Op): Fields {
    match op.key
    case AciServiceId => f.(aciServiceId := op.value)
    case Password => f.(password := op.value)
    case DeviceIdKey => if op.value.Some? then f.(deviceId := U32Or0(op.value.value)) else f
    case IsMultiDevice => if op.value.Some? then f.(isMultiDevice := op.value.value == TRUE_TEXT) else f
    case Registered => if op.value.Some? then f.(registered := op.value.value == TRUE_TEXT) else f
    case _ => f
  }

  function MirrorOps(f: Fields, ops: seq<Op>): Fields {
    if ops == [] then f else Mirror(MirrorOps(f, ops[..|ops| - 1]), ops[|ops| - 1])
  }

  /** The values that the source unwraps and parses: a missing or unparsable one would panic. */
  predicate Parses(op: Op) {
    match op.key
    case DeviceIdKey => op.value.Some? && ParseUnsigned(AsText(op.value.value), U32_BOUND).Some?
    case IsMultiDevice => op.value == Some(TRUE_TEXT) || op.value == Some(FALSE_TEXT)
    case Registered => op.value == Some(TRUE_TEXT) || op.value == Some(FALSE_TEXT)
    case ServiceEnvironment => op.value == Some(Ascii("Live")) || op.value == Some(Ascii("Staging"))
    case _ => true
  }

  function LastOp(ops: seq<Op>, key: Key): (r: Option<Op>)
    ensures r.Some? ==> r.value.key == key
  {
    if ops == [] then None
    else if ops[|ops| - 1].key == key then Some(ops[|ops| - 1])
    else LastOp(ops[..|ops| - 1], key)
  }

  /** The field of a key is what the value stands for. */
  predicate Holds(f: Fields, key: Key, value: Option<Bytes>) {
    match key
    case AciServiceId => f.aciServiceId == value
    case Password => f.password == value
    case DeviceIdKey => value.Some? ==> f.deviceId == U32Or0(value.value)
    case IsMultiDevice => value.Some? ==> f.isMultiDevice == (value.value == TRUE_TEXT)
    case Registered => value.Some? ==> f.registered == (value.value == TRUE_TEXT)
    case _ => true
  }

  lemma MirrorHolds(f: Fields, op: Op, key: Key, value: Option<Bytes>)
    ensures Holds(Mirror(f, op), op.key, op.value)
    ensures op.key != key && Holds(f, key, value) ==> Holds(Mirror(f, op), key, value)
  {
  }

  /** The cache holds what it was told last. */
  lemma {:induction false} CacheHoldsLast(f: Fields, ops: seq<Op>, key: Key)
    requires LastOp(ops, key).Some?
    ensures Holds(MirrorOps(f, ops), key, LastOp(ops, key).value.value)
  {
    var before, op := ops[..|ops| - 1], ops[|ops| - 1];
    MirrorHolds(MirrorOps(f, before), op, key, LastOp(ops, key).value.value);
    if op.key != key {
      CacheHoldsLast(f, before, key);
    }
  }

  lemma MirrorOpsAppend(f: Fields, ops: seq<Op>, op: Op)
    ensures MirrorOps(f, ops + [op]) == Mirror(MirrorOps(f, ops), op)
  {
    assert (ops + [op])[..|ops|] == ops;
  }

  lemma RefusedHost(dict: Dict, f: Fields, op: Op)
    requires op.key == HostKey
    ensures Mirror(f, op) == f && ApplyOp(dict, op) == dict - {HostKey}
    ensures Set(dict, HostKey, op.value) - {HostKey} == dict - {HostKey}
    ensures SetNew(dict, HostKey, op.value) - {HostKey} == dict - {HostKey}
  {
  }

  lemma {:induction false} LastOpIsWrite(ops: seq<Op>, key: Key)
    requires LastOp(ops, key).Some? && LastOp(ops, key).value.value.Some?
    ensures LastWrite(ops, key) == LastOp(ops, key)
  {
    if ops[|ops| - 1].key != key {
      LastOpIsWrite(ops[..|ops| - 1], key);
    }
  }

  /** The text fields in memory other than the ACI id and the password. */
  const OTHER_TEXTS: set<Key> :=
    {AciIdentityPrivate, AciIdentityPublic, EncryptedDeviceName, Number, PinMasterKey, PniIdentityPrivate,
     PniIdentityPublic, PniServiceId, ProfileKey, StorageKey}

  type Texts = map<Key, Option<Bytes>>

  function MirrorText(texts: Texts, op: Op): Texts {
    if op.key in OTHER_TEXTS then texts[op.key := op.value] else texts
  }

  function MirrorTexts(texts: Texts, ops: seq<Op>): Texts {
    if ops == [] then texts else MirrorText(MirrorTexts(texts, ops[..|ops| - 1]), ops[|ops| - 1])
  }

  lemma MirrorTextsAppend(texts: Texts, ops: seq<Op>, op: Op)
    ensures MirrorTexts(texts, ops + [op]) == MirrorText(MirrorTexts(texts, ops), op)
  {
    assert (ops + [op])[..|ops|] == ops;
  }

  lemma {:induction false} TextsHoldLast(texts: Texts, ops: seq<Op>, key: Key)
    requires key in OTHER_TEXTS && LastOp(ops, key).Some?
    ensures key in MirrorTexts(texts, ops) && MirrorTexts(texts, ops)[key] == LastOp(ops, key).value.value
  {
    if ops[|ops| - 1].key != key {
      TextsHoldLast(texts, ops[..|ops| - 1], key);
    }
  }

  predicate IsText(key: Key) {
    key == AciServiceId || key == Password || key in OTHER_TEXTS
  }

  function CachedText(f: Fields, texts: Texts, key: Key): Option<Bytes>
    requires IsText(key)
  {
    if key == AciServiceId then f.aciServiceId
    else if key == Password then f.password
    else if key in texts then texts[key] else None
  }

  /** Any cached text agrees with the store after any run whose last call on it gave a readable value
      iff that value was `set`, or `set_new` over nothing longer, or it fills the read. */
  lemma TextAgreesExactlyWhen(dict: Dict, f: Fields, texts: Texts, ops: seq<Op>, key: Key)
    requires IsText(key)
    requires LastOp(ops, key).Some? && LastOp(ops, key).value.value.Some? && Readable(LastOp(ops, key).value.value.value)
    ensures var op := LastOp(ops, key).value;
            CachedText(MirrorOps(f, ops), MirrorTexts(texts, ops), key) == Get(RunOps(dict, ops), key)
            <==> Intact(dict, ops, op, op.value.value)
  {
    CacheHoldsLast(f, ops, key);
    if key in OTHER_TEXTS {
      TextsHoldLast(texts, ops, key);
    }
    LastOpIsWrite(ops, key);
    ReadBackExactlyWhen(dict, ops, key);
  }

  /** If the last call gave nothing, `set` leaves cache and store both without a text; `set_new`
      clears the cache alone, so they agree iff the calls before it had left nothing readable. */
  lemma NothingAgreesExactlyWhen(dict: Dict, f: Fields, texts: Texts, before: seq<Op>, op: Op)
    requires IsText(op.key) && op.value.None?
    ensures CachedText(MirrorOps(f, before + [op]), MirrorTexts(texts, before + [op]), op.key)
            == Get(RunOps(dict, before + [op]), op.key)
            <==> op.SetOp? || Get(RunOps(dict, before), op.key) == None
  {
    RunOpsAppend(dict, before, op);
    MirrorOpsAppend(f, before, op);
    MirrorTextsAppend(texts, before, op);
    MirrorHolds(MirrorOps(f, before), op, op.key, op.value);
  }

  /** What is stored after a `set_new` of `v` starts with `v`, and reads back longer unless intact. */
  lemma {:induction false} StoredStartsWithLast(dict: Dict, ops: seq<Op>, key: Key)
    requires key != HostKey && LastOp(ops, key).Some? && LastOp(ops, key).value.value.Some?
    ensures LastOp(ops, key).value.value.value <= Old(RunOps(dict, ops), key)
    ensures LastOp(ops, key).value.SetOp? ==> Old(RunOps(dict, ops), key) == LastOp(ops, key).value.value.value
  {
    if ops[|ops| - 1].key != key {
      StoredStartsWithLast(dict, ops[..|ops| - 1], key);
    }
  }

  /** A cached flag agrees with what is reloaded iff it is false, or "true" was `set`, or `set_new`
      over nothing longer: over a longer text "true" reloads as unparsable, that is false. */
  lemma FlagAgreesExactlyWhen(dict: Dict, f: Fields, ops: seq<Op>, key: Key)
    requires key == IsMultiDevice || key == Registered
    requires LastOp(ops, key).Some? && Parses(LastOp(ops, key).value) && Get(RunOps(dict, ops), key).Some?
    ensures var f', op := MirrorOps(f, ops), LastOp(ops, key).value;
            (if key == Registered then f'.registered else f'.isMultiDevice) == FlagOr(Get(RunOps(dict, ops), key).value, false)
            <==> op.value == Some(FALSE_TEXT) || op.SetOp? || Longest(dict, ops, key) <= |TRUE_TEXT|
  {
    CacheHoldsLast(f, ops, key);
    StoredStartsWithLast(dict, ops, key);
    LongestIsStored(dict, ops, key);
    FlagRead(Old(RunOps(dict, ops), key), LastOp(ops, key).value.value.value);
  }

  lemma FlagRead(stored: Bytes, v: Bytes)
    requires v <= stored && (v == TRUE_TEXT || v == FALSE_TEXT) && ReadOut(stored).Some?
    ensures FlagOr(ReadOut(stored).value, false) <==> v == TRUE_TEXT && |stored| <= 4
  {
    assert |TRUE_TEXT| == |"true"| == 4 && |FALSE_TEXT| == |"false"| == 5;
    if |stored| >= 5 {
      LongIsNotTrue(stored);
    }
  }

  /** A cached non-zero device id agrees with what is reloaded iff it was `set`, or `set_new` over
      nothing longer: any digit that stays behind it makes another number. */
  lemma DeviceIdAgreesExactlyWhen(dict: Dict, f: Fields, ops: seq<Op>, id: nat)
    requires 0 < id < U32_BOUND && LastOp(ops, DeviceIdKey).Some? && LastOp(ops, DeviceIdKey).value.value == Some(DecText(id))
    requires Get(RunOps(dict, ops), DeviceIdKey).Some?
    ensures MirrorOps(f, ops).deviceId == id
    ensures id == U32Or0(Get(RunOps(dict, ops), DeviceIdKey).value)
            <==> LastOp(ops, DeviceIdKey).value.SetOp? || Longest(dict, ops, DeviceIdKey) <= |DecText(id)|
  {
    DecTextReadable(id);
    CacheHoldsLast(f, ops, DeviceIdKey);
    StoredStartsWithLast(dict, ops, DeviceIdKey);
    LongestIsStored(dict, ops, DeviceIdKey);
    IdReads(Old(RunOps(dict, ops), DeviceIdKey), id);
  }

  lemma IdReads(stored: Bytes, id: nat)
    requires 0 < id < U32_BOUND && DecText(id) <= stored && ReadOut(stored).Some?
    ensures U32Or0(ReadOut(stored).value) == id <==> stored == DecText(id)
  {
    DecTextReadable(id);
    var t := ReadOut(stored).value;
    assert DecText(id) <= t;
    if stored != DecText(id) {
      assert |t| > |DecText(id)|;
      MoreDigitsMore(t, id);
    }
  }

  /** A number's digits followed by more text never parse as the number itself. */
  lemma MoreDigitsMore(t: Bytes, id: nat)
    requires id > 0 && DecText(id) <= t && |t| > |DecText(id)|
    ensures U32Or0(t) != id
  {
    var s := AsText(t);
    DecRoundTrip(id);
    DecIsAscii(id);
    assert s[..|Dec(id)|] == Dec(id) by {
      assert AsText(Ascii(Dec(id))) == Dec(id);
      assert t[..|DecText(id)|] == DecText(id);
    }
    assert s[0] == Dec(id)[0] && IsDigit(Dec(id)[0]);
    if AllDigits(s) {
      ValueOfLonger(s, |Dec(id)|);
    }
  }

  lemma {:induction false} ValueOfLonger(s: string, n: nat)
    requires AllDigits(s) && n < |s|
    ensures AllDigits(s[..n]) && Value(s) >= 10 * Value(s[..n])
  {
    var m := |s| - 1;
    assert s[..n] == s[..m][..n];
    if n < m {
      ValueOfLonger(s[..m], n);
    }
  }

  // ----- link -----

  function NewOps(writes: seq<(Key, Option<Bytes>)>): seq<Op> {
    seq(|writes|, i requires 0 <= i < |writes| => SetNewOp(writes[i].0, writes[i].1))
  }

  lemma {:induction false} WriteAllAppend(dict: Dict, writes: seq<(Key, Option<Bytes>)>, w: (Key, Option<Bytes>))
    ensures WriteAll(dict, writes + [w]) == SetNew(WriteAll(dict, writes), w.0, w.1)
    decreases |writes|
  {
    if writes != [] {
      assert (writes + [w])[1..] == writes[1..] + [w];
      WriteAllAppend(SetNew(dict, writes[0].0, writes[0].1), writes[1..], w);
    }
  }

  /** The batch of `link` is a run of `set_new`. */
  lemma {:induction false} WriteAllIsARun(dict: Dict, writes: seq<(Key, Option<Bytes>)>)
    requires forall i :: 0 <= i < |writes| ==> writes[i].0 != HostKey
    ensures RunOps(dict, NewOps(writes)) == WriteAll(dict, writes)
  {
    if writes != [] {
      var n := |writes| - 1;
      WriteAllIsARun(dict, writes[..n]);
      WriteAllAppend(dict, writes[..n], writes[n]);
      assert writes == writes[..n] + [writes[n]];
      assert NewOps(writes)[..n] == NewOps(writes[..n]);
    }
  }

  lemma {:induction false} LastOpAt(ops: seq<Op>, key: Key, n: nat)
    requires n < |ops| && ops[n].key == key && forall i :: n < i < |ops| ==> ops[i].key != key
    ensures LastOp(ops, key) == Some(ops[n])
  {
    if n < |ops| - 1 {
      LastOpAt(ops[..|ops| - 1], key, n);
    }
  }

  lemma LinkLastOp(c: Credentials, n: nat)
    requires n < LINK_WRITES
    ensures |LinkWrites(c)| == LINK_WRITES
    ensures LastOp(NewOps(LinkWrites(c)), LinkWrites(c)[n].0) == Some(SetNewOp(LinkWrites(c)[n].0, LinkWrites(c)[n].1))
  {
    LinkSteps(c);
    var ops := NewOps(LinkWrites(c));
    assert forall i :: 0 <= i < |ops| ==> Step(ops[i].key) == i;
    LastOpAt(ops, LinkWrites(c)[n].0, n);
  }

  /** Right after `link` the cache says registered and multi-device, with the linked id; reloaded
      from the same store, over any dictionary, the account says neither. */
  lemma CacheOutrunsStore(dict: Dict, host: Bytes, env: Bytes, c: Credentials, f: Fields)
    requires c.deviceId < U32_BOUND
    ensures var cached, stored := MirrorOps(f, NewOps(LinkWrites(c))), RunOps(New(dict, host, env), NewOps(LinkWrites(c)));
            && cached.registered && cached.isMultiDevice && cached.deviceId == c.deviceId && cached.IsRegistered()
            && (Read(stored).Some? ==> !Read(stored).value.registered && !Read(stored).value.isMultiDevice)
            && (Read(stored).Some? ==> Read(stored).value != cached)
  {
    LinkWritesParse(c);
    WriteAllIsARun(New(dict, host, env), LinkWrites(c));
    FlagsNeverReload(dict, host, env, c);
    LinkKey(c, f, Registered);
    LinkKey(c, f, IsMultiDevice);
    LinkKey(c, f, DeviceIdKey);
    DecTextReadable(c.deviceId);
  }

  lemma LinkKey(c: Credentials, f: Fields, key: Key)
    requires key == Registered || key == IsMultiDevice || key == DeviceIdKey
    ensures var cached := MirrorOps(f, NewOps(LinkWrites(c)));
            && (key == Registered ==> cached.registered)
            && (key == IsMultiDevice ==> cached.isMultiDevice)
            && (key == DeviceIdKey ==> cached.deviceId == U32Or0(DecText(c.deviceId)))
  {
    LinkLastOp(c, Step(key));
    CacheHoldsLast(f, NewOps(LinkWrites(c)), key);
  }

  lemma LinkWritesParse(c: Credentials)
    requires c.deviceId < U32_BOUND
    ensures forall i :: 0 <= i < |LinkWrites(c)| ==>
              LinkWrites(c)[i].0 != HostKey && Parses(SetNewOp(LinkWrites(c)[i].0, LinkWrites(c)[i].1))
  {
    DecIsAscii(c.deviceId);
    AsTextOfAscii(Dec(c.deviceId));
    ParseDec(c.deviceId, U32_BOUND);
  }

  /** `Account`, with the calls made on it since it was read. */
  class CachedAccount {
    var dict: Dict
    var fields: Fields
    var texts: Texts
    ghost const dict0: Dict
    ghost const fields0: Fields
    ghost const texts0: Texts
    ghost var history: seq<Op>

    ghost predicate Valid()
      reads this
    {
      dict == RunOps(dict0, history) && fields == MirrorOps(fields0, history) && texts == MirrorTexts(texts0, history)
    }

    constructor (dict: Dict, fields: Fields, texts: Texts)
      ensures Valid() && history == [] && dict0 == dict && fields0 == fields && texts0 == texts
    {
      this.dict, this.fields, this.texts := dict, fields, texts;
      dict0, fields0, texts0, history := dict, fields, texts, [];
    }

    /** What `set` and `set_new` have in common: the store first, then the field of the key; the host
        is not a settable key, and is dropped. */
    method Call(op: Op) returns (ok: bool)
      requires Valid()
      modifies this
      ensures Valid() && history == old(history) + [op]
      ensures ok <==> op.key != HostKey
    {
      RunOpsAppend(dict0, history, op);
      MirrorOpsAppend(fields0, history, op);
      MirrorTextsAppend(texts0, history, op);
      ok := op.key != HostKey;
      if ok {
        dict := if op.SetOp? then Set(dict, op.key, op.value) else SetNew(dict, op.key, op.value);
        fields, texts := Mirror(fields, op), MirrorText(texts, op);
      } else {
        RefusedHost(dict, fields, op);
        dict := (if op.SetOp? then Set(dict, op.key, op.value) else SetNew(dict, op.key, op.value)) - {op.key};
      }
      history := history + [op];
    }

    /** `Account::set`. */
    method SetKey(key: Key, value: Option<Bytes>) returns (ok: bool)
      requires Valid() && Parses(SetOp(key, value))
      modifies this
      ensures Valid() && history == old(history) + [SetOp(key, value)]
      ensures ok <==> key != HostKey
    {
      ok := Call(SetOp(key, value));
    }

    /** `Account::set_new`. */
    method SetNewKey(key: Key, value: Option<Bytes>) returns (ok: bool)
      requires Valid() && Parses(SetNewOp(key, value))
      modifies this
      ensures Valid() && history == old(history) + [SetNewOp(key, value)]
      ensures ok <==> key != HostKey
    {
      ok := Call(SetNewOp(key, value));
    }

    /** A batch of `set_new`, in order. */
    method SetNewAll(writes: seq<(Key, Option<Bytes>)>)
      requires Valid()
      requires forall i :: 0 <= i < |writes| ==> writes[i].0 != HostKey && Parses(SetNewOp(writes[i].0, writes[i].1))
      modifies this
      ensures Valid() && history == old(history) + NewOps(writes)
    {
      for i := 0 to |writes|
        invariant Valid() && history == old(history) + NewOps(writes)[..i]
      {
        var (key, value) := writes[i];
        var ok := SetNewKey(key, value);
        assert NewOps(writes)[..i + 1] == NewOps(writes)[..i] + [SetNewOp(key, value)];
      }
    }

    /** The persistence sequence of `link`. */
    method PersistLink(c: Credentials)
      requires Valid() && c.deviceId < U32_BOUND
      modifies this
      ensures Valid() && history == old(history) + NewOps(LinkWrites(c))
    {
      LinkWritesParse(c);
      SetNewAll(LinkWrites(c));
    }
  }
}
