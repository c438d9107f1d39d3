/** The account: fields cached over a dictionary whose writes start at the front of the old value
    and do not truncate it. */
module Account {
  import opened Common
  import opened Decimal
  import Utf8

  datatype Key =
    | AciIdentityPrivate | AciIdentityPublic | AciServiceId | DeviceIdKey | EncryptedDeviceName | HostKey
    | IsMultiDevice | Number | Password | PinMasterKey | PniIdentityPrivate | PniIdentityPublic | PniServiceId
    | ProfileKey | Registered | ServiceEnvironment | StorageKey | StoreLastReceiveTimestamp
    | StoreManifestVersion | StoreManifest | AccountEntropyPool | RegistrationIdKey | PniRegistrationId

  type Dict = map<Key, Bytes>

  const READ_MAX: nat := 256
  const DEFAULT_DEVICE_ID: nat := 1

  // ----- the dictionary -----

  /** A write at position 0: the tail of a longer old value stays. */
  function Overlay(old_: Bytes, v: Bytes): Bytes {
    if |old_| > |v| then v + old_[|v|..] else v
  }

  function Old(dict: Dict, key: Key): Bytes {
    if key in dict then dict[key] else []
  }

  /** What a read of stored bytes yields: at most 256 of them, if they are UTF-8. */
  function ReadOut(stored: Bytes): (r: Option<Bytes>)
    ensures r.Some? ==> |r.value| == if |stored| > READ_MAX then READ_MAX else |stored|
  {
    var b := if |stored| > READ_MAX then stored[..READ_MAX] else stored;
    if Utf8.Valid(b) then Some(b) else None
  }

  function Get(dict: Dict, key: Key): Option<Bytes> {
    if key in dict then ReadOut(dict[key]) else None
  }

  /** The free function `set`: the key is deleted first. */
  function Set(dict: Dict, key: Key, value: Option<Bytes>): Dict {
    match value
    case None => dict - {key}
    case Some(v) => dict[key := v]
  }

  /** The free function `set_new`: no delete, and no value means no write. */
  function SetNew(dict: Dict, key: Key, value: Option<Bytes>): Dict {
    match value
    case None => dict
    case Some(v) => dict[key := Overlay(Old(dict, key), v)]
  }

  /** A text that `Get` can return whole. */
  predicate Readable(v: Bytes) {
    |v| <= READ_MAX && Utf8.Valid(v)
  }

  /** A read gives the first 256 bytes if they are UTF-8, and nothing if they are not. */
  lemma GetIsExact(dict: Dict, key: Key, head: Bytes, tail: Bytes)
    requires key in dict && dict[key] == head + tail && (|head| == 256 || (|head| < 256 && tail == []))
    ensures Utf8.Valid(head) ==> Get(dict, key) == Some(head)
    ensures !Utf8.Valid(head) ==> Get(dict, key) == None
  {
    if |dict[key]| > 256 {
      assert dict[key][..256] == head;
    } else {
      assert tail == [] && dict[key] == head;
    }
  }

  /** After `set`, the key reads back as exactly what was set, and no other key changes. */
  lemma SetReadsBack(dict: Dict, key: Key, value: Option<Bytes>, other: Key)
    requires value.Some? ==> Readable(value.value)
    ensures Get(Set(dict, key, value), key) == value
    ensures other != key ==> Get(Set(dict, key, value), other) == Get(dict, other)
  {
  }

  /** After `set_new`, the key reads back as what was written iff nothing longer was there, or the
      value fills the read buffer; writing nothing reads back as nothing iff nothing was readable. */
  lemma SetNewReadsBackExactlyWhen(dict: Dict, key: Key, value: Option<Bytes>, other: Key)
    requires value.Some? ==> Readable(value.value)
    ensures Get(SetNew(dict, key, value), key) == value <==>
              match value
              case None => Get(dict, key) == None
              case Some(v) => |Old(dict, key)| <= |v| || |v| == 256
    ensures other != key ==> Get(SetNew(dict, key, value), other) == Get(dict, other)
  {
    if value.Some? {
      OverlayReads(Old(dict, key), value.value);
    }
  }

  lemma OverlayReads(old_: Bytes, v: Bytes)
    requires Readable(v)
    ensures ReadOut(Overlay(old_, v)) == Some(v) <==> |old_| <= |v| || |v| == READ_MAX
  {
    var b := Overlay(old_, v);
    if |old_| > |v| {
      assert |b| == |old_|;
      if |v| == READ_MAX {
        assert b[..READ_MAX] == v;
      }
    }
  }

  // ----- the account read from it -----

  function AsText(b: Bytes): string {
    seq(|b|, i requires 0 <= i < |b| => b[i] as char)
  }

  function DecText(n: nat): Bytes {
    DecIsAscii(n); Ascii(Dec(n))
  }

  lemma DecIsAscii(n: nat)
    ensures IsAscii(Dec(n))
  {
    DecRoundTrip(n);
    assert forall i :: 0 <= i < |Dec(n)| ==> IsDigit(Dec(n)[i]);
  }

  const TRUE_TEXT: Bytes := Ascii("true")
  const FALSE_TEXT: Bytes := Ascii("false")

  /** `str::parse::<bool>` and `::<u32>`, with the default that `read` uses. */
  function FlagOr(text: Bytes, default_: bool): bool {
    if text == TRUE_TEXT then true else if text == FALSE_TEXT then false else default_
  }

  function U32Or0(text: Bytes): nat {
    match ParseUnsigned(AsText(text), U32_BOUND) case None => 0 case Some(n) => n
  }

  datatype Fields = Fields(deviceId: nat, isMultiDevice: bool, registered: bool, aciServiceId: Option<Bytes>, password: Option<Bytes>)
  {
    /** A partly written link counts: the server has accepted it and the keys are usable. */
    predicate IsRegistered() {
      registered || (deviceId != 0 && aciServiceId.Some? && password.Some?)
    }

    predicate IsPrimaryDevice() {
      IsRegistered() && deviceId == DEFAULT_DEVICE_ID
    }
  }

  /** `Account::read`; `None` if a key without a default is missing or unreadable. */
  function Read(dict: Dict): Option<Fields> {
    match (Get(dict, DeviceIdKey), Get(dict, HostKey), Get(dict, IsMultiDevice), Get(dict, Registered),
           Get(dict, ServiceEnvironment), Get(dict, StoreManifestVersion))
    case (Some(id), Some(host), Some(multi), Some(registered), Some(env), Some(version)) =>
      Some(Fields(U32Or0(id), FlagOr(multi, false), FlagOr(registered, false), Get(dict, AciServiceId), Get(dict, Password)))
    case _ => None
  }

  // ----- new, then link -----

  const CLEARED: set<Key> :=
    {AciIdentityPrivate, AciIdentityPublic, AciServiceId, EncryptedDeviceName, Number, Password, PinMasterKey,
     PniIdentityPrivate, PniIdentityPublic, PniServiceId, ProfileKey, StorageKey, StoreManifest}

  function Defaults(host: Bytes, env: Bytes): seq<(Key, Option<Bytes>)> {
    [(DeviceIdKey, Some(Ascii("0"))), (HostKey, Some(host)), (IsMultiDevice, Some(FALSE_TEXT)),
     (Registered, Some(FALSE_TEXT)), (ServiceEnvironment, Some(env)),
     (StoreLastReceiveTimestamp, Some(Ascii("0"))), (StoreManifestVersion, Some(Ascii("-1")))]
  }

  /** What a successful link gives: the server's device id and the provisioned credentials. */
  datatype Credentials = Credentials(
    password: Bytes, deviceId: nat, aciPrivate: Bytes, aciPublic: Bytes, aciId: Bytes,
    pniPrivate: Bytes, pniPublic: Bytes, pniId: Bytes, encryptedName: Bytes, number: Bytes, profileKey: Bytes,
    entropyPool: Option<Bytes>, registrationId: nat, pniRegistrationId: nat)

  /** The writes of `link` in the order it makes them. */
  function LinkWrites(c: Credentials): seq<(Key, Option<Bytes>)> {
    [(Password, Some(c.password)), (DeviceIdKey, Some(DecText(c.deviceId))),
     (AciIdentityPrivate, Some(c.aciPrivate)), (AciIdentityPublic, Some(c.aciPublic)), (AciServiceId, Some(c.aciId)),
     (PniIdentityPrivate, Some(c.pniPrivate)), (PniIdentityPublic, Some(c.pniPublic)), (PniServiceId, Some(c.pniId)),
     (EncryptedDeviceName, Some(c.encryptedName)), (IsMultiDevice, Some(TRUE_TEXT)), (Number, Some(c.number)),
     (ProfileKey, Some(c.profileKey)), (AccountEntropyPool, c.entropyPool),
     (RegistrationIdKey, Some(DecText(c.registrationId))), (PniRegistrationId, Some(DecText(c.pniRegistrationId))),
     (StorageKey, None), (StoreLastReceiveTimestamp, Some(Ascii("0"))), (StoreManifestVersion, Some(Ascii("-1"))),
     (StoreManifest, None), (Registered, Some(TRUE_TEXT))]
  }

  function WriteAll(dict: Dict, writes: seq<(Key, Option<Bytes>)>): Dict
    decreases |writes|
  {
    if writes == [] then dict else WriteAll(SetNew(dict, writes[0].0, writes[0].1), writes[1..])
  }

  /** `Account::new` on whatever the dictionary held. */
  function New(dict: Dict, host: Bytes, env: Bytes): Dict {
    WriteAll(dict - CLEARED, Defaults(host, env))
  }

  /** The value a key has after some writes: the last write to it, overlaid in turn. */
  function ValueAfter(old_: Option<Bytes>, key: Key, writes: seq<(Key, Option<Bytes>)>): Option<Bytes>
    decreases |writes|
  {
    if writes == [] then old_
    else if writes[0].0 != key || writes[0].1.None? then ValueAfter(old_, key, writes[1..])
    else ValueAfter(Some(Overlay(if old_.Some? then old_.value else [], writes[0].1.value)), key, writes[1..])
  }

  function Stored(dict: Dict, key: Key): Option<Bytes> {
    if key in dict then Some(dict[key]) else None
  }

  lemma {:induction false} WriteAllKey(dict: Dict, key: Key, writes: seq<(Key, Option<Bytes>)>)
    ensures Stored(WriteAll(dict, writes), key) == ValueAfter(Stored(dict, key), key, writes)
    decreases |writes|
  {
    if writes != [] {
      WriteAllKey(SetNew(dict, writes[0].0, writes[0].1), key, writes[1..]);
    }
  }

  lemma AsTextOfAscii(s: string)
    requires IsAscii(s)
    ensures AsText(Ascii(s)) == s
  {
  }

  lemma ShortAsciiReadable(s: string)
    requires IsAscii(s) && |s| <= READ_MAX
    ensures Readable(Ascii(s))
  {
    Utf8.AsciiValid(Ascii(s));
  }

  lemma DecTextReadable(n: nat)
    requires n < U32_BOUND
    ensures Readable(DecText(n)) && 1 <= |DecText(n)| <= 10 && U32Or0(DecText(n)) == n
  {
    DecIsAscii(n);
    assert Pow10(4) == 10_000 && Pow10(7) == 10_000_000 && Pow10(10) == 10_000_000_000;
    DecLength(n, 10);
    ShortAsciiReadable(Dec(n));
    AsTextOfAscii(Dec(n));
    ParseDec(n, U32_BOUND);
  }

  // ----- one key across the writes -----

  lemma {:induction false} NotWritten(old_: Option<Bytes>, key: Key, writes: seq<(Key, Option<Bytes>)>)
    requires forall i :: 0 <= i < |writes| ==> writes[i].0 != key
    ensures ValueAfter(old_, key, writes) == old_
    decreases |writes|
  {
    if writes != [] {
      NotWritten(old_, key, writes[1..]);
    }
  }

  lemma {:induction false} WrittenOnce(old_: Option<Bytes>, key: Key, writes: seq<(Key, Option<Bytes>)>, n: nat)
    requires n < |writes| && writes[n].0 == key && writes[n].1.Some?
    requires forall i :: 0 <= i < |writes| && i != n ==> writes[i].0 != key
    ensures ValueAfter(old_, key, writes) == Some(Overlay(if old_.Some? then old_.value else [], writes[n].1.value))
    decreases |writes|
  {
    if n == 0 {
      NotWritten(Some(Overlay(if old_.Some? then old_.value else [], writes[0].1.value)), key, writes[1..]);
    } else {
      WrittenOnce(old_, key, writes[1..], n - 1);
    }
  }

  /** What `new` leaves under a key that it gives a default. */
  lemma AfterNew(dict: Dict, host: Bytes, env: Bytes, n: nat)
    requires n < 7
    ensures var (key, value) := Defaults(host, env)[n];
            Stored(New(dict, host, env), key) == Some(Overlay(Old(dict, key), value.value))
  {
    var key := Defaults(host, env)[n].0;
    WriteAllKey(dict - CLEARED, key, Defaults(host, env));
    WrittenOnce(Stored(dict - CLEARED, key), key, Defaults(host, env), n);
  }

  lemma ClearedByNew(dict: Dict, host: Bytes, env: Bytes, key: Key)
    requires key in CLEARED
    ensures Stored(New(dict, host, env), key) == None
  {
    WriteAllKey(dict - CLEARED, key, Defaults(host, env));
    NotWritten(None, key, Defaults(host, env));
  }

  const LINK_WRITES: nat := 20

  /** The step of `link` that writes a key. */
  function Step(key: Key): nat {
    match key
    case Password => 0
    case DeviceIdKey => 1
    case AciIdentityPrivate => 2
    case AciIdentityPublic => 3
    case AciServiceId => 4
    case PniIdentityPrivate => 5
    case PniIdentityPublic => 6
    case PniServiceId => 7
    case EncryptedDeviceName => 8
    case IsMultiDevice => 9
    case Number => 10
    case ProfileKey => 11
    case AccountEntropyPool => 12
    case RegistrationIdKey => 13
    case PniRegistrationId => 14
    case StorageKey => 15
    case StoreLastReceiveTimestamp => 16
    case StoreManifestVersion => 17
    case StoreManifest => 18
    case Registered => 19
    case _ => 20
  }

  lemma LinkSteps(c: Credentials)
    ensures |LinkWrites(c)| == LINK_WRITES
    ensures forall i :: 0 <= i < LINK_WRITES ==> Step(LinkWrites(c)[i].0) == i
  {
  }

  /** A key that `link` writes at step `n`, in a prefix of its writes. */
  lemma AfterPrefix(dict: Dict, c: Credentials, k: nat, n: nat)
    requires k <= LINK_WRITES && n < LINK_WRITES && |LinkWrites(c)| == LINK_WRITES && LinkWrites(c)[n].1.Some?
    ensures var (key, value) := LinkWrites(c)[n];
            Stored(WriteAll(dict, LinkWrites(c)[..k]), key)
            == if n < k then Some(Overlay(Old(dict, key), value.value)) else Stored(dict, key)
  {
    LinkSteps(c);
    StepInPrefix(dict, LinkWrites(c), k, n);
  }

  lemma StepInPrefix(dict: Dict, writes: seq<(Key, Option<Bytes>)>, k: nat, n: nat)
    requires k <= |writes| && n < |writes| && writes[n].1.Some?
    requires forall i :: 0 <= i < |writes| ==> Step(writes[i].0) == i
    ensures Stored(WriteAll(dict, writes[..k]), writes[n].0)
            == if n < k then Some(Overlay(Old(dict, writes[n].0), writes[n].1.value)) else Stored(dict, writes[n].0)
  {
    var key := writes[n].0;
    WriteAllKey(dict, key, writes[..k]);
    assert forall i :: 0 <= i < k && i != n ==> writes[..k][i].0 != key;
    if n < k {
      WrittenOnce(Stored(dict, key), key, writes[..k], n);
    } else {
      NotWritten(Stored(dict, key), key, writes[..k]);
    }
  }

  lemma NotInLink(dict: Dict, c: Credentials, k: nat, key: Key)
    requires k <= LINK_WRITES && (key == HostKey || key == ServiceEnvironment)
    ensures Stored(WriteAll(dict, LinkWrites(c)[..k]), key) == Stored(dict, key)
  {
    LinkSteps(c);
    WriteAllKey(dict, key, LinkWrites(c)[..k]);
    NotWritten(Stored(dict, key), key, LinkWrites(c)[..k]);
  }

  // ----- the registered flag -----

  lemma FixedTexts()
    ensures |TRUE_TEXT| == 4 && |FALSE_TEXT| == 5 && TRUE_TEXT[0] != FALSE_TEXT[0]
    ensures Readable(FALSE_TEXT) && Readable(Ascii("0")) && Readable(Ascii("-1")) && U32Or0(Ascii("0")) == 0
    ensures Overlay(Ascii("-1"), Ascii("-1")) == Ascii("-1")
  {
    ShortAsciiReadable("false");
    ShortAsciiReadable("0");
    ShortAsciiReadable("-1");
    AsTextOfAscii("0");
    ParseDec(0, U32_BOUND);
    assert Dec(0) == "0";
  }

  /** What is left under a flag key is at least as long as "false", so it never reads as true. */
  lemma LongIsNotTrue(text: Bytes)
    requires |text| >= 5
    ensures ReadOut(text).Some? ==> !FlagOr(ReadOut(text).value, false)
  {
    assert |TRUE_TEXT| == |"true"| == 4;
  }

  function FlagText(dict: Dict, key: Key, k: nat): Bytes {
    var base := Overlay(Old(dict, key), FALSE_TEXT);
    if Step(key) < k then Overlay(base, TRUE_TEXT) else base
  }

  lemma FlagTextIsLong(dict: Dict, key: Key, k: nat)
    ensures |FlagText(dict, key, k)| >= 5
  {
    assert |FALSE_TEXT| == |"false"| == 5 && |TRUE_TEXT| == |"true"| == 4;
  }

  /** A flag key after `new` over any dictionary and a prefix of `link`: the default, then "true"
      laid over it once step `n` is in the prefix. */
  lemma FlagAfter(dict: Dict, host: Bytes, env: Bytes, c: Credentials, k: nat, key: Key)
    requires (key == IsMultiDevice || key == Registered) && k <= LINK_WRITES
    ensures Stored(WriteAll(New(dict, host, env), LinkWrites(c)[..k]), key) == Some(FlagText(dict, key, k))
  {
    LinkSteps(c);
    AfterNew(dict, host, env, if key == IsMultiDevice then 2 else 3);
    AfterPrefix(New(dict, host, env), c, k, Step(key));
  }

  /** Whatever the dictionary held before `new`, after `link` the stored flags never reload as true. */
  lemma FlagsNeverReload(dict: Dict, host: Bytes, env: Bytes, c: Credentials)
    ensures var d := WriteAll(New(dict, host, env), LinkWrites(c));
            Read(d).Some? ==> !Read(d).value.registered && !Read(d).value.isMultiDevice
  {
    FlagNeverReloads(dict, host, env, c, Registered);
    FlagNeverReloads(dict, host, env, c, IsMultiDevice);
  }

  lemma FlagNeverReloads(dict: Dict, host: Bytes, env: Bytes, c: Credentials, key: Key)
    requires key == IsMultiDevice || key == Registered
    ensures var text := Get(WriteAll(New(dict, host, env), LinkWrites(c)), key);
            text.Some? ==> !FlagOr(text.value, false)
  {
    LinkSteps(c);
    assert LinkWrites(c)[..LINK_WRITES] == LinkWrites(c);
    FlagAfter(dict, host, env, c, LINK_WRITES, key);
    FlagTextIsLong(dict, key, LINK_WRITES);
    LongIsNotTrue(FlagText(dict, key, LINK_WRITES));
  }

  /** A number key: the default, then the linked value over it. */
  lemma NumberAfter(dict: Dict, host: Bytes, env: Bytes, c: Credentials, k: nat, key: Key)
    requires (key == DeviceIdKey || key == StoreManifestVersion) && k <= LINK_WRITES
    ensures var base := Overlay(Old(dict, key), if key == DeviceIdKey then Ascii("0") else Ascii("-1"));
            Stored(WriteAll(New(dict, host, env), LinkWrites(c)[..k]), key)
            == Some(if Step(key) < k then Overlay(base, if key == DeviceIdKey then DecText(c.deviceId) else Ascii("-1")) else base)
  {
    LinkSteps(c);
    AfterNew(dict, host, env, if key == DeviceIdKey then 0 else 6);
    AfterPrefix(New(dict, host, env), c, k, Step(key));
  }

  lemma OverlayShorter(v: Bytes, w: Bytes)
    requires |v| <= |w|
    ensures Overlay(v, w) == w
  {
  }

  // ----- every durable prefix of link's writes -----

  /** What the dictionary holds after `new`, over whatever was there, and the first `k` writes of `link`. */
  function AfterLink(dict: Dict, host: Bytes, env: Bytes, c: Credentials, k: nat): Dict
    requires k <= LINK_WRITES
  {
    LinkSteps(c);
    WriteAll(New(dict, host, env), LinkWrites(c)[..k])
  }

  /** The device id's text then: "0" laid over the old text, and the linked id over both. */
  function IdText(dict: Dict, c: Credentials, k: nat): Bytes {
    var base := Overlay(Old(dict, DeviceIdKey), Ascii("0"));
    if k >= 2 then Overlay(base, DecText(c.deviceId)) else base
  }

  function VersionText(dict: Dict): Bytes {
    Overlay(Old(dict, StoreManifestVersion), Ascii("-1"))
  }

  /** The six texts without which no account can be read all read out. */
  predicate AllRead(dict: Dict, host: Bytes, env: Bytes, c: Credentials, k: nat) {
    && ReadOut(IdText(dict, c, k)).Some?
    && ReadOut(Overlay(Old(dict, HostKey), host)).Some?
    && ReadOut(FlagText(dict, IsMultiDevice, k)).Some?
    && ReadOut(FlagText(dict, Registered, k)).Some?
    && ReadOut(Overlay(Old(dict, ServiceEnvironment), env)).Some?
    && ReadOut(VersionText(dict)).Some?
  }

  /** The number a stored text reads as. */
  function IdRead(text: Bytes): nat {
    match ReadOut(text) case Some(t) => U32Or0(t) case None => 0
  }

  lemma GetCredentials(dict: Dict, host: Bytes, env: Bytes, c: Credentials, k: nat)
    requires k <= LINK_WRITES
    ensures var d := AfterLink(dict, host, env, c, k);
            && Get(d, Password) == (if k >= 1 then ReadOut(c.password) else None)
            && Get(d, AciServiceId) == (if k >= 5 then ReadOut(c.aciId) else None)
  {
    var made := New(dict, host, env);
    LinkSteps(c);
    ClearedByNew(dict, host, env, Password);
    ClearedByNew(dict, host, env, AciServiceId);
    AfterPrefix(made, c, k, 0);
    AfterPrefix(made, c, k, 4);
  }

  lemma GetNames(dict: Dict, host: Bytes, env: Bytes, c: Credentials, k: nat)
    requires k <= LINK_WRITES
    ensures var d := AfterLink(dict, host, env, c, k);
            && Get(d, HostKey) == ReadOut(Overlay(Old(dict, HostKey), host))
            && Get(d, ServiceEnvironment) == ReadOut(Overlay(Old(dict, ServiceEnvironment), env))
  {
    var made := New(dict, host, env);
    AfterNew(dict, host, env, 1);
    AfterNew(dict, host, env, 4);
    NotInLink(made, c, k, HostKey);
    NotInLink(made, c, k, ServiceEnvironment);
  }

  lemma GetNumbers(dict: Dict, host: Bytes, env: Bytes, c: Credentials, k: nat)
    requires k <= LINK_WRITES
    ensures var d := AfterLink(dict, host, env, c, k);
            Get(d, DeviceIdKey) == ReadOut(IdText(dict, c, k)) && Get(d, StoreManifestVersion) == ReadOut(VersionText(dict))
  {
    NumberAfter(dict, host, env, c, k, DeviceIdKey);
    NumberAfter(dict, host, env, c, k, StoreManifestVersion);
    OverlayAgain(Old(dict, StoreManifestVersion), Ascii("-1"));
  }

  lemma OverlayAgain(old_: Bytes, v: Bytes)
    ensures Overlay(Overlay(old_, v), v) == Overlay(old_, v)
  {
  }

  lemma GetFlag(dict: Dict, host: Bytes, env: Bytes, c: Credentials, k: nat, key: Key)
    requires k <= LINK_WRITES && (key == IsMultiDevice || key == Registered)
    ensures var text := Get(AfterLink(dict, host, env, c, k), key);
            text == ReadOut(FlagText(dict, key, k)) && (text.Some? ==> !FlagOr(text.value, false))
  {
    FlagAfter(dict, host, env, c, k, key);
    FlagTextIsLong(dict, key, k);
    LongIsNotTrue(FlagText(dict, key, k));
  }

  /** Reload after any durable prefix of link's writes, over any dictionary: there is an account iff
      each of the six needed texts reads out; its fields are those in the prefix as they read out,
      and both flags are false. */
  lemma ReloadAfterPrefix(dict: Dict, host: Bytes, env: Bytes, c: Credentials, k: nat)
    requires k <= LINK_WRITES
    ensures Read(AfterLink(dict, host, env, c, k)) ==
            if AllRead(dict, host, env, c, k) then
              Some(Fields(IdRead(IdText(dict, c, k)), false, false, if k >= 5 then ReadOut(c.aciId) else None,
                          if k >= 1 then ReadOut(c.password) else None))
            else None
  {
    GetCredentials(dict, host, env, c, k);
    GetNames(dict, host, env, c, k);
    GetNumbers(dict, host, env, c, k);
    GetFlag(dict, host, env, c, k, IsMultiDevice);
    GetFlag(dict, host, env, c, k, Registered);
    ReadParts(AfterLink(dict, host, env, c, k));
  }

  lemma ReadParts(d: Dict)
    ensures Read(d).Some? <==> Get(d, DeviceIdKey).Some? && Get(d, HostKey).Some? && Get(d, IsMultiDevice).Some?
                               && Get(d, Registered).Some? && Get(d, ServiceEnvironment).Some? && Get(d, StoreManifestVersion).Some?
    ensures Read(d).Some? ==>
              Read(d).value == Fields(U32Or0(Get(d, DeviceIdKey).value), FlagOr(Get(d, IsMultiDevice).value, false),
                                      FlagOr(Get(d, Registered).value, false), Get(d, AciServiceId), Get(d, Password))
  {
  }

  /** So the reloaded account counts as registered iff the password and the ACI id are in the prefix
      and readable, and what the device id's text reads as is not zero. */
  lemma RegisteredAfterPrefix(dict: Dict, host: Bytes, env: Bytes, c: Credentials, k: nat)
    requires k <= LINK_WRITES && Read(AfterLink(dict, host, env, c, k)).Some?
    ensures var a, id := Read(AfterLink(dict, host, env, c, k)).value, IdRead(IdText(dict, c, k));
            && !a.registered && !a.isMultiDevice
            && (a.IsRegistered() <==> k >= 5 && id != 0 && ReadOut(c.password).Some? && ReadOut(c.aciId).Some?)
            && (a.IsPrimaryDevice() <==> a.IsRegistered() && id == 1)
  {
    ReloadAfterPrefix(dict, host, env, c, k);
  }

  // ----- which credential is under which key -----

  /** A key that `new` cleared and `link` writes at step `n`. */
  lemma CredentialAt(dict: Dict, host: Bytes, env: Bytes, c: Credentials, k: nat, n: nat, key: Key, value: Bytes)
    requires k <= LINK_WRITES && n < LINK_WRITES && key in CLEARED
    requires |LinkWrites(c)| == LINK_WRITES && LinkWrites(c)[n] == (key, Some(value))
    ensures Get(AfterLink(dict, host, env, c, k), key) == if k > n then ReadOut(value) else None
  {
    ClearedByNew(dict, host, env, key);
    AfterPrefix(New(dict, host, env), c, k, n);
    OverlayShorter([], value);
  }

  /** After every durable prefix of link's writes, over any dictionary, the ACI's keys and id read out
      under their own keys, each from its own step on and not before. */
  lemma AciUnderItsKeys(dict: Dict, host: Bytes, env: Bytes, c: Credentials, k: nat)
    requires k <= LINK_WRITES
    ensures var d := AfterLink(dict, host, env, c, k);
            && Get(d, AciIdentityPrivate) == (if k > 2 then ReadOut(c.aciPrivate) else None)
            && Get(d, AciIdentityPublic) == (if k > 3 then ReadOut(c.aciPublic) else None)
            && Get(d, AciServiceId) == (if k > 4 then ReadOut(c.aciId) else None)
  {
    LinkSteps(c);
    CredentialAt(dict, host, env, c, k, 2, AciIdentityPrivate, c.aciPrivate);
    CredentialAt(dict, host, env, c, k, 3, AciIdentityPublic, c.aciPublic);
    CredentialAt(dict, host, env, c, k, 4, AciServiceId, c.aciId);
  }

  /** The same for the PNI. */
  lemma PniUnderItsKeys(dict: Dict, host: Bytes, env: Bytes, c: Credentials, k: nat)
    requires k <= LINK_WRITES
    ensures var d := AfterLink(dict, host, env, c, k);
            && Get(d, PniIdentityPrivate) == (if k > 5 then ReadOut(c.pniPrivate) else None)
            && Get(d, PniIdentityPublic) == (if k > 6 then ReadOut(c.pniPublic) else None)
            && Get(d, PniServiceId) == (if k > 7 then ReadOut(c.pniId) else None)
  {
    LinkSteps(c);
    CredentialAt(dict, host, env, c, k, 5, PniIdentityPrivate, c.pniPrivate);
    CredentialAt(dict, host, env, c, k, 6, PniIdentityPublic, c.pniPublic);
    CredentialAt(dict, host, env, c, k, 7, PniServiceId, c.pniId);
  }

  /** The same for the password, the device name, the number and the profile key. */
  lemma DeviceTextsUnderTheirKeys(dict: Dict, host: Bytes, env: Bytes, c: Credentials, k: nat)
    requires k <= LINK_WRITES
    ensures var d := AfterLink(dict, host, env, c, k);
            && Get(d, Password) == (if k > 0 then ReadOut(c.password) else None)
            && Get(d, EncryptedDeviceName) == (if k > 8 then ReadOut(c.encryptedName) else None)
            && Get(d, Number) == (if k > 10 then ReadOut(c.number) else None)
            && Get(d, ProfileKey) == (if k > 11 then ReadOut(c.profileKey) else None)
  {
    LinkSteps(c);
    CredentialAt(dict, host, env, c, k, 0, Password, c.password);
    CredentialAt(dict, host, env, c, k, 8, EncryptedDeviceName, c.encryptedName);
    CredentialAt(dict, host, env, c, k, 10, Number, c.number);
    CredentialAt(dict, host, env, c, k, 11, ProfileKey, c.profileKey);
  }

  lemma UntouchedByNew(dict: Dict, host: Bytes, env: Bytes, key: Key)
    requires key == AccountEntropyPool || key == RegistrationIdKey || key == PniRegistrationId
    ensures Stored(New(dict, host, env), key) == Stored(dict, key)
  {
    WriteAllKey(dict - CLEARED, key, Defaults(host, env));
    NotWritten(Stored(dict, key), key, Defaults(host, env));
  }

  /** The two registration ids and the entropy pool, which `new` does not clear: laid over whatever
      was there. */
  lemma RegistrationIdsUnderTheirKeys(dict: Dict, host: Bytes, env: Bytes, c: Credentials, k: nat)
    requires k <= LINK_WRITES
    ensures var d := AfterLink(dict, host, env, c, k);
            && Get(d, RegistrationIdKey) ==
                 (if k > 13 then ReadOut(Overlay(Old(dict, RegistrationIdKey), DecText(c.registrationId))) else Get(dict, RegistrationIdKey))
            && Get(d, PniRegistrationId) ==
                 (if k > 14 then ReadOut(Overlay(Old(dict, PniRegistrationId), DecText(c.pniRegistrationId))) else Get(dict, PniRegistrationId))
  {
    var made := New(dict, host, env);
    LinkSteps(c);
    UntouchedByNew(dict, host, env, RegistrationIdKey);
    UntouchedByNew(dict, host, env, PniRegistrationId);
    AfterPrefix(made, c, k, 13);
    AfterPrefix(made, c, k, 14);
  }

  lemma EntropyPoolUnderItsKey(dict: Dict, host: Bytes, env: Bytes, c: Credentials, k: nat)
    requires k <= LINK_WRITES
    ensures Get(AfterLink(dict, host, env, c, k), AccountEntropyPool) ==
            if k > 12 && c.entropyPool.Some? then ReadOut(Overlay(Old(dict, AccountEntropyPool), c.entropyPool.value))
            else Get(dict, AccountEntropyPool)
  {
    var made := New(dict, host, env);
    LinkSteps(c);
    UntouchedByNew(dict, host, env, AccountEntropyPool);
    if c.entropyPool.Some? {
      AfterPrefix(made, c, k, 12);
    } else {
      WriteAllKey(made, AccountEntropyPool, LinkWrites(c)[..k]);
      NothingWritten(Stored(made, AccountEntropyPool), AccountEntropyPool, LinkWrites(c)[..k]);
    }
  }

  lemma {:induction false} NothingWritten(old_: Option<Bytes>, key: Key, writes: seq<(Key, Option<Bytes>)>)
    requires forall i :: 0 <= i < |writes| ==> writes[i].0 != key || writes[i].1.None?
    ensures ValueAfter(old_, key, writes) == old_
    decreases |writes|
  {
    if writes != [] {
      NothingWritten(old_, key, writes[1..]);
    }
  }

  /** What `new` clears and `link` gives no value stays gone. */
  lemma ClearedForGood(dict: Dict, host: Bytes, env: Bytes, c: Credentials, k: nat, key: Key)
    requires k <= LINK_WRITES && (key == PinMasterKey || key == StorageKey || key == StoreManifest)
    ensures Get(AfterLink(dict, host, env, c, k), key) == None
  {
    var made := New(dict, host, env);
    LinkSteps(c);
    ClearedByNew(dict, host, env, key);
    WriteAllKey(made, key, LinkWrites(c)[..k]);
    NothingWritten(None, key, LinkWrites(c)[..k]);
  }

  // ----- over a dictionary without leftovers -----

  /** A dictionary in which `new` finds none of the keys it gives a default. */
  predicate Fresh(dict: Dict) {
    && DeviceIdKey !in dict && HostKey !in dict && IsMultiDevice !in dict && Registered !in dict
    && ServiceEnvironment !in dict && StoreManifestVersion !in dict
  }

  predicate Usable(host: Bytes, env: Bytes, c: Credentials) {
    Readable(host) && Readable(env) && Readable(c.password) && Readable(c.aciId) && c.deviceId < U32_BOUND
  }

  lemma ReadsWhole(v: Bytes)
    requires Readable(v)
    ensures ReadOut(v) == Some(v)
  {
  }

  lemma FreshId(dict: Dict, c: Credentials, k: nat)
    requires DeviceIdKey !in dict && c.deviceId < U32_BOUND
    ensures ReadOut(IdText(dict, c, k)).Some? && IdRead(IdText(dict, c, k)) == if k >= 2 then c.deviceId else 0
  {
    FixedTexts();
    DecTextReadable(c.deviceId);
    OverlayShorter([], Ascii("0"));
    OverlayShorter(Ascii("0"), DecText(c.deviceId));
    ReadsWhole(Ascii("0"));
    ReadsWhole(DecText(c.deviceId));
  }

  lemma FreshFlag(dict: Dict, key: Key, k: nat)
    requires key !in dict
    ensures ReadOut(FlagText(dict, key, k)).Some?
  {
    OverlayShorter([], FALSE_TEXT);
    TrueOverFalseReads();
    FixedTexts();
    ReadsWhole(FALSE_TEXT);
    ReadsWhole(Ascii("truee"));
  }

  lemma TrueOverFalseReads()
    ensures Overlay(FALSE_TEXT, TRUE_TEXT) == Ascii("truee") && Readable(Ascii("truee"))
  {
    ShortAsciiReadable("truee");
  }

  lemma FreshNames(dict: Dict, host: Bytes, env: Bytes)
    requires Fresh(dict) && Readable(host) && Readable(env)
    ensures ReadOut(Overlay(Old(dict, HostKey), host)).Some? && ReadOut(Overlay(Old(dict, ServiceEnvironment), env)).Some?
    ensures ReadOut(VersionText(dict)).Some?
  {
    OverlayShorter([], host);
    OverlayShorter([], env);
    OverlayShorter([], Ascii("-1"));
    FixedTexts();
    ReadsWhole(host);
    ReadsWhole(env);
    ReadsWhole(Ascii("-1"));
  }

  /** Without leftovers: there always is an account, with the fields of the prefix, and it counts as
      registered iff the password, a non-zero device id and the ACI id are all in the prefix. */
  lemma ReloadWhenFresh(dict: Dict, host: Bytes, env: Bytes, c: Credentials, k: nat)
    requires Fresh(dict) && Usable(host, env, c) && k <= LINK_WRITES
    ensures var a := Read(AfterLink(dict, host, env, c, k));
            && a == Some(Fields(if k >= 2 then c.deviceId else 0, false, false,
                                if k >= 5 then Some(c.aciId) else None, if k >= 1 then Some(c.password) else None))
            && (a.value.IsRegistered() <==> k >= 5 && c.deviceId != 0)
            && (a.value.IsPrimaryDevice() <==> k >= 5 && c.deviceId == DEFAULT_DEVICE_ID)
  {
    ReloadAfterPrefix(dict, host, env, c, k);
    FreshId(dict, c, k);
    FreshFlag(dict, IsMultiDevice, k);
    FreshFlag(dict, Registered, k);
    FreshNames(dict, host, env);
    ReadsWhole(c.password);
    ReadsWhole(c.aciId);
  }

  // ----- the device id over an old dictionary -----

  /** After `new` and `link` over any dictionary, the device id reloads as the one linked iff the
      id stored before `new` was no longer than it: `new` writes "0" without deleting. */
  lemma DeviceIdReloadsExactlyWhen(dict: Dict, host: Bytes, env: Bytes, c: Credentials)
    requires c.deviceId < U32_BOUND
    ensures Get(WriteAll(New(dict, host, env), LinkWrites(c)), DeviceIdKey) == Some(DecText(c.deviceId))
            <==> |Old(dict, DeviceIdKey)| <= |DecText(c.deviceId)|
  {
    LinkSteps(c);
    assert LinkWrites(c)[..LINK_WRITES] == LinkWrites(c);
    NumberAfter(dict, host, env, c, LINK_WRITES, DeviceIdKey);
    DecTextReadable(c.deviceId);
    OverlayReads(Overlay(Old(dict, DeviceIdKey), Ascii("0")), DecText(c.deviceId));
  }

  /** For instance, an account re-created over device id 12 and linked as device 3 reloads as 32. */
  lemma StaleDigitSurvives(host: Bytes, env: Bytes, c: Credentials)
    requires c.deviceId == 3
    ensures var d := WriteAll(New(map[DeviceIdKey := Ascii("12")], host, env), LinkWrites(c));
            Get(d, DeviceIdKey) == Some(Ascii("32")) && U32Or0(Ascii("32")) == 32
  {
    var dict := map[DeviceIdKey := Ascii("12")];
    LinkSteps(c);
    assert LinkWrites(c)[..LINK_WRITES] == LinkWrites(c);
    NumberAfter(dict, host, env, c, LINK_WRITES, DeviceIdKey);
    TextsOfTwelve();
    ThirtyTwo();
  }

  lemma TextsOfTwelve()
    ensures Overlay(Overlay(Ascii("12"), Ascii("0")), DecText(3)) == Ascii("32")
  {
    assert Overlay(Ascii("12"), Ascii("0")) == Ascii("02");
    assert Dec(3) == "3";
    assert Overlay(Ascii("02"), DecText(3)) == Ascii("32");
  }

  lemma ThirtyTwo()
    ensures U32Or0(Ascii("32")) == 32 && ReadOut(Ascii("32")) == Some(Ascii("32"))
  {
    assert Dec(3) == "3" && Dec(32) == Dec(3) + "2" == "32";
    ShortAsciiReadable("32");
    AsTextOfAscii("32");
    ParseDec(32, U32_BOUND);
  }
}
