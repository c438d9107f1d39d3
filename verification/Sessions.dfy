/** The session dictionary: records filed under the text key `{name}.{device}`. */
module Sessions {
  import opened Common
  import opened Decimal
  import Keys

  /** libsignal's `DeviceId`: a `u8` in 1..=127. */
  type DeviceId = d: nat | 1 <= d <= 127 witness 1

  /** libsignal's `ProtocolAddress`. The name may hold any characters, dots included. */
  datatype Address = Address(name: string, device: DeviceId)

  /** A session record, seen only through its remote registration id. */
  type RegistrationId = nat

  type SessionMap = map<Address, RegistrationId>

  /** `device_protocol_address`: `None` for an id that no address can carry. */
  function ToDeviceId(id: nat): Option<DeviceId> {
    if 1 <= id <= 127 then Some(id) else None
  }

  function SessionKey(a: Address): string {
    a.name + "." + Dec(a.device)
  }

  // ----- what the enumeration means: the live device ids of a name, ascending -----

  /** Every id an address can carry, ascending. */
  function AllDeviceIds(): seq<nat> {
    seq(127, i => i + 1)
  }

  predicate Live(sessions: SessionMap, name: string, id: nat) {
    1 <= id <= 127 && Address(name, id) in sessions
  }

  function LiveAmong(ids: seq<nat>, sessions: SessionMap, name: string): seq<nat> {
    if ids == [] then []
    else (if Live(sessions, name, ids[0]) then [ids[0]] else []) + LiveAmong(ids[1..], sessions, name)
  }

  function DeviceIds(sessions: SessionMap, name: string): seq<nat> {
    LiveAmong(AllDeviceIds(), sessions, name)
  }

  predicate Ascending(s: seq<nat>) {
    forall i, j :: 0 <= i < j < |s| ==> s[i] < s[j]
  }

  lemma {:induction false} LiveAmongExact(ids: seq<nat>, sessions: SessionMap, name: string)
    requires Ascending(ids)
    ensures Ascending(LiveAmong(ids, sessions, name))
    ensures forall id :: id in LiveAmong(ids, sessions, name) <==> id in ids && Live(sessions, name, id)
  {
    if ids != [] {
      LiveAmongExact(ids[1..], sessions, name);
      assert ids == [ids[0]] + ids[1..];
      var rest := LiveAmong(ids[1..], sessions, name);
      assert forall i :: 0 <= i < |rest| ==> rest[i] in rest;
    }
  }

  /** `device_ids_for(u)` is sorted, free of duplicates, and lists exactly the live devices of u. */
  lemma DeviceIdsExact(sessions: SessionMap, name: string)
    ensures Ascending(DeviceIds(sessions, name))
    ensures forall id :: id in DeviceIds(sessions, name) <==> Live(sessions, name, id)
  {
    var all := AllDeviceIds();
    LiveAmongExact(all, sessions, name);
    forall id | 1 <= id <= 127 ensures id in all {
      assert all[id - 1] == id;
    }
  }

  /** An ascending list is determined by its members. */
  lemma {:induction false} AscendingUnique(s: seq<nat>, t: seq<nat>)
    requires Ascending(s) && Ascending(t)
    requires forall x :: x in s <==> x in t
    ensures s == t
  {
    assert (s == [] || s[0] in s) && (t == [] || t[0] in t);
    if s != [] && t != [] {
      assert s[0] == t[0];
      forall x ensures x in s[1..] <==> x in t[1..] {
        assert x in s[1..] <==> x in s && x != s[0];
        assert x in t[1..] <==> x in t && x != t[0];
      }
      AscendingUnique(s[1..], t[1..]);
      assert s == [s[0]] + s[1..] && t == [t[0]] + t[1..];
    }
  }

  // ----- the key encoding -----

  lemma SessionKeyInjective(a: Address, b: Address)
    requires SessionKey(a) == SessionKey(b)
    ensures a == b
  {
    DecHasNo('.', a.device);
    DecHasNo('.', b.device);
    Keys.SplitAtLast(a.name, Dec(a.device), b.name, Dec(b.device), '.');
    DecInjective(a.device, b.device);
  }

  /** Stripping `u.` from a key leaves text that parses as a `u32` iff the key is one of u's,
      and then it parses to the device id. */
  function KeyDevice(key: string, name: string): Option<nat> {
    var prefix := name + ".";
    if prefix <= key then ParseUnsigned(key[|prefix|..], U32_BOUND) else None
  }

  lemma KeyDeviceExact(a: Address, name: string)
    ensures KeyDevice(SessionKey(a), name) == if a.name == name then Some(a.device) else None
  {
    var key, prefix := SessionKey(a), name + ".";
    DecRoundTrip(a.device);
    DecHasNo('.', a.device);
    assert prefix + Dec(a.device) == name + "." + Dec(a.device);
    if prefix <= key {
      var rest := key[|prefix|..];
      assert key == name + ['.'] + rest;
      if '.' in rest {
        var i :| 0 <= i < |rest| && rest[i] == '.';
        assert !(rest != [] && rest[0] == '+') || i > 0;
        assert ParseUnsigned(rest, U32_BOUND) == None by {
          var digits := if rest[0] == '+' then rest[1..] else rest;
          var j := if rest[0] == '+' then i - 1 else i;
          assert digits[j] == '.' && !IsDigit(digits[j]);
        }
        assert key == a.name + "." + rest ==> rest == Dec(a.device) by {
          assert (a.name + "." + rest)[|a.name| + 1..] == rest;
          assert key[|a.name| + 1..] == Dec(a.device);
        }
      } else {
        Keys.SplitAtLast(a.name, Dec(a.device), name, rest, '.');
        ParseDec(a.device, U32_BOUND);
      }
    }
  }

  // ----- the dictionary refines a map keyed by (name, device) -----

  /** `dict` holds exactly the records of `sessions`, each under its text key. */
  ghost predicate Represents(dict: map<string, RegistrationId>, sessions: SessionMap) {
    && (forall a :: a in sessions ==> SessionKey(a) in dict && dict[SessionKey(a)] == sessions[a])
    && (forall k :: k in dict ==> exists a :: a in sessions && SessionKey(a) == k)
  }

  lemma LoadRefines(dict: map<string, RegistrationId>, sessions: SessionMap, a: Address)
    requires Represents(dict, sessions)
    ensures SessionKey(a) in dict <==> a in sessions
    ensures a in sessions ==> dict[SessionKey(a)] == sessions[a]
  {
    if SessionKey(a) in dict {
      var b :| b in sessions && SessionKey(b) == SessionKey(a);
      SessionKeyInjective(a, b);
    }
  }

  lemma StoreRefines(dict: map<string, RegistrationId>, sessions: SessionMap, a: Address, r: RegistrationId)
    requires Represents(dict, sessions)
    ensures Represents(dict[SessionKey(a) := r], sessions[a := r])
  {
    var dict', sessions' := dict[SessionKey(a) := r], sessions[a := r];
    forall b | b in sessions' ensures SessionKey(b) in dict' && dict'[SessionKey(b)] == sessions'[b] {
      if SessionKey(b) == SessionKey(a) { SessionKeyInjective(a, b); }
    }
    forall k | k in dict' ensures exists b :: b in sessions' && SessionKey(b) == k {
      if k == SessionKey(a) {
        assert a in sessions';
      } else {
        var b :| b in sessions && SessionKey(b) == k;
        assert b in sessions';
      }
    }
  }

  lemma DeleteRefines(dict: map<string, RegistrationId>, sessions: SessionMap, a: Address)
    requires Represents(dict, sessions)
    ensures Represents(dict - {SessionKey(a)}, sessions - {a})
  {
    var dict', sessions' := dict - {SessionKey(a)}, sessions - {a};
    forall b | b in sessions' ensures SessionKey(b) in dict' && dict'[SessionKey(b)] == sessions'[b] {
      if SessionKey(b) == SessionKey(a) { SessionKeyInjective(a, b); }
    }
    forall k | k in dict' ensures exists b :: b in sessions' && SessionKey(b) == k {
      var b :| b in sessions && SessionKey(b) == k;
      assert b in sessions';
    }
  }

  datatype StoreOp = Save(address: Address, record: RegistrationId) | Delete(address: Address)

  function RunText(dict: map<string, RegistrationId>, ops: seq<StoreOp>): map<string, RegistrationId>
    decreases |ops|
  {
    if ops == [] then dict
    else match ops[0]
      case Save(a, r) => RunText(dict[SessionKey(a) := r], ops[1..])
      case Delete(a) => RunText(dict - {SessionKey(a)}, ops[1..])
  }

  function RunPairs(sessions: SessionMap, ops: seq<StoreOp>): SessionMap
    decreases |ops|
  {
    if ops == [] then sessions
    else match ops[0]
      case Save(a, r) => RunPairs(sessions[a := r], ops[1..])
      case Delete(a) => RunPairs(sessions - {a}, ops[1..])
  }

  /** Over every run of saves and deletes, the text-keyed dictionary behaves as a map from
      (name, device): whatever the names contain, no operation disturbs another address. */
  lemma {:induction false} TextKeysRefinePairs(dict: map<string, RegistrationId>, sessions: SessionMap, ops: seq<StoreOp>)
    requires Represents(dict, sessions)
    ensures Represents(RunText(dict, ops), RunPairs(sessions, ops))
    decreases |ops|
  {
    if ops != [] {
      match ops[0]
      case Save(a, r) =>
        StoreRefines(dict, sessions, a, r);
        TextKeysRefinePairs(dict[SessionKey(a) := r], sessions[a := r], ops[1..]);
      case Delete(a) =>
        DeleteRefines(dict, sessions, a);
        TextKeysRefinePairs(dict - {SessionKey(a)}, sessions - {a}, ops[1..]);
    }
  }

  // ----- std's `sort_unstable` and `dedup`, on values -----

  predicate Sorted(s: seq<nat>) {
    forall i, j :: 0 <= i < j < |s| ==> s[i] <= s[j]
  }

  function Insert(x: nat, s: seq<nat>): (r: seq<nat>)
    requires Sorted(s)
    ensures Sorted(r) && |r| == |s| + 1 && (forall y :: y in r <==> y == x || y in s)
  {
    if s == [] || x <= s[0] then [x] + s
    else
      var rest := Insert(x, s[1..]);
      assert s == [s[0]] + s[1..];
      assert forall i :: 0 <= i < |rest| ==> rest[i] in rest;
      [s[0]] + rest
  }

  function Sort(s: seq<nat>): (r: seq<nat>)
    ensures Sorted(r) && |r| == |s| && (forall y :: y in r <==> y in s)
  {
    if s == [] then [] else
      assert s == [s[0]] + s[1..];
      Insert(s[0], Sort(s[1..]))
  }

  function Dedup(s: seq<nat>): (r: seq<nat>)
    requires Sorted(s)
    ensures Ascending(r) && (forall x :: x in r <==> x in s)
  {
    if |s| < 2 then s
    else
      var rest := Dedup(s[1..]);
      assert s == [s[0]] + s[1..];
      if s[0] == s[1] then rest
      else
        assert forall i :: 0 <= i < |rest| ==> rest[i] in s[1..];
        [s[0]] + rest
  }

  /** `found` holds exactly the device ids that the keys name for this account. */
  ghost predicate FoundIn(found: seq<nat>, keys: set<string>, name: string) {
    forall x :: x in found <==> exists k :: k in keys && KeyDevice(k, name) == Some(x)
  }

  lemma FoundGrows(found: seq<nat>, keys: set<string>, name: string, k: string)
    requires FoundIn(found, keys, name)
    ensures var id := KeyDevice(k, name);
            FoundIn(if id.Some? then found + [id.value] else found, keys + {k}, name)
  {
    var id := KeyDevice(k, name);
    var found' := if id.Some? then found + [id.value] else found;
    forall x ensures x in found' <==> exists k' :: k' in keys + {k} && KeyDevice(k', name) == Some(x) {
      if x in found {
        var k' :| k' in keys && KeyDevice(k', name) == Some(x);
        assert k' in keys + {k};
      } else if x in found' {
        assert k in keys + {k};
      }
    }
  }

  /** `PddbSessionStore`: `sessions` is the map that the text-keyed dictionary stands for. */
  class SessionStore {
    var dict: map<string, RegistrationId>
    ghost var sessions: SessionMap

    ghost predicate Valid()
      reads this
    {
      Represents(dict, sessions)
    }

    constructor ()
      ensures Valid() && sessions == map[]
    {
      dict := map[];
      sessions := map[];
    }

    method Load(a: Address) returns (r: Option<RegistrationId>)
      requires Valid()
      ensures r == if a in sessions then Some(sessions[a]) else None
    {
      LoadRefines(dict, sessions, a);
      r := if SessionKey(a) in dict then Some(dict[SessionKey(a)]) else None;
    }

    method Save(a: Address, record: RegistrationId)
      requires Valid()
      modifies this
      ensures Valid() && sessions == old(sessions)[a := record]
    {
      StoreRefines(dict, sessions, a, record);
      dict := dict[SessionKey(a) := record];
      sessions := sessions[a := record];
    }

    method Delete(a: Address)
      requires Valid()
      modifies this
      ensures Valid() && sessions == old(sessions) - {a}
    {
      DeleteRefines(dict, sessions, a);
      dict := dict - {SessionKey(a)};
      sessions := sessions - {a};
    }

    /** Lists the keys in whatever order the dictionary gives them. */
    method DeviceIdsFor(name: string) returns (ids: seq<nat>)
      requires Valid()
      ensures ids == DeviceIds(sessions, name)
    {
      var keys := dict.Keys;
      var found: seq<nat> := [];
      while keys != {}
        invariant keys <= dict.Keys
        invariant FoundIn(found, dict.Keys - keys, name)
        decreases |keys|
      {
        var k :| k in keys;
        ghost var done := dict.Keys - keys;
        keys := keys - {k};
        assert dict.Keys - keys == done + {k};
        FoundGrows(found, done, name, k);
        var id := KeyDevice(k, name);
        if id.Some? {
          found := found + [id.value];
        }
      }
      ids := Dedup(Sort(found));
      assert dict.Keys - keys == dict.Keys;
      FoundIsExact(dict, sessions, name, found);
    }
  }

  lemma FoundIsLive(dict: map<string, RegistrationId>, sessions: SessionMap, name: string, x: nat)
    requires Represents(dict, sessions)
    ensures (exists k :: k in dict.Keys && KeyDevice(k, name) == Some(x)) <==> Live(sessions, name, x)
  {
    if k :| k in dict.Keys && KeyDevice(k, name) == Some(x) {
      var a :| a in sessions && SessionKey(a) == k;
      KeyDeviceExact(a, name);
    }
    if Live(sessions, name, x) {
      KeyDeviceExact(Address(name, x), name);
      assert SessionKey(Address(name, x)) in dict.Keys;
    }
  }

  lemma FoundIsExact(dict: map<string, RegistrationId>, sessions: SessionMap, name: string, found: seq<nat>)
    requires Represents(dict, sessions)
    requires FoundIn(found, dict.Keys, name)
    ensures Dedup(Sort(found)) == DeviceIds(sessions, name)
  {
    forall x ensures x in found <==> Live(sessions, name, x) {
      FoundIsLive(dict, sessions, name, x);
    }
    DeviceIdsExact(sessions, name);
    AscendingUnique(Dedup(Sort(found)), DeviceIds(sessions, name));
  }
}
