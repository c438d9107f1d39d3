/** The Kyber pre-key dictionary: records filed under the decimal id, and beside them one mark per
    (Kyber id, EC id, base key) that has been used. */
module KyberStore {
  import opened Common
  import opened Decimal
  import Keys

  datatype Use = Use(kyber: nat, ec: nat, base: Bytes)

  type Dict = map<string, Bytes>

  // ----- unpadded URL-safe base64 (section 5 of RFC 4648) -----

  /** The six-bit alphabet: A-Z, a-z, 0-9, minus, underscore. */
  function Symbol(v: nat): char
    requires v < 64
  {
    if v < 26 then (65 + v) as char
    else if v < 52 then (97 + v - 26) as char
    else if v < 62 then (48 + v - 52) as char
    else if v == 62 then '-' else '_'
  }

  /** The four six-bit values of a full group. */
  function Sextets(b: Bytes): (v: seq<nat>)
    requires |b| >= 3
    ensures |v| == 4 && forall i :: 0 <= i < 4 ==> v[i] < 64
  {
    [b[0] / 4, b[0] % 4 * 16 + b[1] / 16, b[1] % 16 * 4 + b[2] / 64, b[2] % 64]
  }

  function Base64(b: Bytes): string {
    match |b|
    case 0 => ""
    case 1 => [Symbol(b[0] / 4), Symbol(b[0] % 4 * 16)]
    case 2 => [Symbol(b[0] / 4), Symbol(b[0] % 4 * 16 + b[1] / 16), Symbol(b[1] % 16 * 4)]
    case _ =>
      var v := Sextets(b);
      [Symbol(v[0]), Symbol(v[1]), Symbol(v[2]), Symbol(v[3])] + Base64(b[3..])
  }

  lemma SymbolInjective(v: nat, w: nat)
    requires v < 64 && w < 64 && Symbol(v) == Symbol(w)
    ensures v == w
  {
  }

  /** The length of the text tells how many bytes the last group has. */
  lemma {:induction false} Base64Length(b: Bytes)
    ensures |Base64(b)| == |b| / 3 * 4 + (if |b| % 3 == 0 then 0 else |b| % 3 + 1)
  {
    if |b| >= 3 {
      Base64Length(b[3..]);
    }
  }

  /** Two bytes are told by the three six-bit values they span, and three by four. */
  lemma GroupInjective(x: byte, y: byte, x': byte, y': byte)
    requires x / 4 == x' / 4 && x % 4 * 16 + y / 16 == x' % 4 * 16 + y' / 16 && y % 16 == y' % 16
    ensures x == x' && y == y'
  {
  }

  lemma TailInjective(y: byte, z: byte, y': byte, z': byte)
    requires y % 16 * 4 + z / 64 == y' % 16 * 4 + z' / 64 && z % 64 == z' % 64
    ensures y % 16 == y' % 16 && z == z'
  {
  }

  lemma SextetsInjective(b: Bytes, c: Bytes)
    requires |b| >= 3 && |c| >= 3 && Sextets(b) == Sextets(c)
    ensures b[..3] == c[..3]
  {
    var v, w := Sextets(b), Sextets(c);
    assert v[0] == w[0] && v[1] == w[1] && v[2] == w[2] && v[3] == w[3];
    TailInjective(b[1], b[2], c[1], c[2]);
    GroupInjective(b[0], b[1], c[0], c[1]);
  }

  lemma FirstThree(b: Bytes, c: Bytes)
    requires |b| >= 3 && |c| >= 3 && Base64(b) == Base64(c)
    ensures b[..3] == c[..3] && Base64(b[3..]) == Base64(c[3..])
  {
    var v, w, s, t := Sextets(b), Sextets(c), Base64(b), Base64(c);
    forall i | 0 <= i < 4 ensures v[i] == w[i] {
      assert s[i] == Symbol(v[i]) && t[i] == Symbol(w[i]);
      SymbolInjective(v[i], w[i]);
    }
    SextetsInjective(b, c);
    assert s[4..] == Base64(b[3..]) && t[4..] == Base64(c[3..]);
  }

  lemma {:induction false} Base64Injective(b: Bytes, c: Bytes)
    requires Base64(b) == Base64(c)
    ensures b == c
  {
    Base64Length(b);
    Base64Length(c);
    assert |b| == |c|;
    if |b| == 1 {
      SymbolInjective(b[0] / 4, c[0] / 4);
      SymbolInjective(b[0] % 4 * 16, c[0] % 4 * 16);
    } else if |b| == 2 {
      SymbolInjective(b[0] / 4, c[0] / 4);
      SymbolInjective(b[0] % 4 * 16 + b[1] / 16, c[0] % 4 * 16 + c[1] / 16);
      SymbolInjective(b[1] % 16 * 4, c[1] % 16 * 4);
      GroupInjective(b[0], b[1], c[0], c[1]);
    } else if |b| >= 3 {
      FirstThree(b, c);
      Base64Injective(b[3..], c[3..]);
      assert b == b[..3] + b[3..] && c == c[..3] + c[3..];
    }
  }

  /** The vectors of section 10 of RFC 4648 without padding, and the two characters that make the
      alphabet safe in a URL. */
  lemma Base64Vectors()
    ensures Base64([0x66]) == "Zg" && Base64([0x66, 0x6F]) == "Zm8" && Base64([0x66, 0x6F, 0x6F]) == "Zm9v"
    ensures Base64([0xFB, 0xFF]) == "-_8"
  {
    assert Base64([0x66, 0x6F, 0x6F][3..]) == "";
  }

  // ----- the two kinds of key -----

  function RecordKey(id: nat): string {
    Dec(id)
  }

  function MarkKey(u: Use): string {
    "used:" + (Dec(u.kyber) + ":" + (Dec(u.ec) + ":" + Base64(u.base)))
  }

  /** Different tuples have different marks. */
  lemma MarkKeyInjective(u: Use, v: Use)
    requires MarkKey(u) == MarkKey(v)
    ensures u == v
  {
    DecHasNo(':', u.kyber);
    DecHasNo(':', v.kyber);
    DecHasNo(':', u.ec);
    DecHasNo(':', v.ec);
    var restU, restV := Dec(u.ec) + ":" + Base64(u.base), Dec(v.ec) + ":" + Base64(v.base);
    assert MarkKey(u)[5..] == Dec(u.kyber) + ":" + restU;
    assert MarkKey(v)[5..] == Dec(v.kyber) + ":" + restV;
    Keys.SplitAtFirst(Dec(u.kyber), restU, Dec(v.kyber), restV, ':');
    Keys.SplitAtFirst(Dec(u.ec), Base64(u.base), Dec(v.ec), Base64(v.base), ':');
    DecInjective(u.kyber, v.kyber);
    DecInjective(u.ec, v.ec);
    Base64Injective(u.base, v.base);
  }

  /** No mark is a record's key. */
  lemma MarkIsNoRecord(u: Use, id: nat)
    ensures MarkKey(u) != RecordKey(id)
  {
    DecRoundTrip(id);
    assert MarkKey(u)[0] == 'u';
    assert IsDigit(RecordKey(id)[0]);
  }

  // ----- runs of the store -----

  datatype Op = Save(id: nat, record: Bytes) | MarkUsed(use: Use)

  /** A mark already there makes `mark_kyber_pre_key_used` an error. */
  predicate Accepts(dict: Dict, u: Use) {
    MarkKey(u) !in dict
  }

  function Apply(dict: Dict, op: Op): Dict {
    match op
    case Save(id, record) => dict[RecordKey(id) := record]
    case MarkUsed(u) => if Accepts(dict, u) then dict[MarkKey(u) := [1]] else dict
  }

  /** The dictionary after a run from the empty one. */
  function Run(ops: seq<Op>): Dict {
    if ops == [] then map[] else Apply(Run(ops[..|ops| - 1]), ops[|ops| - 1])
  }

  lemma RunAppend(ops: seq<Op>, op: Op)
    ensures Run(ops + [op]) == Apply(Run(ops), op)
  {
    assert (ops + [op])[..|ops|] == ops;
  }

  /** The record saved last under an id. */
  function LastSaved(ops: seq<Op>, id: nat): Option<Bytes> {
    if ops == [] then None
    else match ops[|ops| - 1]
      case Save(i, record) => if i == id then Some(record) else LastSaved(ops[..|ops| - 1], id)
      case MarkUsed(_) => LastSaved(ops[..|ops| - 1], id)
  }

  function Lookup(dict: Dict, key: string): Option<Bytes> {
    if key in dict then Some(dict[key]) else None
  }

  /** After every run, the marks are exactly the tuples the run has used. */
  lemma {:induction false} MarksAreExact(ops: seq<Op>, u: Use)
    ensures Accepts(Run(ops), u) <==> MarkUsed(u) !in ops
  {
    if ops != [] {
      var before, op := ops[..|ops| - 1], ops[|ops| - 1];
      assert ops == before + [op];
      MarksAreExact(before, u);
      match op
      case Save(id, _) => MarkIsNoRecord(u, id);
      case MarkUsed(v) => if MarkKey(v) == MarkKey(u) { MarkKeyInjective(u, v); }
    }
  }

  /** After every run, each id reads back the record saved last: no mark disturbs a record. */
  lemma {:induction false} RecordsAreExact(ops: seq<Op>, id: nat)
    ensures Lookup(Run(ops), RecordKey(id)) == LastSaved(ops, id)
  {
    if ops != [] {
      RecordsAreExact(ops[..|ops| - 1], id);
      match ops[|ops| - 1]
      case Save(i, _) => if RecordKey(i) == RecordKey(id) { DecInjective(i, id); }
      case MarkUsed(v) => MarkIsNoRecord(v, id);
    }
  }

  /** In every run a use is accepted exactly when the same tuple was not used before, so no tuple
      is accepted twice, and a second use of it is always turned down. */
  lemma AcceptedAtMostOnce(ops: seq<Op>, u: Use, i: nat, j: nat)
    requires i < j < |ops| && ops[j] == MarkUsed(u)
    requires ops[i] == MarkUsed(u)
    ensures !Accepts(Run(ops[..j]), u)
    ensures Accepts(Run(ops[..i]), u) <==> forall k :: 0 <= k < i ==> ops[k] != MarkUsed(u)
  {
    MarksAreExact(ops[..j], u);
    MarksAreExact(ops[..i], u);
    assert ops[..j][i] == MarkUsed(u);
    assert forall k :: 0 <= k < i ==> ops[..i][k] == ops[k];
  }

  /** `PddbKyberPreKeyStore`. */
  class Store {
    var dict: Dict
    ghost var history: seq<Op>

    ghost predicate Valid()
      reads this
    {
      dict == Run(history)
    }

    constructor ()
      ensures Valid() && history == []
    {
      dict := map[];
      history := [];
    }

    method Get(id: nat) returns (r: Option<Bytes>)
      requires Valid()
      ensures r == LastSaved(history, id)
    {
      RecordsAreExact(history, id);
      r := Lookup(dict, RecordKey(id));
    }

    method SaveRecord(id: nat, record: Bytes)
      requires Valid()
      modifies this
      ensures Valid() && history == old(history) + [Save(id, record)]
    {
      RunAppend(history, Save(id, record));
      dict := dict[RecordKey(id) := record];
      history := history + [Save(id, record)];
    }

    /** `ok` is false for a tuple seen before: the caller gets InvalidKyberPreKeyId. */
    method MarkKyberUsed(u: Use) returns (ok: bool)
      requires Valid()
      modifies this
      ensures Valid() && history == old(history) + [MarkUsed(u)]
      ensures ok <==> MarkUsed(u) !in old(history)
      ensures !ok ==> dict == old(dict)
    {
      MarksAreExact(history, u);
      RunAppend(history, MarkUsed(u));
      var key := MarkKey(u);
      ok := key !in dict;
      if ok {
        dict := dict[key := [1]];
      }
      history := history + [MarkUsed(u)];
    }
  }
}
