/** The part of the protobuf wire format that the content messages use, as prost reads and writes it. */
module Proto {
  import opened Common

  // ----- varints -----

  function Varint(n: nat): Bytes {
    if n < 128 then [n] else [n % 128 + 128] + Varint(n / 128)
  }

  /** A `u64` varint of at most `left` bytes; the tenth may only carry the top bit. */
  function ReadVarint(s: Bytes, left: nat): (r: Option<(nat, Bytes)>)
    ensures r.Some? ==> |r.value.1| < |s|
    decreases left
  {
    if left == 0 || s == [] then None
    else if left == 1 && s[0] >= 2 then None
    else if s[0] < 128 then Some((s[0], s[1..]))
    else match ReadVarint(s[1..], left - 1)
      case None => None
      case Some((v, rest)) => Some((s[0] - 128 + 128 * v, rest))
  }

  const VARINT_MAX: nat := 10

  /** The least number that does not fit in `bytes` varint bytes when the last may hold one bit. */
  function VarintBound(bytes: nat): nat {
    if bytes == 0 then 0 else if bytes == 1 then 2 else 128 * VarintBound(bytes - 1)
  }

  lemma {:induction false} VarintRoundTrip(n: nat, left: nat, rest: Bytes)
    requires n < VarintBound(left)
    ensures ReadVarint(Varint(n) + rest, left) == Some((n, rest))
    ensures |Varint(n)| <= left
    decreases left
  {
    var s := Varint(n) + rest;
    if n < 128 {
      assert s[1..] == rest;
    } else {
      assert left > 1;
      assert s[1..] == Varint(n / 128) + rest;
      VarintRoundTrip(n / 128, left - 1, rest);
    }
  }

  /** The number that base-128 digits stand for, the least significant first. */
  function Base128(b: Bytes): nat {
    if b == [] then 0 else b[0] % 128 + 128 * Base128(b[1..])
  }

  /** A varint is the number's base-128 digits, least significant first, and every byte but the last
      has its high bit set. */
  lemma {:induction false} VarintIsBase128(n: nat)
    ensures Base128(Varint(n)) == n && Varint(n) != []
    ensures forall i :: 0 <= i < |Varint(n)| ==> (Varint(n)[i] >= 128 <==> i < |Varint(n)| - 1)
  {
    if n >= 128 {
      VarintIsBase128(n / 128);
      assert Varint(n)[1..] == Varint(n / 128);
    } else {
      assert Varint(n)[1..] == [];
    }
  }

  lemma VarintBoundIsU64()
    ensures VarintBound(VARINT_MAX) == U64_BOUND
  {
    assert VarintBound(2) == 0x100;
    assert VarintBound(4) == 0x40_0000;
    assert VarintBound(6) == 0x10_0000_0000;
    assert VarintBound(8) == 0x4_0000_0000_0000;
  }

  lemma U64RoundTrip(n: nat, rest: Bytes)
    requires n < U64_BOUND
    ensures ReadVarint(Varint(n) + rest, VARINT_MAX) == Some((n, rest))
    ensures |Varint(n)| <= VARINT_MAX
  {
    VarintBoundIsU64();
    VarintRoundTrip(n, VARINT_MAX, rest);
  }

  // ----- fields -----

  datatype Payload = Number(value: nat) | Chunk(bytes: Bytes) | Fixed(bytes: Bytes)

  datatype Field = Field(tag: nat, payload: Payload)

  const WIRE_VARINT: nat := 0
  const WIRE_FIXED64: nat := 1
  const WIRE_LEN: nat := 2
  const WIRE_FIXED32: nat := 5

  function Take(s: Bytes, n: nat): Option<(Bytes, Bytes)> {
    if n <= |s| then Some((s[..n], s[n..])) else None
  }

  function ReadPayload(wire: nat, s: Bytes): (r: Option<(Payload, Bytes)>)
    ensures r.Some? ==> |r.value.1| <= |s|
  {
    if wire == WIRE_VARINT then
      match ReadVarint(s, VARINT_MAX) case None => None case Some((v, rest)) => Some((Number(v), rest))
    else if wire == WIRE_LEN then
      match ReadVarint(s, VARINT_MAX)
      case None => None
      case Some((n, rest)) => (match Take(rest, n) case None => None case Some((b, rest')) => Some((Chunk(b), rest')))
    else if wire == WIRE_FIXED64 then
      match Take(s, 8) case None => None case Some((b, rest)) => Some((Fixed(b), rest))
    else if wire == WIRE_FIXED32 then
      match Take(s, 4) case None => None case Some((b, rest)) => Some((Fixed(b), rest))
    else None
  }

  /** Every field of an encoded message, in order; `None` if it is not well formed. */
  function ReadFields(s: Bytes): Option<seq<Field>>
    decreases |s|
  {
    if s == [] then Some([])
    else match ReadVarint(s, VARINT_MAX)
      case None => None
      case Some((key, rest)) =>
        if key >= U32_BOUND || key / 8 == 0 then None
        else match ReadPayload(key % 8, rest)
          case None => None
          case Some((payload, rest')) =>
            match ReadFields(rest')
            case None => None
            case Some(fields) => Some([Field(key / 8, payload)] + fields)
  }

  predicate Writable(f: Field) {
    && 1 <= f.tag < 0x2000_0000
    && match f.payload
       case Number(v) => v < U64_BOUND
       case Chunk(b) => |b| < U64_BOUND
       case Fixed(_) => false
  }

  function WriteField(f: Field): Bytes
    requires Writable(f)
  {
    match f.payload
    case Number(v) => Varint(f.tag * 8 + WIRE_VARINT) + Varint(v)
    case Chunk(b) => Varint(f.tag * 8 + WIRE_LEN) + (Varint(|b|) + b)
  }

  predicate AllWritable(fields: seq<Field>) {
    forall i :: 0 <= i < |fields| ==> Writable(fields[i])
  }

  function WriteFields(fields: seq<Field>): Bytes
    requires AllWritable(fields)
  {
    if fields == [] then [] else WriteField(fields[0]) + WriteFields(fields[1..])
  }

  lemma ReadPayloadBack(f: Field, rest: Bytes)
    requires Writable(f)
    ensures f.payload.Number? ==> ReadPayload(WIRE_VARINT, Varint(f.payload.value) + rest) == Some((f.payload, rest))
    ensures f.payload.Chunk? ==>
              ReadPayload(WIRE_LEN, Varint(|f.payload.bytes|) + f.payload.bytes + rest) == Some((f.payload, rest))
  {
    match f.payload
    case Number(v) => U64RoundTrip(v, rest);
    case Chunk(b) =>
      U64RoundTrip(|b|, b + rest);
      assert Varint(|b|) + (b + rest) == Varint(|b|) + b + rest;
      assert (b + rest)[..|b|] == b && (b + rest)[|b|..] == rest;
  }

  lemma ReadFieldBack(f: Field, rest: Bytes)
    requires Writable(f)
    ensures WriteField(f) + rest != []
    ensures ReadFields(WriteField(f) + rest) == match ReadFields(rest) case None => None case Some(fs) => Some([f] + fs)
  {
    var wire := if f.payload.Number? then WIRE_VARINT else WIRE_LEN;
    var key := f.tag * 8 + wire;
    var body := if f.payload.Number? then Varint(f.payload.value) else Varint(|f.payload.bytes|) + f.payload.bytes;
    assert WriteField(f) + rest == Varint(key) + (body + rest);
    U64RoundTrip(key, body + rest);
    ReadPayloadBack(f, rest);
    assert key / 8 == f.tag && key % 8 == wire && key < U32_BOUND;
  }

  /** Reading undoes writing, field by field. */
  lemma {:induction false} FieldsRoundTrip(fields: seq<Field>)
    requires AllWritable(fields)
    ensures ReadFields(WriteFields(fields)) == Some(fields)
  {
    if fields != [] {
      var f, rest := fields[0], WriteFields(fields[1..]);
      FieldsRoundTrip(fields[1..]);
      ReadFieldBack(f, rest);
      assert WriteFields(fields) == WriteField(f) + rest;
      assert fields == [f] + fields[1..];
    }
  }
}
