/** The conversation list's records, one JSON text per peer, and what they show after any run. */
module Peers {
  import opened Common
  import opened PeerJson

  const SNIPPET_MAX_BYTES: nat := 80
  const U32_MAX: nat := U32_BOUND - 1

  type Timestamp = n: nat | n < U64_BOUND

  type Book = map<string, string>

  // ----- snippets -----

  function Utf8Len(c: char): nat {
    if c as int < 0x80 then 1 else if c as int < 0x800 then 2 else if c as int < 0x10000 then 3 else 4
  }

  /** `str::len`: the bytes of the UTF-8 encoding. */
  function ByteLen(s: string): nat {
    if s == [] then 0 else Utf8Len(s[0]) + ByteLen(s[1..])
  }

  /** `is_char_boundary(end)` with the number of characters before it. */
  function CharsBefore(s: string, end: nat): Option<nat>
    decreases |s|
  {
    if end == 0 then Some(0)
    else if s == [] || Utf8Len(s[0]) > end then None
    else match CharsBefore(s[1..], end - Utf8Len(s[0])) case None => None case Some(k) => Some(k + 1)
  }

  /** How many characters fit in `budget` bytes. */
  function FittingChars(s: string, budget: nat): nat
    decreases |s|
  {
    if s == [] || Utf8Len(s[0]) > budget then 0 else 1 + FittingChars(s[1..], budget - Utf8Len(s[0]))
  }

  lemma {:induction false} FittingIsMaximal(s: string, budget: nat)
    ensures var k := FittingChars(s, budget);
            && k <= |s| && ByteLen(s[..k]) <= budget
            && (k < |s| ==> ByteLen(s[..k + 1]) > budget)
            && (k == |s| ==> ByteLen(s) <= budget)
    decreases |s|
  {
    var k := FittingChars(s, budget);
    if k > 0 {
      FittingIsMaximal(s[1..], budget - Utf8Len(s[0]));
      assert s[..k][1..] == s[1..][..k - 1];
      assert k < |s| ==> s[..k + 1][1..] == s[1..][..k];
    } else if s != [] {
      assert s[..1][1..] == [];
    }
  }

  function Truncate(s: string): string {
    if ByteLen(s) <= SNIPPET_MAX_BYTES then s
    else FittingIsMaximal(s, SNIPPET_MAX_BYTES); s[..FittingChars(s, SNIPPET_MAX_BYTES)] + "\U{2026}"
  }

  /** A long body is cut to the longest prefix of whole characters within 80 bytes, and marked. */
  lemma TruncateKeepsMost(s: string)
    ensures ByteLen(s) <= 80 ==> Truncate(s) == s
    ensures ByteLen(s) > 80 ==>
              exists k :: 0 <= k < |s| && Truncate(s) == s[..k] + "\U{2026}"
                && ByteLen(s[..k]) <= 80 < ByteLen(s[..k + 1])
  {
    FittingIsMaximal(s, SNIPPET_MAX_BYTES);
  }

  /** The greatest boundary at or below `end` is the one before the fitting characters. */
  lemma {:induction false} BoundaryIsFitting(s: string, end: nat)
    ensures CharsBefore(s, end).Some? ==> CharsBefore(s, end).value == FittingChars(s, end)
    ensures CharsBefore(s, end).None? ==> end > 0 && FittingChars(s, end - 1) == FittingChars(s, end)
    decreases |s|
  {
    if end > 0 && s != [] && Utf8Len(s[0]) <= end {
      BoundaryIsFitting(s[1..], end - Utf8Len(s[0]));
    }
  }

  /** `truncate_snippet`: step back from byte 80 to a character boundary. */
  method TruncateSnippet(s: string) returns (out: string)
    ensures out == Truncate(s)
  {
    if ByteLen(s) <= SNIPPET_MAX_BYTES {
      return s;
    }
    FittingIsMaximal(s, SNIPPET_MAX_BYTES);
    var end := SNIPPET_MAX_BYTES;
    while end > 0 && CharsBefore(s, end).None?
      invariant 0 <= end <= SNIPPET_MAX_BYTES
      invariant FittingChars(s, end) == FittingChars(s, SNIPPET_MAX_BYTES)
    {
      BoundaryIsFitting(s, end);
      end := end - 1;
    }
    BoundaryIsFitting(s, end);
    out := s[..CharsBefore(s, end).value] + "\U{2026}";
  }

  // ----- the operations -----

  function Read(book: Book, uuid: string): Option<PeerSummary> {
    if uuid in book then Some(FromJson(uuid, book[uuid])) else None
  }

  function ReadOrNew(book: Book, uuid: string): PeerSummary {
    match Read(book, uuid) case Some(p) => p case None => PeerSummary(uuid, uuid, 0, "", 0)
  }

  function Write(book: Book, p: PeerSummary): Book {
    book[p.uuid := ToJson(p)]
  }

  function SaturatingInc(n: nat): nat {
    if n < U32_MAX then n + 1 else U32_MAX
  }

  /** The largest `u32` that `n` can be shown as. */
  function Cap(n: nat): nat {
    if n < U32_MAX then n else U32_MAX
  }

  datatype Event =
    | Inbound(uuid: string, ts: Timestamp, body: string, focused: bool)
    | Outbound(uuid: string, ts: Timestamp, body: string)
    | Clear(uuid: string)

  function Apply(book: Book, e: Event): Book {
    match e
    case Inbound(uuid, ts, body, focused) =>
      var p := ReadOrNew(book, uuid).(lastTs := ts, lastSnippet := Truncate(body));
      Write(book, if focused then p else p.(unread := SaturatingInc(p.unread)))
    case Outbound(uuid, ts, body) =>
      Write(book, ReadOrNew(book, uuid).(lastTs := ts, lastSnippet := Truncate(body)))
    case Clear(uuid) =>
      match Read(book, uuid)
      case Some(p) => if p.unread != 0 then Write(book, p.(unread := 0)) else book
      case None => book
  }

  function Run(events: seq<Event>): Book {
    if events == [] then map[] else Apply(Run(events[..|events| - 1]), events[|events| - 1])
  }

  // ----- what a peer's record shows -----

  /** The unfocused inbound messages of a peer since its last clear. */
  function UnseenSinceClear(events: seq<Event>, uuid: string): nat {
    if events == [] then 0
    else
      var e, before := events[|events| - 1], UnseenSinceClear(events[..|events| - 1], uuid);
      if e.uuid != uuid then before
      else match e
        case Clear(_) => 0
        case Inbound(_, _, _, focused) => if focused then before else before + 1
        case Outbound(_, _, _) => before
  }

  /** The last message of a peer, either way. */
  function LastMessage(events: seq<Event>, uuid: string): Option<(nat, string)> {
    if events == [] then None
    else
      var e := events[|events| - 1];
      if e.uuid != uuid || e.Clear? then LastMessage(events[..|events| - 1], uuid) else Some((e.ts, e.body))
  }

  function Shown(events: seq<Event>, uuid: string): Option<PeerSummary> {
    match LastMessage(events, uuid)
    case None => None
    case Some((ts, body)) =>
      var n := UnseenSinceClear(events, uuid);
      Some(PeerSummary(uuid, Normal(uuid), ts, Normal(Truncate(body)), Cap(n)))
  }

  lemma NormalTwice(s: string)
    ensures Normal(Normal(s)) == Normal(s)
  {
    NormalIsClean(s);
    NormalFixesExactlyClean(Normal(s));
  }

  lemma {:induction false} NothingUnseenBeforeAMessage(events: seq<Event>, uuid: string)
    requires LastMessage(events, uuid).None?
    ensures UnseenSinceClear(events, uuid) == 0
  {
    if events != [] {
      NothingUnseenBeforeAMessage(events[..|events| - 1], uuid);
    }
  }

  /** How an event of the peer itself changes what its record shows. */
  function After(shown: Option<PeerSummary>, e: Event): Option<PeerSummary> {
    var unread := if shown.Some? then shown.value.unread else 0;
    match e
    case Inbound(uuid, ts, body, focused) =>
      Some(PeerSummary(uuid, Normal(uuid), ts, Normal(Truncate(body)), if focused then unread else SaturatingInc(unread)))
    case Outbound(uuid, ts, body) => Some(PeerSummary(uuid, Normal(uuid), ts, Normal(Truncate(body)), unread))
    case Clear(uuid) => match shown case None => None case Some(p) => Some(p.(unread := 0))
  }

  /** A record that has been through the JSON form. */
  ghost predicate Stored(uuid: string, p: PeerSummary) {
    p.Typed() && p.uuid == uuid && p.displayName == Normal(uuid) && exists b :: p.lastSnippet == Normal(b)
  }

  lemma ShownStep(before: seq<Event>, e: Event)
    ensures Shown(before + [e], e.uuid) == After(Shown(before, e.uuid), e)
  {
    assert (before + [e])[..|before|] == before;
    if LastMessage(before, e.uuid).None? {
      NothingUnseenBeforeAMessage(before, e.uuid);
    }
  }

  lemma ShownOther(before: seq<Event>, e: Event, uuid: string)
    requires e.uuid != uuid
    ensures Shown(before + [e], uuid) == Shown(before, uuid)
  {
    assert (before + [e])[..|before|] == before;
  }

  lemma ShownIsStored(events: seq<Event>, uuid: string)
    ensures Shown(events, uuid).Some? ==> Stored(uuid, Shown(events, uuid).value)
  {
    LastIsTyped(events, uuid);
  }

  lemma {:induction false} LastIsTyped(events: seq<Event>, uuid: string)
    ensures LastMessage(events, uuid).Some? ==> LastMessage(events, uuid).value.0 < U64_BOUND
  {
    if events != [] {
      LastIsTyped(events[..|events| - 1], uuid);
    }
  }

  lemma OtherPeer(book: Book, e: Event, uuid: string)
    requires e.uuid != uuid
    ensures Read(Apply(book, e), uuid) == Read(book, uuid)
  {
  }

  lemma WriteThenRead(book: Book, p: PeerSummary)
    requires p.Typed()
    ensures Read(Write(book, p), p.uuid) == Some(p.(displayName := Normal(p.displayName), lastSnippet := Normal(p.lastSnippet)))
  {
    ReadsWhatWasPrinted(p);
  }

  /** What an operation writes is what is read back, up to the escapes. */
  lemma ApplyThenRead(book: Book, e: Event)
    requires Read(book, e.uuid).Some? ==> Stored(e.uuid, Read(book, e.uuid).value)
    ensures Read(Apply(book, e), e.uuid) == After(Read(book, e.uuid), e)
  {
    NormalTwice(e.uuid);
    var p := ReadOrNew(book, e.uuid);
    match e
    case Inbound(uuid, ts, body, focused) =>
      WriteThenRead(book, p.(lastTs := ts, lastSnippet := Truncate(body), unread := if focused then p.unread else SaturatingInc(p.unread)));
    case Outbound(uuid, ts, body) =>
      WriteThenRead(book, p.(lastTs := ts, lastSnippet := Truncate(body)));
    case Clear(uuid) =>
      if uuid in book && p.unread != 0 {
        var b :| p.lastSnippet == Normal(b);
        NormalTwice(b);
        WriteThenRead(book, p.(unread := 0));
      }
  }

  /** After any run, each read and written through the JSON form, a peer's record shows its last
      message and exactly the unfocused inbound messages since its last clear, capped at the
      largest `u32`, whatever the bodies contain. */
  lemma {:induction false} RecordIsExact(events: seq<Event>, uuid: string)
    ensures Read(Run(events), uuid) == Shown(events, uuid)
  {
    if events != [] {
      var before, e := events[..|events| - 1], events[|events| - 1];
      RecordIsExact(before, uuid);
      assert events == before + [e];
      RecordStep(Run(before), before, e, uuid);
    }
  }

  lemma RecordStep(book: Book, before: seq<Event>, e: Event, uuid: string)
    requires Read(book, uuid) == Shown(before, uuid)
    ensures Read(Apply(book, e), uuid) == Shown(before + [e], uuid)
  {
    if e.uuid == uuid {
      ShownIsStored(before, uuid);
      ApplyThenRead(book, e);
      ShownStep(before, e);
    } else {
      OtherPeer(book, e, uuid);
      ShownOther(before, e, uuid);
    }
  }

  /** A peer's unread count after any run. */
  lemma UnreadIsExact(events: seq<Event>, uuid: string)
    ensures ReadOrNew(Run(events), uuid).unread == Cap(UnseenSinceClear(events, uuid))
  {
    RecordIsExact(events, uuid);
    if LastMessage(events, uuid).None? {
      NothingUnseenBeforeAMessage(events, uuid);
    }
  }

  // ----- the list -----

  predicate NewestFirst(s: seq<PeerSummary>) {
    forall i, j :: 0 <= i < j < |s| ==> s[i].lastTs >= s[j].lastTs
  }

  /** `slice::sort_by`, which is stable, on descending timestamps. */
  function InsertByTs(p: PeerSummary, s: seq<PeerSummary>): (r: seq<PeerSummary>)
    requires NewestFirst(s)
    ensures NewestFirst(r) && |r| == |s| + 1 && (forall q :: q in r <==> q == p || q in s)
  {
    if s == [] || p.lastTs >= s[0].lastTs then [p] + s
    else
      var rest := InsertByTs(p, s[1..]);
      assert s == [s[0]] + s[1..];
      assert forall i :: 0 <= i < |rest| ==> rest[i] in rest;
      [s[0]] + rest
  }

  function SortByTs(s: seq<PeerSummary>): (r: seq<PeerSummary>)
    ensures NewestFirst(r) && |r| == |s| && (forall q :: q in r <==> q in s)
  {
    if s == [] then [] else
      assert s == [s[0]] + s[1..];
      InsertByTs(s[0], SortByTs(s[1..]))
  }

  lemma {:induction false} InsertPermutes(p: PeerSummary, s: seq<PeerSummary>)
    requires NewestFirst(s)
    ensures multiset(InsertByTs(p, s)) == multiset{p} + multiset(s)
  {
    if s != [] && p.lastTs < s[0].lastTs {
      InsertPermutes(p, s[1..]);
      assert s == [s[0]] + s[1..];
    }
  }

  lemma {:induction false} SortPermutes(s: seq<PeerSummary>)
    ensures multiset(SortByTs(s)) == multiset(s)
  {
    if s != [] {
      SortPermutes(s[1..]);
      InsertPermutes(s[0], SortByTs(s[1..]));
      assert s == [s[0]] + s[1..];
    }
  }

  class PeerBook {
    var records: Book

    constructor ()
      ensures records == Run([])
    {
      records := map[];
    }

    method RecordInbound(uuid: string, ts: Timestamp, body: string, focused: bool)
      modifies this
      ensures records == Apply(old(records), Inbound(uuid, ts, body, focused))
    {
      var p := ReadOrNew(records, uuid);
      var snippet := TruncateSnippet(body);
      p := p.(lastTs := ts, lastSnippet := snippet);
      if !focused {
        p := p.(unread := SaturatingInc(p.unread));
      }
      records := Write(records, p);
    }

    method RecordOutbound(uuid: string, ts: Timestamp, body: string)
      modifies this
      ensures records == Apply(old(records), Outbound(uuid, ts, body))
    {
      var p := ReadOrNew(records, uuid);
      var snippet := TruncateSnippet(body);
      records := Write(records, p.(lastTs := ts, lastSnippet := snippet));
    }

    method ClearUnread(uuid: string)
      modifies this
      ensures records == Apply(old(records), Clear(uuid))
    {
      var p := Read(records, uuid);
      if p.Some? && p.value.unread != 0 {
        records := Write(records, p.value.(unread := 0));
      }
    }

    /** `list_sorted`: every record exactly once, newest first, however the keys are listed. */
    method ListSorted() returns (out: seq<PeerSummary>)
      ensures NewestFirst(out) && |out| == |records|
      ensures forall p :: p in out <==> p.uuid in records && p == FromJson(p.uuid, records[p.uuid])
    {
      var keys := records.Keys;
      var found: seq<PeerSummary> := [];
      while keys != {}
        invariant keys <= records.Keys && |found| + |keys| == |records.Keys|
        invariant forall p :: p in found <==> p.uuid in records.Keys - keys && p == FromJson(p.uuid, records[p.uuid])
        decreases |keys|
      {
        var k :| k in keys;
        keys := keys - {k};
        found := found + [FromJson(k, records[k])];
      }
      out := SortByTs(found);
    }
  }
}
