/** The content of a message from the sender's encoder to the receiver's delivery. */
module Content {
  import opened Common
  import Utf8
  import opened Proto
  import opened Padding

  datatype DataMessage = DataMessage(body: Option<Bytes>, timestamp: Option<nat>)

  datatype SentMessage = SentMessage(destination: Option<Bytes>, timestamp: Option<nat>, message: Option<DataMessage>)

  datatype SyncMessage = SyncMessage(sent: Option<SentMessage>)

  datatype ContentMessage = ContentMessage(data: Option<DataMessage>, sync: Option<SyncMessage>)

  const NO_DATA: DataMessage := DataMessage(None, None)
  const NO_SENT: SentMessage := SentMessage(None, None, None)
  const NO_SYNC: SyncMessage := SyncMessage(None)
  const NO_CONTENT: ContentMessage := ContentMessage(None, None)

  // ----- the receiver's decoder: unknown tags are skipped, a known tag must have its type -----

  function MergeData(m: DataMessage, f: Field): Option<DataMessage> {
    if f.tag == 1 then
      if f.payload.Chunk? && Utf8.Valid(f.payload.bytes) then Some(m.(body := Some(f.payload.bytes))) else None
    else if f.tag == 7 then
      if f.payload.Number? then Some(m.(timestamp := Some(f.payload.value))) else None
    else Some(m)
  }

  function DecodeDataFields(m: DataMessage, fields: seq<Field>): Option<DataMessage>
    decreases |fields|
  {
    if fields == [] then Some(m)
    else match MergeData(m, fields[0]) case None => None case Some(n) => DecodeDataFields(n, fields[1..])
  }

  function DecodeData(m: DataMessage, b: Bytes): Option<DataMessage> {
    match ReadFields(b) case None => None case Some(fields) => DecodeDataFields(m, fields)
  }

  /** The receiver reads the destination from tag 1. */
  function MergeSent(m: SentMessage, f: Field): Option<SentMessage> {
    if f.tag == 1 then
      if f.payload.Chunk? && Utf8.Valid(f.payload.bytes) then Some(m.(destination := Some(f.payload.bytes))) else None
    else if f.tag == 2 then
      if f.payload.Number? then Some(m.(timestamp := Some(f.payload.value))) else None
    else if f.tag == 3 then
      if !f.payload.Chunk? then None
      else match DecodeData(if m.message.Some? then m.message.value else NO_DATA, f.payload.bytes)
        case None => None
        case Some(d) => Some(m.(message := Some(d)))
    else Some(m)
  }

  function DecodeSentFields(m: SentMessage, fields: seq<Field>): Option<SentMessage>
    decreases |fields|
  {
    if fields == [] then Some(m)
    else match MergeSent(m, fields[0]) case None => None case Some(n) => DecodeSentFields(n, fields[1..])
  }

  function DecodeSent(m: SentMessage, b: Bytes): Option<SentMessage> {
    match ReadFields(b) case None => None case Some(fields) => DecodeSentFields(m, fields)
  }

  function MergeSync(m: SyncMessage, f: Field): Option<SyncMessage> {
    if f.tag == 1 then
      if !f.payload.Chunk? then None
      else match DecodeSent(if m.sent.Some? then m.sent.value else NO_SENT, f.payload.bytes)
        case None => None
        case Some(s) => Some(m.(sent := Some(s)))
    else Some(m)
  }

  function DecodeSyncFields(m: SyncMessage, fields: seq<Field>): Option<SyncMessage>
    decreases |fields|
  {
    if fields == [] then Some(m)
    else match MergeSync(m, fields[0]) case None => None case Some(n) => DecodeSyncFields(n, fields[1..])
  }

  function DecodeSync(m: SyncMessage, b: Bytes): Option<SyncMessage> {
    match ReadFields(b) case None => None case Some(fields) => DecodeSyncFields(m, fields)
  }

  function MergeContent(m: ContentMessage, f: Field): Option<ContentMessage> {
    if f.tag == 1 then
      if !f.payload.Chunk? then None
      else match DecodeData(if m.data.Some? then m.data.value else NO_DATA, f.payload.bytes)
        case None => None
        case Some(d) => Some(m.(data := Some(d)))
    else if f.tag == 2 then
      if !f.payload.Chunk? then None
      else match DecodeSync(if m.sync.Some? then m.sync.value else NO_SYNC, f.payload.bytes)
        case None => None
        case Some(s) => Some(m.(sync := Some(s)))
    else Some(m)
  }

  function DecodeContentFields(m: ContentMessage, fields: seq<Field>): Option<ContentMessage>
    decreases |fields|
  {
    if fields == [] then Some(m)
    else match MergeContent(m, fields[0]) case None => None case Some(n) => DecodeContentFields(n, fields[1..])
  }

  function DecodeContent(b: Bytes): Option<ContentMessage> {
    match ReadFields(b) case None => None case Some(fields) => DecodeContentFields(NO_CONTENT, fields)
  }

  // ----- the sender's encoder -----

  /** What the sender is given: a UTF-8 body and recipient, a `u64` timestamp, and sizes that a
      Rust allocation can have. */
  ghost predicate Sendable(recipient: Bytes, body: Bytes, timestamp: nat) {
    && Utf8.Valid(recipient) && Utf8.Valid(body) && timestamp < U64_BOUND
    && |recipient| + |body| < 0x4000_0000_0000_0000
  }

  function DataFields(body: Bytes, timestamp: nat): seq<Field> {
    [Field(1, Chunk(body)), Field(7, Number(timestamp))]
  }

  /** `SyncMessage.Sent`, with the destination under `destinationTag`. */
  function SentFields(recipient: Bytes, body: Bytes, timestamp: nat, destinationTag: nat): seq<Field>
    requires AllWritable(DataFields(body, timestamp))
  {
    [Field(2, Number(timestamp)), Field(3, Chunk(WriteFields(DataFields(body, timestamp)))), Field(destinationTag, Chunk(recipient))]
  }

  /** `build_padded_data_message_content`, before padding. */
  function DataContent(body: Bytes, timestamp: nat): Bytes
    requires AllWritable(DataFields(body, timestamp))
    requires AllWritable([Field(1, Chunk(WriteFields(DataFields(body, timestamp))))])
  {
    WriteFields([Field(1, Chunk(WriteFields(DataFields(body, timestamp))))])
  }

  predicate TranscriptFits(recipient: Bytes, body: Bytes, timestamp: nat, destinationTag: nat) {
    && AllWritable(DataFields(body, timestamp))
    && AllWritable(SentFields(recipient, body, timestamp, destinationTag))
    && var sent := WriteFields(SentFields(recipient, body, timestamp, destinationTag));
       && AllWritable([Field(1, Chunk(sent))])
       && AllWritable([Field(2, Chunk(WriteFields([Field(1, Chunk(sent))])))])
  }

  /** `build_padded_sync_transcript_content`, before padding. */
  function TranscriptContent(recipient: Bytes, body: Bytes, timestamp: nat, destinationTag: nat): Bytes
    requires TranscriptFits(recipient, body, timestamp, destinationTag)
  {
    var sent := WriteFields(SentFields(recipient, body, timestamp, destinationTag));
    WriteFields([Field(2, Chunk(WriteFields([Field(1, Chunk(sent))])))])
  }

  /** The sender writes the destination under tag 7 (`destinationServiceId`). */
  const SENDER_DESTINATION_TAG: nat := 7

  lemma WriteOne(f: Field)
    requires Writable(f)
    ensures WriteFields([f]) == WriteField(f)
    ensures |WriteField(f)| <= 20 + if f.payload.Chunk? then |f.payload.bytes| else 0
  {
    assert WriteFields([f]) == WriteField(f) + WriteFields([f][1..]);
    U64RoundTrip(f.tag * 8 + WIRE_VARINT, []);
    U64RoundTrip(f.tag * 8 + WIRE_LEN, []);
    match f.payload
    case Number(v) => U64RoundTrip(v, []);
    case Chunk(b) => U64RoundTrip(|b|, []);
  }

  lemma DataFits(body: Bytes, timestamp: nat)
    requires timestamp < U64_BOUND && |body| < 0x4000_0000_0000_0000
    ensures AllWritable(DataFields(body, timestamp))
    ensures |WriteFields(DataFields(body, timestamp))| <= |body| + 40
    ensures AllWritable([Field(1, Chunk(WriteFields(DataFields(body, timestamp))))])
  {
    var fields := DataFields(body, timestamp);
    WriteOne(fields[0]);
    WriteOne(fields[1]);
    assert fields[1..] == [fields[1]];
  }

  lemma SentFits(recipient: Bytes, body: Bytes, timestamp: nat, tag: nat)
    requires Sendable(recipient, body, timestamp) && 1 <= tag < 16
    ensures TranscriptFits(recipient, body, timestamp, tag)
  {
    DataFits(body, timestamp);
    var fields := SentFields(recipient, body, timestamp, tag);
    WriteOne(fields[0]);
    WriteOne(fields[1]);
    WriteOne(fields[2]);
    assert fields[1..] == [fields[1], fields[2]] && fields[1..][1..] == [fields[2]];
    assert WriteFields(fields) == WriteField(fields[0]) + (WriteField(fields[1]) + WriteField(fields[2]));
    var sent := WriteFields(fields);
    WriteOne(Field(1, Chunk(sent)));
  }

  // ----- on the wire -----

  /** A field with its key byte: the tag times eight, plus 0 for a number and 2 for bytes. */
  lemma FieldBytes(f: Field)
    requires Writable(f) && f.tag < 16
    ensures f.payload.Number? ==> WriteField(f) == [f.tag * 8] + Varint(f.payload.value)
    ensures f.payload.Chunk? ==> WriteField(f) == [f.tag * 8 + 2] + Varint(|f.payload.bytes|) + f.payload.bytes
  {
  }

  /** A data message: the body under tag 1 and the timestamp under tag 7. */
  lemma DataBytes(body: Bytes, timestamp: nat)
    requires timestamp < U64_BOUND && |body| < 0x4000_0000_0000_0000
    ensures AllWritable(DataFields(body, timestamp))
    ensures WriteFields(DataFields(body, timestamp)) == [0x0A] + Varint(|body|) + body + ([0x38] + Varint(timestamp))
  {
    DataFits(body, timestamp);
    var fields := DataFields(body, timestamp);
    assert fields[1..] == [fields[1]];
    WriteOne(fields[1]);
    FieldBytes(fields[0]);
    FieldBytes(fields[1]);
  }

  /** A data content: the data message under tag 1. */
  lemma DataContentBytes(body: Bytes, timestamp: nat)
    requires timestamp < U64_BOUND && |body| < 0x4000_0000_0000_0000
    ensures AllWritable(DataFields(body, timestamp))
    ensures AllWritable([Field(1, Chunk(WriteFields(DataFields(body, timestamp))))])
    ensures var dm := [0x0A] + Varint(|body|) + body + ([0x38] + Varint(timestamp));
            DataContent(body, timestamp) == [0x0A] + Varint(|dm|) + dm
  {
    DataFits(body, timestamp);
    DataBytes(body, timestamp);
    var f := Field(1, Chunk(WriteFields(DataFields(body, timestamp))));
    WriteOne(f);
    FieldBytes(f);
  }

  /** A transcript: the timestamp under tag 2, the data message under 3 and the destination under 7,
      as the Sent of tag 1 of the sync message of tag 2. */
  lemma TranscriptBytes(recipient: Bytes, body: Bytes, timestamp: nat)
    requires Sendable(recipient, body, timestamp)
    ensures TranscriptFits(recipient, body, timestamp, SENDER_DESTINATION_TAG)
    ensures var dm := [0x0A] + Varint(|body|) + body + ([0x38] + Varint(timestamp));
            var sent := [0x10] + Varint(timestamp) + ([0x1A] + Varint(|dm|) + dm + ([0x3A] + Varint(|recipient|) + recipient));
            var sync := [0x0A] + Varint(|sent|) + sent;
            TranscriptContent(recipient, body, timestamp, SENDER_DESTINATION_TAG) == [0x12] + Varint(|sync|) + sync
  {
    SentFits(recipient, body, timestamp, SENDER_DESTINATION_TAG);
    SentBytes(recipient, body, timestamp);
    var sent := WriteFields(SentFields(recipient, body, timestamp, SENDER_DESTINATION_TAG));
    var inner := [Field(1, Chunk(sent))];
    assert Writable(inner[0]);
    OneChunk(1, sent);
    var outer := [Field(2, Chunk(WriteFields(inner)))];
    assert Writable(outer[0]);
    OneChunk(2, WriteFields(inner));
  }

  lemma OneChunk(tag: nat, b: Bytes)
    requires Writable(Field(tag, Chunk(b))) && tag < 16
    ensures AllWritable([Field(tag, Chunk(b))])
    ensures WriteFields([Field(tag, Chunk(b))]) == [tag * 8 + 2] + Varint(|b|) + b
  {
    WriteOne(Field(tag, Chunk(b)));
    FieldBytes(Field(tag, Chunk(b)));
  }

  lemma SentBytes(recipient: Bytes, body: Bytes, timestamp: nat)
    requires Sendable(recipient, body, timestamp)
    ensures TranscriptFits(recipient, body, timestamp, SENDER_DESTINATION_TAG)
    ensures var dm := [0x0A] + Varint(|body|) + body + ([0x38] + Varint(timestamp));
            WriteFields(SentFields(recipient, body, timestamp, SENDER_DESTINATION_TAG))
            == [0x10] + Varint(timestamp) + ([0x1A] + Varint(|dm|) + dm + ([0x3A] + Varint(|recipient|) + recipient))
  {
    SentFits(recipient, body, timestamp, SENDER_DESTINATION_TAG);
    DataBytes(body, timestamp);
    var fields := SentFields(recipient, body, timestamp, SENDER_DESTINATION_TAG);
    assert fields[1..] == [fields[1], fields[2]] && fields[1..][1..] == [fields[2]];
    WriteOne(fields[2]);
    assert WriteFields(fields) == WriteField(fields[0]) + (WriteField(fields[1]) + WriteField(fields[2]));
    FieldBytes(fields[0]);
    FieldBytes(fields[1]);
    FieldBytes(fields[2]);
  }

  // ----- the chain -----

  lemma DecodeDataBack(body: Bytes, timestamp: nat)
    requires Utf8.Valid(body) && timestamp < U64_BOUND && |body| < 0x4000_0000_0000_0000
    ensures AllWritable(DataFields(body, timestamp))
    ensures DecodeData(NO_DATA, WriteFields(DataFields(body, timestamp))) == Some(DataMessage(Some(body), Some(timestamp)))
  {
    DataFits(body, timestamp);
    var fields := DataFields(body, timestamp);
    FieldsRoundTrip(fields);
    var one := DataMessage(Some(body), None);
    assert fields[1..][1..] == [];
    assert DecodeDataFields(one, fields[1..]) == DecodeDataFields(DataMessage(Some(body), Some(timestamp)), fields[1..][1..]);
  }

  /** Encode, pad, strip, decode gives the data message back, for every body and timestamp, in a
      plaintext of the least multiple of 160 bytes above the encoding. */
  lemma DataChain(body: Bytes, timestamp: nat)
    requires Sendable([], body, timestamp)
    ensures AllWritable(DataFields(body, timestamp))
    ensures AllWritable([Field(1, Chunk(WriteFields(DataFields(body, timestamp))))])
    ensures DecodeContent(Strip(Pad(DataContent(body, timestamp))))
         == Some(ContentMessage(Some(DataMessage(Some(body), Some(timestamp))), None))
    ensures |Pad(DataContent(body, timestamp))| == PaddedLen(|DataContent(body, timestamp)|)
  {
    DataFits(body, timestamp);
    DecodeDataBack(body, timestamp);
    var fields := [Field(1, Chunk(WriteFields(DataFields(body, timestamp))))];
    FieldsRoundTrip(fields);
    StripUndoesPad(DataContent(body, timestamp));
    assert fields[1..] == [];
    assert DecodeContentFields(NO_CONTENT, fields)
        == DecodeContentFields(ContentMessage(Some(DataMessage(Some(body), Some(timestamp))), None), fields[1..]);
  }

  /** The receiver's view of `Sent` when the destination was written under `tag`. */
  function SentSeen(recipient: Bytes, body: Bytes, timestamp: nat, tag: nat): SentMessage {
    SentMessage(if tag == 1 then Some(recipient) else None, Some(timestamp), Some(DataMessage(Some(body), Some(timestamp))))
  }

  lemma DecodeSentBack(recipient: Bytes, body: Bytes, timestamp: nat, tag: nat)
    requires Sendable(recipient, body, timestamp) && 1 <= tag < 16 && tag != 2 && tag != 3
    ensures TranscriptFits(recipient, body, timestamp, tag)
    ensures DecodeSent(NO_SENT, WriteFields(SentFields(recipient, body, timestamp, tag)))
         == Some(SentSeen(recipient, body, timestamp, tag))
  {
    SentFits(recipient, body, timestamp, tag);
    DecodeDataBack(body, timestamp);
    var fields := SentFields(recipient, body, timestamp, tag);
    FieldsRoundTrip(fields);
    var one := SentMessage(None, Some(timestamp), None);
    var two := SentMessage(None, Some(timestamp), Some(DataMessage(Some(body), Some(timestamp))));
    assert fields[1..][0] == fields[1] && fields[1..][1..][0] == fields[2] && fields[1..][1..][1..] == [];
    assert DecodeSentFields(NO_SENT, fields) == DecodeSentFields(one, fields[1..]);
    assert DecodeSentFields(one, fields[1..]) == DecodeSentFields(two, fields[1..][1..]);
    assert DecodeSentFields(two, fields[1..][1..])
        == DecodeSentFields(SentSeen(recipient, body, timestamp, tag), fields[1..][1..][1..]);
  }

  /** The transcript chain keeps the body and both timestamps; the destination survives exactly
      when it was written under the tag the receiver reads. */
  lemma TranscriptChain(recipient: Bytes, body: Bytes, timestamp: nat, tag: nat)
    requires Sendable(recipient, body, timestamp) && 1 <= tag < 16 && tag != 2 && tag != 3
    ensures TranscriptFits(recipient, body, timestamp, tag)
    ensures DecodeContent(Strip(Pad(TranscriptContent(recipient, body, timestamp, tag))))
         == Some(ContentMessage(None, Some(SyncMessage(Some(SentSeen(recipient, body, timestamp, tag))))))
  {
    DecodeSentBack(recipient, body, timestamp, tag);
    var sent := WriteFields(SentFields(recipient, body, timestamp, tag));
    var syncFields := [Field(1, Chunk(sent))];
    var fields := [Field(2, Chunk(WriteFields(syncFields)))];
    FieldsRoundTrip(syncFields);
    FieldsRoundTrip(fields);
    StripUndoesPad(TranscriptContent(recipient, body, timestamp, tag));
    var sync := SyncMessage(Some(SentSeen(recipient, body, timestamp, tag)));
    assert syncFields[1..] == [] && fields[1..] == [];
    assert DecodeSyncFields(NO_SYNC, syncFields) == DecodeSyncFields(sync, syncFields[1..]);
    assert DecodeContentFields(NO_CONTENT, fields) == DecodeContentFields(ContentMessage(None, Some(sync)), fields[1..]);
  }

  /** A text that is not UTF-8, or a known tag with the wrong type, makes the whole message unreadable. */
  lemma BadFieldsAreRejected(f: Field, m: DataMessage)
    requires Writable(f)
    requires (f.tag == 1 && (!f.payload.Chunk? || !Utf8.Valid(f.payload.bytes))) || (f.tag == 7 && !f.payload.Number?)
    ensures DecodeData(m, WriteFields([f])) == None
  {
    FieldsRoundTrip([f]);
    assert DecodeDataFields(m, [f]) == None;
  }

  // ----- delivery -----

  /** What becomes of a sync message: nothing, a crash of the receive worker, or an entry in the
      destination's conversation. */
  datatype Delivery = Dropped | Panics | Delivered(destination: Bytes, timestamp: nat, body: Bytes)

  /** `&dest[..dest.len().min(8)]` on a well-formed string: byte 8, if there is one, must start a
      character. */
  predicate SliceOk(destination: Bytes) {
    |destination| <= 8 || !Utf8.Tail(destination[8])
  }

  /** `deliver_sync_message`. The author label is cut from the destination before anything is
      recorded or posted. */
  function DeliverSync(sync: SyncMessage, serverTs: nat): Delivery {
    if sync.sent.None? || sync.sent.value.message.None? then Dropped
    else
      var sent := sync.sent.value;
      var dm := sent.message.value;
      var destination := if sent.destination.Some? then sent.destination.value else [];
      var body := if dm.body.Some? then dm.body.value else [];
      var timestamp := if dm.timestamp.Some? then dm.timestamp.value
                       else if sent.timestamp.Some? then sent.timestamp.value else serverTs;
      if body == [] || destination == [] then Dropped
      else if !SliceOk(destination) then Panics
      else Delivered(destination, timestamp, body)
  }

  /** Whatever sync message is delivered: its entry has the inner message's body and own timestamp; the
      transcript's, and then the server's, stand in only where that is missing. */
  lemma DeliveredEntry(sync: SyncMessage, serverTs: nat)
    requires DeliverSync(sync, serverTs).Delivered?
    ensures sync.sent.Some? && sync.sent.value.message.Some?
    ensures var entry, sent, dm := DeliverSync(sync, serverTs), sync.sent.value, sync.sent.value.message.value;
            && dm.body == Some(entry.body) && entry.body != []
            && sent.destination == Some(entry.destination) && entry.destination != []
            && (dm.timestamp == Some(entry.timestamp)
                || (dm.timestamp.None? && sent.timestamp == Some(entry.timestamp))
                || (dm.timestamp.None? && sent.timestamp.None? && entry.timestamp == serverTs))
  {
  }

  /** This client's own transcripts are never delivered by this client's receiver: the sender
      writes the destination under tag 7 and the receiver looks under tag 1, so every one is dropped. */
  lemma OwnTranscriptsAreDropped(recipient: Bytes, body: Bytes, timestamp: nat, serverTs: nat)
    requires Sendable(recipient, body, timestamp)
    ensures TranscriptFits(recipient, body, timestamp, SENDER_DESTINATION_TAG)
    ensures var c := DecodeContent(Strip(Pad(TranscriptContent(recipient, body, timestamp, SENDER_DESTINATION_TAG))));
            c.Some? && c.value.sync.Some? && DeliverSync(c.value.sync.value, serverTs) == Dropped
  {
    TranscriptChain(recipient, body, timestamp, SENDER_DESTINATION_TAG);
  }

  /** A transcript that carries the destination under tag 1 is dropped iff its body or destination is
      empty; otherwise it is delivered, with its body and timestamp, iff byte 8 of the destination is
      a character boundary; otherwise the receiver panics. */
  lemma TagOneDeliveredExactlyWhen(recipient: Bytes, body: Bytes, timestamp: nat, serverTs: nat)
    requires Sendable(recipient, body, timestamp)
    ensures TranscriptFits(recipient, body, timestamp, 1)
    ensures var c := DecodeContent(Strip(Pad(TranscriptContent(recipient, body, timestamp, 1))));
            c.Some? && c.value.sync.Some?
            && DeliverSync(c.value.sync.value, serverTs)
               == if body == [] || recipient == [] then Dropped
                  else if SliceOk(recipient) then Delivered(recipient, timestamp, body)
                  else Panics
  {
    TranscriptChain(recipient, body, timestamp, 1);
  }

  /** "a" and then `n` times "e" with an acute accent: every even byte is inside a character. */
  function Accented(n: nat): Bytes {
    [0x61] + Accents(n)
  }

  function Accents(n: nat): (b: Bytes)
    ensures |b| == 2 * n
  {
    if n == 0 then [] else [0xC3, 0xA9] + Accents(n - 1)
  }

  lemma {:induction false} AccentsValid(n: nat)
    ensures Utf8.Valid(Accents(n))
  {
    if n > 0 {
      AccentsValid(n - 1);
      assert Accents(n)[2..] == Accents(n - 1);
    }
  }

  lemma AccentedIsValid(n: nat)
    ensures Utf8.Valid(Accented(n))
  {
    AccentsValid(n);
    assert Accented(n)[1..] == Accents(n);
  }

  lemma {:induction false} AccentsTail(n: nat, i: nat)
    requires i < n
    ensures Accents(n)[2 * i + 1] == 0xA9
  {
    if i > 0 {
      AccentsTail(n - 1, i - 1);
      assert Accents(n)[2 * i + 1] == Accents(n - 1)[2 * (i - 1) + 1];
    }
  }

  /** Well-formed transcripts on which the receive worker panics: with four accents or more, byte 8
      of the destination is inside a character. */
  lemma AccentedDestinationPanics(n: nat, body: Bytes, timestamp: nat, serverTs: nat)
    requires n >= 4 && body != [] && Sendable(Accented(n), body, timestamp)
    ensures TranscriptFits(Accented(n), body, timestamp, 1)
    ensures var c := DecodeContent(Strip(Pad(TranscriptContent(Accented(n), body, timestamp, 1))));
            c.Some? && c.value.sync.Some? && DeliverSync(c.value.sync.value, serverTs) == Panics
  {
    AccentsTail(n, 3);
    assert Accented(n)[8] == Accents(n)[2 * 3 + 1];
    TagOneDeliveredExactlyWhen(Accented(n), body, timestamp, serverTs);
  }

  /** They can be sent with any short text. */
  lemma AccentedIsSendable(n: nat, body: Bytes, timestamp: nat)
    requires Utf8.Valid(body) && 2 * n + |body| < 0x1000 && timestamp < U64_BOUND
    ensures Sendable(Accented(n), body, timestamp)
  {
    AccentedIsValid(n);
  }
}
