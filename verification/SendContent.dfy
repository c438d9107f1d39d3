/** One plaintext on its way: both contents are built from it, sent by the two legs, and read back by
    whoever decrypts an entity. */
module SendContent {
  import opened Common
  import opened Sessions
  import opened Send
  import opened SendSafety
  import Utf8
  import Padding
  import Content

  /** What `submit_with_retry_with_stores` is given. `recipient` is the UTF-8 form of `to.name`. */
  datatype Plain = Plain(body: Bytes, recipient: Bytes, timestamp: nat, to: Address, ownName: string, ownDevice: nat)

  ghost predicate Sendable(p: Plain) {
    Content.Sendable(p.recipient, p.body, p.timestamp)
  }

  /** The two padded contents, and whom they go to. */
  ghost function Compose(p: Plain): Message
    requires Sendable(p)
  {
    Content.DataChain(p.body, p.timestamp);
    Content.TranscriptChain(p.recipient, p.body, p.timestamp, Content.SENDER_DESTINATION_TAG);
    Message(Padding.Pad(Content.DataContent(p.body, p.timestamp)),
            Padding.Pad(Content.TranscriptContent(p.recipient, p.body, p.timestamp, Content.SENDER_DESTINATION_TAG)),
            p.timestamp, p.to, p.ownName, p.ownDevice)
  }

  function Reads(entity: Entity): Option<Content.ContentMessage> {
    Content.DecodeContent(Padding.Strip(entity.content))
  }

  predicate IsMessage(p: Plain, entity: Entity) {
    Reads(entity) == Some(Content.ContentMessage(Some(Content.DataMessage(Some(p.body), Some(p.timestamp))), None))
  }

  /** A sync message about the same body and timestamp, with no destination that this client's own
      receiver would see. */
  predicate IsTranscript(p: Plain, entity: Entity) {
    Reads(entity) == Some(Content.ContentMessage(None, Some(Content.SyncMessage(Some(
      Content.SentMessage(None, Some(p.timestamp), Some(Content.DataMessage(Some(p.body), Some(p.timestamp)))))))))
  }

  predicate AllEntities(messages: seq<Entity>, p: Plain, transcript: bool) {
    forall i :: 0 <= i < |messages| ==> if transcript then IsTranscript(p, messages[i]) else IsMessage(p, messages[i])
  }

  lemma ContentsRead(p: Plain, entity: Entity)
    requires Sendable(p)
    ensures entity.content == Compose(p).data ==> IsMessage(p, entity)
    ensures entity.content == Compose(p).transcript ==> IsTranscript(p, entity)
  {
    Content.DataChain(p.body, p.timestamp);
    Content.TranscriptChain(p.recipient, p.body, p.timestamp, Content.SENDER_DESTINATION_TAG);
  }

  /** In every run, whatever the server answers: each entity of a PUT to the recipient decrypts, strips
      and decodes to exactly the body and timestamp that were sent, each entity of a PUT to the own
      account to a transcript of them, and no own-account request comes before the accepted recipient
      PUT. */
  lemma WhatIsSentIsRead(env: Env, p: Plain, w: World) returns (k: nat)
    requires Sendable(p)
    ensures var (w', e) := SubmitBoth(env, Compose(p), w);
            && |w.log| <= k <= |w'.log| && w.log <= w'.log
            && (forall i :: |w.log| <= i < k && w'.log[i].request.Put? ==>
                  w'.log[i].request.name == p.to.name && AllEntities(w'.log[i].request.messages, p, false))
            && (forall i :: k <= i < |w'.log| && w'.log[i].request.Put? ==>
                  w'.log[i].request.name == p.ownName && AllEntities(w'.log[i].request.messages, p, true))
            && (k < |w'.log| ==> LastAccepted(Puts(w'.log[|w.log|..k])))
  {
    var m := Compose(p);
    k := TwoLegTrace(env, m, w);
    var w' := SubmitBoth(env, m, w).0;
    forall i | |w.log| <= i < k && w'.log[i].request.Put? ensures AllEntities(w'.log[i].request.messages, p, false) {
      assert ToRecipient(m, w'.log[i]);
      MessagesRead(p, w'.log[i].request.messages);
    }
    forall i | k <= i < |w'.log| && w'.log[i].request.Put? ensures AllEntities(w'.log[i].request.messages, p, true) {
      assert ToOwnDevices(m, w'.log[i]);
      MessagesRead(p, w'.log[i].request.messages);
    }
  }

  lemma MessagesRead(p: Plain, messages: seq<Entity>)
    requires Sendable(p)
    ensures AllCarry(messages, Compose(p).data) ==> AllEntities(messages, p, false)
    ensures AllCarry(messages, Compose(p).transcript) ==> AllEntities(messages, p, true)
  {
    forall i | 0 <= i < |messages|
      ensures messages[i].content == Compose(p).data ==> IsMessage(p, messages[i])
      ensures messages[i].content == Compose(p).transcript ==> IsTranscript(p, messages[i])
    {
      ContentsRead(p, messages[i]);
    }
  }
}
