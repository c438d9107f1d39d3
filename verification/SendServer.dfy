/** A server that meets every condition of the convergence results, so that none of them is empty. */
module SendServer {
  import opened Common
  import opened Sessions
  import opened Send
  import opened SendConvergence

  // ----- mismatch bodies: one byte per device -----

  /** The devices marked with a code; the first byte is device 1's. */
  function Coded(body: Bytes, code: byte): seq<nat> {
    if body == [] then []
    else Coded(body[..|body| - 1], code) + if body[|body| - 1] == code then [|body|] else []
  }

  lemma {:induction false} CodedExact(body: Bytes, code: byte)
    ensures forall d :: d in Coded(body, code) <==> 1 <= d <= |body| && body[d - 1] == code
  {
    if body != [] {
      CodedExact(body[..|body| - 1], code);
    }
  }

  function Code(d: nat, missing: set<nat>, extra: set<nat>, stale: set<nat>): byte {
    if d in missing then 1 else if d in extra then 2 else if d in stale then 3 else 0
  }

  function Body(missing: set<nat>, extra: set<nat>, stale: set<nat>): (b: Bytes)
    ensures |b| == 127 && forall i :: 0 <= i < 127 ==> b[i] == Code(i + 1, missing, extra, stale)
  {
    seq(127, i requires 0 <= i < 127 => Code(i + 1, missing, extra, stale))
  }

  function Parse(body: Bytes): Mismatch {
    Mismatch(Coded(body, 1), Coded(body, 2), Coded(body, 3))
  }

  predicate Ids(s: set<nat>) {
    forall d :: d in s ==> 1 <= d <= 127
  }

  lemma ParseUndoesBody(missing: set<nat>, extra: set<nat>, stale: set<nat>)
    requires Ids(missing) && Ids(extra) && Ids(stale) && missing !! extra && missing !! stale && extra !! stale
    ensures var mm := Parse(Body(missing, extra, stale));
            Elements(mm.missing) == missing && Elements(mm.extra) == extra && Elements(mm.stale) == stale
  {
    var b := Body(missing, extra, stale);
    CodedExact(b, 1);
    CodedExact(b, 2);
    CodedExact(b, 3);
    assert forall d :: 1 <= d <= 127 ==> b[d - 1] == Code(d, missing, extra, stale);
  }

  // ----- bundles -----

  /** The entries of the devices up to `n`. */
  function Entries(r: Devices, n: nat): seq<DeviceEntry> {
    if n == 0 then [] else Entries(r, n - 1) + if n in r then [DeviceEntry(n, r[n], true)] else []
  }

  lemma {:induction false} FindConcat(a: seq<DeviceEntry>, b: seq<DeviceEntry>, d: nat)
    ensures FindEntry(a + b, d) == if FindEntry(a, d).Some? then FindEntry(a, d) else FindEntry(b, d)
  {
    if a == [] {
      assert a + b == b;
    } else {
      assert (a + b)[1..] == a[1..] + b;
      FindConcat(a[1..], b, d);
    }
  }

  lemma {:induction false} FindsOwn(r: Devices, n: nat, d: nat)
    ensures FindEntry(Entries(r, n), d) == if 1 <= d <= n && d in r then Some(DeviceEntry(d, r[d], true)) else None
  {
    if n > 0 {
      FindsOwn(r, n - 1, d);
      FindConcat(Entries(r, n - 1), if n in r then [DeviceEntry(n, r[n], true)] else [], d);
    }
  }

  // ----- the server -----

  function PutReply(r: Devices, p: Policy, messages: seq<Entity>): Reply {
    var sent := SentTo(messages);
    if sent != r.Keys then Reply(409, Body(r.Keys - sent, sent - r.Keys, {}))
    else if p.checksStale && StaleIn(messages, r) != {} then Reply(410, Body({}, {}, StaleIn(messages, r)))
    else Reply(200, [])
  }

  function Answer(r: Devices, p: Policy, request: Request): Reply {
    if request.Put? then PutReply(r, p, request.messages)
    else if request.GetBundle? && request.device in p.absent then Reply(404, [])
    else Reply(200, [])
  }

  function Server(r: Devices, p: Policy): Env {
    Env((n, request) => Answer(r, p, request), n => false, b => b, b => Some(Parse(b)),
        b => Some(PreKeyResponse(true, Entries(r, 127))))
  }

  lemma AnswersAsAsked(r: Devices, p: Policy, messages: seq<Entity>)
    requires Registered(r) && Addressable(messages)
    ensures Answers(Server(r, p), r, p, messages, PutReply(r, p, messages))
  {
    var sent, stale := SentTo(messages), StaleIn(messages, r);
    assert Ids(sent) by {
      forall d | d in sent ensures 1 <= d <= 127 {
        var e :| e in messages && e.device == d;
        var i :| 0 <= i < |messages| && messages[i] == e;
      }
    }
    assert Ids(r.Keys) && stale <= r.Keys;
    ParseUndoesBody(r.Keys - sent, sent - r.Keys, {});
    ParseUndoesBody({}, {}, stale);
  }

  /** For every registered map there is a server that holds it, whatever else it does. */
  lemma ServerServes(name: string, r: Devices, p: Policy)
    requires Registered(r)
    ensures Serves(Server(r, p), name, r, p)
  {
    var env := Server(r, p);
    forall n: nat, messages, timestamp | Addressable(messages)
      ensures Answers(env, r, p, messages, env.reply(n, Put(name, messages, timestamp)))
    {
      AnswersAsAsked(r, p, messages);
    }
    forall n: nat, d | d in r 
      ensures var reply := env.reply(n, GetBundle(name, d));
              if d in p.absent then reply.Reply? && reply.status == 404 else ServesBundle(env, r, d, reply)
    {
      FindsOwn(r, 127, d);
    }
  }

  lemma {:induction false} EntriesExact(r: Devices, n: nat)
    ensures forall i :: 0 <= i < |Entries(r, n)| ==>
              var e := Entries(r, n)[i]; 1 <= e.device <= n && e.device in r && e == DeviceEntry(e.device, r[e.device], true)
    ensures forall d :: 1 <= d <= n && d in r ==> DeviceEntry(d, r[d], true) in Entries(r, n)
  {
    if n > 0 {
      EntriesExact(r, n - 1);
    }
  }

  /** It also lists the devices when asked, for any job that leaves out none of them. */
  lemma ServerLists(job: Job, r: Devices, p: Policy)
    requires Registered(r) && r.Keys !! Skipped(job)
    ensures ServesDiscovery(Server(r, p), job, r)
  {
    var env, devices := Server(r, p), Entries(r, 127);
    EntriesExact(r, 127);
    assert Listed(job, devices) == r.Keys by {
      forall d | d in r ensures d in Listed(job, devices) {
        assert DeviceEntry(d, r[d], true) in devices;
      }
    }
    forall n: nat ensures Lists(env, job, r, env.reply(n, GetAllBundles(job.name))) {
    }
  }
}
