/** The table of pending RMB requests: requests are entered when sent, answers replace them, readers poll it,
    disconnecting clears it. Every `await` is a point where anything else may happen. */
module RmbTable {
  import opened Models

  type Uid = nat

  /** The payload kinds an envelope can carry; at most one. */
  datatype Body = Request | Ping | Response | Error(message: string) | Pong(payload: string)

  datatype Data = Plain(text: string) | Cipher(text: string)

  datatype Envelope = Envelope(uid: Uid, expiration: nat, body: Body, data: Data)

  datatype Reason = InvalidSignature | RemoteError(message: string) | Expired

  datatype Outcome = Resolved(payload: string) | Rejected(reason: Reason)

  /** A reader between two awaits. `Stuck` is one whose parsing or decryption threw: its promise stays open. */
  datatype Phase = Polling | Verifying | Decrypting | Over | Stuck

  /** One call of `read`. `envelope` is what it last found in the table. */
  datatype Reader = Reader(uid: Uid, start: nat, envelope: Option<Envelope>, phase: Phase, settled: Option<Outcome>)

  type Table = map<Uid, Envelope>

  /** Signature check, decryption and JSON parsing; the last two may throw. */
  datatype Crypto = Crypto(verifies: Envelope -> bool, opens: Envelope -> Option<string>,
      parses: string -> Option<string>)

  // ---- One turn of a reader ----

  datatype Turn = Turn(reader: Reader, table: Table)

  function Find(table: Table, uid: Uid): Option<Envelope> {
    if uid in table then Some(table[uid]) else None
  }

  /** A promise takes its first outcome only. */
  function Settle(r: Reader, outcome: Outcome): Reader {
    if r.settled.None? then r.(settled := Some(outcome)) else r
  }

  /** What follows the loop, also after a `break`. */
  function Finish(r: Reader, table: Table): Turn {
    if r.envelope.Some? && r.envelope.value.expiration != 0
    then Turn(Settle(r, Rejected(Expired)).(phase := Over), table - {r.uid})
    else Turn(r.(phase := Over), table)
  }

  function Answer(r: Reader, table: Table, outcome: Outcome): Turn {
    Finish(Settle(r, outcome), table - {r.uid})
  }

  function Parse(r: Reader, table: Table, text: string, c: Crypto): Turn {
    match c.parses(text)
    case Some(payload) => Answer(r, table, Resolved(payload))
    case None => Turn(r.(phase := Stuck), table)
  }

  /** The loop head and the body up to the next await. The deadline uses the envelope found last. */
  function Polled(r: Reader, table: Table, clock: nat): Turn {
    if r.envelope.None? || clock >= r.start + r.envelope.value.expiration * 1000 then Finish(r, table)
    else
      var found := Find(table, r.uid);
      var q := r.(envelope := found);
      if found.None? then Turn(q, table)
      else
        match found.value.body
        case Response => Turn(q.(phase := Verifying), table)
        case Error(m) => Answer(q, table, Rejected(RemoteError(m)))
        case Pong(p) => Answer(q, table, Resolved(p))
        case _ => Turn(q, table)
  }

  function Verified(r: Reader, table: Table, c: Crypto): Turn
    requires r.envelope.Some?
  {
    var e := r.envelope.value;
    if !c.verifies(e) then Answer(r, table, Rejected(InvalidSignature))
    else if |e.data.text| == 0 then Turn(r.(phase := Polling), table)
    else if e.data.Plain? then Parse(r, table, e.data.text, c)
    else Turn(r.(phase := Decrypting), table)
  }

  function Decrypted(r: Reader, table: Table, c: Crypto): Turn
    requires r.envelope.Some?
  {
    match c.opens(r.envelope.value)
    case Some(text) => Parse(r, table, text, c)
    case None => Turn(r.(phase := Stuck), table)
  }

  predicate Awaits(r: Reader) {
    r.phase == Polling || ((r.phase == Verifying || r.phase == Decrypting) && r.envelope.Some?)
  }

  function Turned(r: Reader, table: Table, clock: nat, c: Crypto): Turn
    requires Awaits(r)
  {
    match r.phase
    case Polling => Polled(r, table, clock)
    case Verifying => Verified(r, table, c)
    case Decrypting => Decrypted(r, table, c)
  }

  // ---- The whole client ----

  datatype State = State(
    table: Table, readers: map<nat, Reader>, clock: nat,
    issued: set<Uid>, removed: set<Uid>, delivered: set<Envelope>)

  const START := State(map[], map[], 0, {}, {}, {})

  datatype Step =
    | Send(e: Envelope)          // `send` and `ping`, at the moment they enter the request
    | Deliver(e: Envelope)       // `onmessage`
    | Read(id: nat, uid: Uid)    // a call of `read`
    | Resume(id: nat)            // a reader goes on after an await
    | DropPings                  // `dropPingEnvelope`
    | Clear                      // the end of `waitForResponses`
    | Tick(ms: nat)

  predicate Enabled(s: State, step: Step) {
    match step
    case Send(e) => e.uid !in s.issued && (e.body == Body.Request || e.body == Ping)
    case Read(id, _) => id !in s.readers
    case Resume(id) => id in s.readers && Awaits(s.readers[id])
    case _ => true
  }

  function Delivered(table: Table, e: Envelope): Table {
    if e.uid in table then table[e.uid := e] else table
  }

  function WithoutPings(table: Table): Table {
    map uid | uid in table && table[uid].body != Ping :: table[uid]
  }

  /** The step, with the uids it took out of the table recorded. */
  function Moved(s: State, table: Table): State {
    s.(table := table, removed := s.removed + (s.table.Keys - table.Keys))
  }

  function Next(s: State, step: Step, c: Crypto): State
    requires Enabled(s, step)
  {
    match step
    case Send(e) => s.(table := s.table[e.uid := e], issued := s.issued + {e.uid})
    case Deliver(e) => Moved(s, Delivered(s.table, e)).(delivered := s.delivered + {e})
    case Read(id, uid) => s.(readers := s.readers[id := Reader(uid, s.clock, Find(s.table, uid), Polling, None)])
    case Resume(id) =>
      var t := Turned(s.readers[id], s.table, s.clock, c);
      Moved(s, t.table).(readers := s.readers[id := t.reader])
    case DropPings => Moved(s, WithoutPings(s.table))
    case Clear => Moved(s, map[])
    case Tick(ms) => s.(clock := s.clock + ms)
  }

  ghost predicate IsRun(s: State, steps: seq<Step>, c: Crypto)
    decreases |steps|
  {
    steps == [] || (Enabled(s, steps[0]) && IsRun(Next(s, steps[0], c), steps[1..], c))
  }

  ghost function After(s: State, steps: seq<Step>, c: Crypto): State
    requires IsRun(s, steps, c)
    decreases |steps|
  {
    if steps == [] then s else After(Next(s, steps[0], c), steps[1..], c)
  }

  // ---- What every run keeps ----

  /** The table holds requests that were sent and never removed; what replaced one was delivered. */
  ghost predicate TableInv(s: State) {
    && s.table.Keys !! s.removed && s.issued == s.table.Keys + s.removed
    && forall uid :: uid in s.table ==> FromTable(s, uid, s.table[uid])
  }

  ghost predicate FromTable(s: State, uid: Uid, e: Envelope) {
    e.uid == uid && (e.body == Body.Request || e.body == Ping || e in s.delivered)
  }

  /** `payload` is what a delivered envelope for `uid` says: a pong, or a response whose signature verifies. */
  ghost predicate Said(s: State, c: Crypto, uid: Uid, payload: string) {
    exists e :: e in s.delivered && e.uid == uid && Says(c, e, payload)
  }

  predicate Says(c: Crypto, e: Envelope, payload: string) {
    || e.body == Pong(payload)
    || (e.body == Response && c.verifies(e) &&
        (if e.data.Plain? then c.parses(e.data.text) == Some(payload)
         else c.opens(e).Some? && c.parses(c.opens(e).value) == Some(payload)))
  }

  /** An outcome has its reason: what was delivered for the uid, or the time that has passed. */
  ghost predicate Explained(s: State, c: Crypto, r: Reader)
    requires r.settled.Some?
  {
    match r.settled.value
    case Resolved(payload) => Said(s, c, r.uid, payload)
    case Rejected(InvalidSignature) =>
      exists e :: e in s.delivered && e.uid == r.uid && e.body == Response && !c.verifies(e)
    case Rejected(RemoteError(m)) => exists e :: e in s.delivered && e.uid == r.uid && e.body == Error(m)
    case Rejected(Expired) => r.envelope.Some? && s.clock >= r.start + r.envelope.value.expiration * 1000
  }

  ghost predicate ReaderInv(s: State, c: Crypto, r: Reader) {
    && (r.envelope.Some? ==> FromTable(s, r.uid, r.envelope.value) && r.uid in s.issued)
    && (r.phase == Verifying || r.phase == Decrypting ==> r.envelope.Some? && r.envelope.value.body == Response)
    && (r.phase == Decrypting ==> c.verifies(r.envelope.value) && r.envelope.value.data.Cipher?)
    && (r.settled.Some? ==> r.phase == Over && r.uid in s.removed)
    && (r.settled.Some? ==> Explained(s, c, r))
    && (r.settled.None? && r.phase == Over ==> r.envelope.None? || r.envelope.value.expiration == 0)
    && (r.phase == Over && r.envelope.None? ==> r.settled.None?)
    && r.start <= s.clock
  }

  ghost predicate Inv(s: State, c: Crypto) {
    TableInv(s) && forall id :: id in s.readers ==> ReaderInv(s, c, s.readers[id])
  }

  /** Only growth of what was issued, removed and delivered, and of time, matters to the other readers. */
  lemma ReaderStays(s: State, t: State, c: Crypto, r: Reader)
    requires ReaderInv(s, c, r) && s.issued <= t.issued && s.removed <= t.removed && s.delivered <= t.delivered &&
              s.clock <= t.clock
    ensures ReaderInv(t, c, r)
  {
    if r.settled.Some? {
      ExplanationStays(s, t, c, r);
    }
  }

  lemma ExplanationStays(s: State, t: State, c: Crypto, r: Reader)
    requires r.settled.Some? && Explained(s, c, r) && s.delivered <= t.delivered && s.clock <= t.clock
    ensures Explained(t, c, r)
  {
    match r.settled.value
    case Resolved(payload) =>
      var e :| e in s.delivered && e.uid == r.uid && Says(c, e, payload);
      assert e in t.delivered;
    case Rejected(InvalidSignature) =>
      var e :| e in s.delivered && e.uid == r.uid && e.body == Response && !c.verifies(e);
      assert e in t.delivered;
    case Rejected(RemoteError(m)) =>
      var e :| e in s.delivered && e.uid == r.uid && e.body == Error(m);
      assert e in t.delivered;
    case Rejected(Expired) =>
  }

  /** A turn either leaves the table alone or takes the reader's uid out of it. */
  lemma TurnedTable(r: Reader, table: Table, clock: nat, c: Crypto)
    requires Awaits(r)
    ensures var t := Turned(r, table, clock, c);
      && (t.table == table || t.table == table - {r.uid})
      && t.reader.uid == r.uid
      && (r.settled.None? && t.reader.settled.Some? ==> t.table == table - {r.uid})
  {
  }

  /** The reader after its turn, against a state that has recorded what the turn removed. */
  lemma TurnKeeps(s: State, c: Crypto, r: Reader)
    requires TableInv(s) && ReaderInv(s, c, r) && Awaits(r) && r.settled.None?
    ensures var t := Turned(r, s.table, s.clock, c);
      ReaderInv(Moved(s, t.table), c, t.reader)
  {
    var t := Turned(r, s.table, s.clock, c);
    TurnedTable(r, s.table, s.clock, c);
    if t.reader.settled.Some? {
      TurnExplains(s, c, r);
      ExplanationStays(s, Moved(s, t.table), c, t.reader);
    }
  }

  lemma TurnExplains(s: State, c: Crypto, r: Reader)
    requires TableInv(s) && ReaderInv(s, c, r) && Awaits(r) && r.settled.None?
    ensures var q := Turned(r, s.table, s.clock, c).reader;
      q.settled.Some? ==> Explained(s, c, q)
  {
    var q := Turned(r, s.table, s.clock, c).reader;
    if q.settled.Some? && q.settled.value != Rejected(Expired) {
      var e := if r.phase == Polling then s.table[r.uid] else r.envelope.value;
      assert e in s.delivered && e.uid == r.uid;
      assert q.settled.value.Resolved? ==> Says(c, e, q.settled.value.payload);
    }
  }

  lemma ResumeKeeps(s: State, c: Crypto, id: nat)
    requires Inv(s, c) && Enabled(s, Resume(id))
    ensures Inv(Next(s, Resume(id), c), c)
  {
    var t := Next(s, Resume(id), c);
    TurnedTable(s.readers[id], s.table, s.clock, c);
    TurnKeeps(s, c, s.readers[id]);
    forall k | k in t.readers && k != id ensures ReaderInv(t, c, t.readers[k]) {
      ReaderStays(s, t, c, s.readers[k]);
    }
  }

  lemma StepKeeps(s: State, step: Step, c: Crypto)
    requires Inv(s, c) && Enabled(s, step)
    ensures Inv(Next(s, step, c), c)
  {
    var t := Next(s, step, c);
    if step.Resume? {
      ResumeKeeps(s, c, step.id);
    } else {
      forall id | id in t.readers && id in s.readers ensures ReaderInv(t, c, t.readers[id]) {
        ReaderStays(s, t, c, s.readers[id]);
      }
    }
  }

  lemma StartInv(c: Crypto)
    ensures Inv(START, c)
  {
  }

  /** In every interleaving: the keys of the table are exactly the uids issued and not removed; a settled call of
      `read` is over and its uid is gone; a payload it resolved with was said by a delivered envelope with that uid,
      and a rejection has its reason; and one that ended without an outcome found no entry, or an envelope that
      never expires. */
  lemma {:induction false} RunKeepsInv(s: State, steps: seq<Step>, c: Crypto)
    requires Inv(s, c) && IsRun(s, steps, c)
    ensures Inv(After(s, steps, c), c)
    decreases |steps|
  {
    if steps != [] {
      StepKeeps(s, steps[0], c);
      RunKeepsInv(Next(s, steps[0], c), steps[1..], c);
    }
  }

  /** Whatever happens afterwards, a uid that was removed stays out of the table, and a call of `read` that
      settled keeps its outcome. */
  lemma {:induction false} SettledForever(s: State, steps: seq<Step>, c: Crypto, id: nat)
    requires Inv(s, c) && IsRun(s, steps, c) && id in s.readers && s.readers[id].settled.Some?
    ensures var t := After(s, steps, c);
      id in t.readers && t.readers[id] == s.readers[id] && s.readers[id].uid !in t.table
    decreases |steps|
  {
    if steps != [] {
      StepKeeps(s, steps[0], c);
      SettledForever(Next(s, steps[0], c), steps[1..], c, id);
    }
  }

  /** The next turn ends this call of `read` without an outcome: the entry was gone or never expires, or what was found
      cannot be decrypted or parsed. */
  predicate LeavesOpen(r: Reader, c: Crypto)
    requires Awaits(r)
  {
    match r.phase
    case Polling => r.envelope.None? || r.envelope.value.expiration == 0
    case Verifying =>
      var e := r.envelope.value;
      c.verifies(e) && e.data.Plain? && |e.data.text| > 0 && c.parses(e.data.text).None?
    case Decrypting =>
      var text := c.opens(r.envelope.value);
      text.None? || c.parses(text.value).None?
  }

  lemma TurnLeavesOpen(r: Reader, table: Table, clock: nat, c: Crypto)
    requires Awaits(r) && r.settled.None? && r.start <= clock
    ensures var q := Turned(r, table, clock, c).reader;
      q.settled.None? && !Awaits(q) <==> LeavesOpen(r, c)
  {
  }

  lemma {:induction false} EndedForever(s: State, steps: seq<Step>, c: Crypto, id: nat)
    requires IsRun(s, steps, c) && id in s.readers && !Awaits(s.readers[id])
    ensures id in After(s, steps, c).readers && After(s, steps, c).readers[id] == s.readers[id]
    decreases |steps|
  {
    if steps != [] {
      EndedForever(Next(s, steps[0], c), steps[1..], c, id);
    }
  }

  /** A call of `read` stays open for ever from its next turn on exactly in these cases: then, whatever happens
      afterwards, it has no outcome and takes no further turn. */
  lemma OpenForeverExactly(s: State, steps: seq<Step>, c: Crypto, id: nat)
    requires Inv(s, c) && Enabled(s, Resume(id)) && s.readers[id].settled.None?
    requires IsRun(Next(s, Resume(id), c), steps, c)
    ensures var now := Next(s, Resume(id), c).readers[id];
      (now.settled.None? && !Awaits(now) <==> LeavesOpen(s.readers[id], c))
    ensures LeavesOpen(s.readers[id], c) ==>
              var t := After(Next(s, Resume(id), c), steps, c);
              id in t.readers && t.readers[id].settled.None? && !Awaits(t.readers[id])
  {
    TurnLeavesOpen(s.readers[id], s.table, s.clock, c);
    if LeavesOpen(s.readers[id], c) {
      EndedForever(Next(s, Resume(id), c), steps, c, id);
    }
  }

  lemma {:induction false} RemovedForever(s: State, steps: seq<Step>, c: Crypto, uid: Uid)
    requires Inv(s, c) && IsRun(s, steps, c) && uid in s.removed
    ensures uid !in After(s, steps, c).table && uid in After(s, steps, c).removed
    decreases |steps|
  {
    if steps != [] {
      StepKeeps(s, steps[0], c);
      RemovedForever(Next(s, steps[0], c), steps[1..], c, uid);
    }
  }

  /** A late or unsolicited envelope changes nothing for anybody: after any run, delivering it for a uid that
      was removed or never issued leaves table and readers alone. */
  lemma UnsolicitedIgnored(steps: seq<Step>, c: Crypto, e: Envelope)
    requires IsRun(START, steps, c)
    requires e.uid in After(START, steps, c).removed || e.uid !in After(START, steps, c).issued
    ensures var s := After(START, steps, c);
      var t := Next(s, Deliver(e), c);
      t.table == s.table && t.readers == s.readers && t.removed == s.removed
  {
    StartInv(c);
    RunKeepsInv(START, steps, c);
  }

  /** A response that verifies and parses is what a reader polling in time resolves with, once its awaits
      return, whatever arrives meanwhile: it goes on with the envelope it found. */
  lemma ResponseIsRead(s: State, c: Crypto, id: nat, later: Table, clock: nat, payload: string)
    requires Inv(s, c) && id in s.readers
    requires var r := s.readers[id];
      && r.phase == Polling && r.settled.None? && r.envelope.Some? &&
           s.clock < r.start + r.envelope.value.expiration * 1000
      && r.uid in s.table && s.table[r.uid].data.text != "" && s.table[r.uid].body.Response? &&
           Says(c, s.table[r.uid], payload)
    ensures var q := Turned(s.readers[id], s.table, s.clock, c).reader;
      && q.phase == Verifying
      && var v := Verified(q, later, c);
        if s.table[q.uid].data.Plain? then v.reader.settled == Some(Resolved(payload))
        else v.reader.phase == Decrypting && Decrypted(v.reader, later, c).reader.settled == Some(Resolved(payload))
  {
  }

  // ---- The code ----

  class Client {
    var responses: Table

    constructor ()
      ensures responses == map[]
    {
      responses := map[];
    }

    /** The end of `send` and `ping`. */
    method Send(e: Envelope)
      modifies this
      ensures responses == old(responses)[e.uid := e]
    {
      responses := responses[e.uid := e];
    }

    method OnMessage(e: Envelope)
      modifies this
      ensures responses == Delivered(old(responses), e)
    {
      if e.uid in responses {
        responses := responses[e.uid := e];
      }
    }

    method DropPingEnvelope()
      modifies this
      ensures responses == WithoutPings(old(responses))
    {
      var ids := responses.Keys;
      ghost var before := responses;
      while ids != {}
        invariant ids <= responses.Keys <= before.Keys
        invariant forall uid :: uid in responses ==> responses[uid] == before[uid]
        invariant forall uid :: uid in before && uid !in ids ==> (uid in responses <==> before[uid].body != Ping)
        decreases |ids|
      {
        var id :| id in ids;
        ids := ids - {id};
        if responses[id].body == Ping {
          responses := responses - {id};
        }
      }
    }

    /** `waitForResponses` once its time is up. */
    method Clear()
      modifies this
      ensures responses == map[]
    {
      responses := map[];
    }
  }

  /** One call of `read`, resumed after each await. */
  class ReadCall {
    const requestID: Uid
    const now: nat
    var envelope: Option<Envelope>
    var phase: Phase
    var settled: Option<Outcome>

    constructor (client: Client, requestID: Uid, now: nat)
      ensures Value() == Reader(requestID, now, Find(client.responses, requestID), Polling, None)
    {
      this.requestID, this.now := requestID, now;
      envelope := Find(client.responses, requestID);
      phase, settled := Polling, None;
    }

    function Value(): Reader
      reads this
    {
      Reader(requestID, now, envelope, phase, settled)
    }

    method Settles(outcome: Outcome)
      modifies this`settled
      ensures Value() == Settle(old(Value()), outcome)
    {
      if settled.None? {
        settled := Some(outcome);
      }
    }

    method Ends(client: Client)
      modifies this`settled, this`phase, client
      ensures Turn(Value(), client.responses) == Finish(old(Value()), old(client.responses))
    {
      if envelope.Some? && envelope.value.expiration != 0 {
        client.responses := client.responses - {requestID};
        Settles(Rejected(Expired));
      }
      phase := Over;
    }

    method Answers(client: Client, outcome: Outcome)
      modifies this`settled, this`phase, client
      ensures Turn(Value(), client.responses) == Answer(old(Value()), old(client.responses), outcome)
    {
      client.responses := client.responses - {requestID};
      Settles(outcome);
      Ends(client);
    }

    method Parses(client: Client, text: string, c: Crypto)
      modifies this`settled, this`phase, client
      ensures Turn(Value(), client.responses) == Parse(old(Value()), old(client.responses), text, c)
    {
      match c.parses(text)
      case Some(payload) => Answers(client, Resolved(payload));
      case None => phase := Stuck;
    }

    method Resume(client: Client, clock: nat, c: Crypto)
      requires Awaits(Value())
      modifies this, client
      ensures Turn(Value(), client.responses) == Turned(old(Value()), old(client.responses), clock, c)
    {
      match phase
      case Polling => Poll(client, clock);
      case Verifying =>
        var e := envelope.value;
        if !c.verifies(e) {
          Answers(client, Rejected(InvalidSignature));
        } else if |e.data.text| == 0 {
          phase := Polling;
        } else if e.data.Plain? {
          Parses(client, e.data.text, c);
        } else {
          phase := Decrypting;
        }
      case Decrypting =>
        var text := c.opens(envelope.value);
        if text.None? {
          phase := Stuck;
        } else {
          Parses(client, text.value, c);
        }
    }

    method Poll(client: Client, clock: nat)
      requires phase == Polling
      modifies this, client
      ensures Turn(Value(), client.responses) == Polled(old(Value()), old(client.responses), clock)
    {
      if envelope.None? || clock >= now + envelope.value.expiration * 1000 {
        Ends(client);
        return;
      }
      envelope := Find(client.responses, requestID);
      if envelope.None? {
        return;
      }
      match envelope.value.body
      case Response => phase := Verifying;
      case Error(m) => Answers(client, Rejected(RemoteError(m)));
      case Pong(p) => Answers(client, Resolved(p));
      case _ =>
    }
  }
}
