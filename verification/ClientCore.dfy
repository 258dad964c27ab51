/**
  * The client's handlers as functions on values. Each handler maps the state kept for one
  * contact to its new state, the frames it queues and the notice it prints.
  */
module ClientCore {
  import opened Common
  import opened Crypto

  const UINT32_RANGE := 0x1_0000_0000

  datatype PfsState = Idle | RotationRequested | RotationResponding

  /** The fields of a contact, as a value. */
  datatype ContactState = ContactState(
    publicKey: Party,
    rxId: MailboxId,
    txId: MailboxId,
    rxKey: SymmetricKey,
    txKey: SymmetricKey,
    complete: bool,
    counter: nat,
    pfs: PfsState,
    pending: Option<SecretKey>,
    oldRxId: Option<MailboxId>,
    oldRxKey: Option<SymmetricKey>)

  datatype Direction = Inbound | Outbound

  datatype Status = PendingAck | Delivered | Failed

  datatype Entry = Entry(id: MessageId, direction: Direction, status: Status, payload: seq<byte>)

  /** What a client holds for one contact; `generated` counts the ephemeral keys made so far. */
  datatype Local = Local(
    me: Party,
    interval: nat,
    connected: bool,
    contact: ContactState,
    history: seq<Entry>,
    generated: nat)

  /** The lines a handler prints, kept apart so that rejected frames can be told from accepted ones. */
  datatype Notice =
    | Quiet
    | NotReady
    | Queued
    | UnknownMailbox
    | Malformed
    | TextBeforePfs
    | BadSignature
    | SimultaneousInitial
    | UnexpectedAck
    | NewMessage
    | RotationAnswered
    | RotationCompleted
    | MessageDelivered

  datatype Effect = Effect(local: Local, out: seq<MailFrame>, notice: Notice)

  const TEXT_OPCODE: byte := 0x01

  function SealTo(action: Action, c: ContactState, plain: Plaintext): MailFrame {
    Frame(action, c.txId, Sealed(c.txKey, plain))
  }

  /** A contact as it is first added: static keys, no rotation yet. */
  function NewContact(me: Party, them: Party): ContactState {
    var d := Derive(Identity(me), PublicKey(Identity(them)));
    ContactState(them, d.rxId, d.txId, d.rxKey, d.txKey, false, 0, Idle, None, None, None)
  }

  predicate IsInitialPfsInitiator(me: Party, them: Party) {
    LexLess(me, them)
  }

  // ---------------------------------------------------------------- history

  function AppendMessage(h: seq<Entry>, e: Entry): seq<Entry> {
    h + [e]
  }

  /** Sets the status of the first entry with the given id, whatever its direction. */
  function UpdateStatus(h: seq<Entry>, id: MessageId, status: Status): (r: seq<Entry>)
    ensures |r| == |h|
  {
    if h == [] then []
    else if h[0].id == id then [h[0].(status := status)] + h[1..]
    else [h[0]] + UpdateStatus(h[1..], id, status)
  }

  /** The place of the first entry with an id, or the length of the history. */
  function FirstWith(h: seq<Entry>, id: MessageId): (k: nat)
    ensures k <= |h|
    ensures k < |h| ==> h[k].id == id
    ensures forall i | 0 <= i < k :: h[i].id != id
  {
    if h == [] then 0 else if h[0].id == id then 0 else 1 + FirstWith(h[1..], id)
  }

  /** A status update changes the status of the first matching entry and nothing else. */
  lemma {:induction false} UpdatesFirstOnly(h: seq<Entry>, id: MessageId, status: Status)
    ensures var k := FirstWith(h, id);
            UpdateStatus(h, id, status) == if k < |h| then h[k := h[k].(status := status)] else h
  {
    if h != [] && h[0].id != id {
      UpdatesFirstOnly(h[1..], id, status);
      assert UpdateStatus(h, id, status) == [h[0]] + UpdateStatus(h[1..], id, status);
      var j := FirstWith(h[1..], id);
      assert FirstWith(h, id) == j + 1;
      hide UpdateStatus, FirstWith;
      assert h == [h[0]] + h[1..];
    }
  }

  // ---------------------------------------------------------------- rotation, initiating side

  function InitiateRotation(p: Local): Effect {
    var c := p.contact;
    if c.pfs != Idle then Effect(p, [], Quiet)
    else
      var e := Ephemeral(p.me, p.generated);
      var request := RotateRequest(PublicKey(e), Signature(p.me, [PublicKey(e)]));
      Effect(
        p.(contact := c.(pfs := RotationRequested, pending := Some(e), counter := 0),
           generated := p.generated + 1),
        [SealTo(Push, c, request)],
        Quiet)
  }

  function MaybeStartInitialPfs(p: Local): Effect {
    if !p.connected || p.contact.complete || p.contact.pfs != Idle
       || !IsInitialPfsInitiator(p.me, p.contact.publicKey)
    then Effect(p, [], Quiet)
    else InitiateRotation(p)
  }

  /** Connecting marks the client connected and starts a pending initial handshake. */
  function Connect(p: Local): Effect {
    if p.connected then Effect(p, [], Quiet) else MaybeStartInitialPfs(p.(connected := true))
  }

  function Send(p: Local, data: seq<byte>): Effect {
    if !p.contact.complete then
      MaybeStartInitialPfs(p).(notice := NotReady)
    else
      var logged := p.(history := AppendMessage(p.history, Entry(MessageId(data), Outbound, PendingAck, data)));
      var started :=
        if p.interval > 0 && p.contact.counter >= p.interval && p.contact.pfs == Idle
        then InitiateRotation(logged) else Effect(logged, [], Quiet);
      var c := started.local.contact;
      Effect(
        started.local.(contact := c.(counter := (c.counter + 1) % UINT32_RANGE)),
        started.out + [SealTo(Push, c, Text(data))],
        Queued)
  }

  // ---------------------------------------------------------------- receiving

  function HandleText(p: Local, data: seq<byte>): Effect {
    var entry := Entry(MessageId(data), Inbound, Delivered, [TEXT_OPCODE] + data);
    Effect(
      p.(history := AppendMessage(p.history, entry)),
      [SealTo(Ack, p.contact, Receipt(MessageId(data)))],
      NewMessage)
  }

  function Adopt(c: ContactState, d: Derived): ContactState {
    c.(txId := d.txId, rxId := d.rxId, txKey := d.txKey, rxKey := d.rxKey, counter := 0)
  }

  function HandleRotateRequest(p: Local, key: PublicKey, signature: Signature): Effect {
    var c := p.contact;
    if signature != Signature(c.publicKey, [key]) then Effect(p, [], BadSignature)
    else if !c.complete && IsInitialPfsInitiator(p.me, c.publicKey) then
      MaybeStartInitialPfs(p).(notice := SimultaneousInitial)
    else
      var f := Ephemeral(p.me, p.generated);
      var ack := RotateAck(PublicKey(f), Signature(p.me, [key, PublicKey(f)]));
      var kept := if c.complete then c.(oldRxId := Some(c.rxId), oldRxKey := Some(c.rxKey)) else c;
      var moved := Adopt(kept, Derive(f, key));
      var settled := if c.complete then moved else moved.(complete := true, pfs := Idle);
      Effect(
        p.(contact := settled, generated := p.generated + 1),
        [SealTo(Push, c, ack)],
        RotationAnswered)
  }

  function HandleRotateAck(p: Local, key: PublicKey, signature: Signature): Effect {
    var c := p.contact;
    if c.pfs != RotationRequested || c.pending.None? then Effect(p, [], UnexpectedAck)
    else if signature != Signature(c.publicKey, [PublicKey(c.pending.value), key]) then
      Effect(p, [], BadSignature)
    else
      var moved := Adopt(c, Derive(c.pending.value, key));
      Effect(
        p.(contact := moved.(pfs := Idle, pending := None, complete := true)),
        [],
        RotationCompleted)
  }

  function KeyFor(c: ContactState, usedOldKey: bool): SymmetricKey {
    if usedOldKey && c.oldRxKey.Some? then c.oldRxKey.value else c.rxKey
  }

  /** The first message on the new mailbox retires the old one. */
  function DropOld(c: ContactState, usedOldKey: bool): ContactState {
    if !usedOldKey && c.oldRxId.Some? then c.(oldRxId := None, oldRxKey := None) else c
  }

  function ProcessPush(p: Local, usedOldKey: bool, payload: Payload): Effect {
    match Open(KeyFor(p.contact, usedOldKey), payload)
    case None => Effect(p, [], Malformed)
    case Some(plain) =>
      var q := p.(contact := DropOld(p.contact, usedOldKey));
      match plain
      case Text(data) =>
        if !q.contact.complete then Effect(q, [], TextBeforePfs) else HandleText(q, data)
      case RotateRequest(key, signature) => HandleRotateRequest(q, key, signature)
      case RotateAck(key, signature) => HandleRotateAck(q, key, signature)
      case Receipt(_) => Effect(q, [], Quiet)
  }

  /**
    * The plaintext of an acknowledgement is taken as a message id. Ids are hexadecimal digits, which no
    * opcode is, so any other plaintext names no entry and only the notice appears.
    */
  function ProcessAck(p: Local, usedOldKey: bool, payload: Payload): Effect {
    match Open(KeyFor(p.contact, usedOldKey), payload)
    case None => Effect(p, [], Malformed)
    case Some(plain) =>
      if plain.Receipt? then
        Effect(p.(history := UpdateStatus(p.history, plain.id, Delivered)), [], MessageDelivered)
      else Effect(p, [], MessageDelivered)
  }

  /** Whether a mailbox is one the contact listens on. */
  predicate Listens(c: ContactState, m: MailboxId) {
    m == c.rxId || c.oldRxId == Some(m)
  }

  function Receive(p: Local, f: MailFrame): Effect {
    if f.action == Poll then Effect(p, [], Quiet)
    else if !Listens(p.contact, f.mailbox) then Effect(p, [], UnknownMailbox)
    else
      var usedOldKey := p.contact.oldRxId == Some(f.mailbox);
      if f.action == Push then ProcessPush(p, usedOldKey, f.payload)
      else if f.action == Ack then ProcessAck(p, usedOldKey, f.payload)
      else Effect(p, [], Quiet)
  }
}
