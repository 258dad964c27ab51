/** Runs from the bootstrap through the initial handshake and exchanges of texts, whatever the quota. */
module Chat {
  import opened Common
  import opened Crypto
  import opened ClientCore
  import opened LossyMail
  import opened Rotation
  import opened Relay
  import opened Theorems
  import opened Crossings
  import opened Passage
  import Broker

  /** A quiet moment: both clients idle on common keys with nothing in transit and no old mailbox. */
  ghost predicate Quiescent(a: Abs) {
    && Base(a)
    && Paired(a.alice.contact, a.bob.contact)
    && (forall m :: a.mail(m) == [])
    && (forall w :: a.At(w).contact.complete && a.At(w).contact.pfs == Idle && a.At(w).contact.oldRxId == None)
  }

  lemma SameQuiescent(a: Abs, b: Abs)
    requires Same(a, b) && Quiescent(a)
    ensures Quiescent(b)
  {
    hide Base;
    SameBase(a, b);
    assert forall w :: b.At(w).contact == a.At(w).contact;
  }

  /** A frame at a door is mail on its way. */
  lemma DoorMail(s: World, w: Who, f: MailFrame)
    requires RunOk(s) && Door(s) && f in s.At(w).down
    ensures f in Alpha(s).mail(f.mailbox) && SenderOf(s, f.mailbox) == Other(w)
  {
    hide RunOk, Base;
    RunOkBase(s);
    assert f in s.alice.down + s.bob.down;
    MailHasAll(s.At(w).down, f.mailbox);
    hide Mail, Broker.Sound;
  }

  /** With nothing on its way both doors are empty. */
  lemma NothingAtDoor(s: World)
    requires RunOk(s) && Door(s) && forall m :: Alpha(s).mail(m) == []
    ensures s.alice.down == [] && s.bob.down == []
  {
    hide RunOk, InTransit;
    forall w
      ensures s.At(w).down == []
    {
      if s.At(w).down != [] {
        DoorMail(s, w, s.At(w).down[0]);
      }
    }
    assert s.At(Alice).down == [] && s.At(Bob).down == [];
  }

  /** When all mail is in one mailbox, the reader's door holds exactly that mail. */
  lemma OnlyMailbox(s: World, w: Who, m: MailboxId)
    requires RunOk(s) && Door(s) && SenderOf(s, m) == Other(w)
    requires forall n | n != m :: Alpha(s).mail(n) == []
    ensures s.At(w).down == Alpha(s).mail(m)
  {
    hide RunOk, InTransit;
    forall f | f in s.At(w).down
      ensures f.mailbox == m
    {
      DoorMail(s, w, f);
    }
    DoorHolds(s, w, m);
  }

  // ---------------------------------------------------------------- one text and its receipt

  /** One text is on its way from w. */
  ghost predicate TextSent(a: Abs, w: Who, data: seq<byte>) {
    && Base(a)
    && Paired(a.alice.contact, a.bob.contact)
    && (forall v :: a.At(v).contact.complete && a.At(v).contact.pfs == Idle && a.At(v).contact.oldRxId == None)
    && |a.mail(a.At(w).contact.txId)| == 1
    && a.mail(a.At(w).contact.txId)[0].payload.Sealed? && a.mail(a.At(w).contact.txId)[0].payload.plain == Text(data)
    && forall m | m != a.At(w).contact.txId :: a.mail(m) == []
  }

  /** The text has been read and its receipt is on its way back to w. */
  ghost predicate ReceiptSent(a: Abs, w: Who, id: MessageId) {
    && Base(a)
    && Paired(a.alice.contact, a.bob.contact)
    && (forall v :: a.At(v).contact.complete && a.At(v).contact.pfs == Idle && a.At(v).contact.oldRxId == None)
    && |a.mail(a.At(w).contact.rxId)| == 1
    && a.mail(a.At(w).contact.rxId)[0].payload.Sealed? && a.mail(a.At(w).contact.rxId)[0].payload.plain == Receipt(id)
    && forall m | m != a.At(w).contact.rxId :: a.mail(m) == []
  }

  lemma SameChat(a: Abs, b: Abs, w: Who, data: seq<byte>)
    requires Same(a, b)
    ensures TextSent(a, w, data) ==> TextSent(b, w, data)
    ensures ReceiptSent(a, w, MessageId(data)) ==> ReceiptSent(b, w, MessageId(data))
  {
    hide Base;
    if Base(a) {
      SameBase(a, b);
    }
    assert forall v :: b.At(v).contact == a.At(v).contact;
  }

  predicate MaySend(p: Local) {
    p.interval == 0 || p.contact.counter < p.interval
  }

  function SentEntry(data: seq<byte>): Entry {
    Entry(MessageId(data), Outbound, PendingAck, data)
  }

  lemma ChatMoves(a: Abs, w: Who, data: seq<byte>)
    requires Quiescent(a) && MaySend(a.At(w))
    ensures var b := Perform(a, w, Send(a.At(w), data));
            && TextSent(b, w, data)
            && b.At(w).history == a.At(w).history + [SentEntry(data)]
            && b.At(w).interval == a.At(w).interval
            && b.At(w).contact == a.At(w).contact.(counter := (a.At(w).contact.counter + 1) % UINT32_RANGE)
            && b.At(Other(w)) == a.At(Other(w))
  {
    hide Base, Send;
    FreshDiffers(a, w);
    assert a.At(w).contact.complete;
    SendPlain(a, w, data);
  }

  lemma TextMoves(a: Abs, w: Who, data: seq<byte>)
    requires TextSent(a, w, data)
    ensures a.At(Other(w)).contact.rxId == a.At(w).contact.txId && a.mail(a.At(w).contact.txId) != []
    ensures var b := Deliver(a, Other(w), a.At(w).contact.txId);
            && ReceiptSent(b, w, MessageId(data))
            && b.At(w) == a.At(w)
            && b.At(Other(w)).contact == a.At(Other(w)).contact && b.At(Other(w)).interval == a.At(Other(w)).interval
            && b.At(Other(w)).history == a.At(Other(w)).history + [TextEntry(data)]
  {
    hide Base, Deliver;
    var m := a.At(w).contact.txId;
    FreshDiffers(a, w);
    ListensArrive(a, Other(w), m);
    assert a.At(Other(w)).contact.oldRxId == None && a.At(w).contact.oldRxId == None;
    DeliverText(a, Other(w), m);
    hide Arriving;
  }

  lemma ReceiptMoves(a: Abs, w: Who, id: MessageId)
    requires ReceiptSent(a, w, id)
    ensures a.mail(a.At(w).contact.rxId) != []
    ensures var b := Deliver(a, w, a.At(w).contact.rxId);
            && Quiescent(b)
            && b.At(Other(w)) == a.At(Other(w))
            && b.At(w).contact == a.At(w).contact && b.At(w).interval == a.At(w).interval
            && b.At(w).history == UpdateStatus(a.At(w).history, id, Delivered)
  {
    hide Base, Deliver, UpdateStatus;
    var m := a.At(w).contact.rxId;
    ListensArrive(a, w, m);
    DeliverReceipt(a, w, m);
    hide Arriving;
  }

  /** The two mailboxes of paired contacts, and who sends to them. */
  lemma PairedPolls(s: World, w: Who)
    requires RunOk(s) && Paired(s.alice.local.contact, s.bob.local.contact)
    ensures s.At(w).local.contact.txId == PollTarget(s.At(Other(w)).local.contact, false)
    ensures SenderOf(s, s.At(w).local.contact.txId) == w && SenderOf(s, s.At(w).local.contact.rxId) == Other(w)
  {
    hide RunOk, Base, WellAddressed;
    RunOkBase(s);
    LocalOf(Alpha(s), w);
    LocalOf(Alpha(s), Other(w));
  }

  /** w sends a text from a quiet moment. */
  lemma TextRun(s: World, w: Who, data: seq<byte>) returns (steps: seq<Step>)
    requires RunOk(s) && Door(s) && Quiescent(Alpha(s)) && MaySend(s.At(w).local)
    ensures var u := Exec(s, steps);
            && RunOk(u) && Door(u) && u.quota == s.quota && TextSent(Alpha(u), w, data)
            && u.At(w).local.history == s.At(w).local.history + [SentEntry(data)]
            && u.At(w).local.interval == s.At(w).local.interval
            && u.At(w).local.contact == s.At(w).local.contact.(counter := (s.At(w).local.contact.counter + 1) % UINT32_RANGE)
            && u.At(Other(w)).local == s.At(Other(w)).local
  {
    hide RunOk, Same, Door, TextSent, Exec, Send, Base, InTransit;
    ChatMoves(Alpha(s), w, data);
    PairedPolls(s, w);
    steps := DoorSend(s, w, data);
    hide Quiescent, Perform;
    SameLocals(Perform(Alpha(s), w, Send(s.At(w).local, data)), Alpha(Exec(s, steps)));
    SameChat(Perform(Alpha(s), w, Send(s.At(w).local, data)), Alpha(Exec(s, steps)), w, data);
  }

  /** The other side reads the text. */
  lemma TextReadRun(s: World, w: Who, data: seq<byte>) returns (steps: seq<Step>)
    requires RunOk(s) && Door(s) && TextSent(Alpha(s), w, data)
    ensures var u := Exec(s, steps);
            && RunOk(u) && Door(u) && u.quota == s.quota && ReceiptSent(Alpha(u), w, MessageId(data))
            && u.At(w).local == s.At(w).local
            && u.At(Other(w)).local.contact == s.At(Other(w)).local.contact
            && u.At(Other(w)).local.interval == s.At(Other(w)).local.interval
            && u.At(Other(w)).local.history == s.At(Other(w)).local.history + [TextEntry(data)]
  {
    hide RunOk, Same, ReceiptSent, Exec, Deliver, Base, InTransit, Receive;
    var v, m := Other(w), s.At(w).local.contact.txId;
    PairedPolls(s, w);
    PairedPolls(s, v);
    OnlyMailbox(s, v, m);
    assert s.At(v).down[0].mailbox == m by { DoorHeadIs(s, v, m); }
    TextMoves(Alpha(s), w, data);
    hide Door, TextSent;
    steps := DoorDeliver(s, v, false);
    SameLocals(Deliver(Alpha(s), v, m), Alpha(Exec(s, steps)));
    SameChat(Deliver(Alpha(s), v, m), Alpha(Exec(s, steps)), w, data);
  }

  lemma DoorHeadIs(s: World, w: Who, m: MailboxId)
    requires RunOk(s) && s.At(w).down == Alpha(s).mail(m) && s.At(w).down != []
    ensures s.At(w).down[0].mailbox == m
  {
    hide RunOk, Base, InTransit, WellAddressed;
    RunOkBase(s);
    MailOf(Alpha(s), m, 0);
  }

  /** w reads the receipt: all is quiet again. */
  lemma ReceiptReadRun(s: World, w: Who, id: MessageId) returns (steps: seq<Step>)
    requires RunOk(s) && Door(s) && ReceiptSent(Alpha(s), w, id)
    ensures var u := Exec(s, steps);
            && RunOk(u) && Door(u) && u.quota == s.quota && Quiescent(Alpha(u))
            && u.At(Other(w)).local == s.At(Other(w)).local
            && u.At(w).local.contact == s.At(w).local.contact && u.At(w).local.interval == s.At(w).local.interval
            && u.At(w).local.history == UpdateStatus(s.At(w).local.history, id, Delivered)
    ensures steps != [] && steps[0] == DoDeliver(w) && s.At(w).down != []
    ensures Listens(s.At(w).local.contact, s.At(w).down[0].mailbox) && SideOf(Alpha(s), s.At(w).down[0].mailbox) == Other(w)
    ensures Alpha(s).mail(s.At(w).down[0].mailbox) != [] && Alpha(s).mail(s.At(w).down[0].mailbox)[0] == s.At(w).down[0]
    ensures s.At(w).down[0].payload.Sealed? && s.At(w).down[0].payload.plain == Receipt(id)
  {
    hide RunOk, Same, Quiescent, Exec, Deliver, Base, InTransit, Receive, UpdateStatus;
    var m := s.At(w).local.contact.rxId;
    PairedPolls(s, w);
    OnlyMailbox(s, w, m);
    assert s.At(w).down[0].mailbox == m by { DoorHeadIs(s, w, m); }
    ReceiptMoves(Alpha(s), w, id);
    hide Door;
    steps := DoorDeliver(s, w, false);
    SameLocals(Deliver(Alpha(s), w, m), Alpha(Exec(s, steps)));
    SameQuiescent(Deliver(Alpha(s), w, m), Alpha(Exec(s, steps)));
  }

  /** One text, delivered and acknowledged. */
  lemma ChatRun(s: World, w: Who, data: seq<byte>) returns (steps: seq<Step>)
    requires RunOk(s) && Door(s) && Quiescent(Alpha(s)) && MaySend(s.At(w).local)
    ensures var u := Exec(s, steps);
            && RunOk(u) && Door(u) && Quiescent(Alpha(u)) && u.quota == s.quota
            && u.At(w).local.interval == s.At(w).local.interval
            && u.At(w).local.contact.counter == (s.At(w).local.contact.counter + 1) % UINT32_RANGE
            && u.At(w).local.history == UpdateStatus(s.At(w).local.history + [SentEntry(data)], MessageId(data), Delivered)
            && u.At(Other(w)).local.interval == s.At(Other(w)).local.interval
            && u.At(Other(w)).local.contact.counter == s.At(Other(w)).local.contact.counter
            && u.At(Other(w)).local.history == s.At(Other(w)).local.history + [TextEntry(data)]
  {
    hide RunOk, Door, Quiescent, TextSent, ReceiptSent, Exec, UpdateStatus, InTransit;
    var p := TextRun(s, w, data);
    var t := Exec(s, p);
    var q := TextReadRun(t, w, data);
    var u := Exec(t, q);
    var z := ReceiptReadRun(u, w, MessageId(data));
    steps := p + (q + z);
    ExecConcat(s, p, q + z);
    ExecConcat(t, q, z);
  }

  /** Texts bring w to the point where its next one starts a rotation. */
  lemma {:induction false} ChatUntilDue(s: World, w: Who, data: seq<byte>) returns (steps: seq<Step>)
    requires RunOk(s) && Door(s) && Quiescent(Alpha(s)) && s.At(w).local.interval < UINT32_RANGE
    ensures var u := Exec(s, steps);
            && RunOk(u) && Door(u) && Quiescent(Alpha(u)) && u.quota == s.quota
            && u.At(w).local.interval == s.At(w).local.interval
            && u.At(w).local.contact.counter >= u.At(w).local.interval
            && u.At(Other(w)).local.interval == s.At(Other(w)).local.interval
            && u.At(Other(w)).local.contact.counter == s.At(Other(w)).local.contact.counter
    decreases s.At(w).local.interval - s.At(w).local.contact.counter
  {
    hide RunOk, Door, Quiescent, Exec;
    if s.At(w).local.contact.counter >= s.At(w).local.interval {
      steps := [];
      ExecOne(s, DoServe(w));
    } else {
      var p := ChatRun(s, w, data);
      var q := ChatUntilDue(Exec(s, p), w, data);
      steps := p + q;
      ExecConcat(s, p, q);
    }
  }

  // ---------------------------------------------------------------- the initial handshake

  /** Both clients connected; the initiator's first request is on its way. */
  ghost predicate Greeted(a: Abs, w: Who, e: SecretKey) {
    && Base(a)
    && Paired(a.alice.contact, a.bob.contact)
    && !a.At(w).contact.complete && !a.At(Other(w)).contact.complete
    && a.At(w).contact.pending == Some(e) && a.At(Other(w)).contact.pending == None
    && Kinds(a.mail(a.At(w).contact.txId), [ARequest(e)])
    && forall m | m != a.At(w).contact.txId :: a.mail(m) == []
  }

  /** The other side has answered; its answer is on its way. */
  ghost predicate FirstAnswered(a: Abs, w: Who, e: SecretKey, f: SecretKey) {
    var c := a.At(w).contact;
    var d := a.At(Other(w)).contact;
    && Base(a)
    && c.pending == Some(e) && c.oldRxId == None
    && d.complete && d.pfs == Idle && d.oldRxId == None && d.counter == 0
    && d.txId == MailboxOf(f, e) && d.rxId == MailboxOf(e, f)
    && Kinds(a.mail(c.rxId), [AnAnswer(f)])
    && forall m | m != c.rxId :: a.mail(m) == []
  }

  lemma SameHandshake(a: Abs, b: Abs, w: Who, e: SecretKey, f: SecretKey)
    requires Same(a, b)
    ensures Greeted(a, w, e) ==> Greeted(b, w, e)
    ensures FirstAnswered(a, w, e, f) ==> FirstAnswered(b, w, e, f)
  {
    hide Base;
    if Base(a) {
      SameBase(a, b);
    }
  }

  lemma GreetedFacts(a: Abs, w: Who, e: SecretKey)
    requires Greeted(a, w, e)
    ensures a.At(w).contact.oldRxId == None
    ensures a.At(Other(w)).contact.txId == a.At(w).contact.rxId && a.At(Other(w)).contact.rxId == a.At(w).contact.txId
    ensures a.At(w).contact.txId != a.At(w).contact.rxId
  {
    hide Base;
    LocalOf(a, w);
  }

  lemma FirstRequestMoves(a: Abs, w: Who, e: SecretKey) returns (f: SecretKey)
    requires Greeted(a, w, e)
    ensures a.At(Other(w)).contact.rxId == a.At(w).contact.txId && a.mail(a.At(w).contact.txId) != []
    ensures var b := Deliver(a, Other(w), a.At(w).contact.txId);
            && FirstAnswered(b, w, e, f)
            && forall v :: b.At(v).interval == a.At(v).interval && b.At(v).history == a.At(v).history
  {
    hide Base, Deliver, MailboxOf;
    var m := a.At(w).contact.txId;
    var p := a.At(Other(w));
    f := Ephemeral(p.me, p.generated);
    GreetedFacts(a, w, e);
    ListensArrive(a, Other(w), m);
    DeliverFirstRequest(a, Other(w), m, PublicKey(e));
    hide Arriving;
    var ack := SealTo(Push, p.contact, RotateAck(PublicKey(f), Signature(p.me, [PublicKey(e), PublicKey(f)])));
    assert a.mail(p.contact.txId) + [ack] == [ack];
  }

  lemma FirstAnswerMoves(a: Abs, w: Who, e: SecretKey, f: SecretKey)
    requires FirstAnswered(a, w, e, f)
    ensures a.mail(a.At(w).contact.rxId) != []
    ensures var b := Deliver(a, w, a.At(w).contact.rxId);
            && Quiescent(b)
            && forall v :: b.At(v).interval == a.At(v).interval && b.At(v).contact.counter == 0 && b.At(v).history == a.At(v).history
  {
    hide Base, Deliver, MailboxOf;
    var m := a.At(w).contact.rxId;
    ListensArrive(a, w, m);
    DeliverAck(a, w, m, PublicKey(f));
    hide Arriving;
    forall n ensures Deliver(a, w, m).mail(n) == [] {
    }
  }

  /** The two connects: the initiator queues its first request, the other side queues nothing. */
  lemma ConnectShape(p: Local)
    requires !p.connected && !p.contact.complete && p.contact.pfs == Idle && p.generated == 0
    ensures var e := Connect(p);
            var key := Ephemeral(p.me, 0);
            if IsInitialPfsInitiator(p.me, p.contact.publicKey) then
              && |e.out| == 1 && KindOk(e.out[0], ARequest(key)) && IsMail(e.out[0]) && e.out[0].mailbox == p.contact.txId
              && e.local == p.(connected := true, generated := 1,
                               contact := p.contact.(pfs := RotationRequested, pending := Some(key), counter := 0))
            else e == Effect(p.(connected := true), [], Quiet)
  {
  }

  lemma ConnectBoth(g: Config, w: Who) returns (s: World)
    requires ValidConfig(g)
    requires w == if IsInitialPfsInitiator(g.alice, g.bob) then Alice else Bob
    ensures s == Do(Do(Init(g), DoConnect(Other(w))), DoConnect(w))
    ensures RunOk(s) && Connected(g, w, s)
    ensures exists e :: Greeted(Alpha(s), w, e)
  {
    hide RunOk, PhaseOk, Do, Same, Moved, MoveOf, Possible, Connected;
    var i := Init(g);
    InitOk(g);
    var t := Do(i, DoConnect(Other(w)));
    s := Do(t, DoConnect(w));
    StepRefines(i, DoConnect(Other(w)));
    StepRefines(t, DoConnect(w));
    ConnectedAfter(g, w);
    ConnectedGreets(g, w, s);
  }

  function PartyOf(g: Config, w: Who): Party {
    if w == Alice then g.alice else g.bob
  }

  /** Both have connected: the initiator's request is in its outbox, everything else is empty. */
  predicate Connected(g: Config, w: Who, s: World) {
    var me, them := PartyOf(g, w), PartyOf(g, Other(w));
    var c, e := NewContact(me, them), Ephemeral(me, 0);
    && s.quota == g.quota && s.queues == map[]
    && s.alice.local.interval == g.aliceInterval && s.bob.local.interval == g.bobInterval
    && s.At(w).local.me == me && s.At(Other(w)).local.me == them && me != them
    && s.At(w).local.connected && s.At(Other(w)).local.connected
    && s.alice.local.history == [] && s.bob.local.history == []
    && s.At(w).local.contact == c.(pfs := RotationRequested, pending := Some(e), counter := 0)
    && s.At(Other(w)).local.contact == NewContact(them, me)
    && s.At(w).up == [] && s.At(w).down == []
    && s.At(Other(w)).up == [] && s.At(Other(w)).down == [] && s.At(Other(w)).outbox == []
    && |s.At(w).outbox| == 1 && KindOk(s.At(w).outbox[0], ARequest(e))
    && IsMail(s.At(w).outbox[0]) && s.At(w).outbox[0].mailbox == c.txId
  }

  lemma ConnectedAfter(g: Config, w: Who)
    requires ValidConfig(g)
    requires w == if IsInitialPfsInitiator(g.alice, g.bob) then Alice else Bob
    ensures Connected(g, w, Do(Do(Init(g), DoConnect(Other(w))), DoConnect(w)))
  {
    LexLessTrichotomy(g.alice, g.bob);
    var i := Init(g);
    var t := Do(i, DoConnect(Other(w)));
    ConnectShape(i.At(Other(w)).local);
    ConnectShape(t.At(w).local);
    hide Connect, KindOk, IsInitialPfsInitiator;
  }

  lemma ConnectedGreets(g: Config, w: Who, s: World)
    requires RunOk(s) && Connected(g, w, s)
    ensures exists e :: Greeted(Alpha(s), w, e)
  {
    hide RunOk;
    ScalarMultCommutes(Identity(g.alice), Identity(g.bob));
    var tx := s.At(w).local.contact.txId;
    assert Paired(s.alice.local.contact, s.bob.local.contact);
    forall m ensures InTransit(s, m) == if m == tx then s.At(w).outbox else [] {
      MailAllTo(s.At(w).outbox, tx, m);
    }
    hide InTransit, Base;
    RunOkBase(s);
    assert Kinds(Alpha(s).mail(tx), [ARequest(Ephemeral(PartyOf(g, w), 0))]);
    hide Kinds, KindOk;
    assert Greeted(Alpha(s), w, Ephemeral(PartyOf(g, w), 0));
  }

  /** The initiator's request comes to the other's door. */
  lemma GreetingRun(g: Config, w: Who, s: World) returns (steps: seq<Step>)
    requires RunOk(s) && Connected(g, w, s) && g.quota > 0
    ensures var u := Exec(s, steps);
            && RunOk(u) && Door(u) && u.quota == s.quota && Same(Alpha(s), Alpha(u))
  {
    hide RunOk, Same, Exec, KindOk;
    ScalarMultCommutes(Identity(g.alice), Identity(g.bob));
    steps := PassAll(s, w, false);
  }

  /** The initial handshake, from the bootstrap to a quiet moment with fresh counters and empty histories. */
  lemma HandshakeRun(g: Config) returns (steps: seq<Step>)
    requires ValidConfig(g) && g.quota > 0
    ensures var u := Exec(Init(g), steps);
            && RunOk(u) && Door(u) && Quiescent(Alpha(u)) && u.quota == g.quota
            && u.alice.local.interval == g.aliceInterval && u.bob.local.interval == g.bobInterval
            && u.alice.local.contact.counter == 0 && u.bob.local.contact.counter == 0
            && u.alice.local.history == [] && u.bob.local.history == []
  {
    hide RunOk, Same, Quiescent, Greeted, FirstAnswered, Exec, Deliver, Do, IsInitialPfsInitiator, InTransit, Door;
    var w := if IsInitialPfsInitiator(g.alice, g.bob) then Alice else Bob;
    var s := ConnectBoth(g, w);
    var e :| Greeted(Alpha(s), w, e);
    var p := GreetingRun(g, w, s);
    var t := Exec(s, p);
    SameLocals(Alpha(s), Alpha(t));
    SameHandshake(Alpha(s), Alpha(t), w, e, e);
    var q, f := FirstAnswerRun(t, w, e);
    var u := Exec(t, q);
    var z := FirstFinishRun(u, w, e, f);
    var x := Exec(u, z);
    assert x.At(Alice) == x.alice && x.At(Bob) == x.bob;
    hide Connected;
    var both := [DoConnect(Other(w)), DoConnect(w)];
    ExecTwo(Init(g), DoConnect(Other(w)), DoConnect(w));
    steps := both + (p + (q + z));
    ExecConcat(Init(g), both, p + (q + z));
    ExecConcat(s, p, q + z);
    ExecConcat(t, q, z);
  }

  lemma FirstAnswerRun(s: World, w: Who, e: SecretKey) returns (steps: seq<Step>, f: SecretKey)
    requires RunOk(s) && Door(s) && Greeted(Alpha(s), w, e)
    ensures var u := Exec(s, steps);
            && RunOk(u) && Door(u) && u.quota == s.quota && FirstAnswered(Alpha(u), w, e, f)
            && forall v :: u.At(v).local.interval == s.At(v).local.interval && u.At(v).local.history == s.At(v).local.history
  {
    hide RunOk, Same, FirstAnswered, Exec, Deliver, Base, InTransit, Receive;
    var v, m := Other(w), s.At(w).local.contact.txId;
    PairedPolls(s, w);
    PairedPolls(s, v);
    OnlyMailbox(s, v, m);
    assert s.At(v).down[0].mailbox == m by { DoorHeadIs(s, v, m); }
    f := FirstRequestMoves(Alpha(s), w, e);
    hide Door, Greeted;
    steps := DoorDeliver(s, v, false);
    SameLocals(Deliver(Alpha(s), v, m), Alpha(Exec(s, steps)));
    SameHandshake(Deliver(Alpha(s), v, m), Alpha(Exec(s, steps)), w, e, f);
  }

  lemma FirstFinishRun(s: World, w: Who, e: SecretKey, f: SecretKey) returns (steps: seq<Step>)
    requires RunOk(s) && Door(s) && FirstAnswered(Alpha(s), w, e, f)
    ensures var u := Exec(s, steps);
            && RunOk(u) && Door(u) && u.quota == s.quota && Quiescent(Alpha(u))
            && forall v :: u.At(v).local.interval == s.At(v).local.interval && u.At(v).local.contact.counter == 0
                           && u.At(v).local.history == s.At(v).local.history
  {
    hide RunOk, Same, Quiescent, Exec, Deliver, Base, InTransit, Receive;
    var m := s.At(w).local.contact.rxId;
    assert SenderOf(s, m) == Other(w) by { ReadsFrom(s, w); }
    OnlyMailbox(s, w, m);
    assert s.At(w).down[0].mailbox == m by { DoorHeadIs(s, w, m); }
    FirstAnswerMoves(Alpha(s), w, e, f);
    var t := ReadHead(s, w);
    steps := [DoDeliver(w)];
    ExecOne(s, DoDeliver(w));
    AckIsSilent(Alpha(s), w, m, f);
    assert forall g | g in t.alice.down + t.bob.down :: g in s.alice.down + s.bob.down;
    SameLocals(Deliver(Alpha(s), w, m), Alpha(t));
    SameQuiescent(Deliver(Alpha(s), w, m), Alpha(t));
  }

  /** Taking an answer sends nothing. */
  lemma AckIsSilent(a: Abs, w: Who, m: MailboxId, f: SecretKey)
    requires Base(a) && a.mail(m) != [] && Listens(a.At(w).contact, m) && KindOk(a.mail(m)[0], AnAnswer(f))
    ensures Receive(a.At(w), a.mail(m)[0]).out == []
  {
    hide Base;
    MailOf(a, m, 0);
    ListensArrive(a, w, m);
    ListensOpens(a, w, m);
    PushEffect(a.At(w), a.mail(m)[0]);
    hide Receive;
  }
}
