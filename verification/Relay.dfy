/**
  * The whole system: two clients, each with an outbox and a connection to the relay in both
  * directions, and the relay's queues. It refines lossy mail.
  */
module Relay {
  import opened Common
  import opened Crypto
  import opened ClientCore
  import opened LossyMail
  import opened Rotation
  import Broker

  /** A client with its outbox, the frames it has written and the answers not yet read. */
  datatype Side = Side(local: Local, outbox: seq<MailFrame>, up: seq<MailFrame>, down: seq<MailFrame>)

  datatype World = World(alice: Side, bob: Side, queues: Broker.Queues<MailboxId, Payload>, quota: nat) {
    function At(w: Who): Side {
      if w == Alice then alice else bob
    }

    function Put(w: Who, side: Side): World {
      if w == Alice then this.(alice := side) else this.(bob := side)
    }
  }

  /** One atomic step. A step that is not possible in a state leaves it unchanged. */
  datatype Step =
    | DoConnect(w: Who)
    | DoSend(w: Who, data: seq<byte>)
    | DoTick(w: Who, pollOld: bool)
    | DoServe(w: Who)
    | DoDeliver(w: Who)

  function Act(s: World, w: Who, e: Effect): World {
    var side := s.At(w);
    s.Put(w, side.(local := e.local, outbox := side.outbox + e.out))
  }

  function PollTarget(c: ContactState, pollOld: bool): MailboxId {
    if pollOld && c.oldRxId.Some? then c.oldRxId.value else c.rxId
  }

  /** What can be polled is what the contact listens on. */
  lemma PollsListened(c: ContactState, m: MailboxId)
    ensures Listens(c, m) <==> m == PollTarget(c, false) || m == PollTarget(c, true)
  {
  }

  /** A timer tick sends the oldest queued frame, or else a poll for one of the active mailboxes. */
  function Tick(s: World, w: Who, pollOld: bool): World {
    var side := s.At(w);
    if !side.local.connected then s
    else if side.outbox != [] then
      s.Put(w, side.(outbox := side.outbox[1..], up := side.up + [side.outbox[0]]))
    else
      s.Put(w, side.(up := side.up + [Frame(Poll, PollTarget(side.local.contact, pollOld), Zeros)]))
  }

  function ServeNext(s: World, w: Who): World {
    var side := s.At(w);
    if side.up == [] then s
    else
      var (queues, answer) := Broker.Serve(s.queues, s.quota, side.up[0], Zeros);
      s.Put(w, side.(up := side.up[1..], down := side.down + answer)).(queues := queues)
  }

  function DeliverNext(s: World, w: Who): World {
    var side := s.At(w);
    if side.down == [] then s
    else Act(s.Put(w, side.(down := side.down[1..])), w, Receive(side.local, side.down[0]))
  }

  function Do(s: World, step: Step): World {
    match step
    case DoConnect(w) => Act(s, w, Connect(s.At(w).local))
    case DoSend(w, data) => Act(s, w, Send(s.At(w).local, data))
    case DoTick(w, pollOld) => Tick(s, w, pollOld)
    case DoServe(w) => ServeNext(s, w)
    case DoDeliver(w) => DeliverNext(s, w)
  }

  // ---------------------------------------------------------------- mail in transit

  /** The frames of a pipe that carry mail for one mailbox. */
  function Mail(fs: seq<MailFrame>, m: MailboxId): seq<MailFrame> {
    if fs == [] then []
    else (if IsMail(fs[0]) && fs[0].mailbox == m then [fs[0]] else []) + Mail(fs[1..], m)
  }

  lemma {:induction false} MailOfConcat(a: seq<MailFrame>, b: seq<MailFrame>, m: MailboxId)
    ensures Mail(a + b, m) == Mail(a, m) + Mail(b, m)
  {
    if a == [] {
      assert a + b == b;
    } else {
      assert (a + b)[1..] == a[1..] + b;
      MailOfConcat(a[1..], b, m);
    }
  }

  lemma MailOfHead(fs: seq<MailFrame>, m: MailboxId)
    requires fs != []
    ensures Mail(fs, m) == Mail([fs[0]], m) + Mail(fs[1..], m)
  {
  }

  lemma {:induction false} MailAllTo(fs: seq<MailFrame>, tx: MailboxId, m: MailboxId)
    requires forall f | f in fs :: IsMail(f) && f.mailbox == tx
    ensures Mail(fs, m) == if m == tx then fs else []
  {
    if fs != [] {
      MailAllTo(fs[1..], tx, m);
    }
  }

  function SenderOf(s: World, m: MailboxId): Who {
    if Sender(m).party == s.alice.local.me then Alice else Bob
  }

  /** The four pipes of a mailbox: read by the relay, queued, written by the client, waiting in its outbox. */
  function Pipeline<T>(down: seq<T>, queue: seq<T>, up: seq<T>, outbox: seq<T>): seq<T> {
    down + queue + up + outbox
  }

  /** Moving frames between neighbouring pipes changes nothing; frames enter last and leave first. */
  lemma PipelineMoves<T>(d: seq<T>, q: seq<T>, x: seq<T>, u: seq<T>, o: seq<T>)
    ensures Pipeline(d, q, u + x, o) == Pipeline(d, q, u, x + o)
    ensures Pipeline(d, q + x, u, o) == Pipeline(d, q, x + u, o)
    ensures Pipeline(d + x, q, u, o) == Pipeline(d, x + q, u, o)
    ensures Pipeline(x + d, q, u, o) == x + Pipeline(d, q, u, o)
    ensures Pipeline(d, q, u, o + x) == Pipeline(d, q, u, o) + x
  {
  }

  lemma PipelineLoses<T>(d: seq<T>, q: seq<T>, f: T, u: seq<T>, o: seq<T>)
    ensures var all := Pipeline(d, q, [f] + u, o);
            var i := |d| + |q|;
            i < |all| && Pipeline(d, q, u, o) == all[..i] + all[i + 1..] && all[i] == f
  {
  }

  /** Mail on its way through the pipes of one mailbox, oldest first. */
  function InTransit(s: World, m: MailboxId): seq<MailFrame> {
    var w := SenderOf(s, m);
    Pipeline(Mail(s.At(Other(w)).down, m), Broker.QueueOf(s.queues, m), Mail(s.At(w).up, m), Mail(s.At(w).outbox, m))
  }

  function Alpha(s: World): Abs {
    Abs(s.alice.local, s.bob.local, (m: MailboxId) => InTransit(s, m))
  }

  /** Each pipe only holds mail of the right sender, and polls ask for mail of the other side. */
  ghost predicate WellAddressed(s: World) {
    && s.alice.local.me != s.bob.local.me
    && Broker.Sound(s.queues, s.quota)
    && (forall m | m in s.queues :: forall i | 0 <= i < |s.queues[m]| :: IsMail(s.queues[m][i]))
    && SideAddressed(s, Alice)
    && SideAddressed(s, Bob)
  }

  ghost predicate SideAddressed(s: World, w: Who) {
    && (forall f | f in s.At(w).outbox :: IsMail(f) && Sender(f.mailbox).party == s.At(w).local.me)
    && (forall f | f in s.At(w).up ::
          || (IsMail(f) && Sender(f.mailbox).party == s.At(w).local.me)
          || (f.action == Poll && Sender(f.mailbox).party == s.At(Other(w)).local.me))
    && (forall f | f in s.At(w).down ::
          (IsMail(f) || f.action == Poll) && Sender(f.mailbox).party == s.At(Other(w)).local.me)
  }

  // ---------------------------------------------------------------- refinement

  predicate Addressed(e: Effect, tx: MailboxId) {
    forall f | f in e.out :: IsMail(f) && f.mailbox == tx
  }

  lemma ActionsAddress(p: Local, data: seq<byte>)
    ensures Addressed(Connect(p), p.contact.txId) && Connect(p).local.me == p.me
    ensures Addressed(Send(p, data), p.contact.txId) && Send(p, data).local.me == p.me
  {
  }

  lemma RotationAddresses(p: Local, key: PublicKey, signature: Signature)
    ensures var e := HandleRotateRequest(p, key, signature);
            Addressed(e, p.contact.txId) && e.local.me == p.me
    ensures var e := HandleRotateAck(p, key, signature);
            Addressed(e, p.contact.txId) && e.local.me == p.me
  {
  }

  lemma ReceiveAddresses(p: Local, f: MailFrame)
    ensures Addressed(Receive(p, f), p.contact.txId) && Receive(p, f).local.me == p.me
  {
    var usedOldKey := p.contact.oldRxId == Some(f.mailbox);
    var q := p.(contact := DropOld(p.contact, usedOldKey));
    if f.payload.Sealed? && (f.payload.plain.RotateRequest? || f.payload.plain.RotateAck?) {
      RotationAddresses(q, f.payload.plain.key, f.payload.plain.signature);
    }
    hide HandleRotateRequest, HandleRotateAck;
  }

  lemma HandlersAddress(p: Local, data: seq<byte>, f: MailFrame)
    ensures Addressed(Connect(p), p.contact.txId) && Connect(p).local.me == p.me
    ensures Addressed(Send(p, data), p.contact.txId) && Send(p, data).local.me == p.me
    ensures Addressed(Receive(p, f), p.contact.txId) && Receive(p, f).local.me == p.me
  {
    hide Addressed, Connect, Send, Receive;
    ActionsAddress(p, data);
    ReceiveAddresses(p, f);
  }

  lemma ActAddressed(s: World, w: Who, e: Effect)
    requires WellAddressed(s) && LocalOk(Alpha(s), w)
    requires Addressed(e, s.At(w).local.contact.txId) && e.local.me == s.At(w).local.me
    ensures WellAddressed(Act(s, w, e))
  {
  }

  lemma ActTransit(s: World, w: Who, e: Effect, m: MailboxId)
    requires s.alice.local.me != s.bob.local.me
    requires Sender(s.At(w).local.contact.txId).party == s.At(w).local.me
    requires Addressed(e, s.At(w).local.contact.txId) && e.local.me == s.At(w).local.me
    ensures InTransit(Act(s, w, e), m)
         == InTransit(s, m) + (if m == s.At(w).local.contact.txId then e.out else [])
  {
    hide Mail, Broker.QueueOf, Pipeline;
    MailOfConcat(s.At(w).outbox, e.out, m);
    MailAllTo(e.out, s.At(w).local.contact.txId, m);
    var v, t := SenderOf(s, m), Act(s, w, e);
    var more := if m == s.At(w).local.contact.txId then e.out else [];
    var d, q := Mail(s.At(Other(v)).down, m), Broker.QueueOf(s.queues, m);
    var u, o := Mail(s.At(v).up, m), Mail(s.At(v).outbox, m);
    assert SenderOf(t, m) == v && (more != [] ==> v == w);
    assert Mail(t.At(v).outbox, m) == o + more;
    assert InTransit(s, m) == Pipeline(d, q, u, o) && InTransit(t, m) == Pipeline(d, q, u, o + more);
    hide InTransit;
    PipelineMoves(d, q, more, u, o);
  }

  lemma ActRefines(s: World, w: Who, e: Effect)
    requires WellAddressed(s) && LocalOk(Alpha(s), w)
    requires Addressed(e, s.At(w).local.contact.txId) && e.local.me == s.At(w).local.me
    ensures WellAddressed(Act(s, w, e))
    ensures Same(Alpha(Act(s, w, e)), Perform(Alpha(s), w, e))
  {
    ActAddressed(s, w, e);
    hide WellAddressed, InTransit;
    forall m ensures InTransit(Act(s, w, e), m) == Perform(Alpha(s), w, e).mail(m) {
      ActTransit(s, w, e, m);
    }
  }

  function Flush(s: World, w: Who): World
    requires s.At(w).outbox != []
  {
    var side := s.At(w);
    s.Put(w, side.(outbox := side.outbox[1..], up := side.up + [side.outbox[0]]))
  }

  function AskFor(s: World, w: Who, m: MailboxId): World {
    s.Put(w, s.At(w).(up := s.At(w).up + [Frame(Poll, m, Zeros)]))
  }

  lemma FlushTransit(s: World, w: Who, m: MailboxId)
    requires s.At(w).outbox != []
    ensures InTransit(Flush(s, w), m) == InTransit(s, m)
  {
    var side := s.At(w);
    MailOfConcat(side.up, [side.outbox[0]], m);
    MailOfHead(side.outbox, m);
    PipelineMoves(Mail(s.At(Other(w)).down, m), Broker.QueueOf(s.queues, m), Mail([side.outbox[0]], m),
                  Mail(side.up, m), Mail(side.outbox[1..], m));
    hide Mail, Broker.QueueOf, Pipeline;
  }

  lemma AskTransit(s: World, w: Who, n: MailboxId, m: MailboxId)
    ensures InTransit(AskFor(s, w, n), m) == InTransit(s, m)
  {
    hide Mail, Broker.QueueOf, Pipeline;
    PollNoMail(s.At(w).up, n, m);
  }

  lemma PollNoMail(up: seq<MailFrame>, n: MailboxId, m: MailboxId)
    ensures Mail(up + [Frame(Poll, n, Zeros)], m) == Mail(up, m)
  {
    var poll: MailFrame := Frame(Poll, n, Zeros);
    assert Mail([poll], m) == [];
    hide Mail;
    MailOfConcat(up, [poll], m);
    assert Mail(up, m) + [] == Mail(up, m);
  }

  lemma FlushAddressed(s: World, w: Who)
    requires WellAddressed(s) && s.At(w).outbox != []
    ensures WellAddressed(Flush(s, w))
  {
    var side := s.At(w);
    assert side.outbox[0] in side.outbox;
    assert forall f | f in side.outbox[1..] :: f in side.outbox;
  }

  lemma TickRefines(s: World, w: Who, pollOld: bool)
    requires WellAddressed(s) && LocalOk(Alpha(s), w)
    ensures WellAddressed(Tick(s, w, pollOld))
    ensures Same(Alpha(Tick(s, w, pollOld)), Alpha(s))
  {
    var t := Tick(s, w, pollOld);
    var side := s.At(w);
    if side.local.connected && side.outbox != [] {
      FlushAddressed(s, w);
      hide Mail, WellAddressed, InTransit;
      forall m ensures InTransit(t, m) == InTransit(s, m) {
        FlushTransit(s, w, m);
      }
    } else if side.local.connected {
      hide Mail, InTransit;
      forall m ensures InTransit(t, m) == InTransit(s, m) {
        AskTransit(s, w, PollTarget(side.local.contact, pollOld), m);
      }
    }
  }

  // ---------------------------------------------------------------- the relay's part

  /** How a frame read by the relay affects the mail in transit: not at all, or a quota loss. */
  predicate LostAtQuota(s: World, w: Who) {
    && s.At(w).up != []
    && IsMail(s.At(w).up[0])
    && !Broker.Accepts(s.queues, s.quota, s.At(w).up[0].mailbox)
  }

  /** The place of the lost frame among the mail in transit of its mailbox. */
  function LossIndex(s: World, w: Who): nat
    requires LostAtQuota(s, w)
  {
    var m := s.At(w).up[0].mailbox;
    |Mail(s.At(Other(w)).down, m)| + |Broker.QueueOf(s.queues, m)|
  }

  lemma ServePushAddressed(s: World, w: Who)
    requires WellAddressed(s) && s.At(w).up != [] && IsMail(s.At(w).up[0])
    ensures WellAddressed(ServeNext(s, w))
  {
    hide Broker.Sound, Broker.PushTo;
    var f := s.At(w).up[0];
    PushKeepsMailOnly(s.queues, s.quota, f);
    assert f in s.At(w).up;
    assert forall g | g in s.At(w).up[1..] :: g in s.At(w).up;
  }

  lemma PushKeepsMailOnly(queues: Broker.Queues<MailboxId, Payload>, quota: nat, f: MailFrame)
    requires Broker.Sound(queues, quota) && IsMail(f)
    requires forall m | m in queues :: forall i | 0 <= i < |queues[m]| :: IsMail(queues[m][i])
    ensures var rest := Broker.PushTo(queues, quota, f);
            && Broker.Sound(rest, quota)
            && (forall m | m in rest :: forall i | 0 <= i < |rest[m]| :: IsMail(rest[m][i]))
  {
    var op: Broker.Op<MailboxId, Payload> := Broker.PushOp(f);
    Broker.ApplyKeepsSound(queues, quota, op);
    hide Broker.Sound;
  }

  lemma PushFacts(s: World, w: Who, m: MailboxId)
    requires WellAddressed(s) && s.At(w).up != [] && IsMail(s.At(w).up[0])
    ensures var t := ServeNext(s, w);
            var f := s.At(w).up[0];
            && t.At(w) == s.At(w).(up := s.At(w).up[1..])
            && t.At(Other(w)) == s.At(Other(w))
            && (m == f.mailbox ==> SenderOf(s, m) == w)
            && (m != f.mailbox ==> Mail(s.At(w).up, m) == Mail(s.At(w).up[1..], m)
                                   && Broker.QueueOf(t.queues, m) == Broker.QueueOf(s.queues, m))
            && (m == f.mailbox ==> Mail(s.At(w).up, m) == [f] + Mail(s.At(w).up[1..], m)
                                   && Broker.QueueOf(t.queues, m)
                                      == if LostAtQuota(s, w) then Broker.QueueOf(s.queues, m)
                                         else Broker.QueueOf(s.queues, m) + [f])
  {
    assert s.At(w).up[0] in s.At(w).up;
    assert s.At(w).down + [] == s.At(w).down;
  }

  lemma ServePushTransit(s: World, w: Who, m: MailboxId)
    requires WellAddressed(s) && s.At(w).up != [] && IsMail(s.At(w).up[0])
    ensures !LostAtQuota(s, w) || m != s.At(w).up[0].mailbox ==>
              InTransit(ServeNext(s, w), m) == InTransit(s, m)
    ensures LostAtQuota(s, w) && m == s.At(w).up[0].mailbox ==>
              var i := LossIndex(s, w);
              i < |InTransit(s, m)| && InTransit(ServeNext(s, w), m) == InTransit(s, m)[..i] + InTransit(s, m)[i + 1..]
  {
    hide WellAddressed, Mail, ServeNext, Broker.QueueOf, Pipeline, LostAtQuota, InTransit, LossIndex;
    if m != s.At(w).up[0].mailbox {
      OtherPushTransit(s, w, m);
    } else if LostAtQuota(s, w) {
      LostPushTransit(s, w, m);
    } else {
      TakenPushTransit(s, w, m);
    }
  }

  lemma OtherPushTransit(s: World, w: Who, m: MailboxId)
    requires WellAddressed(s) && s.At(w).up != [] && IsMail(s.At(w).up[0]) && m != s.At(w).up[0].mailbox
    ensures InTransit(ServeNext(s, w), m) == InTransit(s, m)
  {
    PushFacts(s, w, m);
    hide WellAddressed, Mail, ServeNext, Broker.QueueOf, Pipeline, LostAtQuota;
  }

  lemma TakenPushTransit(s: World, w: Who, m: MailboxId)
    requires WellAddressed(s) && s.At(w).up != [] && IsMail(s.At(w).up[0]) && m == s.At(w).up[0].mailbox
    requires !LostAtQuota(s, w)
    ensures InTransit(ServeNext(s, w), m) == InTransit(s, m)
  {
    PushFacts(s, w, m);
    hide WellAddressed, Mail, ServeNext, Broker.QueueOf, Pipeline, LostAtQuota;
    PipelineMoves(Mail(s.At(Other(w)).down, m), Broker.QueueOf(s.queues, m), [s.At(w).up[0]], Mail(s.At(w).up[1..], m), Mail(s.At(w).outbox, m));
  }

  lemma LostPushTransit(s: World, w: Who, m: MailboxId)
    requires WellAddressed(s) && s.At(w).up != [] && IsMail(s.At(w).up[0]) && m == s.At(w).up[0].mailbox
    requires LostAtQuota(s, w)
    ensures var i := LossIndex(s, w);
            i < |InTransit(s, m)| && InTransit(ServeNext(s, w), m) == InTransit(s, m)[..i] + InTransit(s, m)[i + 1..]
  {
    hide WellAddressed, Mail, ServeNext, Broker.QueueOf, Pipeline, LostAtQuota;
    PushFacts(s, w, m);
    var d, q := Mail(s.At(Other(w)).down, m), Broker.QueueOf(s.queues, m);
    var u, o := Mail(s.At(w).up[1..], m), Mail(s.At(w).outbox, m);
    assert InTransit(s, m) == Pipeline(d, q, [s.At(w).up[0]] + u, o);
    assert InTransit(ServeNext(s, w), m) == Pipeline(d, q, u, o);
    hide InTransit;
    PipelineLoses(d, q, s.At(w).up[0], u, o);
  }

  lemma PollKeepsMailOnly(queues: Broker.Queues<MailboxId, Payload>, quota: nat, mid: MailboxId)
    requires Broker.Sound(queues, quota)
    requires forall m | m in queues :: forall i | 0 <= i < |queues[m]| :: IsMail(queues[m][i])
    ensures var (rest, got) := Broker.PollFrom(queues, mid);
            && Broker.Sound(rest, quota)
            && (forall m | m in rest :: forall i | 0 <= i < |rest[m]| :: IsMail(rest[m][i]))
            && (got.Some? ==> IsMail(got.value) && got.value.mailbox == mid)
  {
    var op: Broker.Op<MailboxId, Payload> := Broker.PollOp(mid);
    Broker.ApplyKeepsSound(queues, quota, op);
  }

  lemma ServePollAddressed(s: World, w: Who)
    requires WellAddressed(s) && s.At(w).up != [] && s.At(w).up[0].action == Poll
    ensures WellAddressed(ServeNext(s, w))
  {
    hide Broker.Sound, Broker.PollFrom, Broker.PushTo;
    var f, t := s.At(w).up[0], ServeNext(s, w);
    PollKeepsMailOnly(s.queues, s.quota, f.mailbox);
    assert f in s.At(w).up;
    assert forall g | g in s.At(w).up[1..] :: g in s.At(w).up;
    assert SideAddressed(t, w);
    assert SideAddressed(t, Other(w));
  }

  lemma PollAnswer(s: World, w: Who, m: MailboxId)
    requires WellAddressed(s) && s.At(w).up != [] && s.At(w).up[0].action == Poll
    ensures var (queues, answer) := Broker.Serve(s.queues, s.quota, s.At(w).up[0], Zeros);
            && Broker.QueueOf(s.queues, m) == Mail(answer, m) + Broker.QueueOf(queues, m)
            && (SenderOf(s, m) == w ==> Mail(answer, m) == [])
            && Mail([s.At(w).up[0]], m) == []
  {
    var f := s.At(w).up[0];
    assert f in s.At(w).up;
    PollKeepsMailOnly(s.queues, s.quota, f.mailbox);
    var (queues, answer) := Broker.Serve(s.queues, s.quota, f, Zeros);
    assert Mail(answer, m) == if IsMail(answer[0]) && answer[0].mailbox == m then [answer[0]] else [];
  }

  lemma ServePollTransit(s: World, w: Who, m: MailboxId)
    requires WellAddressed(s) && s.At(w).up != [] && s.At(w).up[0].action == Poll
    ensures InTransit(ServeNext(s, w), m) == InTransit(s, m)
  {
    var f := s.At(w).up[0];
    MailOfHead(s.At(w).up, m);
    var (queues, answer) := Broker.Serve(s.queues, s.quota, f, Zeros);
    MailOfConcat(s.At(w).down, answer, m);
    PollAnswer(s, w, m);
    var v := SenderOf(s, m);
    PipelineMoves(Mail(s.At(Other(v)).down, m), Broker.QueueOf(queues, m), Mail(answer, m), Mail(s.At(v).up, m), Mail(s.At(v).outbox, m));
    assert [] + Mail(s.At(w).up[1..], m) == Mail(s.At(w).up[1..], m);
    assert [] + Broker.QueueOf(queues, m) == Broker.QueueOf(queues, m);
    hide WellAddressed, Mail, Broker.Serve, Broker.QueueOf, Pipeline;
  }

  // ---------------------------------------------------------------- reading answers

  lemma ReadAddressed(s: World, w: Who)
    requires WellAddressed(s) && s.At(w).down != []
    ensures WellAddressed(s.Put(w, s.At(w).(down := s.At(w).down[1..])))
  {
    assert forall g | g in s.At(w).down[1..] :: g in s.At(w).down;
  }

  lemma ReadTransit(s: World, w: Who, m: MailboxId)
    requires WellAddressed(s) && s.At(w).down != []
    ensures var f := s.At(w).down[0];
            var t := s.Put(w, s.At(w).(down := s.At(w).down[1..]));
            && (IsMail(f) && m == f.mailbox ==>
                  && SenderOf(s, m) == Other(w)
                  && InTransit(s, m) == [f] + InTransit(t, m))
            && (!(IsMail(f) && m == f.mailbox) ==> InTransit(t, m) == InTransit(s, m))
  {
    var f := s.At(w).down[0];
    assert f in s.At(w).down;
    MailOfHead(s.At(w).down, m);
    assert Mail([f], m) == if IsMail(f) && m == f.mailbox then [f] else [];
    assert IsMail(f) && m == f.mailbox ==> SenderOf(s, m) == Other(w);
    var d := Mail(s.At(w).down[1..], m);
    PipelineMoves(d, Broker.QueueOf(s.queues, m), [f], Mail(s.At(Other(w)).up, m), Mail(s.At(Other(w)).outbox, m));
    assert [] + d == d;
    hide WellAddressed, Mail, Broker.QueueOf, Pipeline;
  }

  // ---------------------------------------------------------------- what every step keeps

  ghost predicate RunOk(s: World) {
    WellAddressed(s) && Base(Alpha(s))
  }

  lemma ActKeeps(s: World, w: Who, e: Effect)
    requires RunOk(s) && Base(Perform(Alpha(s), w, e))
    requires Addressed(e, s.At(w).local.contact.txId) && e.local.me == s.At(w).local.me
    ensures RunOk(Act(s, w, e))
    ensures Same(Alpha(Act(s, w, e)), Perform(Alpha(s), w, e))
  {
    assert LocalOk(Alpha(s), w);
    hide Base, WellAddressed, Perform;
    ActRefines(s, w, e);
    SameSym(Alpha(Act(s, w, e)), Perform(Alpha(s), w, e));
    SameBase(Perform(Alpha(s), w, e), Alpha(Act(s, w, e)));
  }

  lemma TickKeeps(s: World, w: Who, pollOld: bool)
    requires RunOk(s)
    ensures RunOk(Tick(s, w, pollOld)) && Same(Alpha(s), Alpha(Tick(s, w, pollOld)))
  {
    assert LocalOk(Alpha(s), w);
    hide Base, WellAddressed, Tick;
    TickRefines(s, w, pollOld);
    SameSym(Alpha(Tick(s, w, pollOld)), Alpha(s));
    SameBase(Alpha(s), Alpha(Tick(s, w, pollOld)));
  }

  /** The relay's step on lossy mail: nothing, or one frame lost at the quota. */
  function Served(s: World, w: Who): Abs
    requires LostAtQuota(s, w) ==> LossIndex(s, w) < |InTransit(s, s.At(w).up[0].mailbox)|
  {
    if LostAtQuota(s, w) then Take(Alpha(s), s.At(w).up[0].mailbox, LossIndex(s, w)) else Alpha(s)
  }

  lemma LossIndexOk(s: World, w: Who)
    requires WellAddressed(s) && LostAtQuota(s, w)
    ensures LossIndex(s, w) < |InTransit(s, s.At(w).up[0].mailbox)|
  {
    ServePushTransit(s, w, s.At(w).up[0].mailbox);
  }

  lemma ServeTransit(s: World, w: Who)
    requires WellAddressed(s) && s.At(w).up != []
    ensures WellAddressed(ServeNext(s, w))
    ensures LostAtQuota(s, w) ==> LossIndex(s, w) < |InTransit(s, s.At(w).up[0].mailbox)|
    ensures Same(Served(s, w), Alpha(ServeNext(s, w)))
  {
    hide WellAddressed, InTransit, ServeNext, LossIndex, LostAtQuota;
    var f := s.At(w).up[0];
    MailOrPoll(s, w);
    ServeKeepsLocals(s, w);
    if LostAtQuota(s, w) {
      LossIndexOk(s, w);
    }
    if IsMail(f) {
      ServePushAddressed(s, w);
      forall m ensures Served(s, w).mail(m) == InTransit(ServeNext(s, w), m) {
        ServePushTransit(s, w, m);
      }
    } else {
      ServePollAddressed(s, w);
      PollsAreKept(s, w);
      forall m ensures Served(s, w).mail(m) == InTransit(ServeNext(s, w), m) {
        ServePollTransit(s, w, m);
      }
    }
  }

  lemma ServeKeepsLocals(s: World, w: Who)
    requires s.At(w).up != []
    ensures ServeNext(s, w).alice.local == s.alice.local && ServeNext(s, w).bob.local == s.bob.local
  {
    hide Broker.Serve;
  }

  lemma MailOrPoll(s: World, w: Who)
    requires WellAddressed(s) && s.At(w).up != []
    ensures IsMail(s.At(w).up[0]) || s.At(w).up[0].action == Poll
  {
    hide Broker.Sound;
    assert s.At(w).up[0] in s.At(w).up;
  }

  lemma PollsAreKept(s: World, w: Who)
    requires s.At(w).up != [] && !IsMail(s.At(w).up[0])
    ensures !LostAtQuota(s, w)
  {
    hide Broker.Accepts;
  }

  lemma ServeKeeps(s: World, w: Who)
    requires RunOk(s) && s.At(w).up != []
    ensures RunOk(ServeNext(s, w))
    ensures LostAtQuota(s, w) ==> LossIndex(s, w) < |InTransit(s, s.At(w).up[0].mailbox)|
    ensures Same(Served(s, w), Alpha(ServeNext(s, w)))
  {
    ServeTransit(s, w);
    hide Base, WellAddressed, ServeNext, InTransit, LossIndex, Same;
    if LostAtQuota(s, w) {
      TakeKeepsBase(Alpha(s), s.At(w).up[0].mailbox, LossIndex(s, w));
    }
    SameBase(Served(s, w), Alpha(ServeNext(s, w)));
  }

  function Read(s: World, w: Who): World
    requires s.At(w).down != []
  {
    s.Put(w, s.At(w).(down := s.At(w).down[1..]))
  }

  /** Reading a frame of mail takes the oldest frame in transit of its mailbox. */
  lemma ReadRefines(s: World, w: Who)
    requires WellAddressed(s) && s.At(w).down != []
    ensures WellAddressed(Read(s, w))
    ensures var f := s.At(w).down[0];
            && (IsMail(f) ==>
                  && InTransit(s, f.mailbox) != [] && InTransit(s, f.mailbox)[0] == f
                  && SideOf(Alpha(s), f.mailbox) == Other(w)
                  && Same(Take(Alpha(s), f.mailbox, 0), Alpha(Read(s, w))))
            && (!IsMail(f) ==> f.action == Poll && Same(Alpha(s), Alpha(Read(s, w))))
  {
    var f := s.At(w).down[0];
    assert f in s.At(w).down;
    ReadAddressed(s, w);
    ReadTransit(s, w, f.mailbox);
    hide WellAddressed, InTransit;
    forall m
      ensures !(IsMail(f) && m == f.mailbox) ==> InTransit(Read(s, w), m) == InTransit(s, m)
    {
      ReadTransit(s, w, m);
    }
  }

  lemma PerformSame(a: Abs, b: Abs, w: Who, e: Effect)
    requires Same(a, b)
    ensures Same(Perform(a, w, e), Perform(b, w, e))
  {
  }

  lemma ReadMailRefines(s: World, w: Who)
    requires RunOk(s) && s.At(w).down != [] && IsMail(s.At(w).down[0])
    ensures var m := s.At(w).down[0].mailbox;
            && InTransit(s, m) != [] && InTransit(s, m)[0] == s.At(w).down[0]
            && SideOf(Alpha(s), m) == Other(w)
            && RunOk(Read(s, w))
            && Same(Perform(Alpha(Read(s, w)), w, Receive(s.At(w).local, s.At(w).down[0])), Deliver(Alpha(s), w, m))
  {
    ReadRefines(s, w);
    var m := s.At(w).down[0].mailbox;
    var e := Receive(s.At(w).local, s.At(w).down[0]);
    hide Base, WellAddressed, InTransit, Receive, Perform, Same;
    TakeKeepsBase(Alpha(s), m, 0);
    SameBase(Take(Alpha(s), m, 0), Alpha(Read(s, w)));
    SameSym(Take(Alpha(s), m, 0), Alpha(Read(s, w)));
    PerformSame(Alpha(Read(s, w)), Take(Alpha(s), m, 0), w, e);
  }

  /** Handing a frame of mail to a client is a delivery of lossy mail. */
  lemma DeliverRefines(s: World, w: Who)
    requires RunOk(s) && s.At(w).down != [] && IsMail(s.At(w).down[0])
    ensures var m := s.At(w).down[0].mailbox;
            && InTransit(s, m) != [] && InTransit(s, m)[0] == s.At(w).down[0]
            && SideOf(Alpha(s), m) == Other(w)
            && RunOk(DeliverNext(s, w))
            && Same(Deliver(Alpha(s), w, m), Alpha(DeliverNext(s, w)))
            && !Rejected(Receive(s.At(w).local, s.At(w).down[0]).notice)
  {
    ReadMailRefines(s, w);
    var f := s.At(w).down[0];
    var e := Receive(s.At(w).local, f);
    HandlersAddress(s.At(w).local, [], f);
    var r := Read(s, w);
    hide Base, WellAddressed, InTransit, Receive, Perform, Same, Deliver, RunOk;
    assert Base(Alpha(s)) by { RunOkBase(s); }
    DeliverKeepsBase(Alpha(s), w, f.mailbox);
    SameSym(Perform(Alpha(r), w, e), Deliver(Alpha(s), w, f.mailbox));
    SameBase(Deliver(Alpha(s), w, f.mailbox), Perform(Alpha(r), w, e));
    ActKeeps(r, w, e);
    SameSym(Alpha(Act(r, w, e)), Perform(Alpha(r), w, e));
    SameTrans(Deliver(Alpha(s), w, f.mailbox), Perform(Alpha(r), w, e), Alpha(Act(r, w, e)));
  }

  lemma RunOkBase(s: World)
    requires RunOk(s)
    ensures Base(Alpha(s)) && WellAddressed(s)
  {
    hide Base, WellAddressed, InTransit;
  }

  lemma SenderIs(s: World, w: Who)
    requires RunOk(s)
    ensures Sender(s.At(w).local.contact.txId).party == s.At(w).local.me && s.alice.local.me != s.bob.local.me
  {
    hide RunOk, Base, WellAddressed;
    RunOkBase(s);
    LocalOf(Alpha(s), w);
  }

  lemma ReadsFrom(s: World, w: Who)
    requires RunOk(s)
    ensures SenderOf(s, s.At(w).local.contact.rxId) == Other(w)
  {
    hide RunOk, Base, WellAddressed;
    RunOkBase(s);
    LocalOf(Alpha(s), w);
  }

  /** An empty answer changes nothing. */
  lemma EmptyAnswerKeeps(s: World, w: Who)
    requires RunOk(s) && s.At(w).down != [] && !IsMail(s.At(w).down[0])
    ensures RunOk(DeliverNext(s, w)) && Same(Alpha(s), Alpha(DeliverNext(s, w)))
  {
    ReadRefines(s, w);
    var side := s.At(w);
    assert side.outbox + [] == side.outbox;
    assert DeliverNext(s, w) == Read(s, w);
    hide Base, WellAddressed, Read, DeliverNext;
    SameBase(Alpha(s), Alpha(Read(s, w)));
  }

  /** The move of lossy mail that a step amounts to. */
  function MoveOf(s: World, step: Step): Move {
    match step
    case DoConnect(w) => ConnectMove(w)
    case DoSend(w, data) => SendMove(w, data)
    case DoTick(_, _) => Stay
    case DoServe(w) => if LostAtQuota(s, w) then LoseMove(s.At(w).up[0].mailbox, LossIndex(s, w)) else Stay
    case DoDeliver(w) =>
      if s.At(w).down != [] && IsMail(s.At(w).down[0]) then DeliverMove(w, s.At(w).down[0].mailbox) else Stay
  }

  lemma ActionRefines(s: World, w: Who, e: Effect)
    requires RunOk(s) && Base(Perform(Alpha(s), w, e))
    requires Addressed(e, s.At(w).local.contact.txId) && e.local.me == s.At(w).local.me
    ensures RunOk(Act(s, w, e)) && Same(Perform(Alpha(s), w, e), Alpha(Act(s, w, e)))
  {
    hide RunOk, Base, Perform, Act, Same;
    ActKeeps(s, w, e);
    SameSym(Alpha(Act(s, w, e)), Perform(Alpha(s), w, e));
  }

  lemma ActionStepRefines(s: World, step: Step)
    requires RunOk(s) && (step.DoConnect? || step.DoSend?)
    ensures RunOk(Do(s, step))
    ensures Possible(Alpha(s), MoveOf(s, step))
    ensures Same(Moved(Alpha(s), MoveOf(s, step)), Alpha(Do(s, step)))
  {
    hide RunOk, Base, WellAddressed, Act, Perform, Connect, Send, Same, InTransit;
    RunOkBase(s);
    var p := s.At(step.w).local;
    if step.DoConnect? {
      ConnectKeepsBase(Alpha(s), step.w);
      ActionsAddress(p, []);
      ActionRefines(s, step.w, Connect(p));
    } else {
      SendKeepsBase(Alpha(s), step.w, step.data);
      ActionsAddress(p, step.data);
      ActionRefines(s, step.w, Send(p, step.data));
    }
  }

  lemma PipeStepRefines(s: World, step: Step)
    requires RunOk(s) && (step.DoTick? || step.DoServe?)
    ensures RunOk(Do(s, step))
    ensures Possible(Alpha(s), MoveOf(s, step))
    ensures Same(Moved(Alpha(s), MoveOf(s, step)), Alpha(Do(s, step)))
  {
    hide RunOk, Base, WellAddressed, Same, Tick, InTransit, LossIndex;
    RunOkBase(s);
    match step
    case DoTick(w, pollOld) => TickKeeps(s, w, pollOld);
    case DoServe(w) =>
      if s.At(w).up != [] {
        ServeKeeps(s, w);
      } else {
        SameRefl(Alpha(s));
      }
  }

  lemma DeliverStepRefines(s: World, step: Step)
    requires RunOk(s) && step.DoDeliver?
    ensures RunOk(Do(s, step))
    ensures Possible(Alpha(s), MoveOf(s, step))
    ensures Same(Moved(Alpha(s), MoveOf(s, step)), Alpha(Do(s, step)))
  {
    hide RunOk, Base, WellAddressed, Receive, Same, Deliver, InTransit;
    RunOkBase(s);
    var w := step.w;
    if s.At(w).down == [] {
      SameRefl(Alpha(s));
    } else if IsMail(s.At(w).down[0]) {
      DeliverRefines(s, w);
    } else {
      EmptyAnswerKeeps(s, w);
    }
  }

  /**
    * Refinement: every step of the pipeline is a move of lossy mail, and keeps the addressing of all
    * pipes and the base invariant.
    */
  lemma StepRefines(s: World, step: Step)
    requires RunOk(s)
    ensures RunOk(Do(s, step))
    ensures Possible(Alpha(s), MoveOf(s, step))
    ensures Same(Moved(Alpha(s), MoveOf(s, step)), Alpha(Do(s, step)))
  {
    hide RunOk, Same, Do, MoveOf, Moved, Possible;
    if step.DoConnect? || step.DoSend? {
      ActionStepRefines(s, step);
    } else if step.DoTick? || step.DoServe? {
      PipeStepRefines(s, step);
    } else {
      DeliverStepRefines(s, step);
    }
  }

  lemma SameRefl(a: Abs)
    ensures Same(a, a)
  {
  }

  // ---------------------------------------------------------------- what a step shows

  /** The step makes a client answer a rotation request while its own is outstanding. */
  predicate IsCrossing(s: World, step: Step) {
    && step.DoDeliver?
    && var side := s.At(step.w);
       && side.down != []
       && side.down[0].action == Push
       && Listens(side.local.contact, side.down[0].mailbox)
       && side.down[0].payload.Sealed?
       && side.down[0].payload.plain.RotateRequest?
       && side.local.contact.pfs == RotationRequested
  }

  /** What the client prints in a delivery step; Quiet for every other step. */
  function NoticeOf(s: World, step: Step): Notice {
    if step.DoDeliver? && s.At(step.w).down != [] then Receive(s.At(step.w).local, s.At(step.w).down[0]).notice
    else Quiet
  }

  /** The phase after a step, read off what was printed. */
  function Next(ph: Phase, s: World, step: Step): Phase {
    After(ph, step.w, NoticeOf(s, step))
  }

  lemma CrossingsMatch(s: World, step: Step)
    requires RunOk(s) && Possible(Alpha(s), MoveOf(s, step))
    ensures CrossingMove(Alpha(s), MoveOf(s, step)) ==> IsCrossing(s, step)
    ensures forall ph :: PhaseNext(Alpha(s), MoveOf(s, step), ph) == Next(ph, s, step)
  {
    hide RunOk, Base, WellAddressed, InTransit, LossIndex, Receive;
    if step.DoDeliver? && s.At(step.w).down != [] {
      var f := s.At(step.w).down[0];
      RunOkBase(s);
      ReadRefines(s, step.w);
      if IsMail(f) {
        MailOf(Alpha(s), f.mailbox, 0);
      } else {
        BlankQuiet(s.At(step.w).local, f);
      }
    }
  }

  lemma BlankQuiet(p: Local, f: MailFrame)
    requires f.action == Poll
    ensures Receive(p, f).notice == Quiet
  {
  }

  lemma CrossingIsMove(s: World, step: Step)
    requires RunOk(s) && Possible(Alpha(s), MoveOf(s, step)) && IsCrossing(s, step)
    ensures CrossingMove(Alpha(s), MoveOf(s, step))
  {
    var f := s.At(step.w).down[0];
    RunOkBase(s);
    assert f in s.At(step.w).down;
    ReadRefines(s, step.w);
    assert TransitOk(Alpha(s), f.mailbox, f);
    hide RunOk, Base, WellAddressed, InTransit, LossIndex;
  }

  /** Every step that is not a crossing moves the phase as its notice says. */
  lemma StepMovesPhase(s: World, step: Step, ph: Phase)
    requires RunOk(s) && PhaseOk(Alpha(s), ph) && !IsCrossing(s, step)
    ensures PhaseOk(Alpha(Do(s, step)), Next(ph, s, step))
  {
    hide RunOk, Base, WellAddressed, PhaseOk, Same, IsCrossing, CrossingMove, Do, MoveOf, Moved, PhaseNext, Next, Possible;
    RunOkBase(s);
    StepRefines(s, step);
    CrossingsMatch(s, step);
    MoveKeepsPhase(Alpha(s), MoveOf(s, step), ph);
    SamePhase(Moved(Alpha(s), MoveOf(s, step)), Alpha(Do(s, step)), Next(ph, s, step));
  }

  /** Which phase a delivery that ends or answers a rotation finds, and where its frame stood. */
  lemma StepFindsPhase(s: World, step: Step, ph: Phase)
    requires RunOk(s) && PhaseOk(Alpha(s), ph) && !IsCrossing(s, step)
    ensures NoticeOf(s, step) == RotationAnswered ==> ph == Synced
    ensures NoticeOf(s, step) == RotationCompleted ==>
              var f := s.At(step.w).down[0];
              && ph == Waiting(step.w) && f.mailbox == s.At(step.w).local.contact.rxId
              && InTransit(s, f.mailbox) == [f] && SideOf(Alpha(s), f.mailbox) == Other(step.w)
              && MoveOf(s, step) == DeliverMove(step.w, f.mailbox)
  {
    if NoticeOf(s, step) in {RotationAnswered, RotationCompleted} {
      var f := RotationStep(s, step);
      hide RunOk, PhaseOk, Receive, InTransit, IsCrossing, MoveOf, NoticeOf;
      RotationStepFinds(s, step, ph, f);
    }
  }

  lemma RotationStepFinds(s: World, step: Step, ph: Phase, f: MailFrame)
    requires RunOk(s) && PhaseOk(Alpha(s), ph) && !IsCrossing(s, step)
    requires MoveOf(s, step) == DeliverMove(step.w, f.mailbox) && SideOf(Alpha(s), f.mailbox) == Other(step.w)
    requires InTransit(s, f.mailbox) != [] && InTransit(s, f.mailbox)[0] == f
    ensures var n := Receive(s.At(step.w).local, f).notice;
            && (n == RotationAnswered ==> ph == Synced)
            && (n == RotationCompleted ==>
                  && ph == Waiting(step.w) && f.mailbox == s.At(step.w).local.contact.rxId
                  && InTransit(s, f.mailbox) == [f])
  {
    hide RunOk, Base, PhaseOk, Receive, InTransit, CrossingMove, IsCrossing, MoveOf, Do, Same, Moved, Crossing;
    RunOkBase(s);
    StepRefines(s, step);
    CrossingsMatch(s, step);
    NoCrossingMove(Alpha(s), step.w, f.mailbox);
    DeliverMovesPhase(Alpha(s), step.w, f.mailbox, ph);
  }

  /** A step that answers or completes a rotation is the delivery of a push at the head of its mailbox. */
  lemma RotationStep(s: World, step: Step) returns (f: MailFrame)
    requires RunOk(s) && NoticeOf(s, step) in {RotationAnswered, RotationCompleted}
    ensures step.DoDeliver? && s.At(step.w).down != [] && f == s.At(step.w).down[0]
    ensures MoveOf(s, step) == DeliverMove(step.w, f.mailbox)
    ensures SideOf(Alpha(s), f.mailbox) == Other(step.w)
    ensures InTransit(s, f.mailbox) != [] && InTransit(s, f.mailbox)[0] == f
    ensures NoticeOf(s, step) == Receive(s.At(step.w).local, f).notice
  {
    f := s.At(step.w).down[0];
    RotationByPush(s.At(step.w).local, f);
    hide RunOk, Base, Receive, InTransit;
    RunOkBase(s);
    ReadRefines(s, step.w);
  }

  lemma NoCrossingMove(a: Abs, w: Who, m: MailboxId)
    requires Possible(a, DeliverMove(w, m)) && !CrossingMove(a, DeliverMove(w, m))
    ensures !Crossing(a, w, m)
  {
  }

  lemma RotationByPush(p: Local, f: MailFrame)
    requires Receive(p, f).notice in {RotationAnswered, RotationCompleted}
    ensures f.action == Push
  {
  }
}
