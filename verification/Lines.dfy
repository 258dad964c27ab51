/** The order in which a client's frames wait to be served, and the mailboxes it has asked for. */
module Lines {
  import opened Common
  import opened Crypto
  import opened ClientCore
  import opened LossyMail
  import opened Rotation
  import opened Relay
  import opened Retired
  import opened Theorems
  import Broker

  // ---------------------------------------------------------------- sequences of frames

  /** Once a frame is for tx, so is all mail behind it. */
  predicate LastTo(line: seq<MailFrame>, tx: MailboxId) {
    forall i, j | 0 <= i < j < |line| && IsMail(line[i]) && line[i].mailbox == tx && IsMail(line[j]) ::
      line[j].mailbox == tx
  }

  lemma LastToAppend(line: seq<MailFrame>, out: seq<MailFrame>, tx: MailboxId)
    requires LastTo(line, tx) && forall f | f in out :: IsMail(f) ==> f.mailbox == tx
    ensures LastTo(line + out, tx)
  {
  }

  lemma LastToTail(line: seq<MailFrame>, tx: MailboxId)
    requires LastTo(line, tx) && line != []
    ensures LastTo(line[1..], tx)
  {
  }

  lemma LastToNone(line: seq<MailFrame>, tx: MailboxId)
    requires forall f | f in line && IsMail(f) :: f.mailbox != tx
    ensures LastTo(line, tx)
  {
  }

  // ---------------------------------------------------------------- what every step keeps

  function Line(s: World, w: Who): seq<MailFrame> {
    s.At(w).up + s.At(w).outbox
  }

  /** A key of p that is not the one it waits to use. */
  predicate InUse(p: Local, k: SecretKey) {
    k.party == p.me && (k.Ephemeral? ==> k.n < p.generated) && p.contact.pending != Some(k)
  }

  /** w has only asked for, and been answered from, mailboxes it reads with keys in use. */
  predicate Asked(side: Side) {
    && (forall f | f in side.up && f.action == Poll :: InUse(side.local, Receiver(f.mailbox)))
    && (forall f | f in side.down :: InUse(side.local, Receiver(f.mailbox)))
  }

  /** No mail is in a mailbox that belongs to the key w waits to use. */
  ghost predicate Unopened(s: World, w: Who) {
    forall m | s.At(w).local.contact.pending == Some(Sender(m)) :: InTransit(s, m) == []
  }

  ghost predicate LineOk(s: World, w: Who) {
    LastTo(Line(s, w), s.At(w).local.contact.txId) && Asked(s.At(w)) && Unopened(s, w)
  }

  ghost predicate LinesOk(s: World) {
    LineOk(s, Alice) && LineOk(s, Bob)
  }

  lemma LinesOf(s: World, w: Who)
    requires LinesOk(s)
    ensures LineOk(s, w)
  {
    hide LineOk;
  }

  /** A mailbox made from a fresh or pending key holds no mail yet. */
  lemma NewIsEmpty(s: World, w: Who, m: MailboxId)
    requires RunOk(s) && Unopened(s, w)
    requires var p := s.At(w).local;
             Sender(m) == Ephemeral(p.me, p.generated) || p.contact.pending == Some(Sender(m))
    ensures InTransit(s, m) == []
  {
    assert Alpha(s).mail(m) == InTransit(s, m);
    assert MailOk(Alpha(s)) by { hide InTransit, WellAddressed, LocalOk; }
    hide RunOk, InTransit;
    MailIsKnown(Alpha(s), m);
  }

  /** Mail waiting in w's line is in transit. */
  lemma LineInTransit(s: World, w: Who, f: MailFrame)
    requires RunOk(s) && f in Line(s, w) && IsMail(f)
    ensures f in InTransit(s, f.mailbox)
  {
    hide Base, Mail;
    var m := f.mailbox;
    assert SenderOf(s, m) == w;
    if f in s.At(w).up {
      MailHasAll(s.At(w).up, m);
    } else {
      MailHasAll(s.At(w).outbox, m);
    }
  }

  lemma ActKeepsOwnLine(s: World, w: Who, e: Effect)
    requires RunOk(s) && LineOk(s, w)
    requires Addressed(e, s.At(w).local.contact.txId) && SendsAnew(s.At(w).local, e.local)
    ensures LastTo(Line(Act(s, w, e), w), e.local.contact.txId)
  {
    var tx, line := s.At(w).local.contact.txId, Line(s, w);
    hide RunOk, InTransit, LastTo, Asked, Unopened;
    assert Line(Act(s, w, e), w) == line + e.out;
    if e.local.contact.txId == tx {
      LastToAppend(line, e.out, tx);
    } else {
      NewIsEmpty(s, w, e.local.contact.txId);
      forall f | f in line + e.out && IsMail(f)
        ensures f.mailbox != e.local.contact.txId
      {
        if f in line {
          LineInTransit(s, w, f);
        }
      }
      LastToNone(line + e.out, e.local.contact.txId);
    }
  }

  lemma ActKeepsUnopened(s: World, w: Who, e: Effect, x: Who)
    requires RunOk(s) && Unopened(s, w) && Unopened(s, x)
    requires Addressed(e, s.At(w).local.contact.txId) && SendsAnew(s.At(w).local, e.local)
    ensures Unopened(Act(s, w, e), x)
  {
    var p := s.At(w).local;
    var tx := p.contact.txId;
    var b := Act(s, w, e);
    hide RunOk, InTransit, Addressed, WellAddressed, Base;
    RunOkBase(s);
    LocalOf(Alpha(s), w);
    LocalOf(Alpha(s), x);
    forall m | b.At(x).local.contact.pending == Some(Sender(m))
      ensures InTransit(b, m) == []
    {
      ActTransit(s, w, e, m);
      if x == w && Sender(m) == Ephemeral(p.me, p.generated) {
        NewIsEmpty(s, w, m);
      }
    }
  }

  lemma ActKeepsAsked(side: Side, e: Effect)
    requires Asked(side) && SendsAnew(side.local, e.local)
    ensures Asked(side.(local := e.local, outbox := side.outbox + e.out))
  {
  }

  lemma ActKeepsLines(s: World, w: Who, e: Effect)
    requires RunOk(s) && LinesOk(s)
    requires Addressed(e, s.At(w).local.contact.txId) && SendsAnew(s.At(w).local, e.local)
    ensures LinesOk(Act(s, w, e))
  {
    hide RunOk, LastTo, Asked, Unopened, Addressed, SendsAnew;
    ActKeepsOwnLine(s, w, e);
    ActKeepsAsked(s.At(w), e);
    ActKeepsUnopened(s, w, e, Alice);
    ActKeepsUnopened(s, w, e, Bob);
  }

  /** Steps that change no client keep the mail or lose some. */
  ghost predicate NoNewMail(s: World, t: World) {
    forall m :: InTransit(s, m) == [] ==> InTransit(t, m) == []
  }

  lemma LossNoNewMail(s: World, step: Step)
    requires RunOk(s) && (step.DoTick? || step.DoServe?)
    ensures NoNewMail(s, Do(s, step))
  {
    hide RunOk, InTransit, Do, LossIndex;
    StepRefines(s, step);
    var a, b := Alpha(s), Alpha(Do(s, step));
    forall m | InTransit(s, m) == []
      ensures InTransit(Do(s, step), m) == []
    {
      assert b.mail(m) == Moved(a, MoveOf(s, step)).mail(m);
    }
  }

  lemma NoNewMailUnopened(s: World, t: World, w: Who)
    requires NoNewMail(s, t) && Unopened(s, w) && t.At(w).local == s.At(w).local
    ensures Unopened(t, w)
  {
    hide InTransit;
  }

  lemma TickKeepsSide(s: World, w: Who, pollOld: bool)
    requires LocalOk(Alpha(s), w) && Asked(s.At(w)) && LastTo(Line(s, w), s.At(w).local.contact.txId)
    requires s.At(w).outbox != [] ==> IsMail(s.At(w).outbox[0])
    ensures var t := Tick(s, w, pollOld);
            Asked(t.At(w)) && LastTo(Line(t, w), s.At(w).local.contact.txId)
  {
    hide InTransit;
    var t, side := Tick(s, w, pollOld), s.At(w);
    if side.local.connected && side.outbox != [] {
      assert Line(t, w) == Line(s, w);
    } else if side.local.connected {
      var poll: MailFrame := Frame(Poll, PollTarget(side.local.contact, pollOld), Zeros);
      assert Line(t, w) == Line(s, w) + [poll];
      LastToAppend(Line(s, w), [poll], side.local.contact.txId);
    }
    hide LastTo;
  }

  lemma TickKeepsLines(s: World, w: Who, pollOld: bool)
    requires RunOk(s) && LinesOk(s)
    ensures LinesOk(Do(s, DoTick(w, pollOld)))
  {
    hide RunOk, InTransit, LastTo, Asked, Unopened, NoNewMail, LocalOk, Broker.Sound, Base;
    RunOkBase(s);
    LocalOf(Alpha(s), w);
    var t := Do(s, DoTick(w, pollOld));
    LossNoNewMail(s, DoTick(w, pollOld));
    TickKeepsSide(s, w, pollOld);
    NoNewMailUnopened(s, t, Alice);
    NoNewMailUnopened(s, t, Bob);
  }

  lemma ServeKeepsAsked(s: World, w: Who)
    requires RunOk(s) && s.At(w).up != [] && Asked(s.At(w))
    ensures Asked(ServeNext(s, w).At(w))
  {
    AnswersAsked(s, w);
    hide RunOk, Broker.Serve, InUse;
    assert s.At(w).up[0] in s.At(w).up;
    assert forall f | f in s.At(w).up[1..] :: f in s.At(w).up;
  }

  lemma ServeKeepsLines(s: World, w: Who)
    requires RunOk(s) && LinesOk(s)
    ensures LinesOk(Do(s, DoServe(w)))
  {
    hide RunOk, InTransit, LastTo, Asked, Unopened, NoNewMail, Broker.Serve;
    var t := Do(s, DoServe(w));
    if s.At(w).up != [] {
      LossNoNewMail(s, DoServe(w));
      ServeKeepsAsked(s, w);
      assert Line(t, w) == Line(s, w)[1..];
      LastToTail(Line(s, w), s.At(w).local.contact.txId);
      NoNewMailUnopened(s, t, Alice);
      NoNewMailUnopened(s, t, Bob);
    }
  }

  /** What the relay answers is from the mailbox asked for. */
  lemma AnswersAsked(s: World, w: Who)
    requires RunOk(s) && s.At(w).up != []
    ensures var (_, answer) := Broker.Serve(s.queues, s.quota, s.At(w).up[0], Zeros);
            && (answer != [] ==> s.At(w).up[0].action == Poll)
            && forall f | f in answer :: f.mailbox == s.At(w).up[0].mailbox
  {
    hide Base;
    var mid := s.At(w).up[0].mailbox;
    PollKeepsMailOnly(s.queues, s.quota, mid);
  }

  lemma ReadKeepsLines(s: World, w: Who)
    requires RunOk(s) && LinesOk(s) && s.At(w).down != []
    ensures RunOk(Read(s, w)) && LinesOk(Read(s, w))
  {
    hide RunOk, InTransit, WellAddressed;
    RunOkBase(s);
    if IsMail(s.At(w).down[0]) {
      ReadMailRefines(s, w);
    } else {
      ReadBlank(s, w);
    }
    hide LastTo, Unopened, Asked;
    assert Asked(Read(s, w).At(w)) by { ReadKeepsAsked(s.At(w)); }
    ReadNoNewMail(s, w);
    NoNewMailUnopened(s, Read(s, w), Alice);
    NoNewMailUnopened(s, Read(s, w), Bob);
  }

  lemma ReadKeepsAsked(side: Side)
    requires Asked(side) && side.down != []
    ensures Asked(side.(down := side.down[1..]))
  {
    hide InUse;
  }

  lemma ReadNoNewMail(s: World, w: Who)
    requires WellAddressed(s) && s.At(w).down != []
    ensures NoNewMail(s, Read(s, w))
  {
    hide InTransit, WellAddressed;
    forall m | InTransit(s, m) == []
      ensures InTransit(Read(s, w), m) == []
    {
      ReadTransit(s, w, m);
    }
  }

  lemma ReadBlank(s: World, w: Who)
    requires RunOk(s) && s.At(w).down != [] && !IsMail(s.At(w).down[0])
    ensures RunOk(Read(s, w))
  {
    EmptyAnswerKeeps(s, w);
    RunOkBase(s);
    ReadRefines(s, w);
    assert s.At(w).outbox + [] == s.At(w).outbox;
    hide RunOk;
  }

  lemma DeliverKeepsLines(s: World, w: Who)
    requires RunOk(s) && LinesOk(s)
    ensures LinesOk(Do(s, DoDeliver(w)))
  {
    hide RunOk, LinesOk, Receive, SendsAnew, Addressed;
    if s.At(w).down != [] {
      ReadKeepsLines(s, w);
      ReceiveAddresses(s.At(w).local, s.At(w).down[0]);
      ReceiveSendsAnew(s.At(w).local, s.At(w).down[0]);
      ActKeepsLines(Read(s, w), w, Receive(s.At(w).local, s.At(w).down[0]));
    }
  }

  lemma StepKeepsLines(s: World, step: Step)
    requires RunOk(s) && LinesOk(s)
    ensures LinesOk(Do(s, step))
  {
    hide RunOk, LinesOk, Connect, Send, Addressed, SendsAnew, Tick, ServeNext, DeliverNext, Act;
    match step
    case DoConnect(w) =>
      ActionsAddress(s.At(w).local, []);
      ActionsSendAnew(s.At(w).local, []);
      ActKeepsLines(s, w, Connect(s.At(w).local));
    case DoSend(w, data) =>
      ActionsAddress(s.At(w).local, data);
      ActionsSendAnew(s.At(w).local, data);
      ActKeepsLines(s, w, Send(s.At(w).local, data));
    case DoTick(w, pollOld) => TickKeepsLines(s, w, pollOld);
    case DoServe(w) => ServeKeepsLines(s, w);
    case DoDeliver(w) => DeliverKeepsLines(s, w);
  }

  lemma {:induction false} RunKeepsLines(s: World, steps: seq<Step>)
    requires RunOk(s) && LinesOk(s)
    ensures RunOk(Exec(s, steps)) && LinesOk(Exec(s, steps))
    decreases |steps|
  {
    if steps != [] {
      hide RunOk, LinesOk, Do;
      StepRefines(s, steps[0]);
      StepKeepsLines(s, steps[0]);
      RunKeepsLines(Do(s, steps[0]), steps[1..]);
    }
  }

  lemma InitLines(g: Config)
    ensures LinesOk(Init(g))
  {
  }
}
