/** End-to-end delivery: per mailbox, the whole pipeline is a first-in first-out queue that loses only at the quota. */
module Delivery {
  import opened Common
  import opened Crypto
  import opened ClientCore
  import opened LossyMail
  import opened Rotation
  import opened Relay
  import opened Theorems
  import Broker

  /** The frames a step puts into an outbox. */
  function SentBy(s: World, step: Step): seq<MailFrame> {
    match step
    case DoConnect(w) => Connect(s.At(w).local).out
    case DoSend(w, data) => Send(s.At(w).local, data).out
    case DoDeliver(w) => if s.At(w).down == [] then [] else Receive(s.At(w).local, s.At(w).down[0]).out
    case DoTick(_, _) => []
    case DoServe(_) => []
  }

  /** The frame a step hands to a client. */
  function ReceivedBy(s: World, step: Step): seq<MailFrame> {
    if step.DoDeliver? && s.At(step.w).down != [] then [s.At(step.w).down[0]] else []
  }

  /** The frame a step drops because its mailbox is full. */
  function LostBy(s: World, step: Step): seq<MailFrame> {
    if step.DoServe? && LostAtQuota(s, step.w) then [s.At(step.w).up[0]] else []
  }

  function Sent(s: World, steps: seq<Step>, m: MailboxId): seq<MailFrame>
    decreases |steps|
  {
    if steps == [] then [] else Mail(SentBy(s, steps[0]), m) + Sent(Do(s, steps[0]), steps[1..], m)
  }

  function Received(s: World, steps: seq<Step>, m: MailboxId): seq<MailFrame>
    decreases |steps|
  {
    if steps == [] then [] else Mail(ReceivedBy(s, steps[0]), m) + Received(Do(s, steps[0]), steps[1..], m)
  }

  function Lost(s: World, steps: seq<Step>, m: MailboxId): seq<MailFrame>
    decreases |steps|
  {
    if steps == [] then [] else Mail(LostBy(s, steps[0]), m) + Lost(Do(s, steps[0]), steps[1..], m)
  }

  // ---------------------------------------------------------------- order with gaps

  /** The frames of a occur in b in the same order, perhaps with others between them. */
  predicate Subsequence(a: seq<MailFrame>, b: seq<MailFrame>)
    decreases |b|
  {
    || a == []
    || (b != [] && ((a[0] == b[0] && Subsequence(a[1..], b[1..])) || Subsequence(a, b[1..])))
  }

  lemma {:induction false} SubsequenceSelf(a: seq<MailFrame>)
    ensures Subsequence(a, a)
  {
    if a != [] { SubsequenceSelf(a[1..]); }
  }

  lemma {:induction false} SubsequenceTransitive(a: seq<MailFrame>, b: seq<MailFrame>, c: seq<MailFrame>)
    requires Subsequence(a, b) && Subsequence(b, c)
    ensures Subsequence(a, c)
    decreases |c|, |b|
  {
    if a != [] {
      if b[0] == c[0] && Subsequence(b[1..], c[1..]) {
        if a[0] == b[0] && Subsequence(a[1..], b[1..]) {
          SubsequenceTransitive(a[1..], b[1..], c[1..]);
        } else {
          SubsequenceTransitive(a, b[1..], c[1..]);
        }
      } else {
        SubsequenceTransitive(a, b, c[1..]);
      }
    }
  }

  lemma {:induction false} SubsequencePrepend(p: seq<MailFrame>, a: seq<MailFrame>, b: seq<MailFrame>)
    requires Subsequence(a, b)
    ensures Subsequence(p + a, p + b)
  {
    if p == [] {
      assert p + a == a && p + b == b;
    } else {
      SubsequencePrepend(p[1..], a, b);
      assert (p + a)[1..] == p[1..] + a && (p + b)[1..] == p[1..] + b;
    }
  }

  lemma {:induction false} SubsequenceAppend(a: seq<MailFrame>, b: seq<MailFrame>, z: seq<MailFrame>)
    requires Subsequence(a, b)
    ensures Subsequence(a + z, b + z)
    decreases |b|
  {
    if a == [] {
      assert a + z == z;
      DropFront(b, z);
    } else {
      assert (b + z)[1..] == b[1..] + z && (a + z)[1..] == a[1..] + z;
      if a[0] == b[0] && Subsequence(a[1..], b[1..]) {
        SubsequenceAppend(a[1..], b[1..], z);
      } else {
        SubsequenceAppend(a, b[1..], z);
      }
    }
  }

  lemma {:induction false} DropFront(p: seq<MailFrame>, z: seq<MailFrame>)
    ensures Subsequence(z, p + z)
  {
    if p == [] {
      assert p + z == z;
      SubsequenceSelf(z);
    } else {
      DropFront(p[1..], z);
      assert (p + z)[1..] == p[1..] + z;
    }
  }

  /** Taking one frame out. */
  lemma CutSubsequence(all: seq<MailFrame>, i: nat)
    requires i < |all|
    ensures Subsequence(all[..i] + all[i + 1..], all)
  {
    DropFront([all[i]], all[i + 1..]);
    SubsequencePrepend(all[..i], all[i + 1..], [all[i]] + all[i + 1..]);
    assert all == all[..i] + ([all[i]] + all[i + 1..]);
  }

  // ---------------------------------------------------------------- one step

  ghost predicate Balanced(before: seq<MailFrame>, sent: seq<MailFrame>, received: seq<MailFrame>,
                           lost: seq<MailFrame>, after: seq<MailFrame>) {
    && (lost == [] ==> before + sent == received + after)
    && Subsequence(received + after, before + sent)
    && multiset(before) + multiset(sent) == multiset(received) + multiset(lost) + multiset(after)
  }

  lemma FifoBalanced(before: seq<MailFrame>, sent: seq<MailFrame>, received: seq<MailFrame>, after: seq<MailFrame>)
    requires before + sent == received + after
    ensures Balanced(before, sent, received, [], after)
  {
    SubsequenceSelf(before + sent);
    assert multiset(before) + multiset(sent) == multiset(before + sent);
    assert multiset(received) + multiset(after) == multiset(received + after);
  }

  lemma ActBalanced(s: World, w: Who, e: Effect, m: MailboxId)
    requires RunOk(s) && Addressed(e, s.At(w).local.contact.txId) && e.local.me == s.At(w).local.me
    ensures Balanced(InTransit(s, m), Mail(e.out, m), [], [], InTransit(Act(s, w, e), m))
  {
    hide RunOk, InTransit, Mail, Balanced, Act, Addressed;
    SenderIs(s, w);
    MailAllToTx(e, s.At(w).local.contact.txId, m);
    ActTransit(s, w, e, m);
    FifoBalanced(InTransit(s, m), Mail(e.out, m), [], InTransit(Act(s, w, e), m));
  }

  lemma TickBalanced(s: World, w: Who, pollOld: bool, m: MailboxId)
    requires RunOk(s)
    ensures Balanced(InTransit(s, m), [], [], [], InTransit(Tick(s, w, pollOld), m))
  {
    hide RunOk, InTransit, Balanced, Tick;
    TickKeeps(s, w, pollOld);
    assert Alpha(s).mail(m) == Alpha(Tick(s, w, pollOld)).mail(m);
    FifoBalanced(InTransit(s, m), [], [], InTransit(Tick(s, w, pollOld), m));
  }

  lemma CutBalanced(all: seq<MailFrame>, i: nat, f: MailFrame)
    requires i < |all| && all[i] == f
    ensures Balanced(all, [], [], [f], all[..i] + all[i + 1..])
  {
    CutSubsequence(all, i);
    hide Subsequence;
    assert all == all[..i] + [f] + all[i + 1..];
    assert all + [] == all && [] + (all[..i] + all[i + 1..]) == all[..i] + all[i + 1..];
  }

  /** The frame lost at the quota stands where the relay's queue ends. */
  lemma LostFrameAt(s: World, w: Who)
    requires RunOk(s) && LostAtQuota(s, w)
    ensures var f := s.At(w).up[0];
            var i := LossIndex(s, w);
            i < |InTransit(s, f.mailbox)| && InTransit(s, f.mailbox)[i] == f
  {
    var f := s.At(w).up[0];
    var m := f.mailbox;
    PushFacts(s, w, m);
    PipelineLoses(Mail(s.At(Other(w)).down, m), Broker.QueueOf(s.queues, m), f, Mail(s.At(w).up[1..], m), Mail(s.At(w).outbox, m));
    hide RunOk, Mail, Pipeline, ServeNext, Broker.QueueOf;
  }

  lemma MailSingle(f: MailFrame, m: MailboxId)
    ensures Mail([f], m) == (if IsMail(f) && f.mailbox == m then [f] else [])
    ensures Mail([], m) == []
  {
    assert [f][1..] == [];
  }

  lemma ServeBalanced(s: World, w: Who, m: MailboxId)
    requires RunOk(s) && s.At(w).up != []
    ensures Balanced(InTransit(s, m), [], [], Mail(LostBy(s, DoServe(w)), m), InTransit(ServeNext(s, w), m))
  {
    hide RunOk, InTransit, Balanced, ServeNext, LossIndex, Mail;
    var f := s.At(w).up[0];
    MailSingle(f, m);
    ServeKeeps(s, w);
    assert Served(s, w).mail(m) == InTransit(ServeNext(s, w), m);
    if LostAtQuota(s, w) && f.mailbox == m {
      LostFrameAt(s, w);
      CutBalanced(InTransit(s, m), LossIndex(s, w), f);
    } else {
      FifoBalanced(InTransit(s, m), [], [], InTransit(ServeNext(s, w), m));
    }
  }

  lemma MailAllToTx(e: Effect, tx: MailboxId, m: MailboxId)
    requires Addressed(e, tx)
    ensures Mail(e.out, m) == if m == tx then e.out else []
  {
    MailAllTo(e.out, tx, m);
  }

  lemma DeliverBalanced(s: World, w: Who, m: MailboxId)
    requires RunOk(s) && s.At(w).down != []
    ensures var f := s.At(w).down[0];
            Balanced(InTransit(s, m), Mail(Receive(s.At(w).local, f).out, m), Mail([f], m), [], InTransit(DeliverNext(s, w), m))
  {
    hide RunOk, Base, InTransit, Balanced, Mail, Receive, Addressed, LocalOk;
    var f := s.At(w).down[0];
    var e := Receive(s.At(w).local, f);
    SenderIs(s, w);
    HandlersAddress(s.At(w).local, [], f);
    MailAllToTx(e, s.At(w).local.contact.txId, m);
    RunOkBase(s);
    ReadTransit(s, w, m);
    hide WellAddressed;
    ActTransit(Read(s, w), w, e, m);
    MailSingle(f, m);
    FifoBalanced(InTransit(s, m), Mail(e.out, m), Mail([f], m), InTransit(DeliverNext(s, w), m));
  }

  lemma StepBalanced(s: World, step: Step, m: MailboxId)
    requires RunOk(s)
    ensures Balanced(InTransit(s, m), Mail(SentBy(s, step), m), Mail(ReceivedBy(s, step), m),
                     Mail(LostBy(s, step), m), InTransit(Do(s, step), m))
  {
    hide RunOk, InTransit, Balanced, Receive, Act, Connect, Send, Tick, ServeNext, DeliverNext, LostAtQuota;
    match step
    case DoConnect(w) =>
      HandlersAddress(s.At(w).local, [], Frame(Poll, m, Zeros));
      ActBalanced(s, w, Connect(s.At(w).local), m);
    case DoSend(w, data) =>
      HandlersAddress(s.At(w).local, data, Frame(Poll, m, Zeros));
      ActBalanced(s, w, Send(s.At(w).local, data), m);
    case DoTick(w, pollOld) => TickBalanced(s, w, pollOld, m);
    case DoServe(w) =>
      if s.At(w).up != [] {
        ServeBalanced(s, w, m);
      } else {
        assert ServeNext(s, w) == s by { NothingToServe(s, w); }
        assert !LostAtQuota(s, w) by { NothingToServe(s, w); }
        FifoBalanced(InTransit(s, m), [], [], InTransit(s, m));
      }
    case DoDeliver(w) =>
      if s.At(w).down != [] {
        DeliverBalanced(s, w, m);
      } else {
        assert DeliverNext(s, w) == s by { NothingToRead(s, w); }
        FifoBalanced(InTransit(s, m), [], [], InTransit(s, m));
      }
  }

  lemma NothingToServe(s: World, w: Who)
    requires s.At(w).up == []
    ensures ServeNext(s, w) == s && !LostAtQuota(s, w)
  {
  }

  lemma NothingToRead(s: World, w: Who)
    requires s.At(w).down == []
    ensures DeliverNext(s, w) == s
  {
  }

  lemma BalancedThen(a: seq<MailFrame>, s1: seq<MailFrame>, r1: seq<MailFrame>, l1: seq<MailFrame>, b: seq<MailFrame>,
                     s2: seq<MailFrame>, r2: seq<MailFrame>, l2: seq<MailFrame>, c: seq<MailFrame>)
    requires Balanced(a, s1, r1, l1, b) && Balanced(b, s2, r2, l2, c)
    ensures Balanced(a, s1 + s2, r1 + r2, l1 + l2, c)
  {
    hide Subsequence;
    SubsequenceThen(a, s1, r1, b, s2, r2, c);
    calc {
      multiset(a) + multiset(s1 + s2);
      (multiset(a) + multiset(s1)) + multiset(s2);
      (multiset(r1) + multiset(l1)) + (multiset(b) + multiset(s2));
      multiset(r1 + r2) + multiset(l1 + l2) + multiset(c);
    }
    if l1 + l2 == [] {
      assert |l1| == 0 && |l2| == 0;
      calc {
        a + (s1 + s2);
        (a + s1) + s2;
        (r1 + b) + s2;
        r1 + (b + s2);
        r1 + (r2 + c);
        (r1 + r2) + c;
      }
    }
  }

  lemma SubsequenceThen(a: seq<MailFrame>, s1: seq<MailFrame>, r1: seq<MailFrame>, b: seq<MailFrame>,
                        s2: seq<MailFrame>, r2: seq<MailFrame>, c: seq<MailFrame>)
    requires Subsequence(r1 + b, a + s1) && Subsequence(r2 + c, b + s2)
    ensures Subsequence((r1 + r2) + c, a + (s1 + s2))
  {
    hide Subsequence;
    SubsequencePrepend(r1, r2 + c, b + s2);
    SubsequenceAppend(r1 + b, a + s1, s2);
    assert r1 + (b + s2) == (r1 + b) + s2;
    SubsequenceTransitive(r1 + (r2 + c), r1 + (b + s2), (a + s1) + s2);
    assert r1 + (r2 + c) == (r1 + r2) + c && (a + s1) + s2 == a + (s1 + s2);
  }

  /**
    * In every run, per mailbox: what was in transit and what was sent since is what was received, what
    * was lost at the quota and what is still in transit; and if nothing was lost, in that very order.
    */
  lemma {:induction false} RunBalanced(s: World, steps: seq<Step>, m: MailboxId)
    requires RunOk(s)
    ensures Balanced(InTransit(s, m), Sent(s, steps, m), Received(s, steps, m), Lost(s, steps, m), InTransit(Exec(s, steps), m))
    decreases |steps|
  {
    if steps == [] {
      hide RunOk, InTransit;
      FifoBalanced(InTransit(s, m), [], [], InTransit(s, m));
    } else {
      hide RunOk, InTransit, Do, Balanced, SentBy, ReceivedBy, LostBy, Mail;
      var t := Do(s, steps[0]);
      StepBalanced(s, steps[0], m);
      StepRefines(s, steps[0]);
      RunBalanced(t, steps[1..], m);
      BalancedThen(InTransit(s, m), Mail(SentBy(s, steps[0]), m), Mail(ReceivedBy(s, steps[0]), m), Mail(LostBy(s, steps[0]), m),
                   InTransit(t, m), Sent(t, steps[1..], m), Received(t, steps[1..], m), Lost(t, steps[1..], m), InTransit(Exec(t, steps[1..]), m));
    }
  }

  /**
    * From the start of any run, per mailbox: what was received and is still on its way stands in the order
    * it was sent, with gaps exactly for the frames lost at the quota.
    */
  lemma DeliversInOrder(g: Config, steps: seq<Step>, m: MailboxId)
    requires ValidConfig(g)
    ensures var s := Init(g);
            && Subsequence(Received(s, steps, m) + InTransit(Exec(s, steps), m), Sent(s, steps, m))
            && (Lost(s, steps, m) == [] ==>
                  Sent(s, steps, m) == Received(s, steps, m) + InTransit(Exec(s, steps), m))
            && multiset(Sent(s, steps, m))
               == multiset(Received(s, steps, m)) + multiset(Lost(s, steps, m)) + multiset(InTransit(Exec(s, steps), m))
  {
    hide Sent, Received, Lost, Exec, RunOk, PhaseOk, Subsequence;
    assert InTransit(Init(g), m) == [];
    hide InTransit, Init;
    InitOk(g);
    RunBalanced(Init(g), steps, m);
    assert [] + Sent(Init(g), steps, m) == Sent(Init(g), steps, m);
  }
}
