/** Runs of the whole system in which two crossing rotations split the clients for good. */
module Divergence {
  import opened Common
  import opened Crypto
  import opened ClientCore
  import opened LossyMail
  import opened Rotation
  import opened Relay
  import opened Theorems
  import opened Crossings
  import opened Passage
  import opened Chat

  // ---------------------------------------------------------------- the crossed round as a run

  /** A door that holds mail of one mailbox only. */
  predicate Only(s: World, w: Who, m: MailboxId) {
    forall f | f in s.At(w).down :: f.mailbox == m
  }

  /** A point of the round with all its mail at the doors. */
  ghost predicate StageAtDoor(s: World, c: Cast, w: Who, mine: Stand, theirs: Stand, sent: seq<Kind>, inbox: seq<Kind>) {
    && RunOk(s) && Door(s) && Stage(Alpha(s), c, w, mine, theirs, sent, inbox)
    && Only(s, w, Tx(c, Other(w))) && Only(s, Other(w), Tx(c, w))
  }

  lemma FlipAtDoor(s: World, c: Cast, w: Who, mine: Stand, theirs: Stand, sent: seq<Kind>, inbox: seq<Kind>)
    requires StageAtDoor(s, c, w, mine, theirs, sent, inbox)
    ensures StageAtDoor(s, c, Other(w), theirs, mine, inbox, sent)
  {
    hide RunOk, Stage, Door, Only;
    StageFlip(Alpha(s), c, w, mine, theirs, sent, inbox);
  }

  /** The door holds the inbox. */
  lemma InboxAtDoor(s: World, c: Cast, w: Who, mine: Stand, theirs: Stand, sent: seq<Kind>, inbox: seq<Kind>)
    requires StageAtDoor(s, c, w, mine, theirs, sent, inbox)
    ensures s.At(w).down == InTransit(s, Tx(c, Other(w))) && |s.At(w).down| == |inbox|
  {
    hide RunOk, Base, InTransit;
    SenderIs(s, Other(w));
    DoorHolds(s, w, Tx(c, Other(w)));
    assert Alpha(s).mail(Tx(c, Other(w))) == s.At(w).down;
  }

  lemma BothAskRun(s: World, x: seq<byte>, y: seq<byte>) returns (steps: seq<Step>, c: Cast)
    requires RunOk(s) && Door(s) && Due(Alpha(s))
    ensures var u := Exec(s, steps);
            StageAtDoor(u, c, Alice, Asked, Asked, [ARequest(c.aliceKey), AText], [ARequest(c.bobKey), AText])
  {
    hide RunOk, Same, Send, Perform, Stage, Door, Exec, InTransit, Base;
    c := CastOf(Alpha(s));
    AliceAsks(Alpha(s), x);
    NothingAtDoor(s);
    PairedPolls(s, Alice);
    PairedPolls(s, Bob);
    hide Due, AliceAsked, PollTarget;
    var p := DoorSend(s, Alice, x);
    var t := Exec(s, p);
    SameAliceAsked(Perform(Alpha(s), Alice, Send(s.alice.local, x)), Alpha(t), c);
    assert t.bob.local.contact.txId == PollTarget(t.alice.local.contact, false) by { AliceAskedPolls(t, c); }
    var q := DoorSend(t, Bob, y);
    var u := Exec(t, q);
    BobAsks(Alpha(t), c, y);
    SameStage(Perform(Alpha(t), Bob, Send(t.bob.local, y)), Alpha(u), c, Alice, Asked, Asked,
              [ARequest(c.aliceKey), AText], [ARequest(c.bobKey), AText]);
    assert Only(u, Bob, c.aliceTx) && Only(u, Alice, c.bobTx) by {
      ActionsAddress(s.alice.local, x);
      ActionsAddress(t.bob.local, y);
    }
    steps := p + q;
    ExecConcat(s, p, q);
  }

  lemma AliceAskedPolls(s: World, c: Cast)
    requires AliceAsked(Alpha(s), c)
    ensures s.bob.local.contact.txId == PollTarget(s.alice.local.contact, false)
  {
    hide Base;
  }

  /** Where the other side polls what w sends: its current mailbox, or the old one once it has answered. */
  lemma StandPolls(a: Abs, c: Cast, w: Who, theirs: Stand, sent: seq<Kind>, inbox: seq<Kind>)
    requires Stage(a, c, w, Asked, theirs, sent, inbox)
    ensures theirs.Asked? ==> PollTarget(a.At(Other(w)).contact, false) == a.At(w).contact.txId
    ensures theirs.AnsweredWith? ==> PollTarget(a.At(Other(w)).contact, true) == a.At(w).contact.txId
    ensures a.At(w).contact.txId == Tx(c, w)
  {
    hide Base;
  }

  lemma AnswerRun(s: World, c: Cast, w: Who, theirs: Stand, sent: seq<Kind>, rest: seq<Kind>)
    returns (steps: seq<Step>, f: SecretKey)
    requires StageAtDoor(s, c, w, Asked, theirs, sent, [ARequest(Asking(c, Other(w)))] + rest) && !theirs.Done?
    ensures StageAtDoor(Exec(s, steps), c, w, AnsweredWith(f), theirs, sent + [AnAnswer(f)], rest)
  {
    var m := Tx(c, Other(w));
    var inbox := [ARequest(Asking(c, Other(w)))] + rest;
    hide RunOk, Same, Stage, Door, Deliver, Exec, PollTarget, InTransit, Receive;
    InboxAtDoor(s, c, w, Asked, theirs, sent, inbox);
    assert s.At(w).down[0] in s.At(w).down;
    StandPolls(Alpha(s), c, w, theirs, sent, inbox);
    steps := DoorDeliver(s, w, theirs.AnsweredWith?);
    var u := Exec(s, steps);
    f := StageAnswer(Alpha(s), c, w, theirs, sent, rest);
    SameStage(Deliver(Alpha(s), w, m), Alpha(u), c, w, AnsweredWith(f), theirs, sent + [AnAnswer(f)], rest);
    ReceiveAddresses(s.At(w).local, s.At(w).down[0]);
  }

  /** w reads a text and then its own answer; the receipt it owes stays in its outbox. */
  lemma FinishRun(s: World, c: Cast, w: Who, f: SecretKey, r: SecretKey, theirs: Stand, sent: seq<Kind>)
    returns (steps: seq<Step>)
    requires RunOk(s) && Only(s, w, Tx(c, Other(w))) && |s.At(w).down| == 2 && (forall g | g in s.At(w).down :: IsMail(g))
    requires Stage(Alpha(s), c, w, AnsweredWith(f), theirs, sent, [AText] + [AnAnswer(r)])
    ensures var u := Exec(s, steps);
            && RunOk(u) && Stage(Alpha(u), c, w, Done(f, r), theirs, sent, [])
            && u.At(Other(w)) == s.At(Other(w))
  {
    hide RunOk, Same, Stage, Deliver, Exec, InTransit, Receive, Do;
    var m, down := Tx(c, Other(w)), s.At(w).down;
    assert down[0] in down && down[1] in down;
    var t := ReadHead(s, w);
    StageText(Alpha(s), c, w, f, theirs, sent, [AnAnswer(r)]);
    SameStage(Deliver(Alpha(s), w, m), Alpha(t), c, w, AnsweredWith(f), theirs, sent, [AnAnswer(r)]);
    assert [AnAnswer(r)] == [AnAnswer(r)] + [];
    assert t.At(w).down[0] == down[1];
    var u := ReadHead(t, w);
    StageAck(Alpha(t), c, w, f, r, theirs, sent, []);
    SameStage(Deliver(Alpha(t), w, m), Alpha(u), c, w, Done(f, r), theirs, sent, []);
    steps := [DoDeliver(w), DoDeliver(w)];
    ExecTwo(s, DoDeliver(w), DoDeliver(w));
  }

  lemma BothAnswerRun(s: World, c: Cast) returns (steps: seq<Step>, f: SecretKey, r: SecretKey)
    requires StageAtDoor(s, c, Alice, Asked, Asked, [ARequest(c.aliceKey), AText], [ARequest(c.bobKey), AText])
    ensures StageAtDoor(Exec(s, steps), c, Alice, AnsweredWith(f), AnsweredWith(r), [AText] + [AnAnswer(f)], [AText] + [AnAnswer(r)])
  {
    hide StageAtDoor, Exec;
    assert [ARequest(c.bobKey), AText] == [ARequest(c.bobKey)] + [AText];
    var p;
    p, f := AnswerRun(s, c, Alice, Asked, [ARequest(c.aliceKey), AText], [AText]);
    var t := Exec(s, p);
    var sent := [ARequest(c.aliceKey), AText] + [AnAnswer(f)];
    assert sent == [ARequest(c.aliceKey)] + ([AText] + [AnAnswer(f)]);
    FlipAtDoor(t, c, Alice, AnsweredWith(f), Asked, sent, [AText]);
    var q;
    q, r := AnswerRun(t, c, Bob, AnsweredWith(f), [AText], [AText] + [AnAnswer(f)]);
    FlipAtDoor(Exec(t, q), c, Bob, AnsweredWith(r), AnsweredWith(f), [AText] + [AnAnswer(r)], [AText] + [AnAnswer(f)]);
    steps := p + q;
    ExecConcat(s, p, q);
  }

  lemma BothFinishRun(s: World, c: Cast, f: SecretKey, r: SecretKey) returns (steps: seq<Step>)
    requires StageAtDoor(s, c, Alice, AnsweredWith(f), AnsweredWith(r), [AText] + [AnAnswer(f)], [AText] + [AnAnswer(r)])
    ensures var u := Exec(s, steps);
            RunOk(u) && Stage(Alpha(u), c, Alice, Done(f, r), Done(r, f), [], [])
  {
    hide RunOk, Stage, Exec, InTransit;
    var fs, rs := [AText] + [AnAnswer(f)], [AText] + [AnAnswer(r)];
    InboxAtDoor(s, c, Alice, AnsweredWith(f), AnsweredWith(r), fs, rs);
    FlipAtDoor(s, c, Alice, AnsweredWith(f), AnsweredWith(r), fs, rs);
    InboxAtDoor(s, c, Bob, AnsweredWith(r), AnsweredWith(f), rs, fs);
    assert forall g | g in s.alice.down :: g in s.alice.down + s.bob.down;
    assert forall g | g in s.bob.down :: g in s.alice.down + s.bob.down;
    var p := FinishRun(s, c, Alice, f, r, AnsweredWith(r), fs);
    var t := Exec(s, p);
    StageFlip(Alpha(t), c, Alice, Done(f, r), AnsweredWith(r), fs, []);
    var q := FinishRun(t, c, Bob, r, f, Done(f, r), []);
    StageFlip(Alpha(Exec(t, q)), c, Bob, Done(r, f), Done(f, r), [], []);
    steps := p + q;
    ExecConcat(s, p, q);
  }

  /** From every quiet state in which both clients are due to rotate, a run splits them. */
  lemma CrossedRun(s: World, x: seq<byte>, y: seq<byte>) returns (steps: seq<Step>)
    requires RunOk(s) && Door(s) && Due(Alpha(s))
    ensures var u := Exec(s, steps);
            && RunOk(u) && Split(Alpha(u))
            && u.alice.local.contact.pfs == Idle && u.bob.local.contact.pfs == Idle
  {
    hide RunOk, Door, Due, Stage, StageAtDoor, Exec, Split;
    var p, c := BothAskRun(s, x, y);
    var t := Exec(s, p);
    var q, f, r := BothAnswerRun(t, c);
    var u := Exec(t, q);
    var z := BothFinishRun(u, c, f, r);
    var v := Exec(u, z);
    BothDoneSplit(Alpha(v), c, f, r, [], []);
    StageIdle(Alpha(v), c, f, r);
    steps := p + (q + z);
    ExecConcat(s, p, q + z);
    ExecConcat(t, q, z);
  }

  lemma StageIdle(a: Abs, c: Cast, f: SecretKey, r: SecretKey)
    requires Stage(a, c, Alice, Done(f, r), Done(r, f), [], [])
    ensures a.alice.contact.pfs == Idle && a.bob.contact.pfs == Idle
  {
  }

  lemma {:induction false} RunKeepsSplit(s: World, steps: seq<Step>)
    requires RunOk(s) && Split(Alpha(s))
    ensures RunOk(Exec(s, steps)) && Split(Alpha(Exec(s, steps)))
    decreases |steps|
  {
    if steps != [] {
      assert Base(Alpha(s)) by { RunOkBase(s); }
      hide RunOk, Base, Do, Split, Same, Moved, MoveOf, Possible;
      var mv := MoveOf(s, steps[0]);
      StepRefines(s, steps[0]);
      MoveKeepsSplit(Alpha(s), mv);
      SameSplit(Moved(Alpha(s), mv), Alpha(Do(s, steps[0])));
      RunKeepsSplit(Do(s, steps[0]), steps[1..]);
    }
  }

  /**
    * The restriction on runs is needed: from every quiet state in which both clients are due to rotate,
    * there is a run after which both are idle and no continuation ever has them agree again, in either
    * direction.
    */
  lemma CrossingDivergesForGood(s: World, x: seq<byte>, y: seq<byte>) returns (steps: seq<Step>)
    requires RunOk(s) && Door(s) && Due(Alpha(s))
    ensures var u := Exec(s, steps);
            && u.alice.local.contact.pfs == Idle && u.bob.local.contact.pfs == Idle
            && forall more: seq<Step> ::
                 var t := Exec(u, more);
                 && t.alice.local.contact.txId != t.bob.local.contact.rxId
                 && t.bob.local.contact.txId != t.alice.local.contact.rxId
  {
    hide RunOk, Door, Due, Exec, Split;
    steps := CrossedRun(s, x, y);
    var u := Exec(s, steps);
    forall more: seq<Step>
      ensures var t := Exec(u, more);
              && t.alice.local.contact.txId != t.bob.local.contact.rxId
              && t.bob.local.contact.txId != t.alice.local.contact.rxId
    {
      RunKeepsSplit(u, more);
      SplitDisagrees(Alpha(Exec(u, more)));
    }
  }

  lemma SplitDisagrees(a: Abs)
    requires Split(a)
    ensures a.alice.contact.txId != a.bob.contact.rxId && a.bob.contact.txId != a.alice.contact.rxId
  {
  }

  lemma QuiescentDue(a: Abs)
    requires Quiescent(a)
    requires forall w :: 0 < a.At(w).interval <= a.At(w).contact.counter
    ensures Due(a)
  {
    assert forall w :: a.At(w).contact.complete;
    assert IsDue(a.At(Alice)) && IsDue(a.At(Bob));
    hide Base;
  }

  /**
    * For every two parties, every positive quota and all positive rotation intervals, some run from the bootstrap keys ends
    * with both clients idle on keys that no continuation ever makes agree. Hence agreement is not an
    * unconditional property of the protocol: that run has a crossing.
    */
  lemma AgreementNeedsNoCrossings(g: Config) returns (steps: seq<Step>)
    requires ValidConfig(g) && g.quota > 0 && g.aliceInterval > 0 && g.bobInterval > 0
    ensures var u := Exec(Init(g), steps);
            && u.alice.local.contact.pfs == Idle && u.bob.local.contact.pfs == Idle
            && forall more: seq<Step> ::
                 var t := Exec(u, more);
                 && t.alice.local.contact.txId != t.bob.local.contact.rxId
                 && t.bob.local.contact.txId != t.alice.local.contact.rxId
    ensures !NoCrossings(Init(g), steps)
  {
    var p := HandshakeRun(g);
    var s := Exec(Init(g), p);
    hide RunOk, Door, Quiescent, Due, Exec, NoCrossings;
    var q := ChatUntilDue(s, Alice, []);
    var t := Exec(s, q);
    var r := ChatUntilDue(t, Bob, []);
    var u := Exec(t, r);
    QuiescentDue(Alpha(u));
    var z := CrossingDivergesForGood(u, [], []);
    steps := p + (q + (r + z));
    ExecConcat(Init(g), p, q + (r + z));
    ExecConcat(s, q, r + z);
    ExecConcat(t, r, z);
    if NoCrossings(Init(g), steps) {
      KeyAgreement(g, steps);
      ExecOne(Exec(Init(g), steps), DoServe(Alice));
      assert false;
    }
  }

}
