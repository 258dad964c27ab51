/** Exactly when a client that waits for a rotation answer can still become idle. */
module Progress {
  import opened Common
  import opened Crypto
  import opened ClientCore
  import opened LossyMail
  import opened Rotation
  import opened Relay
  import opened Crossings
  import opened Collision
  import opened Theorems
  import opened Passage
  import opened Lines
  import opened Carriage
  import opened Stalls
  import opened Settings

  // ---------------------------------------------------------------- frames at the door

  predicate Answers(f: MailFrame) {
    f.payload.Sealed? && f.payload.plain.RotateAck?
  }

  ghost predicate Among(fs: seq<MailFrame>, m: MailboxId, ask: bool) {
    exists f :: f in fs && IsMail(f) && f.mailbox == m && (if ask then Asks(f) else Answers(f))
  }

  lemma AmongMail(fs: seq<MailFrame>, m: MailboxId, ask: bool)
    requires Among(Mail(fs, m), m, ask)
    ensures Among(fs, m, ask)
  {
    var f :| f in Mail(fs, m) && IsMail(f) && f.mailbox == m && (if ask then Asks(f) else Answers(f));
    MailWithin(fs, m, f);
  }

  lemma {:induction false} MailWithin(fs: seq<MailFrame>, m: MailboxId, f: MailFrame)
    requires f in Mail(fs, m)
    ensures f in fs
  {
    if f != fs[0] {
      MailWithin(fs[1..], m, f);
    }
  }

  lemma AmongTail(fs: seq<MailFrame>, m: MailboxId, ask: bool)
    requires Among(fs, m, ask) && !(IsMail(fs[0]) && fs[0].mailbox == m && (if ask then Asks(fs[0]) else Answers(fs[0])))
    ensures Among(fs[1..], m, ask)
  {
    var f :| f in fs && IsMail(f) && f.mailbox == m && (if ask then Asks(f) else Answers(f));
    assert f in fs[1..];
  }

  /** A blank answer is read to no effect. */
  lemma ReadEmpty(s: World, w: Who) returns (t: World)
    requires RunOk(s) && s.At(w).down != [] && !IsMail(s.At(w).down[0])
    ensures t == Do(s, DoDeliver(w)) && RunOk(t) && Same(Alpha(s), Alpha(t)) && t.quota == s.quota
    ensures t.At(w) == s.At(w).(down := s.At(w).down[1..]) && t.At(Other(w)) == s.At(Other(w))
  {
    EmptyAnswerKeeps(s, w);
    assert WellAddressed(s) by { RunOkBase(s); }
    ReadRefines(s, w);
    hide RunOk, WellAddressed, InTransit;
    t := Do(s, DoDeliver(w));
    assert s.At(w).outbox + [] == s.At(w).outbox;
  }

  // ---------------------------------------------------------------- reading up to the answer

  /** w waits for an answer in m; other requests it might act on come from m as well, and m is polled. */
  ghost predicate AwaitsAt(a: Abs, w: Who, m: MailboxId) {
    var c := a.At(w).contact;
    && c.pfs == RotationRequested && Listens(c, m)
    && (m != c.rxId ==> a.mail(c.rxId) == [])
    && forall n, i | TokenAt(a, Other(w), n, i) && Asks(a.mail(n)[i]) && Listens(c, n) :: n == m == c.rxId
  }

  lemma SameAwaits(a: Abs, b: Abs, w: Who, m: MailboxId)
    requires Same(a, b) && AwaitsAt(a, w, m)
    ensures AwaitsAt(b, w, m)
  {
    forall n, i
      ensures TokenAt(b, Other(w), n, i) == TokenAt(a, Other(w), n, i)
    {
    }
  }

  lemma CalmAwaits(a: Abs, w: Who, m: MailboxId, n: MailboxId)
    requires Base(a) && AwaitsAt(a, w, m) && CalmHead(a, w, n)
    ensures AwaitsAt(Deliver(a, w, n), w, m)
  {
    hide Base, Deliver;
    CalmDelivery(a, w, n);
    LocalOf(a, w);
    hide LocalOk;
    var b, c := Deliver(a, w, n), a.At(w).contact;
    forall k, i | TokenAt(b, Other(w), k, i) && Asks(b.mail(k)[i]) && Listens(b.At(w).contact, k)
      ensures k == m == b.At(w).contact.rxId
    {
      assert TokenAt(a, Other(w), k, Before(n, 0, k, i));
    }
  }

  lemma RequestAwaits(a: Abs, w: Who, m: MailboxId, n: MailboxId)
    requires Arriving(a, w, n) && AwaitsAt(a, w, m) && Asks(a.mail(n)[0])
    requires TokenAt(a, Other(w), n, 0)
    ensures AwaitsAt(Deliver(a, w, n), w, m)
  {
    var key := a.mail(n)[0].payload.plain.key;
    CrossingComplete(a, w, n);
    hide Base, Deliver;
    DeliverRequest(a, w, n, key);
    RequestTokens(a, w, n, key);
    var b := Deliver(a, w, n);
    assert b.mail(b.At(w).contact.rxId) == [] by {
      var rx := b.At(w).contact.rxId;
      UnknownIsEmpty(a, rx, w);
      LocalOf(a, w);
    }
    hide Arriving;
    assert forall k, i | TokenAt(b, Other(w), k, i) :: !Asks(b.mail(k)[i]);
  }

  /** A mailbox to a key its reader has yet to make is empty. */
  lemma UnknownIsEmpty(a: Abs, m: MailboxId, w: Who)
    requires Base(a) && Receiver(m) == Ephemeral(a.At(w).me, a.At(w).generated)
    ensures a.mail(m) == []
  {
    if a.mail(m) != [] {
      hide Base;
      MailOf(a, m, 0);
    }
  }

  /** Reading on, w comes to its answer and is idle. */
  lemma {:induction false} ReadAck(s: World, w: Who, m: MailboxId) returns (steps: seq<Step>)
    requires RunOk(s) && AwaitsAt(Alpha(s), w, m) && Among(s.At(w).down, m, false)
    ensures Exec(s, steps).At(w).local.contact.pfs == Idle
    decreases |s.At(w).down|
  {
    hide RunOk, Among, Do, Exec, AwaitsAt, Deliver, InTransit, Receive, CalmHead;
    assert s.At(w).down != [] by { AmongSome(s.At(w).down, m, false); }
    var f := s.At(w).down[0];
    var t := ReadOn(s, w, m);
    ExecOne(s, DoDeliver(w));
    if t.At(w).local.contact.pfs == Idle {
      steps := [DoDeliver(w)];
    } else {
      AmongTail(s.At(w).down, m, false);
      var rest := ReadAck(t, w, m);
      steps := [DoDeliver(w)] + rest;
      ExecConcat(s, [DoDeliver(w)], rest);
    }
  }

  lemma AmongSome(fs: seq<MailFrame>, m: MailboxId, ask: bool)
    requires Among(fs, m, ask)
    ensures fs != []
  {
  }

  /** One frame of that reading. */
  lemma ReadOn(s: World, w: Who, m: MailboxId) returns (t: World)
    requires RunOk(s) && AwaitsAt(Alpha(s), w, m) && s.At(w).down != []
    ensures t == Do(s, DoDeliver(w)) && RunOk(t) && t.At(w).down == s.At(w).down[1..]
    ensures t.At(w).local.contact.pfs == Idle || AwaitsAt(Alpha(t), w, m)
    ensures var f := s.At(w).down[0];
            IsMail(f) && f.mailbox == m && Answers(f) ==> t.At(w).local.contact.pfs == Idle
  {
    hide RunOk, Do, AwaitsAt, Deliver, InTransit, Receive, CalmHead, Base, WellAddressed, Same;
    var f, a := s.At(w).down[0], Alpha(s);
    if !IsMail(f) {
      t := ReadEmpty(s, w);
      SameAwaits(a, Alpha(t), w, m);
    } else {
      RunOkBase(s);
      t := ReadHead(s, w);
      var b := Deliver(a, w, f.mailbox);
      SameLocals(b, Alpha(t));
      ReadOnAbs(a, w, m, f.mailbox);
      if AwaitsAt(b, w, m) {
        SameAwaits(b, Alpha(t), w, m);
      }
    }
  }

  lemma ReadOnAbs(a: Abs, w: Who, m: MailboxId, n: MailboxId)
    requires Base(a) && Possible(a, DeliverMove(w, n)) && AwaitsAt(a, w, m)
    ensures var b := Deliver(a, w, n);
            && (b.At(w).contact.pfs == Idle || AwaitsAt(b, w, m))
            && (n == m && Answers(a.mail(n)[0]) ==> b.At(w).contact.pfs == Idle)
  {
    hide Base, Deliver;
    if CalmHead(a, w, n) {
      hide CalmHead;
      CalmAwaits(a, w, m, n);
      assert n == m ==> !Answers(a.mail(n)[0]) by { CalmNoAnswer(a, w, n); }
    } else {
      HeadCases(a, w, n);
      hide Arriving, AwaitsAt, CalmHead;
      var key := a.mail(n)[0].payload.plain.key;
      if IsAck(a.mail(n)[0], key) {
        DeliverAck(a, w, n, key);
      } else {
        RequestAwaits(a, w, m, n);
      }
    }
  }

  lemma CalmNoAnswer(a: Abs, w: Who, n: MailboxId)
    requires CalmHead(a, w, n)
    ensures Listens(a.At(w).contact, n) ==> !Answers(a.mail(n)[0])
  {
  }

  // ---------------------------------------------------------------- carrying

  lemma CarriedAwaits(s: World, t: World, w: Who, m: MailboxId)
    requires Carried(s, t, w, m) && AwaitsAt(Alpha(s), w, m)
    ensures AwaitsAt(Alpha(t), w, m)
  {
    hide RunOk, LinesOk, InTransit;
    var a, b := Alpha(s), Alpha(t);
    var c := a.At(w).contact;
    forall n, i | TokenAt(b, Other(w), n, i) && Asks(b.mail(n)[i]) && Listens(c, n)
      ensures n == m == c.rxId
    {
      var j := CarriedFrom(s, t, w, m, n, i);
      assert TokenAt(a, Other(w), n, j);
    }
    assert m != c.rxId ==> b.mail(c.rxId) == [] by {
      if b.mail(c.rxId) != [] {
        var j := CarriedFrom(s, t, w, m, c.rxId, 0);
      }
    }
  }

  /** Where a frame was before it was carried. */
  lemma CarriedFrom(s: World, t: World, x: Who, m: MailboxId, n: MailboxId, i: nat) returns (j: nat)
    requires Carried(s, t, x, m) && i < |Alpha(t).mail(n)|
    ensures j < |Alpha(s).mail(n)| && Alpha(s).mail(n)[j] == Alpha(t).mail(n)[i]
    ensures n == m ==> j == i
  {
    hide RunOk, LinesOk, InTransit;
    if n == m {
      j := i;
    } else {
      var f := InTransit(t, n)[i];
      assert f in InTransit(t, n);
      j :| 0 <= j < |InTransit(s, n)| && InTransit(s, n)[j] == f;
    }
  }

  predicate Ready(s: World) {
    s.alice.local.connected && s.bob.local.connected && s.quota > 0
  }

  /** With the answer on its way to the mailbox w reads, w becomes idle. */
  lemma FinishRun(s: World, w: Who) returns (steps: seq<Step>)
    requires RunOk(s) && LinesOk(s) && Ready(s)
    requires AwaitsAt(Alpha(s), w, s.At(w).local.contact.rxId)
    requires Among(InTransit(s, s.At(w).local.contact.rxId), s.At(w).local.contact.rxId, false)
    ensures Exec(s, steps).At(w).local.contact.pfs == Idle
  {
    hide RunOk, LinesOk, Carried, AwaitsAt, Among, Mail, Exec, InTransit;
    var m := s.At(w).local.contact.rxId;
    assert SenderOf(s, m) == Other(w) by { ReadsFrom(s, w); }
    var p := BringToDoor(s, w, m, false);
    var t := Exec(s, p);
    assert RunOk(t) && InTransit(t, m) == InTransit(s, m) by { CarriedOk(s, t, w, m); CarriedMail(s, t, w, m); }
    CarriedAwaits(s, t, w, m);
    AmongMail(t.At(w).down, m, false);
    var q := ReadAck(t, w, m);
    steps := p + q;
    ExecConcat(s, p, q);
  }

  lemma CarriedMail(s: World, t: World, x: Who, m: MailboxId)
    requires Carried(s, t, x, m)
    ensures InTransit(t, m) == InTransit(s, m)
    ensures var tx := s.At(Other(x)).local.contact.txId; InTransit(t, tx) == InTransit(s, tx)
  {
    hide RunOk, LinesOk, InTransit;
  }

  // ---------------------------------------------------------------- reading up to the request

  lemma CalmSynced(a: Abs, x: Who, n: MailboxId)
    requires Base(a) && PhaseOk(a, Synced) && CalmHead(a, x, n)
    ensures PhaseOk(Deliver(a, x, n), Synced)
  {
    hide Base, Deliver, TokensTaken, OnlyRequests;
    CalmDelivery(a, x, n);
    hide CalmHead;
    var b := Deliver(a, x, n);
    TakenRequests(a, b, Alice, n);
    TakenRequests(a, b, Bob, n);
  }

  /** v reads w's request: the answer is on its way to the mailbox w reads. */
  lemma RequestAnswered(a: Abs, w: Who, n: MailboxId)
    requires Arriving(a, Other(w), n) && PhaseOk(a, Synced) && a.At(w).contact.pfs == RotationRequested
    requires Asks(a.mail(n)[0])
    ensures var b := Deliver(a, Other(w), n);
            var m := a.At(w).contact.rxId;
            b.At(w) == a.At(w) && AwaitsAt(b, w, m) && Among(b.mail(m), m, false)
  {
    var v, m := Other(w), a.At(w).contact.rxId;
    var b := Deliver(a, v, n);
    assert m == a.At(v).contact.txId;
    hide Base, Deliver, Among;
    AnswerSent(a, v, n);
    hide Arriving;
    assert Listens(b.At(w).contact, m);
    assert forall k, i | TokenAt(b, v, k, i) :: k == m;
  }

  /** What answering a request puts on its way, and where the answering side's own handshake frames are. */
  lemma AnswerSent(a: Abs, v: Who, n: MailboxId)
    requires Arriving(a, v, n) && Asks(a.mail(n)[0]) && OnlyRequests(a, v)
    ensures var b := Deliver(a, v, n);
            var m := a.At(v).contact.txId;
            && b.At(Other(v)) == a.At(Other(v)) && Among(b.mail(m), m, false)
            && forall k, i | TokenAt(b, v, k, i) :: k == m
  {
    hide Arriving, OnlyRequests, Deliver, Among, TokenAt;
    AckSent(a, v, n);
    AnswererTokens(a, v, n);
  }

  lemma AckSent(a: Abs, v: Who, n: MailboxId)
    requires Arriving(a, v, n) && Asks(a.mail(n)[0])
    ensures var b := Deliver(a, v, n);
            var m := a.At(v).contact.txId;
            b.At(Other(v)) == a.At(Other(v)) && Among(b.mail(m), m, false)
  {
    var key, m := a.mail(n)[0].payload.plain.key, a.At(v).contact.txId;
    var b := Deliver(a, v, n);
    var f := PublicKey(Ephemeral(a.At(v).me, a.At(v).generated));
    var ack := SealTo(Push, a.At(v).contact, RotateAck(f, Signature(a.At(v).me, [key, f])));
    assert Answers(ack) && IsMail(ack) && ack.mailbox == m;
    hide Base, Deliver, SealTo, Answers, Among, MailboxOf;
    assert n != m by { LocalOf(a, v); }
    hide Arriving;
    if a.At(v).contact.complete {
      DeliverRequest(a, v, n, key);
      assert b.mail(m) == a.mail(m) + [ack];
    } else {
      DeliverFirstRequest(a, v, n, key);
      assert b.mail(m) == a.mail(m) + [ack];
    }
    LastAmong(a.mail(m), ack, m);
  }

  lemma LastAmong(fs: seq<MailFrame>, f: MailFrame, m: MailboxId)
    requires Answers(f) && IsMail(f) && f.mailbox == m
    ensures Among(fs + [f], m, false)
  {
    assert f in fs + [f];
  }

  lemma AnswererTokens(a: Abs, v: Who, n: MailboxId)
    requires Arriving(a, v, n) && Asks(a.mail(n)[0]) && OnlyRequests(a, v)
    ensures forall k, i | TokenAt(Deliver(a, v, n), v, k, i) :: k == a.At(v).contact.txId
  {
    var key := a.mail(n)[0].payload.plain.key;
    hide Base, Deliver, Arriving, OnlyRequests, NoTokens, TokensTaken, OnlyAckAtEnd, TokenAt;
    if a.At(v).contact.complete {
      RequestTokens(a, v, n, key);
      TakenWhere(a, Deliver(a, v, n), v, n);
    } else {
      DeliverFirstRequest(a, v, n, key);
      IdleHasNoTokens(Deliver(a, v, n), v);
      NoneAnywhere(Deliver(a, v, n), v);
    }
  }

  lemma TakenWhere(a: Abs, b: Abs, v: Who, n: MailboxId)
    requires OnlyRequests(a, v) && TokensTaken(a, b, v, n)
    ensures forall k, i | TokenAt(b, v, k, i) :: k == a.At(v).contact.txId
  {
  }

  lemma NoneAnywhere(b: Abs, v: Who)
    requires NoTokens(b, v)
    ensures forall k, i :: !TokenAt(b, v, k, i)
  {
  }

  lemma SameSynced(a: Abs, b: Abs, w: Who)
    requires Same(a, b) && PhaseOk(a, Synced)
    ensures PhaseOk(b, Synced) && b.At(w) == a.At(w)
  {
    SamePhase(a, b, Synced);
    hide PhaseOk;
  }

  lemma SameAmong(a: Abs, b: Abs, m: MailboxId)
    requires Same(a, b) && Among(a.mail(m), m, false)
    ensures Among(b.mail(m), m, false)
  {
    hide Among;
  }

  /** Either v read the request just now, or the clients are still synced and it is still to be read. */
  lemma ReadOnSynced(s: World, w: Who) returns (t: World)
    requires RunOk(s) && PhaseOk(Alpha(s), Synced) && s.At(Other(w)).down != []
    requires s.At(w).local.contact.pfs == RotationRequested
    ensures t == Do(s, DoDeliver(Other(w))) && RunOk(t) && t.quota == s.quota && t.At(w) == s.At(w)
    ensures t.At(Other(w)).down == s.At(Other(w)).down[1..]
    ensures t.At(Other(w)).local.connected == s.At(Other(w)).local.connected
    ensures var m := s.At(w).local.contact.rxId;
            || (AwaitsAt(Alpha(t), w, m) && Among(InTransit(t, m), m, false))
            || (PhaseOk(Alpha(t), Synced) && t.At(Other(w)).local.contact.rxId == s.At(Other(w)).local.contact.rxId
                && var f := s.At(Other(w)).down[0]; !(IsMail(f) && f.mailbox == s.At(Other(w)).local.contact.rxId && Asks(f)))
  {
    hide RunOk, Do, AwaitsAt, Deliver, InTransit, Receive, CalmHead, Base, WellAddressed, Same, Among, PhaseOk;
    var v := Other(w);
    var f, a := s.At(v).down[0], Alpha(s);
    if !IsMail(f) {
      t := ReadEmpty(s, v);
      SameSynced(a, Alpha(t), v);
    } else {
      RunOkBase(s);
      t := ReadHead(s, v);
      var b := Deliver(a, v, f.mailbox);
      SameLocals(b, Alpha(t));
      if CalmHead(a, v, f.mailbox) {
        CalmSynced(a, v, f.mailbox);
        SameSynced(b, Alpha(t), v);
        CalmKeepsRx(a, v, f.mailbox);
      } else {
        assert IsRequest(f, f.payload.plain.key) by { SyncedRequest(a, v, f.mailbox); }
        HeadCases(a, v, f.mailbox);
        RequestAnswered(a, w, f.mailbox);
        SameAwaits(b, Alpha(t), w, s.At(w).local.contact.rxId);
        SameAmong(b, Alpha(t), s.At(w).local.contact.rxId);
      }
    }
  }

  lemma CalmKeepsRx(a: Abs, v: Who, n: MailboxId)
    requires Base(a) && CalmHead(a, v, n)
    ensures Deliver(a, v, n).At(v).contact.rxId == a.At(v).contact.rxId
    ensures n == a.At(v).contact.rxId ==> !Asks(a.mail(n)[0])
  {
    CalmDelivery(a, v, n);
    hide Base, Deliver;
  }

  lemma SyncedRequest(a: Abs, v: Who, n: MailboxId)
    requires Base(a) && PhaseOk(a, Synced) && Possible(a, DeliverMove(v, n)) && !CalmHead(a, v, n)
    ensures IsRequest(a.mail(n)[0], a.mail(n)[0].payload.plain.key)
  {
    HeadCases(a, v, n);
    hide Base;
  }

  /** Reading on, the other side comes to w's request and answers it. */
  lemma {:induction false} ReadRequest(s: World, w: Who) returns (steps: seq<Step>)
    requires RunOk(s) && LinesOk(s) && Ready(s) && PhaseOk(Alpha(s), Synced)
    requires s.At(w).local.contact.pfs == RotationRequested
    requires Among(s.At(Other(w)).down, s.At(Other(w)).local.contact.rxId, true)
    ensures var t := Exec(s, steps);
            var m := t.At(w).local.contact.rxId;
            RunOk(t) && LinesOk(t) && Ready(t) && AwaitsAt(Alpha(t), w, m) && Among(InTransit(t, m), m, false)
    decreases |s.At(Other(w)).down|
  {
    hide RunOk, LinesOk, Among, Do, Exec, AwaitsAt, InTransit, PhaseOk;
    var v, m := Other(w), s.At(w).local.contact.rxId;
    assert s.At(v).down != [] by { AmongSome(s.At(v).down, s.At(v).local.contact.rxId, true); }
    var t := ReadOnSynced(s, w);
    StepKeepsLines(s, DoDeliver(v));
    ExecOne(s, DoDeliver(v));
    assert Ready(t) by { assert t.At(Alice).local.connected && t.At(Bob).local.connected; }
    if AwaitsAt(Alpha(t), w, m) && Among(InTransit(t, m), m, false) {
      steps := [DoDeliver(v)];
    } else {
      AmongTail(s.At(v).down, s.At(v).local.contact.rxId, true);
      var rest := ReadRequest(t, w);
      steps := [DoDeliver(v)] + rest;
      ExecConcat(s, [DoDeliver(v)], rest);
    }
  }

  lemma CarriedSynced(s: World, t: World, x: Who, m: MailboxId)
    requires Carried(s, t, x, m) && PhaseOk(Alpha(s), Synced)
    ensures PhaseOk(Alpha(t), Synced)
  {
    hide RunOk, LinesOk, InTransit;
    CarriedRequests(s, t, x, m, Alice);
    CarriedRequests(s, t, x, m, Bob);
    hide OnlyRequests;
  }

  lemma CarriedRequests(s: World, t: World, x: Who, m: MailboxId, w: Who)
    requires Carried(s, t, x, m) && OnlyRequests(Alpha(s), w)
    ensures OnlyRequests(Alpha(t), w)
  {
    hide RunOk, LinesOk, InTransit;
    var a, b := Alpha(s), Alpha(t);
    forall n, i | TokenAt(b, w, n, i)
      ensures b.mail(n)[i].payload.plain.RotateRequest? && n == b.At(w).contact.txId
    {
      var j := CarriedFrom(s, t, x, m, n, i);
      assert TokenAt(a, w, n, j);
    }
  }

  /** With both sides on the same keys and w's request on its way, w becomes idle. */
  lemma AskRun(s: World, w: Who) returns (steps: seq<Step>)
    requires RunOk(s) && LinesOk(s) && Ready(s) && PhaseOk(Alpha(s), Synced)
    requires s.At(w).local.contact.pfs == RotationRequested
    requires Among(InTransit(s, s.At(w).local.contact.txId), s.At(w).local.contact.txId, true)
    ensures Exec(s, steps).At(w).local.contact.pfs == Idle
  {
    var v, m := Other(w), s.At(w).local.contact.txId;
    assert m == s.At(v).local.contact.rxId;
    hide RunOk, LinesOk, Carried, AwaitsAt, Among, Mail, Exec, InTransit, PhaseOk;
    assert SenderOf(s, m) == w by { ReadsFrom(s, v); }
    var p := BringToDoor(s, v, m, false);
    var t := Exec(s, p);
    CarriedOk(s, t, v, m);
    CarriedMail(s, t, v, m);
    CarriedSynced(s, t, v, m);
    AmongMail(t.At(v).down, m, true);
    assert Ready(t) by { assert t.At(Alice).local.connected && t.At(Bob).local.connected; }
    var q := ReadRequest(t, w);
    var u := Exec(t, q);
    var r := FinishRun(u, w);
    steps := p + (q + r);
    ExecConcat(s, p, q + r);
    ExecConcat(t, q, r);
  }

  // ---------------------------------------------------------------- the other side catches up first

  /** v takes the answer it waits for, or reads on without touching what w has sent since. */
  lemma ReadOnWaiting(s: World, v: Who) returns (t: World)
    requires RunOk(s) && LinesOk(s) && PhaseOk(Alpha(s), Waiting(v)) && s.At(v).down != []
    ensures t == Do(s, DoDeliver(v)) && RunOk(t) && t.quota == s.quota && t.At(Other(v)) == s.At(Other(v))
    ensures t.At(v).down == s.At(v).down[1..] && t.At(v).local.connected == s.At(v).local.connected
    ensures var tx := s.At(Other(v)).local.contact.txId; InTransit(t, tx) == InTransit(s, tx)
    ensures || PhaseOk(Alpha(t), Synced)
            || (PhaseOk(Alpha(t), Waiting(v)) && t.At(v).local.contact.rxId == s.At(v).local.contact.rxId
                && var f := s.At(v).down[0]; !(IsMail(f) && f.mailbox == s.At(v).local.contact.rxId && Answers(f)))
  {
    hide RunOk, Do, Deliver, InTransit, Receive, CalmHead, Base, WellAddressed, Same, PhaseOk, LinesOk;
    var f, a := s.At(v).down[0], Alpha(s);
    var tx := s.At(Other(v)).local.contact.txId;
    if !IsMail(f) {
      t := ReadEmpty(s, v);
      SamePhase(a, Alpha(t), Waiting(v));
      SameMailbox(a, Alpha(t), tx);
    } else {
      RunOkBase(s);
      t := ReadHead(s, v);
      var b := Deliver(a, v, f.mailbox);
      assert f.mailbox != tx by { NotYetAsked(s, v); }
      WaitingMoves(a, v, f.mailbox);
      SameMailbox(b, Alpha(t), tx);
      SameLocals(b, Alpha(t));
      var ph := if PhaseOk(b, Synced) then Synced else Waiting(v);
      SamePhase(b, Alpha(t), ph);
    }
  }

  lemma SameMailbox(a: Abs, b: Abs, m: MailboxId)
    requires Same(a, b)
    ensures a.mail(m) == b.mail(m)
  {
  }

  /** What v has polled is not from the mailbox the other side moved to. */
  lemma NotYetAsked(s: World, v: Who)
    requires LinesOk(s) && PhaseOk(Alpha(s), Waiting(v)) && s.At(v).down != []
    ensures s.At(v).down[0].mailbox != s.At(Other(v)).local.contact.txId
  {
    LinesOf(s, v);
    hide LastTo, Unopened, OnlyAnswer, OnlyRequests;
    assert s.At(v).down[0] in s.At(v).down;
  }

  lemma WaitingMoves(a: Abs, v: Who, n: MailboxId)
    requires Base(a) && PhaseOk(a, Waiting(v)) && Possible(a, DeliverMove(v, n)) && n != a.At(Other(v)).contact.txId
    ensures var b := Deliver(a, v, n);
            && b.mail(a.At(Other(v)).contact.txId) == a.mail(a.At(Other(v)).contact.txId)
            && (|| PhaseOk(b, Synced)
                || (PhaseOk(b, Waiting(v)) && b.At(v).contact.rxId == a.At(v).contact.rxId
                    && !(n == a.At(v).contact.rxId && Answers(a.mail(n)[0]))))
  {
    hide Base, PhaseOk;
    var b := Deliver(a, v, n);
    LocalOf(a, v);
    LocalOf(a, Other(v));
    hide LocalOk;
    assert b.mail(a.At(Other(v)).contact.txId) == a.mail(a.At(Other(v)).contact.txId);
    assert !Crossing(a, v, n) by { WaitingNoCrossing(a, v, n); }
    DeliverMovesPhase(a, v, n, Waiting(v));
    hide Deliver, Receive, Crossing;
    if CalmHead(a, v, n) {
      CalmDelivery(a, v, n);
    } else {
      HeadCases(a, v, n);
      var key := a.mail(n)[0].payload.plain.key;
      if IsAck(a.mail(n)[0], key) {
        DeliverAck(a, v, n, key);
        assert !PhaseOk(b, Waiting(v)) by { IdleNotWaiting(b, v); }
      } else {
        RequestMeansSynced(a, v, n, Waiting(v));
      }
    }
  }

  lemma IdleNotWaiting(a: Abs, v: Who)
    requires a.At(v).contact.pending == None
    ensures !PhaseOk(a, Waiting(v))
  {
  }

  lemma WaitingNoCrossing(a: Abs, v: Who, n: MailboxId)
    requires Base(a) && PhaseOk(a, Waiting(v)) && Possible(a, DeliverMove(v, n))
    ensures !Crossing(a, v, n)
  {
    hide Base, PhaseOk;
    if Crossing(a, v, n) {
      RequestMeansSynced(a, v, n, Waiting(v));
    }
  }

  lemma {:induction false} ReadAnswer(s: World, v: Who) returns (steps: seq<Step>)
    requires RunOk(s) && LinesOk(s) && Ready(s) && PhaseOk(Alpha(s), Waiting(v))
    requires Among(s.At(v).down, s.At(v).local.contact.rxId, false)
    ensures var t := Exec(s, steps);
            var tx := s.At(Other(v)).local.contact.txId;
            && RunOk(t) && LinesOk(t) && Ready(t) && PhaseOk(Alpha(t), Synced)
            && t.At(Other(v)) == s.At(Other(v)) && InTransit(t, tx) == InTransit(s, tx)
    decreases |s.At(v).down|
  {
    hide RunOk, LinesOk, Among, Do, Exec, InTransit, PhaseOk;
    assert s.At(v).down != [] by { AmongSome(s.At(v).down, s.At(v).local.contact.rxId, false); }
    var t := ReadOnWaiting(s, v);
    StepKeepsLines(s, DoDeliver(v));
    ExecOne(s, DoDeliver(v));
    assert Ready(t) by { assert t.At(Alice).local.connected && t.At(Bob).local.connected; }
    if PhaseOk(Alpha(t), Synced) {
      steps := [DoDeliver(v)];
    } else {
      AmongTail(s.At(v).down, s.At(v).local.contact.rxId, false);
      var rest := ReadAnswer(t, v);
      steps := [DoDeliver(v)] + rest;
      ExecConcat(s, [DoDeliver(v)], rest);
    }
  }

  lemma CarriedWaiting(s: World, t: World, v: Who)
    requires Carried(s, t, v, s.At(v).local.contact.rxId) && PhaseOk(Alpha(s), Waiting(v))
    ensures PhaseOk(Alpha(t), Waiting(v))
  {
    hide RunOk, LinesOk, InTransit;
    var m := s.At(v).local.contact.rxId;
    var a, b := Alpha(s), Alpha(t);
    CarriedRequests(s, t, v, m, Other(v));
    hide OnlyRequests;
    forall n, i | TokenAt(b, v, n, i)
      ensures TokenAt(a, v, n, i) && b.mail(n)[i] == a.mail(n)[i] && |b.mail(n)| == |a.mail(n)|
    {
      var j := CarriedFrom(s, t, v, m, n, i);
      assert TokenAt(a, v, n, j);
    }
    var rx := a.At(Other(v)).contact.rxId;
    if b.mail(rx) != [] {
      var j := CarriedFrom(s, t, v, m, rx, 0);
    }
  }

  /** With the answer for v on its way, v catches up; then w's request is answered. */
  lemma CatchUpRun(s: World, w: Who) returns (steps: seq<Step>)
    requires RunOk(s) && LinesOk(s) && Ready(s) && PhaseOk(Alpha(s), Waiting(Other(w)))
    requires s.At(w).local.contact.pfs == RotationRequested
    requires Among(InTransit(s, s.At(w).local.contact.txId), s.At(w).local.contact.txId, true)
    requires Among(InTransit(s, s.At(Other(w)).local.contact.rxId), s.At(Other(w)).local.contact.rxId, false)
    ensures Exec(s, steps).At(w).local.contact.pfs == Idle
  {
    hide RunOk, LinesOk, Carried, Among, Mail, Exec, InTransit, PhaseOk;
    var v, m := Other(w), s.At(Other(w)).local.contact.rxId;
    assert SenderOf(s, m) == w by { ReadsFrom(s, v); }
    var p := BringToDoor(s, v, m, false);
    var t := Exec(s, p);
    CarriedOk(s, t, v, m);
    CarriedMail(s, t, v, m);
    CarriedWaiting(s, t, v);
    AmongMail(t.At(v).down, m, false);
    assert Ready(t) by { assert t.At(Alice).local.connected && t.At(Bob).local.connected; }
    var q := ReadAnswer(t, v);
    var u := Exec(t, q);
    var r := AskRun(u, w);
    steps := p + (q + r);
    ExecConcat(s, p, q + r);
    ExecConcat(t, q, r);
  }
}
