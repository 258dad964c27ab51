/** The polls of the command loop and those of the whole-run model are the same. */
module Polling {
  import opened Crypto
  import opened ClientCore
  import Repl
  import Relay

  /** What a client with one contact polls in turn is what a tick of a run may poll. */
  lemma SamePolls(c: ContactState, m: MailboxId)
    ensures m in Repl.MailboxesOf(c) <==> exists pollOld :: Relay.PollTarget(c, pollOld) == m
  {
    Repl.MailboxesListened(c, m);
    Relay.PollsListened(c, m);
    hide Repl.MailboxesOf, Relay.PollTarget, Listens;
    assert Relay.PollTarget(c, false) == m || Relay.PollTarget(c, true) == m
        <==> exists pollOld :: Relay.PollTarget(c, pollOld) == m;
  }
}
