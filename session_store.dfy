/**
 * The bot's module-level tables as an object whose handlers update them in
 * place, step by step as the message and button handlers do. Each handler
 * is proved to produce exactly the transition Session.Press or
 * Session.Deliver describes, and to keep the store well-formed.
 */
module Bot {
  import opened RateLimit
  import opened Chat
  import opened Session

  class SessionStore {
    var userRequests: map<UserId, seq<int>>
    var reportWaiting: map<UserId, bool>
    var supportWaiting: map<UserId, bool>
    var userMemory: map<UserId, seq<Entry>>

    /** The tables as one value. */
    function Model(): Store
      reads this
    {
      Store(userRequests, reportWaiting, supportWaiting, userMemory)
    }

    ghost predicate Valid()
      reads this
    {
      WellFormed(Model())
    }

    /** All tables start empty when the process starts. */
    constructor ()
      ensures Model() == Empty && Valid()
    {
      userRequests := map[];
      reportWaiting := map[];
      supportWaiting := map[];
      userMemory := map[];
    }

    /** The button handler. */
    method Button(user: UserId, data: string) returns (prompt: Prompt)
      requires Valid()
      modifies this
      ensures Step(Model(), prompt) == Press(old(Model()), user, data)
      ensures Valid()
    {
      if data == "report" {
        reportWaiting := reportWaiting[user := true];
        prompt := AskForReport;
      } else if data == "support" {
        supportWaiting := supportWaiting[user := true];
        prompt := ShowCard(CARD_NUMBER);
      } else {
        prompt := NoPrompt;
      }
    }

    /**
     * The text-message handler: pass the rate limiter, then serve a raised
     * report flag, else a raised support flag, else a chat turn that asks
     * `complete` for the reply.
     */
    method Message(user: UserId, text: string, now: int, complete: seq<Entry> -> string)
      returns (outcome: Outcome)
      requires Valid()
      modifies this
      ensures Step(Model(), outcome) == Deliver(old(Model()), user, text, now, complete)
      ensures Valid()
    {
      ghost var before := Model();
      DeliverKeepsWellFormed(before, user, text, now, complete);

      var admitted := Admit(user, now);
      if !admitted {
        outcome := RateLimited;
        RefusedChangesOnlyTimestamps(before, user, text, now, complete);
        return;
      }

      if Waiting(reportWaiting, user) {
        outcome := ForwardReport(user, text, now, complete, before);
      } else if Waiting(supportWaiting, user) {
        outcome := ForwardSupport(user, text, now, complete, before);
      } else {
        outcome := Converse(user, text, now, complete, before);
      }
    }

    /**
     * The tables as the rate limiter leaves them for an admitted message:
     * `now` recorded in the user's pruned list, everything else as the
     * message found it in `before`.
     */
    ghost predicate AdmittedFrom(before: Store, user: UserId, now: int)
      reads this
    {
      Admits(Timestamps(before, user), now) &&
      userRequests == Recorded(before, user, now).userRequests &&
      reportWaiting == before.reportWaiting && supportWaiting == before.supportWaiting &&
      userMemory == before.userMemory
    }

    /** A raised report flag: the message is forwarded as a report and the flag lowered. */
    method ForwardReport(user: UserId, text: string, now: int, complete: seq<Entry> -> string,
                         ghost before: Store)
      returns (outcome: Outcome)
      requires AdmittedFrom(before, user, now) && Waiting(reportWaiting, user)
      modifies this
      ensures Step(Model(), outcome) == Deliver(before, user, text, now, complete)
    {
      reportWaiting := reportWaiting[user := false];
      outcome := ReportForwarded(user, text);
      ReportConsumed(before, user, text, now, complete);
    }

    /**
     * Only the support flag raised: the message is forwarded as a support
     * payment and the flag lowered.
     */
    method ForwardSupport(user: UserId, text: string, now: int, complete: seq<Entry> -> string,
                          ghost before: Store)
      returns (outcome: Outcome)
      requires AdmittedFrom(before, user, now)
      requires !Waiting(reportWaiting, user) && Waiting(supportWaiting, user)
      modifies this
      ensures Step(Model(), outcome) == Deliver(before, user, text, now, complete)
    {
      supportWaiting := supportWaiting[user := false];
      outcome := SupportForwarded(user, text);
      SupportConsumed(before, user, text, now, complete);
    }

    /**
     * No flag raised: a chat turn that asks `complete` for the reply to the
     * request built from the user's history, then records the exchange.
     */
    method Converse(user: UserId, text: string, now: int, complete: seq<Entry> -> string,
                    ghost before: Store)
      returns (outcome: Outcome)
      requires AdmittedFrom(before, user, now)
      requires !Waiting(reportWaiting, user) && !Waiting(supportWaiting, user)
      modifies this
      ensures Step(Model(), outcome) == Deliver(before, user, text, now, complete)
    {
      if user !in userMemory {
        userMemory := userMemory[user := []];
      }
      var reply := complete(Request(userMemory[user], text));
      RecordExchange(user, text, reply);
      outcome := ChatReply(reply);
      ChatTurn(before, user, text, now, complete);
    }

    /**
     * The rate limiter: prunes the user's timestamps to the window ending at
     * `now` and admits the message when fewer than RATE_LIMIT remain, in
     * which case `now` is recorded; a refused message is not recorded.
     */
    method Admit(user: UserId, now: int) returns (admitted: bool)
      modifies this
      ensures admitted == Admits(Timestamps(old(Model()), user), now)
      ensures userRequests == old(userRequests)[user :=
        if admitted then Prune(Timestamps(old(Model()), user), now) + [now]
        else Prune(Timestamps(old(Model()), user), now)]
      ensures reportWaiting == old(reportWaiting) && supportWaiting == old(supportWaiting)
      ensures userMemory == old(userMemory)
    {
      var stamps := if user in userRequests then userRequests[user] else [];
      assert stamps == Timestamps(old(Model()), user);
      userRequests := userRequests[user := Prune(stamps, now)];
      if |userRequests[user]| >= RATE_LIMIT {
        return false;
      }
      userRequests := userRequests[user := userRequests[user] + [now]];
      return true;
    }

    /** Appends the user's text and the reply to the user's history, then keeps its newest entries. */
    method RecordExchange(user: UserId, text: string, reply: string)
      requires user in userMemory
      modifies this
      ensures userMemory == old(userMemory)[user := Recent(old(userMemory)[user] + Exchange(text, reply))]
      ensures userRequests == old(userRequests)
      ensures reportWaiting == old(reportWaiting) && supportWaiting == old(supportWaiting)
    {
      userMemory := userMemory[user := userMemory[user] + [Entry(User, text)]];
      userMemory := userMemory[user := userMemory[user] + [Entry(Assistant, reply)]];
      assert userMemory[user] == old(userMemory)[user] + Exchange(text, reply);
      userMemory := userMemory[user := Recent(userMemory[user])];
    }
  }
}
