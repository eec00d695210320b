/**
 * The per-user session state of the bot as a value: the four tables the
 * handlers share, and one transition function per handler. A button press
 * raises the report or support flag; a text message passes the rate limiter
 * and is then forwarded as a report, forwarded as a support payment, or
 * answered as a chat turn, in that order of priority.
 */
module Session {
  import opened RateLimit
  import opened Chat

  type UserId = int

  /** The account number shown when the support button is pressed. */
  const CARD_NUMBER: string := "5859831080517518"

  /** What a text message leads to, as seen by the user and the administrator. */
  datatype Outcome =
    | RateLimited
    | ReportForwarded(from: UserId, text: string)
    | SupportForwarded(from: UserId, text: string)
    | ChatReply(reply: string)

  /** What a button press shows the user. */
  datatype Prompt = AskForReport | ShowCard(card: string) | NoPrompt

  /**
   * The four tables keyed by user: admitted-message timestamps, the report
   * flag, the support flag and the chat history. A missing key reads as an
   * empty list or a lowered flag.
   */
  datatype Store = Store(
    userRequests: map<UserId, seq<int>>,
    reportWaiting: map<UserId, bool>,
    supportWaiting: map<UserId, bool>,
    userMemory: map<UserId, seq<Entry>>)

  /** The store after a handler ran, with what the handler produced. */
  datatype Step<O> = Step(next: Store, out: O)

  /** The state of a freshly started process. */
  const Empty: Store := Store(map[], map[], map[], map[])

  function Timestamps(s: Store, user: UserId): seq<int>
  {
    if user in s.userRequests then s.userRequests[user] else []
  }

  predicate Waiting(flags: map<UserId, bool>, user: UserId)
  {
    user in flags && flags[user]
  }

  function History(s: Store, user: UserId): seq<Entry>
  {
    if user in s.userMemory then s.userMemory[user] else []
  }

  /**
   * The button handler: "report" and "support" raise a flag, any other data
   * does nothing. A button never touches timestamps or history.
   */
  function Press(s: Store, user: UserId, data: string): (r: Step<Prompt>)
    ensures r.next.userRequests == s.userRequests && r.next.userMemory == s.userMemory
    ensures data != "report" && data != "support" ==> r == Step(s, NoPrompt)
  {
    if data == "report" then
      Step(s.(reportWaiting := s.reportWaiting[user := true]), AskForReport)
    else if data == "support" then
      Step(s.(supportWaiting := s.supportWaiting[user := true]), ShowCard(CARD_NUMBER))
    else
      Step(s, NoPrompt)
  }

  /** The store once a message at `now` is admitted: its timestamp joins the pruned list. */
  function Recorded(s: Store, user: UserId, now: int): Store
  {
    s.(userRequests := s.userRequests[user := Prune(Timestamps(s, user), now) + [now]])
  }

  /**
   * The text-message handler. `complete` stands for the completion service:
   * it maps the request to the reply text, a fixed apology when the call fails.
   */
  function Deliver(s: Store, user: UserId, text: string, now: int,
                   complete: seq<Entry> -> string): (r: Step<Outcome>)
    ensures r.out == RateLimited <==> !Admits(Timestamps(s, user), now)
    ensures r.out.ReportForwarded? ==> r.out == ReportForwarded(user, text)
    ensures r.out.SupportForwarded? ==> r.out == SupportForwarded(user, text)
    ensures !r.out.ChatReply? ==> r.next.userMemory == s.userMemory
  {
    var kept := Prune(Timestamps(s, user), now);
    if |kept| >= RATE_LIMIT then
      Step(s.(userRequests := s.userRequests[user := kept]), RateLimited)
    else
      var admitted := Recorded(s, user, now);
      if Waiting(s.reportWaiting, user) then
        Step(admitted.(reportWaiting := s.reportWaiting[user := false]), ReportForwarded(user, text))
      else if Waiting(s.supportWaiting, user) then
        Step(admitted.(supportWaiting := s.supportWaiting[user := false]), SupportForwarded(user, text))
      else
        var history := History(s, user);
        var reply := complete(Request(history, text));
        Step(admitted.(userMemory := s.userMemory[user := Recent(history + Exchange(text, reply))]),
             ChatReply(reply))
  }

  /**
   * The invariant every reachable store keeps: no user holds more than
   * RATE_LIMIT timestamps, and every history is at most HISTORY_LIMIT
   * entries of whole user/assistant exchanges.
   */
  predicate WellFormed(s: Store)
  {
    RequestsBounded(s.userRequests) && HistoriesPaired(s.userMemory)
  }

  predicate RequestsBounded(m: map<UserId, seq<int>>)
  {
    forall u :: u in m ==> |m[u]| <= RATE_LIMIT
  }

  predicate HistoriesPaired(m: map<UserId, seq<Entry>>)
  {
    forall u :: u in m ==> |m[u]| <= HISTORY_LIMIT && Paired(m[u])
  }

  /** One update delivered to the bot. */
  datatype Event =
    | Button(buttonUser: UserId, data: string)
    | Text(textUser: UserId, text: string, now: int, complete: seq<Entry> -> string)

  function Apply(s: Store, e: Event): Store
  {
    match e
    case Button(u, data) => Press(s, u, data).next
    case Text(u, text, now, complete) => Deliver(s, u, text, now, complete).next
  }

  /** The store after handling `events` one at a time, in delivery order. */
  function Run(s: Store, events: seq<Event>): Store
    decreases |events|
  {
    if events == [] then s else Run(Apply(s, events[0]), events[1..])
  }

  // ---- Rate limiting -------------------------------------------------------

  /**
   * The pruned list is stored whether or not the message is admitted, and
   * `now` is appended only when it is, whatever the flags say: admitted
   * report and support messages use up rate budget too.
   */
  lemma AdmissionDecision(s: Store, user: UserId, text: string, now: int,
                          complete: seq<Entry> -> string)
    ensures Timestamps(Deliver(s, user, text, now, complete).next, user) ==
      if Admits(Timestamps(s, user), now) then Prune(Timestamps(s, user), now) + [now]
      else Prune(Timestamps(s, user), now)
  {
  }

  /** A refused message changes nothing but the pruning of the user's timestamps. */
  lemma RefusedChangesOnlyTimestamps(s: Store, user: UserId, text: string, now: int,
                                     complete: seq<Entry> -> string)
    requires !Admits(Timestamps(s, user), now)
    ensures Deliver(s, user, text, now, complete)
      == Step(s.(userRequests := s.userRequests[user := Prune(Timestamps(s, user), now)]), RateLimited)
    ensures var r := Deliver(s, user, text, now, complete);
      Timestamps(r.next, user) == Prune(Timestamps(s, user), now) &&
      r.next.reportWaiting == s.reportWaiting && r.next.supportWaiting == s.supportWaiting &&
      r.next.userMemory == s.userMemory
  {
  }

  /**
   * A message admitted while every recorded timestamp is still in the
   * window simply appends its own timestamp.
   */
  lemma AdmittedAppends(s: Store, user: UserId, text: string, now: int,
                        complete: seq<Entry> -> string)
    requires |Timestamps(s, user)| < RATE_LIMIT
    requires forall i :: 0 <= i < |Timestamps(s, user)| ==> InWindow(Timestamps(s, user)[i], now)
    ensures Timestamps(Deliver(s, user, text, now, complete).next, user) == Timestamps(s, user) + [now]
  {
    PruneAllInWindow(Timestamps(s, user), now);
    AdmissionDecision(s, user, text, now, complete);
  }

  /**
   * The stores one user's messages, all with the same text, leave behind
   * when the k-th message (counting from 0) arrives at second k.
   */
  ghost predicate SecondBySecond(trace: seq<Store>, user: UserId, text: string,
                                 complete: seq<Entry> -> string)
  {
    |trace| > 0 && trace[0] == Empty &&
    forall k :: 0 <= k < |trace| - 1 ==> trace[k + 1] == Deliver(trace[k], user, text, k, complete).next
  }

  /** Within the first RATE_LIMIT seconds every message is admitted and recorded. */
  lemma {:induction false} BurstRecorded(trace: seq<Store>, user: UserId, text: string,
                                         complete: seq<Entry> -> string, k: nat)
    requires SecondBySecond(trace, user, text, complete)
    requires k < |trace| && k <= RATE_LIMIT
    ensures Timestamps(trace[k], user) == seq(k, i => i)
  {
    if k > 0 {
      BurstRecorded(trace, user, text, complete, k - 1);
      AdmittedAppends(trace[k - 1], user, text, k - 1, complete);
      assert seq(k - 1, i => i) + [k - 1] == seq(k, i => i);
    }
  }

  /**
   * From a fresh start, one user's messages at seconds 0 to 4 are all
   * admitted and a sixth at second 5 is refused.
   */
  lemma BurstDelivered(trace: seq<Store>, user: UserId, text: string,
                       complete: seq<Entry> -> string)
    requires SecondBySecond(trace, user, text, complete) && |trace| == 6
    ensures Timestamps(trace[5], user) == [0, 1, 2, 3, 4]
    ensures Deliver(trace[5], user, text, 5, complete).out == RateLimited
  {
    BurstRecorded(trace, user, text, complete, 5);
    assert seq(5, i => i) == [0, 1, 2, 3, 4];
    BurstRefused();
  }

  // ---- Flags ---------------------------------------------------------------

  /**
   * With the report flag raised, the next admitted message is forwarded
   * verbatim as a report and lowers the flag; apart from recording the
   * message's timestamp nothing else changes, so history and the support
   * flag are left as they were.
   */
  lemma ReportConsumed(s: Store, user: UserId, text: string, now: int,
                       complete: seq<Entry> -> string)
    requires Admits(Timestamps(s, user), now)
    requires Waiting(s.reportWaiting, user)
    ensures Deliver(s, user, text, now, complete) ==
      Step(Recorded(s, user, now).(reportWaiting := s.reportWaiting[user := false]),
           ReportForwarded(user, text))
    ensures var r := Deliver(s, user, text, now, complete);
      r.out == ReportForwarded(user, text) &&
      !Waiting(r.next.reportWaiting, user) &&
      r.next.supportWaiting == s.supportWaiting && r.next.userMemory == s.userMemory &&
      Timestamps(r.next, user) == Prune(Timestamps(s, user), now) + [now]
  {
  }

  /**
   * With only the support flag raised, the next admitted message is
   * forwarded as a support payment and lowers it; apart from recording the
   * message's timestamp nothing else changes.
   */
  lemma SupportConsumed(s: Store, user: UserId, text: string, now: int,
                        complete: seq<Entry> -> string)
    requires Admits(Timestamps(s, user), now)
    requires !Waiting(s.reportWaiting, user) && Waiting(s.supportWaiting, user)
    ensures Deliver(s, user, text, now, complete) ==
      Step(Recorded(s, user, now).(supportWaiting := s.supportWaiting[user := false]),
           SupportForwarded(user, text))
    ensures var r := Deliver(s, user, text, now, complete);
      r.out == SupportForwarded(user, text) &&
      !Waiting(r.next.supportWaiting, user) &&
      r.next.reportWaiting == s.reportWaiting && r.next.userMemory == s.userMemory &&
      Timestamps(r.next, user) == Prune(Timestamps(s, user), now) + [now]
  {
  }

  /**
   * Both flags raised: the first admitted message is the report, the
   * support flag survives it, and the second admitted message is the
   * support payment, after which both flags are down.
   */
  lemma ReportBeforeSupport(s: Store, user: UserId, text1: string, now1: int, text2: string, now2: int,
                            complete: seq<Entry> -> string)
    requires Waiting(s.reportWaiting, user) && Waiting(s.supportWaiting, user)
    requires Admits(Timestamps(s, user), now1)
    requires Admits(Timestamps(Deliver(s, user, text1, now1, complete).next, user), now2)
    ensures var r1 := Deliver(s, user, text1, now1, complete);
      var r2 := Deliver(r1.next, user, text2, now2, complete);
      r1.out == ReportForwarded(user, text1) &&
      Waiting(r1.next.supportWaiting, user) &&
      r2.out == SupportForwarded(user, text2) &&
      !Waiting(r2.next.reportWaiting, user) && !Waiting(r2.next.supportWaiting, user)
  {
    var r1 := Deliver(s, user, text1, now1, complete);
    ReportConsumed(s, user, text1, now1, complete);
    SupportConsumed(r1.next, user, text2, now2, complete);
  }

  /**
   * A raised flag is consumed exactly once: after the message it captured,
   * the following admitted message (with no flag left) is an ordinary chat turn.
   */
  lemma FlagConsumedOnce(s: Store, user: UserId, text1: string, now1: int, text2: string, now2: int,
                         complete: seq<Entry> -> string)
    requires Waiting(s.reportWaiting, user) != Waiting(s.supportWaiting, user)
    requires Admits(Timestamps(s, user), now1)
    requires Admits(Timestamps(Deliver(s, user, text1, now1, complete).next, user), now2)
    ensures var r1 := Deliver(s, user, text1, now1, complete);
      var r2 := Deliver(r1.next, user, text2, now2, complete);
      (r1.out.ReportForwarded? || r1.out.SupportForwarded?) && r2.out.ChatReply?
  {
  }

  // ---- Chat turns ----------------------------------------------------------

  /**
   * With no flag raised, an admitted message asks the completion service
   * with the history as it was before the turn, replies with its answer and
   * stores the last HISTORY_LIMIT entries of the old history followed by the
   * new exchange; apart from recording the message's timestamp nothing
   * else changes.
   */
  lemma ChatTurn(s: Store, user: UserId, text: string, now: int,
                 complete: seq<Entry> -> string)
    requires Admits(Timestamps(s, user), now)
    requires !Waiting(s.reportWaiting, user) && !Waiting(s.supportWaiting, user)
    ensures var reply := complete(Request(History(s, user), text));
      Deliver(s, user, text, now, complete) ==
        Step(Recorded(s, user, now).(userMemory :=
               s.userMemory[user := Recent(History(s, user) + Exchange(text, reply))]),
             ChatReply(reply))
    ensures var r := Deliver(s, user, text, now, complete);
      var reply := complete(Request(History(s, user), text));
      r.out == ChatReply(reply) &&
      History(r.next, user) == Recent(History(s, user) + Exchange(text, reply)) &&
      r.next.reportWaiting == s.reportWaiting && r.next.supportWaiting == s.supportWaiting &&
      Timestamps(r.next, user) == Prune(Timestamps(s, user), now) + [now]
  {
  }

  /**
   * On a well-formed store a chat turn leaves history of at most
   * HISTORY_LIMIT whole exchanges that ends with the new one; a full
   * history stays full, its oldest exchange evicted.
   */
  lemma ChatTurnBounded(s: Store, user: UserId, text: string, now: int,
                        complete: seq<Entry> -> string)
    requires WellFormed(s)
    requires Admits(Timestamps(s, user), now)
    requires !Waiting(s.reportWaiting, user) && !Waiting(s.supportWaiting, user)
    ensures var h := History(Deliver(s, user, text, now, complete).next, user);
      var reply := complete(Request(History(s, user), text));
      |h| <= HISTORY_LIMIT && Paired(h) &&
      h[|h| - 2..] == Exchange(text, reply) &&
      (|History(s, user)| == HISTORY_LIMIT ==>
         h == History(s, user)[2..] + Exchange(text, reply))
  {
    var previous := History(s, user);
    var reply := complete(Request(previous, text));
    TurnKeepsPaired(previous, text, reply);
  }

  /** A fresh user's first message is sent with no history and leaves one exchange stored. */
  lemma FirstMessage(user: UserId, text: string, now: int, complete: seq<Entry> -> string)
    ensures var r := Deliver(Empty, user, text, now, complete);
      var reply := complete([Entry(System, PERSONA), Entry(User, text)]);
      r.out == ChatReply(reply) &&
      History(r.next, user) == Exchange(text, reply) &&
      Timestamps(r.next, user) == [now]
  {
    assert Request([], text) == [Entry(System, PERSONA), Entry(User, text)];
  }

  // ---- Buttons -------------------------------------------------------------

  /**
   * "report" raises the report flag and asks for the report text; "support"
   * raises the support flag and shows the card number. Neither touches the
   * other flag, and a flag already raised stays raised.
   */
  lemma PressEffect(s: Store, user: UserId, data: string)
    ensures var r := Press(s, user, data);
      (data == "report" ==>
         Waiting(r.next.reportWaiting, user) && r.next.supportWaiting == s.supportWaiting &&
         r.out == AskForReport) &&
      (data == "support" ==>
         Waiting(r.next.supportWaiting, user) && r.next.reportWaiting == s.reportWaiting &&
         r.out == ShowCard(CARD_NUMBER))
  {
  }

  /** Pressing the same button twice is the same as pressing it once. */
  lemma PressIdempotent(s: Store, user: UserId, data: string)
    ensures Press(Press(s, user, data).next, user, data) == Press(s, user, data)
  {
  }

  // ---- Isolation between users ----------------------------------------------

  /** A handler run for one user leaves every other user's session as it was. */
  lemma OtherUsersUntouched(s: Store, e: Event, other: UserId)
    requires (e.Button? && e.buttonUser != other) || (e.Text? && e.textUser != other)
    ensures var t := Apply(s, e);
      Timestamps(t, other) == Timestamps(s, other) &&
      Waiting(t.reportWaiting, other) == Waiting(s.reportWaiting, other) &&
      Waiting(t.supportWaiting, other) == Waiting(s.supportWaiting, other) &&
      History(t, other) == History(s, other)
  {
    if e.Button? {
      PressLeavesOthers(s, e.buttonUser, e.data, other);
    } else {
      DeliverLeavesOthers(s, e.textUser, e.text, e.now, e.complete, other);
    }
  }

  /** A button press for one user leaves every other user's session as it was. */
  lemma PressLeavesOthers(s: Store, user: UserId, data: string, other: UserId)
    requires user != other
    ensures var t := Press(s, user, data).next;
      Timestamps(t, other) == Timestamps(s, other) &&
      Waiting(t.reportWaiting, other) == Waiting(s.reportWaiting, other) &&
      Waiting(t.supportWaiting, other) == Waiting(s.supportWaiting, other) &&
      History(t, other) == History(s, other)
  {
  }

  /** A text message from one user leaves every other user's session as it was. */
  lemma DeliverLeavesOthers(s: Store, user: UserId, text: string, now: int,
                            complete: seq<Entry> -> string, other: UserId)
    requires user != other
    ensures var t := Deliver(s, user, text, now, complete).next;
      Timestamps(t, other) == Timestamps(s, other) &&
      Waiting(t.reportWaiting, other) == Waiting(s.reportWaiting, other) &&
      Waiting(t.supportWaiting, other) == Waiting(s.supportWaiting, other) &&
      History(t, other) == History(s, other)
  {
    var t := Deliver(s, user, text, now, complete).next;
    if !Admits(Timestamps(s, user), now) {
      RefusedChangesOnlyTimestamps(s, user, text, now, complete);
      assert t.userRequests == s.userRequests[user := Prune(Timestamps(s, user), now)];
    } else {
      assert t.userRequests == s.userRequests[user := Prune(Timestamps(s, user), now) + [now]] by {
        AdmissionDecision(s, user, text, now, complete);
      }
      if !Waiting(s.reportWaiting, user) && !Waiting(s.supportWaiting, user) {
        var h := History(s, user);
        ChatTurn(s, user, text, now, complete);
        assert t.userMemory == s.userMemory[user := Recent(h + Exchange(text, complete(Request(h, text))))];
      }
    }
  }

  // ---- Reachable states ----------------------------------------------------

  lemma DeliverKeepsWellFormed(s: Store, user: UserId, text: string, now: int,
                               complete: seq<Entry> -> string)
    requires WellFormed(s)
    ensures WellFormed(Deliver(s, user, text, now, complete).next)
  {
    var kept := Prune(Timestamps(s, user), now);
    assert |kept| <= RATE_LIMIT by {
      if user in s.userRequests {
        assert |Timestamps(s, user)| <= RATE_LIMIT;
      }
    }
    if !Admits(Timestamps(s, user), now) {
      RefusedChangesOnlyTimestamps(s, user, text, now, complete);
      BoundedUpdate(s.userRequests, user, kept);
    } else if Waiting(s.reportWaiting, user) || Waiting(s.supportWaiting, user) {
      TicketKeepsWellFormed(s, user, text, now, complete);
    } else {
      ChatKeepsWellFormed(s, user, text, now, complete);
    }
  }

  /** An admitted report or payment records one timestamp and leaves history alone. */
  lemma TicketKeepsWellFormed(s: Store, user: UserId, text: string, now: int,
                              complete: seq<Entry> -> string)
    requires WellFormed(s)
    requires Admits(Timestamps(s, user), now)
    requires Waiting(s.reportWaiting, user) || Waiting(s.supportWaiting, user)
    ensures WellFormed(Deliver(s, user, text, now, complete).next)
  {
    var t := Deliver(s, user, text, now, complete).next;
    var kept := Prune(Timestamps(s, user), now);
    if Waiting(s.reportWaiting, user) {
      ReportConsumed(s, user, text, now, complete);
    } else {
      SupportConsumed(s, user, text, now, complete);
    }
    assert t.userRequests == s.userRequests[user := kept + [now]];
    BoundedUpdate(s.userRequests, user, kept + [now]);
  }

  /** An admitted chat turn records one timestamp and stores a short paired history. */
  lemma ChatKeepsWellFormed(s: Store, user: UserId, text: string, now: int,
                            complete: seq<Entry> -> string)
    requires WellFormed(s)
    requires Admits(Timestamps(s, user), now)
    requires !Waiting(s.reportWaiting, user) && !Waiting(s.supportWaiting, user)
    ensures WellFormed(Deliver(s, user, text, now, complete).next)
  {
    var t := Deliver(s, user, text, now, complete).next;
    var kept := Prune(Timestamps(s, user), now);
    var h := History(s, user);
    var reply := complete(Request(h, text));
    ChatTurn(s, user, text, now, complete);
    assert t.userRequests == s.userRequests[user := kept + [now]];
    assert t.userMemory == s.userMemory[user := Recent(h + Exchange(text, reply))];
    BoundedUpdate(s.userRequests, user, kept + [now]);
    assert |h| <= HISTORY_LIMIT && Paired(h) by {
      if user in s.userMemory {
        assert h == s.userMemory[user];
      }
    }
    TurnKeepsPaired(h, text, reply);
    PairedUpdate(s.userMemory, user, Recent(h + Exchange(text, reply)));
  }

  /** Storing a list of at most RATE_LIMIT timestamps keeps the table bounded. */
  lemma BoundedUpdate(m: map<UserId, seq<int>>, user: UserId, ts: seq<int>)
    requires RequestsBounded(m) && |ts| <= RATE_LIMIT
    ensures RequestsBounded(m[user := ts])
  {
  }

  /** Storing a short paired history keeps every history short and paired. */
  lemma PairedUpdate(m: map<UserId, seq<Entry>>, user: UserId, h: seq<Entry>)
    requires HistoriesPaired(m) && |h| <= HISTORY_LIMIT && Paired(h)
    ensures HistoriesPaired(m[user := h])
  {
  }

  /**
   * Every store reached from a well-formed one by any sequence of updates
   * is well-formed; in particular every state reachable from a fresh start
   * holds at most RATE_LIMIT timestamps and HISTORY_LIMIT history entries
   * per user.
   */
  lemma {:induction false} RunKeepsWellFormed(s: Store, events: seq<Event>)
    requires WellFormed(s)
    ensures WellFormed(Run(s, events))
    decreases |events|
  {
    if events != [] {
      var e := events[0];
      if e.Text? {
        DeliverKeepsWellFormed(s, e.textUser, e.text, e.now, e.complete);
      }
      RunKeepsWellFormed(Apply(s, e), events[1..]);
    }
  }

  lemma Reachable(events: seq<Event>, user: UserId)
    ensures |Timestamps(Run(Empty, events), user)| <= RATE_LIMIT
    ensures |History(Run(Empty, events), user)| <= HISTORY_LIMIT
    ensures Paired(History(Run(Empty, events), user))
  {
    RunKeepsWellFormed(Empty, events);
  }
}
