/**
 * Chat history and the message list sent to the completion service.
 * A user's history holds (role, content) entries, appended as a user entry
 * followed by the assistant's reply and cut back to the most recent
 * HISTORY_LIMIT entries after every turn.
 */
module Chat {

  /** How many entries of history are kept (five exchanges). */
  const HISTORY_LIMIT: nat := 10

  /** The persona instruction sent first in every request; its wording is not modelled. */
  const PERSONA: string := "persona"

  datatype Role = System | User | Assistant

  datatype Entry = Entry(role: Role, content: string)

  /**
   * The `[-10:]` slice taken after every turn: the most recent entries,
   * oldest evicted first.
   */
  function Recent(h: seq<Entry>): (r: seq<Entry>)
    ensures |r| <= HISTORY_LIMIT
    ensures |h| <= HISTORY_LIMIT ==> r == h
    ensures |h| >= HISTORY_LIMIT ==> |r| == HISTORY_LIMIT
  {
    if |h| <= HISTORY_LIMIT then h else h[|h| - HISTORY_LIMIT..]
  }

  /** What is kept is the newest part of the history, in its original order. */
  lemma RecentIsSuffix(h: seq<Entry>)
    ensures Recent(h) == h[|h| - |Recent(h)|..]
  {
  }

  /**
   * Truncating after every turn keeps exactly what truncating the whole
   * transcript once would: the stored history is always the last
   * HISTORY_LIMIT entries of everything ever appended.
   */
  lemma RecentAbsorbs(h: seq<Entry>, p: seq<Entry>)
    ensures Recent(Recent(h) + p) == Recent(h + p)
  {
    if |h| > HISTORY_LIMIT {
      var k := |h| - HISTORY_LIMIT;
      assert Recent(h) + p == (h + p)[k..];
    }
  }

  /** The exchange a chat turn appends: the user's text, then the reply. */
  function Exchange(text: string, reply: string): seq<Entry>
  {
    [Entry(User, text), Entry(Assistant, reply)]
  }

  /**
   * History made of whole exchanges: an even number of entries, user and
   * assistant alternating, starting with the user.
   */
  predicate Paired(h: seq<Entry>)
  {
    |h| % 2 == 0 &&
    forall i :: 0 <= i < |h| ==> h[i].role == (if i % 2 == 0 then User else Assistant)
  }

  /** Dropping an even number of entries from the front keeps the pairing. */
  lemma PairedSuffix(h: seq<Entry>, k: nat)
    requires Paired(h) && k <= |h| && k % 2 == 0
    ensures Paired(h[k..])
  {
    forall i | 0 <= i < |h| - k
      ensures h[k..][i].role == (if i % 2 == 0 then User else Assistant)
    {
      assert (k + i) % 2 == i % 2;
    }
  }

  /**
   * A chat turn on paired history leaves paired history of at most
   * HISTORY_LIMIT entries that ends with the new exchange.
   */
  lemma TurnKeepsPaired(h: seq<Entry>, text: string, reply: string)
    requires Paired(h)
    ensures Paired(Recent(h + Exchange(text, reply)))
    ensures var r := Recent(h + Exchange(text, reply));
      |r| >= 2 && r[|r| - 2..] == Exchange(text, reply)
  {
    var s := h + Exchange(text, reply);
    assert Paired(s) by {
      forall i | 0 <= i < |s|
        ensures s[i].role == (if i % 2 == 0 then User else Assistant)
      {
        if i >= |h| {
          assert i == |h| || i == |h| + 1;
        }
      }
    }
    PairedSuffix(s, |s| - |Recent(s)|);
  }

  /**
   * The request sent for one chat turn: the persona entry, then the stored
   * history in its order, then the user's new text.
   */
  function Request(history: seq<Entry>, text: string): (r: seq<Entry>)
    ensures |r| == |history| + 2
    ensures r[0] == Entry(System, PERSONA)
    ensures forall i :: 0 <= i < |history| ==> r[i + 1] == history[i]
    ensures r[|r| - 1] == Entry(User, text)
  {
    [Entry(System, PERSONA)] + history + [Entry(User, text)]
  }

  /** On paired history the persona entry is the only system entry of the request. */
  lemma RequestSingleSystem(history: seq<Entry>, text: string)
    requires Paired(history)
    ensures forall i :: 0 < i < |Request(history, text)| ==> Request(history, text)[i].role != System
  {
    var r := Request(history, text);
    forall i | 0 < i < |r| ensures r[i].role != System {
      if i < |r| - 1 {
        assert r[i] == history[i - 1];
      }
    }
  }

  /**
   * The history a chat turn stores is the request without its persona entry,
   * followed by the reply, cut to the most recent entries.
   */
  lemma StoredTurnFollowsRequest(history: seq<Entry>, text: string, reply: string)
    ensures Recent(history + Exchange(text, reply))
      == Recent(Request(history, text)[1..] + [Entry(Assistant, reply)])
  {
    var r := Request(history, text);
    assert r[1..] == history + [Entry(User, text)];
    assert history + Exchange(text, reply) == r[1..] + [Entry(Assistant, reply)];
  }
}
