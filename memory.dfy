/** The per-user conversation memory kept in the `chat_memory` collection:
    `save_memory` and `load_recent_memory` (main.py:44-58). Each user's
    `messages` sub-collection is an append-only log of exchanges, modelled
    here as a sequence in the order the exchanges were written. */
module Memory {

  type UserId = string

  /** One document of a user's `messages` sub-collection. */
  datatype Exchange = Exchange(timestamp: int, question: string, answer: string)

  /** The default `limit` of `load_recent_memory`. */
  const DefaultLimit: nat := 3

  function Min(a: nat, b: nat): nat {
    if a <= b then a else b
  }

  ghost predicate Ascending(log: seq<Exchange>) {
    forall i, j :: 0 <= i < j < |log| ==> log[i].timestamp <= log[j].timestamp
  }

  ghost predicate Descending(log: seq<Exchange>) {
    forall i, j :: 0 <= i < j < |log| ==> log[i].timestamp >= log[j].timestamp
  }

  /** Python's `reversed`. */
  function Reverse<T>(s: seq<T>): (r: seq<T>)
    ensures |r| == |s|
  {
    if s == [] then [] else Reverse(s[1..]) + [s[0]]
  }

  /** Element `k` of the reversal is element `|s| - 1 - k` of the original. */
  lemma {:induction false} ReverseAt<T>(s: seq<T>, k: nat)
    requires k < |s|
    ensures Reverse(s)[k] == s[|s| - 1 - k]
  {
    if k < |s| - 1 {
      ReverseAt(s[1..], k);
    }
  }

  /** Reversal keeps every element, as often as it occurs. */
  lemma {:induction false} ReverseIsPermutation<T>(s: seq<T>)
    ensures multiset(Reverse(s)) == multiset(s)
  {
    if s != [] {
      ReverseIsPermutation(s[1..]);
      assert s == [s[0]] + s[1..];
    }
  }

  /** The query `order_by("timestamp", DESCENDING)`. The log is written in
      timestamp order, so newest first is the log read backwards; exchanges
      with equal timestamps come latest-written first. */
  function NewestFirst(log: seq<Exchange>): (r: seq<Exchange>)
    ensures |r| == |log|
    ensures log != [] ==> r[0] == log[|log| - 1]
  {
    if log == [] then [] else ReverseAt(log, 0); Reverse(log)
  }

  /** The read order really is the query's order: the same exchanges, by
      descending timestamp. */
  lemma NewestFirstIsDescending(log: seq<Exchange>)
    requires Ascending(log)
    ensures multiset(NewestFirst(log)) == multiset(log)
    ensures Descending(NewestFirst(log))
  {
    ReverseIsPermutation(log);
    var r := NewestFirst(log);
    forall i, j | 0 <= i < j < |r| ensures r[i].timestamp >= r[j].timestamp {
      ReverseAt(log, i);
      ReverseAt(log, j);
    }
  }

  /** The `(question, answer)` tuples of a run of exchanges, in the same order. */
  function Pairs(w: seq<Exchange>): (r: seq<(string, string)>)
    ensures |r| == |w|
  {
    seq(|w|, k requires 0 <= k < |w| => (w[k].question, w[k].answer))
  }

  /** `load_recent_memory(user_id, limit)` on the user's log: take the first
      `limit` documents newest first, project each to its question and
      answer, and reverse the list. */
  function LoadRecent(log: seq<Exchange>, limit: nat): (history: seq<(string, string)>)
    ensures |history| == Min(limit, |log|) && |history| <= limit
  {
    var newest := NewestFirst(log)[..Min(limit, |log|)];
    Reverse(Pairs(newest))
  }

  /** A read returns the pairs of the newest `limit` exchanges (all of them
      when there are fewer), oldest first, in log order: the suffix of the
      log, nothing reordered and nothing skipped. */
  lemma LoadRecentIsSuffix(log: seq<Exchange>, limit: nat)
    ensures LoadRecent(log, limit) == Pairs(log[|log| - Min(limit, |log|)..])
  {
    var n := Min(limit, |log|);
    var newest := NewestFirst(log)[..n];
    var h := LoadRecent(log, limit);
    var want := Pairs(log[|log| - n..]);
    forall k | 0 <= k < n ensures h[k] == want[k] {
      ReverseAt(Pairs(newest), k);
      ReverseAt(log, n - 1 - k);
    }
  }

  /** A user with no stored exchanges gets an empty history. */
  lemma LoadRecentEmpty(limit: nat)
    ensures LoadRecent([], limit) == []
  {
  }

  /** The window a read returns comes from a log kept in timestamp order, so
      its exchanges are in ascending timestamp order too. */
  lemma RecentWindowAscending(log: seq<Exchange>, limit: nat)
    requires Ascending(log)
    ensures Ascending(log[|log| - Min(limit, |log|)..])
  {
  }

  /** After one more exchange is written, a read with limit `n + 1` returns
      what a read with limit `n` returned before, followed by the new pair. */
  lemma LoadRecentAfterAppend(log: seq<Exchange>, e: Exchange, n: nat)
    ensures LoadRecent(log + [e], n + 1) == LoadRecent(log, n) + [(e.question, e.answer)]
  {
    var m := Min(n, |log|);
    var longer := log + [e];
    LoadRecentIsSuffix(longer, n + 1);
    LoadRecentIsSuffix(log, n);
    var before := log[|log| - m..];
    assert longer[|longer| - (m + 1)..] == before + [e];
    assert Pairs(before + [e]) == Pairs(before) + [(e.question, e.answer)];
  }

  /** The log the store holds for `user`; a user never written to has none. */
  function LogOf(logs: map<UserId, seq<Exchange>>, user: UserId): seq<Exchange> {
    if user in logs then logs[user] else []
  }

  /** The collection after `add` of exchange `e` under `user`. */
  function Appended(logs: map<UserId, seq<Exchange>>, user: UserId, e: Exchange): (r: map<UserId, seq<Exchange>>)
    ensures LogOf(r, user) == LogOf(logs, user) + [e]
  {
    logs[user := LogOf(logs, user) + [e]]
  }

  /** Writing under `user` touches no other user's log. */
  lemma AppendedLeavesOthers(logs: map<UserId, seq<Exchange>>, user: UserId, e: Exchange, other: UserId)
    requires other != user
    ensures LogOf(Appended(logs, user, e), other) == LogOf(logs, other)
  {
  }

  /** A timestamp taken now is not older than the newest stored one. */
  ghost predicate CanAppend(log: seq<Exchange>, now: int) {
    log == [] || log[|log| - 1].timestamp <= now
  }

  /** Every user's log is in timestamp order. */
  ghost predicate WellOrdered(logs: map<UserId, seq<Exchange>>) {
    forall u :: u in logs ==> Ascending(logs[u])
  }

  /** Writing an exchange stamped no earlier than the newest one keeps every
      log in timestamp order. */
  lemma AppendedWellOrdered(logs: map<UserId, seq<Exchange>>, user: UserId, e: Exchange)
    requires WellOrdered(logs) && CanAppend(LogOf(logs, user), e.timestamp)
    ensures WellOrdered(Appended(logs, user, e))
  {
  }

  class Store {
    /** `chat_memory`: user id to that user's log. */
    var logs: map<UserId, seq<Exchange>>

    ghost predicate Valid()
      reads this
    {
      WellOrdered(logs)
    }

    constructor ()
      ensures Valid() && logs == map[]
    {
      logs := map[];
    }

    /** `save_memory(user_id, question, answer)`, stamped with `now`. */
    method SaveMemory(user: UserId, question: string, answer: string, now: int)
      requires Valid() && CanAppend(LogOf(logs, user), now)
      modifies this
      ensures Valid()
      ensures logs == Appended(old(logs), user, Exchange(now, question, answer))
    {
      AppendedWellOrdered(logs, user, Exchange(now, question, answer));
      logs := Appended(logs, user, Exchange(now, question, answer));
    }

    /** `load_recent_memory(user_id, limit)`; a read does not change the store. */
    method LoadRecentMemory(user: UserId, limit: nat) returns (history: seq<(string, string)>)
      ensures history == LoadRecent(LogOf(logs, user), limit)
    {
      history := LoadRecent(LogOf(logs, user), limit);
    }
  }
}
