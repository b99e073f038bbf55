/** The outbox relay: send, then mark. */
module Relay {
  import opened Types
  import opened Repository

  class Broker {
    var messages: multiset<JobId>

    method Send(j: JobId)
      modifies this
      ensures messages == old(messages) + multiset{j}
    {
      messages := messages + multiset{j};
    }
  }

  predicate Unpublished(rows: seq<OutboxRow>, i: int) {
    0 <= i < |rows| && rows[i].publishedAt.None?
  }

  /** `picked` are the oldest unpublished rows from position `from` on, oldest first, at most `limit`. */
  ghost predicate Oldest(rows: seq<OutboxRow>, from: nat, limit: nat, picked: seq<nat>) {
    && |picked| <= limit
    && (forall a :: 0 <= a < |picked| ==> from <= picked[a] && Unpublished(rows, picked[a]))
    && (forall a, b :: 0 <= a < b < |picked| ==> picked[a] < picked[b])
    && (forall i :: from <= i && Unpublished(rows, i) && i !in picked ==>
          |picked| == limit && forall a :: 0 <= a < |picked| ==> picked[a] < i)
  }

  function ListUnpublished(rows: seq<OutboxRow>, from: nat, limit: nat): (picked: seq<nat>)
    ensures Oldest(rows, from, limit, picked)
    decreases |rows| - from
  {
    if from >= |rows| || limit == 0 then []
    else if rows[from].publishedAt.Some? then ListUnpublished(rows, from + 1, limit)
    else
      var rest := ListUnpublished(rows, from + 1, limit - 1);
      var picked := [from] + rest;
      assert forall i :: i in picked <==> i == from || i in rest;
      picked
  }

  function JobsOf(rows: seq<OutboxRow>, picked: seq<nat>): multiset<JobId>
    requires forall a :: 0 <= a < |picked| ==> picked[a] < |rows|
  {
    if picked == [] then multiset{} else JobsOf(rows, picked[..|picked| - 1]) + multiset{rows[picked[|picked| - 1]].job}
  }

  /** Every row of `done` is marked, every other row is as before. */
  ghost predicate Marked(before: seq<OutboxRow>, now: Time, done: seq<nat>, rows: seq<OutboxRow>) {
    && |rows| == |before|
    && forall i :: 0 <= i < |before| ==> rows[i] == if i in done then before[i].(publishedAt := Some(now)) else before[i]
  }

  lemma MarkOneMore(before: seq<OutboxRow>, now: Time, picked: seq<nat>, n: nat, rows: seq<OutboxRow>)
    requires n < |picked| && picked[n] < |before| && Marked(before, now, picked[..n], rows)
    ensures Marked(before, now, picked[..n + 1], rows[picked[n] := rows[picked[n]].(publishedAt := Some(now))])
  {
    assert picked[..n + 1] == picked[..n] + [picked[n]];
    assert forall i :: i in picked[..n + 1] <==> i in picked[..n] || i == picked[n];
  }

  /** One message per picked row, for that row's job. */
  lemma {:induction false} JobsOfIs(rows: seq<OutboxRow>, picked: seq<nat>)
    requires forall a :: 0 <= a < |picked| ==> picked[a] < |rows|
    ensures JobsOf(rows, picked) == multiset(seq(|picked|, a requires 0 <= a < |picked| => rows[picked[a]].job))
  {
    var all := seq(|picked|, a requires 0 <= a < |picked| => rows[picked[a]].job);
    if picked != [] {
      var n := |picked| - 1;
      var init := seq(n, a requires 0 <= a < n => rows[picked[..n][a]].job);
      JobsOfIs(rows, picked[..n]);
      assert all == init + [rows[picked[n]].job];
    }
  }

  lemma JobsOfOneMore(rows: seq<OutboxRow>, picked: seq<nat>, n: nat)
    requires n < |picked| && forall a :: 0 <= a < |picked| ==> picked[a] < |rows|
    ensures JobsOf(rows, picked[..n + 1]) == JobsOf(rows, picked[..n]) + multiset{rows[picked[n]].job}
  {
    assert picked[..n + 1][..n] == picked[..n];
  }

  /** A pass without interference sends one message per picked row and marks exactly those rows. */
  method RelayOnce(db: Database, broker: Broker, limit: nat, now: Time) returns (published: nat, ghost picked: seq<nat>)
    modifies db`outbox, broker
    ensures Oldest(old(db.outbox), 0, limit, picked) && published == |picked|
    ensures Marked(old(db.outbox), now, picked, db.outbox)
    // the oldest rows not yet published, all of them if they are no more than the limit
    ensures |picked| <= limit && forall a :: 0 <= a < |picked| ==> picked[a] < |old(db.outbox)|
    ensures forall i :: 0 <= i < |old(db.outbox)| && old(db.outbox)[i].publishedAt.Some? ==> i !in picked
    ensures forall i :: 0 <= i < |old(db.outbox)| && old(db.outbox)[i].publishedAt.None? && i !in picked ==>
      |picked| == limit && forall a :: 0 <= a < |picked| ==> picked[a] < i
    ensures |db.outbox| == |old(db.outbox)| && forall i :: 0 <= i < |db.outbox| ==>
      db.outbox[i] == if i in picked then old(db.outbox)[i].(publishedAt := Some(now)) else old(db.outbox)[i]
    ensures broker.messages == old(broker.messages) + JobsOf(old(db.outbox), picked)
  {
    ghost var before := db.outbox;
    var rows := ListUnpublished(db.outbox, 0, limit);
    picked, published := rows, 0;
    while published < |rows|
      invariant published <= |rows| && Marked(before, now, rows[..published], db.outbox)
      invariant broker.messages == old(broker.messages) + JobsOf(before, rows[..published])
    {
      var row := rows[published];
      MarkOneMore(before, now, rows, published, db.outbox);
      JobsOfOneMore(before, rows, published);
      broker.Send(db.outbox[row].job);
      db.MarkPublished(row, now);
      published := published + 1;
    }
    assert rows[..published] == rows;
  }
}
