/**
 Pure description of the fan-out that `pushMessage` performs: the envelopes
 generated when the connection table is visited in a given order, and how
 many of them each connection receives. The table's iteration order is not
 specified, so the facts proved here hold for every enumeration of its keys.
 */
module Routing {
  import opened ChatTypes

  /** Every row is stored under its own connection id. */
  predicate WellKeyed(table: map<int, User>)
  {
    forall k | k in table :: table[k].fd == k
  }

  /** `table->get(fd)`: the row, or nothing for a connection not in the table. */
  function Lookup(table: map<int, User>, fd: int): (r: Option<User>)
  {
    if fd in table then Some(table[fd]) else None
  }

  /** `$user['name']` on the result of a lookup: a missing row gives null,
      which concatenates as the empty string. */
  function NameOf(u: Option<User>): (r: string)
  {
    if u.Some? then u.value.name else ""
  }

  predicate Distinct(order: seq<int>)
  {
    forall i, j | 0 <= i < j < |order| :: order[i] != order[j]
  }

  /** `order` visits every key of the table exactly once. */
  predicate IsEnumeration(order: seq<int>, keys: set<int>)
  {
    && Distinct(order)
    && (forall i | 0 <= i < |order| :: order[i] in keys)
    && (forall k | k in keys :: k in order)
  }

  /** Part way through a walk over `keys`: `order` lists, once each, the
      keys already visited, and `remaining` holds the others. */
  predicate Visiting(order: seq<int>, remaining: set<int>, keys: set<int>)
  {
    && remaining <= keys
    && Distinct(order)
    && (forall i | 0 <= i < |order| :: order[i] in keys && order[i] !in remaining)
    && (forall k | k in keys && k !in remaining :: k in order)
  }

  /** Visiting one more remaining key keeps the walk consistent; a finished
      walk is an enumeration. */
  lemma VisitStep(order: seq<int>, remaining: set<int>, keys: set<int>, key: int)
    requires Visiting(order, remaining, keys) && key in remaining
    ensures Visiting(order + [key], remaining - {key}, keys)
  {
  }

  /** `users` is a point-in-time copy of the table: each row once, and
      nothing that is not a row. */
  predicate IsSnapshot(users: seq<User>, table: map<int, User>)
  {
    && |users| == |table|
    && (forall i | 0 <= i < |users| :: users[i].fd in table && table[users[i].fd] == users[i])
    && (forall i, j | 0 <= i < j < |users| :: users[i].fd != users[j].fd)
    && (forall k | k in table :: table[k] in users)
  }

  /** Whether a broadcast of this kind is also delivered to the connection
      that triggered it: only ordinary public chat lines are. */
  predicate EchoesSender(kind: MessageType)
  {
    kind == PublicMessage
  }

  /** The connections a broadcast is meant to reach. */
  function Audience(table: map<int, User>, frameFd: int, kind: MessageType): (r: set<int>)
  {
    if EchoesSender(kind) then table.Keys else table.Keys - {frameFd}
  }

  /** The envelope every recipient of one broadcast gets; the sender is the
      triggering connection's row, read once before the loop. */
  function Broadcast(table: map<int, User>, frameFd: int, kind: MessageType, message: Payload, dateTime: string): (r: Envelope)
  {
    Notice(kind, message, dateTime, Lookup(table, frameFd))
  }

  /** The pushes of `pushMessage` when the table is visited in `order`. */
  function Fanout(order: seq<int>, table: map<int, User>, frameFd: int, kind: MessageType,
                  message: Payload, dateTime: string): (r: seq<Push>)
    requires forall i | 0 <= i < |order| :: order[i] in table
    decreases |order|
  {
    if order == [] then []
    else
      var row := table[order[|order| - 1]];
      Fanout(order[..|order| - 1], table, frameFd, kind, message, dateTime)
        + (if frameFd == row.fd && !EchoesSender(kind) then []
           else [Push(row.fd, Broadcast(table, frameFd, kind, message, dateTime))])
  }

  /** Visiting one more row appends at most that row's push. */
  lemma FanoutSnoc(order: seq<int>, key: int, table: map<int, User>, frameFd: int, kind: MessageType,
                   message: Payload, dateTime: string)
    requires forall i | 0 <= i < |order| :: order[i] in table
    requires key in table
    ensures Fanout(order + [key], table, frameFd, kind, message, dateTime)
            == Fanout(order, table, frameFd, kind, message, dateTime)
               + (if frameFd == table[key].fd && !EchoesSender(kind) then []
                  else [Push(table[key].fd, Broadcast(table, frameFd, kind, message, dateTime))])
  {
  }

  /** The number of pushes in `ps` addressed to `fd`. */
  function Count(ps: seq<Push>, fd: int): (r: nat)
    decreases |ps|
  {
    if ps == [] then 0
    else Count(ps[..|ps| - 1], fd) + (if ps[|ps| - 1].fd == fd then 1 else 0)
  }

  lemma {:induction false} CountAppend(a: seq<Push>, b: seq<Push>, fd: int)
    ensures Count(a + b, fd) == Count(a, fd) + Count(b, fd)
    decreases |b|
  {
    if b == [] {
      assert a + b == a;
    } else {
      var init := b[..|b| - 1];
      assert (a + b)[..|a + b| - 1] == a + init;
      CountAppend(a, init, fd);
    }
  }

  /** Along any repetition-free visit order, each visited connection in the
      audience gets exactly one push and every other connection none. */
  lemma {:induction false} FanoutCount(order: seq<int>, table: map<int, User>, frameFd: int,
                                       kind: MessageType, message: Payload, dateTime: string, fd: int)
    requires WellKeyed(table) && Distinct(order)
    requires forall i | 0 <= i < |order| :: order[i] in table
    ensures Count(Fanout(order, table, frameFd, kind, message, dateTime), fd)
            == if fd in order && fd in Audience(table, frameFd, kind) then 1 else 0
    decreases |order|
  {
    if order != [] {
      var init := order[..|order| - 1];
      var last := order[|order| - 1];
      var row := table[last];
      var step := if frameFd == row.fd && !EchoesSender(kind) then []
                  else [Push(row.fd, Broadcast(table, frameFd, kind, message, dateTime))];
      assert Fanout(order, table, frameFd, kind, message, dateTime)
             == Fanout(init, table, frameFd, kind, message, dateTime) + step;
      assert Distinct(init) by {
        forall i, j | 0 <= i < j < |init| ensures init[i] != init[j] {
          assert init[i] == order[i] && init[j] == order[j];
        }
      }
      FanoutCount(init, table, frameFd, kind, message, dateTime, fd);
      CountAppend(Fanout(init, table, frameFd, kind, message, dateTime), step, fd);
      assert step != [] ==> step[..0] == [];
      assert fd in order <==> fd in init || fd == last by {
        assert order == init + [last];
      }
      if fd == last {
        assert fd !in init by {
          forall i | 0 <= i < |init| ensures init[i] != last {
            assert init[i] == order[i];
          }
        }
        assert row.fd == fd;
      } else {
        assert Count(step, fd) == 0;
      }
    }
  }

  /** Broadcast rule of `pushMessage`, for whatever order the table is
      visited in: each member of the audience receives exactly one envelope
      and no other connection receives any. */
  lemma FanoutReachesAudience(order: seq<int>, table: map<int, User>, frameFd: int,
                              kind: MessageType, message: Payload, dateTime: string, fd: int)
    requires WellKeyed(table) && IsEnumeration(order, table.Keys)
    ensures Count(Fanout(order, table, frameFd, kind, message, dateTime), fd)
            == if fd in Audience(table, frameFd, kind) then 1 else 0
  {
    FanoutCount(order, table, frameFd, kind, message, dateTime, fd);
  }

  /** All envelopes of one broadcast are the same: same type, message,
      timestamp and sender row. */
  lemma {:induction false} FanoutEnvelope(order: seq<int>, table: map<int, User>, frameFd: int,
                                          kind: MessageType, message: Payload, dateTime: string)
    requires forall i | 0 <= i < |order| :: order[i] in table
    ensures forall p | p in Fanout(order, table, frameFd, kind, message, dateTime)
              :: p.env == Notice(kind, message, dateTime, Lookup(table, frameFd))
    decreases |order|
  {
    if order != [] {
      FanoutEnvelope(order[..|order| - 1], table, frameFd, kind, message, dateTime);
    }
  }

  /** A connection that appears as a recipient in `ps` is counted. */
  lemma {:induction false} CountPositive(ps: seq<Push>, p: Push)
    requires p in ps
    ensures Count(ps, p.fd) > 0
    decreases |ps|
  {
    if ps[|ps| - 1] != p {
      assert ps == ps[..|ps| - 1] + [ps[|ps| - 1]];
      CountPositive(ps[..|ps| - 1], p);
    }
  }

  /** A non-empty key set has a key to visit next. */
  lemma NonEmptyHasKey(keys: set<int>)
    requires keys != {}
    ensures exists k :: k in keys
  {
    if forall k :: k !in keys {
      assert false;
    }
  }
}
