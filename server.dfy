/**
 The chat relay's server object: the connection table, kept as a map from
 connection id to row, and the handlers the transport calls on open, on an
 inbound frame and on close. Every `push` to a client is recorded, in call
 order, in the append-only `outbox`.
 */
module Server {
  import opened ChatTypes
  import opened IdentityPool
  import opened Routing

  class ChatServer {
    /** The configured name and avatar pools. */
    const names: seq<string>
    const avatars: seq<string>
    /** The shared connection table. */
    var table: map<int, User>
    /** Every push made so far, oldest first. */
    var outbox: seq<Push>

    ghost predicate Valid()
      reads this
    {
      |names| > 0 && |avatars| > 0 && WellKeyed(table)
    }

    /** Creates the empty table and reads the configuration. */
    constructor (names: seq<string>, avatars: seq<string>)
      requires |names| > 0 && |avatars| > 0
      ensures Valid()
      ensures this.names == names && this.avatars == avatars
      ensures table == map[] && outbox == []
    {
      this.names := names;
      this.avatars := avatars;
      table := map[];
      outbox := [];
    }

    /** Lists every row of the table, in the table's iteration order. */
    method AllUser() returns (users: seq<User>)
      requires Valid()
      ensures IsSnapshot(users, table)
    {
      users := [];
      var remaining := table.Keys;
      while remaining != {}
        invariant remaining <= table.Keys
        invariant |users| + |remaining| == |table|
        invariant forall i | 0 <= i < |users| ::
                    users[i].fd in table && users[i].fd !in remaining && table[users[i].fd] == users[i]
        invariant forall i, j | 0 <= i < j < |users| :: users[i].fd != users[j].fd
        invariant forall k | k in table && k !in remaining :: table[k] in users
        decreases remaining
      {
        NonEmptyHasKey(remaining);
        var key :| key in remaining;
        users := users + [table[key]];
        remaining := remaining - {key};
      }
    }

    /** Pushes one envelope of type `kind` to every row of the table, skipping
        the triggering connection unless the type is a public chat line.
        The returned order is the order the table was visited in. */
    method PushMessage(message: Payload, kind: MessageType, frameFd: int, dateTime: string)
      returns (ghost order: seq<int>)
      requires Valid()
      modifies this`outbox
      ensures Valid()
      ensures IsEnumeration(order, table.Keys)
      ensures outbox == old(outbox) + Fanout(order, table, frameFd, kind, message, dateTime)
    {
      var user := Lookup(table, frameFd);
      var env := Notice(kind, message, dateTime, user);
      var remaining := table.Keys;
      order := [];
      while remaining != {}
        invariant Visiting(order, remaining, table.Keys)
        invariant outbox == old(outbox) + Fanout(order, table, frameFd, kind, message, dateTime)
        decreases remaining
      {
        NonEmptyHasKey(remaining);
        var key :| key in remaining;
        var row := table[key];
        if !(frameFd == row.fd && kind != PublicMessage) {
          outbox := outbox + [Push(row.fd, env)];
        }
        FanoutSnoc(order, key, table, frameFd, kind, message, dateTime);
        VisitStep(order, remaining, table.Keys, key);
        order := order + [key];
        remaining := remaining - {key};
      }
    }

    /** A connection opened: give it an identity, store it (replacing any row
        already under `fd`), send it `openSuccess` with the full user list,
        then announce it to everyone else. */
    method OnOpen(fd: int, nameIndex: nat, dateTime: string)
      returns (ghost all: seq<User>, ghost order: seq<int>)
      requires Valid()
      requires nameIndex < |names|
      modifies this
      ensures Valid()
      ensures table == old(table)[fd := AssignIdentity(names, avatars, fd, nameIndex)]
      ensures IsSnapshot(all, table) && table[fd] in all
      ensures IsEnumeration(order, table.Keys)
      ensures outbox == old(outbox) + [Push(fd, OpenSuccess(table[fd], all))]
                        + Fanout(order, table, fd, Open, Text(table[fd].name + JoinSuffix), dateTime)
      ensures forall k :: Count(outbox[|old(outbox)|..], k) == if k in table then 1 else 0
      ensures forall p | p in outbox[|old(outbox)| + 1..] ::
                p.fd != fd && p.env == Notice(Open, Text(table[fd].name + JoinSuffix), dateTime, Some(table[fd]))
    {
      var user := AssignIdentity(names, avatars, fd, nameIndex);
      table := table[fd := user];
      var users := AllUser();
      all := users;
      outbox := outbox + [Push(fd, OpenSuccess(user, users))];
      order := PushMessage(Text(user.name + JoinSuffix), Open, fd, dateTime);
      ghost var fan := Fanout(order, table, fd, Open, Text(user.name + JoinSuffix), dateTime);
      assert outbox[|old(outbox)|..] == [Push(fd, OpenSuccess(user, users))] + fan;
      assert outbox[|old(outbox)| + 1..] == fan;
      FanoutEnvelope(order, table, fd, Open, Text(user.name + JoinSuffix), dateTime);
      forall k ensures Count(outbox[|old(outbox)|..], k) == if k in table then 1 else 0 {
        FanoutReachesAudience(order, table, fd, Open, Text(user.name + JoinSuffix), dateTime, k);
        CountAppend([Push(fd, OpenSuccess(user, users))], fan, k);
        assert [Push(fd, OpenSuccess(user, users))][..0] == [];
      }
      forall p | p in fan ensures p.fd != fd {
        if p.fd == fd {
          FanoutReachesAudience(order, table, fd, Open, Text(user.name + JoinSuffix), dateTime, fd);
          CountPositive(fan, p);
        }
      }
    }

    /** An inbound frame from `fd`. A public line is broadcast to everyone,
        the sender included; a private line is pushed to the sender and then
        to its target; anything else is dropped. The table is not touched. */
    method OnMessage(fd: int, request: Inbound, dateTime: string) returns (ghost order: seq<int>)
      requires Valid()
      modifies this`outbox
      ensures Valid()
      ensures request.Public? ==>
                && IsEnumeration(order, table.Keys)
                && outbox == old(outbox)
                   + Fanout(order, table, fd, PublicMessage, Chat(Lookup(table, fd), request.message), dateTime)
                && (forall k :: Count(outbox[|old(outbox)|..], k) == if k in table then 1 else 0)
                && (forall p | p in outbox[|old(outbox)|..] ::
                      p.env == Notice(PublicMessage, Chat(Lookup(table, fd), request.message), dateTime,
                                      Lookup(table, fd)))
      ensures request.Private? ==>
                var env := PrivateMessage(Chat(Lookup(table, fd), request.message));
                && outbox == old(outbox) + [Push(fd, env), Push(request.to, env)]
                && (forall k :: Count(outbox[|old(outbox)|..], k)
                                 == (if k == fd then 1 else 0) + (if k == request.to then 1 else 0))
      ensures request.Other? ==> outbox == old(outbox)
    {
      var user := Lookup(table, fd);
      match request {
        case Public(message) =>
          order := PushMessage(Chat(user, message), PublicMessage, fd, dateTime);
          ghost var fan := Fanout(order, table, fd, PublicMessage, Chat(user, message), dateTime);
          assert outbox[|old(outbox)|..] == fan;
          FanoutEnvelope(order, table, fd, PublicMessage, Chat(user, message), dateTime);
          forall k ensures Count(outbox[|old(outbox)|..], k) == if k in table then 1 else 0 {
            FanoutReachesAudience(order, table, fd, PublicMessage, Chat(user, message), dateTime, k);
          }
        case Private(message, to) =>
          var env := PrivateMessage(Chat(user, message));
          outbox := outbox + [Push(fd, env)];
          outbox := outbox + [Push(to, env)];
          assert outbox[|old(outbox)|..] == [Push(fd, env), Push(to, env)];
          assert [Push(fd, env), Push(to, env)][..1] == [Push(fd, env)];
          assert [Push(fd, env)][..0] == [];
          forall k ensures Count(outbox[|old(outbox)|..], k)
                           == (if k == fd then 1 else 0) + (if k == to then 1 else 0) {
            assert Count([Push(fd, env)], k) == if k == fd then 1 else 0;
          }
          order := [];
        case Other =>
          order := [];
      }
    }

    /** A connection closed: announce its departure to everyone else, naming
        the row looked up before it is removed, then delete the row. */
    method OnClose(fd: int, dateTime: string) returns (ghost order: seq<int>)
      requires Valid()
      modifies this
      ensures Valid()
      ensures table == old(table) - {fd}
      ensures IsEnumeration(order, old(table).Keys)
      ensures outbox == old(outbox)
                + Fanout(order, old(table), fd, Close, Text(NameOf(Lookup(old(table), fd)) + LeaveSuffix), dateTime)
      ensures forall k :: Count(outbox[|old(outbox)|..], k) == if k in table then 1 else 0
      ensures forall p | p in outbox[|old(outbox)|..] ::
                p.env == Notice(Close, Text(NameOf(Lookup(old(table), fd)) + LeaveSuffix), dateTime,
                                Lookup(old(table), fd))
    {
      var user := Lookup(table, fd);
      var message := Text(NameOf(user) + LeaveSuffix);
      order := PushMessage(message, Close, fd, dateTime);
      ghost var fan := Fanout(order, table, fd, Close, message, dateTime);
      assert outbox[|old(outbox)|..] == fan;
      FanoutEnvelope(order, table, fd, Close, message, dateTime);
      forall k ensures Count(outbox[|old(outbox)|..], k) == if k in table - {fd} then 1 else 0 {
        FanoutReachesAudience(order, table, fd, Close, message, dateTime, k);
      }
      table := table - {fd};
    }
  }
}
