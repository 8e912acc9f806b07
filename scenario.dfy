/**
 A client of the server's contracts: the walk-through of two connections
 exchanging a public line and one of them leaving, checked from the
 handlers' postconditions alone.
 */
module Scenario {
  import opened ChatTypes
  import opened Routing
  import opened Server

  /** Connections 1 and 2 open and are given the names X and Y. */
  method OpenTwo(dateTime: string) returns (server: ChatServer)
    ensures fresh(server) && server.Valid()
    ensures server.table == map[1 := User(1, "X", "avatar.png"), 2 := User(2, "Y", "avatar.png")]
  {
    server := new ChatServer(["X", "Y"], ["avatar.png"]);
    ghost var all, order := server.OnOpen(1, 0, dateTime);
    all, order := server.OnOpen(2, 1, dateTime);
  }

  /** With X and Y connected, X's public line "hi" reaches both, each once,
      carrying X as its author and sender. */
  method SendPublicLine(server: ChatServer, dateTime: string)
    requires server.Valid()
    requires server.table == map[1 := User(1, "X", "avatar.png"), 2 := User(2, "Y", "avatar.png")]
    modifies server
    ensures server.Valid() && server.table == old(server.table)
  {
    var x := User(1, "X", "avatar.png");
    assert Lookup(server.table, 1) == Some(x);
    ghost var sent := |server.outbox|;
    ghost var order := server.OnMessage(1, Public("hi"), dateTime);
    assert Count(server.outbox[sent..], 1) == 1 && Count(server.outbox[sent..], 2) == 1;
    assert forall p | p in server.outbox[sent..] ::
             p.env == Notice(PublicMessage, Chat(Some(x), "hi"), dateTime, Some(x));
  }

  /** With X and Y connected, Y closes: X alone is told that Y left, and
      only X stays in the table. */
  method CloseSecond(server: ChatServer, dateTime: string)
    requires server.Valid()
    requires server.table == map[1 := User(1, "X", "avatar.png"), 2 := User(2, "Y", "avatar.png")]
    modifies server
    ensures server.Valid() && server.table == map[1 := User(1, "X", "avatar.png")]
  {
    var y := User(2, "Y", "avatar.png");
    assert Lookup(server.table, 2) == Some(y);
    ghost var sent := |server.outbox|;
    ghost var order := server.OnClose(2, dateTime);
    assert Count(server.outbox[sent..], 1) == 1 && Count(server.outbox[sent..], 2) == 0;
    assert forall p | p in server.outbox[sent..] ::
             p.env == Notice(Close, Text("Y" + LeaveSuffix), dateTime, Some(y));
  }

  /** A second close of a connection that is gone is not ignored: the table
      stays the same, but every remaining connection gets another leave
      notice, with an empty name and no sender. */
  method CloseAgain(server: ChatServer, dateTime: string)
    requires server.Valid()
    requires server.table == map[1 := User(1, "X", "avatar.png")]
    modifies server
    ensures server.Valid() && server.table == old(server.table)
  {
    assert Lookup(server.table, 2) == None;
    assert NameOf(None) + LeaveSuffix == LeaveSuffix;
    ghost var sent := |server.outbox|;
    ghost var order := server.OnClose(2, dateTime);
    assert Count(server.outbox[sent..], 1) == 1;
    assert forall p | p in server.outbox[sent..] ::
             p.env == Notice(Close, Text(LeaveSuffix), dateTime, None);
  }

  /** Two connections open, one sends a public line, the other closes twice. */
  method ChatScenario(dateTime: string)
  {
    var server := OpenTwo(dateTime);
    SendPublicLine(server, dateTime);
    CloseSecond(server, dateTime);
    CloseAgain(server, dateTime);
  }
}
