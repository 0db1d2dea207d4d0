/**
 * A server-sent-events stream: a name and the ordered list of connected clients
 * (src/modules/web-server/stream.ts). Clients are opaque values compared by identity,
 * as JavaScript's `indexOf` compares object references; sending to a client becomes
 * an entry in a delivery log.
 */
module Streams {

  datatype Stream<C> = Stream(name: string, clients: seq<C>)

  /** One `client.sse({data: message})` call. */
  datatype Delivery<C> = Delivery(client: C, message: string)

  /** `new Stream(name)`. */
  function New<C>(name: string): (s: Stream<C>)
    ensures s.name == name && s.clients == []
  {
    Stream(name, [])
  }

  /** `addClient(client)`: `clients.push(client)`. */
  function AddClient<C>(s: Stream<C>, client: C): (s': Stream<C>)
    ensures s'.name == s.name
    ensures |s'.clients| == |s.clients| + 1
    ensures s'.clients[..|s.clients|] == s.clients && s'.clients[|s.clients|] == client
  {
    s.(clients := s.clients + [client])
  }

  /** `Array.prototype.indexOf`: the first position holding `x`, or -1 when there is none. */
  function IndexOf<C(==)>(xs: seq<C>, x: C): (i: int)
    ensures -1 <= i < |xs|
    ensures i == -1 <==> x !in xs
    ensures 0 <= i ==> xs[i] == x && x !in xs[..i]
    decreases |xs|
  {
    if |xs| == 0 then -1
    else if xs[0] == x then 0
    else
      var j := IndexOf(xs[1..], x);
      if j == -1 then -1
      else
        assert xs[..j + 1] == [xs[0]] + xs[1..][..j];
        j + 1
  }

  /**
   * `Array.prototype.splice(start, 1)`: a negative `start` counts back from the end
   * (clamped at 0), a `start` past the end is clamped to the length, and one element
   * is removed at the resulting position if there is one.
   */
  function SpliceOne<C>(xs: seq<C>, start: int): (r: seq<C>)
    ensures 0 <= start < |xs| ==>
      |r| == |xs| - 1 && forall i :: 0 <= i < |r| ==> r[i] == (if i < start then xs[i] else xs[i + 1])
    ensures -|xs| <= start < 0 ==>
      |r| == |xs| - 1 && forall i :: 0 <= i < |r| ==> r[i] == (if i < |xs| + start then xs[i] else xs[i + 1])
    ensures start < -|xs| && |xs| > 0 ==> r == xs[1..]
    ensures start >= |xs| ==> r == xs
  {
    var k := if start < 0 then (if |xs| + start < 0 then 0 else |xs| + start)
             else if start > |xs| then |xs| else start;
    if k < |xs| then xs[..k] + xs[k + 1..] else xs
  }

  /** `removeClient(client)` as written: `clients.splice(clients.indexOf(client), 1)`. */
  function RemoveClientAsWritten<C(==)>(s: Stream<C>, client: C): (s': Stream<C>)
    ensures s'.name == s.name
    ensures client in s.clients ==> |s'.clients| == |s.clients| - 1
    ensures client !in s.clients && |s.clients| > 0 ==> s'.clients == s.clients[..|s.clients| - 1]
    ensures s.clients == [] ==> s' == s
  {
    var r := SpliceOne(s.clients, IndexOf(s.clients, client));
    assert client !in s.clients && |s.clients| > 0 ==> r == s.clients[..|s.clients| - 1];
    s.(clients := r)
  }

  /** `removeClient` as evidently intended: the first occurrence goes, and an absent client changes nothing. */
  function RemoveClient<C(==)>(s: Stream<C>, client: C): (s': Stream<C>)
    ensures s'.name == s.name
    ensures client !in s.clients ==> s' == s
    ensures client in s.clients ==>
      |s'.clients| == |s.clients| - 1 && multiset(s'.clients) == multiset(s.clients) - multiset{client}
  {
    var i := IndexOf(s.clients, client);
    if i == -1 then s
    else
      var r := SpliceOne(s.clients, i);
      assert s.clients == s.clients[..i] + [client] + s.clients[i + 1..];
      assert r == s.clients[..i] + s.clients[i + 1..];
      s.(clients := r)
  }

  /** `emit(message)`: every client receives the message once, in list order. */
  function Emit<C>(s: Stream<C>, message: string): (log: seq<Delivery<C>>)
    ensures |log| == |s.clients|
    ensures forall i :: 0 <= i < |log| ==> log[i] == Delivery(s.clients[i], message)
    decreases |s.clients|
  {
    if |s.clients| == 0 then []
    else [Delivery(s.clients[0], message)] + Emit(s.(clients := s.clients[1..]), message)
  }

  /** Removing a present client drops its first occurrence and keeps the others in order, as written and as intended. */
  lemma RemovePresentClient<C>(s: Stream<C>, client: C, i: nat)
    requires i < |s.clients| && s.clients[i] == client && client !in s.clients[..i]
    ensures RemoveClientAsWritten(s, client).clients == s.clients[..i] + s.clients[i + 1..]
    ensures RemoveClient(s, client) == RemoveClientAsWritten(s, client)
  {
  }

  /** The defect: removing a client that is not connected disconnects the most recent client. */
  lemma RemoveAbsentDropsLast()
    ensures RemoveClientAsWritten(Stream("obs", [1, 2]), 3) == Stream("obs", [1])
  {
    assert 3 !in [1, 2];
  }

  /** Removing a client right after adding it restores the stream, when the client was not already there. */
  lemma RemoveAfterAdd<C>(s: Stream<C>, client: C)
    requires client !in s.clients
    ensures RemoveClient(AddClient(s, client), client) == s
    ensures RemoveClientAsWritten(AddClient(s, client), client) == s
  {
    var xs := AddClient(s, client).clients;
    RemovePresentClient(AddClient(s, client), client, |s.clients|);
    assert xs[..|s.clients|] == s.clients;
    assert xs[|s.clients| + 1..] == [];
  }

  /** As written, removing from a non-empty stream always shortens it by one, whether or not the client is there. */
  lemma RemoveAsWrittenShrinks<C>(s: Stream<C>, client: C)
    requires |s.clients| > 0
    ensures |RemoveClientAsWritten(s, client).clients| == |s.clients| - 1
  {
  }

  /** A client added after the others receives each later message last. */
  lemma {:induction false} EmitAfterAdd<C>(s: Stream<C>, client: C, message: string)
    ensures Emit(AddClient(s, client), message) == Emit(s, message) + [Delivery(client, message)]
  {
  }
}
