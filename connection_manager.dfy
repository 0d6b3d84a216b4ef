/**
 * The connection list of src/services/connectionManager.ts, the one the message
 * handler broadcasts through. Connections subscribe to one tournament and one
 * topic; there is no wildcard. A write that fails drops its connection.
 */
module Connections {
  import opened Wrappers
  import opened Channels

  datatype Connection = Connection(tournamentId: string, response: Handle, channel: Channel)

  /** How `removeConnection` recognises an entry: same response and tournament, whatever the topic. */
  predicate SameKey(a: Connection, b: Connection)
  {
    a.response == b.response && a.tournamentId == b.tournamentId
  }

  /** `findIndex` then `splice(index, 1)`: drops the first entry with the same key, if any. */
  function RemoveFirst(conns: seq<Connection>, target: Connection): seq<Connection>
  {
    if conns == [] then []
    else if SameKey(conns[0], target) then conns[1..]
    else [conns[0]] + RemoveFirst(conns[1..], target)
  }

  predicate IsTarget(c: Connection, tournamentId: string, channel: Channel)
  {
    c.tournamentId == tournamentId && c.channel == channel
  }

  /** The snapshot `broadcastToTournament` takes before writing: same tournament and identical topic. */
  function Targets(conns: seq<Connection>, tournamentId: string, channel: Channel): seq<Connection>
  {
    if conns == [] then []
    else
      var last := conns[|conns| - 1];
      Targets(conns[..|conns| - 1], tournamentId, channel)
        + (if IsTarget(last, tournamentId, channel) then [last] else [])
  }

  /** The handles whose write succeeds, in snapshot order; a write to a handle in `dead` throws. */
  function Written(targets: seq<Connection>, dead: set<Handle>): seq<Handle>
  {
    if targets == [] then []
    else
      var last := targets[|targets| - 1];
      Written(targets[..|targets| - 1], dead) + (if last.response in dead then [] else [last.response])
  }

  /** The list after the loop: each failed target in turn passed to `removeConnection`. */
  function AfterFailures(conns: seq<Connection>, targets: seq<Connection>, dead: set<Handle>): seq<Connection>
  {
    if targets == [] then conns
    else
      var last := targets[|targets| - 1];
      var before := AfterFailures(conns, targets[..|targets| - 1], dead);
      if last.response in dead then RemoveFirst(before, last) else before
  }

  /** `getConnectionCount(tournamentId, type)`; `None` stands for the omitted type. */
  function Count(conns: seq<Connection>, tournamentId: string, channel: Option<Channel>): nat
  {
    if conns == [] then 0
    else
      var last := conns[|conns| - 1];
      Count(conns[..|conns| - 1], tournamentId, channel)
        + (if last.tournamentId == tournamentId && (channel.None? || last.channel == channel.value) then 1 else 0)
  }

  /** The connection list together with the writes made so far. */
  datatype Outbox<T> = Outbox(connections: seq<Connection>, sent: seq<Delivery<T>>)

  /**
   * What `broadcastToTournament` does: one write per target of the snapshot whose
   * response is alive, in snapshot order, and each failed target removed in turn.
   */
  predicate Broadcasted<T(==)>(before: Outbox<T>, after: Outbox<T>, tournamentId: string, data: T,
                           channel: Channel, dead: set<Handle>)
  {
    var targets := Targets(before.connections, tournamentId, channel);
    && after.sent == before.sent + DeliverAll(Written(targets, dead), data)
    && after.connections == AfterFailures(before.connections, targets, dead)
  }

  class ConnectionManager<T> {
    var connections: seq<Connection>
    /**
     * Every successful write to a connection's response, in order, recorded as the
     * value that is serialised into the `data: <json>` frame.
     */
    var sent: seq<Delivery<T>>

    function State(): Outbox<T>
      reads this
    {
      Outbox(connections, sent)
    }

    constructor ()
      ensures connections == [] && sent == []
    {
      connections := [];
      sent := [];
    }

    /** `addConnection`: appends the new connection and returns it. */
    method AddConnection(tournamentId: string, response: Handle, channel: Channel) returns (connection: Connection)
      modifies this`connections
      ensures connection == Connection(tournamentId, response, channel)
      ensures connections == old(connections) + [connection]
    {
      connection := Connection(tournamentId, response, channel);
      connections := connections + [connection];
    }

    /** `removeConnection`, also what the response's 'close' callback runs. */
    method RemoveConnection(connection: Connection)
      modifies this`connections
      ensures connections == RemoveFirst(old(connections), connection)
    {
      connections := RemoveFirst(connections, connection);
    }

    /**
     * `broadcastToTournament`: writes one frame to every connection of the snapshot
     * whose write succeeds, and removes, after its failed write, each one that fails.
     */
    method BroadcastToTournament(tournamentId: string, data: T, channel: Channel, dead: set<Handle>)
      modifies this`connections, this`sent
      ensures Broadcasted(old(State()), State(), tournamentId, data, channel, dead)
    {
      var targets := Targets(connections, tournamentId, channel);
      var payload := data;
      for i := 0 to |targets|
        invariant sent == old(sent) + DeliverAll(Written(targets[..i], dead), payload)
        invariant connections == AfterFailures(old(connections), targets[..i], dead)
      {
        var connection := targets[i];
        assert targets[..i + 1][..i] == targets[..i];
        if connection.response in dead {
          RemoveConnection(connection);
        } else {
          ghost var before := Written(targets[..i], dead);
          assert DeliverAll(before + [connection.response], payload)
              == DeliverAll(before, payload) + [Delivery(connection.response, payload)];
          sent := sent + [Delivery(connection.response, payload)];
        }
      }
      assert targets[..|targets|] == targets;
    }

    /**
     * `getConnectionCount(t, type?)`: with a topic, exactly the connections a broadcast
     * on that topic would target; without one, the two topics together.
     */
    function GetConnectionCount(tournamentId: string, channel: Option<Channel>): (r: nat)
      reads this
      ensures channel.Some? ==> r == |Targets(connections, tournamentId, channel.value)|
      ensures channel.None? ==>
        r == |Targets(connections, tournamentId, Leaderboard)| + |Targets(connections, tournamentId, Chat)|
    {
      if channel.Some? then
        CountIsTargets(connections, tournamentId, channel.value);
        Count(connections, tournamentId, channel)
      else
        CountSplit(connections, tournamentId);
        CountIsTargets(connections, tournamentId, Leaderboard);
        CountIsTargets(connections, tournamentId, Chat);
        Count(connections, tournamentId, channel)
    }
  }

  // ----- removeConnection -----

  /** With no entry of the same key, `removeConnection` changes nothing. */
  lemma {:induction false} RemoveFirstNoMatch(conns: seq<Connection>, target: Connection)
    requires forall i :: 0 <= i < |conns| ==> !SameKey(conns[i], target)
    ensures RemoveFirst(conns, target) == conns
  {
    if conns != [] {
      RemoveFirstNoMatch(conns[1..], target);
      assert conns == [conns[0]] + conns[1..];
    }
  }

  /** Otherwise it splices out exactly the first entry with that key, ignoring the topic. */
  lemma {:induction false} RemoveFirstMatch(conns: seq<Connection>, target: Connection, k: nat)
    requires k < |conns| && SameKey(conns[k], target)
    requires forall j :: 0 <= j < k ==> !SameKey(conns[j], target)
    ensures RemoveFirst(conns, target) == conns[..k] + conns[k + 1..]
  {
    if k == 0 {
      assert conns[..0] + conns[1..] == conns[1..];
    } else {
      var rest := conns[1..];
      assert forall j :: 0 <= j < k - 1 ==> !SameKey(rest[j], target) by {
        forall j | 0 <= j < k - 1
          ensures !SameKey(rest[j], target)
        {
          assert rest[j] == conns[j + 1];
        }
      }
      assert rest[k - 1] == conns[k];
      assert !SameKey(conns[0], target);
      RemoveFirstMatch(rest, target, k - 1);
      SpliceTail(conns, k);
    }
  }

  /** Splicing out position `k > 0` keeps the head and splices the tail at `k - 1`. */
  lemma SpliceTail<T>(s: seq<T>, k: nat)
    requires 0 < k < |s|
    ensures s[..k] + s[k + 1..] == [s[0]] + (s[1..][..k - 1] + s[1..][k..])
  {
    assert s[..k] == [s[0]] + s[1..][..k - 1];
    assert s[k + 1..] == s[1..][k..];
  }

  // ----- getConnectionCount -----

  /** The untyped count is the sum of the two typed counts. */
  lemma {:induction false} CountSplit(conns: seq<Connection>, tournamentId: string)
    ensures Count(conns, tournamentId, None)
         == Count(conns, tournamentId, Some(Leaderboard)) + Count(conns, tournamentId, Some(Chat))
  {
    if conns != [] {
      CountSplit(conns[..|conns| - 1], tournamentId);
    }
  }

  /** A count with a topic is the number of broadcast targets of that topic. */
  lemma {:induction false} CountIsTargets(conns: seq<Connection>, tournamentId: string, channel: Channel)
    ensures Count(conns, tournamentId, Some(channel)) == |Targets(conns, tournamentId, channel)|
  {
    if conns != [] {
      CountIsTargets(conns[..|conns| - 1], tournamentId, channel);
    }
  }

  /** After `addConnection(t, _, ty)` the count for (t, ty) rises by exactly one, and other counts stay. */
  lemma CountAfterAdd(conns: seq<Connection>, c: Connection, tournamentId: string, channel: Channel)
    ensures Count(conns + [c], c.tournamentId, Some(c.channel)) == Count(conns, c.tournamentId, Some(c.channel)) + 1
    ensures tournamentId != c.tournamentId || channel != c.channel ==>
      Count(conns + [c], tournamentId, Some(channel)) == Count(conns, tournamentId, Some(channel))
  {
    assert (conns + [c])[..|conns|] == conns;
  }

  // ----- broadcastToTournament -----

  /** No two entries share a response and tournament. */
  predicate KeysUnique(conns: seq<Connection>)
  {
    forall i, j :: 0 <= i < j < |conns| ==> !SameKey(conns[i], conns[j])
  }

  lemma {:induction false} TargetsMembership(conns: seq<Connection>, t: string, ch: Channel, c: Connection)
    ensures c in Targets(conns, t, ch) <==> c in conns && IsTarget(c, t, ch)
  {
    if conns != [] {
      var init := conns[..|conns| - 1];
      TargetsMembership(init, t, ch, c);
      assert conns == init + [conns[|conns| - 1]];
    }
  }

  lemma {:induction false} RemoveFirstUnique(conns: seq<Connection>, target: Connection)
    requires KeysUnique(conns)
    ensures KeysUnique(RemoveFirst(conns, target))
    ensures forall x :: x in RemoveFirst(conns, target) <==> x in conns && !SameKey(x, target)
  {
    if conns != [] {
      assert forall j :: 1 <= j < |conns| ==> conns[j] == conns[1..][j - 1];
      assert KeysUnique(conns[1..]);
      RemoveFirstUnique(conns[1..], target);
      assert conns == [conns[0]] + conns[1..];
      forall x | x in conns[1..]
        ensures !SameKey(x, conns[0])
      {
        var j :| 0 <= j < |conns[1..]| && conns[1..][j] == x;
        assert conns[j + 1] == x;
      }
      if !SameKey(conns[0], target) {
        var rest := RemoveFirst(conns[1..], target);
        forall i, j | 0 <= i < j < |[conns[0]] + rest|
          ensures !SameKey(([conns[0]] + rest)[i], ([conns[0]] + rest)[j])
        {
          if i == 0 {
            assert rest[j - 1] in rest;
          } else {
            assert ([conns[0]] + rest)[i] == rest[i - 1];
          }
        }
      }
    }
  }

  lemma {:induction false} AfterFailuresUnique(conns: seq<Connection>, targets: seq<Connection>, dead: set<Handle>)
    requires KeysUnique(conns)
    ensures KeysUnique(AfterFailures(conns, targets, dead))
    ensures forall x :: x in AfterFailures(conns, targets, dead) <==>
      x in conns && forall j :: 0 <= j < |targets| && targets[j].response in dead ==> !SameKey(x, targets[j])
  {
    if targets != [] {
      var init := targets[..|targets| - 1];
      var last := targets[|targets| - 1];
      AfterFailuresUnique(conns, init, dead);
      var before := AfterFailures(conns, init, dead);
      if last.response in dead {
        RemoveFirstUnique(before, last);
      }
      forall x
        ensures (forall j :: 0 <= j < |targets| && targets[j].response in dead ==> !SameKey(x, targets[j]))
            <==> (forall j :: 0 <= j < |init| && init[j].response in dead ==> !SameKey(x, init[j]))
                 && (last.response in dead ==> !SameKey(x, last))
      {
        assert forall j :: 0 <= j < |init| ==> init[j] == targets[j];
      }
    }
  }

  /**
   * When no two connections share a response and tournament, a broadcast removes
   * exactly the targeted connections whose write failed; every other connection,
   * including each one whose write succeeded, stays.
   */
  lemma BroadcastRemovesExactlyFailed(conns: seq<Connection>, t: string, ch: Channel, dead: set<Handle>, x: Connection)
    requires KeysUnique(conns)
    ensures x in AfterFailures(conns, Targets(conns, t, ch), dead) <==>
      x in conns && !(IsTarget(x, t, ch) && x.response in dead)
  {
    var targets := Targets(conns, t, ch);
    AfterFailuresUnique(conns, targets, dead);
    TargetsMembership(conns, t, ch, x);
    if x in conns {
      if IsTarget(x, t, ch) && x.response in dead {
        var j :| 0 <= j < |targets| && targets[j] == x;
      } else {
        forall j | 0 <= j < |targets| && targets[j].response in dead
          ensures !SameKey(x, targets[j])
        {
          TargetsMembership(conns, t, ch, targets[j]);
          var a :| 0 <= a < |conns| && conns[a] == x;
          var b :| 0 <= b < |conns| && conns[b] == targets[j];
          assert a != b;
        }
      }
    }
  }

  /**
   * Because `removeConnection` ignores the topic, one response subscribed to both
   * topics of a tournament loses its chat entry when a leaderboard write to it fails,
   * while the failed leaderboard entry stays.
   */
  lemma RemovalIgnoresTopic()
    ensures var conns := [Connection("T", 7, Chat), Connection("T", 7, Leaderboard)];
      AfterFailures(conns, Targets(conns, "T", Leaderboard), {7}) == [Connection("T", 7, Leaderboard)]
  {
    var conns := [Connection("T", 7, Chat), Connection("T", 7, Leaderboard)];
    assert conns[..1] == [Connection("T", 7, Chat)];
    assert Targets(conns[..1], "T", Leaderboard) == [] by {
      assert conns[..1][..0] == [];
    }
    assert Targets(conns, "T", Leaderboard) == [Connection("T", 7, Leaderboard)];
  }
}
