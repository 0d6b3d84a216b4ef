/**
 * The subscriber list of src/services/sseManager.ts. Clients subscribe to one
 * tournament and to the leaderboard topic, the chat topic, or both ('unified').
 * The 'close' callback is modelled as an explicit RemoveClient call.
 */
module Sse {
  import opened Channels

  /** A client's subscription: one topic, or the 'unified' wildcard. */
  datatype Subscription = Only(channel: Channel) | Unified

  datatype SseClient = SseClient(res: Handle, tournamentNumber: string, kind: Subscription)

  /** The broadcast filter: same tournament, and the exact topic or the wildcard. */
  predicate Receives(c: SseClient, tournamentNumber: string, channel: Channel)
  {
    c.tournamentNumber == tournamentNumber && (c.kind == Only(channel) || c.kind == Unified)
  }

  /** The clients a broadcast reaches, in list order. */
  function Receivers(clients: seq<SseClient>, tournamentNumber: string, channel: Channel): seq<SseClient>
  {
    if clients == [] then []
    else
      var last := clients[|clients| - 1];
      Receivers(clients[..|clients| - 1], tournamentNumber, channel)
        + (if Receives(last, tournamentNumber, channel) then [last] else [])
  }

  function HandlesOf(clients: seq<SseClient>): (r: seq<Handle>)
    ensures |r| == |clients|
    ensures forall i :: 0 <= i < |r| ==> r[i] == clients[i].res
  {
    seq(|clients|, i requires 0 <= i < |clients| => clients[i].res)
  }

  /** `clients.filter(client => client.res !== res)`. */
  function Without(clients: seq<SseClient>, res: Handle): seq<SseClient>
  {
    if clients == [] then []
    else (if clients[0].res != res then [clients[0]] else []) + Without(clients[1..], res)
  }

  class SseManager {
    var clients: seq<SseClient>
    /** Every write made to a client's response, in order. */
    var sent: seq<Delivery<string>>

    constructor ()
      ensures clients == [] && sent == []
    {
      clients := [];
      sent := [];
    }

    /** `addClient`: appends one client and keeps the others as they were. */
    method AddClient(res: Handle, tournamentNumber: string, kind: Subscription)
      modifies this`clients
      ensures clients == old(clients) + [SseClient(res, tournamentNumber, kind)]
    {
      clients := clients + [SseClient(res, tournamentNumber, kind)];
    }

    /** `removeClient`, also what the response's 'close' callback runs. */
    method RemoveClient(res: Handle)
      modifies this`clients
      ensures clients == Without(old(clients), res)
    {
      clients := Without(clients, res);
    }

    /** `broadcast`: one frame to every matching client, in list order; the list is left alone. */
    method Broadcast(tournamentNumber: string, channel: Channel, data: string)
      modifies this`sent
      ensures sent == old(sent) + DeliverAll(HandlesOf(Receivers(clients, tournamentNumber, channel)), EventFrame(data))
    {
      var payload := EventFrame(data);
      for i := 0 to |clients|
        invariant sent == old(sent) + DeliverAll(HandlesOf(Receivers(clients[..i], tournamentNumber, channel)), payload)
      {
        var client := clients[i];
        BroadcastStep(clients, i, tournamentNumber, channel, payload);
        if client.tournamentNumber == tournamentNumber && (client.kind == Only(channel) || client.kind == Unified) {
          sent := sent + [Delivery(client.res, payload)];
        }
      }
      assert clients[..|clients|] == clients;
    }
  }

  // ----- Lemmas about the list operations -----

  /** One more client of the list adds at most its own delivery, at the end. */
  lemma BroadcastStep(clients: seq<SseClient>, i: nat, t: string, ch: Channel, payload: string)
    requires i < |clients|
    ensures DeliverAll(HandlesOf(Receivers(clients[..i + 1], t, ch)), payload)
         == DeliverAll(HandlesOf(Receivers(clients[..i], t, ch)), payload)
            + (if Receives(clients[i], t, ch) then [Delivery(clients[i].res, payload)] else [])
  {
    assert clients[..i + 1][..i] == clients[..i];
  }

  /** A client is reached exactly when it is listed and matches tournament and topic. */
  lemma {:induction false} ReceiversMembership(clients: seq<SseClient>, t: string, ch: Channel, c: SseClient)
    ensures c in Receivers(clients, t, ch) <==> c in clients && Receives(c, t, ch)
  {
    if clients != [] {
      var init := clients[..|clients| - 1];
      ReceiversMembership(init, t, ch, c);
      assert clients == init + [clients[|clients| - 1]];
    }
  }

  /** Broadcasting keeps list order: the receivers of a concatenation are the concatenation of receivers. */
  lemma {:induction false} ReceiversConcat(a: seq<SseClient>, b: seq<SseClient>, t: string, ch: Channel)
    ensures Receivers(a + b, t, ch) == Receivers(a, t, ch) + Receivers(b, t, ch)
    decreases |b|
  {
    if b == [] {
      assert a + b == a;
    } else {
      var b' := b[..|b| - 1];
      assert (a + b)[..|a + b| - 1] == a + b';
      ReceiversConcat(a, b', t, ch);
    }
  }

  /** A chat client never hears a leaderboard broadcast nor the reverse; a unified client hears both. */
  lemma TopicIsolation(res: Handle, t: string)
    ensures !Receives(SseClient(res, t, Only(Chat)), t, Leaderboard)
    ensures !Receives(SseClient(res, t, Only(Leaderboard)), t, Chat)
    ensures Receives(SseClient(res, t, Unified), t, Leaderboard) && Receives(SseClient(res, t, Unified), t, Chat)
  {
  }

  /** After `removeClient(res)` a client is listed exactly when it was listed before and holds another handle. */
  lemma {:induction false} WithoutMembership(clients: seq<SseClient>, res: Handle, c: SseClient)
    ensures c in Without(clients, res) <==> c in clients && c.res != res
  {
    if clients != [] {
      WithoutMembership(clients[1..], res, c);
      assert clients == [clients[0]] + clients[1..];
    }
  }

  /** `removeClient` keeps the order of the rest: it distributes over concatenation. */
  lemma {:induction false} WithoutConcat(a: seq<SseClient>, b: seq<SseClient>, res: Handle)
    ensures Without(a + b, res) == Without(a, res) + Without(b, res)
  {
    if a == [] {
      assert a + b == b;
    } else {
      assert (a + b)[0] == a[0];
      assert (a + b)[1..] == a[1..] + b;
      WithoutConcat(a[1..], b, res);
    }
  }

  /** Removing a handle nobody holds changes nothing. */
  lemma {:induction false} WithoutUnknown(clients: seq<SseClient>, res: Handle)
    requires forall i :: 0 <= i < |clients| ==> clients[i].res != res
    ensures Without(clients, res) == clients
  {
    if clients != [] {
      WithoutUnknown(clients[1..], res);
      assert clients == [clients[0]] + clients[1..];
    }
  }

  /** `removeClient` is idempotent. */
  lemma WithoutIdempotent(clients: seq<SseClient>, res: Handle)
    ensures Without(Without(clients, res), res) == Without(clients, res)
  {
    var once := Without(clients, res);
    forall i | 0 <= i < |once|
      ensures once[i].res != res
    {
      WithoutMembership(clients, res, once[i]);
    }
    WithoutUnknown(once, res);
  }
}
