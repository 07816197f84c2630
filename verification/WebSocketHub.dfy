/**
 The WebSocket hub: which client a user is reached through, and the bounded queue of outgoing
 frames that each client owns.

 The first part describes the hub's data as values; the classes below are the same operations in
 place. `HubRuns` puts them together with the goroutines of the clients.
 */
module WebSocketHub {
  import opened Common

  /** The capacity of a client's Send channel. */
  const SEND_CAPACITY := 256

  type Frame = string

  /** The identity of a client object; a user may own many over time. */
  datatype ClientRef = ClientRef(user: string, serial: nat)

  datatype Channel = Channel(buffer: seq<Frame>, closed: bool)

  datatype HubData = HubData(clients: map<string, ClientRef>, channels: map<ClientRef, Channel>)

  const EMPTY_CHANNEL := Channel([], false)

  function Enqueue(h: HubData, c: ClientRef, f: Frame): HubData
    requires c in h.channels
  {
    h.(channels := h.channels[c := h.channels[c].(buffer := h.channels[c].buffer + [f])])
  }

  function AddChannel(h: HubData, c: ClientRef): HubData {
    h.(channels := h.channels[c := EMPTY_CHANNEL])
  }

  function RegisterClient(h: HubData, c: ClientRef): HubData {
    h.(clients := h.clients[c.user := c])
  }

  predicate IsCurrent(h: HubData, c: ClientRef) {
    c.user in h.clients && h.clients[c.user] == c
  }

  /** A client that was replaced leaves the map alone, and its channel open. */
  function UnregisterClient(h: HubData, c: ClientRef): HubData
    requires c in h.channels
  {
    if IsCurrent(h, c)
    then HubData(h.clients - {c.user}, h.channels[c := h.channels[c].(closed := true)])
    else h
  }

  /** The oldest frame leaves the queue. */
  function Dequeue(h: HubData, c: ClientRef): HubData
    requires c in h.channels && h.channels[c].buffer != []
  {
    h.(channels := h.channels[c := h.channels[c].(buffer := h.channels[c].buffer[1..])])
  }

  /** Every mapped client belongs to its user and its channel is open. */
  ghost predicate Wired(h: HubData) {
    forall u :: u in h.clients ==>
      h.clients[u].user == u && h.clients[u] in h.channels && !h.channels[h.clients[u]].closed
  }

  predicate Online(h: HubData, u: string) {
    u in h.clients
  }

  predicate Accepts(h: HubData, u: string)
    requires Online(h, u) ==> h.clients[u] in h.channels
  {
    Online(h, u) && |h.channels[h.clients[u]].buffer| < SEND_CAPACITY
  }

  /** What a non-blocking send on a channel comes to; sending on a closed channel panics. */
  datatype PushReply = Queued | Dropped | Panicked

  function PushResult(h: HubData, c: ClientRef): PushReply
    requires c in h.channels
  {
    if h.channels[c].closed then Panicked
    else if |h.channels[c].buffer| < SEND_CAPACITY then Queued
    else Dropped
  }

  function PushStep(h: HubData, c: ClientRef, f: Frame): HubData
    requires c in h.channels
  {
    if PushResult(h, c) == Queued then Enqueue(h, c, f) else h
  }

  /** Lookup and push at one instant: the frame is dropped when the queue is full. */
  function Deliver(h: HubData, u: string, f: Frame): HubData
    requires Online(h, u) ==> h.clients[u] in h.channels
  {
    if Accepts(h, u) then Enqueue(h, h.clients[u], f) else h
  }

  /** A mapped client's channel is open, so an immediate push to it never panics. */
  lemma DeliverIsPush(h: HubData, u: string, f: Frame)
    requires Wired(h) && Online(h, u)
    ensures Deliver(h, u, f) == PushStep(h, h.clients[u], f)
    ensures Accepts(h, u) <==> PushResult(h, h.clients[u]) == Queued
    ensures PushResult(h, h.clients[u]) != Panicked
  {
  }

  lemma DeliverWired(h: HubData, u: string, f: Frame)
    requires Wired(h)
    ensures Wired(Deliver(h, u, f)) && Deliver(h, u, f).clients == h.clients
  {
  }

  /** One send per member, in the order of the membership rows. */
  function FanOut(h: HubData, members: seq<string>, exclude: string, f: Frame): (HubData, nat)
    requires Wired(h)
    decreases |members|
  {
    if members == [] then (h, 0)
    else if members[0] == exclude then FanOut(h, members[1..], exclude, f)
    else
      DeliverWired(h, members[0], f);
      var (h', n) := FanOut(Deliver(h, members[0], f), members[1..], exclude, f);
      (h', n + if Accepts(h, members[0]) then 1 else 0)
  }

  function OfflineMembers(h: HubData, members: seq<string>, exclude: string): seq<string> {
    if members == [] then []
    else
      (if members[0] != exclude && !Online(h, members[0]) then [members[0]] else [])
      + OfflineMembers(h, members[1..], exclude)
  }

  lemma FanOutNext(h: HubData, members: seq<string>, i: nat, exclude: string, f: Frame)
    requires Wired(h) && i < |members|
    ensures members[i] == exclude ==> FanOut(h, members[i..], exclude, f) == FanOut(h, members[i + 1..], exclude, f)
    ensures members[i] != exclude ==>
              var d := Deliver(h, members[i], f);
              Wired(d) &&
              FanOut(h, members[i..], exclude, f).0 == FanOut(d, members[i + 1..], exclude, f).0 &&
              FanOut(h, members[i..], exclude, f).1 ==
              FanOut(d, members[i + 1..], exclude, f).1 + if Accepts(h, members[i]) then 1 else 0
  {
    assert members[i..][0] == members[i] && members[i..][1..] == members[i + 1..];
    DeliverWired(h, members[i], f);
  }

  lemma OfflineMembersNext(h: HubData, members: seq<string>, i: nat, exclude: string)
    requires i < |members|
    ensures OfflineMembers(h, members[i..], exclude) ==
            (if members[i] != exclude && !Online(h, members[i]) then [members[i]] else [])
            + OfflineMembers(h, members[i + 1..], exclude)
  {
    assert members[i..][0] == members[i] && members[i..][1..] == members[i + 1..];
  }

  // ---------- The hub in place ----------

  class Client {
    const userID: string
    ghost const ref: ClientRef
    /** The Send channel. */
    var buffer: seq<Frame>
    var closed: bool

    constructor (userID: string, ghost serial: nat)
      ensures this.userID == userID && ref == ClientRef(userID, serial)
      ensures Channel(buffer, closed) == EMPTY_CHANNEL
    {
      this.userID := userID;
      ref := ClientRef(userID, serial);
      buffer := [];
      closed := false;
    }
  }

  class Hub {
    var clients: map<string, Client>
    /** Every client the hub has heard of, by identity. */
    ghost var Objects: map<ClientRef, Client>
    ghost var Data: HubData

    ghost predicate Valid()
      reads this, Objects.Values
    {
      && Objects.Keys == Data.channels.Keys && clients.Keys == Data.clients.Keys
      && (forall r :: r in Objects ==>
           && Objects[r].ref == r && Objects[r].userID == r.user
           && Data.channels[r] == Channel(Objects[r].buffer, Objects[r].closed))
      && (forall u :: u in clients ==>
           && Data.clients[u].user == u && Data.clients[u] in Objects
           && clients[u] == Objects[Data.clients[u]] && !clients[u].closed)
    }

    constructor ()
      ensures Valid() && Data == HubData(map[], map[]) && Objects == map[]
    {
      clients := map[];
      Objects := map[];
      Data := HubData(map[], map[]);
    }

    method NewClient(userID: string, ghost serial: nat) returns (client: Client)
      requires Valid() && ClientRef(userID, serial) !in Objects
      modifies `Objects, `Data
      ensures Valid() && clients == old(clients) && fresh(client)
      ensures client.ref == ClientRef(userID, serial) && Objects == old(Objects)[client.ref := client]
      ensures Data == AddChannel(old(Data), client.ref)
    {
      client := new Client(userID, serial);
      Objects := Objects[client.ref := client];
      Data := AddChannel(Data, client.ref);
    }

    /** The register case of the hub's loop. */
    method HandleRegister(client: Client)
      requires Valid() && client.ref in Objects && Objects[client.ref] == client && !client.closed
      modifies `clients, `Data
      ensures Valid() && Data == RegisterClient(old(Data), client.ref)
    {
      clients := clients[client.userID := client];
      Data := RegisterClient(Data, client.ref);
    }

    /** The unregister case of the hub's loop. */
    method HandleUnregister(client: Client)
      requires Valid() && client.ref in Objects && Objects[client.ref] == client
      modifies `clients, `Data, client`closed
      ensures Valid()
      ensures Data == UnregisterClient(old(Data), client.ref)
    {
      Data := UnregisterClient(Data, client.ref);
      if client.userID in clients && clients[client.userID] == client {
        clients := clients - {client.userID};
        client.closed := true;
      }
    }

    /** A handler's write to its own client's channel, once there is room. */
    method WriteOwn(client: Client, message: Frame)
      requires Valid() && client.ref in Objects && Objects[client.ref] == client
      requires !client.closed && |client.buffer| < SEND_CAPACITY
      modifies `Data, client`buffer
      ensures Valid() && Data == Enqueue(old(Data), client.ref, message)
    {
      Data := Enqueue(Data, client.ref, message);
      client.buffer := client.buffer + [message];
    }

    /** What the write pump receives: the oldest frame, or nothing once the channel is closed and drained. */
    method Receive(client: Client) returns (message: Option<Frame>)
      requires Valid() && client.ref in Objects && Objects[client.ref] == client
      requires client.closed || client.buffer != []
      modifies `Data, client`buffer
      ensures Valid()
      ensures message == if old(client.buffer) == [] then None else Some(old(client.buffer)[0])
      ensures Data == if old(client.buffer) == [] then old(Data) else Dequeue(old(Data), client.ref)
    {
      if client.buffer == [] {
        return None;
      }
      Data := Dequeue(Data, client.ref);
      message := Some(client.buffer[0]);
      client.buffer := client.buffer[1..];
    }

    method IsOnline(userID: string) returns (online: bool)
      requires Valid()
      ensures online == Online(Data, userID)
    {
      online := userID in clients;
    }

    /** The first half of a send, under the lock. */
    method Lookup(userID: string) returns (client: Client?)
      requires Valid()
      ensures if client == null then !Online(Data, userID)
              else Online(Data, userID) && Data.clients[userID] == client.ref
                   && client.ref in Objects && Objects[client.ref] == client
    {
      client := null;
      if userID in clients {
        client := clients[userID];
      }
    }

    /** The second half of a send, to a client found earlier: its channel may be closed by now. */
    method Push(client: Client, message: Frame) returns (reply: PushReply)
      requires Valid() && client.ref in Objects && Objects[client.ref] == client
      modifies `Data, client`buffer
      ensures Valid()
      ensures Data == PushStep(old(Data), client.ref, message) && reply == PushResult(old(Data), client.ref)
      ensures reply == Panicked <==> client.closed
      ensures reply == Queued <==> !client.closed && |old(client.buffer)| < 256
      ensures client.buffer == old(client.buffer) + if reply == Queued then [message] else []
    {
      Data := PushStep(Data, client.ref, message);
      if client.closed {
        return Panicked;
      }
      if |client.buffer| >= SEND_CAPACITY {
        return Dropped;
      }
      client.buffer := client.buffer + [message];
      return Queued;
    }

    /** Both halves, with no unregistration in between. */
    method SendToUser(userID: string, message: Frame) returns (sent: bool)
      requires Valid()
      modifies `Data, Objects.Values
      ensures Valid() && unchanged(`Objects, `clients)
      ensures Data == Deliver(old(Data), userID, message) && sent == Accepts(old(Data), userID)
      ensures sent <==> userID in clients && |old(clients[userID].buffer)| < 256
    {
      var client := Lookup(userID);
      if client == null {
        return false;
      }
      DeliverIsPush(Data, userID, message);
      var reply := Push(client, message);
      return reply == Queued;
    }

    method SendToGroup(members: seq<string>, excludeUserID: string, message: Frame) returns (sent: nat)
      requires Valid()
      modifies `Data, Objects.Values
      ensures Valid() && unchanged(`Objects, `clients)
      ensures (Data, sent) == FanOut(old(Data), members, excludeUserID, message)
    {
      sent := 0;
      ghost var total := FanOut(Data, members, excludeUserID, message);
      assert members[0..] == members;
      for i := 0 to |members|
        invariant Valid() && unchanged(`Objects, `clients)
        invariant FanOut(Data, members[i..], excludeUserID, message).0 == total.0
        invariant sent + FanOut(Data, members[i..], excludeUserID, message).1 == total.1
      {
        FanOutNext(Data, members, i, excludeUserID, message);
        if members[i] == excludeUserID {
          continue;
        }
        var ok := SendToUser(members[i], message);
        if ok {
          sent := sent + 1;
        }
      }
    }

    method GetOfflineGroupMemberIDs(members: seq<string>, excludeUserID: string) returns (offlineIDs: seq<string>)
      requires Valid()
      ensures offlineIDs == OfflineMembers(Data, members, excludeUserID)
    {
      offlineIDs := [];
      ghost var all := OfflineMembers(Data, members, excludeUserID);
      assert members[0..] == members;
      for i := 0 to |members|
        invariant offlineIDs + OfflineMembers(Data, members[i..], excludeUserID) == all
      {
        OfflineMembersNext(Data, members, i, excludeUserID);
        if members[i] == excludeUserID {
          continue;
        }
        if members[i] !in clients {
          offlineIDs := offlineIDs + [members[i]];
        }
      }
    }
  }
}
