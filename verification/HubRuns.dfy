/**
 The hub together with the goroutines of its clients, as a step system.

 The hub's goroutine receives one client at a time and then applies the change under its lock;
 between the two, every other goroutine may run. Each client registers, handles messages, and
 unregisters once; its write pump drains the Send channel. Any goroutine may send to any user: it
 looks the user's client up under the lock, and pushes the frame after the lock is released.
 */
module HubRuns {
  import opened Common
  import opened WebSocketHub

  /** Where a client's goroutine is: not yet registered, reading, or past its unregistration. */
  datatype Phase = Dialed | Serving | Gone

  /** What the hub's goroutine has received and not yet applied. */
  datatype Pending = Idle | Registering(c: ClientRef) | Unregistering(c: ClientRef)

  /** `inFlight` holds the client that each send has looked up and not yet pushed to. */
  datatype State = State(hub: HubData, phases: map<ClientRef, Phase>, pending: Pending, inFlight: map<nat, ClientRef>)

  datatype Event =
    | Dial(c: ClientRef)
    | ReceiveRegister(c: ClientRef)
    | ApplyRegister(c: ClientRef)
    | ReceiveUnregister(c: ClientRef)
    | ApplyUnregister(c: ClientRef)
    | Reply(c: ClientRef, frame: Frame)
    | Lookup(send: nat, user: string)
    | Push(send: nat, frame: Frame)
    | Take(c: ClientRef)

  const INIT := State(HubData(map[], map[]), map[], Idle, map[])

  /**
   A handler's write to its own channel waits while the channel is full, and the write pump waits
   while it is empty. A write to a closed channel does not wait: it panics.
   */
  predicate Enabled(s: State, e: Event) {
    match e
    case Dial(c) => c !in s.phases && c !in s.hub.channels
    case ReceiveRegister(c) => s.pending.Idle? && Phased(s, c, Dialed)
    case ApplyRegister(c) => s.pending == Registering(c)
    case ReceiveUnregister(c) => s.pending.Idle? && Phased(s, c, Serving)
    case ApplyUnregister(c) => s.pending == Unregistering(c)
    case Reply(c, _) =>
      && Phased(s, c, Serving) && c in s.hub.channels
      && (s.hub.channels[c].closed || |s.hub.channels[c].buffer| < SEND_CAPACITY)
    case Lookup(k, _) => k !in s.inFlight
    case Push(k, _) => k in s.inFlight
    case Take(c) => c in s.phases && s.phases[c] != Dialed && c in s.hub.channels && s.hub.channels[c].buffer != []
  }

  predicate Phased(s: State, c: ClientRef, p: Phase) {
    c in s.phases && s.phases[c] == p
  }

  /** A lookup that finds nobody ends the send. A push that panics leaves the hub as it is. */
  function Apply(s: State, e: Event): State
    requires Enabled(s, e)
  {
    match e
    case Dial(c) => s.(hub := AddChannel(s.hub, c), phases := s.phases[c := Dialed])
    case ReceiveRegister(c) => s.(phases := s.phases[c := Serving], pending := Registering(c))
    case ApplyRegister(c) => s.(hub := RegisterClient(s.hub, c), pending := Idle)
    case ReceiveUnregister(c) => s.(phases := s.phases[c := Gone], pending := Unregistering(c))
    case ApplyUnregister(c) =>
      s.(hub := if c in s.hub.channels then UnregisterClient(s.hub, c) else s.hub, pending := Idle)
    case Reply(c, f) => s.(hub := Enqueue(s.hub, c, f))
    case Lookup(k, u) =>
      if u in s.hub.clients then s.(inFlight := s.inFlight[k := s.hub.clients[u]]) else s
    case Push(k, f) =>
      var c := s.inFlight[k];
      s.(hub := if c in s.hub.channels then PushStep(s.hub, c, f) else s.hub, inFlight := s.inFlight - {k})
    case Take(c) => s.(hub := Dequeue(s.hub, c))
  }

  /** A Go runtime panic: sending on, or closing, a closed channel. */
  predicate Panics(s: State, e: Event) {
    match e
    case Reply(c, _) => c in s.hub.channels && s.hub.channels[c].closed
    case Push(k, _) =>
      k in s.inFlight && s.inFlight[k] in s.hub.channels && PushResult(s.hub, s.inFlight[k]) == Panicked
    case ApplyUnregister(c) => IsCurrent(s.hub, c) && c in s.hub.channels && s.hub.channels[c].closed
    case _ => false
  }

  // ---------- Runs, newest event last ----------

  ghost predicate Possible(es: seq<Event>)
    decreases |es|, 0
  {
    es == [] || (Possible(Before(es)) && Enabled(After(Before(es)), Last(es)))
  }

  ghost function After(es: seq<Event>): State
    requires Possible(es)
    decreases |es|, 1
  {
    if es == [] then INIT else Apply(After(Before(es)), Last(es))
  }

  // ---------- What the run alone says ----------

  /** The last client registered for a user. */
  function LastRegistered(es: seq<Event>, u: string): Option<ClientRef>
    decreases |es|
  {
    if es == [] then None
    else if Last(es).ApplyRegister? && Last(es).c.user == u then Some(Last(es).c)
    else LastRegistered(Before(es), u)
  }

  predicate Unregistered(es: seq<Event>, c: ClientRef) {
    ApplyUnregister(c) in es
  }

  /** The client a user is reached through. */
  function Owner(es: seq<Event>, u: string): Option<ClientRef> {
    var last := LastRegistered(es, u);
    if last.Some? && Unregistered(es, last.value) then None else last
  }

  /** The client was still its user's last one when it unregistered. */
  predicate LeftAsOwner(es: seq<Event>, c: ClientRef)
    decreases |es|
  {
    es != [] &&
    ((Last(es) == ApplyUnregister(c) && LastRegistered(es, c.user) == Some(c)) || LeftAsOwner(Before(es), c))
  }

  /** The client that a send has looked up, if it has not pushed since. */
  function LookedUp(es: seq<Event>, k: nat): Option<ClientRef>
    decreases |es|
  {
    if es == [] then None
    else
      match Last(es)
      case Lookup(k', u) => if k' == k then Owner(Before(es), u) else LookedUp(Before(es), k)
      case Push(k', _) => if k' == k then None else LookedUp(Before(es), k)
      case _ => LookedUp(Before(es), k)
  }

  /** The frames a client's channel has accepted so far, oldest first. */
  function AcceptedFrames(es: seq<Event>, c: ClientRef): seq<Frame>
    decreases |es|
  {
    if es == [] then []
    else
      var earlier := AcceptedFrames(Before(es), c);
      match Last(es)
      case Reply(c', f) => if c' == c then earlier + [f] else earlier
      case Push(k, f) =>
        if LookedUp(Before(es), k) == Some(c) && !LeftAsOwner(Before(es), c)
           && |earlier| - TakenCount(Before(es), c) < SEND_CAPACITY
        then earlier + [f] else earlier
      case _ => earlier
  }

  function TakenCount(es: seq<Event>, c: ClientRef): nat
    decreases |es|
  {
    if es == [] then 0 else TakenCount(Before(es), c) + if Last(es) == Take(c) then 1 else 0
  }

  /** The frames the write pump has taken, in order. */
  ghost function TakenFrames(es: seq<Event>, c: ClientRef): seq<Frame>
    requires Possible(es)
    decreases |es|
  {
    if es == [] then []
    else
      var earlier := TakenFrames(Before(es), c);
      if Last(es) == Take(c) then earlier + [After(Before(es)).hub.channels[c].buffer[0]] else earlier
  }

  // ---------- What every run keeps ----------

  /** A client that has registered: its goroutine is past the dial. */
  ghost predicate Known(s: State, c: ClientRef) {
    c in s.phases && s.phases[c] != Dialed
  }

  ghost predicate ClientsConsistent(s: State) {
    && (forall u :: u in s.hub.clients ==>
         && s.hub.clients[u].user == u && Known(s, s.hub.clients[u])
         && (s.phases[s.hub.clients[u]] == Gone ==> s.pending == Unregistering(s.hub.clients[u])))
    && (s.pending.Registering? ==> Phased(s, s.pending.c, Serving))
    && (s.pending.Unregistering? ==> Phased(s, s.pending.c, Gone))
  }

  ghost predicate BuffersBounded(s: State) {
    && s.phases.Keys == s.hub.channels.Keys
    && forall c :: c in s.hub.channels ==> |s.hub.channels[c].buffer| <= SEND_CAPACITY
  }

  ghost predicate ClosedAreGone(s: State) {
    forall c :: c in s.hub.channels && s.hub.channels[c].closed ==> Phased(s, c, Gone) && s.pending != Unregistering(c)
  }

  ghost predicate SendsConsistent(s: State) {
    forall k :: k in s.inFlight ==> Known(s, s.inFlight[k])
  }

  /** The step system's own bookkeeping: who has a channel, who is mapped or looked up, who has been closed. */
  ghost predicate Consistent(s: State) {
    ClientsConsistent(s) && BuffersBounded(s) && ClosedAreGone(s) && SendsConsistent(s)
  }

  lemma StepClientsConsistent(s: State, e: Event)
    requires Consistent(s) && Enabled(s, e)
    ensures ClientsConsistent(Apply(s, e))
  {
  }

  lemma StepBuffersBounded(s: State, e: Event)
    requires Consistent(s) && Enabled(s, e)
    ensures BuffersBounded(Apply(s, e))
  {
  }

  lemma StepClosedAreGone(s: State, e: Event)
    requires Consistent(s) && Enabled(s, e)
    ensures ClosedAreGone(Apply(s, e))
  {
  }

  lemma StepSendsConsistent(s: State, e: Event)
    requires Consistent(s) && Enabled(s, e)
    ensures SendsConsistent(Apply(s, e))
  {
  }

  lemma {:induction false} RunConsistent(es: seq<Event>)
    requires Possible(es)
    ensures Consistent(After(es))
    decreases |es|
  {
    if es != [] {
      RunConsistent(Before(es));
      StepClientsConsistent(After(Before(es)), Last(es));
      StepBuffersBounded(After(Before(es)), Last(es));
      StepClosedAreGone(After(Before(es)), Last(es));
      StepSendsConsistent(After(Before(es)), Last(es));
    }
  }

  /** No handler writes to a closed channel of its own, and no channel is closed twice. */
  lemma NoPanic(es: seq<Event>, e: Event)
    requires Possible(es) && Enabled(After(es), e) && !e.Push?
    ensures !Panics(After(es), e)
    ensures e.Reply? ==> !After(es).hub.channels[e.c].closed
  {
    RunConsistent(es);
  }

  // ---------- The trace theorems ----------

  lemma {:induction false} LastRegisteredUser(es: seq<Event>, u: string)
    ensures LastRegistered(es, u).Some? ==> LastRegistered(es, u).value.user == u
    decreases |es|
  {
    if es != [] {
      LastRegisteredUser(Before(es), u);
    }
  }

  lemma UnregisteredStep(es: seq<Event>, c: ClientRef)
    requires es != []
    ensures Unregistered(es, c) <==> Last(es) == ApplyUnregister(c) || Unregistered(Before(es), c)
  {
    assert es == Before(es) + [Last(es)];
  }

  /** What the history says about a client that has registered, or unregistered. */
  lemma {:induction false} HistoryAndPhases(es: seq<Event>, c: ClientRef)
    requires Possible(es)
    ensures var s := After(es);
            && (LastRegistered(es, c.user) == Some(c) ==> c in s.phases && s.phases[c] != Dialed)
            && (Unregistered(es, c) ==> Phased(s, c, Gone) && s.pending != Unregistering(c))
    decreases |es|
  {
    if es != [] {
      HistoryAndPhases(Before(es), c);
      RunConsistent(Before(es));
      UnregisteredStep(es, c);
    }
  }

  /** Only registrations for a user and the owner's unregistration change who the owner is. */
  lemma OwnerNext(es: seq<Event>, u: string)
    requires es != []
    ensures Owner(es, u) ==
            var e, before := Last(es), Owner(Before(es), u);
            if e.ApplyRegister? && e.c.user == u then (if Unregistered(Before(es), e.c) then None else Some(e.c))
            else if e.ApplyUnregister? && before == Some(e.c) then None
            else before
  {
    var last := LastRegistered(es, u);
    if last.Some? {
      UnregisteredStep(es, last.value);
    }
  }

  /**
   After any run a user is mapped to the last client registered for them, provided that client has
   not unregistered, and to nothing otherwise.
   */
  lemma {:induction false} MappedIsOwner(es: seq<Event>, u: string)
    requires Possible(es)
    ensures var clients := After(es).hub.clients;
            (if u in clients then Some(clients[u]) else None) == Owner(es, u)
    decreases |es|
  {
    if es != [] {
      MappedIsOwner(Before(es), u);
      OwnerNext(es, u);
      RunConsistent(Before(es));
      LastRegisteredUser(Before(es), u);
      if Last(es).ApplyRegister? {
        HistoryAndPhases(Before(es), Last(es).c);
      }
    }
  }

  /** A stale unregister never removes a newer connection, nor closes any channel. */
  lemma StaleUnregister(es: seq<Event>, c: ClientRef)
    requires Possible(es) && es != [] && Last(es) == ApplyUnregister(c)
    requires LastRegistered(Before(es), c.user) != Some(c)
    ensures After(es).hub == After(Before(es)).hub
  {
    MappedIsOwner(Before(es), c.user);
    RunConsistent(Before(es));
  }

  /** A Send channel is closed exactly when its client unregistered while still its user's last. */
  lemma {:induction false} ClosedIffLeftAsOwner(es: seq<Event>, c: ClientRef)
    requires Possible(es)
    ensures c in After(es).hub.channels && After(es).hub.channels[c].closed <==> LeftAsOwner(es, c)
    decreases |es|
  {
    if es != [] {
      ClosedIffLeftAsOwner(Before(es), c);
      RunConsistent(Before(es));
      if Last(es) == ApplyUnregister(c) {
        MappedIsOwner(Before(es), c.user);
        if LastRegistered(Before(es), c.user) == Some(c) {
          HistoryAndPhases(Before(es), c);
        }
      }
    }
  }

  // ---------- Sends whose client unregisters between lookup and push ----------

  /** What a send has in flight is what its lookup found. */
  lemma {:induction false} InFlightIsLookedUp(es: seq<Event>, k: nat)
    requires Possible(es)
    ensures var inFlight := After(es).inFlight;
            (if k in inFlight then Some(inFlight[k]) else None) == LookedUp(es, k)
    decreases |es|
  {
    if es != [] {
      InFlightIsLookedUp(Before(es), k);
      if Last(es).Lookup? {
        MappedIsOwner(Before(es), Last(es).user);
      }
    }
  }

  /**
   A push panics exactly when the client that its lookup found has unregistered as its user's last
   one, whatever happened in between; the runtime checks this before it checks for room.
   */
  lemma PushPanicsIff(es: seq<Event>, k: nat, f: Frame)
    requires Possible(es) && Enabled(After(es), Push(k, f))
    ensures LookedUp(es, k).Some?
    ensures Panics(After(es), Push(k, f)) <==> LeftAsOwner(es, LookedUp(es, k).value)
  {
    InFlightIsLookedUp(es, k);
    RunConsistent(es);
    ClosedIffLeftAsOwner(es, LookedUp(es, k).value);
  }

  /** A lookup only finds clients whose channel is open, so what makes the push panic comes after it. */
  lemma LookupFindsOpen(es: seq<Event>, k: nat)
    requires Possible(es) && es != [] && Last(es).Lookup? && Last(es).send == k && LookedUp(es, k).Some?
    ensures !LeftAsOwner(es, LookedUp(es, k).value)
  {
    InFlightIsLookedUp(es, k);
    RunConsistent(es);
    RunConsistent(Before(es));
    ClosedIffLeftAsOwner(es, LookedUp(es, k).value);
  }

  /** One more event. */
  lemma Extend(es: seq<Event>, e: Event)
    requires Possible(es) && Enabled(After(es), e)
    ensures Possible(es + [e]) && After(es + [e]) == Apply(After(es), e)
  {
    assert Before(es + [e]) == es;
  }

  const BOB := ClientRef("bob", 0)

  /** A run in which the hub closes a channel between a sender's lookup and its push. */
  lemma UnregisteredDuringSend(f: Frame)
    ensures var es := [Dial(BOB), ReceiveRegister(BOB), ApplyRegister(BOB), Lookup(0, "bob"),
                       ReceiveUnregister(BOB), ApplyUnregister(BOB)];
            Possible(es) && Enabled(After(es), Push(0, f)) && Panics(After(es), Push(0, f))
  {
    var e0, e1, e2 := Dial(BOB), ReceiveRegister(BOB), ApplyRegister(BOB);
    var e3, e4, e5 := Lookup(0, "bob"), ReceiveUnregister(BOB), ApplyUnregister(BOB);
    Extend([], e0);
    assert [e0] == [] + [e0];
    Extend([e0], e1);
    assert [e0, e1] == [e0] + [e1];
    Extend([e0, e1], e2);
    assert [e0, e1, e2] == [e0, e1] + [e2];
    Extend([e0, e1, e2], e3);
    assert [e0, e1, e2, e3] == [e0, e1, e2] + [e3];
    Extend([e0, e1, e2, e3], e4);
    assert [e0, e1, e2, e3, e4] == [e0, e1, e2, e3] + [e4];
    Extend([e0, e1, e2, e3, e4], e5);
    assert [e0, e1, e2, e3, e4, e5] == [e0, e1, e2, e3, e4] + [e5];
  }

  // ---------- The channel as a queue ----------

  function BufferOf(h: HubData, c: ClientRef): seq<Frame> {
    if c in h.channels then h.channels[c].buffer else []
  }

  /** What the last step of a run did to one buffer. */
  lemma BufferStep(es: seq<Event>, c: ClientRef)
    requires Possible(es) && es != []
    ensures var buffer := BufferOf(After(Before(es)).hub, c);
            BufferOf(After(es).hub, c) ==
            match Last(es)
            case Reply(c', f) => if c' == c then buffer + [f] else buffer
            case Push(k, f) =>
              if LookedUp(Before(es), k) == Some(c) && !LeftAsOwner(Before(es), c) && |buffer| < SEND_CAPACITY
              then buffer + [f] else buffer
            case Take(c') => if c' == c then buffer[1..] else buffer
            case _ => buffer
  {
    RunConsistent(Before(es));
    if Last(es).Push? {
      InFlightIsLookedUp(Before(es), Last(es).send);
      ClosedIffLeftAsOwner(Before(es), c);
    }
  }

  lemma BufferBounded(es: seq<Event>, c: ClientRef)
    requires Possible(es)
    ensures |BufferOf(After(es).hub, c)| <= SEND_CAPACITY
  {
    RunConsistent(es);
  }

  /**
   The Send channel is a first-in first-out queue: what the write pump took, followed by what is
   still buffered, is what was accepted, in order.
   */
  lemma {:induction false} ChannelIsFifo(es: seq<Event>, c: ClientRef)
    requires Possible(es)
    ensures TakenFrames(es, c) + BufferOf(After(es).hub, c) == AcceptedFrames(es, c)
    ensures |TakenFrames(es, c)| == TakenCount(es, c)
    decreases |es|
  {
    if es != [] {
      ChannelIsFifo(Before(es), c);
      BufferStep(es, c);
      var taken, buffer := TakenFrames(Before(es), c), BufferOf(After(Before(es)).hub, c);
      match Last(es)
      case Push(_, f) =>
        assert taken + (buffer + [f]) == taken + buffer + [f];
      case Reply(_, f) =>
        assert taken + (buffer + [f]) == taken + buffer + [f];
      case Take(c') =>
        if c' == c {
          assert taken + [buffer[0]] + buffer[1..] == taken + buffer;
        }
      case _ =>
    }
  }
}
