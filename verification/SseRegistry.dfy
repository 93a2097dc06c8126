/**
 The registry of event-stream subscribers.  Joining and leaving hold the write lock, a broadcast holds the read
 lock from its first to its last send, so any number of broadcasts may interleave with each other and with
 receiving subscribers, but none with a change of the registry.
 */
module SseRegistry {
  import opened WakeProxy

  const CAPACITY := 10

  /** Where the handler of a subscriber is: `Streaming` is the only stage in which it is registered. */
  datatype Stage = Created | Streaming | Removed | Closed

  /** One send that was attempted: by which broadcast, of what, and how full the buffer was. */
  datatype Offer = Offer(broadcast: nat, item: WakeStatus, backlog: nat)

  /** `offers` is the history of attempts; it plays no part in what the channel does. */
  datatype Channel = Channel(stage: Stage, buffer: seq<WakeStatus>, delivered: seq<WakeStatus>, offers: seq<Offer>)

  const NEW_CHANNEL := Channel(Created, [], [], [])

  /** A broadcast under way: clients not yet reached by its loop. */
  datatype Broadcast = Broadcast(status: WakeStatus, pending: set<nat>)

  datatype Registry = Registry(
    channels: map<nat, Channel>,
    clients: set<nat>,
    broadcasts: map<nat, Broadcast>,
    started: set<nat>,
    panicked: bool)

  const EMPTY := Registry(map[], {}, map[], {}, false)

  datatype Event =
    | Create(c: nat)
    | Join(c: nat)
    | Receive(c: nat)
    | Leave(c: nat)
    | Close(c: nat)
    | Begin(b: nat, status: WakeStatus)
    | Send(b: nat, to: nat)
    | End(b: nat)

  /** A send that never blocks: the item is dropped when the buffer is full. */
  function Offered(ch: Channel, b: nat, item: WakeStatus): Channel {
    var offers := ch.offers + [Offer(b, item, |ch.buffer|)];
    if |ch.buffer| < CAPACITY then ch.(buffer := ch.buffer + [item], offers := offers) else ch.(offers := offers)
  }

  function Received(ch: Channel): Channel
    requires ch.buffer != []
  {
    ch.(buffer := ch.buffer[1..], delivered := ch.delivered + [ch.buffer[0]])
  }

  predicate InStage(r: Registry, c: nat, stage: Stage) {
    c in r.channels && r.channels[c].stage == stage
  }

  predicate Enabled(r: Registry, e: Event) {
    match e
    case Create(c) => c !in r.channels
    case Join(c) => InStage(r, c, Created) && r.broadcasts == map[]
    case Receive(c) => InStage(r, c, Streaming) && r.channels[c].buffer != []
    case Leave(c) => InStage(r, c, Streaming) && r.broadcasts == map[]
    case Close(c) => InStage(r, c, Removed)
    case Begin(b, _) => b !in r.started
    case Send(b, c) => b in r.broadcasts && c in r.broadcasts[b].pending
    case End(b) => b in r.broadcasts && r.broadcasts[b].pending == {}
  }

  function Staged(r: Registry, c: nat, stage: Stage): map<nat, Channel>
    requires c in r.channels
  {
    r.channels[c := r.channels[c].(stage := stage)]
  }

  function Next(r: Registry, e: Event): Registry
    requires Enabled(r, e)
  {
    match e
    case Create(c) => r.(channels := r.channels[c := NEW_CHANNEL])
    case Join(c) => r.(channels := Staged(r, c, Streaming), clients := r.clients + {c})
    case Receive(c) => r.(channels := r.channels[c := Received(r.channels[c])])
    case Leave(c) => r.(channels := Staged(r, c, Removed), clients := r.clients - {c})
    case Close(c) => r.(channels := Staged(r, c, Closed))
    case Begin(b, status) =>
      r.(broadcasts := r.broadcasts[b := Broadcast(status, r.clients)], started := r.started + {b})
    case Send(b, c) =>
      var rest := r.broadcasts[b].(pending := r.broadcasts[b].pending - {c});
      if c !in r.channels || r.channels[c].stage == Closed then r.(panicked := true)
      else r.(channels := r.channels[c := Offered(r.channels[c], b, r.broadcasts[b].status)],
              broadcasts := r.broadcasts[b := rest])
    case End(b) => r.(broadcasts := r.broadcasts - {b})
  }

  ghost predicate Linked(rs: seq<Registry>, es: seq<Event>, i: nat)
    requires |rs| == |es| + 1 && i < |es|
  {
    Enabled(rs[i], es[i]) && rs[i + 1] == Next(rs[i], es[i])
  }

  ghost predicate IsRun(rs: seq<Registry>, es: seq<Event>) {
    |rs| == |es| + 1 && rs[0] == EMPTY && forall i | 0 <= i < |es| :: Linked(rs, es, i)
  }

  // ------------------------------------------------------------ what a subscriber gets

  /** The attempted items that found room. */
  function Kept(offers: seq<Offer>): seq<WakeStatus> {
    if offers == [] then [] else
    var last := offers[|offers| - 1];
    Kept(offers[..|offers| - 1]) + if last.backlog < CAPACITY then [last.item] else []
  }

  function Items(offers: seq<Offer>): seq<WakeStatus> {
    seq(|offers|, i requires 0 <= i < |offers| => offers[i].item)
  }

  /** How often broadcast `b` has attempted this channel. */
  function Attempts(offers: seq<Offer>, b: nat): nat {
    if offers == [] then 0 else
    Attempts(offers[..|offers| - 1], b) + if offers[|offers| - 1].broadcast == b then 1 else 0
  }

  lemma OffersSnoc(offers: seq<Offer>, o: Offer)
    ensures Kept(offers + [o]) == Kept(offers) + if o.backlog < CAPACITY then [o.item] else []
    ensures forall b :: Attempts(offers + [o], b) == Attempts(offers, b) + if o.broadcast == b then 1 else 0
  {
    assert (offers + [o])[..|offers|] == offers;
  }

  ghost predicate ChannelOk(ch: Channel) {
    && |ch.buffer| <= CAPACITY
    && ch.delivered + ch.buffer == Kept(ch.offers)
    && (forall i | 0 <= i < |ch.offers| :: ch.offers[i].backlog <= CAPACITY)
  }

  /** Broadcast `b` has attempted each client that it has passed once, and nobody else. */
  ghost predicate Reached(r: Registry, b: nat)
    requires b in r.broadcasts
  {
    && r.broadcasts[b].pending <= r.clients
    && forall c | c in r.channels ::
         Attempts(r.channels[c].offers, b) == if c in r.clients && c !in r.broadcasts[b].pending then 1 else 0
  }

  ghost predicate Unstarted(r: Registry, b: nat) {
    forall c | c in r.channels :: Attempts(r.channels[c].offers, b) == 0
  }

  ghost predicate RegistryOk(r: Registry) {
    && !r.panicked
    && (forall c :: c in r.clients <==> InStage(r, c, Streaming))
    && (forall c | c in r.channels :: ChannelOk(r.channels[c]))
    && r.broadcasts.Keys <= r.started
    && (forall b | b in r.broadcasts :: Reached(r, b))
    && (forall b: nat | b !in r.started :: Unstarted(r, b))
  }

  lemma OfferedOk(ch: Channel, b: nat, item: WakeStatus)
    requires ChannelOk(ch)
    ensures ChannelOk(Offered(ch, b, item))
    ensures forall x :: Attempts(Offered(ch, b, item).offers, x) == Attempts(ch.offers, x) + if x == b then 1 else 0
  {
    var o := Offer(b, item, |ch.buffer|);
    OffersSnoc(ch.offers, o);
    var after := Offered(ch, b, item);
    forall i | 0 <= i < |after.offers|
      ensures after.offers[i].backlog <= CAPACITY
    {
      assert after.offers[i] == if i < |ch.offers| then ch.offers[i] else o;
    }
  }

  lemma ReceivedOk(ch: Channel)
    requires ChannelOk(ch) && ch.buffer != []
    ensures ChannelOk(Received(ch))
  {
    assert ch.buffer == [ch.buffer[0]] + ch.buffer[1..];
  }

  lemma SendFindsClient(r: Registry, b: nat, c: nat)
    requires RegistryOk(r) && Enabled(r, Send(b, c))
    ensures c in r.clients && InStage(r, c, Streaming)
  {
    assert Reached(r, b);
  }

  /** The attempts of broadcast `x` on one channel, after a send of broadcast `b`. */
  lemma AttemptsAfterSend(r: Registry, b: nat, c: nat, x: nat, y: nat)
    requires Enabled(r, Send(b, c)) && InStage(r, c, Streaming) && ChannelOk(r.channels[c]) && y in r.channels
    ensures var t := Next(r, Send(b, c));
            && y in t.channels
            && Attempts(t.channels[y].offers, x) ==
               Attempts(r.channels[y].offers, x) + if y == c && x == b then 1 else 0
  {
    OfferedOk(r.channels[c], b, r.broadcasts[b].status);
  }

  lemma SendKeepsReached(r: Registry, b: nat, c: nat, x: nat)
    requires Enabled(r, Send(b, c)) && InStage(r, c, Streaming) && ChannelOk(r.channels[c]) && c in r.clients
    requires x in r.broadcasts && Reached(r, x)
    ensures var t := Next(r, Send(b, c)); x in t.broadcasts && Reached(t, x)
  {
    var t := Next(r, Send(b, c));
    forall y | y in t.channels
      ensures Attempts(t.channels[y].offers, x) == if y in t.clients && y !in t.broadcasts[x].pending then 1 else 0
    {
      AttemptsAfterSend(r, b, c, x, y);
    }
  }

  lemma SendKeepsOk(r: Registry, b: nat, c: nat)
    requires RegistryOk(r) && Enabled(r, Send(b, c))
    ensures RegistryOk(Next(r, Send(b, c)))
  {
    var t := Next(r, Send(b, c));
    SendFindsClient(r, b, c);
    OfferedOk(r.channels[c], b, r.broadcasts[b].status);
    forall x | x in t.broadcasts
      ensures Reached(t, x)
    {
      SendKeepsReached(r, b, c, x);
    }
    forall x: nat | x !in t.started
      ensures Unstarted(t, x)
    {
      assert Unstarted(r, x);
    }
  }

  /** Steps that touch one channel without sending, and leave the registry and the histories as they are. */
  lemma LocalKeepsOk(r: Registry, c: nat, ch: Channel)
    requires RegistryOk(r) && ChannelOk(ch)
    requires if c in r.channels then ch.offers == r.channels[c].offers && (ch.stage == Streaming <==> c in r.clients)
             else ch == NEW_CHANNEL
    ensures RegistryOk(r.(channels := r.channels[c := ch]))
  {
    var t := r.(channels := r.channels[c := ch]);
    forall x | x in t.broadcasts
      ensures Reached(t, x)
    {
      assert Reached(r, x);
    }
    forall x: nat | x !in t.started
      ensures Unstarted(t, x)
    {
      assert Unstarted(r, x);
    }
  }

  lemma LockedKeepsOk(r: Registry, e: Event)
    requires RegistryOk(r) && Enabled(r, e) && (e.Join? || e.Leave?)
    ensures RegistryOk(Next(r, e))
  {
    var t := Next(r, e);
    forall x: nat | x !in t.started
      ensures Unstarted(t, x)
    {
      assert Unstarted(r, x);
    }
  }

  lemma BeginKeepsOk(r: Registry, b: nat, status: WakeStatus)
    requires RegistryOk(r) && b !in r.started
    ensures RegistryOk(Next(r, Begin(b, status)))
  {
    var t := Next(r, Begin(b, status));
    assert Unstarted(r, b);
    forall x | x in t.broadcasts
      ensures Reached(t, x)
    {
      assert x != b ==> Reached(r, x);
    }
    forall x: nat | x !in t.started
      ensures Unstarted(t, x)
    {
      assert Unstarted(r, x);
    }
  }

  lemma EndKeepsOk(r: Registry, b: nat)
    requires RegistryOk(r) && Enabled(r, End(b))
    ensures RegistryOk(Next(r, End(b)))
  {
    var t := Next(r, End(b));
    forall x | x in t.broadcasts
      ensures Reached(t, x)
    {
      assert Reached(r, x);
    }
    forall x: nat | x !in t.started
      ensures Unstarted(t, x)
    {
      assert Unstarted(r, x);
    }
  }

  lemma NextKeepsOk(r: Registry, e: Event)
    requires RegistryOk(r) && Enabled(r, e)
    ensures RegistryOk(Next(r, e))
  {
    match e
    case Create(c) => LocalKeepsOk(r, c, NEW_CHANNEL);
    case Join(_) => LockedKeepsOk(r, e);
    case Leave(_) => LockedKeepsOk(r, e);
    case Receive(c) =>
      ReceivedOk(r.channels[c]);
      LocalKeepsOk(r, c, Received(r.channels[c]));
    case Close(c) => LocalKeepsOk(r, c, r.channels[c].(stage := Closed));
    case Begin(b, status) => BeginKeepsOk(r, b, status);
    case Send(b, c) => SendKeepsOk(r, b, c);
    case End(b) => EndKeepsOk(r, b);
  }

  lemma {:induction false} RunOk(rs: seq<Registry>, es: seq<Event>, i: nat)
    requires IsRun(rs, es) && i < |rs|
    ensures RegistryOk(rs[i])
  {
    if i > 0 {
      RunOk(rs, es, i - 1);
      assert Linked(rs, es, i - 1);
      NextKeepsOk(rs[i - 1], es[i - 1]);
    }
  }

  // ------------------------------------------------------------ the theorems

  /** In no interleaving does a send hit a closed channel. */
  lemma NeverSendsToClosed(rs: seq<Registry>, es: seq<Event>, i: nat)
    requires IsRun(rs, es) && i < |es| && es[i].Send?
    ensures InStage(rs[i], es[i].to, Streaming) && es[i].to in rs[i].clients && !rs[i + 1].panicked
  {
    RunOk(rs, es, i);
    RunOk(rs, es, i + 1);
    assert Linked(rs, es, i) && Reached(rs[i], es[i].b);
  }

  ghost predicate IsSubsequence(a: seq<WakeStatus>, b: seq<WakeStatus>) {
    if a == [] then true
    else b != [] && (IsSubsequence(a, b[..|b| - 1]) ||
                     (a[|a| - 1] == b[|b| - 1] && IsSubsequence(a[..|a| - 1], b[..|b| - 1])))
  }

  lemma {:induction false} KeptIsSubsequence(offers: seq<Offer>)
    ensures IsSubsequence(Kept(offers), Items(offers))
    ensures (forall i | 0 <= i < |offers| :: offers[i].backlog < CAPACITY) ==> Kept(offers) == Items(offers)
  {
    if offers != [] {
      var front, last := offers[..|offers| - 1], offers[|offers| - 1];
      KeptIsSubsequence(front);
      assert Items(offers) == Items(front) + [last.item];
      assert Items(offers)[..|offers| - 1] == Items(front);
      if last.backlog < CAPACITY {
        assert Kept(offers)[..|Kept(offers)| - 1] == Kept(front);
      } else {
        assert Kept(offers) == Kept(front);
      }
    }
  }

  /**
   In every interleaving a subscriber's delivered and buffered items are the attempted ones, in order, without
   exactly those that found ten items waiting; at most ten wait at any time.
   */
  lemma SubscriberGetsWhatFits(rs: seq<Registry>, es: seq<Event>, i: nat, c: nat)
    requires IsRun(rs, es) && i < |rs| && c in rs[i].channels
    ensures var ch := rs[i].channels[c];
            && |ch.buffer| <= 10
            && ch.delivered + ch.buffer == Kept(ch.offers)
            && IsSubsequence(ch.delivered + ch.buffer, Items(ch.offers))
            && (forall j | 0 <= j < |ch.offers| :: ch.offers[j].backlog <= 10)
            && ((forall j | 0 <= j < |ch.offers| :: ch.offers[j].backlog != 10) ==>
                  ch.delivered + ch.buffer == Items(ch.offers))
  {
    RunOk(rs, es, i);
    assert ChannelOk(rs[i].channels[c]);
    KeptIsSubsequence(rs[i].channels[c].offers);
  }

  /** A broadcast that ends has attempted every registered subscriber exactly once, and no one else. */
  lemma BroadcastReachesAll(rs: seq<Registry>, es: seq<Event>, i: nat, c: nat)
    requires IsRun(rs, es) && i < |es| && es[i].End? && c in rs[i].channels
    ensures Attempts(rs[i].channels[c].offers, es[i].b) == if c in rs[i].clients then 1 else 0
  {
    RunOk(rs, es, i);
    assert Linked(rs, es, i) && Reached(rs[i], es[i].b);
  }

  lemma {:induction false} StaysRegistered(rs: seq<Registry>, es: seq<Event>, j: nat, i: nat, c: nat)
    requires IsRun(rs, es) && j < i < |rs| && es[j] == Join(c)
    requires forall k | j < k < i :: es[k] != Leave(c)
    ensures c in rs[i].clients
  {
    assert Linked(rs, es, i - 1);
    if j < i - 1 {
      StaysRegistered(rs, es, j, i - 1, c);
    }
  }

  /** A subscriber that joined before a broadcast began and has not left when it ends was sent it exactly once. */
  lemma SubscriberIsSentOnce(rs: seq<Registry>, es: seq<Event>, j: nat, e: nat, c: nat)
    requires IsRun(rs, es) && j < e < |es| && es[j] == Join(c) && es[e].End?
    requires forall k | j < k < e :: es[k] != Leave(c)
    ensures c in rs[e].channels && Attempts(rs[e].channels[c].offers, es[e].b) == 1
  {
    StaysRegistered(rs, es, j, e, c);
    RunOk(rs, es, e);
    assert InStage(rs[e], c, Streaming);
    BroadcastReachesAll(rs, es, e, c);
  }

  ghost predicate Began(es: seq<Event>, i: nat, b: nat, status: WakeStatus) {
    exists k :: 0 <= k < i && k < |es| && es[k] == Begin(b, status)
  }

  ghost predicate Genuine(r: Registry, es: seq<Event>, i: nat) {
    && (forall b | b in r.broadcasts :: Began(es, i, b, r.broadcasts[b].status))
    && forall c, p | c in r.channels && 0 <= p < |r.channels[c].offers| ::
         Began(es, i, r.channels[c].offers[p].broadcast, r.channels[c].offers[p].item)
  }

  lemma BeganStays(es: seq<Event>, i: nat, b: nat, status: WakeStatus)
    requires Began(es, i, b, status)
    ensures Began(es, i + 1, b, status)
  {
    var k :| 0 <= k < i && k < |es| && es[k] == Begin(b, status);
  }

  /** Everything that a subscriber is ever sent is the status of a broadcast that has begun. */
  lemma {:induction false} OffersAreGenuine(rs: seq<Registry>, es: seq<Event>, i: nat)
    requires IsRun(rs, es) && i < |rs|
    ensures Genuine(rs[i], es, i)
  {
    if i > 0 {
      OffersAreGenuine(rs, es, i - 1);
      assert Linked(rs, es, i - 1);
      GenuineStep(rs[i - 1], es, i - 1);
    }
  }

  lemma GenuineStep(r: Registry, es: seq<Event>, i: nat)
    requires i < |es| && Enabled(r, es[i]) && Genuine(r, es, i)
    ensures Genuine(Next(r, es[i]), es, i + 1)
  {
    var t := Next(r, es[i]);
    forall b | b in t.broadcasts
      ensures Began(es, i + 1, b, t.broadcasts[b].status)
    {
      if b in r.broadcasts && t.broadcasts[b].status == r.broadcasts[b].status {
        BeganStays(es, i, b, t.broadcasts[b].status);
      } else {
        assert es[i] == Begin(b, t.broadcasts[b].status);
      }
    }
    forall c, p | c in t.channels && 0 <= p < |t.channels[c].offers|
      ensures Began(es, i + 1, t.channels[c].offers[p].broadcast, t.channels[c].offers[p].item)
    {
      if c in r.channels && p < |r.channels[c].offers| {
        BeganStays(es, i, r.channels[c].offers[p].broadcast, r.channels[c].offers[p].item);
      } else {
        BeganStays(es, i, es[i].b, r.broadcasts[es[i].b].status);
      }
    }
  }

  // ------------------------------------------------------------ the loop of a broadcast

  /** The registry fields of the proxy, as one broadcast sees them when no other thread gets in between. */
  class Subscribers {
    var channels: map<nat, Channel>
    var sseClients: set<nat>

    constructor ()
      ensures channels == map[] && sseClients == {}
    {
      channels, sseClients := map[], {};
    }

    ghost predicate Valid()
      reads this
    {
      forall c | c in sseClients :: c in channels && channels[c].stage == Streaming
    }

    /** Offers the status to every client, in whatever order the map yields them. */
    method BroadcastStatus(b: nat, status: WakeStatus)
      requires Valid()
      modifies this`channels
      ensures Valid() && channels.Keys == old(channels.Keys)
      ensures forall c | c in channels ::
                channels[c] == if c in sseClients then Offered(old(channels)[c], b, status) else old(channels)[c]
    {
      var remaining := sseClients;
      while remaining != {}
        invariant remaining <= sseClients && Valid() && channels.Keys == old(channels.Keys)
        invariant forall c | c in channels ::
            channels[c] == if c in sseClients && c !in remaining then Offered(old(channels)[c], b, status)
                           else old(channels)[c]
      {
        var c :| c in remaining;
        remaining := remaining - {c};
        channels := channels[c := Offered(channels[c], b, status)];
      }
    }
  }
}
