/**
  One interception engine instance, bound to one plugin and one host server.

  The instance owns four stages, all tagged with its instance number:
  the listener stage (prepended to every listening socket's pipeline), the
  init stage (appended to every connection's pipeline), and the inbound and
  outbound stages (installed by the init stage, right before the host's
  packet handler, under the instance's two stage ids). Besides the stages it
  keeps three caches: remote address -> pending channel, channel -> wrapper,
  player UUID -> channel.
 */
module Protocol {
  import opened Wrappers
  import opened Pipelines
  import opened StageIds
  import opened Connections
  import opened Stages
  import opened Host

  /** The IP address of a remote peer. */
  type Address = string

  /**
    Every listening pipeline holds the listener stage `s` at most once, and
    not at all while the instance is idle.
   */
  ghost predicate ListenerStageBounded(listeners: seq<Channel>, pipes: map<Channel, Pipeline>, s: Stage, active: bool) {
    && (forall c :: c in listeners ==> multiset(Get(pipes, c))[s] <= 1)
    && (!active ==> forall c :: c in listeners ==> s !in Get(pipes, c))
  }

  /** An edit of one pipeline that keeps its copies of the listener stage keeps the bound. */
  lemma ListenerStageBoundedAfterEdit(listeners: seq<Channel>, pipes: map<Channel, Pipeline>, s: Stage, active: bool, c: Channel, q: Pipeline)
    requires ListenerStageBounded(listeners, pipes, s, active)
    requires multiset(q)[s] == multiset(Get(pipes, c))[s]
    ensures ListenerStageBounded(listeners, pipes[c := q], s, active)
  {
    assert forall d :: Get(pipes[c := q], d) == if d == c then q else Get(pipes, d);
  }

  /**
    A strict listener sweep cut off after the first k sockets keeps the
    bound; one that covered every socket leaves the stage in none of them.
   */
  lemma StripPrefixKeepsBound(listeners: seq<Channel>, pipes: map<Channel, Pipeline>, s: Stage, k: nat)
    requires Distinct(listeners) && k <= |listeners|
    requires ListenerStageBounded(listeners, pipes, s, true)
    ensures ListenerStageBounded(listeners, ForEach(pipes, listeners[..k], Strip(s)), s, k < |listeners|)
  {
    var q := ForEach(pipes, listeners[..k], Strip(s));
    forall c | c in listeners
      ensures multiset(Get(q, c))[s] <= 1
      ensures k == |listeners| ==> s !in Get(q, c)
    {
      ForEachPrefixAt(pipes, listeners, k, Strip(s), c);
      RemoveContents(Get(pipes, c), s);
      if k == |listeners| {
        assert listeners[..k] == listeners;
        RemoveSoleCopy(Get(pipes, c), s);
      }
    }
  }

  /**
    A connection sweep, whole or cut off at connection k (which may then
    be edited differently), does not touch a listening pipeline, so it
    keeps the bound.
   */
  lemma ConnectionSweepSparesListeners(listeners: seq<Channel>, conns: seq<Channel>, pipes: map<Channel, Pipeline>,
                                       q: map<Channel, Pipeline>, s: Stage, active: bool, e: Edit, whole: bool, k: nat)
    requires Distinct(conns) && forall c :: c in listeners ==> c !in conns
    requires ListenerStageBounded(listeners, pipes, s, active)
    requires whole ==> q == ForEach(pipes, conns, e)
    requires !whole ==> k < |conns| && forall d :: d != conns[k] ==> Get(q, d) == Get(ForEach(pipes, conns[..k], e), d)
    ensures ListenerStageBounded(listeners, q, s, active)
  {
    forall c | c in listeners
      ensures Get(q, c) == Get(pipes, c)
    {
      if whole {
        ForEachAt(pipes, conns, e, c);
      } else {
        ForEachPrefixAt(pipes, conns, k, e, c);
      }
    }
  }

  /**
    A full listener sweep leaves the connection pipelines as they were, so
    what the connection sweep that follows finds and does can be stated
    against the pipelines from before both sweeps.
   */
  lemma SweepsCompose(listeners: seq<Channel>, conns: seq<Channel>, p0: map<Channel, Pipeline>,
                      p1: map<Channel, Pipeline>, p2: map<Channel, Pipeline>,
                      l: Stage, i: Stage, o: Stage, ok: bool, k: nat)
    requires Distinct(listeners) && forall c :: c in listeners ==> c !in conns
    requires p1 == ForEach(p0, listeners, Strip(l))
    requires ok <==> forall c :: c in conns ==> i in Get(p1, c) && o in Get(p1, c)
    requires ok ==> p2 == ForEach(p1, conns, StripBoth(i, o))
    requires !ok ==>
               k < |conns|
               && var c := conns[k];
                  && !(i in Get(p1, c) && o in Get(p1, c))
                  && forall d :: Get(p2, d) ==
                       if d == c then RemoveIfPresent(Get(p1, c), i)
                       else Get(ForEach(p1, conns[..k], StripBoth(i, o)), d)
    ensures ok <==> forall c :: c in conns ==> i in Get(p0, c) && o in Get(p0, c)
    ensures ok ==> p2 == ForEach(ForEach(p0, listeners, Strip(l)), conns, StripBoth(i, o))
    ensures !ok ==>
              k < |conns|
              && var c := conns[k];
                 && !(i in Get(p0, c) && o in Get(p0, c))
                 && forall d :: Get(p2, d) ==
                      if d == c then RemoveIfPresent(Get(p0, c), i)
                      else Get(ForEach(ForEach(p0, listeners, Strip(l)), conns[..k], StripBoth(i, o)), d)
  {
    forall c | c in conns
      ensures Get(p1, c) == Get(p0, c)
    {
      ForEachAt(p0, listeners, Strip(l), c);
    }
  }

  /** The process-wide counter that numbers instances. */
  class StageIdCounter {
    var value: nat

    constructor ()
      ensures value == 0
    {
      value := 0;
    }
  }

  class TinierProtocol {
    const server: Server
    const pluginName: string
    const uniquifier: nat
    const packetInId: string
    const packetOutId: string

    var hasBegun: bool
    var inHandler: Option<Handler>
    var outHandler: Option<Handler>
    var addressMap: map<Address, Channel>
    var connectionMap: map<Channel, ClientConnection>
    var playerMap: map<Uuid, Channel>

    function ListenerStage(): Stage {
      ListenerInit(uniquifier)
    }

    function InitStage(): Stage {
      ConnectionInit(uniquifier)
    }

    function InStage(): Stage {
      PacketIn(packetInId)
    }

    function OutStage(): Stage {
      PacketOut(packetOutId)
    }

    /**
      The instance's invariant: the host's own guarantees hold, the stage ids
      are the ones the constructor derives, every cached wrapper wraps the
      channel it is cached under, and every listening pipeline holds the
      listener stage at most once, and not at all while the instance is idle.
     */
    ghost predicate Valid()
      reads this, server
    {
      && server.Valid()
      && packetInId == InId(pluginName, uniquifier)
      && packetOutId == OutId(pluginName, uniquifier)
      && (forall ch :: ch in connectionMap ==> connectionMap[ch].channel == ch)
      && ListenerStageBounded(server.listeners, server.pipelines, ListenerStage(), hasBegun)
    }

    /**
      Takes the next instance number and derives the two stage ids from it.
      The stage objects are new, so no pipeline holds them yet; with stages
      identified by their instance number, that is the second requirement.
     */
    constructor (server: Server, pluginName: string, counter: StageIdCounter)
      requires server.Valid()
      requires forall c :: c in server.listeners ==> ListenerInit(counter.value + 1) !in Get(server.pipelines, c)
      modifies counter
      ensures Valid()
      ensures counter.value == old(counter.value) + 1 && uniquifier == counter.value
      ensures this.server == server && this.pluginName == pluginName
      ensures packetInId == InId(pluginName, uniquifier) && packetOutId == OutId(pluginName, uniquifier)
      ensures !hasBegun && inHandler == None && outHandler == None
      ensures addressMap == map[] && connectionMap == map[] && playerMap == map[]
    {
      counter.value := counter.value + 1;
      this.server := server;
      this.pluginName := pluginName;
      uniquifier := counter.value;
      packetInId := InId(pluginName, counter.value);
      packetOutId := OutId(pluginName, counter.value);
      hasBegun := false;
      inHandler := None;
      outHandler := None;
      addressMap := map[];
      connectionMap := map[];
      playerMap := map[];
    }

    // -------------------------------------------------------------------
    // Handler slots and the active flag
    // -------------------------------------------------------------------

    method SetInHandler(h: Option<Handler>)
      modifies this`inHandler
      ensures inHandler == h
    {
      inHandler := h;
    }

    method GetInHandler() returns (h: Option<Handler>)
      ensures h == inHandler
    {
      h := inHandler;
    }

    method SetOutHandler(h: Option<Handler>)
      modifies this`outHandler
      ensures outHandler == h
    {
      outHandler := h;
    }

    method GetOutHandler() returns (h: Option<Handler>)
      ensures h == outHandler
    {
      h := outHandler;
    }

    method HasBegun() returns (b: bool)
      ensures b == hasBegun
    {
      b := hasBegun;
    }

    // -------------------------------------------------------------------
    // Lifecycle
    // -------------------------------------------------------------------

    /** hijackChannel: append the init stage to one channel's pipeline. */
    method HijackChannel(ch: Channel)
      requires server.Valid()
      modifies server`pipelines
      ensures server.Valid()
      ensures server.pipelines == old(server.pipelines)[ch := AddLast(Get(old(server.pipelines), ch), InitStage())]
    {
      AddUnnamedKeepsNamesUnique(Get(server.pipelines, ch), InitStage());
      server.SetPipeline(ch, AddLast(Get(server.pipelines, ch), InitStage()));
    }

    /** hijackCurrentPlayers: hijack every live connection, in list order. */
    method HijackCurrentPlayers()
      requires server.Valid()
      modifies server`pipelines
      ensures server.Valid()
      ensures server.pipelines == ForEach(old(server.pipelines), server.connections, Append(InitStage()))
    {
      var conns := server.connections;
      var i := 0;
      while i < |conns|
        invariant 0 <= i <= |conns|
        invariant server.Valid()
        invariant server.pipelines == ForEach(old(server.pipelines), conns[..i], Append(InitStage()))
      {
        HijackChannel(conns[i]);
        ForEachStep(old(server.pipelines), conns, i, Append(InitStage()));
        i := i + 1;
      }
      assert conns[..|conns|] == conns;
    }

    /** hijackServerConnection: put the listener stage first on every listening socket. */
    method HijackServerConnection()
      requires server.Valid()
      modifies server`pipelines
      ensures server.Valid()
      ensures server.pipelines == ForEach(old(server.pipelines), server.listeners, Prepend(ListenerStage()))
    {
      var futures := server.listeners;
      var i := 0;
      while i < |futures|
        invariant 0 <= i <= |futures|
        invariant server.Valid()
        invariant server.pipelines == ForEach(old(server.pipelines), futures[..i], Prepend(ListenerStage()))
      {
        var c := futures[i];
        AddUnnamedKeepsNamesUnique(Get(server.pipelines, c), ListenerStage());
        server.SetPipeline(c, AddFirst(Get(server.pipelines, c), ListenerStage()));
        ForEachStep(old(server.pipelines), futures, i, Prepend(ListenerStage()));
        i := i + 1;
      }
      assert futures[..|futures|] == futures;
    }

    /**
      begin(): nothing when already active; otherwise every live connection
      gains the init stage at its end, every listening socket gains the
      listener stage at its front, no other pipeline changes, and the
      instance becomes active. Caches and handlers are untouched (frame).
     */
    method Begin()
      requires Valid()
      modifies this`hasBegun, server`pipelines
      ensures Valid() && hasBegun
      ensures old(hasBegun) ==> server.pipelines == old(server.pipelines)
      ensures !old(hasBegun) ==>
                server.pipelines == ForEach(ForEach(old(server.pipelines), server.connections, Append(InitStage())),
                                            server.listeners, Prepend(ListenerStage()))
      ensures !old(hasBegun) ==>
                forall c ::
                  Get(server.pipelines, c) ==
                  if c in server.connections then AddLast(Get(old(server.pipelines), c), InitStage())
                  else if c in server.listeners then AddFirst(Get(old(server.pipelines), c), ListenerStage())
                  else Get(old(server.pipelines), c)
    {
      if hasBegun {
        return;
      }
      ghost var p0 := server.pipelines;
      HijackCurrentPlayers();
      ghost var p1 := server.pipelines;
      HijackServerConnection();
      hasBegun := true;
      forall c
        ensures Get(server.pipelines, c) ==
                (if c in server.connections then AddLast(Get(p0, c), InitStage())
                 else if c in server.listeners then AddFirst(Get(p0, c), ListenerStage())
                 else Get(p0, c))
      {
        ForEachAt(p0, server.connections, Append(InitStage()), c);
        ForEachAt(p1, server.listeners, Prepend(ListenerStage()), c);
      }
      forall c | c in server.listeners
        ensures multiset(Get(server.pipelines, c))[ListenerStage()] <= 1
      {
        assert Get(server.pipelines, c) == [ListenerStage()] + Get(p0, c);
      }
    }

    /** The first sweep of close(): the listener stage leaves every listening pipeline. */
    method StripListeners()
      requires server.Valid()
      modifies server`pipelines
      ensures server.Valid()
      ensures server.pipelines == ForEach(old(server.pipelines), server.listeners, Strip(ListenerStage()))
    {
      var futures := server.listeners;
      var i := 0;
      while i < |futures|
        invariant 0 <= i <= |futures|
        invariant server.Valid()
        invariant server.pipelines == ForEach(old(server.pipelines), futures[..i], Strip(ListenerStage()))
      {
        var c := futures[i];
        RemoveKeepsNamesUnique(Get(server.pipelines, c), ListenerStage());
        server.SetPipeline(c, RemoveIfPresent(Get(server.pipelines, c), ListenerStage()));
        ForEachStep(old(server.pipelines), futures, i, Strip(ListenerStage()));
        i := i + 1;
      }
      assert futures[..|futures|] == futures;
    }

    /** The second sweep of close(): the inbound, then the outbound stage leaves every connection pipeline. */
    method StripConnections()
      requires server.Valid()
      modifies server`pipelines
      ensures server.Valid()
      ensures server.pipelines == ForEach(old(server.pipelines), server.connections, StripBoth(InStage(), OutStage()))
    {
      var conns := server.connections;
      var i := 0;
      while i < |conns|
        invariant 0 <= i <= |conns|
        invariant server.Valid()
        invariant server.pipelines == ForEach(old(server.pipelines), conns[..i], StripBoth(InStage(), OutStage()))
      {
        var c := conns[i];
        var p := Get(server.pipelines, c);
        RemoveKeepsNamesUnique(p, InStage());
        RemoveKeepsNamesUnique(RemoveIfPresent(p, InStage()), OutStage());
        server.SetPipeline(c, RemoveIfPresent(RemoveIfPresent(p, InStage()), OutStage()));
        ForEachStep(old(server.pipelines), conns, i, StripBoth(InStage(), OutStage()));
        i := i + 1;
      }
      assert conns[..|conns|] == conns;
    }

    /**
      close(), with removals that tolerate an absent stage: nothing when
      idle; otherwise the wrapper and player caches are emptied, the
      listener stage leaves every listening pipeline, the inbound and
      outbound stages leave every connection pipeline, no other pipeline
      changes and the instance becomes idle. The address cache and the
      handlers are untouched (frame).
     */
    method Close()
      requires Valid()
      modifies this`hasBegun, this`connectionMap, this`playerMap, server`pipelines
      ensures Valid() && !hasBegun
      ensures !old(hasBegun) ==>
                connectionMap == old(connectionMap) && playerMap == old(playerMap) && server.pipelines == old(server.pipelines)
      ensures old(hasBegun) ==> connectionMap == map[] && playerMap == map[]
      ensures old(hasBegun) ==>
                server.pipelines == ForEach(ForEach(old(server.pipelines), server.listeners, Strip(ListenerStage())),
                                            server.connections, StripBoth(InStage(), OutStage()))
      ensures old(hasBegun) ==>
                forall c ::
                  Get(server.pipelines, c) ==
                  if c in server.listeners then RemoveIfPresent(Get(old(server.pipelines), c), ListenerStage())
                  else if c in server.connections then Apply(StripBoth(InStage(), OutStage()), Get(old(server.pipelines), c))
                  else Get(old(server.pipelines), c)
      ensures old(hasBegun) ==> forall c :: c in server.listeners ==> ListenerStage() !in Get(server.pipelines, c)
      ensures old(hasBegun) ==> forall c :: c in server.connections ==>
                InStage() !in Get(server.pipelines, c) && OutStage() !in Get(server.pipelines, c)
    {
      if !hasBegun {
        return;
      }
      connectionMap := map[];
      playerMap := map[];
      ghost var p0 := server.pipelines;
      StripListeners();
      ghost var p1 := server.pipelines;
      StripConnections();
      hasBegun := false;
      forall c
        ensures Get(server.pipelines, c) ==
                (if c in server.listeners then RemoveIfPresent(Get(p0, c), ListenerStage())
                 else if c in server.connections then Apply(StripBoth(InStage(), OutStage()), Get(p0, c))
                 else Get(p0, c))
        ensures c in server.listeners ==> ListenerStage() !in Get(server.pipelines, c)
        ensures c in server.connections ==> InStage() !in Get(server.pipelines, c) && OutStage() !in Get(server.pipelines, c)
      {
        ForEachAt(p0, server.listeners, Strip(ListenerStage()), c);
        ForEachAt(p1, server.connections, StripBoth(InStage(), OutStage()), c);
        if c in server.listeners {
          RemoveSoleCopy(Get(p0, c), ListenerStage());
        }
        StripBothIsComplete(Get(p0, c), InStage(), OutStage());
      }
    }

    /** One listening socket's part of the strict sweep: remove the listener stage, or stop when it is missing. */
    method StripListenerStrictly(c: Channel) returns (ok: bool)
      requires server.Valid()
      modifies server`pipelines
      ensures server.Valid()
      ensures ok <==> ListenerStage() in Get(old(server.pipelines), c)
      ensures ok ==> server.pipelines == old(server.pipelines)[c := RemoveIfPresent(Get(old(server.pipelines), c), ListenerStage())]
      ensures !ok ==> server.pipelines == old(server.pipelines)
    {
      var r := Remove(Get(server.pipelines, c), ListenerStage());
      if r.Failure? {
        return false;
      }
      RemoveKeepsNamesUnique(Get(server.pipelines, c), ListenerStage());
      server.SetPipeline(c, r.value);
      return true;
    }

    /**
      The first sweep of close() as written, with the pipeline's strict
      removal: it runs to the end exactly when every listening pipeline holds
      the listener stage. Otherwise it stops at the first listening socket
      that lacks it; `swept` counts the sockets it stripped before that, and
      the pipelines are those of a sweep over just those sockets.
     */
    method StripListenersStrictly() returns (ok: bool, swept: nat)
      requires server.Valid()
      modifies server`pipelines
      ensures server.Valid()
      ensures ok <==> forall c :: c in server.listeners ==> ListenerStage() in Get(old(server.pipelines), c)
      ensures ok ==> swept == |server.listeners|
                     && server.pipelines == ForEach(old(server.pipelines), server.listeners, Strip(ListenerStage()))
      ensures !ok ==> swept < |server.listeners| && ListenerStage() !in Get(old(server.pipelines), server.listeners[swept])
      ensures swept <= |server.listeners|
              && server.pipelines == ForEach(old(server.pipelines), server.listeners[..swept], Strip(ListenerStage()))
    {
      var futures := server.listeners;
      var i := 0;
      while i < |futures|
        invariant 0 <= i <= |futures|
        invariant server.Valid()
        invariant server.pipelines == ForEach(old(server.pipelines), futures[..i], Strip(ListenerStage()))
        invariant forall j :: i <= j < |futures| ==> Get(server.pipelines, futures[j]) == Get(old(server.pipelines), futures[j])
        invariant forall j :: 0 <= j < i ==> ListenerStage() in Get(old(server.pipelines), futures[j])
      {
        var c := futures[i];
        var done := StripListenerStrictly(c);
        if !done {
          assert c in server.listeners;
          return false, i;
        }
        ForEachStep(old(server.pipelines), futures, i, Strip(ListenerStage()));
        i := i + 1;
      }
      assert futures[..|futures|] == futures;
      return true, |futures|;
    }

    /**
      One connection's part of the strict sweep: the inbound stage is
      removed, then the outbound one; a missing inbound stage stops it before
      any change, a missing outbound one after the inbound removal.
     */
    method StripConnectionStrictly(c: Channel) returns (ok: bool)
      requires server.Valid()
      modifies server`pipelines
      ensures server.Valid()
      ensures ok <==> InStage() in Get(old(server.pipelines), c) && OutStage() in Get(old(server.pipelines), c)
      ensures ok ==> server.pipelines == old(server.pipelines)[c := Apply(StripBoth(InStage(), OutStage()), Get(old(server.pipelines), c))]
      ensures !ok ==> Get(server.pipelines, c) == RemoveIfPresent(Get(old(server.pipelines), c), InStage())
      ensures forall d :: d != c ==> Get(server.pipelines, d) == Get(old(server.pipelines), d)
    {
      var p := Get(server.pipelines, c);
      var r := Remove(p, InStage());
      if r.Failure? {
        return false;
      }
      RemoveKeepsNamesUnique(p, InStage());
      RemoveKeepsOthers(p, InStage(), OutStage());
      server.SetPipeline(c, r.value);
      var r2 := Remove(r.value, OutStage());
      if r2.Failure? {
        return false;
      }
      RemoveKeepsNamesUnique(r.value, OutStage());
      server.SetPipeline(c, r2.value);
      return true;
    }

    /**
      The second sweep of close() as written: for each connection the
      inbound stage is removed, then the outbound one, and the first one
      missing ends the sweep (after the inbound removal, when it is the
      outbound one). It runs to the end exactly when every connection
      pipeline holds both. Otherwise `swept` is the position of the
      connection it stopped at: the ones before it are stripped of both
      stages, that one only of the inbound stage, if it had it.
     */
    method StripConnectionsStrictly() returns (ok: bool, swept: nat)
      requires server.Valid()
      modifies server`pipelines
      ensures server.Valid()
      ensures ok <==> forall c :: c in server.connections ==>
                        InStage() in Get(old(server.pipelines), c) && OutStage() in Get(old(server.pipelines), c)
      ensures ok ==> swept == |server.connections|
                     && server.pipelines == ForEach(old(server.pipelines), server.connections, StripBoth(InStage(), OutStage()))
      ensures !ok ==>
                swept < |server.connections|
                && var c := server.connections[swept];
                   && !(InStage() in Get(old(server.pipelines), c) && OutStage() in Get(old(server.pipelines), c))
                   && forall d :: Get(server.pipelines, d) ==
                        if d == c then RemoveIfPresent(Get(old(server.pipelines), c), InStage())
                        else Get(ForEach(old(server.pipelines), server.connections[..swept], StripBoth(InStage(), OutStage())), d)
    {
      var conns := server.connections;
      var i := 0;
      while i < |conns|
        invariant 0 <= i <= |conns|
        invariant server.Valid()
        invariant server.pipelines == ForEach(old(server.pipelines), conns[..i], StripBoth(InStage(), OutStage()))
        invariant forall j :: i <= j < |conns| ==> Get(server.pipelines, conns[j]) == Get(old(server.pipelines), conns[j])
        invariant forall j :: 0 <= j < i ==>
                    InStage() in Get(old(server.pipelines), conns[j]) && OutStage() in Get(old(server.pipelines), conns[j])
      {
        var c := conns[i];
        var done := StripConnectionStrictly(c);
        if !done {
          assert c in server.connections;
          return false, i;
        }
        ForEachStep(old(server.pipelines), conns, i, StripBoth(InStage(), OutStage()));
        i := i + 1;
      }
      assert conns[..|conns|] == conns;
      return true, |conns|;
    }

    /**
      close() as written: the removals are the pipeline's strict ones, so
      the first stage that is not there raises and ends the sweep. `ok`
      tells whether the sweep ran to the end; it does exactly when every
      listening pipeline held the listener stage and every connection
      pipeline held both interceptors. When it does not, the caches are
      already empty but the instance stays active, and the pipelines are
      those of the sweep cut off where it stopped: `listenersSwept` and
      `connectionsSwept` say how far each of the two loops got.
     */
    method CloseAsWritten() returns (ok: bool, listenersSwept: nat, connectionsSwept: nat)
      requires Valid()
      modifies this`hasBegun, this`connectionMap, this`playerMap, server`pipelines
      ensures Valid()
      ensures !old(hasBegun) ==>
                ok && !hasBegun && connectionMap == old(connectionMap) && playerMap == old(playerMap)
                && server.pipelines == old(server.pipelines)
      ensures old(hasBegun) ==> connectionMap == map[] && playerMap == map[]
      ensures ok <==> (!old(hasBegun) ||
                ((forall c :: c in server.listeners ==> ListenerStage() in Get(old(server.pipelines), c))
                 && (forall c :: c in server.connections ==>
                       InStage() in Get(old(server.pipelines), c) && OutStage() in Get(old(server.pipelines), c))))
      ensures old(hasBegun) && ok ==>
                !hasBegun
                && server.pipelines == ForEach(ForEach(old(server.pipelines), server.listeners, Strip(ListenerStage())),
                                               server.connections, StripBoth(InStage(), OutStage()))
      ensures old(hasBegun) && !ok ==> hasBegun
      ensures old(hasBegun) ==> listenersSwept <= |server.listeners|
      ensures old(hasBegun) && listenersSwept == |server.listeners| ==>
                forall c :: c in server.listeners ==> ListenerStage() in Get(old(server.pipelines), c)
      ensures old(hasBegun) && listenersSwept < |server.listeners| ==>
                !ok && connectionsSwept == 0
                && ListenerStage() !in Get(old(server.pipelines), server.listeners[listenersSwept])
                && server.pipelines == ForEach(old(server.pipelines), server.listeners[..listenersSwept], Strip(ListenerStage()))
      ensures old(hasBegun) && !ok && listenersSwept == |server.listeners| ==>
                connectionsSwept < |server.connections|
                && var c := server.connections[connectionsSwept];
                   && !(InStage() in Get(old(server.pipelines), c) && OutStage() in Get(old(server.pipelines), c))
                   && forall d :: Get(server.pipelines, d) ==
                        if d == c then RemoveIfPresent(Get(old(server.pipelines), c), InStage())
                        else Get(ForEach(ForEach(old(server.pipelines), server.listeners, Strip(ListenerStage())),
                                         server.connections[..connectionsSwept], StripBoth(InStage(), OutStage())), d)
    {
      if !hasBegun {
        return true, 0, 0;
      }
      connectionMap := map[];
      playerMap := map[];
      ghost var p0 := server.pipelines;
      ok, listenersSwept := StripListenersStrictly();
      StripPrefixKeepsBound(server.listeners, p0, ListenerStage(), listenersSwept);
      if !ok {
        connectionsSwept := 0;
        return;
      }
      ghost var p1 := server.pipelines;
      ok, connectionsSwept := CloseConnectionsAsWritten();
      SweepsCompose(server.listeners, server.connections, p0, p1, server.pipelines,
                    ListenerStage(), InStage(), OutStage(), ok, connectionsSwept);
    }

    /**
      The second half of close() as written, once every listening pipeline
      has lost the listener stage: the strict sweep over the connection
      pipelines, after which the instance is idle only if that sweep ran
      to the end.
     */
    method CloseConnectionsAsWritten() returns (ok: bool, swept: nat)
      requires Valid() && hasBegun
      requires forall c :: c in server.listeners ==> ListenerStage() !in Get(server.pipelines, c)
      modifies this`hasBegun, server`pipelines
      ensures Valid()
      ensures ok <==> forall c :: c in server.connections ==>
                        InStage() in Get(old(server.pipelines), c) && OutStage() in Get(old(server.pipelines), c)
      ensures ok ==> !hasBegun
                     && server.pipelines == ForEach(old(server.pipelines), server.connections, StripBoth(InStage(), OutStage()))
      ensures !ok ==>
                hasBegun && swept < |server.connections|
                && var c := server.connections[swept];
                   && !(InStage() in Get(old(server.pipelines), c) && OutStage() in Get(old(server.pipelines), c))
                   && forall d :: Get(server.pipelines, d) ==
                        if d == c then RemoveIfPresent(Get(old(server.pipelines), c), InStage())
                        else Get(ForEach(old(server.pipelines), server.connections[..swept], StripBoth(InStage(), OutStage())), d)
    {
      ghost var p1 := server.pipelines;
      ok, swept := StripConnectionsStrictly();
      ConnectionSweepSparesListeners(server.listeners, server.connections, p1, server.pipelines, ListenerStage(), false,
                                     StripBoth(InStage(), OutStage()), ok, swept);
      if ok {
        hasBegun := false;
      }
    }

    // -------------------------------------------------------------------
    // The registry
    // -------------------------------------------------------------------

    /**
      getClientConnection(channel): the cached wrapper, or a new one for the
      channel, cached from then on; no other entry changes.
     */
    method GetClientConnection(ch: Channel) returns (cc: ClientConnection)
      requires Valid()
      modifies this`connectionMap
      ensures Valid()
      ensures ch in connectionMap && cc == connectionMap[ch] && cc.channel == ch
      ensures ch in old(connectionMap) ==> connectionMap == old(connectionMap)
      ensures ch !in old(connectionMap) ==>
                fresh(cc) && cc.uuid == None && cc.playerConnection == None && connectionMap == old(connectionMap)[ch := cc]
    {
      if ch in connectionMap {
        cc := connectionMap[ch];
      } else {
        cc := new ClientConnection(ch);
        connectionMap := connectionMap[ch := cc];
      }
    }

    /** Asking twice for a channel's wrapper yields the same wrapper. */
    method GetClientConnectionTwice(ch: Channel) returns (first: ClientConnection, second: ClientConnection)
      requires Valid()
      modifies this`connectionMap
      ensures Valid()
      ensures first == second && first.channel == ch
    {
      first := GetClientConnection(ch);
      second := GetClientConnection(ch);
    }

    /**
      onLogin: when a channel is pending for the address, it stops being
      pending, the player's UUID maps to it, and a new wrapper bound to the
      player replaces whatever wrapper the channel had; otherwise nothing.
     */
    method OnLogin(addr: Address, uuid: Uuid)
      requires Valid()
      modifies this`addressMap, this`playerMap, this`connectionMap
      ensures Valid()
      ensures addr !in old(addressMap) ==>
                addressMap == old(addressMap) && playerMap == old(playerMap) && connectionMap == old(connectionMap)
      ensures addr in old(addressMap) ==>
                var ch := old(addressMap)[addr];
                && addressMap == old(addressMap) - {addr}
                && playerMap == old(playerMap)[uuid := ch]
                && ch in connectionMap && connectionMap == old(connectionMap)[ch := connectionMap[ch]]
                && fresh(connectionMap[ch]) && connectionMap[ch].channel == ch && connectionMap[ch].uuid == Some(uuid)
                && connectionMap[ch].playerConnection == None
    {
      if addr in addressMap {
        var ch := addressMap[addr];
        addressMap := addressMap - {addr};
        playerMap := playerMap[uuid := ch];
        var cc := new ClientConnection(ch);
        cc.SetPlayer(Some(uuid));
        connectionMap := connectionMap[ch := cc];
      }
    }

    /** onQuit: the player's UUID leaves the player cache; nothing else changes (frame). */
    method OnQuit(uuid: Uuid)
      modifies this`playerMap
      ensures playerMap == old(playerMap) - {uuid}
    {
      playerMap := playerMap - {uuid};
    }

    /**
      onDisable: when the owning plugin is the one disabled, close() as
      written runs, with its strict removals; `ok` tells whether it ran to
      the end. Any other plugin's disabling changes nothing.
     */
    method OnDisable(disabling: string) returns (ok: bool)
      requires Valid()
      modifies this`hasBegun, this`connectionMap, this`playerMap, server`pipelines
      ensures Valid()
      ensures disabling == pluginName ==>
                (ok <==> (!old(hasBegun) ||
                  ((forall c :: c in server.listeners ==> ListenerStage() in Get(old(server.pipelines), c))
                   && (forall c :: c in server.connections ==>
                         InStage() in Get(old(server.pipelines), c) && OutStage() in Get(old(server.pipelines), c)))))
      ensures disabling == pluginName ==> (ok <==> !hasBegun)
      ensures disabling == pluginName && old(hasBegun) ==> connectionMap == map[] && playerMap == map[]
      ensures disabling == pluginName && old(hasBegun) && ok ==>
                server.pipelines == ForEach(ForEach(old(server.pipelines), server.listeners, Strip(ListenerStage())),
                                            server.connections, StripBoth(InStage(), OutStage()))
      ensures disabling != pluginName ==>
                ok && hasBegun == old(hasBegun) && connectionMap == old(connectionMap) && playerMap == old(playerMap)
                && server.pipelines == old(server.pipelines)
    {
      ok := true;
      if disabling == pluginName {
        var listenersSwept, connectionsSwept;
        ok, listenersSwept, connectionsSwept := CloseAsWritten();
      }
    }

    // -------------------------------------------------------------------
    // The stages' own steps
    // -------------------------------------------------------------------

    /**
      The listener stage's channelRead for a newly accepted channel: the
      channel becomes pending under its remote address, gains the init stage
      at its end, and is passed on unchanged.
     */
    method ListenerChannelRead(ch: Channel, remote: Address) returns (calls: seq<CtxCall>)
      requires Valid()
      modifies this`addressMap, server`pipelines
      ensures Valid()
      ensures addressMap == old(addressMap)[remote := ch]
      ensures server.pipelines == old(server.pipelines)[ch := AddLast(Get(old(server.pipelines), ch), InitStage())]
      ensures calls == [FireChannelRead(ChannelObj(ch))]
    {
      addressMap := addressMap[remote := ch];
      ghost var p := Get(server.pipelines, ch);
      assert multiset(AddLast(p, InitStage()))[ListenerStage()] == multiset(p)[ListenerStage()];
      ListenerStageBoundedAfterEdit(server.listeners, server.pipelines, ListenerStage(), hasBegun, ch, AddLast(p, InitStage()));
      HijackChannel(ch);
      calls := [FireChannelRead(ChannelObj(ch))];
    }

    /**
      The init stage's handlerAdded: the installation of the two
      interceptors is queued on the channel's executor, then the init stage
      removes itself; that removal fails, after the task is queued, when the
      stage is no longer there.
     */
    method InitHandlerAdded(ch: Channel) returns (r: Result<Pipeline, PipelineError>)
      requires Valid()
      modifies server`pipelines, server`tasks
      ensures Valid()
      ensures server.tasks == old(server.tasks) + [InstallInterceptors(ch, InStage(), OutStage())]
      ensures r == Remove(Get(old(server.pipelines), ch), InitStage())
      ensures r.Success? ==> server.pipelines == old(server.pipelines)[ch := r.value]
      ensures r.Failure? ==> server.pipelines == old(server.pipelines)
    {
      server.Execute(InstallInterceptors(ch, InStage(), OutStage()));
      var p := Get(server.pipelines, ch);
      r := Remove(p, InitStage());
      if r.Success? {
        var q := RemoveIfPresent(p, InitStage());
        RemoveKeepsNamesUnique(p, InitStage());
        RemoveKeepsCount(p, InitStage(), ListenerStage());
        ListenerStageBoundedAfterEdit(server.listeners, server.pipelines, ListenerStage(), hasBegun, ch, q);
        server.SetPipeline(ch, q);
      }
    }

    /**
      The inbound stage's channelRead: with no inbound handler the packet is
      passed on as is and the registry is not consulted; otherwise the
      channel's wrapper is looked up (created if need be) and the handler's
      verdict decides what is passed on.
     */
    method PacketInRead(ch: Channel, packet: Packet) returns (calls: seq<CtxCall>)
      requires Valid()
      modifies this`connectionMap
      ensures Valid()
      ensures inHandler.None? ==> calls == [FireChannelRead(PacketObj(packet))] && connectionMap == old(connectionMap)
      ensures inHandler.Some? && ch !in old(connectionMap) ==>
                ch in connectionMap && fresh(connectionMap[ch])
                && connectionMap[ch].uuid == None && connectionMap[ch].playerConnection == None
      ensures inHandler.Some? && ch in old(connectionMap) ==> connectionMap == old(connectionMap)
      ensures inHandler.Some? ==>
                ch in connectionMap && connectionMap[ch].channel == ch
                && calls == InboundCalls(inHandler, connectionMap[ch], packet)
                && connectionMap.Keys == old(connectionMap).Keys + {ch}
                && forall c :: c in old(connectionMap) ==> connectionMap[c] == old(connectionMap)[c]
    {
      var handler := inHandler;
      if handler.Some? {
        var cc := GetClientConnection(ch);
        calls := InboundCalls(handler, cc, packet);
      } else {
        calls := [FireChannelRead(PacketObj(packet))];
      }
    }

    /** The outbound stage's write: as the inbound read, with the caller's promise passed along. */
    method PacketOutWrite(ch: Channel, packet: Packet, promise: Obj) returns (calls: seq<CtxCall>)
      requires Valid()
      modifies this`connectionMap
      ensures Valid()
      ensures outHandler.None? ==> calls == [Write(PacketObj(packet), promise)] && connectionMap == old(connectionMap)
      ensures outHandler.Some? && ch !in old(connectionMap) ==>
                ch in connectionMap && fresh(connectionMap[ch])
                && connectionMap[ch].uuid == None && connectionMap[ch].playerConnection == None
      ensures outHandler.Some? && ch in old(connectionMap) ==> connectionMap == old(connectionMap)
      ensures outHandler.Some? ==>
                ch in connectionMap && connectionMap[ch].channel == ch
                && calls == OutboundCalls(outHandler, connectionMap[ch], packet, promise)
                && connectionMap.Keys == old(connectionMap).Keys + {ch}
                && forall c :: c in old(connectionMap) ==> connectionMap[c] == old(connectionMap)[c]
    {
      var handler := outHandler;
      if handler.Some? {
        var cc := GetClientConnection(ch);
        calls := OutboundCalls(handler, cc, packet, promise);
      } else {
        calls := [Write(PacketObj(packet), promise)];
      }
    }
  }
}
