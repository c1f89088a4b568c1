/**
  Concrete runs of the engine on a small server: one listening socket
  (channel 0) and one live connection (channel 1) whose pipeline already
  holds the host's packet handler.
 */
module Scenarios {
  import opened Wrappers
  import opened Pipelines
  import opened StageIds
  import opened Stages
  import opened Host
  import opened Protocol

  /** A server with one listening socket and one connection, and an engine instance on it. */
  method SmallServer() returns (engine: TinierProtocol)
    ensures fresh(engine) && fresh(engine.server)
    ensures engine.Valid() && !engine.hasBegun
    ensures engine.server.listeners == [0] && engine.server.connections == [1] && engine.server.tasks == []
    ensures engine.server.pipelines == map[0 := [Host("acceptor")], 1 := ConnectionPipeline()]
    ensures engine.packetInId == InId("Demo", engine.uniquifier) && engine.packetOutId == OutId("Demo", engine.uniquifier)
  {
    var server := new Server([0], [1], map[0 := [Host("acceptor")], 1 := ConnectionPipeline()]);
    var counter := new StageIdCounter();
    engine := new TinierProtocol(server, "Demo", counter);
  }

  /** The small server after begin(): the listener stage in front, the init stage at the end of the connection. */
  method BegunSmallServer() returns (engine: TinierProtocol)
    ensures fresh(engine) && fresh(engine.server)
    ensures engine.Valid() && engine.hasBegun
    ensures engine.server.listeners == [0] && engine.server.connections == [1] && engine.server.tasks == []
    ensures Get(engine.server.pipelines, 0) == [ListenerInit(engine.uniquifier), Host("acceptor")]
    ensures Get(engine.server.pipelines, 1) == ConnectionPipeline() + [ConnectionInit(engine.uniquifier)]
    ensures engine.packetInId == InId("Demo", engine.uniquifier) && engine.packetOutId == OutId("Demo", engine.uniquifier)
  {
    engine := SmallServer();
    engine.Begin();
  }

  /**
    close() as written, called after begin() but before the connection's
    init stage has installed the interceptors: the listener stage goes, but
    the strict removal of the missing inbound stage ends the sweep, the
    caches are already empty and the instance is left active.
   */
  method CloseBeforeInstallAborts() returns (ok: bool, engine: TinierProtocol)
    ensures fresh(engine) && fresh(engine.server)
    ensures !ok && engine.Valid() && engine.hasBegun
    ensures engine.connectionMap == map[] && engine.playerMap == map[]
    ensures engine.server.listeners == [0] && engine.server.connections == [1]
    ensures Get(engine.server.pipelines, 0) == [Host("acceptor")]
    ensures Get(engine.server.pipelines, 1) == ConnectionPipeline() + [ConnectionInit(engine.uniquifier)]
  {
    engine := BegunSmallServer();
    assert engine.InStage() !in Get(engine.server.pipelines, 1);
    ok := CloseWithoutInterceptors(engine);
  }

  /**
    close() as written on the small server once begun, while the connection
    lacks the inbound stage: the listener stage goes, the connection sweep
    stops at its first channel and leaves that pipeline as it was.
   */
  method CloseWithoutInterceptors(engine: TinierProtocol) returns (ok: bool)
    requires engine.Valid() && engine.hasBegun
    requires engine.server.listeners == [0] && engine.server.connections == [1]
    requires Get(engine.server.pipelines, 0) == [engine.ListenerStage(), Host("acceptor")]
    requires engine.InStage() !in Get(engine.server.pipelines, 1)
    modifies engine`hasBegun, engine`connectionMap, engine`playerMap, engine.server`pipelines
    ensures !ok && engine.Valid() && engine.hasBegun
    ensures engine.connectionMap == map[] && engine.playerMap == map[]
    ensures Get(engine.server.pipelines, 0) == [Host("acceptor")]
    ensures Get(engine.server.pipelines, 1) == Get(old(engine.server.pipelines), 1)
  {
    ghost var p0 := engine.server.pipelines;
    ghost var l := engine.ListenerStage();
    assert l in Get(p0, 0);
    var listenersSwept, connectionsSwept;
    ok, listenersSwept, connectionsSwept := engine.CloseAsWritten();
    assert listenersSwept == 1;
    assert connectionsSwept == 0;
    StripOneListener(p0, l);
    assert engine.server.connections[..connectionsSwept] == [];
    assert RemoveIfPresent(Get(p0, 1), engine.InStage()) == Get(p0, 1);
  }

  /** The listener sweep over the one listening socket drops the listener stage from its front. */
  lemma StripOneListener(p0: map<Channel, Pipeline>, l: Stage)
    requires Get(p0, 0) == [l, Host("acceptor")]
    ensures Get(ForEach(p0, [0], Strip(l)), 0) == [Host("acceptor")]
  {
    ForEachAt(p0, [0], Strip(l), 0);
    RemoveAddFirst([Host("acceptor")], l);
  }

  /**
    A second close() after the aborted one finds the listener stage gone
    and stops at once, before any change. Since the retry changes nothing,
    every further close() fails the same way.
   */
  method CloseRetryAbortsAgain() returns (retried: bool, engine: TinierProtocol, before: map<Channel, Pipeline>)
    ensures !retried && engine.hasBegun
    ensures engine.server.pipelines == before
    ensures Get(engine.server.pipelines, 0) == [Host("acceptor")]
    ensures Get(engine.server.pipelines, 1) == ConnectionPipeline() + [ConnectionInit(engine.uniquifier)]
  {
    var ok;
    ok, engine := CloseBeforeInstallAborts();
    assert engine.ListenerStage() !in Get(engine.server.pipelines, 0);
    before := engine.server.pipelines;
    var listenersSwept, connectionsSwept;
    retried, listenersSwept, connectionsSwept := engine.CloseAsWritten();
    assert listenersSwept == 0;
  }

  /** The connection's own pipeline before the engine touches it. */
  function ConnectionPipeline(): Pipeline {
    [Host("decoder"), Host(PacketHandlerId)]
  }

  /**
    Whatever the plugin's name, the instance's stage ids are longer than
    the host's stage names, so they never collide with them, and the two
    ids differ.
   */
  lemma IdsAvoidHostNames(plugin: string, u: nat)
    ensures !HasName(ConnectionPipeline(), InId(plugin, u))
    ensures !HasName(ConnectionPipeline(), OutId(plugin, u))
    ensures InId(plugin, u) != OutId(plugin, u)
  {
    assert |InId(plugin, u)| >= |InInfix| > |PacketHandlerId|;
    assert |OutId(plugin, u)| >= |OutInfix| > |PacketHandlerId|;
    assert ConnectionPipeline()[1..] == [Host(PacketHandlerId)];
    assert ConnectionPipeline()[1..][1..] == [];
    StageIdsDistinct(plugin, u, plugin, u);
  }

  /** On the connection's pipeline the installation lands right before the packet handler. */
  lemma InstallOnConnection(u: nat)
    ensures DeferredInstall(ConnectionPipeline(), PacketIn(InId("Demo", u)), PacketOut(OutId("Demo", u)))
            == [Host("decoder"), PacketIn(InId("Demo", u)), PacketOut(OutId("Demo", u)), Host(PacketHandlerId)]
    ensures Apply(StripBoth(PacketIn(InId("Demo", u)), PacketOut(OutId("Demo", u))),
                  [Host("decoder"), PacketIn(InId("Demo", u)), PacketOut(OutId("Demo", u)), Host(PacketHandlerId)])
            == ConnectionPipeline()
  {
    var p := ConnectionPipeline();
    var i, o := PacketIn(InId("Demo", u)), PacketOut(OutId("Demo", u));
    IdsAvoidHostNames("Demo", u);
    assert p[..1] == [Host("decoder")] && !HasName(p[..1], PacketHandlerId);
    IndexOfNameAt(p, PacketHandlerId, 1);
    InstallLayout(p, i, o);
    assert p[..1] + [i, o] + p[1..] == [Host("decoder"), i, o, Host(PacketHandlerId)];
    UninstallLayout(p, 1, i, o);
  }

  /** The same run with the tolerant close(): the instance ends idle and the listener stage is gone. */
  method CloseBeforeInstallCompletes() returns (engine: TinierProtocol)
    ensures !engine.hasBegun
    ensures Get(engine.server.pipelines, 0) == [Host("acceptor")]
    ensures Get(engine.server.pipelines, 1) == ConnectionPipeline() + [ConnectionInit(engine.uniquifier)]
  {
    engine := BegunSmallServer();
    var p := Get(engine.server.pipelines, 1);
    assert engine.InStage() !in p && engine.OutStage() !in p;
    assert Apply(StripBoth(engine.InStage(), engine.OutStage()), p) == p;
    RemoveAddFirst([Host("acceptor")], engine.ListenerStage());
    assert RemoveIfPresent(Get(engine.server.pipelines, 0), engine.ListenerStage()) == [Host("acceptor")];
    engine.Close();
  }

  /**
    The connection's init step on the begun server: its handlerAdded
    removes the init stage and queues the installation, and once the
    executor runs it the pipeline reads decoder, in, out, packet_handler.
   */
  method InstalledSmallServer() returns (engine: TinierProtocol)
    ensures fresh(engine) && fresh(engine.server)
    ensures engine.Valid() && engine.hasBegun
    ensures engine.server.listeners == [0] && engine.server.connections == [1] && engine.server.tasks == []
    ensures Get(engine.server.pipelines, 0) == [ListenerInit(engine.uniquifier), Host("acceptor")]
    ensures Get(engine.server.pipelines, 1) == [Host("decoder"), engine.InStage(), engine.OutStage(), Host(PacketHandlerId)]
    ensures engine.packetInId == InId("Demo", engine.uniquifier) && engine.packetOutId == OutId("Demo", engine.uniquifier)
  {
    engine := BegunSmallServer();
    var server := engine.server;
    RemoveAddLast(ConnectionPipeline(), engine.InitStage());
    var r := engine.InitHandlerAdded(1);
    InstallOnConnection(engine.uniquifier);
    server.RunNextTask();
  }

  /** Stripping the two interceptors from the installed connection pipeline gives back the host's own. */
  lemma UninstallOnConnection(i: Stage, o: Stage, p: Pipeline)
    requires i.PacketIn? && o.PacketOut? && p == [Host("decoder"), i, o, Host(PacketHandlerId)]
    ensures Apply(StripBoth(i, o), p) == ConnectionPipeline()
  {
    assert p == [Host("decoder")] + [i] + [o, Host(PacketHandlerId)];
    RemoveFromLayout([Host("decoder")], i, [o, Host(PacketHandlerId)]);
    assert [Host("decoder")] + [o, Host(PacketHandlerId)] == [Host("decoder")] + [o] + [Host(PacketHandlerId)];
    RemoveFromLayout([Host("decoder")], o, [Host(PacketHandlerId)]);
  }

  /** Both sweeps of close() on the small server edit each of its two pipelines once. */
  lemma CloseSmallServer(p0: map<Channel, Pipeline>, l: Stage, e: Edit)
    ensures var q := ForEach(ForEach(p0, [0], Strip(l)), [1], e);
            Get(q, 0) == RemoveIfPresent(Get(p0, 0), l) && Get(q, 1) == Apply(e, Get(p0, 1))
  {
    var p1 := ForEach(p0, [0], Strip(l));
    ForEachAt(p0, [0], Strip(l), 0);
    ForEachAt(p0, [0], Strip(l), 1);
    ForEachAt(p1, [1], e, 0);
    ForEachAt(p1, [1], e, 1);
  }

  /**
    The whole life of the connection: after the installation, close() as
    written finds every stage it removes, runs to the end and gives back
    the original pipelines.
   */
  method ConnectionLifecycle() returns (ok: bool, engine: TinierProtocol)
    ensures ok && !engine.hasBegun
    ensures Get(engine.server.pipelines, 0) == [Host("acceptor")]
    ensures Get(engine.server.pipelines, 1) == ConnectionPipeline()
  {
    engine := InstalledSmallServer();
    ghost var p0 := engine.server.pipelines;
    UninstallOnConnection(engine.InStage(), engine.OutStage(), Get(p0, 1));
    RemoveAddFirst([Host("acceptor")], engine.ListenerStage());
    assert RemoveIfPresent(Get(p0, 0), engine.ListenerStage()) == [Host("acceptor")];
    assert engine.ListenerStage() in Get(p0, 0);
    assert engine.InStage() in Get(p0, 1) && engine.OutStage() in Get(p0, 1);
    CloseSmallServer(p0, engine.ListenerStage(), StripBoth(engine.InStage(), engine.OutStage()));
    var listenersSwept, connectionsSwept;
    ok, listenersSwept, connectionsSwept := engine.CloseAsWritten();
    assert 0 in engine.server.listeners && 1 !in engine.server.listeners && 1 in engine.server.connections;
  }

  /** Two instances made through one counter own different stages. */
  method InstancesHaveDistinctStages() returns (a: TinierProtocol, b: TinierProtocol)
    ensures a.uniquifier != b.uniquifier
    ensures a.packetInId != b.packetInId && a.packetOutId != b.packetOutId
    ensures a.packetInId != a.packetOutId && b.packetInId != b.packetOutId
    ensures a.InStage() != b.InStage() && a.ListenerStage() != b.ListenerStage()
  {
    var server := new Server([0], [1], map[0 := [Host("acceptor")], 1 := [Host(PacketHandlerId)]]);
    var counter := new StageIdCounter();
    a := new TinierProtocol(server, "Demo", counter);
    b := new TinierProtocol(server, "Demo", counter);
    StageIdsDistinct("Demo", a.uniquifier, "Demo", b.uniquifier);
  }
}
