/**
  The host server as the interception engine sees it: the channels of its
  listening sockets, the channels of its live client connections, the
  pipeline of every channel, and the queue of tasks waiting on the channels'
  executors. Everything the host itself does (accepting sockets, wiring its
  own stages) is outside this model; the engine's steps change `pipelines`
  and `tasks` only.
 */
module Host {
  import opened Pipelines
  import opened Stages

  /** A task handed to a channel's executor: install the two interceptors on that channel. */
  datatype Task = InstallInterceptors(channel: Channel, inbound: Stage, outbound: Stage)

  class Server {
    var listeners: seq<Channel>
    var connections: seq<Channel>
    var pipelines: map<Channel, Pipeline>
    var tasks: seq<Task>

    /**
      The host's own guarantees: each channel is listed once, a listening
      channel is not a client connection, and no pipeline holds two stages
      of the same name. Queued installs carry named stages.
     */
    ghost predicate Valid()
      reads this
    {
      && Distinct(listeners)
      && Distinct(connections)
      && (forall c :: c in listeners ==> c !in connections)
      && (forall c :: UniqueNames(Get(pipelines, c)))
      && (forall t :: t in tasks ==> t.inbound.Named() && t.outbound.Named())
    }

    constructor (listeners: seq<Channel>, connections: seq<Channel>, pipelines: map<Channel, Pipeline>)
      requires Distinct(listeners) && Distinct(connections)
      requires forall c :: c in listeners ==> c !in connections
      requires forall c :: c in pipelines ==> UniqueNames(pipelines[c])
      ensures Valid()
      ensures this.listeners == listeners && this.connections == connections
      ensures this.pipelines == pipelines && tasks == []
    {
      this.listeners := listeners;
      this.connections := connections;
      this.pipelines := pipelines;
      tasks := [];
    }

    /** A pipeline edit made through the channel's pipeline object; the edit must keep names unique. */
    method SetPipeline(c: Channel, p: Pipeline)
      requires Valid() && UniqueNames(p)
      modifies this`pipelines
      ensures Valid()
      ensures pipelines == old(pipelines)[c := p]
    {
      pipelines := pipelines[c := p];
      assert forall d :: Get(pipelines, d) == if d == c then p else Get(old(pipelines), d);
    }

    /** executor.execute(task): the task is queued behind the ones already waiting. */
    method Execute(t: Task)
      requires Valid() && t.inbound.Named() && t.outbound.Named()
      modifies this`tasks
      ensures Valid()
      ensures tasks == old(tasks) + [t]
    {
      tasks := tasks + [t];
    }

    /**
      The executor runs the oldest queued task: the interceptors go in
      before the host's packet handler, or as far as that gets before an
      insertion fails. The host's invariants survive.
     */
    method RunNextTask()
      requires Valid() && tasks != []
      modifies this`pipelines, this`tasks
      ensures Valid()
      ensures var t := old(tasks[0]);
              pipelines == old(pipelines)[t.channel := DeferredInstall(Get(old(pipelines), t.channel), t.inbound, t.outbound)]
      ensures tasks == old(tasks[1..])
    {
      var t := tasks[0];
      var p := DeferredInstall(Get(pipelines, t.channel), t.inbound, t.outbound);
      DeferredInstallKeepsNamesUnique(Get(pipelines, t.channel), t.inbound, t.outbound);
      pipelines := pipelines[t.channel := p];
      tasks := tasks[1..];
      assert forall c :: Get(pipelines, c) == if c == t.channel then p else Get(old(pipelines), c);
    }
  }
}
