/**
  What each interceptor stage does when the pipeline calls it, as pure step
  functions. A step yields the calls the stage makes on its context (what it
  passes downstream); state changes (registry, pipelines) are made by the
  engine's methods in module Protocol, which use these functions.
 */
module Stages {
  import opened Wrappers
  import opened Pipelines
  import opened Connections

  /** A user transform: given the connection and the packet, the packet to pass on, or none to drop it. */
  type Handler = (ClientConnection, Packet) -> Option<Packet>

  /** The Java objects that travel through a stage call. */
  datatype Obj =
    | Context(of: Channel)
    | ChannelObj(ch: Channel)
    | PacketObj(packet: Packet)
    | Promise(id: nat)
    | Throwable(message: string)
    | Other(tag: nat)

  /** A call a stage makes on its context (or, for Invoke, on its first argument). */
  datatype CtxCall =
    | FireChannelRead(msg: Obj)
    | Write(msg: Obj, promise: Obj)
    | FireExceptionCaught(receiver: Obj, cause: Obj)
    | Invoke(target: string, receiver: Obj, args: seq<Obj>)

  // ---------------------------------------------------------------------
  // Inbound read and outbound write
  // ---------------------------------------------------------------------

  /** The packet the current transform lets through; with no transform set, the packet itself. */
  function Transform(h: Option<Handler>, cc: ClientConnection, packet: Packet): (r: Option<Packet>)
    ensures h.None? ==> r == Some(packet)
    ensures r.None? ==> h.Some?
  {
    match h
    case None => Some(packet)
    case Some(f) => f(cc, packet)
  }

  /** The inbound stage's channelRead: forward the transformed packet, or nothing when dropped. */
  function InboundCalls(h: Option<Handler>, cc: ClientConnection, packet: Packet): (calls: seq<CtxCall>)
    ensures |calls| <= 1
    ensures h.None? ==> calls == [FireChannelRead(PacketObj(packet))]
    ensures h.Some? && h.value(cc, packet).Some? ==> calls == [FireChannelRead(PacketObj(h.value(cc, packet).value))]
    ensures calls == [] <==> h.Some? && h.value(cc, packet).None?
  {
    match Transform(h, cc, packet)
    case None => []
    case Some(q) => [FireChannelRead(PacketObj(q))]
  }

  /**
    The outbound stage's write: forward the transformed packet with the
    caller's promise untouched, or nothing at all (the promise is then never
    completed) when dropped.
   */
  function OutboundCalls(h: Option<Handler>, cc: ClientConnection, packet: Packet, promise: Obj): (calls: seq<CtxCall>)
    ensures |calls| <= 1
    ensures h.None? ==> calls == [Write(PacketObj(packet), promise)]
    ensures h.Some? && h.value(cc, packet).Some? ==> calls == [Write(PacketObj(h.value(cc, packet).value), promise)]
    ensures calls == [] <==> h.Some? && h.value(cc, packet).None?
    ensures forall c :: c in calls ==> c.Write? && c.promise == promise
  {
    match Transform(h, cc, packet)
    case None => []
    case Some(q) => [Write(PacketObj(q), promise)]
  }

  // ---------------------------------------------------------------------
  // The fallback for calls a stage does not handle itself
  // ---------------------------------------------------------------------

  predicate IsLower(c: char) {
    'a' <= c <= 'z'
  }

  /** Character.toUpperCase restricted to ASCII letters; other characters are kept. */
  function UpperCase(c: char): char {
    if IsLower(c) then (c as int - 32) as char else c
  }

  function LowerCase(c: char): char {
    if 'A' <= c <= 'Z' then (c as int + 32) as char else c
  }

  /** "fire" + the name with its first character upper-cased: channelActive -> fireChannelActive. */
  function FireName(methodName: string): (r: string)
    requires |methodName| > 0
    ensures |r| == |methodName| + 4 && r[..4] == "fire"
    ensures r[4] == UpperCase(methodName[0]) && r[5..] == methodName[1..]
  {
    "fire" + [UpperCase(methodName[0])] + methodName[1..]
  }

  /** Recovers the handler method name from a context method name "fire<Name>". */
  function HandlerName(target: string): string
    requires |target| > 4
  {
    [LowerCase(target[4])] + target[5..]
  }

  /** Names that start with a lower-case letter (every handler method) are mapped one-to-one. */
  lemma HandlerNameOfFireName(methodName: string)
    requires |methodName| > 0 && IsLower(methodName[0])
    ensures HandlerName(FireName(methodName)) == methodName
  {
    var r := FireName(methodName);
    assert r[4] == UpperCase(methodName[0]);
    assert LowerCase(UpperCase(methodName[0])) == methodName[0];
    assert methodName == [methodName[0]] + methodName[1..];
  }

  lemma FireNameInjective(m1: string, m2: string)
    requires |m1| > 0 && IsLower(m1[0]) && |m2| > 0 && IsLower(m2[0])
    ensures FireName(m1) == FireName(m2) ==> m1 == m2
  {
    HandlerNameOfFireName(m1);
    HandlerNameOfFireName(m2);
  }

  /** What an adapted call produces: its return value and what it passed downstream, or what it raised. */
  datatype Dispatch =
    | ReturnsNull(calls: seq<CtxCall>)
    | ReturnsFalse
    | Raises(error: ProxyError)

  /**
    UnsupportedOperation carries the method name; NullPointer is raised when
    the call has no argument array (the runtime passes none for a call
    without parameters); IndexOutOfBounds when the array is too short.
   */
  datatype ProxyError = UnsupportedOperation(methodName: string) | NullPointer | IndexOutOfBounds

  const NoOpMethods: set<string> := {"ensureNotSharable", "handlerAdded", "handlerRemoved"}

  /**
    The shared fallback of every stage. An empty `args` stands for the absent
    argument array; `targetMethods` are the names declared by the class the
    call is forwarded to.
   */
  function AdaptedDispatch(methodName: string, mappedName: string, targetMethods: set<string>, args: seq<Obj>): (r: Dispatch)
    ensures r == ReturnsFalse <==> methodName == "isSharable"
    ensures r.ReturnsNull? ==> |r.calls| <= 1
    ensures r.ReturnsNull? && r.calls != [] ==>
              0 < |args| && (r.calls[0].FireExceptionCaught? || r.calls[0].Invoke?) && r.calls[0].receiver == args[0]
    ensures r.ReturnsNull? && r.calls != [] && r.calls[0].Invoke? ==> r.calls[0].target == mappedName && mappedName in targetMethods
    ensures r == Raises(UnsupportedOperation(methodName)) <==>
              methodName !in NoOpMethods && methodName != "isSharable" && methodName != "exceptionCaught"
              && |args| > 0 && mappedName !in targetMethods
    ensures r.Raises? && r.error.UnsupportedOperation? ==> r.error.methodName == methodName
  {
    if methodName in NoOpMethods then ReturnsNull([])
    else if methodName == "isSharable" then ReturnsFalse
    else if methodName == "exceptionCaught" then
      if |args| == 0 then Raises(NullPointer)
      else if |args| == 1 then Raises(IndexOutOfBounds)
      else ReturnsNull([FireExceptionCaught(args[0], args[1])])
    else if |args| == 0 then Raises(NullPointer)
    else if mappedName in targetMethods then ReturnsNull([Invoke(mappedName, args[0], args[1..])])
    else Raises(UnsupportedOperation(methodName))
  }

  /** The four stage roles. */
  datatype ProxyKind = ListenerProxy | InitProxy | InProxy | OutProxy

  /** The one call each role handles itself; every other call goes to the fallback. */
  function OwnMethod(kind: ProxyKind): string {
    match kind
    case ListenerProxy => "channelRead"
    case InitProxy => "handlerAdded"
    case InProxy => "channelRead"
    case OutProxy => "write"
  }

  /** Inbound-side roles forward under fire<Name>; the init and outbound roles under the name itself. */
  function MappedName(kind: ProxyKind, methodName: string): string
    requires kind in {ListenerProxy, InProxy} ==> |methodName| > 0
  {
    if kind == ListenerProxy || kind == InProxy then FireName(methodName) else methodName
  }

  /**
    A role's fallback: the outbound role forwards to the outbound-invoker
    interface, the others to the handler context.
   */
  function Fallback(kind: ProxyKind, methodName: string, args: seq<Obj>, contextMethods: set<string>, invokerMethods: set<string>): Dispatch
    requires kind in {ListenerProxy, InProxy} ==> |methodName| > 0
  {
    AdaptedDispatch(methodName, MappedName(kind, methodName),
                    if kind == OutProxy then invokerMethods else contextMethods, args)
  }

  /** Where a call on a stage goes: the role's own step, or the shared fallback with its outcome. */
  datatype Route = OwnStep | Shared(outcome: Dispatch)

  /** A stage of the given role receives a call: its own method first, everything else to the fallback. */
  function StageCall(kind: ProxyKind, methodName: string, args: seq<Obj>, contextMethods: set<string>, invokerMethods: set<string>): (r: Route)
    requires kind in {ListenerProxy, InProxy} ==> |methodName| > 0
    ensures r == OwnStep <==> methodName == OwnMethod(kind)
    ensures methodName == "isSharable" || methodName == "exceptionCaught" ==> r.Shared?
  {
    if methodName == OwnMethod(kind) then OwnStep
    else Shared(Fallback(kind, methodName, args, contextMethods, invokerMethods))
  }

  /**
    Only the init role acts on handlerAdded (it installs the interceptors);
    on every other role it reaches the fallback and does nothing. Each
    role's own method never reaches the fallback.
   */
  lemma OwnStepBeforeFallback(kind: ProxyKind, args: seq<Obj>, contextMethods: set<string>, invokerMethods: set<string>)
    ensures StageCall(kind, "handlerAdded", args, contextMethods, invokerMethods)
            == if kind == InitProxy then OwnStep else Shared(ReturnsNull([]))
    ensures StageCall(kind, OwnMethod(kind), args, contextMethods, invokerMethods) == OwnStep
    ensures kind != OutProxy ==> StageCall(kind, "write", args, contextMethods, invokerMethods).Shared?
  {
  }

  /**
    No stage ever declares itself sharable, and every registration
    callback that reaches the shared fallback does nothing.
   */
  lemma NeverSharable(kind: ProxyKind, args: seq<Obj>, contextMethods: set<string>, invokerMethods: set<string>)
    ensures StageCall(kind, "isSharable", args, contextMethods, invokerMethods) == Shared(ReturnsFalse)
    ensures forall m :: m in NoOpMethods && m != OwnMethod(kind) ==>
              StageCall(kind, m, args, contextMethods, invokerMethods) == Shared(ReturnsNull([]))
  {
  }

  /** An error notification is passed on, by every role, with the very same throwable. */
  lemma ExceptionForwarded(kind: ProxyKind, ctx: Obj, cause: Obj, contextMethods: set<string>, invokerMethods: set<string>)
    ensures StageCall(kind, "exceptionCaught", [ctx, cause], contextMethods, invokerMethods)
            == Shared(ReturnsNull([FireExceptionCaught(ctx, cause)]))
  {
  }

  /**
    Any other call is either forwarded, minus its context argument, to the
    mapped method of the receiver, or rejected with the call's own name:
    never silently dropped.
   */
  lemma OtherCallsForwardOrRaise(kind: ProxyKind, methodName: string, args: seq<Obj>, contextMethods: set<string>, invokerMethods: set<string>)
    requires |methodName| > 0 && |args| > 0
    requires methodName !in NoOpMethods && methodName != "isSharable" && methodName != "exceptionCaught"
    ensures var target := MappedName(kind, methodName);
            var declared := if kind == OutProxy then invokerMethods else contextMethods;
            var d := Fallback(kind, methodName, args, contextMethods, invokerMethods);
            && (target in declared ==> d == ReturnsNull([Invoke(target, args[0], args[1..])]))
            && (target !in declared ==> d == Raises(UnsupportedOperation(methodName)))
            && (kind in {ListenerProxy, InProxy} ==> target == FireName(methodName))
            && (kind in {InitProxy, OutProxy} ==> target == methodName)
  {
  }

  // ---------------------------------------------------------------------
  // The init stage's deferred installation
  // ---------------------------------------------------------------------

  /**
    The task the init stage schedules: addBefore(packet_handler, in), then
    addBefore(packet_handler, out). A failing insertion raises inside the
    task, so what was inserted before it stays and nothing after it runs.
   */
  function DeferredInstall(p: Pipeline, inbound: Stage, outbound: Stage): (r: Pipeline)
    requires inbound.Named() && outbound.Named()
    ensures |p| <= |r| <= |p| + 2
    ensures !HasName(p, PacketHandlerId) ==> r == p
  {
    match AddBefore(p, PacketHandlerId, inbound)
    case Failure(_) => p
    case Success(p1) =>
      match AddBefore(p1, PacketHandlerId, outbound)
      case Failure(_) => p1
      case Success(p2) => p2
  }

  /** The deferred installation keeps pipeline names unique. */
  lemma DeferredInstallKeepsNamesUnique(p: Pipeline, inbound: Stage, outbound: Stage)
    requires UniqueNames(p) && inbound.Named() && outbound.Named()
    ensures UniqueNames(DeferredInstall(p, inbound, outbound))
  {
    AddBeforeKeepsNamesUnique(p, PacketHandlerId, inbound);
    match AddBefore(p, PacketHandlerId, inbound)
    case Failure(_) =>
    case Success(p1) => AddBeforeKeepsNamesUnique(p1, PacketHandlerId, outbound);
  }

  /** The installation adds the inbound stage, then the outbound one, or stops early; it never drops a stage. */
  lemma DeferredInstallContents(p: Pipeline, inbound: Stage, outbound: Stage)
    requires inbound.Named() && outbound.Named()
    ensures var r := multiset(DeferredInstall(p, inbound, outbound));
            r == multiset(p) || r == multiset(p) + multiset{inbound} || r == multiset(p) + multiset{inbound, outbound}
  {
    var r1 := AddBefore(p, PacketHandlerId, inbound);
    AddBeforeContents(p, PacketHandlerId, inbound);
    if r1.Failure? {
      InstallStopsAtInbound(p, inbound, outbound);
    } else {
      var r2 := AddBefore(r1.value, PacketHandlerId, outbound);
      AddBeforeContents(r1.value, PacketHandlerId, outbound);
      if r2.Failure? {
        InstallStopsAtOutbound(p, inbound, outbound, r1.value);
      } else {
        InstallSteps(p, inbound, outbound, r1.value, r2.value);
      }
    }
  }

  /** When the inbound insertion fails, the installation changes nothing. */
  lemma InstallStopsAtInbound(p: Pipeline, inbound: Stage, outbound: Stage)
    requires inbound.Named() && outbound.Named()
    requires AddBefore(p, PacketHandlerId, inbound).Failure?
    ensures DeferredInstall(p, inbound, outbound) == p
  {
  }

  /** When only the outbound insertion fails, the installation keeps the inbound stage it added. */
  lemma InstallStopsAtOutbound(p: Pipeline, inbound: Stage, outbound: Stage, p1: Pipeline)
    requires inbound.Named() && outbound.Named()
    requires AddBefore(p, PacketHandlerId, inbound) == Success(p1)
    requires AddBefore(p1, PacketHandlerId, outbound).Failure?
    ensures DeferredInstall(p, inbound, outbound) == p1
  {
  }

  /**
    On a pipeline that has the anchor and neither interceptor name, the
    installation yields "... in, out, packet_handler ...", nothing else changed.
   */
  lemma InstallLayout(p: Pipeline, inbound: Stage, outbound: Stage)
    requires inbound.Named() && outbound.Named() && inbound.name != outbound.name
    requires HasName(p, PacketHandlerId) && !HasName(p, inbound.name) && !HasName(p, outbound.name)
    ensures var k := IndexOfName(p, PacketHandlerId);
            DeferredInstall(p, inbound, outbound) == p[..k] + [inbound, outbound] + p[k..]
  {
    var k := IndexOfName(p, PacketHandlerId);
    var p1 := p[..k] + [inbound] + p[k..];
    AddBeforeLayout(p, PacketHandlerId, inbound);
    AnchorAfterInsertion(p, k, inbound, outbound.name);
    AddBeforeLayout(p1, PacketHandlerId, outbound);
    InsertTwice(p, k, inbound, outbound);
    InstallSteps(p, inbound, outbound, p1, p[..k] + [inbound, outbound] + p[k..]);
  }

  /** When both insertions succeed, the installation is the second one's result. */
  lemma InstallSteps(p: Pipeline, inbound: Stage, outbound: Stage, p1: Pipeline, p2: Pipeline)
    requires inbound.Named() && outbound.Named()
    requires AddBefore(p, PacketHandlerId, inbound) == Success(p1)
    requires AddBefore(p1, PacketHandlerId, outbound) == Success(p2)
    ensures DeferredInstall(p, inbound, outbound) == p2
  {
  }

  /** Inserting a at k and then b at k + 1 puts "a, b" at k. */
  lemma InsertTwice(p: Pipeline, k: nat, a: Stage, b: Stage)
    requires k <= |p|
    ensures var p1 := p[..k] + [a] + p[k..];
            p1[..k + 1] + [b] + p1[k + 1..] == p[..k] + [a, b] + p[k..]
  {
    var p1 := p[..k] + [a] + p[k..];
    assert p1[..k + 1] == p[..k] + [a];
    assert p1[k + 1..] == p[k..];
  }

  /** After the inbound stage went in before the anchor at k, the anchor sits at k + 1 and an unused name is still unused. */
  lemma AnchorAfterInsertion(p: Pipeline, k: nat, inbound: Stage, unused: string)
    requires k < |p| && p[k].Named() && p[k].name == PacketHandlerId && !HasName(p[..k], PacketHandlerId)
    requires inbound.Named() && inbound.name != PacketHandlerId && inbound.name != unused && !HasName(p, unused)
    ensures var p1 := p[..k] + [inbound] + p[k..];
            && HasName(p1, PacketHandlerId) && IndexOfName(p1, PacketHandlerId) == k + 1
            && !HasName(p1, unused)
  {
    var p1 := p[..k] + [inbound] + p[k..];
    assert p1[..k + 1] == p[..k] + [inbound];
    HasNameConcat(p[..k], [inbound], PacketHandlerId);
    assert p1[k + 1] == p[k];
    IndexOfNameAt(p1, PacketHandlerId, k + 1);
    assert p == p[..k] + p[k..];
    HasNameConcat(p[..k], p[k..], unused);
    HasNameConcat(p[..k] + [inbound], p[k..], unused);
    HasNameConcat(p[..k], [inbound], unused);
  }

  /** Removing in and then out from "... in, out ..." gives back the pipeline without them. */
  lemma UninstallLayout(p: Pipeline, k: nat, inbound: Stage, outbound: Stage)
    requires k <= |p| && inbound !in p[..k] && outbound !in p[..k] && inbound != outbound
    ensures RemoveIfPresent(RemoveIfPresent(p[..k] + [inbound, outbound] + p[k..], inbound), outbound) == p
  {
    PairLayout(p[..k], inbound, outbound, p[k..]);
    RemoveFromLayout(p[..k], inbound, [outbound] + p[k..]);
    RemoveInserted(p, k, outbound);
  }

  /** Regrouping "a, x, y, b" around x. */
  lemma PairLayout(a: Pipeline, x: Stage, y: Stage, b: Pipeline)
    ensures a + [x, y] + b == a + [x] + ([y] + b)
    ensures a + ([y] + b) == a + [y] + b
  {
  }

  /** The installation adds only named stages, so an unnamed stage (the init stage) is in the result exactly when it was before. */
  lemma InstallKeepsUnnamed(p: Pipeline, inbound: Stage, outbound: Stage, s: Stage)
    requires inbound.Named() && outbound.Named() && !s.Named()
    ensures s in DeferredInstall(p, inbound, outbound) <==> s in p
  {
    DeferredInstallContents(p, inbound, outbound);
    assert multiset(DeferredInstall(p, inbound, outbound))[s] == multiset(p)[s];
  }

  /** Installing on a pipeline that has the anchor and neither interceptor, then removing both, changes nothing. */
  lemma InstallRoundTrip(p: Pipeline, inbound: Stage, outbound: Stage)
    requires inbound.Named() && outbound.Named() && inbound.name != outbound.name
    requires HasName(p, PacketHandlerId) && !HasName(p, inbound.name) && !HasName(p, outbound.name)
    ensures RemoveIfPresent(RemoveIfPresent(DeferredInstall(p, inbound, outbound), inbound), outbound) == p
  {
    var k := IndexOfName(p, PacketHandlerId);
    InstallLayout(p, inbound, outbound);
    PrefixLacksInterceptors(p, k, inbound, outbound);
    UninstallLayout(p, k, inbound, outbound);
  }

  /** Stages whose names a pipeline lacks are absent from each of its prefixes. */
  lemma PrefixLacksInterceptors(p: Pipeline, k: nat, inbound: Stage, outbound: Stage)
    requires k <= |p| && inbound.Named() && outbound.Named()
    requires !HasName(p, inbound.name) && !HasName(p, outbound.name)
    ensures inbound !in p[..k] && outbound !in p[..k]
  {
    AbsentFromPrefix(p, k, inbound);
    AbsentFromPrefix(p, k, outbound);
  }
}
