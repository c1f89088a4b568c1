/**
  The host's per-channel stage chain, reduced to operations on sequences.

  A pipeline is the ordered list of stages a channel's messages pass through.
  The four operations the interception engine uses (addFirst, addLast,
  addBefore, remove) are stated here as sequence operations. Their failure
  rules follow the pipeline library's documented contract and are an
  ASSUMPTION of this model, not something the modelled code checks itself:
  - addBefore fails with DuplicateName when a stage of that name exists and
    with NoSuchStage when the anchor name is absent;
  - remove(stage) fails with NoSuchStage when the stage is absent and
    otherwise removes its first occurrence;
  - addFirst/addLast of an unnamed stage never fail; the pipeline gives such
    a stage a generated name that never clashes with an explicit one.
 */
module Pipelines {
  import opened Wrappers

  /** A channel is identified by an opaque number. */
  type Channel = nat

  /** The name of the host's own message-handling stage; interceptors go right before it. */
  const PacketHandlerId: string := "packet_handler"

  /**
    A pipeline participant. The interception engine owns four kinds of stage,
    each tagged with the owning instance: the listener-level stage and the
    per-connection init stage are added without a name, the inbound and
    outbound stages are added under their instance's stage ids.
   */
  datatype Stage =
    | Host(name: string)
    | ListenerInit(uniquifier: nat)
    | ConnectionInit(uniquifier: nat)
    | PacketIn(name: string)
    | PacketOut(name: string)
  {
    /** Whether the stage was added under an explicit name. */
    predicate Named() {
      Host? || PacketIn? || PacketOut?
    }
  }

  type Pipeline = seq<Stage>

  datatype PipelineError = DuplicateName(name: string) | NoSuchStage

  /** Some stage of `p` carries the explicit name `name`. */
  predicate HasName(p: Pipeline, name: string)
    decreases |p|
  {
    |p| > 0 && ((p[0].Named() && p[0].name == name) || HasName(p[1..], name))
  }

  /** No two stages of `p` share an explicit name (the pipeline's own invariant). */
  ghost predicate UniqueNames(p: Pipeline) {
    forall i, j :: 0 <= i < j < |p| && p[i].Named() && p[j].Named() ==> p[i].name != p[j].name
  }

  /** The channels of a host list are pairwise different. */
  ghost predicate Distinct(chans: seq<Channel>) {
    forall i, j :: 0 <= i < j < |chans| ==> chans[i] != chans[j]
  }

  function AddFirst(p: Pipeline, s: Stage): Pipeline {
    [s] + p
  }

  function AddLast(p: Pipeline, s: Stage): Pipeline {
    p + [s]
  }

  /** Position of the first occurrence of `s`. */
  function IndexOf(p: Pipeline, s: Stage): (i: nat)
    requires s in p
    ensures i < |p| && p[i] == s && s !in p[..i]
  {
    if p[0] == s then 0
    else
      var k := IndexOf(p[1..], s);
      assert p[..k + 1] == [p[0]] + p[1..][..k];
      k + 1
  }

  /** Position of the first stage named `name`. */
  function IndexOfName(p: Pipeline, name: string): (i: nat)
    requires HasName(p, name)
    ensures i < |p| && p[i].Named() && p[i].name == name
    ensures !HasName(p[..i], name)
  {
    if p[0].Named() && p[0].name == name then 0
    else
      var k := IndexOfName(p[1..], name);
      assert p[..k + 1] == [p[0]] + p[1..][..k];
      k + 1
  }

  /** addBefore(baseName, s.name, s): insert `s` right before the stage named `baseName`. */
  function AddBefore(p: Pipeline, baseName: string, s: Stage): Result<Pipeline, PipelineError>
    requires s.Named()
  {
    if HasName(p, s.name) then Failure(DuplicateName(s.name))
    else if !HasName(p, baseName) then Failure(NoSuchStage)
    else
      var i := IndexOfName(p, baseName);
      Success(p[..i] + [s] + p[i..])
  }

  /** remove(s): drop the first occurrence of `s`, failing when there is none. */
  function Remove(p: Pipeline, s: Stage): Result<Pipeline, PipelineError> {
    if s !in p then Failure(NoSuchStage)
    else
      var i := IndexOf(p, s);
      Success(p[..i] + p[i + 1..])
  }

  /** A removal that treats an absent stage as already removed. */
  function RemoveIfPresent(p: Pipeline, s: Stage): Pipeline {
    match Remove(p, s)
    case Success(q) => q
    case Failure(_) => p
  }

  /** The pipeline of channel `c`; a channel the map does not know has an empty one. */
  function Get(pipes: map<Channel, Pipeline>, c: Channel): Pipeline {
    if c in pipes then pipes[c] else []
  }

  /** One edit applied to every pipeline of a sweep. */
  datatype Edit = Prepend(stage: Stage) | Append(stage: Stage) | Strip(stage: Stage) | StripBoth(first: Stage, second: Stage)

  function Apply(e: Edit, p: Pipeline): Pipeline {
    match e
    case Prepend(s) => AddFirst(p, s)
    case Append(s) => AddLast(p, s)
    case Strip(s) => RemoveIfPresent(p, s)
    case StripBoth(s, t) => RemoveIfPresent(RemoveIfPresent(p, s), t)
  }

  /** The pipelines after a sweep that edits the channels of `chans` in list order. */
  function ForEach(pipes: map<Channel, Pipeline>, chans: seq<Channel>, e: Edit): map<Channel, Pipeline>
    decreases |chans|
  {
    if chans == [] then pipes
    else
      var rest := ForEach(pipes, chans[..|chans| - 1], e);
      var c := chans[|chans| - 1];
      rest[c := Apply(e, Get(rest, c))]
  }

  // ---------------------------------------------------------------------
  // Properties of the operations
  // ---------------------------------------------------------------------

  /** A name occurs in a concatenation exactly when it occurs in one of the parts. */
  lemma {:induction false} HasNameConcat(a: Pipeline, b: Pipeline, name: string)
    ensures HasName(a + b, name) <==> HasName(a, name) || HasName(b, name)
    decreases |a|
  {
    if a == [] {
      assert a + b == b;
    } else {
      assert (a + b)[1..] == a[1..] + b;
      HasNameConcat(a[1..], b, name);
    }
  }

  /** HasName holds exactly when some position carries the name. */
  lemma HasNameIff(p: Pipeline, name: string)
    ensures HasName(p, name) <==> exists i :: 0 <= i < |p| && p[i].Named() && p[i].name == name
  {
    forall i | 0 <= i < |p| && p[i].Named() && p[i].name == name
      ensures HasName(p, name)
    {
      assert p == p[..i] + [p[i]] + p[i + 1..];
      HasNameConcat(p[..i] + [p[i]], p[i + 1..], name);
      HasNameConcat(p[..i], [p[i]], name);
    }
    if HasName(p, name) {
      var i := IndexOfName(p, name);
    }
  }

  /** A name no stage carries is carried at no position. */
  lemma AbsentNameEverywhere(p: Pipeline, name: string)
    requires !HasName(p, name)
    ensures forall i :: 0 <= i < |p| && p[i].Named() ==> p[i].name != name
  {
    HasNameIff(p, name);
  }

  /** A named stage cannot be present when its name is not. */
  lemma AbsentNameAbsentStage(p: Pipeline, s: Stage)
    requires s.Named() && !HasName(p, s.name)
    ensures s !in p
  {
    HasNameIff(p, s.name);
    forall t | 0 <= t < |p|
      ensures p[t] != s
    {
      assert !(p[t].Named() && p[t].name == s.name);
    }
  }

  /** A sweep over distinct channels edits each listed channel once and leaves the others alone. */
  lemma {:induction false} ForEachAt(pipes: map<Channel, Pipeline>, chans: seq<Channel>, e: Edit, c: Channel)
    requires Distinct(chans)
    ensures Get(ForEach(pipes, chans, e), c) == if c in chans then Apply(e, Get(pipes, c)) else Get(pipes, c)
    decreases |chans|
  {
    if chans != [] {
      var init := chans[..|chans| - 1];
      var last := chans[|chans| - 1];
      assert chans == init + [last];
      assert Distinct(init);
      ForEachAt(pipes, init, e, c);
      if c == last {
        assert c !in init;
      } else {
        assert c in chans <==> c in init;
      }
    }
  }

  /** A sweep that stopped after the first k channels of a distinct list edited exactly those. */
  lemma ForEachPrefixAt(pipes: map<Channel, Pipeline>, chans: seq<Channel>, k: nat, e: Edit, c: Channel)
    requires Distinct(chans) && k <= |chans|
    ensures Get(ForEach(pipes, chans[..k], e), c) == if c in chans[..k] then Apply(e, Get(pipes, c)) else Get(pipes, c)
  {
    assert Distinct(chans[..k]);
    ForEachAt(pipes, chans[..k], e, c);
  }

  /** A sweep over the first i + 1 channels is the sweep over the first i followed by the edit of channel i. */
  lemma ForEachStep(pipes: map<Channel, Pipeline>, chans: seq<Channel>, i: nat, e: Edit)
    requires i < |chans|
    ensures var rest := ForEach(pipes, chans[..i], e);
            ForEach(pipes, chans[..i + 1], e) == rest[chans[i] := Apply(e, Get(rest, chans[i]))]
  {
    assert chans[..i + 1][..i] == chans[..i];
  }

  /** A sweep only ever adds the swept channels to the map's domain. */
  lemma {:induction false} ForEachKeys(pipes: map<Channel, Pipeline>, chans: seq<Channel>, e: Edit)
    ensures ForEach(pipes, chans, e).Keys == pipes.Keys + set c | c in chans
    decreases |chans|
  {
    if chans != [] {
      var init := chans[..|chans| - 1];
      assert chans == init + [chans[|chans| - 1]];
      ForEachKeys(pipes, init, e);
    }
  }

  /** Removing an unnamed stage added at the front gives the original pipeline back. */
  lemma RemoveAddFirst(p: Pipeline, s: Stage)
    ensures Remove(AddFirst(p, s), s) == Success(p)
  {
    var q := AddFirst(p, s);
    assert IndexOf(q, s) == 0;
    assert q[..0] + q[1..] == p;
  }

  /** Removing a stage appended to a pipeline that did not hold it gives the original back. */
  lemma RemoveAddLast(p: Pipeline, s: Stage)
    requires s !in p
    ensures Remove(AddLast(p, s), s) == Success(p)
  {
    RemoveFromLayout(p, s, []);
    assert p + [s] + [] == AddLast(p, s) && p + [] == p;
  }

  /** Removing one stage does not change whether a different stage is present. */
  lemma RemoveKeepsOthers(p: Pipeline, s: Stage, t: Stage)
    requires s != t
    ensures t in RemoveIfPresent(p, s) <==> t in p
  {
    if s in p {
      var i := IndexOf(p, s);
      assert p == p[..i] + [s] + p[i + 1..];
    }
  }

  /** In a pipeline with unique names, removing a named stage leaves no copy of it behind. */
  lemma RemoveNamedIsComplete(p: Pipeline, s: Stage)
    requires UniqueNames(p) && s.Named()
    ensures s !in RemoveIfPresent(p, s)
  {
    if s in p {
      var i := IndexOf(p, s);
      var q := p[..i] + p[i + 1..];
      forall j | 0 <= j < |q|
        ensures q[j] != s
      {
        if j < i {
          assert q[j] == p[..i][j];
        } else {
          assert q[j] == p[j + 1] && p[i].name == s.name;
        }
      }
    }
  }

  /** Removal never creates a name clash. */
  lemma RemoveKeepsNamesUnique(p: Pipeline, s: Stage)
    requires UniqueNames(p)
    ensures UniqueNames(RemoveIfPresent(p, s))
  {
    if s in p {
      var i := IndexOf(p, s);
      var q := p[..i] + p[i + 1..];
      forall a, b | 0 <= a < b < |q| && q[a].Named() && q[b].Named()
        ensures q[a].name != q[b].name
      {
        var a' := if a < i then a else a + 1;
        var b' := if b < i then b else b + 1;
        assert q[a] == p[a'] && q[b] == p[b'];
      }
    }
  }

  /** Adding an unnamed stage never creates a name clash. */
  lemma AddUnnamedKeepsNamesUnique(p: Pipeline, s: Stage)
    requires UniqueNames(p) && !s.Named()
    ensures UniqueNames(AddFirst(p, s)) && UniqueNames(AddLast(p, s))
  {
    var f := AddFirst(p, s);
    forall a, b | 0 <= a < b < |f| && f[a].Named() && f[b].Named()
      ensures f[a].name != f[b].name
    {
      assert f[a] == p[a - 1] && f[b] == p[b - 1];
    }
  }

  /** Every edit of a sweep keeps names unique. */
  lemma ApplyKeepsNamesUnique(e: Edit, p: Pipeline)
    requires UniqueNames(p)
    requires (e.Prepend? || e.Append?) ==> !e.stage.Named()
    ensures UniqueNames(Apply(e, p))
  {
    match e
    case Prepend(s) => AddUnnamedKeepsNamesUnique(p, s);
    case Append(s) => AddUnnamedKeepsNamesUnique(p, s);
    case Strip(s) => RemoveKeepsNamesUnique(p, s);
    case StripBoth(s, t) =>
      RemoveKeepsNamesUnique(p, s);
      RemoveKeepsNamesUnique(RemoveIfPresent(p, s), t);
  }

  /** The first stage with a given name is determined by where it is and what precedes it. */
  lemma IndexOfNameAt(p: Pipeline, name: string, j: nat)
    requires j < |p| && p[j].Named() && p[j].name == name && !HasName(p[..j], name)
    ensures HasName(p, name) && IndexOfName(p, name) == j
  {
    HasNameIff(p, name);
    var k := IndexOfName(p, name);
    HasNameIff(p[..j], name);
    HasNameIff(p[..k], name);
    assert forall t :: 0 <= t < j ==> p[..j][t] == p[t];
    assert forall t :: 0 <= t < k ==> p[..k][t] == p[t];
  }

  /** A successful addBefore puts the new stage immediately before the anchor and changes nothing else. */
  lemma AddBeforeLayout(p: Pipeline, baseName: string, s: Stage)
    requires s.Named() && HasName(p, baseName) && !HasName(p, s.name)
    ensures var k := IndexOfName(p, baseName);
            && AddBefore(p, baseName, s) == Success(p[..k] + [s] + p[k..])
            && p[k..][0].Named() && p[k..][0].name == baseName
  {
  }

  /** Removing the stage a successful addBefore inserted gives the original pipeline back. */
  lemma AddBeforeUndone(p: Pipeline, baseName: string, s: Stage)
    requires s.Named() && HasName(p, baseName) && !HasName(p, s.name)
    ensures AddBefore(p, baseName, s).Success?
    ensures Remove(AddBefore(p, baseName, s).value, s) == Success(p)
  {
    var k := IndexOfName(p, baseName);
    AddBeforeLayout(p, baseName, s);
    AbsentFromPrefix(p, k, s);
    RemoveInserted(p, k, s);
  }

  /** A stage whose name a pipeline lacks is absent from each of its prefixes. */
  lemma AbsentFromPrefix(p: Pipeline, k: nat, s: Stage)
    requires k <= |p| && s.Named() && !HasName(p, s.name)
    ensures s !in p[..k]
  {
    assert p == p[..k] + p[k..];
    HasNameConcat(p[..k], p[k..], s.name);
    AbsentNameAbsentStage(p[..k], s);
  }

  /** Removal cuts out the first occurrence. */
  lemma RemoveAt(p: Pipeline, s: Stage, i: nat)
    requires i < |p| && p[i] == s && s !in p[..i]
    ensures Remove(p, s) == Success(p[..i] + p[i + 1..])
  {
    IndexOfNameAtStage(p, s, i);
  }

  /** Removing a stage from "a, s, b", where a does not hold it, leaves "a, b". */
  lemma RemoveFromLayout(a: Pipeline, s: Stage, b: Pipeline)
    requires s !in a
    ensures Remove(a + [s] + b, s) == Success(a + b)
  {
    var q := a + [s] + b;
    assert q[..|a|] == a && q[|a|] == s;
    RemoveAt(q, s, |a|);
    assert q[|a| + 1..] == b;
  }

  /** Removing a stage inserted at position k, where the prefix does not hold it, undoes the insertion. */
  lemma RemoveInserted(p: Pipeline, k: nat, s: Stage)
    requires k <= |p| && s !in p[..k]
    ensures Remove(p[..k] + [s] + p[k..], s) == Success(p)
  {
    RemoveFromLayout(p[..k], s, p[k..]);
    assert p[..k] + p[k..] == p;
  }

  /** The first occurrence of a stage is fixed by where it is and what precedes it. */
  lemma IndexOfNameAtStage(p: Pipeline, s: Stage, j: nat)
    requires j < |p| && p[j] == s && s !in p[..j]
    ensures s in p && IndexOf(p, s) == j
  {
    var k := IndexOf(p, s);
    assert forall t :: 0 <= t < j ==> p[..j][t] == p[t];
    assert forall t :: 0 <= t < k ==> p[..k][t] == p[t];
  }

  /** A successful addBefore keeps names unique. */
  lemma AddBeforeKeepsNamesUnique(p: Pipeline, baseName: string, s: Stage)
    requires UniqueNames(p) && s.Named()
    ensures AddBefore(p, baseName, s).Success? ==> UniqueNames(AddBefore(p, baseName, s).value)
  {
    if !HasName(p, s.name) && HasName(p, baseName) {
      AddBeforeLayout(p, baseName, s);
      AbsentNameEverywhere(p, s.name);
      InsertKeepsNamesUnique(p, IndexOfName(p, baseName), s);
    }
  }

  /** Inserting a stage whose name no stage carries keeps names unique. */
  lemma InsertKeepsNamesUnique(p: Pipeline, k: nat, s: Stage)
    requires UniqueNames(p) && k <= |p| && s.Named()
    requires forall i :: 0 <= i < |p| && p[i].Named() ==> p[i].name != s.name
    ensures UniqueNames(p[..k] + [s] + p[k..])
  {
    var q := p[..k] + [s] + p[k..];
    forall a, b | 0 <= a < b < |q| && q[a].Named() && q[b].Named()
      ensures q[a].name != q[b].name
    {
      if a == k {
        assert q[b] == p[b - 1];
      } else if b == k {
        assert q[a] == p[a];
      } else {
        var a' := if a < k then a else a - 1;
        var b' := if b < k then b else b - 1;
        assert q[a] == p[a'] && q[b] == p[b'];
      }
    }
  }

  /** Removal takes exactly one copy of the stage out of the pipeline, when it holds one. */
  lemma RemoveContents(p: Pipeline, s: Stage)
    ensures multiset(RemoveIfPresent(p, s)) == if s in p then multiset(p) - multiset{s} else multiset(p)
  {
    if s in p {
      var i := IndexOf(p, s);
      assert p == p[..i] + [s] + p[i + 1..];
    }
  }

  /** Removing one stage keeps the number of copies of any other stage. */
  lemma RemoveKeepsCount(p: Pipeline, s: Stage, t: Stage)
    requires s != t
    ensures multiset(RemoveIfPresent(p, s))[t] == multiset(p)[t]
  {
    RemoveContents(p, s);
  }

  /** A stage held at most once is gone once removed. */
  lemma RemoveSoleCopy(p: Pipeline, s: Stage)
    requires multiset(p)[s] <= 1
    ensures s !in RemoveIfPresent(p, s)
  {
    RemoveContents(p, s);
  }

  /** A successful addBefore adds the new stage to the pipeline and nothing else. */
  lemma AddBeforeContents(p: Pipeline, baseName: string, s: Stage)
    requires s.Named()
    ensures AddBefore(p, baseName, s).Success? ==> multiset(AddBefore(p, baseName, s).value) == multiset(p) + multiset{s}
  {
    if !HasName(p, s.name) && HasName(p, baseName) {
      AddBeforeLayout(p, baseName, s);
      InsertContents(p, IndexOfName(p, baseName), s);
    }
  }

  /** Inserting a stage anywhere adds exactly that stage to the contents. */
  lemma InsertContents(p: Pipeline, k: nat, s: Stage)
    requires k <= |p|
    ensures multiset(p[..k] + [s] + p[k..]) == multiset(p) + multiset{s}
  {
    assert p[..k] + p[k..] == p;
  }

  /** Stripping two different named stages from a pipeline with unique names leaves neither behind. */
  lemma StripBothIsComplete(p: Pipeline, s: Stage, t: Stage)
    requires UniqueNames(p) && s.Named() && t.Named() && s != t
    ensures s !in Apply(StripBoth(s, t), p) && t !in Apply(StripBoth(s, t), p)
  {
    var q := RemoveIfPresent(p, s);
    RemoveNamedIsComplete(p, s);
    RemoveKeepsNamesUnique(p, s);
    RemoveNamedIsComplete(q, t);
    RemoveKeepsOthers(q, t, s);
  }
}
