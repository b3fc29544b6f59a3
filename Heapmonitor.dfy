/** The heap monitor (SCons.Heapmonitor): the registry of tracked objects
    and classes, the size samples kept per object, the string truncation
    used by its reports, and the pruning of garbage-collector output down to
    the objects that sit on reference cycles. Object sizes, clock readings,
    liveness and the referents of an object are inputs. */
module Heapmonitor {
  import opened Util

  // ---------------------------------------------------------------------
  // Report strings

  /** s with every newline replaced by '|' (str.replace of one character). */
  function NoNewlines(s: string): (r: string)
    ensures |r| == |s| && '\n' !in r
    ensures forall i :: 0 <= i < |s| ==> r[i] == (if s[i] == '\n' then '|' else s[i])
  {
    seq(|s|, i requires 0 <= i < |s| => if s[i] == '\n' then '|' else s[i])
  }

  /** Python's s[start:] for any integer start. */
  function SliceFrom(s: string, start: int): (r: string)
    ensures 0 <= start <= |s| ==> r == s[start..]
    ensures start > |s| ==> r == []
    ensures |r| <= |s| && r == s[|s| - |r|..]
  {
    var k := if start >= 0 then start else if |s| + start >= 0 then |s| + start else 0;
    if k >= |s| then [] else s[k..]
  }

  /** Python's s[:stop] for any integer stop. */
  function SliceTo(s: string, stop: int): (r: string)
    ensures 0 <= stop <= |s| ==> r == s[..stop]
    ensures |r| <= |s| && r == s[..|r|]
  {
    var k := if stop >= 0 then stop else if |s| + stop >= 0 then |s| + stop else 0;
    if k >= |s| then s else s[..k]
  }

  /** _trunc: newlines become '|'; a text longer than max loses its end (or,
      with left, its beginning) to an ellipsis. */
  function Trunc(s: string, max: int, left: bool): (r: string)
    ensures '\n' !in r
    ensures |NoNewlines(s)| <= max ==> r == NoNewlines(s)
  {
    var t := NoNewlines(s);
    if |t| > max then
      if left then "..." + SliceFrom(t, |t| - max + 3) else SliceTo(t, max - 3) + "..."
    else t
  }

  /** For max of at least 3 a long text is cut to exactly max characters:
      its last max-3 characters after '...', or its first max-3 before. */
  lemma TruncLength(s: string, max: int, left: bool)
    requires max >= 3 && |NoNewlines(s)| > max
    ensures var t, r := NoNewlines(s), Trunc(s, max, left);
      && |r| == max
      && (left ==> r == "..." + t[|t| - (max - 3)..])
      && (!left ==> r == t[..max - 3] + "...")
  {
  }

  /** Below 3 the ellipsis alone is longer than max: the result still ends
      or starts with '...'. */
  lemma TruncTinyMax(s: string, max: int, left: bool)
    requires max < 3 && |NoNewlines(s)| > max
    ensures var r := Trunc(s, max, left);
      && |r| >= 3 && |r| > max
      && (left ==> r == "...")
      && (!left ==> r[|r| - 3..] == "...")
  {
  }

  // ---------------------------------------------------------------------
  // Size samples of one tracked object

  /** One (timestamp, size) sample. */
  datatype Sample = Sample(time: int, size: int)

  /** get_max_size: the largest sampled size, 0 without samples. */
  function MaxSize(fp: seq<Sample>): (r: int)
    ensures fp == [] ==> r == 0
    ensures forall i :: 0 <= i < |fp| ==> fp[i].size <= r
    ensures fp != [] ==> exists i :: 0 <= i < |fp| && r == fp[i].size
  {
    if fp == [] then 0
    else if |fp| == 1 then fp[0].size
    else
      var rest := MaxSize(fp[1..]);
      assert forall i :: 1 <= i < |fp| ==> fp[i] == fp[1..][i - 1];
      if fp[0].size >= rest then fp[0].size
      else
        var k :| 0 <= k < |fp[1..]| && rest == fp[1..][k].size;
        assert rest == fp[k + 1].size;
        rest
  }

  /** get_size_at_time: the size of the first sample taken at ts, else 0. */
  function SizeAt(fp: seq<Sample>, ts: int): (r: int)
    ensures (forall i :: 0 <= i < |fp| ==> fp[i].time != ts) ==> r == 0
    ensures (exists i :: 0 <= i < |fp| && fp[i].time == ts) ==>
      exists i :: 0 <= i < |fp| && fp[i].time == ts && r == fp[i].size
        && forall j :: 0 <= j < i ==> fp[j].time != ts
  {
    if fp == [] then 0
    else if fp[0].time == ts then fp[0].size
    else
      var r := SizeAt(fp[1..], ts);
      if exists i :: 0 <= i < |fp| && fp[i].time == ts then
        var i :| 0 <= i < |fp| && fp[i].time == ts;
        assert fp[1..][i - 1].time == ts;
        var k :| 0 <= k < |fp[1..]| && fp[1..][k].time == ts && r == fp[1..][k].size
                 && forall j :: 0 <= j < k ==> fp[1..][j].time != ts;
        assert fp[k + 1] == fp[1..][k];
        assert forall j :: 1 <= j < k + 1 ==> fp[j] == fp[1..][j - 1];
        r
      else r
  }

  /** The same question asked with a timestamp that may be missing: no
      sample matches a missing one. */
  function SizeAtOpt(fp: seq<Sample>, ts: Option<int>): (r: int)
    ensures ts.None? ==> r == 0
  {
    if ts.None? then 0 else SizeAt(fp, ts.value)
  }

  // ---------------------------------------------------------------------
  // Tracked objects and classes

  /** A class: an identity (its address), module and name. */
  datatype ClassInfo = ClassInfo(key: nat, moduleName: string, name: string)

  /** An object handed to the monitor: its id, its class, and whether a weak
      reference to it can be made. */
  datatype Instance = Instance(id: int, cls: ClassInfo, weakrefable: bool)

  datatype HeapError = TypeError | KeyError | ValueError

  /** Size and lifetime record of one tracked object. alive stands for the
      weak reference still reaching the object. */
  class TrackedObject {
    const id: int
    const cls: ClassInfo
    const birth: int
    var death: Option<int>
    var alive: bool
    var resolutionLevel: int
    var footprint: seq<Sample>

    /** The record track_object makes: the instance's id and class, born
        now, alive and not dead, at the level, with one sample of the
        initial size. */
    predicate NewRecord(inst: Instance, level: int, now: int, size: int)
      reads this
    {
      id == inst.id && cls == inst.cls && birth == now && death.None? && alive
      && resolutionLevel == level && footprint == [Sample(now, size)]
    }

    constructor(inst: Instance, resolutionLevel: int, now: int, size: int)
      ensures NewRecord(inst, resolutionLevel, now, size)
    {
      id := inst.id;
      cls := inst.cls;
      birth := now;
      death := None;
      alive := true;
      this.resolutionLevel := resolutionLevel;
      footprint := [Sample(now, size)];
    }

    /** The size at a snapshot, scanning the samples in order. */
    method GetSizeAtTime(ts: int) returns (r: int)
      ensures r == SizeAt(footprint, ts)
    {
      var i := 0;
      while i < |footprint|
        invariant 0 <= i <= |footprint|
        invariant SizeAt(footprint[i..], ts) == SizeAt(footprint, ts)
      {
        assert footprint[i..][0] == footprint[i] && footprint[i..][1..] == footprint[i + 1..];
        if footprint[i].time == ts {
          return footprint[i].size;
        }
        i := i + 1;
      }
      return 0;
    }

    method SetResolutionLevel(level: int)
      modifies this
      ensures resolutionLevel == level
      ensures death == old(death) && alive == old(alive) && footprint == old(footprint)
    {
      resolutionLevel := level;
    }

    /** The weak-reference callback: the object is gone. */
    method Finalize(now: int)
      modifies this
      ensures death == Some(now) && !alive
      ensures resolutionLevel == old(resolutionLevel) && footprint == old(footprint)
    {
      death := Some(now);
      alive := false;
    }
  }

  /** The settings kept for a tracked class. */
  class Observer {
    var name: string
    var detail: int
    var keep: bool
    var trace: bool

    constructor(name: string, detail: int, keep: bool, trace: bool)
      ensures this.name == name && this.detail == detail && this.keep == keep && this.trace == trace
    {
      this.name := name;
      this.detail := detail;
      this.keep := keep;
      this.trace := trace;
    }

    method Modify(name: string, detail: int, keep: bool, trace: bool)
      modifies this
      ensures this.name == name && this.detail == detail && this.keep == keep && this.trace == trace
    {
      this.name := name;
      this.detail := detail;
      this.keep := keep;
      this.trace := trace;
    }
  }

  /** The name track_class records for a class without an explicit one. */
  function ClassName(cls: ClassInfo, name: Option<string>): (r: string)
    ensures name.Some? ==> r == name.value
    ensures name.None? ==> r == cls.moduleName + "." + cls.name
  {
    if name.Some? then name.value else cls.moduleName + "." + cls.name
  }

  /** Every object reachable by id carries that id and is listed in the
      index under some name. */
  ghost predicate Indexed(objects: map<int, TrackedObject>, index: map<string, seq<TrackedObject>>)
  {
    forall i :: i in objects ==> objects[i].id == i && exists n :: n in index && objects[i] in index[n]
  }

  /** Adding a record under its id and appending it under a name keeps
      every object indexed. */
  lemma IndexedAdd(objects: map<int, TrackedObject>, index: map<string, seq<TrackedObject>>, to: TrackedObject, n: string)
    requires Indexed(objects, index)
    ensures Indexed(objects[to.id := to], index[n := (if n in index then index[n] else []) + [to]])
  {
    var objects' := objects[to.id := to];
    var index' := index[n := (if n in index then index[n] else []) + [to]];
    forall i | i in objects'
      ensures objects'[i].id == i && exists m :: m in index' && objects'[i] in index'[m]
    {
      if i == to.id {
        assert to in index'[n];
      } else {
        var m :| m in index && objects[i] in index[m];
        assert m in index' && objects[i] in index'[m];
      }
    }
  }

  /** The module state: objects by name and by id, the snapshots taken, the
      instances kept alive, and the observers of tracked classes. */
  class Monitor {
    var trackedIndex: map<string, seq<TrackedObject>>
    var trackedObjects: map<int, TrackedObject>
    var footprint: seq<int>
    var keepalive: seq<Instance>
    var observers: map<nat, Observer>

    /** Every object reachable by id carries that id and is listed in the
        index under some name. */
    ghost predicate Valid()
      reads this
    {
      Indexed(trackedObjects, trackedIndex)
    }

    constructor()
      ensures trackedIndex == map[] && trackedObjects == map[] && footprint == []
      ensures keepalive == [] && observers == map[]
      ensures Valid()
    {
      trackedIndex := map[];
      trackedObjects := map[];
      footprint := [];
      keepalive := [];
      observers := map[];
    }

    /** track_object. An id whose record is still alive is left alone; an
        object that cannot be weakly referenced raises TypeError; otherwise a
        fresh record is appended under the name (the class name by default)
        and the id maps to it, and keep holds the instance alive. */
    method TrackObject(inst: Instance, name: Option<string>, level: int, keep: bool,
                       now: int, size: int) returns (r: Result<(), HeapError>)
      requires Valid()
      modifies this
      ensures Valid()
      ensures observers == old(observers) && footprint == old(footprint)
      ensures old(inst.id in trackedObjects && trackedObjects[inst.id].alive) ==>
        r.Ok? && trackedIndex == old(trackedIndex) && trackedObjects == old(trackedObjects)
        && keepalive == old(keepalive)
      ensures old(!(inst.id in trackedObjects && trackedObjects[inst.id].alive)) && !inst.weakrefable ==>
        r == Err(TypeError) && trackedIndex == old(trackedIndex) && trackedObjects == old(trackedObjects)
        && keepalive == old(keepalive)
      ensures inst.weakrefable ==> inst.id in trackedObjects
      ensures old(!(inst.id in trackedObjects && trackedObjects[inst.id].alive)) && inst.weakrefable ==>
        var n := if name.Some? then name.value else inst.cls.name;
        var to := trackedObjects[inst.id];
        && r.Ok? && fresh(to) && to.NewRecord(inst, level, now, size)
        && trackedObjects == old(trackedObjects)[inst.id := to]
        && trackedIndex == old(trackedIndex)[n := (if n in old(trackedIndex) then old(trackedIndex)[n] else []) + [to]]
        && keepalive == old(keepalive) + (if keep then [inst] else [])
    {
      if inst.id in trackedObjects && trackedObjects[inst.id].alive {
        return Ok(());
      }
      if !inst.weakrefable {
        return Err(TypeError);
      }
      var to := new TrackedObject(inst, level, now, size);
      var n := if name.Some? then name.value else inst.cls.name;
      IndexedAdd(trackedObjects, trackedIndex, to, n);
      var listed := if n in trackedIndex then trackedIndex[n] else [];
      trackedIndex := trackedIndex[n := listed + [to]];
      trackedObjects := trackedObjects[inst.id := to];
      if keep {
        keepalive := keepalive + [inst];
      }
      return Ok(());
    }

    /** track_change: a new resolution level for a tracked id; KeyError for
        an unknown one. */
    method TrackChange(id: int, level: int) returns (r: Result<(), HeapError>)
      modifies trackedObjects.Values
      ensures (r.Ok? <==> id in trackedObjects) && (r.Err? ==> r.error == KeyError)
      ensures trackedObjects == old(trackedObjects) && trackedIndex == old(trackedIndex)
      ensures r.Ok? ==> var to := trackedObjects[id];
        to.resolutionLevel == level
        && to.death == old(to.death) && to.alive == old(to.alive) && to.footprint == old(to.footprint)
      ensures forall i | i in trackedObjects && !(r.Ok? && trackedObjects[i] == trackedObjects[id]) ::
        unchanged(trackedObjects[i])
    {
      if id !in trackedObjects {
        return Err(KeyError);
      }
      trackedObjects[id].SetResolutionLevel(level);
      return Ok(());
    }

    /** track_class: a class already tracked only gets new settings on its
        existing observer; otherwise an observer is installed. */
    method TrackClass(cls: ClassInfo, name: Option<string>, level: int, keep: bool, trace: bool)
      modifies this, observers.Values
      ensures observers.Keys == old(observers.Keys) + {cls.key}
      ensures forall k :: k in old(observers) ==> observers[k] == old(observers)[k]
      ensures var o := observers[cls.key];
        o.name == ClassName(cls, name) && o.detail == level && o.keep == keep && o.trace == trace
      ensures cls.key !in old(observers) ==> fresh(observers[cls.key])
      ensures forall k | k in old(observers) && observers[k] != observers[cls.key] :: unchanged(observers[k])
      ensures trackedIndex == old(trackedIndex) && trackedObjects == old(trackedObjects)
      ensures footprint == old(footprint) && keepalive == old(keepalive)
    {
      var n := ClassName(cls, name);
      if cls.key in observers {
        observers[cls.key].Modify(n, level, keep, trace);
      } else {
        var o := new Observer(n, level, keep, trace);
        observers := observers[cls.key := o];
      }
    }

    /** A new instance of a class: the injected constructor tracks it with
        the class's settings; other classes are untouched. */
    method InstanceCreated(inst: Instance, now: int, size: int) returns (r: Result<(), HeapError>)
      requires Valid()
      modifies this
      ensures Valid()
      ensures inst.cls.key !in observers ==> r.Ok? && unchanged(this)
      ensures observers == old(observers)
      ensures footprint == old(footprint)
      ensures inst.cls.key in observers && old(inst.id in trackedObjects && trackedObjects[inst.id].alive) ==>
        r.Ok? && trackedIndex == old(trackedIndex) && trackedObjects == old(trackedObjects)
        && keepalive == old(keepalive)
      ensures inst.cls.key in observers && old(!(inst.id in trackedObjects && trackedObjects[inst.id].alive))
              && !inst.weakrefable ==>
        r == Err(TypeError) && trackedIndex == old(trackedIndex) && trackedObjects == old(trackedObjects)
        && keepalive == old(keepalive)
      ensures inst.cls.key in observers && inst.weakrefable ==> r.Ok? && inst.id in trackedObjects
      ensures inst.cls.key in observers && inst.weakrefable && old(!(inst.id in trackedObjects && trackedObjects[inst.id].alive)) ==>
        var o := observers[inst.cls.key];
        var n := o.name;
        var to := trackedObjects[inst.id];
        && fresh(to) && to.NewRecord(inst, o.detail, now, size)
        && trackedObjects == old(trackedObjects)[inst.id := to]
        && trackedIndex == old(trackedIndex)[n := (if n in old(trackedIndex) then old(trackedIndex)[n] else []) + [to]]
        && keepalive == old(keepalive) + (if o.keep then [inst] else [])
    {
      if inst.cls.key !in observers {
        return Ok(());
      }
      var o := observers[inst.cls.key];
      r := TrackObject(inst, Some(o.name), o.detail, o.keep, now, size);
    }

    /** detach_class: forget a tracked class; KeyError for one that is not. */
    method DetachClass(key: nat) returns (r: Result<(), HeapError>)
      modifies this
      ensures (r.Ok? <==> key in old(observers)) && (r.Err? ==> r.error == KeyError)
      ensures observers == old(observers) - {key}
      ensures trackedIndex == old(trackedIndex) && trackedObjects == old(trackedObjects)
      ensures footprint == old(footprint) && keepalive == old(keepalive)
    {
      if key !in observers {
        return Err(KeyError);
      }
      observers := observers - {key};
      return Ok(());
    }

    /** detach_all_classes: every tracked class is detached. */
    method DetachAllClasses()
      modifies this
      ensures observers == map[]
      ensures trackedIndex == old(trackedIndex) && trackedObjects == old(trackedObjects)
      ensures footprint == old(footprint) && keepalive == old(keepalive)
    {
      while observers != map[]
        invariant trackedIndex == old(trackedIndex) && trackedObjects == old(trackedObjects)
        invariant footprint == old(footprint) && keepalive == old(keepalive)
        decreases |observers.Keys|
      {
        ghost var before := observers.Keys;
        var k :| k in observers;
        var _ := DetachClass(k);
        assert k in before && k !in observers.Keys;
      }
    }

    /** detach_all: no tracked class, no tracked object, nothing kept alive.
        The snapshots stay. */
    method DetachAll()
      modifies this
      ensures observers == map[] && trackedObjects == map[] && trackedIndex == map[] && keepalive == []
      ensures footprint == old(footprint)
      ensures Valid()
    {
      DetachAllClasses();
      trackedObjects := map[];
      trackedIndex := map[];
      keepalive := [];
    }

    /** clear: detach_all, and the snapshots go too. */
    method Clear()
      modifies this
      ensures observers == map[] && trackedObjects == map[] && trackedIndex == map[] && keepalive == []
      ensures footprint == []
      ensures Valid()
    {
      DetachAll();
      footprint := [];
    }
  }

  // ---------------------------------------------------------------------
  // Pruning garbage to reference cycles

  /** The objects of graph, by id. */
  function Ids(graph: seq<nat>): set<nat>
  {
    set n | n in graph
  }

  /** eliminate_leafs, as a specification: the nodes, in order, that refer
      to at least one node of the graph. */
  function Leafless(graph: seq<nat>, refs: nat -> set<nat>): (r: seq<nat>)
    ensures |r| <= |graph|
    ensures forall n :: n in r <==> n in graph && refs(n) * Ids(graph) != {}
  {
    Filter(graph, RefersInto(Ids(graph), refs))
  }

  /** The test eliminate_leafs applies to each node. */
  function RefersInto(ids: set<nat>, refs: nat -> set<nat>): nat -> bool
  {
    (n: nat) => refs(n) * ids != {}
  }

  /** eliminate_leafs: one pass over the graph. */
  method EliminateLeafs(graph: seq<nat>, refs: nat -> set<nat>) returns (result: seq<nat>)
    ensures result == Leafless(graph, refs)
  {
    result := [];
    var ids := set n | n in graph;
    ghost var p := RefersInto(ids, refs);
    var i := 0;
    while i < |graph|
      invariant 0 <= i <= |graph|
      invariant result == Filter(graph[..i], p)
    {
      FilterSnoc(graph[..i], graph[i], p);
      assert graph[..i + 1] == graph[..i] + [graph[i]];
      if refs(graph[i]) * ids != {} {
        result := result + [graph[i]];
      }
      i := i + 1;
    }
    assert graph[..i] == graph;
  }

  lemma {:induction false} FilterSnoc(s: seq<nat>, x: nat, p: nat -> bool)
    ensures Filter(s + [x], p) == Filter(s, p) + (if p(x) then [x] else [])
    decreases |s|
  {
    if s == [] {
      assert [x][1..] == [];
    } else {
      assert (s + [x])[1..] == s[1..] + [x];
      FilterSnoc(s[1..], x, p);
    }
  }

  /** A filter that drops nothing returns its input. */
  lemma {:induction false} FilterKeepsAll(s: seq<nat>, p: nat -> bool)
    requires |Filter(s, p)| == |s|
    ensures Filter(s, p) == s
    decreases |s|
  {
    if s != [] {
      assert p(s[0]);
      FilterKeepsAll(s[1..], p);
    }
  }

  /** The pruning loop of find_garbage as a specification: eliminate leaves
      until a pass removes nothing. */
  function Prune(graph: seq<nat>, refs: nat -> set<nat>): seq<nat>
    decreases |graph|
  {
    var next := Leafless(graph, refs);
    if |next| == |graph| then graph else Prune(next, refs)
  }

  /** The pruned graph is a fixpoint: every remaining node refers to one
      that remains. */
  lemma {:induction false} PruneFixpoint(graph: seq<nat>, refs: nat -> set<nat>)
    ensures Leafless(Prune(graph, refs), refs) == Prune(graph, refs)
    ensures forall n :: n in Prune(graph, refs) ==> n in graph && refs(n) * Ids(Prune(graph, refs)) != {}
    decreases |graph|
  {
    var ids := Ids(graph);
    var next := Leafless(graph, refs);
    if |next| == |graph| {
      FilterKeepsAll(graph, RefersInto(ids, refs));
    } else {
      PruneFixpoint(next, refs);
    }
  }

  /** A set of nodes each referring into the set itself (the nodes of a
      cycle, say). */
  predicate Closed(s: set<nat>, refs: nat -> set<nat>)
  {
    forall n :: n in s ==> refs(n) * s != {}
  }

  /** Pruning never removes a node that lies in a closed set of the graph:
      objects on reference cycles survive. */
  lemma {:induction false} PruneKeepsCycles(graph: seq<nat>, refs: nat -> set<nat>, core: set<nat>)
    requires core <= Ids(graph) && Closed(core, refs)
    ensures core <= Ids(Prune(graph, refs))
    decreases |graph|
  {
    var next := Leafless(graph, refs);
    forall n | n in core ensures n in next {
      var m :| m in refs(n) * core;
      assert m in refs(n) * Ids(graph);
    }
    if |next| != |graph| {
      PruneKeepsCycles(next, refs, core);
    }
  }

  /** find_garbage's pruning: with prune set, leaves are eliminated until the
      count stops changing. */
  method FindCycles(garbage: seq<nat>, refs: nat -> set<nat>, prune: bool) returns (cycles: seq<nat>)
    ensures prune ==> cycles == Prune(garbage, refs)
    ensures !prune ==> cycles == garbage
  {
    var cnt := 0;
    cycles := garbage;
    if prune {
      while cnt != |cycles|
        invariant Prune(cycles, refs) == Prune(garbage, refs)
        invariant cnt == |cycles| ==> Leafless(cycles, refs) == cycles
        decreases 2 * |cycles| + (if cnt != |cycles| then 1 else 0)
      {
        cnt := |cycles|;
        var next := EliminateLeafs(cycles, refs);
        if |next| == cnt {
          FilterKeepsAll(cycles, RefersInto(Ids(cycles), refs));
        }
        cycles := next;
      }
    }
  }
}
