/** The jar tool of src/engine/SCons/Tool/jar.py: the generators that build
    the jar command line from the sources, and generate(), which installs
    the Jar builder and the construction variables. A source is a node with
    a path and its contents; get_path relative to $JARCHDIR is the
    parameter `relative`. */
module Jar {
  import opened Util

  datatype Source = Source(path: string, contents: string)

  /** `contents[:16] == "Manifest-Version"`: a shorter text never matches. */
  predicate IsManifest(s: Source)
  {
    |s.contents| >= 16 && s.contents[..16] == "Manifest-Version"
  }

  /** What $_JARSOURCES expands to: the node itself, or its path relative
      to $JARCHDIR when that is set. */
  datatype SourceArg = NodeArg(src: Source) | PathArg(path: string)

  function SourceArgOf(s: Source, jarchdir: Option<string>, relative: (string, string) -> string): SourceArg
  {
    if jarchdir.Some? then PathArg(relative(s.path, jarchdir.value)) else NodeArg(s)
  }

  /** jarSources as a specification: the non-manifest sources, in order. */
  function SourcesFrom(sources: seq<Source>, jarchdir: Option<string>, relative: (string, string) -> string): seq<SourceArg>
  {
    if sources == [] then []
    else
      var rest := SourcesFrom(sources[1..], jarchdir, relative);
      if IsManifest(sources[0]) then rest else [SourceArgOf(sources[0], jarchdir, relative)] + rest
  }

  lemma {:induction false} SourcesFromSnoc(sources: seq<Source>, s: Source, jarchdir: Option<string>, relative: (string, string) -> string)
    ensures SourcesFrom(sources + [s], jarchdir, relative)
         == SourcesFrom(sources, jarchdir, relative) + (if IsManifest(s) then [] else [SourceArgOf(s, jarchdir, relative)])
  {
    if sources == [] {
      assert [s][1..] == [];
    } else {
      assert (sources + [s])[1..] == sources[1..] + [s];
      SourcesFromSnoc(sources[1..], s, jarchdir, relative);
    }
  }

  /** jarSources(target, source, env, for_signature). */
  method JarSources(sources: seq<Source>, jarchdir: Option<string>, relative: (string, string) -> string) returns (ret: seq<SourceArg>)
    ensures ret == SourcesFrom(sources, jarchdir, relative)
  {
    ret := [];
    var k := 0;
    while k < |sources|
      invariant k <= |sources|
      invariant ret == SourcesFrom(sources[..k], jarchdir, relative)
    {
      SourcesFromSnoc(sources[..k], sources[k], jarchdir, relative);
      assert sources[..k + 1] == sources[..k] + [sources[k]];
      if !IsManifest(sources[k]) {
        ret := ret + [SourceArgOf(sources[k], jarchdir, relative)];
      }
      k := k + 1;
    }
    assert sources[..k] == sources;
  }

  /** Every source that is not a manifest has its argument in the result,
      and every argument comes from such a source. */
  lemma {:induction false} SourcesFromMembers(sources: seq<Source>, jarchdir: Option<string>, relative: (string, string) -> string, a: SourceArg)
    ensures a in SourcesFrom(sources, jarchdir, relative)
        <==> exists s :: s in sources && !IsManifest(s) && a == SourceArgOf(s, jarchdir, relative)
  {
    if sources != [] {
      SourcesFromMembers(sources[1..], jarchdir, relative, a);
      assert forall s :: s in sources <==> s == sources[0] || s in sources[1..];
    }
  }

  /** The arguments and the manifests split the sources between them. */
  lemma {:induction false} SourcesFromCount(sources: seq<Source>, jarchdir: Option<string>, relative: (string, string) -> string)
    ensures |SourcesFrom(sources, jarchdir, relative)| + |Manifests(sources)| == |sources|
  {
    if sources != [] {
      SourcesFromCount(sources[1..], jarchdir, relative);
    }
  }

  function Manifests(sources: seq<Source>): seq<Source>
  {
    if sources == [] then []
    else if IsManifest(sources[0]) then [sources[0]] + Manifests(sources[1..])
    else Manifests(sources[1..])
  }

  /** jarManifest: the first manifest among the sources, or '' (None). */
  method JarManifest(sources: seq<Source>) returns (r: Option<Source>)
    ensures r.Some? ==>
              exists k :: (0 <= k < |sources| && sources[k] == r.value && IsManifest(r.value)
                           && forall m :: 0 <= m < k ==> !IsManifest(sources[m]))
    ensures r.None? <==> forall m :: 0 <= m < |sources| ==> !IsManifest(sources[m])
  {
    var k := 0;
    while k < |sources|
      invariant k <= |sources|
      invariant forall m :: 0 <= m < k ==> !IsManifest(sources[m])
    {
      if IsManifest(sources[k]) {
        return Some(sources[k]);
      }
      k := k + 1;
    }
    return None;
  }

  predicate HasManifest(sources: seq<Source>)
  {
    exists k :: 0 <= k < |sources| && IsManifest(sources[k])
  }

  /** jarFlags: $JARFLAGS, with 'm' added when a source is a manifest and
      the flags lack it. */
  method JarFlags(sources: seq<Source>, jarflags: string) returns (r: string)
    ensures r == FlagsFor(sources, jarflags)
  {
    var k := 0;
    while k < |sources|
      invariant k <= |sources|
      invariant forall m :: 0 <= m < k ==> !IsManifest(sources[m])
    {
      if IsManifest(sources[k]) {
        if 'm' !in jarflags {
          return jarflags + "m";
        }
        break;
      }
      k := k + 1;
    }
    return jarflags;
  }

  function FlagsFor(sources: seq<Source>, jarflags: string): string
  {
    if HasManifest(sources) && 'm' !in jarflags then jarflags + "m" else jarflags
  }

  /** The flags gain at most an 'm', and carry one whenever a source is a
      manifest. */
  lemma FlagsForShape(sources: seq<Source>, jarflags: string)
    ensures jarflags <= FlagsFor(sources, jarflags)
    ensures FlagsFor(sources, jarflags) == jarflags || FlagsFor(sources, jarflags) == jarflags + "m"
    ensures HasManifest(sources) ==> 'm' in FlagsFor(sources, jarflags)
    ensures !HasManifest(sources) ==> FlagsFor(sources, jarflags) == jarflags
  {
    var r := FlagsFor(sources, jarflags);
    if HasManifest(sources) && 'm' !in jarflags {
      assert r[|jarflags|] == 'm';
    }
  }

  /** Adding the flag twice adds it once. */
  lemma FlagsForIdempotent(sources: seq<Source>, jarflags: string)
    ensures FlagsFor(sources, FlagsFor(sources, jarflags)) == FlagsFor(sources, jarflags)
  {
    FlagsForShape(sources, jarflags);
  }

  /** jarChdir: ['-C', '$JARCHDIR'] when JARCHDIR is set, '' otherwise. */
  datatype ChdirArg = NoChdir | ChdirArgs(args: seq<string>)

  function JarChdir(jarchdir: Option<string>): (r: ChdirArg)
    ensures r.ChdirArgs? <==> jarchdir.Some?
    ensures r.ChdirArgs? ==> r.args == ["-C", "$JARCHDIR"]
  {
    if jarchdir.Some? then ChdirArgs(["-C", "$JARCHDIR"]) else NoChdir
  }

  // ---------------------------------------------------------------------
  // generate(env)

  datatype Generator = JarFlagsGen | JarManifestGen | JarSourcesGen | JarChdirGen
  datatype Value = Str(s: string) | Gen(g: Generator)
  datatype Builder = JarBuilder | OtherBuilder(name: string)

  const JarCom := "$JAR $_JARFLAGS $TARGET $_JARMANIFEST $_JARCHDIR $_JARSOURCES"

  /** The construction variables generate() sets. */
  function JarVariables(vars: map<string, Value>): (r: map<string, Value>)
    ensures r.Keys == vars.Keys + {"JAR", "JARFLAGS", "_JARFLAGS", "_JARMANIFEST", "_JARSOURCES", "_JARCHDIR", "JARCOM", "JARSUFFIX"}
    ensures r["JARFLAGS"] == Str("cf") && r["JARSUFFIX"] == Str(".jar") && r["JAR"] == Str("jar")
    ensures forall k :: k in vars && k !in {"JAR", "JARFLAGS", "_JARFLAGS", "_JARMANIFEST", "_JARSOURCES", "_JARCHDIR", "JARCOM", "JARSUFFIX"} ==> r[k] == vars[k]
  {
    vars["JAR" := Str("jar")]["JARFLAGS" := Str("cf")]["_JARFLAGS" := Gen(JarFlagsGen)]
        ["_JARMANIFEST" := Gen(JarManifestGen)]["_JARSOURCES" := Gen(JarSourcesGen)]
        ["_JARCHDIR" := Gen(JarChdirGen)]["JARCOM" := Str(JarCom)]["JARSUFFIX" := Str(".jar")]
  }

  /** The builder table after generate(): a Jar builder already there is kept. */
  function JarBuilders(builders: map<string, Builder>): (r: map<string, Builder>)
    ensures "Jar" in builders ==> r == builders
    ensures "Jar" !in builders ==> r == builders["Jar" := JarBuilder]
  {
    if "Jar" in builders then builders else builders["Jar" := JarBuilder]
  }

  /** A construction environment: its variables and its BUILDERS table. */
  class Environment {
    var vars: map<string, Value>
    var builders: map<string, Builder>

    constructor (vars: map<string, Value>, builders: map<string, Builder>)
      ensures this.vars == vars && this.builders == builders
    {
      this.vars := vars;
      this.builders := builders;
    }

    /** generate(env). */
    method Generate()
      modifies this
      ensures vars == JarVariables(old(vars)) && builders == JarBuilders(old(builders))
    {
      if "Jar" !in builders {
        builders := builders["Jar" := JarBuilder];
      }
      vars := vars["JAR" := Str("jar")];
      vars := vars["JARFLAGS" := Str("cf")];
      vars := vars["_JARFLAGS" := Gen(JarFlagsGen)];
      vars := vars["_JARMANIFEST" := Gen(JarManifestGen)];
      vars := vars["_JARSOURCES" := Gen(JarSourcesGen)];
      vars := vars["_JARCHDIR" := Gen(JarChdirGen)];
      vars := vars["JARCOM" := Str(JarCom)];
      vars := vars["JARSUFFIX" := Str(".jar")];
    }
  }

  /** Running generate() twice leaves the environment as once. */
  lemma GenerateIdempotent(vars: map<string, Value>, builders: map<string, Builder>)
    ensures JarVariables(JarVariables(vars)) == JarVariables(vars)
    ensures JarBuilders(JarBuilders(builders)) == JarBuilders(builders)
  {
    var once := JarVariables(vars);
    assert JarVariables(once).Keys == once.Keys;
  }

}
