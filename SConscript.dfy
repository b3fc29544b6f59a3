/** The SConscript-reading front end (SCons.Script.SConscript): how an
    SConscript() call picks its files and exports, the stack of frames that
    Import and Return work on, the variables shared through Export, the
    Default and Clean target lists, the command-line ARGUMENTS dictionary,
    the signature settings and the version checks. Executing a script is an
    input: a function telling what each file's Return call handed back. */
module SConscriptScript {
  import opened Util
  import ProjectTool

  /** A Python value bound in a script's namespace. */
  datatype Value = Object(id: nat) | Text(s: string) | Tuple(items: seq<Value>) | NoneValue

  datatype ScriptError = UserError(msg: string) | IndexError | ValueError | AttributeError

  /** A file-system entry, named by its path. */
  type Node = string

  /** A parameter that Python code may give as one string or as a list. */
  datatype Arg = One(s: string) | Many(items: seq<string>)

  /** SCons.Util.Split: a list as it is, a string cut at white space. */
  function Split(a: Arg): (r: seq<string>)
    ensures a.Many? ==> r == a.items
  {
    match a
    case One(s) => Words(s)
    case Many(items) => items
  }

  /** A list as it is, anything else wrapped in a one-element list. */
  function AsList(a: Arg): (r: seq<string>)
    ensures a.One? ==> r == [a.s]
    ensures a.Many? ==> r == a.items
  {
    match a
    case One(s) => [s]
    case Many(items) => items
  }

  predicate Truthy(a: Arg)
  {
    match a
    case One(s) => s != ""
    case Many(items) => items != []
  }

  // ---------------------------------------------------------------------
  // Choosing the files and exports of an SConscript() call

  /** The keyword arguments GetSConscriptFilenames reads. */
  datatype Keywords = Keywords(dirs: Option<Arg>, name: Option<string>, exports: Option<Arg>,
                               buildDir: Option<string>, srcDir: Option<string>)

  datatype Filenames = Filenames(files: seq<string>, exports: seq<string>)

  const NoParameters := "Invalid SConscript usage - no parameters"
  const TooManyArguments := "Invalid SConscript() usage - too many arguments"
  const OneWithBuildDir := "Invalid SConscript() usage - can only specify one SConscript with a build_dir"

  /** os.path.split(p)[1]: what follows the last '/'. */
  function Basename(p: string): (r: string)
    ensures '/' !in r
    ensures |r| <= |p| && r == p[|p| - |r|..]
  {
    p[ProjectTool.RFind(p, '/') + 1..]
  }

  /** A path as a list of components in the form the file-system nodes
      name it: no empty or "." component, no '/', and ".." only in a
      leading run (the levels above the directory lookups start from). */
  predicate Normal(parts: seq<string>)
  {
    (forall i :: 0 <= i < |parts| ==> parts[i] != "" && parts[i] != "." && '/' !in parts[i])
    && (forall i, j :: 0 <= i < j < |parts| && parts[j] == ".." ==> parts[i] == "..")
  }

  /** One more component looked up from a normal path: empty and "."
      components stay, ".." leaves the last named level when there is one. */
  function StepInto(pre: seq<string>, c: string): seq<string>
  {
    if c == "" || c == "." then pre
    else if c == ".." && pre != [] && pre[|pre| - 1] != ".." then pre[..|pre| - 1]
    else pre + [c]
  }

  function Normalize(parts: seq<string>): (r: seq<string>)
    requires forall k :: 0 <= k < |parts| ==> '/' !in parts[k]
    ensures Normal(r)
  {
    if parts == [] then []
    else
      var pre := Normalize(parts[..|parts| - 1]);
      var c := parts[|parts| - 1];
      assert c != ".." ==> forall i :: 0 <= i < |pre| ==> (pre + [c])[i] == pre[i];
      StepInto(pre, c)
  }

  /** The components of the node a path string names. */
  function Components(p: string): (r: seq<string>)
    ensures Normal(r)
  {
    Normalize(SplitOn(p, '/'))
  }

  /** fn.is_under(src_dir): both looked up the same way (absolute or from
      the current directory), and the file sits strictly below the
      directory, not reached by climbing out of it with "..". */
  predicate IsUnder(file: string, dir: string)
  {
    var f := Components(file);
    var d := Components(dir);
    IsAbsolute(file) == IsAbsolute(dir) && |d| < |f| && f[..|d|] == d && f[|d|] != ".."
  }

  function IsAbsolute(p: string): bool
  {
    ProjectTool.IsAbsolute(p)
  }

  /** The file name that goes under a build directory. Without a src_dir it
      is the last component of the path string; with one it is the file's
      path relative to the source directory when the file node lies below
      it, else the node's own name. */
  function RelativeName(file: string, srcDir: Option<string>): (r: string)
    ensures srcDir.None? || srcDir.value == "" ==> r == Basename(file)
    ensures srcDir.Some? && srcDir.value != "" && IsUnder(file, srcDir.value) ==>
      r != "" && !IsAbsolute(r) && Components(srcDir.value) + Components(r) == Components(file)
    ensures srcDir.Some? && srcDir.value != "" && !IsUnder(file, srcDir.value) ==>
      '/' !in r
      && (Components(file) == [] ==> r == "")
      && (Components(file) != [] ==> r == Components(file)[|Components(file)| - 1])
  {
    if srcDir.None? || srcDir.value == "" then Basename(file)
    else if IsUnder(file, srcDir.value) then
      UnderRelative(file, srcDir.value);
      Join(Components(file)[|Components(srcDir.value)|..], "/")
    else
      var f := Components(file);
      if f == [] then "" else f[|f| - 1]
  }

  /** get_path(src_dir) of a file below src_dir: its remaining components
      joined with '/', a relative path that leads back to the file. */
  lemma UnderRelative(file: string, dir: string)
    requires IsUnder(file, dir)
    ensures var f := Components(file);
      var d := Components(dir);
      var r := Join(f[|d|..], "/");
      r != "" && !IsAbsolute(r) && d + Components(r) == f
  {
    var f := Components(file);
    var d := Components(dir);
    var rest := f[|d|..];
    NormalSuffix(f, |d|);
    JoinSplitRoundTrip(rest);
    NormalizeNormal(rest);
    JoinHead(rest, "/");
    assert f == d + rest;
  }

  /** A suffix of a normal path that starts after its ".." run is normal
      and holds no "..". */
  lemma NormalSuffix(f: seq<string>, n: nat)
    requires Normal(f) && n < |f| && f[n] != ".."
    ensures Normal(f[n..]) && ".." !in f[n..]
  {
    forall j | n <= j < |f|
      ensures f[j] != ".."
    {
    }
  }

  /** A normal path is its own normal form. */
  lemma {:induction false} NormalizeNormal(parts: seq<string>)
    requires Normal(parts)
    ensures Normalize(parts) == parts
  {
    if parts != [] {
      var pre := parts[..|parts| - 1];
      var c := parts[|parts| - 1];
      assert parts == pre + [c];
      NormalPrefix(pre, c);
      NormalizeNormal(pre);
    }
  }

  /** Dropping the last component keeps a path normal, and looking that
      component up again gives the path back. */
  lemma NormalPrefix(pre: seq<string>, c: string)
    requires Normal(pre + [c])
    ensures Normal(pre) && StepInto(pre, c) == pre + [c]
  {
    var p := pre + [c];
    forall i | 0 <= i < |pre|
      ensures pre[i] != "" && pre[i] != "." && '/' !in pre[i]
    {
      assert p[i] == pre[i];
    }
    forall i, j | 0 <= i < j < |pre| && pre[j] == ".."
      ensures pre[i] == ".."
    {
      assert p[i] == pre[i] && p[j] == pre[j];
    }
    assert p[|pre|] == c && c != "" && c != ".";
    if c == ".." && pre != [] {
      assert p[|pre| - 1] == pre[|pre| - 1] == "..";
    }
  }

  /** Joining with '/' and splitting at '/' gives back components without
      a '/'. */
  lemma {:induction false} JoinSplitRoundTrip(parts: seq<string>)
    requires parts != []
    requires forall k :: 0 <= k < |parts| ==> '/' !in parts[k]
    ensures SplitOn(Join(parts, "/"), '/') == parts
  {
    if |parts| > 1 {
      JoinSplitRoundTrip(parts[1..]);
      SplitOnCons(parts[0], Join(parts[1..], "/"));
      assert parts == [parts[0]] + parts[1..];
    }
  }

  /** Splitting at '/' after a first component without a '/'. */
  lemma SplitOnCons(a: string, rest: string)
    requires '/' !in a
    ensures SplitOn(a + "/" + rest, '/') == [a] + SplitOn(rest, '/')
  {
    var s := a + "/" + rest;
    assert s == a + ['/'] + rest;
    FirstIndexAfter(a, '/', rest);
    assert s[..|a|] == a;
    assert s[|a| + 1..] == rest;
  }

  /** A joined list starts with its first element. */
  lemma JoinHead(parts: seq<string>, sep: string)
    requires parts != []
    ensures IsPrefix(parts[0], Join(parts, sep))
  {
    if |parts| > 1 {
      assert Join(parts, sep) == parts[0] + (sep + Join(parts[1..], sep));
    }
  }

  /** A component naming an entry: not empty, not "." or "..", no '/'. */
  predicate Plain(c: string)
  {
    c != "" && c != "." && c != ".." && '/' !in c
  }

  /** Paths are compared as nodes, not as strings: "." is the directory the
      lookups start from, a trailing '/' or a "./" prefix changes nothing,
      and a file reached by climbing out with ".." is not below. */
  lemma RelativeNameNormalises(d: string, sub: string, f: string)
    requires Plain(d) && Plain(sub) && Plain(f)
    ensures RelativeName(d + "/" + f, Some(".")) == d + "/" + f
    ensures RelativeName(d + "/" + (sub + "/" + f), Some("./" + d)) == sub + "/" + f
    ensures RelativeName(d + "/" + (sub + "/" + f), Some(d + "/")) == sub + "/" + f
    ensures RelativeName("../" + f, Some(".")) == f
  {
    RelativeToDot(d, f);
    RelativeToDotDir(d, sub, f);
    RelativeToDirSlash(d, sub, f);
    RelativeClimbing(f);
  }

  lemma RelativeToDot(d: string, f: string)
    requires Plain(d) && Plain(f)
    ensures RelativeName(d + "/" + f, Some(".")) == d + "/" + f
  {
    ComponentsDot();
    ComponentsPair(d, f);
    assert [d, f][0..] == [d, f];
  }

  lemma RelativeToDotDir(d: string, sub: string, f: string)
    requires Plain(d) && Plain(sub) && Plain(f)
    ensures RelativeName(d + "/" + (sub + "/" + f), Some("./" + d)) == sub + "/" + f
  {
    ComponentsDotDir(d);
    ComponentsTriple(d, sub, f);
    assert [d, sub, f][1..] == [sub, f];
  }

  lemma RelativeToDirSlash(d: string, sub: string, f: string)
    requires Plain(d) && Plain(sub) && Plain(f)
    ensures RelativeName(d + "/" + (sub + "/" + f), Some(d + "/")) == sub + "/" + f
  {
    ComponentsDirSlash(d);
    ComponentsTriple(d, sub, f);
    assert [d, sub, f][1..] == [sub, f];
  }

  lemma RelativeClimbing(f: string)
    requires Plain(f)
    ensures RelativeName("../" + f, Some(".")) == f
  {
    ComponentsDot();
    ComponentsUp(f);
  }

  lemma ComponentsDot()
    ensures Components(".") == []
  {
    assert Normalize(["."]) == StepInto(Normalize([]), ".");
  }

  lemma ComponentsPair(a: string, b: string)
    requires Plain(a) && Plain(b)
    ensures Components(a + "/" + b) == [a, b]
  {
    SplitOnCons(a, b);
    PlainNormal([a, b]);
    NormalizeNormal([a, b]);
  }

  lemma ComponentsTriple(a: string, b: string, c: string)
    requires Plain(a) && Plain(b) && Plain(c)
    ensures Components(a + "/" + (b + "/" + c)) == [a, b, c]
  {
    var bc := b + "/" + c;
    assert SplitOn(bc, '/') == [b, c] by {
      SplitOnCons(b, c);
    }
    assert SplitOn(a + "/" + bc, '/') == [a, b, c] by {
      SplitOnCons(a, bc);
    }
    PlainNormal([a, b, c]);
    NormalizeNormal([a, b, c]);
  }

  /** Plain components make a normal path. */
  lemma PlainNormal(parts: seq<string>)
    requires forall i :: 0 <= i < |parts| ==> Plain(parts[i])
    ensures Normal(parts)
  {
  }

  lemma ComponentsDotDir(a: string)
    requires Plain(a)
    ensures Components("./" + a) == [a]
  {
    assert "./" + a == "." + "/" + a;
    SplitOnCons(".", a);
    assert [".", a][..1] == ["."];
    assert Normalize([".", a]) == StepInto(Normalize(["."]), a);
    assert Normalize(["."]) == StepInto(Normalize([]), ".");
  }

  lemma ComponentsDirSlash(a: string)
    requires Plain(a)
    ensures Components(a + "/") == [a]
  {
    assert a + "/" == a + "/" + "";
    SplitOnCons(a, "");
    assert [a, ""][..1] == [a];
    assert Normalize([a, ""]) == StepInto(Normalize([a]), "");
    NormalizeNormal([a]);
  }

  lemma ComponentsUp(b: string)
    requires Plain(b)
    ensures Components("../" + b) == ["..", b]
  {
    assert "../" + b == ".." + "/" + b;
    SplitOnCons("..", b);
    assert SplitOn("../" + b, '/') == ["..", b];
    assert Normal(["..", b]);
    NormalizeNormal(["..", b]);
  }

  /** Each directory joined with the script name. */
  function DirFiles(dirs: seq<string>, name: string): (r: seq<string>)
    ensures |r| == |dirs|
    ensures forall i :: 0 <= i < |dirs| ==> r[i] == ProjectTool.PathJoin(dirs[i], name)
  {
    seq(|dirs|, i requires 0 <= i < |dirs| => ProjectTool.PathJoin(dirs[i], name))
  }

  function ScriptName(kw: Keywords): string
  {
    if kw.name.Some? then kw.name.value else "SConscript"
  }

  function ExportsOf(ls: seq<Arg>, kw: Keywords): seq<string>
    requires |ls| <= 2
  {
    var positional := if |ls| == 2 then Split(ls[1]) else [];
    if kw.exports.Some? && Truthy(kw.exports.value) then positional + Split(kw.exports.value)
    else positional
  }

  predicate HasBuildDir(kw: Keywords)
  {
    kw.buildDir.Some? && kw.buildDir.value != ""
  }

  /** The SConscript files to read and the names to export to them, or the
      UserError an invalid call raises. */
  function GetSConscriptFilenames(ls: seq<Arg>, kw: Keywords): (r: Result<Filenames, ScriptError>)
    ensures r.Ok? ==> |ls| <= 2 && (|ls| == 0 ==> kw.dirs.Some?)
    ensures r.Ok? && HasBuildDir(kw) ==> |r.value.files| == 1
    ensures r.Err? ==> r.error.UserError?
  {
    if |ls| == 0 && kw.dirs.None? then Err(UserError(NoParameters))
    else if |ls| > 2 then Err(UserError(TooManyArguments))
    else
      var files := if |ls| == 0 then DirFiles(AsList(kw.dirs.value), ScriptName(kw)) else AsList(ls[0]);
      var exports := ExportsOf(ls, kw);
      if HasBuildDir(kw) then
        if |files| != 1 then Err(UserError(OneWithBuildDir))
        else Ok(Filenames([ProjectTool.PathJoin(kw.buildDir.value, RelativeName(files[0], kw.srcDir))], exports))
      else Ok(Filenames(files, exports))
  }

  /** Without positional arguments the files are the 'dirs' joined with the
      script name, 'SConscript' unless 'name' says otherwise. */
  lemma FilenamesFromDirs(kw: Keywords)
    requires kw.dirs.Some? && !HasBuildDir(kw)
    ensures var r := GetSConscriptFilenames([], kw);
      && r.Ok?
      && |r.value.files| == |AsList(kw.dirs.value)|
      && (forall i :: 0 <= i < |r.value.files| ==>
            r.value.files[i] == ProjectTool.PathJoin(AsList(kw.dirs.value)[i], ScriptName(kw)))
      && (kw.name.None? ==> ScriptName(kw) == "SConscript")
  {
  }

  /** One positional argument is the file or the list of files; a second one
      is split into the exports, and the 'exports' keyword comes after it. */
  lemma FilenamesFromArguments(ls: seq<Arg>, kw: Keywords)
    requires 1 <= |ls| <= 2 && !HasBuildDir(kw)
    ensures var r := GetSConscriptFilenames(ls, kw);
      && r.Ok?
      && r.value.files == AsList(ls[0])
      && (|ls| == 2 ==> r.value.exports[..|Split(ls[1])|] == Split(ls[1]))
      && (kw.exports.Some? && Truthy(kw.exports.value) ==>
            var k := Split(kw.exports.value);
            |k| <= |r.value.exports| && r.value.exports[|r.value.exports| - |k|..] == k)
  {
  }

  /** The exact conditions under which the call is refused. */
  lemma FilenamesRefused(ls: seq<Arg>, kw: Keywords)
    ensures GetSConscriptFilenames(ls, kw).Err? <==>
      || (|ls| == 0 && kw.dirs.None?)
      || |ls| > 2
      || (HasBuildDir(kw) && |ls| == 0 && |AsList(kw.dirs.value)| != 1)
      || (HasBuildDir(kw) && 1 <= |ls| <= 2 && |AsList(ls[0])| != 1)
  {
  }

  /** With a build directory the single file is moved below it. */
  lemma FilenamesUnderBuildDir(ls: seq<Arg>, kw: Keywords)
    requires HasBuildDir(kw) && GetSConscriptFilenames(ls, kw).Ok?
    ensures var f := GetSConscriptFilenames(ls, kw).value.files;
      exists name :: f == [ProjectTool.PathJoin(kw.buildDir.value, name)]
  {
    var files := if |ls| == 0 then DirFiles(AsList(kw.dirs.value), ScriptName(kw)) else AsList(ls[0]);
    var name := RelativeName(files[0], kw.srcDir);
    assert GetSConscriptFilenames(ls, kw).value.files == [ProjectTool.PathJoin(kw.buildDir.value, name)];
  }

  // ---------------------------------------------------------------------
  // Import: names copied into the running script's namespace

  /** A sequence of steps run to the end, or stopped at an offending item
      with the state reached so far. */
  datatype Outcome<T> = Outcome(state: T, stop: Option<string>)

  /** Every argument split into names, in order. */
  function SplitAll(vars: seq<Arg>): (r: seq<string>)
    ensures vars == [] ==> r == []
  {
    if vars == [] then [] else Split(vars[0]) + SplitAll(vars[1..])
  }

  /** The namespace after importing names one by one: '*' copies the global
      exports and then the frame's own exports; a name takes the frame's
      export, else the global one; a missing name stops the import. */
  function ImportSpec(g: map<string, Value>, frame: map<string, Value>, global: map<string, Value>,
                      names: seq<string>): Outcome<map<string, Value>>
    decreases |names|
  {
    if names == [] then Outcome(g, None)
    else
      var v := names[0];
      if v == "*" then ImportSpec(g + global + frame, frame, global, names[1..])
      else if v in frame then ImportSpec(g[v := frame[v]], frame, global, names[1..])
      else if v in global then ImportSpec(g[v := global[v]], frame, global, names[1..])
      else Outcome(g, Some(v))
  }

  function ImportMessage(v: string): string
  {
    "Import of non-existant variable '" + v + "'"
  }

  /** '*' alone: the frame's exports win over the global ones, and the rest
      of the namespace is kept. */
  lemma ImportStar(g: map<string, Value>, frame: map<string, Value>, global: map<string, Value>)
    ensures var out := ImportSpec(g, frame, global, ["*"]);
      && out.stop.None?
      && out.state.Keys == g.Keys + global.Keys + frame.Keys
      && (forall k :: k in frame ==> out.state[k] == frame[k])
      && (forall k :: k in global && k !in frame ==> out.state[k] == global[k])
      && (forall k :: k in g && k !in global && k !in frame ==> out.state[k] == g[k])
  {
    assert ["*"][1..] == [];
  }

  /** Named imports: each name is found in the frame's exports first, then
      in the global ones, and nothing else in the namespace changes. */
  lemma {:induction false} ImportNamed(g: map<string, Value>, frame: map<string, Value>,
                                       global: map<string, Value>, names: seq<string>)
    requires "*" !in names
    requires forall v :: v in names ==> v in frame || v in global
    ensures ImportSpec(g, frame, global, names).stop.None?
    ensures ImportSpec(g, frame, global, names).state.Keys == g.Keys + set v | v in names
    ensures var out := ImportSpec(g, frame, global, names).state;
      forall v :: v in names ==> v in out && out[v] == if v in frame then frame[v] else global[v]
    ensures var out := ImportSpec(g, frame, global, names).state;
      forall k :: k in g && k !in names ==> k in out && out[k] == g[k]
    decreases |names|
  {
    if names != [] {
      var v := names[0];
      var g' := if v in frame then g[v := frame[v]] else g[v := global[v]];
      assert forall w :: w in names[1..] ==> w in names;
      ImportNamed(g', frame, global, names[1..]);
      assert forall w :: w in names <==> w == v || w in names[1..];
    }
  }

  /** The import stops exactly at the first name found in neither export
      table. */
  lemma {:induction false} ImportMissing(g: map<string, Value>, frame: map<string, Value>,
                                         global: map<string, Value>, names: seq<string>)
    ensures var out := ImportSpec(g, frame, global, names);
      out.stop.None? <==> forall v :: v in names && v != "*" ==> v in frame || v in global
    ensures var out := ImportSpec(g, frame, global, names);
      out.stop.Some? ==>
        exists i :: 0 <= i < |names| && names[i] == out.stop.value
          && names[i] != "*" && names[i] !in frame && names[i] !in global
          && forall j :: 0 <= j < i ==> names[j] == "*" || names[j] in frame || names[j] in global
    decreases |names|
  {
    if names != [] {
      var v := names[0];
      if v == "*" || v in frame || v in global {
        var g' := if v == "*" then g + global + frame
                  else if v in frame then g[v := frame[v]] else g[v := global[v]];
        ImportMissing(g', frame, global, names[1..]);
        assert forall w :: w in names <==> w == v || w in names[1..];
        var out := ImportSpec(g', frame, global, names[1..]);
        if out.stop.Some? {
          var i :| 0 <= i < |names[1..]| && names[1..][i] == out.stop.value
                   && names[1..][i] != "*" && names[1..][i] !in frame && names[1..][i] !in global
                   && forall j :: 0 <= j < i ==> names[1..][j] == "*" || names[1..][j] in frame || names[1..][j] in global;
          assert names[i + 1] == out.stop.value;
          forall j | 0 <= j < i + 1
            ensures names[j] == "*" || names[j] in frame || names[j] in global
          {
            if j > 0 { assert names[j] == names[1..][j - 1]; }
          }
        }
      } else {
        assert names[0] == v;
      }
    }
  }

  // ---------------------------------------------------------------------
  // Return: the values a script hands back to its caller

  /** The values of names, appended to acc; the first unknown name stops the
      lookup. */
  function ReturnSpec(g: map<string, Value>, names: seq<string>, acc: seq<Value>): Result<seq<Value>, string>
    decreases |names|
  {
    if names == [] then Ok(acc)
    else if names[0] !in g then Err(names[0])
    else ReturnSpec(g, names[1..], acc + [g[names[0]]])
  }

  /** One value is returned as it is, several (or none) as a tuple. */
  function Packed(vs: seq<Value>): (r: Value)
    ensures |vs| == 1 ==> r == vs[0]
    ensures |vs| != 1 ==> r.Tuple? && r.items == vs
  {
    if |vs| == 1 then vs[0] else Tuple(vs)
  }

  function ReturnMessage(v: string): string
  {
    "Return of non-existant variable '" + v + "'"
  }

  /** Return succeeds exactly when every name is bound, and then yields
      their values in order; otherwise it names the first unbound one. */
  lemma {:induction false} ReturnValues(g: map<string, Value>, names: seq<string>, acc: seq<Value>)
    ensures ReturnSpec(g, names, acc).Ok? <==> forall v :: v in names ==> v in g
    ensures var r := ReturnSpec(g, names, acc);
      r.Ok? ==>
        && |r.value| == |acc| + |names| && r.value[..|acc|] == acc
        && forall k :: 0 <= k < |names| ==> r.value[|acc| + k] == g[names[k]]
    ensures var r := ReturnSpec(g, names, acc);
      r.Err? ==>
        exists i :: 0 <= i < |names| && names[i] == r.error && r.error !in g
          && forall j :: 0 <= j < i ==> names[j] in g
    decreases |names|
  {
    if names != [] && names[0] in g {
      var acc' := acc + [g[names[0]]];
      ReturnValues(g, names[1..], acc');
      assert forall w :: w in names <==> w == names[0] || w in names[1..];
      var r := ReturnSpec(g, names[1..], acc');
      if r.Ok? {
        forall k | 0 <= k < |names|
          ensures r.value[|acc| + k] == g[names[k]]
        {
          if k > 0 { assert r.value[|acc'| + (k - 1)] == g[names[1..][k - 1]]; }
          else { assert r.value[..|acc'|] == acc'; }
        }
        assert r.value[..|acc|] == r.value[..|acc'|][..|acc|];
      } else {
        var i :| 0 <= i < |names[1..]| && names[1..][i] == r.error && r.error !in g
                 && forall j :: 0 <= j < i ==> names[1..][j] in g;
        assert names[i + 1] == r.error;
        forall j | 0 <= j < i + 1 ensures names[j] in g {
          if j > 0 { assert names[j] == names[1..][j - 1]; }
        }
      }
    } else if names != [] {
      assert names[0] == ReturnSpec(g, names, acc).error;
    }
  }

  /** A script that returns one tuple cannot be told apart from one that
      returns the tuple's items: the packing is ambiguous exactly there. */
  lemma PackedAmbiguous(a: Value, b: Value)
    ensures Packed([Tuple([a, b])]) == Packed([a, b])
  {
  }

  /** Apart from that case, different value lists stay apart. */
  lemma PackedInjective(a: seq<Value>, b: seq<Value>)
    requires |a| != 1 && |b| != 1
    ensures Packed(a) == Packed(b) ==> a == b
  {
  }

  // ---------------------------------------------------------------------
  // Default, Clean and Export

  /** Default's list after the arguments: None empties it, anything else
      adds its nodes at the end. */
  function DefaultSpec(cur: seq<Node>, targets: seq<Option<seq<Node>>>): seq<Node>
    decreases |targets|
  {
    if targets == [] then cur
    else if targets[0].None? then DefaultSpec([], targets[1..])
    else DefaultSpec(cur + targets[0].value, targets[1..])
  }

  /** The nodes of the arguments in order, None contributing nothing. */
  function NodesOf(targets: seq<Option<seq<Node>>>): seq<Node>
  {
    if targets == [] then []
    else (if targets[0].None? then [] else targets[0].value) + NodesOf(targets[1..])
  }

  lemma {:induction false} DefaultSplit(cur: seq<Node>, a: seq<Option<seq<Node>>>, b: seq<Option<seq<Node>>>)
    ensures DefaultSpec(cur, a + b) == DefaultSpec(DefaultSpec(cur, a), b)
    decreases |a|
  {
    if a != [] {
      assert (a + b)[1..] == a[1..] + b;
      var next := if a[0].None? then [] else cur + a[0].value;
      DefaultSplit(next, a[1..], b);
    } else {
      assert a + b == b;
    }
  }

  /** Without None the arguments' nodes are appended in order. */
  lemma {:induction false} DefaultAppends(cur: seq<Node>, targets: seq<Option<seq<Node>>>)
    requires forall k :: 0 <= k < |targets| ==> targets[k].Some?
    ensures DefaultSpec(cur, targets) == cur + NodesOf(targets)
    decreases |targets|
  {
    if targets != [] {
      DefaultAppends(cur + targets[0].value, targets[1..]);
      assert cur + targets[0].value + NodesOf(targets[1..]) == cur + (targets[0].value + NodesOf(targets[1..]));
    }
  }

  /** After the last None only the nodes that follow it remain. */
  lemma DefaultAfterNone(cur: seq<Node>, targets: seq<Option<seq<Node>>>, j: nat)
    requires j < |targets| && targets[j].None?
    requires forall k :: j < k < |targets| ==> targets[k].Some?
    ensures DefaultSpec(cur, targets) == NodesOf(targets[j + 1..])
  {
    var pre, post := targets[..j], targets[j + 1..];
    var none: seq<Option<seq<Node>>> := [None];
    assert targets == (pre + none) + post;
    DefaultSplit(cur, pre + none, post);
    DefaultSplit(cur, pre, none);
    assert none[1..] == [];
    forall k | 0 <= k < |post| ensures post[k].Some? {
      assert post[k] == targets[j + 1 + k];
    }
    DefaultAppends([], post);
  }

  /** Clean's table after adding nodes for a target: appended to its list,
      or a new list. */
  function CleanSpec(m: map<Node, seq<Node>>, target: Node, nodes: seq<Node>): map<Node, seq<Node>>
  {
    m[target := (if target in m then m[target] else []) + nodes]
  }

  /** Two Clean calls for one target equal one call with both lists, and no
      other target changes. */
  lemma CleanAccumulates(m: map<Node, seq<Node>>, target: Node, a: seq<Node>, b: seq<Node>)
    ensures CleanSpec(CleanSpec(m, target, a), target, b) == CleanSpec(m, target, a + b)
    ensures forall t :: t != target ==> (t in CleanSpec(m, target, a) <==> t in m)
    ensures forall t :: t != target && t in m ==> CleanSpec(m, target, a)[t] == m[t]
    ensures CleanSpec(m, target, a)[target][|CleanSpec(m, target, a)[target]| - |a|..] == a
  {
    var old_ := if target in m then m[target] else [];
    assert old_ + a + b == old_ + (a + b);
  }

  /** The lists of nodes, joined in order. */
  function Concat(files: seq<seq<Node>>): seq<Node>
  {
    if files == [] then [] else files[0] + Concat(files[1..])
  }

  lemma {:induction false} ConcatSnoc(files: seq<seq<Node>>, last: seq<Node>)
    ensures Concat(files + [last]) == Concat(files) + last
    decreases |files|
  {
    if files == [] {
      assert Concat([last]) == last + Concat([]);
    } else {
      assert (files + [last])[1..] == files[1..] + [last];
      ConcatSnoc(files[1..], last);
      assert files[0] + (Concat(files[1..]) + last) == files[0] + Concat(files[1..]) + last;
    }
  }

  /** The global exports after several Export() calls: later ones win. */
  function ExportSpec(global: map<string, Value>, computed: seq<map<string, Value>>): map<string, Value>
    decreases |computed|
  {
    if computed == [] then global else ExportSpec(global + computed[0], computed[1..])
  }

  lemma {:induction false} ExportSnoc(global: map<string, Value>, computed: seq<map<string, Value>>,
                                      last: map<string, Value>)
    ensures ExportSpec(global, computed + [last]) == ExportSpec(global, computed) + last
    decreases |computed|
  {
    if computed == [] {
      assert ([] + [last])[1..] == [];
    } else {
      assert (computed + [last])[1..] == computed[1..] + [last];
      ExportSnoc(global + computed[0], computed[1..], last);
    }
  }

  /** A name takes the value of the last Export that mentions it; names no
      Export mentions keep their earlier value. */
  lemma {:induction false} ExportLastWins(global: map<string, Value>, computed: seq<map<string, Value>>)
    ensures var out := ExportSpec(global, computed);
      forall k :: k in out <==> k in global || exists i :: 0 <= i < |computed| && k in computed[i]
    ensures var out := ExportSpec(global, computed);
      forall k, i | 0 <= i < |computed| && k in computed[i] ::
        (forall j :: i < j < |computed| ==> k !in computed[j]) ==> out[k] == computed[i][k]
    ensures var out := ExportSpec(global, computed);
      forall k :: k in global && (forall i :: 0 <= i < |computed| ==> k !in computed[i]) ==> out[k] == global[k]
    decreases |computed|
  {
    if computed != [] {
      var n := |computed| - 1;
      var init := computed[..n];
      assert computed == init + [computed[n]];
      ExportSnoc(global, init, computed[n]);
      ExportLastWins(global, init);
      var out := ExportSpec(global, computed);
      forall k | k in out ensures k in global || exists i :: 0 <= i < |computed| && k in computed[i] {
        if k !in computed[n] && k !in global {
          var i :| 0 <= i < |init| && k in init[i];
          assert computed[i] == init[i];
        }
      }
      forall k, i | 0 <= i < |computed| && k in computed[i]
                    && (forall j :: i < j < |computed| ==> k !in computed[j])
        ensures out[k] == computed[i][k]
      {
        if i < n {
          assert k !in computed[n];
          assert init[i] == computed[i];
          assert forall j :: i < j < |init| ==> init[j] == computed[j];
        }
      }
      forall k | k in global && (forall i :: 0 <= i < |computed| ==> k !in computed[i])
        ensures out[k] == global[k]
      {
        assert k !in computed[n];
        assert forall i :: 0 <= i < |init| ==> init[i] == computed[i];
      }
    }
  }

  // ---------------------------------------------------------------------
  // The ARGUMENTS dictionary built from name=value words on the command line

  /** string.split(s, c, n): at most n cuts at c, from the left. */
  function SplitLimited(s: string, c: char, n: nat): (r: seq<string>)
    ensures |r| >= 1
    decreases n
  {
    if n == 0 || c !in s then [s]
    else
      var i := FirstIndex(s, c);
      [s[..i]] + SplitLimited(s[i + 1..], c, n - 1)
  }

  /** The name and value of a command-line word as written: the word is cut
      at no more than two '=' and unpacked into exactly two parts. */
  function ArgAsWritten(arg: string): Result<(string, string), ScriptError>
  {
    var parts := SplitLimited(arg, '=', 2);
    if |parts| == 2 then Ok((parts[0], parts[1])) else Err(ValueError)
  }

  /** The name and value of a command-line word: cut at the first '='. */
  function ParseArg(arg: string): (r: Result<(string, string), ScriptError>)
    ensures r.Ok? <==> '=' in arg
    ensures r.Ok? ==> '=' !in r.value.0 && r.value.0 + "=" + r.value.1 == arg
    ensures r.Err? ==> r.error == ValueError
  {
    var parts := SplitLimited(arg, '=', 1);
    if |parts| == 2 then
      var i := FirstIndex(arg, '=');
      assert arg == arg[..i] + "=" + arg[i + 1..];
      Ok((parts[0], parts[1]))
    else Err(ValueError)
  }

  lemma CutAtEquals(a: string, b: string)
    requires '=' !in a
    ensures FirstIndex(a + "=" + b, '=') == |a|
    ensures (a + "=" + b)[..|a|] == a && (a + "=" + b)[|a| + 1..] == b
  {
    assert a + "=" + b == a + ['='] + b;
    Util.FirstIndexAfter(a, '=', b);
  }

  /** A value that itself holds '=' (as in CPPDEFINES=X=1) makes the word
      split into three parts, so the source's unpacking raises ValueError,
      while cutting at the first '=' keeps the whole value. */
  lemma ArgWithEqualsInValue(name: string, value: string)
    requires '=' !in name && '=' in value
    ensures ArgAsWritten(name + "=" + value) == Err(ValueError)
    ensures ParseArg(name + "=" + value) == Ok((name, value))
  {
    var s := name + "=" + value;
    CutAtEquals(name, value);
    assert SplitLimited(s, '=', 2) == [name] + SplitLimited(value, '=', 1);
    assert |SplitLimited(value, '=', 1)| == 2;
  }

  /** A word with exactly one '=' is read the same both ways. */
  lemma ArgAgrees(name: string, value: string)
    requires '=' !in name && '=' !in value
    ensures ArgAsWritten(name + "=" + value) == ParseArg(name + "=" + value) == Ok((name, value))
  {
    CutAtEquals(name, value);
  }

  /** A word with exactly one '='. */
  predicate OneEquals(arg: string)
  {
    '=' in arg && '=' !in arg[FirstIndex(arg, '=') + 1..]
  }

  /** As written, a word is read exactly when it holds one '=', and then
      as the corrected split reads it. */
  lemma ArgAsWrittenReads(arg: string)
    ensures ArgAsWritten(arg).Ok? <==> OneEquals(arg)
    ensures ArgAsWritten(arg).Ok? ==> ArgAsWritten(arg) == ParseArg(arg)
    ensures ArgAsWritten(arg).Err? ==> ArgAsWritten(arg).error == ValueError
  {
    if '=' in arg {
      var i := FirstIndex(arg, '=');
      var name, value := arg[..i], arg[i + 1..];
      assert arg == name + "=" + value;
      if '=' in value {
        ArgWithEqualsInValue(name, value);
      } else {
        ArgAgrees(name, value);
      }
    }
  }

  /** The reading of one word: as written, or cut at the first '='. */
  function ReadArg(arg: string, fixed: bool): Result<(string, string), ScriptError>
  {
    if fixed then ParseArg(arg) else ArgAsWritten(arg)
  }

  /** The dictionary after reading the words in order; later words win, and
      a word that cannot be read stops the reading. */
  function ArgumentsSpec(m: map<string, string>, alist: seq<string>, fixed: bool): Outcome<map<string, string>>
    decreases |alist|
  {
    if alist == [] then Outcome(m, None)
    else
      var p := ReadArg(alist[0], fixed);
      if p.Err? then Outcome(m, Some(alist[0]))
      else ArgumentsSpec(m[p.value.0 := p.value.1], alist[1..], fixed)
  }

  /** Every word's name ends up bound to the value of its last occurrence,
      when every word can be read: as written, each holds exactly one '='
      (ArgAsWrittenReads); corrected, each holds at least one. */
  lemma ArgumentsLastWins(m: map<string, string>, alist: seq<string>, fixed: bool)
    requires forall a :: a in alist ==> ReadArg(a, fixed).Ok?
    ensures var out := ArgumentsSpec(m, alist, fixed);
      && out.stop.None?
      && forall i :: 0 <= i < |alist| && (forall j :: i < j < |alist| ==> ReadArg(alist[j], fixed).value.0 != ReadArg(alist[i], fixed).value.0)
           ==> ReadArg(alist[i], fixed).value.0 in out.state
               && out.state[ReadArg(alist[i], fixed).value.0] == ReadArg(alist[i], fixed).value.1
  {
    ArgumentsNoStop(m, alist, fixed);
    forall i | 0 <= i < |alist| && (forall j :: i < j < |alist| ==> ReadArg(alist[j], fixed).value.0 != ReadArg(alist[i], fixed).value.0)
      ensures ReadArg(alist[i], fixed).value.0 in ArgumentsSpec(m, alist, fixed).state
      ensures ArgumentsSpec(m, alist, fixed).state[ReadArg(alist[i], fixed).value.0] == ReadArg(alist[i], fixed).value.1
    {
      ArgumentsLastWinsAt(m, alist, fixed, i);
    }
  }

  /** Readable words never stop the reading. */
  lemma {:induction false} ArgumentsNoStop(m: map<string, string>, alist: seq<string>, fixed: bool)
    requires forall a :: a in alist ==> ReadArg(a, fixed).Ok?
    ensures ArgumentsSpec(m, alist, fixed).stop.None?
    decreases |alist|
  {
    if alist != [] {
      var p := ReadArg(alist[0], fixed).value;
      assert forall a :: a in alist[1..] ==> a in alist;
      ArgumentsNoStop(m[p.0 := p.1], alist[1..], fixed);
    }
  }

  /** The word at i, when no later word has its name, decides its value. */
  lemma {:induction false} ArgumentsLastWinsAt(m: map<string, string>, alist: seq<string>, fixed: bool, i: nat)
    requires forall a :: a in alist ==> ReadArg(a, fixed).Ok?
    requires i < |alist|
    requires forall j :: i < j < |alist| ==> ReadArg(alist[j], fixed).value.0 != ReadArg(alist[i], fixed).value.0
    ensures ReadArg(alist[i], fixed).value.0 in ArgumentsSpec(m, alist, fixed).state
    ensures ArgumentsSpec(m, alist, fixed).state[ReadArg(alist[i], fixed).value.0] == ReadArg(alist[i], fixed).value.1
    decreases |alist|
  {
    var p := ReadArg(alist[0], fixed).value;
    assert forall a :: a in alist[1..] ==> a in alist;
    if i > 0 {
      assert alist[i] == alist[1..][i - 1];
      assert forall j :: i - 1 < j < |alist[1..]| ==> alist[1..][j] == alist[j + 1];
      ArgumentsLastWinsAt(m[p.0 := p.1], alist[1..], fixed, i - 1);
    } else {
      assert forall j :: 0 <= j < |alist[1..]| ==> alist[1..][j] == alist[j + 1];
      ArgumentsKeep(m[p.0 := p.1], alist[1..], fixed, p.0);
    }
  }

  /** A name no later word binds keeps its value. */
  lemma {:induction false} ArgumentsKeep(m: map<string, string>, alist: seq<string>, fixed: bool, key: string)
    requires forall a :: a in alist ==> ReadArg(a, fixed).Ok?
    requires forall j :: 0 <= j < |alist| ==> ReadArg(alist[j], fixed).value.0 != key
    requires key in m
    ensures key in ArgumentsSpec(m, alist, fixed).state && ArgumentsSpec(m, alist, fixed).state[key] == m[key]
    decreases |alist|
  {
    if alist != [] {
      var p := ReadArg(alist[0], fixed).value;
      assert alist[0] in alist;
      assert forall a :: a in alist[1..] ==> a in alist;
      assert forall j :: 0 <= j < |alist[1..]| ==> alist[1..][j] == alist[j + 1];
      ArgumentsKeep(m[p.0 := p.1], alist[1..], fixed, key);
    }
  }

  /** The reading stops at the first word it cannot read, with the
      bindings of the words before it; as written that is the first word
      without exactly one '=' (as in NAME=X=1). */
  lemma {:induction false} ArgumentsStopAt(m: map<string, string>, alist: seq<string>, fixed: bool, i: nat)
    requires i < |alist| && ReadArg(alist[i], fixed).Err?
    requires forall j :: 0 <= j < i ==> ReadArg(alist[j], fixed).Ok?
    ensures ArgumentsSpec(m, alist, fixed).stop == Some(alist[i])
    ensures ArgumentsSpec(m, alist, fixed).state == ArgumentsSpec(m, alist[..i], fixed).state
    decreases i
  {
    if i > 0 {
      var p := ReadArg(alist[0], fixed).value;
      assert alist[1..][i - 1] == alist[i];
      assert forall j :: 0 <= j < i - 1 ==> alist[1..][j] == alist[j + 1];
      ArgumentsStopAt(m[p.0 := p.1], alist[1..], fixed, i - 1);
      assert alist[..i][0] == alist[0] && alist[..i][1..] == alist[1..][..i - 1];
    }
  }

  const DefineWord: string := "CPPDEFINES=X=1"
  const DefineLine: seq<string> := ["A=1", DefineWord, "B=2"]

  /** How the words of the command line A=1 CPPDEFINES=X=1 B=2 are read. */
  lemma DefineWords()
    ensures ReadArg("A=1", false) == ReadArg("A=1", true) == Ok(("A", "1"))
    ensures ReadArg("B=2", false) == ReadArg("B=2", true) == Ok(("B", "2"))
    ensures ReadArg(DefineWord, false) == Err(ValueError)
    ensures ReadArg(DefineWord, true) == Ok(("CPPDEFINES", "X=1"))
  {
    assert "A=1" == "A" + "=" + "1" && "B=2" == "B" + "=" + "2";
    assert DefineWord == "CPPDEFINES" + "=" + "X=1";
    ArgAgrees("A", "1");
    ArgAgrees("B", "2");
    ArgWithEqualsInValue("CPPDEFINES", "X=1");
  }

  /** As written, A=1 CPPDEFINES=X=1 B=2 stops at the second word with only
      A bound. */
  lemma DefineStopsArguments()
    ensures ArgumentsSpec(map[], DefineLine, false) == Outcome(map["A" := "1"], Some(DefineWord))
  {
    var alist := DefineLine;
    DefineWords();
    assert alist[1..] == [DefineWord, "B=2"];
    assert ArgumentsSpec(map[], alist, false) == ArgumentsSpec(map["A" := "1"], alist[1..], false);
  }

  /** Corrected, the same command line binds all three names. */
  lemma DefineKeptCorrected()
    ensures ArgumentsSpec(map[], DefineLine, true)
         == Outcome(map["A" := "1", "CPPDEFINES" := "X=1", "B" := "2"], None)
  {
    var rest := [DefineWord, "B=2"];
    var last := ["B=2"];
    var m1 := map["A" := "1"];
    var m2 := m1["CPPDEFINES" := "X=1"];
    assert ArgumentsSpec(map[], DefineLine, true) == ArgumentsSpec(m1, rest, true) by {
      DefineWords();
      assert DefineLine[1..] == rest;
      ArgumentsRead(map[], DefineLine, true, "A", "1");
    }
    assert ArgumentsSpec(m1, rest, true) == ArgumentsSpec(m2, last, true) by {
      DefineWords();
      assert rest[1..] == last;
      ArgumentsRead(m1, rest, true, "CPPDEFINES", "X=1");
    }
    assert ArgumentsSpec(m2, last, true) == Outcome(m2["B" := "2"], None) by {
      DefineWords();
      assert last[1..] == [];
      ArgumentsRead(m2, last, true, "B", "2");
    }
  }

  /** Reading a first word as a given binding binds it and reads on. */
  lemma ArgumentsRead(m: map<string, string>, alist: seq<string>, fixed: bool, name: string, value: string)
    requires alist != [] && ReadArg(alist[0], fixed) == Ok((name, value))
    ensures ArgumentsSpec(m, alist, fixed) == ArgumentsSpec(m[name := value], alist[1..], fixed)
  {
  }

  // ---------------------------------------------------------------------
  // Signature settings

  datatype SigModule = MD5 | TimeStamp

  /** TargetSignatures: 'build' selects build signatures (1), 'content'
      content signatures (0); anything else is refused. */
  function BuildSignatureFor(kind: string): (r: Result<int, ScriptError>)
    ensures r.Ok? <==> kind == "build" || kind == "content"
    ensures r.Ok? ==> (r.value == 1 <==> kind == "build") && (r.value == 0 <==> kind == "content")
    ensures r.Err? ==> r.error.UserError? && IsPrefix("Unknown build signature type '", r.error.msg)
  {
    if kind == "build" then Ok(1)
    else if kind == "content" then Ok(0)
    else Err(UserError("Unknown build signature type '" + kind + "'"))
  }

  /** SourceSignatures: 'MD5' or 'timestamp'; anything else is refused. */
  function SignatureModuleFor(kind: string): (r: Result<SigModule, ScriptError>)
    ensures r.Ok? <==> kind == "MD5" || kind == "timestamp"
    ensures r.Ok? ==> (r.value == MD5 <==> kind == "MD5") && (r.value == TimeStamp <==> kind == "timestamp")
    ensures r.Err? ==> r.error.UserError? && IsPrefix("Unknown content signature type '", r.error.msg)
  {
    if kind == "MD5" then Ok(MD5)
    else if kind == "timestamp" then Ok(TimeStamp)
    else Err(UserError("Unknown content signature type '" + kind + "'"))
  }

  // ---------------------------------------------------------------------
  // Version checks

  predicate IsDigit(c: char) { '0' <= c <= '9' }

  predicate AllDigits(s: string) { forall k :: 0 <= k < |s| ==> IsDigit(s[k]) }

  /** The value of a string of decimal digits. */
  function DigitsValue(s: string): nat
    requires AllDigits(s)
  {
    if s == [] then 0 else 10 * DigitsValue(s[..|s| - 1]) + (s[|s| - 1] as int - '0' as int)
  }

  lemma DigitValue(d: nat)
    requires d < 10
    ensures Digit(d) as int - '0' as int == d
  {
    var ds := ['0', '1', '2', '3', '4', '5', '6', '7', '8', '9'];
    assert Digit(d) == ds[d];
  }

  /** Reading back a printed natural number gives the number. */
  lemma {:induction false} DigitsRoundTrip(n: nat)
    ensures AllDigits(NatToString(n)) && DigitsValue(NatToString(n)) == n
    decreases n
  {
    var s := NatToString(n);
    if n < 10 {
      DigitValue(n);
    } else {
      DigitsRoundTrip(n / 10);
      DigitValue(n % 10);
      assert s[..|s| - 1] == NatToString(n / 10);
    }
  }

  /** Python's int(s) on a string: optional white space around an optional
      sign and at least one digit. */
  function ParseInt(s: string): (r: Result<int, ScriptError>)
    ensures r.Err? ==> r.error == ValueError
  {
    var t := Strip(s);
    if t != [] && (t[0] == '-' || t[0] == '+') && t[1..] != [] && AllDigits(t[1..]) then
      var n: int := DigitsValue(t[1..]);
      Ok(if t[0] == '-' then -n else n)
    else if t != [] && AllDigits(t) then Ok(DigitsValue(t))
    else Err(ValueError)
  }

  /** The run of digits at the start of s (what re.match('\d+', s) finds). */
  function LeadingDigits(s: string): (r: string)
    ensures AllDigits(r) && |r| <= |s| && r == s[..|r|]
    ensures |r| < |s| ==> !IsDigit(s[|r|])
  {
    if s != [] && IsDigit(s[0]) then [s[0]] + LeadingDigits(s[1..]) else []
  }

  /** The major and minor number of a version string such as "0.96.1" or
      "2.3.4 (#1, ...)": the first word cut at '.', the major number read
      whole and the minor one from its leading digits. */
  function ParseVersion(version: string): Result<(int, int), ScriptError>
  {
    ParseVersionParts(VersionParts(version))
  }

  /** The first word of a version string, cut at '.'. */
  function VersionParts(version: string): (r: seq<string>)
    ensures |r| >= 1
  {
    SplitOn(SplitOn(version, ' ')[0], '.')
  }

  function ParseVersionParts(parts: seq<string>): Result<(int, int), ScriptError>
    requires |parts| >= 1
  {
    var major := ParseInt(parts[0]);
    if major.Err? then Err(major.error)
    else if |parts| < 2 then Err(IndexError)
    else
      var digits := LeadingDigits(parts[1]);
      if digits == [] then Err(AttributeError)
      else Ok((major.value, DigitsValue(digits)))
  }

  lemma SplitOnNone(s: string, c: char)
    requires c !in s
    ensures SplitOn(s, c) == [s]
  {
  }

  lemma SplitOnCut(a: string, c: char, b: string)
    requires c !in a
    ensures SplitOn(a + [c] + b, c) == [a] + SplitOn(b, c)
  {
    var s := a + [c] + b;
    Util.FirstIndexAfter(a, c, b);
    assert s[..|a|] == a && s[|a| + 1..] == b;
  }

  lemma NoSeparators(s: string)
    requires AllDigits(s)
    ensures ' ' !in s && '.' !in s
  {
    forall k | 0 <= k < |s| ensures s[k] != ' ' && s[k] != '.' {
      assert IsDigit(s[k]);
    }
  }

  lemma NoSpaceDigits(s: string)
    requires AllDigits(s)
    ensures Strip(s) == s
  {
    forall k | 0 <= k < |s| ensures !IsSpace(s[k]) {
      assert IsDigit(s[k]);
    }
  }

  /** A version printed as major.minor, optionally followed by '.' and more
      text without a space, reads back as (major, minor). */
  lemma ParseVersionRoundTrip(major: nat, minor: nat, rest: string)
    requires ' ' !in rest && (rest == [] || rest[0] == '.')
    ensures ParseVersion(NatToString(major) + "." + NatToString(minor) + rest) == Ok((major, minor))
  {
    var a, b := NatToString(major), NatToString(minor);
    PrintedVersionParts(a, b, rest);
    ParsePrintedParts(major, minor, VersionParts(a + "." + b + rest));
  }

  /** The parts of a printed version: the major digits, then the minor ones. */
  lemma PrintedVersionParts(a: string, b: string, rest: string)
    requires AllDigits(a) && AllDigits(b)
    requires ' ' !in rest && (rest == [] || rest[0] == '.')
    ensures var parts := VersionParts(a + "." + b + rest);
      |parts| >= 2 && parts[0] == a && parts[1] == b
  {
    NoSeparators(a);
    NoSeparators(b);
    var v := a + "." + b + rest;
    assert ' ' !in v;
    SplitOnNone(v, ' ');
    assert v == a + ['.'] + (b + rest);
    SplitOnCut(a, '.', b + rest);
    SplitOnFirst(b, '.', rest);
  }

  /** The first piece of x + rest cut at c is x, when rest is empty or
      starts with c. */
  lemma SplitOnFirst(x: string, c: char, rest: string)
    requires c !in x && (rest == [] || rest[0] == c)
    ensures SplitOn(x + rest, c)[0] == x
  {
    if rest == [] {
      assert x + rest == x;
    } else {
      var tail := rest[1..];
      assert x + rest == x + [c] + tail;
      SplitOnCut(x, c, tail);
    }
  }

  lemma ParsePrintedParts(major: nat, minor: nat, parts: seq<string>)
    requires |parts| >= 2 && parts[0] == NatToString(major) && parts[1] == NatToString(minor)
    ensures ParseVersionParts(parts) == Ok((major, minor))
  {
    DigitsRoundTrip(major);
    DigitsRoundTrip(minor);
    ParseIntDigits(parts[0]);
    LeadingAllDigits(parts[1]);
  }

  lemma ParseIntDigits(s: string)
    requires s != [] && AllDigits(s)
    ensures ParseInt(s) == Ok(DigitsValue(s) as int)
  {
    NoSpaceDigits(s);
    assert IsDigit(s[0]);
  }

  lemma {:induction false} LeadingAllDigits(s: string)
    requires AllDigits(s)
    ensures LeadingDigits(s) == s
    decreases |s|
  {
    if s != [] {
      assert IsDigit(s[0]);
      LeadingAllDigits(s[1..]);
    }
  }

  /** Compare a requirement with a running version: 0 when (major, minor) is
      later, 1 otherwise. */
  function Compare(major: int, minor: int, current: (int, int)): (r: int)
    ensures r == 0 <==> major > current.0 || (major == current.0 && minor > current.1)
    ensures r == 1 <==> current.0 > major || (current.0 == major && current.1 >= minor)
  {
    if major > current.0 || (major == current.0 && minor > current.1) then 0 else 1
  }

  /** A requirement met by a version is met by every earlier requirement. */
  lemma CompareMonotone(major: int, minor: int, m2: int, n2: int, current: (int, int))
    requires Compare(major, minor, current) == 1
    requires m2 < major || (m2 == major && n2 <= minor)
    ensures Compare(m2, n2, current) == 1
  {
  }

  /** CheckVersion as written: the interpreter's own version (versionInfo)
      is used whenever it exists, and version_string only without it. */
  function CheckVersionAsWritten(major: int, minor: int, versionString: string,
                                 versionInfo: Option<(int, int)>): Result<int, ScriptError>
  {
    if versionInfo.Some? then Ok(Compare(major, minor, versionInfo.value))
    else
      var v := ParseVersion(versionString);
      if v.Err? then Err(v.error) else Ok(Compare(major, minor, v.value))
  }

  /** With the interpreter's version present the answer does not depend on
      the version string at all: EnsureSConsVersion compares against the
      Python version. Asking for SCons 1.0 from SCons 0.96.1 under
      Python 2.4 passes. */
  lemma CheckVersionIgnoresString(major: int, minor: int, s1: string, s2: string, info: (int, int))
    ensures CheckVersionAsWritten(major, minor, s1, Some(info))
         == CheckVersionAsWritten(major, minor, s2, Some(info))
    ensures CheckVersionAsWritten(1, 0, "0.96.1", Some((2, 4))) == Ok(1)
    ensures CheckVersion(1, 0, "0.96.1") == Ok(0)
  {
    PrintedOldVersion();
    CheckVersionAgainstPrinted(1, 0, 0, 96, ".1");
  }

  lemma PrintedOldVersion()
    ensures NatToString(0) + "." + NatToString(96) + ".1" == "0.96.1"
  {
    assert NatToString(96) == "96" by {
      assert NatToString(9) == "9";
      assert Digit(6) == '6';
    }
  }

  /** CheckVersion, reading the version string it is given. */
  function CheckVersion(major: int, minor: int, versionString: string): (r: Result<int, ScriptError>)
    ensures r.Ok? <==> ParseVersion(versionString).Ok?
    ensures r.Ok? ==> r.value == Compare(major, minor, ParseVersion(versionString).value)
  {
    var v := ParseVersion(versionString);
    if v.Err? then Err(v.error) else Ok(Compare(major, minor, v.value))
  }

  /** For a version printed as major.minor[.more], the check passes exactly
      when the requirement is not later than it. */
  lemma CheckVersionAgainstPrinted(major: int, minor: int, vmajor: nat, vminor: nat, rest: string)
    requires ' ' !in rest && (rest == [] || rest[0] == '.')
    ensures CheckVersion(major, minor, NatToString(vmajor) + "." + NatToString(vminor) + rest)
         == Ok(if major > vmajor || (major == vmajor && minor > vminor) then 0 else 1)
  {
    ParseVersionRoundTrip(vmajor, vminor, rest);
  }

  // ---------------------------------------------------------------------
  // The module state

  /** A frame on the SConstruct/SConscript call stack. */
  class Frame {
    var globals: map<string, Value>
    var retval: Value
    const exports: map<string, Value>

    constructor(exports: map<string, Value>)
      ensures this.exports == exports && globals == map[] && retval == NoneValue
    {
      this.exports := exports;
      globals := map[];
      retval := NoneValue;
    }
  }

  /** The module-level state of the SConscript reader, with the two signature
      settings it writes into other modules. */
  class Script {
    var stack: seq<Frame>
    var globalExports: map<string, Value>
    var defaultTargets: Option<seq<Node>>
    var cleanTargets: map<Node, seq<Node>>
    var arguments: map<string, string>
    var buildSignature: int
    var sigModule: SigModule

    constructor(buildSignature: int, sigModule: SigModule)
      ensures stack == [] && globalExports == map[] && defaultTargets.None?
      ensures cleanTargets == map[] && arguments == map[]
      ensures this.buildSignature == buildSignature && this.sigModule == sigModule
    {
      stack := [];
      globalExports := map[];
      defaultTargets := None;
      cleanTargets := map[];
      arguments := map[];
      this.buildSignature := buildSignature;
      this.sigModule := sigModule;
    }

    /** _scons_add_args: add the name=value words of the command line to
        ARGUMENTS; a word without exactly one '=' raises ValueError, keeping
        the words read before it. */
    method AddArgs(alist: seq<string>) returns (r: Result<(), ScriptError>)
      modifies this
      ensures var out := ArgumentsSpec(old(arguments), alist, false);
        arguments == out.state && (r.Ok? <==> out.stop.None?) && (r.Err? ==> r.error == ValueError)
      ensures stack == old(stack) && globalExports == old(globalExports)
      ensures defaultTargets == old(defaultTargets) && cleanTargets == old(cleanTargets)
      ensures buildSignature == old(buildSignature) && sigModule == old(sigModule)
    {
      ghost var target := ArgumentsSpec(arguments, alist, false);
      var i := 0;
      while i < |alist|
        invariant 0 <= i <= |alist|
        invariant ArgumentsSpec(arguments, alist[i..], false) == target
        invariant stack == old(stack) && globalExports == old(globalExports)
        invariant defaultTargets == old(defaultTargets) && cleanTargets == old(cleanTargets)
        invariant buildSignature == old(buildSignature) && sigModule == old(sigModule)
      {
        var p := ArgAsWritten(alist[i]);
        assert alist[i..][0] == alist[i] && alist[i..][1..] == alist[i + 1..];
        if p.Err? {
          return Err(ValueError);
        }
        arguments := arguments[p.value.0 := p.value.1];
        i := i + 1;
      }
      return Ok(());
    }

    /** Export: the computed name/value tables are merged into the global
        exports in order. */
    method Export(computed: seq<map<string, Value>>)
      modifies this
      ensures globalExports == ExportSpec(old(globalExports), computed)
      ensures stack == old(stack) && arguments == old(arguments)
      ensures defaultTargets == old(defaultTargets) && cleanTargets == old(cleanTargets)
      ensures buildSignature == old(buildSignature) && sigModule == old(sigModule)
    {
      var i := 0;
      while i < |computed|
        invariant 0 <= i <= |computed|
        invariant globalExports == ExportSpec(old(globalExports), computed[..i])
        invariant stack == old(stack) && arguments == old(arguments)
        invariant defaultTargets == old(defaultTargets) && cleanTargets == old(cleanTargets)
        invariant buildSignature == old(buildSignature) && sigModule == old(sigModule)
      {
        assert computed[..i + 1] == computed[..i] + [computed[i]];
        ExportSnoc(old(globalExports), computed[..i], computed[i]);
        globalExports := globalExports + computed[i];
        i := i + 1;
      }
      assert computed[..i] == computed;
    }

    /** Import into the running script's namespace. With no script running
        any name raises IndexError. */
    method Import(vars: seq<Arg>) returns (r: Result<(), ScriptError>)
      modifies if stack == [] then {} else {stack[|stack| - 1]}
      ensures stack == old(stack)
      ensures stack == [] ==> r == (if SplitAll(vars) == [] then Ok(()) else Err(IndexError))
      ensures stack != [] ==>
        var top := stack[|stack| - 1];
        var out := ImportSpec(old(top.globals), top.exports, globalExports, SplitAll(vars));
        && top.globals == out.state
        && top.retval == old(top.retval)
        && r == (if out.stop.None? then Ok(()) else Err(UserError(ImportMessage(out.stop.value))))
    {
      var names := SplitAll(vars);
      if stack == [] {
        if names == [] {
          return Ok(());
        }
        return Err(IndexError);
      }
      var top := stack[|stack| - 1];
      ghost var target := ImportSpec(top.globals, top.exports, globalExports, names);
      var i := 0;
      while i < |names|
        invariant 0 <= i <= |names|
        invariant ImportSpec(top.globals, top.exports, globalExports, names[i..]) == target
        invariant top.retval == old(top.retval)
      {
        var v := names[i];
        assert names[i..][0] == v && names[i..][1..] == names[i + 1..];
        if v == "*" {
          top.globals := top.globals + globalExports;
          top.globals := top.globals + top.exports;
        } else if v in top.exports {
          top.globals := top.globals[v := top.exports[v]];
        } else if v in globalExports {
          top.globals := top.globals[v := globalExports[v]];
        } else {
          return Err(UserError(ImportMessage(v)));
        }
        i := i + 1;
      }
      return Ok(());
    }

    /** Return: the running script's return value becomes the named values,
        one as itself and several as a tuple. An unbound name raises
        UserError and leaves the return value as it was. */
    method Return(vars: seq<string>) returns (r: Result<(), ScriptError>)
      modifies if stack == [] then {} else {stack[|stack| - 1]}
      ensures stack == old(stack)
      ensures stack == [] ==> r == Err(IndexError)
      ensures stack != [] ==>
        var top := stack[|stack| - 1];
        var vs := ReturnSpec(top.globals, SplitAll(Ones(vars)), []);
        && top.globals == old(top.globals)
        && (vs.Ok? ==> r == Ok(()) && top.retval == Packed(vs.value))
        && (vs.Err? ==> r == Err(UserError(ReturnMessage(vs.error))) && top.retval == old(top.retval))
    {
      var names := SplitAll(Ones(vars));
      if stack == [] {
        return Err(IndexError);
      }
      var top := stack[|stack| - 1];
      ghost var target := ReturnSpec(top.globals, names, []);
      var retval := [];
      var i := 0;
      while i < |names|
        invariant 0 <= i <= |names|
        invariant ReturnSpec(top.globals, names[i..], retval) == target
      {
        var v := names[i];
        assert names[i..][0] == v && names[i..][1..] == names[i + 1..];
        if v !in top.globals {
          return Err(UserError(ReturnMessage(v)));
        }
        retval := retval + [top.globals[v]];
        i := i + 1;
      }
      top.retval := Packed(retval);
      return Ok(());
    }

    /** Default: None empties the default targets, anything else adds its
        nodes. The list exists (possibly empty) after any call. */
    method Default(targets: seq<Option<seq<Node>>>)
      modifies this
      ensures defaultTargets == Some(DefaultSpec(if old(defaultTargets).Some? then old(defaultTargets).value else [], targets))
      ensures stack == old(stack) && globalExports == old(globalExports) && arguments == old(arguments)
      ensures cleanTargets == old(cleanTargets)
      ensures buildSignature == old(buildSignature) && sigModule == old(sigModule)
    {
      var current := if defaultTargets.Some? then defaultTargets.value else [];
      ghost var target := DefaultSpec(current, targets);
      var i := 0;
      while i < |targets|
        invariant 0 <= i <= |targets|
        invariant DefaultSpec(current, targets[i..]) == target
      {
        assert targets[i..][0] == targets[i] && targets[i..][1..] == targets[i + 1..];
        if targets[i].None? {
          current := [];
        } else {
          current := current + targets[i].value;
        }
        i := i + 1;
      }
      defaultTargets := Some(current);
    }

    /** Clean: the files' nodes are added to the target's list of things to
        remove, creating the list on first use. */
    method Clean(target: Node, files: seq<seq<Node>>)
      modifies this
      ensures cleanTargets == CleanSpec(old(cleanTargets), target, Concat(files))
      ensures stack == old(stack) && globalExports == old(globalExports) && arguments == old(arguments)
      ensures defaultTargets == old(defaultTargets)
      ensures buildSignature == old(buildSignature) && sigModule == old(sigModule)
    {
      var nodes := [];
      var i := 0;
      while i < |files|
        invariant 0 <= i <= |files|
        invariant nodes == Concat(files[..i])
        invariant unchanged(this)
      {
        assert files[..i + 1] == files[..i] + [files[i]];
        ConcatSnoc(files[..i], files[i]);
        nodes := nodes + files[i];
        i := i + 1;
      }
      assert files[..i] == files;
      if target in cleanTargets {
        cleanTargets := cleanTargets[target := cleanTargets[target] + nodes];
      } else {
        assert [] + nodes == nodes;
        cleanTargets := cleanTargets[target := nodes];
      }
    }

    /** TargetSignatures: sets the build-signature flag or raises UserError
        leaving it unchanged. */
    method TargetSignatures(kind: string) returns (r: Result<(), ScriptError>)
      modifies this
      ensures var s := BuildSignatureFor(kind);
        && (s.Ok? ==> r == Ok(()) && buildSignature == s.value)
        && (s.Err? ==> r == Err(s.error) && buildSignature == old(buildSignature))
      ensures stack == old(stack) && globalExports == old(globalExports) && arguments == old(arguments)
      ensures defaultTargets == old(defaultTargets) && cleanTargets == old(cleanTargets)
      ensures sigModule == old(sigModule)
    {
      var s := BuildSignatureFor(kind);
      if s.Err? {
        return Err(s.error);
      }
      buildSignature := s.value;
      return Ok(());
    }

    /** SourceSignatures: selects the content-signature module or raises
        UserError leaving it unchanged. */
    method SourceSignatures(kind: string) returns (r: Result<(), ScriptError>)
      modifies this
      ensures var s := SignatureModuleFor(kind);
        && (s.Ok? ==> r == Ok(()) && sigModule == s.value)
        && (s.Err? ==> r == Err(s.error) && sigModule == old(sigModule))
      ensures stack == old(stack) && globalExports == old(globalExports) && arguments == old(arguments)
      ensures defaultTargets == old(defaultTargets) && cleanTargets == old(cleanTargets)
      ensures buildSignature == old(buildSignature)
    {
      var s := SignatureModuleFor(kind);
      if s.Err? {
        return Err(s.error);
      }
      sigModule := s.value;
      return Ok(());
    }

    /** SConscript(): each chosen file runs in a fresh frame pushed on the
        stack and popped afterwards; the result is the one frame's return
        value, or a tuple of them all. run(f) is what file f's Return
        stored, if it called Return; exports are the values the export
        names have in the calling namespace. */
    method SConscript(ls: seq<Arg>, kw: Keywords, exports: map<string, Value>,
                      run: string -> Option<Value>) returns (r: Result<Value, ScriptError>)
      modifies this
      ensures stack == old(stack)
      ensures var chosen := GetSConscriptFilenames(ls, kw);
        && (chosen.Err? ==> r == Err(chosen.error))
        && (chosen.Ok? ==> r == Ok(Packed(Returned(chosen.value.files, run))))
    {
      var chosen := GetSConscriptFilenames(ls, kw);
      if chosen.Err? {
        return Err(chosen.error);
      }
      var files := chosen.value.files;
      var results := [];
      var i := 0;
      while i < |files|
        invariant 0 <= i <= |files|
        invariant stack == old(stack)
        invariant results == Returned(files[..i], run)
      {
        var frame := new Frame(exports);
        stack := stack + [frame];
        var returned := run(files[i]);
        if returned.Some? {
          frame.retval := returned.value;
        }
        stack := stack[..|stack| - 1];
        assert files[..i + 1] == files[..i] + [files[i]];
        results := results + [frame.retval];
        i := i + 1;
      }
      assert files[..i] == files;
      return Ok(Packed(results));
    }
  }

  /** Each string argument as a one-string Arg (Return splits plain strings). */
  function Ones(vars: seq<string>): (r: seq<Arg>)
    ensures |r| == |vars| && forall i :: 0 <= i < |vars| ==> r[i] == One(vars[i])
  {
    seq(|vars|, i requires 0 <= i < |vars| => One(vars[i]))
  }

  /** The return value of each file's frame: what its Return stored, else
      None. */
  function Returned(files: seq<string>, run: string -> Option<Value>): (r: seq<Value>)
    ensures |r| == |files|
  {
    seq(|files|, i requires 0 <= i < |files| => if run(files[i]).Some? then run(files[i]).value else NoneValue)
  }
}
