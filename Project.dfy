/** The project tool: the registry of unfinished projects, the defaults a
    project sets, the installation directory hierarchy, the choice of an
    installation directory and of a manual section, the substitution
    dictionary and the test command's exit status. */
module ProjectTool {
  import opened Util

  // ---------------------------------------------------------------------
  // The registry of unfinished projects

  datatype ProjectError = UserError(msg: string) | ValueError | KeyError

  /** A project: its keywords, its NAME and whether it is finished. */
  class Project {
    var fields: map<string, string>
    var finished: bool
    const name: string

    /** Project.__init__: the keywords given, registered as unfinished,
        with the string-valued defaults added where absent. */
    constructor (registry: Registry, given: map<string, string>)
      requires "NAME" in given
      requires registry.Valid()
      modifies registry
      ensures registry.all == old(registry.all) + [this]
      ensures registry.Valid()
      ensures name == given["NAME"] && !finished
      ensures fields == WithDefaults(given, ProjectDefaults(given))
    {
      fields := given;
      name := given["NAME"];
      finished := false;
      new;
      registry.all := registry.all + [this];
      SetDefault(ProjectDefaults(given));
    }

    /** Project._setdefault: every keyword not already present is added;
        present ones keep their value. */
    method SetDefault(kw: map<string, string>)
      modifies this
      ensures fields == WithDefaults(old(fields), kw)
      ensures finished == old(finished)
    {
      var keys := kw.Keys;
      var added := kw;
      while keys != {}
        invariant keys <= kw.Keys
        invariant added == map k | k in kw && (k in keys || k !in fields) :: kw[k]
        decreases keys
      {
        var k :| k in keys;
        if k in fields {
          added := map j | j in added && j != k :: added[j];
        }
        keys := keys - {k};
      }
      fields := fields + added;
    }
  }

  /** `d.update(kw)` after dropping the keys `d` already has. */
  function WithDefaults(d: map<string, string>, kw: map<string, string>): map<string, string>
  {
    d + map k | k in kw && k !in d :: kw[k]
  }

  /** A present key keeps its value, an absent one takes the default, and
      no other key appears. */
  lemma WithDefaultsKeeps(d: map<string, string>, kw: map<string, string>)
    ensures forall k :: k in d ==> k in WithDefaults(d, kw) && WithDefaults(d, kw)[k] == d[k]
    ensures forall k :: k in kw && k !in d ==> k in WithDefaults(d, kw) && WithDefaults(d, kw)[k] == kw[k]
    ensures WithDefaults(d, kw).Keys == d.Keys + kw.Keys
  {
  }

  /** Setting the same defaults twice changes nothing more. */
  lemma WithDefaultsIdempotent(d: map<string, string>, kw: map<string, string>)
    ensures WithDefaults(WithDefaults(d, kw), kw) == WithDefaults(d, kw)
  {
    var once := WithDefaults(d, kw);
    assert forall k :: k in kw ==> k in once;
    assert (map k | k in kw && k !in once :: kw[k]) == map[];
  }

  /** The string-valued defaults of Project.__init__; PACKAGE is the
      given SHORTNAME, else NAME. */
  function ProjectDefaults(given: map<string, string>): map<string, string>
    requires "NAME" in given
  {
    map["SHORTNAME" := given["NAME"],
        "TEST_COMMAND" := "",
        "TEST_ARGS" := "",
        "DIST_TYPE" := "src_targz",
        "DISTCHECK_SUBDIR" := "_distcheck",
        "PACKAGE" := if "SHORTNAME" in given then given["SHORTNAME"] else given["NAME"],
        "configure_input" := ""]
  }

  /** SHORTNAME and PACKAGE default to NAME; a given SHORTNAME is kept and
      becomes the default PACKAGE. */
  lemma ShortNameDefault(given: map<string, string>)
    requires "NAME" in given
    ensures var f := WithDefaults(given, ProjectDefaults(given));
      "SHORTNAME" in f && "PACKAGE" in f
      && f["SHORTNAME"] == (if "SHORTNAME" in given then given["SHORTNAME"] else given["NAME"])
      && ("PACKAGE" !in given ==> f["PACKAGE"] == f["SHORTNAME"])
  {
    WithDefaultsKeeps(given, ProjectDefaults(given));
  }

  /** The module list of unfinished projects. */
  class Registry {
    var all: seq<Project>

    /** Every listed project is unfinished and listed once. */
    predicate Valid()
      reads this, all
    {
      (forall i :: 0 <= i < |all| ==> !all[i].finished)
      && Distinct(all)
    }

    constructor ()
      ensures all == [] && Valid()
    {
      all := [];
    }

    /** find_project: None when nothing is unfinished, the first project
        when no name is given, else the first project of that NAME. */
    method FindProject(name: Option<string>) returns (r: Option<Project>)
      ensures all == [] ==> r == None
      ensures all != [] && name.None? ==> r == Some(all[0])
      ensures name.Some? && r.Some? ==>
        exists i :: 0 <= i < |all| && all[i] == r.value && r.value.name == name.value
          && forall j :: 0 <= j < i ==> all[j].name != name.value
      ensures name.Some? && r.None? ==> forall i :: 0 <= i < |all| ==> all[i].name != name.value
    {
      if all == [] {
        return None;
      }
      if name.None? {
        return Some(all[0]);
      }
      var i := 0;
      while i < |all|
        invariant i <= |all|
        invariant forall j :: 0 <= j < i ==> all[j].name != name.value
      {
        if all[i].name == name.value {
          return Some(all[i]);
        }
        i := i + 1;
      }
      return None;
    }

    /** The registry part of Project.finish: a finished project raises a
        UserError naming it; otherwise it is marked finished and taken
        off the list. */
    method Finish(p: Project) returns (r: Result<(), ProjectError>)
      requires Valid()
      modifies this, p
      ensures old(p.finished) ==> r == Err(UserError("Project " + p.name + " already finished."))
      ensures old(p.finished) ==> all == old(all) && p.finished
      ensures !old(p.finished) && p in old(all) ==> r.Ok? && p.finished && all == RemoveFirst(old(all), p)
      ensures !old(p.finished) && p !in old(all) ==> r == Err(ValueError) && p.finished && all == old(all)
      ensures p.fields == old(p.fields)
      ensures Valid()
    {
      if p.finished {
        return Err(UserError("Project " + p.name + " already finished."));
      }
      p.finished := true;
      if p !in all {
        return Err(ValueError);
      }
      ghost var before := all;
      RemoveFirstDistinct(all, p);
      all := RemoveFirst(all, p);
      forall i | 0 <= i < |all| ensures !all[i].finished {
        assert all[i] in before;
      }
      r := Ok(());
    }

    /** finish_all: every listed project is finished, leaving the list
        empty. */
    method FinishAll()
      requires Valid()
      modifies this, all
      ensures all == [] && Valid()
      ensures forall i :: 0 <= i < |old(all)| ==> old(all)[i].finished
      ensures forall q | q in old(all) :: q.fields == old(q.fields)
    {
      var copy := all;
      var i := 0;
      while i < |copy|
        invariant i <= |copy|
        invariant all == copy[i..]
        invariant Valid()
        invariant forall j :: 0 <= j < i ==> copy[j].finished
        invariant forall q | q in copy :: q.fields == old(q.fields)
        invariant Distinct(copy)
      {
        var p := copy[i];
        assert all[0] == p;
        assert copy[i..] == [p] + copy[i + 1..];
        var r := Finish(p);
        assert RemoveFirst(copy[i..], p) == copy[i + 1..];
        i := i + 1;
      }
    }
  }

  // ---------------------------------------------------------------------
  // The installation directory hierarchy

  /** The standard directories and their templates, without `python`,
      whose value comes from the Python installation. */
  const StandardDirectories: map<string, string> := map[
    "prefix" := "/usr/local",
    "dataroot" := "${DIR.prefix}/share",
    "data" := "${DIR.dataroot}",
    "pkgdata" := "${DIR.data}/${SHORTNAME}",
    "doc" := "${DIR.dataroot}/doc/${SHORTNAME}",
    "html" := "${DIR.doc}",
    "dvi" := "${DIR.doc}",
    "ps" := "${DIR.doc}",
    "pdf" := "${DIR.doc}",
    "info" := "${DIR.dataroot}/info",
    "lisp" := "${DIR.dataroot}/emacs/site-lisp",
    "locale" := "${DIR.dataroot}/locale",
    "man" := "${DIR.dataroot}/man",
    "sysconf" := "${DIR.prefix}/etc",
    "sharedstate" := "${DIR.prefix}/com",
    "pkgsharedstate" := "${DIR.sharedstate}/${SHORTNAME}",
    "localstate" := "${DIR.prefix}/var",
    "pkglocalstate" := "${DIR.localstate}/${SHORTNAME}",
    "include" := "${DIR.prefix}/include",
    "pkginclude" := "${DIR.include}/${SHORTNAME}",
    "exec_prefix" := "${DIR.prefix}",
    "bin" := "${DIR.exec_prefix}/bin",
    "sbin" := "${DIR.exec_prefix}/sbin",
    "libexec" := "${DIR.exec_prefix}/libexec",
    "pkglibexec" := "${DIR.libexec}/${SHORTNAME}",
    "lib" := "${DIR.exec_prefix}/lib",
    "pkglib" := "${DIR.exec_prefix}/lib/${SHORTNAME}",
    "oldinclude" := "/usr/include",
    "pkgoldinclude" := "${DIR.oldinclude}/${SHORTNAME}"]

  const DefaultArchDependent: seq<string> := ["exec_prefix", "bin", "sbin", "libexec", "pkglibexec", "lib", "pkglib"]

  const DefaultManSections: string := "123456789ln"

  lemma SectionChars(c: char)
    ensures c in DefaultManSections <==> '1' <= c <= '9' || c == 'l' || c == 'n'
  {
  }

  /** Each character as a one-character section name. */
  function Sections(chars: string): (r: seq<string>)
    ensures |r| == |chars| && forall i :: 0 <= i < |chars| ==> r[i] == [chars[i]]
  {
    seq(|chars|, i requires 0 <= i < |chars| => [chars[i]])
  }

  lemma SectionsMember(chars: string, s: string)
    ensures s in Sections(chars) <==> |s| == 1 && s[0] in chars
  {
    var r := Sections(chars);
    if |s| == 1 && s[0] in chars {
      var i :| 0 <= i < |chars| && chars[i] == s[0];
      assert r[i] == s;
    }
  }

  /** The man<N> directories the sections add, in order. */
  function ManDirectories(sections: seq<string>): map<string, string>
  {
    if sections == [] then map[]
    else
      var s := sections[|sections| - 1];
      ManDirectories(sections[..|sections| - 1])["man" + s := "${DIR.man}/man" + s]
  }

  /** The directory templates, which are arch-dependent and which manual
      sections exist. */
  class DirectoryHierarchy {
    var dirs: map<string, string>
    var archDependent: seq<string>
    var manSections: seq<string>

    /** DirectoryHierarchy.__init__: the standard directories updated by
        the given ones, then the man sections 1-9, l and n. */
    constructor (kw: map<string, string>)
      ensures dirs == (StandardDirectories + kw) + ManDirectories(Sections(DefaultManSections))
      ensures forall n :: n in archDependent <==> n in StandardDirectories + kw && n in DefaultArchDependent
      ensures manSections == Sections(DefaultManSections)
    {
      dirs := map[];
      archDependent := [];
      manSections := [];
      new;
      DefineDirectories(StandardDirectories + kw);
      AddManSections(Sections(DefaultManSections));
    }

    /** The loop of __init__ over the directories, in any order: each is
        defined, arch-dependent when its name is one of the defaults. */
    method DefineDirectories(directories: map<string, string>)
      requires dirs == map[] && archDependent == []
      modifies this
      ensures dirs == directories
      ensures forall n :: n in archDependent <==> n in directories && n in DefaultArchDependent
      ensures manSections == old(manSections)
    {
      var rest := directories.Keys;
      while rest != {}
        invariant rest <= directories.Keys
        invariant dirs == map n | n in directories && n !in rest :: directories[n]
        invariant forall n :: n in archDependent <==> n in directories && n !in rest && n in DefaultArchDependent
        invariant manSections == old(manSections)
        decreases rest
      {
        var name :| name in rest;
        DefineDirectory(name, directories[name], name in DefaultArchDependent);
        rest := rest - {name};
      }
    }

    /** The loop of __init__ over the manual sections. */
    method AddManSections(sections: seq<string>)
      requires manSections == []
      modifies this
      ensures dirs == old(dirs) + ManDirectories(sections)
      ensures archDependent == old(archDependent)
      ensures manSections == sections
    {
      var i := 0;
      while i < |sections|
        invariant i <= |sections|
        invariant dirs == old(dirs) + ManDirectories(sections[..i])
        invariant archDependent == old(archDependent)
        invariant manSections == sections[..i]
      {
        AddManSection(sections[i]);
        assert sections[..i + 1][..i] == sections[..i];
        i := i + 1;
      }
      assert sections[..i] == sections;
    }

    predicate IsArchDependent(name: string)
      reads this
    {
      name in archDependent
    }

    predicate IsManSection(section: string)
      reads this
    {
      section in manSections
    }

    method AddManSection(section: string)
      modifies this
      ensures dirs == old(dirs)["man" + section := "${DIR.man}/man" + section]
      ensures manSections == old(manSections) + [section]
      ensures archDependent == old(archDependent)
    {
      DefineDirectory("man" + section, "${DIR.man}/man" + section, false);
      manSections := manSections + [section];
    }

    /** The record part of DefineDirectory; the command-line option that
        may override the template is not modelled. */
    method DefineDirectory(name: string, directory: string, archDependentDir: bool)
      modifies this
      ensures dirs == old(dirs)[name := directory]
      ensures archDependent == old(archDependent) + (if archDependentDir then [name] else [])
      ensures manSections == old(manSections)
    {
      dirs := dirs[name := directory];
      if archDependentDir {
        archDependent := archDependent + [name];
      }
    }
  }

  lemma StandardHasArchDependent()
    ensures forall n :: n in DefaultArchDependent ==> n in StandardDirectories
  {
  }

  /** Whatever directories are given, a hierarchy's arch-dependent ones
      are exactly the seven defaults, and its manual sections are the
      single characters 1-9, l and n. */
  lemma HierarchyMembership(h: DirectoryHierarchy, kw: map<string, string>, name: string, section: string)
    requires forall n :: n in h.archDependent <==> n in StandardDirectories + kw && n in DefaultArchDependent
    requires h.manSections == Sections(DefaultManSections)
    ensures h.IsArchDependent(name) <==> name in DefaultArchDependent
    ensures h.IsManSection(section) <==> |section| == 1 && section[0] in DefaultManSections
  {
    StandardHasArchDependent();
    SectionsMember(DefaultManSections, section);
  }

  // ---------------------------------------------------------------------
  // Choosing where a node is installed

  /** A keyword value: a flag, a string or None. */
  datatype Kw = KwBool(b: bool) | KwStr(s: string) | KwNone

  predicate Truthy(v: Kw)
  {
    match v
    case KwBool(b) => b
    case KwStr(s) => s != ""
    case KwNone => false
  }

  function Get(kw: map<string, Kw>, key: string): Kw
  {
    if key in kw then kw[key] else KwNone
  }

  const DefaultInstallKeywords: map<string, Kw> := map[
    "executable" := KwBool(false),
    "arch_dependent" := KwBool(false),
    "machine_specific" := KwBool(false),
    "writable" := KwBool(false),
    "base" := KwBool(true)]

  /** Successive dict updates: each layer overrides the ones before. */
  function Layered(layers: seq<map<string, Kw>>): map<string, Kw>
  {
    if layers == [] then map[] else Layered(layers[..|layers| - 1]) + layers[|layers| - 1]
  }

  /** A key takes its value from the last layer that has it. */
  lemma {:induction false} LayeredLastWins(layers: seq<map<string, Kw>>, i: nat, k: string)
    requires i < |layers| && k in layers[i]
    requires forall j :: i < j < |layers| ==> k !in layers[j]
    ensures k in Layered(layers) && Layered(layers)[k] == layers[i][k]
  {
    if i < |layers| - 1 {
      LayeredLastWins(layers[..|layers| - 1], i, k);
    }
  }

  /** A key is present after the updates iff some layer has it. */
  lemma {:induction false} LayeredKeys(layers: seq<map<string, Kw>>, k: string)
    ensures k in Layered(layers) <==> exists i :: 0 <= i < |layers| && k in layers[i]
  {
    if layers != [] {
      var init := layers[..|layers| - 1];
      LayeredKeys(init, k);
      if exists i :: 0 <= i < |init| && k in init[i] {
        var i :| 0 <= i < |init| && k in init[i];
        assert layers[i] == init[i];
      }
      if exists i :: 0 <= i < |layers| && k in layers[i] {
        var i :| 0 <= i < |layers| && k in layers[i];
        if i < |init| {
          assert init[i] == layers[i];
        }
      }
    }
  }

  /** The layers of __autoinstall_node: the defaults, the environment's,
      the project's, the node's attributes, the node's environment when
      it has one, and the call's keywords. */
  function InstallLayers(envKw: map<string, Kw>, projectKw: map<string, Kw>, nodeKw: map<string, Kw>,
                         nodeEnvKw: Option<map<string, Kw>>, callKw: map<string, Kw>): seq<map<string, Kw>>
  {
    var given := [DefaultInstallKeywords] + [envKw] + [projectKw] + [nodeKw];
    (if nodeEnvKw.Some? then given + [nodeEnvKw.value] else given) + [callKw]
  }

  /** The kw.update chain of __autoinstall_node. */
  method InstallKeywords(envKw: map<string, Kw>, projectKw: map<string, Kw>, nodeKw: map<string, Kw>,
                         nodeEnvKw: Option<map<string, Kw>>, callKw: map<string, Kw>)
    returns (kw: map<string, Kw>)
    ensures kw == Layered(InstallLayers(envKw, projectKw, nodeKw, nodeEnvKw, callKw))
  {
    ghost var layers := [DefaultInstallKeywords];
    kw := DefaultInstallKeywords;
    LayeredSingle(kw);
    LayeredSnoc(layers, envKw);
    kw, layers := kw + envKw, layers + [envKw];
    assert kw == Layered(layers);
    LayeredSnoc(layers, projectKw);
    kw, layers := kw + projectKw, layers + [projectKw];
    assert kw == Layered(layers);
    LayeredSnoc(layers, nodeKw);
    kw, layers := kw + nodeKw, layers + [nodeKw];
    assert kw == Layered(layers);
    if nodeEnvKw.Some? {
      LayeredSnoc(layers, nodeEnvKw.value);
      kw, layers := kw + nodeEnvKw.value, layers + [nodeEnvKw.value];
      assert kw == Layered(layers);
    }
    LayeredSnoc(layers, callKw);
    kw, layers := kw + callKw, layers + [callKw];
    assert kw == Layered(layers);
    assert layers == InstallLayers(envKw, projectKw, nodeKw, nodeEnvKw, callKw);
  }

  lemma LayeredSingle(m: map<string, Kw>)
    ensures Layered([m]) == m
  {
    assert Layered([m]) == map[] + m;
  }

  lemma LayeredSnoc(layers: seq<map<string, Kw>>, m: map<string, Kw>)
    ensures Layered(layers + [m]) == Layered(layers) + m
  {
    assert (layers + [m])[..|layers|] == layers;
  }

  /** The directory chosen when no 'install' keyword is given: writable
      files go to the package state directories, then machine-specific
      ones to sysconf, arch-dependent ones to pkglib, the rest to pkgdata. */
  function DefaultInstallDir(kw: map<string, Kw>): string
  {
    if Truthy(Get(kw, "writable")) then
      if Truthy(Get(kw, "machine_specific")) || Truthy(Get(kw, "arch_dependent")) then "pkglocalstate"
      else "pkgsharedstate"
    else if Truthy(Get(kw, "machine_specific")) then "sysconf"
    else if Truthy(Get(kw, "arch_dependent")) then "pkglib"
    else "pkgdata"
  }

  /** The default choice is a standard directory; it is arch-dependent
      exactly for read-only, machine-independent, arch-dependent files,
      and a package state directory exactly for writable ones. */
  lemma DefaultInstallDirFacts(kw: map<string, Kw>)
    ensures DefaultInstallDir(kw) in StandardDirectories
    ensures DefaultInstallDir(kw) in DefaultArchDependent <==>
      !Truthy(Get(kw, "writable")) && !Truthy(Get(kw, "machine_specific")) && Truthy(Get(kw, "arch_dependent"))
    ensures DefaultInstallDir(kw) in ["pkglocalstate", "pkgsharedstate"] <==> Truthy(Get(kw, "writable"))
  {
  }

  /** How a node is installed: into a directory, or under a file name in
      it, and the alias the result joins. */
  datatype Installation = Install(dir: string, alias: string) | InstallAs(dir: string, file: string, alias: string)

  datatype InstallError = InstallUserError(msg: string) | InstallTypeError | InstallKeyError | InstallAttributeError

  /** `string.rfind(s, c)`: the last index of c, or -1. */
  function RFind(s: string, c: char): (r: int)
    ensures -1 <= r < |s|
    ensures r >= 0 ==> s[r] == c && c !in s[r + 1..]
    ensures r == -1 ==> c !in s
  {
    if s == [] then -1
    else if s[|s| - 1] == c then |s| - 1
    else
      var r := RFind(s[..|s| - 1], c);
      assert s == s[..|s| - 1] + [s[|s| - 1]];
      if r >= 0 then assert s[r + 1..] == s[..|s| - 1][r + 1..] + [s[|s| - 1]]; r else r
  }

  /** The extension that names a manual section: what follows the last
      dot when that dot is not the first character, and a blank, which is
      no section, when that is empty. */
  function ManExtension(name: string): (ext: string)
    ensures ext != []
  {
    var dot := RFind(name, '.');
    var ext := if dot > 0 then name[dot + 1..] else "";
    if ext == "" then " " else ext
  }

  /** The first character of the extension is the character after the
      last dot, when that dot is neither first nor last; else a blank. */
  lemma ManExtensionFirst(name: string)
    ensures var dot := RFind(name, '.');
      ManExtension(name)[0] == if 0 < dot < |name| - 1 then name[dot + 1] else ' '
  {
  }

  predicate IsAbsolute(path: string)
  {
    path != [] && path[0] == '/'
  }

  /** os.path.join of two parts. */
  function PathJoin(a: string, b: string): string
  {
    if IsAbsolute(b) then b
    else if a == "" || a[|a| - 1] == '/' then a + b
    else a + "/" + b
  }

  function Alias(arch: bool, shortname: string): string
  {
    (if arch then "install-exec-" else "install-data-") + shortname
  }

  /** The directory __autoinstall_node works with: the 'install' keyword
      (taken as already substituted) or the default choice. */
  function InstallDir(kw: map<string, Kw>): string
  {
    if "install" in kw && kw["install"].KwStr? then kw["install"].s else DefaultInstallDir(kw)
  }

  /** The decision part of __autoinstall_node for a node called `name`
      (`stem` is its name without extension, `path` its path): the
      directory name, or the absolute directory, the file name it is
      installed as, and the alias. `archDirs` and `sections` are the
      hierarchy's arch-dependent directories and manual sections. */
  function Autoinstall(name: string, stem: string, path: string, shortname: string, kw: map<string, Kw>,
                       archDirs: seq<string>, sections: seq<string>, dirNames: set<string>): Result<Installation, InstallError>
  {
    if "install" in kw && !kw["install"].KwStr? then Err(InstallTypeError)
    else Place(InstallDir(kw), name, stem, path, shortname, kw, archDirs, sections, dirNames)
  }

  const AbsoluteMessage: string :=
    "When specifying full absolute installation path, you need to specify arch_dependent argument that is not None ("

  /** The placement in directory `tdir`: a relative directory name is
      looked up, an absolute one needs a truthy arch_dependent. */
  function Place(tdir: string, name: string, stem: string, path: string, shortname: string, kw: map<string, Kw>,
                 archDirs: seq<string>, sections: seq<string>, dirNames: set<string>): Result<Installation, InstallError>
  {
    var given := Truthy(Get(kw, "arch_dependent"));
    if !IsAbsolute(tdir) then
      var alias := Alias(given || tdir in archDirs, shortname);
      Resolve(if tdir == "man" then ManPlace(name, sections, alias)
              else if |tdir| >= 3 && tdir[..3] == "man" then SectionPlace(tdir, ManExtension(name), stem, sections, alias)
              else BasePlace(tdir, name, path, kw, alias), dirNames)
    else if !given then
      Err(InstallUserError(AbsoluteMessage + path + ")"))
    else Ok(Install(tdir, Alias(true, shortname)))
  }

  /** The getattr on the hierarchy: a placement in a directory the
      hierarchy does not define raises AttributeError. */
  function Resolve(placed: Result<Installation, InstallError>, dirNames: set<string>): (r: Result<Installation, InstallError>)
    ensures r.Ok? <==> placed.Ok? && placed.value.dir in dirNames
    ensures r.Ok? ==> r == placed
    ensures r.Err? ==> r == placed || r == Err(InstallAttributeError)
  {
    if placed.Ok? && placed.value.dir !in dirNames then Err(InstallAttributeError) else placed
  }

  /** Into 'man': the section is guessed from the extension. */
  function ManPlace(name: string, sections: seq<string>, alias: string): Result<Installation, InstallError>
  {
    var ext := ManExtension(name);
    if [ext[0]] in sections then Ok(Install("man" + [ext[0]], alias))
    else Err(InstallUserError("Can't figure out manual section of " + name))
  }

  /** Into 'man<N>': N must be a section; a file whose extension is no
      section is installed as stem.N. */
  function SectionPlace(tdir: string, ext: string, stem: string, sections: seq<string>, alias: string)
    : Result<Installation, InstallError>
    requires |tdir| >= 3 && ext != []
  {
    var section := tdir[3..];
    if section !in sections then Err(InstallUserError("Invalid manual section " + section))
    else if [ext[0]] !in sections then Ok(InstallAs(tdir, stem + "." + section, alias))
    else Ok(Install(tdir, alias))
  }

  /** Into any other directory: a string 'base' is joined with the name, a
      false one installs under the node's path. */
  function BasePlace(tdir: string, name: string, path: string, kw: map<string, Kw>, alias: string)
    : Result<Installation, InstallError>
  {
    if "base" !in kw then Err(InstallKeyError)
    else if kw["base"].KwStr? then
      var file := PathJoin(kw["base"].s, name);
      if file != "" then Ok(InstallAs(tdir, file, alias)) else Ok(Install(tdir, alias))
    else if !Truthy(kw["base"]) && path != "" then Ok(InstallAs(tdir, path, alias))
    else Ok(Install(tdir, alias))
  }

  /** An absolute directory is accepted only with a truthy arch_dependent,
      and then joins the install-exec alias; otherwise the UserError names
      the node by its path, as str(node) does. */
  lemma AbsoluteNeedsArch(name: string, stem: string, path: string, shortname: string, kw: map<string, Kw>,
                          archDirs: seq<string>, sections: seq<string>, dirNames: set<string>)
    requires "install" in kw && kw["install"].KwStr? && IsAbsolute(kw["install"].s)
    ensures var r := Autoinstall(name, stem, path, shortname, kw, archDirs, sections, dirNames);
      (r.Ok? <==> Truthy(Get(kw, "arch_dependent")))
      && (r.Ok? ==> r.value == Install(kw["install"].s, "install-exec-" + shortname))
      && (r.Err? ==> r == Err(InstallUserError(AbsoluteMessage + path + ")")))
  {
  }

  /** An installed node joins install-exec exactly when arch_dependent is
      truthy or its directory is an arch-dependent one, else install-data. */
  lemma AliasFollowsArch(tdir: string, name: string, stem: string, path: string, shortname: string,
                         kw: map<string, Kw>, archDirs: seq<string>, sections: seq<string>, dirNames: set<string>)
    requires Place(tdir, name, stem, path, shortname, kw, archDirs, sections, dirNames).Ok?
    ensures Place(tdir, name, stem, path, shortname, kw, archDirs, sections, dirNames).value.alias
         == Alias(Truthy(Get(kw, "arch_dependent")) || tdir in archDirs, shortname)
  {
    var alias := Alias(Truthy(Get(kw, "arch_dependent")) || tdir in archDirs, shortname);
    if !IsAbsolute(tdir) {
      if tdir == "man" {
        assert ManPlace(name, sections, alias).value.alias == alias;
      } else if |tdir| >= 3 && tdir[..3] == "man" {
        assert SectionPlace(tdir, ManExtension(name), stem, sections, alias).value.alias == alias;
      } else {
        assert BasePlace(tdir, name, path, kw, alias).value.alias == alias;
      }
    }
  }

  /** Without a non-string 'install' keyword, the node is placed in the
      directory InstallDir chooses, and a relative one only when the
      hierarchy defines it. */
  lemma AutoinstallPlaces(name: string, stem: string, path: string, shortname: string, kw: map<string, Kw>,
                          archDirs: seq<string>, sections: seq<string>, dirNames: set<string>)
    requires "install" in kw ==> kw["install"].KwStr?
    ensures Autoinstall(name, stem, path, shortname, kw, archDirs, sections, dirNames)
         == Place(InstallDir(kw), name, stem, path, shortname, kw, archDirs, sections, dirNames)
    ensures var r := Autoinstall(name, stem, path, shortname, kw, archDirs, sections, dirNames);
      r.Ok? && !IsAbsolute(InstallDir(kw)) ==> r.value.dir in dirNames
  {
  }

  /** Installing into 'man' guesses the section from the file's
      extension: it succeeds exactly when the character after the last
      (non-leading) dot is a section, and then uses that man<N> directory. */
  lemma ManGuess(name: string, sections: seq<string>, alias: string)
    requires sections == Sections(DefaultManSections)
    ensures var r := ManPlace(name, sections, alias);
      var dot := RFind(name, '.');
      (r.Ok? <==> 0 < dot < |name| - 1 && name[dot + 1] in DefaultManSections)
      && (r.Ok? ==> r.value == Install("man" + [name[dot + 1]], alias))
  {
    ManExtensionFirst(name);
    SectionsMember(DefaultManSections, [ManExtension(name)[0]]);
    SectionChars(' ');
  }

  /** A node sent to 'man' is placed by the guess; the hierarchy defines
      a man<N> directory for each of its sections, so the lookup of the
      guessed directory never fails. */
  lemma ManGoesToGuess(name: string, stem: string, path: string, shortname: string, kw: map<string, Kw>,
                       archDirs: seq<string>, sections: seq<string>, dirNames: set<string>)
    requires forall sec :: sec in sections ==> "man" + sec in dirNames
    ensures Place("man", name, stem, path, shortname, kw, archDirs, sections, dirNames)
         == ManPlace(name, sections, Alias(Truthy(Get(kw, "arch_dependent")) || "man" in archDirs, shortname))
  {
  }

  /** Installing into 'man<N>' needs N to be a single section character;
      a file whose own extension is no section is installed as stem.N. */
  lemma ManSectionRequest(tdir: string, ext: string, stem: string, alias: string)
    requires |tdir| >= 3 && ext != []
    ensures var r := SectionPlace(tdir, ext, stem, Sections(DefaultManSections), alias);
      (r.Ok? <==> |tdir| == 4 && tdir[3] in DefaultManSections)
      && (r.Ok? && ext[0] !in DefaultManSections ==> r.value == InstallAs(tdir, stem + "." + [tdir[3]], alias))
      && (r.Ok? && ext[0] in DefaultManSections ==> r.value == Install(tdir, alias))
  {
    SectionsMember(DefaultManSections, tdir[3..]);
    SectionsMember(DefaultManSections, [ext[0]]);
    if |tdir| == 4 {
      assert tdir[3..] == [tdir[3]];
    }
  }

  /** A node sent to a man<N> directory is placed by the section rule. */
  lemma ManNGoesToSection(tdir: string, name: string, stem: string, path: string, shortname: string,
                          kw: map<string, Kw>, archDirs: seq<string>, sections: seq<string>, dirNames: set<string>)
    requires |tdir| > 3 && tdir[..3] == "man"
    requires forall sec :: sec in sections ==> "man" + sec in dirNames
    ensures Place(tdir, name, stem, path, shortname, kw, archDirs, sections, dirNames)
         == SectionPlace(tdir, ManExtension(name), stem, sections,
                         Alias(Truthy(Get(kw, "arch_dependent")) || tdir in archDirs, shortname))
  {
    assert tdir != "man" by {
      assert |tdir| != 3;
    }
    assert tdir == "man" + tdir[3..];
  }

  /** Any other relative directory is looked up in the hierarchy: with a
      'base' keyword the node is placed exactly when the hierarchy defines
      the directory, and an undefined one raises AttributeError. */
  lemma OtherDirectoryLookup(tdir: string, name: string, stem: string, path: string, shortname: string,
                             kw: map<string, Kw>, archDirs: seq<string>, sections: seq<string>,
                             dirNames: set<string>)
    requires !IsAbsolute(tdir) && tdir != "man" && !(|tdir| >= 3 && tdir[..3] == "man")
    requires "base" in kw
    ensures var r := Place(tdir, name, stem, path, shortname, kw, archDirs, sections, dirNames);
      (r.Ok? <==> tdir in dirNames) && (r.Err? ==> r.error == InstallAttributeError)
      && (r.Ok? ==> r.value.dir == tdir)
  {
    var alias := Alias(Truthy(Get(kw, "arch_dependent")) || tdir in archDirs, shortname);
    assert BasePlace(tdir, name, path, kw, alias).Ok? && BasePlace(tdir, name, path, kw, alias).value.dir == tdir;
  }

  /** A hierarchy defines a man<N> directory for each of its sections. */
  lemma {:induction false} ManDirectoriesDefined(sections: seq<string>)
    ensures forall sec :: sec in sections ==> "man" + sec in ManDirectories(sections)
  {
    if sections != [] {
      var init := sections[..|sections| - 1];
      ManDirectoriesDefined(init);
      assert forall sec :: sec in sections ==> sec in init || sec == sections[|sections| - 1];
    }
  }

  /** The hierarchy the constructor builds defines the man<N> directory of
      every section it lists. */
  lemma HierarchyDefinesManDirs(h: DirectoryHierarchy, kw: map<string, string>)
    requires h.dirs == (StandardDirectories + kw) + ManDirectories(Sections(DefaultManSections))
    requires h.manSections == Sections(DefaultManSections)
    ensures forall sec :: h.IsManSection(sec) ==> "man" + sec in h.dirs
  {
    ManDirectoriesDefined(Sections(DefaultManSections));
  }

  // ---------------------------------------------------------------------
  // Substitution, package root and test status

  /** Which dictionary _Substitute_dict expands a key from. */
  datatype SubstSource = FromProject | FromEnvironment

  /** _Substitute_dict: a key outside the restrict list is refused; the
      project's keys come before the environment's; an unknown key is a
      KeyError. */
  function SubstituteDict(restrict: Option<seq<string>>, project: set<string>, env: set<string>, key: string)
    : Result<SubstSource, ProjectError>
  {
    if restrict.Some? && key !in restrict.value then Err(UserError("Substitution key not allowed: " + key))
    else if key in project then Ok(FromProject)
    else if key in env then Ok(FromEnvironment)
    else Err(KeyError)
  }

  lemma SubstituteDictFacts(restrict: Option<seq<string>>, project: set<string>, env: set<string>, key: string)
    ensures var r := SubstituteDict(restrict, project, env, key);
      var allowed := restrict.None? || key in restrict.value;
      (r.Ok? <==> allowed && (key in project || key in env))
      && (r.Ok? ==> (r.value == FromProject <==> key in project))
      && (r.Err? ==> (r.error.UserError? <==> !allowed))
  {
  }

  /** PACKAGEROOT: SHORTNAME-VERSION when VERSION is non-empty, else
      SHORTNAME. */
  function PackageRoot(shortname: string, version: string): (root: string)
    ensures version != "" ==> root == shortname + "-" + version
    ensures version == "" ==> root == shortname
    ensures |shortname| <= |root|
  {
    if version != "" then shortname + "-" + version else shortname
  }

  /** TestCommandAction.execute: status 77 means the test was skipped and
      counts as success; every other status is kept. */
  function TestStatus(rv: int): (status: int)
    ensures status == 0 <==> rv == 0 || rv == 77
    ensures rv != 77 ==> status == rv
  {
    if rv == 77 then 0 else rv
  }
}
