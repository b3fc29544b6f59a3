/** The targets of the RPM package builder: a target named NAME-VERSION
    is renamed to the source package NAME-VERSION-RELEASE.src.rpm and the
    binary package NAME-VERSION-RELEASE.ARCH.rpm, and SOURCE_URL defaults
    to the source tarball. */
module RpmTargets {
  import opened Util

  /** os.uname()[4] mapped through the i?86 table, unless ARCHITECTURE is
      given. */
  function BuildArchitecture(machine: string, kw: map<string, string>): (arch: string)
    ensures "ARCHITECTURE" in kw ==> arch == kw["ARCHITECTURE"]
    ensures "ARCHITECTURE" !in kw && (machine == "i486" || machine == "i586" || machine == "i686") ==> arch == "i386"
    ensures "ARCHITECTURE" !in kw && arch != machine ==> arch == "i386"
  {
    if "ARCHITECTURE" in kw then kw["ARCHITECTURE"]
    else if machine == "i686" || machine == "i586" || machine == "i486" then "i386"
    else machine
  }

  function SourceRpm(name: string, version: string, packageversion: string): string
  {
    name + "-" + version + "-" + packageversion + ".src.rpm"
  }

  /** The binary package name: as written every "src" in the source
      package name is replaced; fixed, only the architecture part. */
  function BinaryRpm(name: string, version: string, packageversion: string, arch: string, fixed: bool): string
  {
    if fixed then name + "-" + version + "-" + packageversion + "." + arch + ".rpm"
    else Replace(SourceRpm(name, version, packageversion), "src", arch)
  }

  /** The targets of package(): a target named NAME-VERSION becomes the
      source and the binary package; any other target is kept. */
  function PackageTargets(target: seq<string>, name: string, version: string, packageversion: string,
                          machine: string, kw: map<string, string>, fixed: bool): seq<string>
    requires target != []
  {
    if target[0] == name + "-" + version then
      [SourceRpm(name, version, packageversion),
       BinaryRpm(name, version, packageversion, BuildArchitecture(machine, kw), fixed)]
    else target
  }

  /** SOURCE_URL, defaulting to the first target with .tar.gz appended and
      every ".rpm" removed. */
  function SourceUrl(targets: seq<string>, kw: map<string, string>): string
    requires targets != []
  {
    if "SOURCE_URL" in kw then kw["SOURCE_URL"] else Replace(targets[0] + ".tar.gz", ".rpm", "")
  }

  predicate Lacks(s: string, pat: string)
  {
    forall i :: 0 <= i < |s| ==> !MatchesAt(s, i, pat)
  }

  // Replacing "src" in the suffix ".src.rpm", one literal fact at a time.

  lemma RpmHasNoSrc(arch: string)
    ensures Replace(".rpm", "src", arch) == ".rpm"
  {
    NoMatchHere(".rpm", 0, "src", 0);
    NoMatchHere(".rpm", 1, "src", 0);
    ReplaceAbsent(".rpm", "src", arch);
  }

  lemma SrcRpmHead(arch: string)
    ensures Replace("src.rpm", "src", arch) == arch + ".rpm"
  {
    assert "src.rpm" == "src" + ".rpm";
    ReplaceHere("src", ".rpm", arch);
    RpmHasNoSrc(arch);
  }

  lemma SrcSuffix(arch: string)
    ensures Replace(".src.rpm", "src", arch) == "." + arch + ".rpm"
  {
    NoMatchHere(".src.rpm", 0, "src", 0);
    assert ".src.rpm" == "." + "src.rpm";
    ReplacePlainPrefix(".", "src.rpm", "src", arch);
    SrcRpmHead(arch);
  }

  /** In a source package name whose base holds no "src", the one "src"
      replaced is that of the suffix. */
  lemma {:induction false} ReplaceSrcSuffix(base: string, arch: string)
    requires Lacks(base, "src")
    ensures Replace(base + ".src.rpm", "src", arch) == base + "." + arch + ".rpm"
  {
    NoMatchAcross(base, ".src.rpm", "src");
    ReplacePlainPrefix(base, ".src.rpm", "src", arch);
    SrcSuffix(arch);
  }

  /** Where the name, version and release hold no "src", the binary name
      as written is the intended NAME-VERSION-RELEASE.ARCH.rpm. */
  lemma BinaryRpmAgrees(name: string, version: string, packageversion: string, arch: string)
    requires Lacks(name + "-" + version + "-" + packageversion, "src")
    ensures BinaryRpm(name, version, packageversion, arch, false) == BinaryRpm(name, version, packageversion, arch, true)
  {
    var base := name + "-" + version + "-" + packageversion;
    assert SourceRpm(name, version, packageversion) == base + ".src.rpm";
    ReplaceSrcSuffix(base, arch);
  }

  /** A package named "src": as written the binary target loses the name,
      which becomes the architecture; fixed, it keeps it. */
  lemma BinaryRpmRenamesName(version: string, packageversion: string, arch: string)
    requires Lacks("-" + version + "-" + packageversion, "src")
    ensures BinaryRpm("src", version, packageversion, arch, false)
         == arch + "-" + version + "-" + packageversion + "." + arch + ".rpm"
    ensures BinaryRpm("src", version, packageversion, arch, true)
         == "src-" + version + "-" + packageversion + "." + arch + ".rpm"
  {
    var rest := "-" + version + "-" + packageversion;
    assert SourceRpm("src", version, packageversion) == "src" + (rest + ".src.rpm");
    ReplaceHere("src", rest + ".src.rpm", arch);
    ReplaceSrcSuffix(rest, arch);
  }

  // Removing ".rpm" from ".src.rpm.tar.gz", one literal fact at a time.

  lemma TarHasNoRpm()
    ensures Replace(".tar.gz", ".rpm", "") == ".tar.gz"
  {
    NoMatchHere(".tar.gz", 0, ".rpm", 1);
    NoMatchHere(".tar.gz", 1, ".rpm", 0);
    NoMatchHere(".tar.gz", 2, ".rpm", 0);
    NoMatchHere(".tar.gz", 3, ".rpm", 0);
    ReplaceAbsent(".tar.gz", ".rpm", "");
  }

  lemma RpmTarHead()
    ensures Replace(".rpm.tar.gz", ".rpm", "") == ".tar.gz"
  {
    assert ".rpm.tar.gz" == ".rpm" + ".tar.gz";
    ReplaceHere(".rpm", ".tar.gz", "");
    TarHasNoRpm();
  }

  lemma SrcHasNoRpm()
    ensures Lacks(".src", ".rpm")
  {
    NoMatchHere(".src", 0, ".rpm", 1);
  }

  lemma TarballSuffix()
    ensures Replace(".src.rpm.tar.gz", ".rpm", "") == ".src.tar.gz"
  {
    SrcHasNoRpm();
    NoMatchAcross(".src", ".rpm.tar.gz", ".rpm");
    assert ".src.rpm.tar.gz" == ".src" + ".rpm.tar.gz";
    ReplacePlainPrefix(".src", ".rpm.tar.gz", ".rpm", "");
    RpmTarHead();
    assert ".src" + ".tar.gz" == ".src.tar.gz";
  }

  /** The default SOURCE_URL of a renamed target: the source package with
      .src.tar.gz in place of .src.rpm. */
  lemma {:induction false} SourceUrlDefault(base: string, kw: map<string, string>)
    requires Lacks(base, ".rpm") && "SOURCE_URL" !in kw
    ensures SourceUrl([base + ".src.rpm"], kw) == base + ".src.tar.gz"
  {
    assert [base + ".src.rpm"][0] + ".tar.gz" == base + ".src.rpm.tar.gz";
    NoMatchAcross(base, ".src.rpm.tar.gz", ".rpm");
    ReplacePlainPrefix(base, ".src.rpm.tar.gz", ".rpm", "");
    TarballSuffix();
  }

  /** A target named NAME-VERSION is renamed to the source package and the
      binary package for the architecture, and the default SOURCE_URL is
      the source tarball. */
  lemma RenamedTargets(name: string, version: string, packageversion: string, machine: string,
                       kw: map<string, string>, fixed: bool)
    requires Lacks(name + "-" + version + "-" + packageversion, ".rpm")
    ensures var t := PackageTargets([name + "-" + version], name, version, packageversion, machine, kw, fixed);
      |t| == 2 && t[0] == name + "-" + version + "-" + packageversion + ".src.rpm"
      && (fixed ==> t[1] == name + "-" + version + "-" + packageversion + "." + BuildArchitecture(machine, kw) + ".rpm")
      && ("SOURCE_URL" !in kw ==> SourceUrl(t, kw) == name + "-" + version + "-" + packageversion + ".src.tar.gz")
  {
    var base := name + "-" + version + "-" + packageversion;
    var t := PackageTargets([name + "-" + version], name, version, packageversion, machine, kw, fixed);
    assert t[0] == base + ".src.rpm";
    if "SOURCE_URL" !in kw {
      SourceUrlDefault(base, kw);
      assert SourceUrl(t, kw) == SourceUrl([base + ".src.rpm"], kw);
    }
  }

  /** Any other target is left as it is. */
  lemma OtherTargetsKept(target: seq<string>, name: string, version: string, packageversion: string,
                         machine: string, kw: map<string, string>, fixed: bool)
    requires target != [] && target[0] != name + "-" + version
    ensures PackageTargets(target, name, version, packageversion, machine, kw, fixed) == target
  {
  }
}
