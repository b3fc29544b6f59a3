/** The RPM packager of src/engine/SCons/Tool/packaging/rpm.py:
    SimpleTagCompiler, which fills `%s` templates from a dictionary of
    package fields; the builders of the header, the sections and the
    %files part of a spec file, which write defaults into the fields only
    where a field is absent; and the naming of the package targets.

    A dictionary is a `map`. Where the source iterates over a dictionary
    whose order Python leaves unspecified, the model takes the tag tables
    in the order the source writes them and the package fields in
    ascending key order; the properties below hold tag by tag. */
module Rpm {
  import opened Util

  /** KeyError for a missing field, TypeError for a template whose
      conversions do not match its arguments, AttributeError for a file
      without an install location. */
  datatype RpmError = MissingKey(key: string) | FormatError | NoInstallLocation

  // ---------------------------------------------------------------------
  // Python's `template % args` for the conversions the templates use

  /** `%%` is a percent sign and `%s` takes the next argument; any other
      conversion, a missing argument or an argument left over fails. */
  function Percent(t: string, args: seq<string>): Option<string>
    decreases |t|
  {
    if t == [] then (if args == [] then Some("") else None)
    else if t[0] != '%' then PrependSome([t[0]], Percent(t[1..], args))
    else if |t| >= 2 && t[1] == '%' then PrependSome("%", Percent(t[2..], args))
    else if |t| >= 2 && t[1] == 's' && args != [] then PrependSome(args[0], Percent(t[2..], args[1..]))
    else None
  }

  function PrependSome(pre: string, r: Option<string>): Option<string>
  {
    if r.Some? then Some(pre + r.value) else None
  }

  lemma PrependSomeTwice(a: string, b: string, r: Option<string>)
    ensures PrependSome(a, PrependSome(b, r)) == PrependSome(a + b, r)
  {
    if r.Some? {
      assert a + (b + r.value) == a + b + r.value;
    }
  }

  predicate NoPercent(s: string)
  {
    forall k :: 0 <= k < |s| ==> s[k] != '%'
  }

  /** Text without `%` is copied. */
  lemma {:induction false} PercentPlainPrefix(p: string, t: string, args: seq<string>)
    requires NoPercent(p)
    ensures Percent(p + t, args) == PrependSome(p, Percent(t, args))
    decreases |p|
  {
    if p == [] {
      assert p + t == t;
      if Percent(t, args).Some? {
        assert p + Percent(t, args).value == Percent(t, args).value;
      }
    } else {
      var s := p + t;
      assert s[0] == p[0] && s[1..] == p[1..] + t;
      PercentPlainPrefix(p[1..], t, args);
      PrependSomeTwice([p[0]], p[1..], Percent(t, args));
      assert [p[0]] + p[1..] == p;
    }
  }

  lemma PercentHole(t: string, a: string, args: seq<string>)
    ensures Percent("%s" + t, [a] + args) == PrependSome(a, Percent(t, args))
  {
    var s := "%s" + t;
    assert s[0] == '%' && s[1] == 's' && s[2..] == t;
    assert ([a] + args)[0] == a && ([a] + args)[1..] == args;
  }

  lemma PercentEscape(t: string, args: seq<string>)
    ensures Percent("%%" + t, args) == PrependSome("%", Percent(t, args))
  {
    var s := "%%" + t;
    assert s[0] == '%' && s[1] == '%' && s[2..] == t;
  }

  // ---------------------------------------------------------------------
  // SimpleTagCompiler.compile

  /** A tag ending in `_` is international: it is filled from every field
      named by the tag followed by a two-letter country code. */
  predicate IsInternational(tag: string)
  {
    tag != [] && tag[|tag| - 1] == '_'
  }

  /** `k[-2:]`. */
  function CountryCode(k: string): string
  {
    if |k| >= 2 then k[|k| - 2..] else k
  }

  /** `k[:-2]`. */
  function StripCountryCode(k: string): string
  {
    if |k| >= 2 then k[..|k| - 2] else ""
  }

  /** a, then b if a succeeded. */
  function Then(a: Result<string, RpmError>, b: Result<string, RpmError>): Result<string, RpmError>
  {
    if a.Err? then a else Prepend(a.value, b)
  }

  lemma ThenAssoc(x: Result<string, RpmError>, y: Result<string, RpmError>, z: Result<string, RpmError>)
    ensures Then(Then(x, y), z) == Then(x, Then(y, z))
  {
    if x.Ok? && y.Ok? {
      PrependTwice(x.value, y.value, z);
    }
  }

  lemma ThenNothing(r: Result<string, RpmError>)
    ensures Then(Ok(""), r) == r
    ensures r.Ok? ==> Then(r, Ok("")) == r
  {
    if r.Ok? {
      assert "" + r.value == r.value && r.value + "" == r.value;
    }
  }

  lemma PrependNothing(r: Result<string, RpmError>)
    ensures Prepend("", r) == r
  {
    if r.Ok? {
      assert "" + r.value == r.value;
    }
  }

  /** The first loop of compile: each plain tag whose field is present adds
      its template filled with the field; a missing field raises KeyError
      when the compiler is mandatory and is skipped otherwise. */
  function PlainPart(tags: seq<(string, string)>, values: map<string, string>, mandatory: bool): Result<string, RpmError>
  {
    if tags == [] then Ok("")
    else
      var key := tags[0].0;
      var rest := PlainPart(tags[1..], values, mandatory);
      if IsInternational(key) then rest
      else if key in values then
        var s := Percent(tags[0].1, [values[key]]);
        if s.None? then Err(FormatError) else Prepend(s.value, rest)
      else if mandatory then Err(MissingKey(key))
      else rest
  }

  /** The second loop of compile: each international tag adds its template
      filled with (country code, field) for every field the tag names, in
      the order of `keys`. */
  function IntlPart(tags: seq<(string, string)>, keys: seq<string>, values: map<string, string>): Result<string, RpmError>
    requires forall k :: 0 <= k < |keys| ==> keys[k] in values
  {
    if tags == [] then Ok("")
    else
      var rest := IntlPart(tags[1..], keys, values);
      if IsInternational(tags[0].0) then Then(MatchPart(tags[0].0, tags[0].1, keys, values), rest) else rest
  }

  function MatchPart(tag: string, template: string, keys: seq<string>, values: map<string, string>): Result<string, RpmError>
    requires forall k :: 0 <= k < |keys| ==> keys[k] in values
  {
    if keys == [] then Ok("")
    else
      var rest := MatchPart(tag, template, keys[1..], values);
      if StripCountryCode(keys[0]) == tag then
        var s := Percent(template, [CountryCode(keys[0]), values[keys[0]]]);
        if s.None? then Err(FormatError) else Prepend(s.value, rest)
      else rest
  }

  /** compile(values) as a specification. */
  function CompileSpec(tags: seq<(string, string)>, mandatory: bool, values: map<string, string>): Result<string, RpmError>
  {
    Then(PlainPart(tags, values, mandatory), IntlPart(tags, SortedKeys(values), values))
  }

  lemma PlainDone(tags: seq<(string, string)>, values: map<string, string>, mandatory: bool, out: string, b: Result<string, RpmError>)
    requires PlainPart(tags, values, mandatory) == Prepend(out, PlainPart([], values, mandatory))
    ensures Then(PlainPart(tags, values, mandatory), b) == Prepend(out, b)
  {
    assert out + "" == out;
  }

  /** SimpleTagCompiler(tags, mandatory).compile(values). */
  method Compile(tags: seq<(string, string)>, mandatory: bool, values: map<string, string>) returns (r: Result<string, RpmError>)
    ensures r == CompileSpec(tags, mandatory, values)
  {
    var out := "";
    var i := 0;
    assert tags[0..] == tags;
    PrependNothing(PlainPart(tags, values, mandatory));
    while i < |tags|
      invariant i <= |tags|
      invariant PlainPart(tags, values, mandatory) == Prepend(out, PlainPart(tags[i..], values, mandatory))
    {
      assert tags[i..][1..] == tags[i + 1..];
      var key := tags[i].0;
      if !IsInternational(key) {
        if key in values {
          var s := Percent(tags[i].1, [values[key]]);
          if s.None? {
            return Err(FormatError);
          }
          PrependTwice(out, s.value, PlainPart(tags[i + 1..], values, mandatory));
          out := out + s.value;
        } else if mandatory {
          return Err(MissingKey(key));
        }
      }
      i := i + 1;
    }
    var keys := SortedKeys(values);
    assert tags[i..] == [];
    PlainDone(tags, values, mandatory, out, IntlPart(tags, keys, values));
    var j := 0;
    while j < |tags|
      invariant j <= |tags|
      invariant CompileSpec(tags, mandatory, values) == Prepend(out, IntlPart(tags[j..], keys, values))
    {
      assert tags[j..][1..] == tags[j + 1..];
      if IsInternational(tags[j].0) {
        var t := FillInternational(tags[j].0, tags[j].1, keys, values);
        if t.Err? {
          return t;
        }
        PrependTwice(out, t.value, IntlPart(tags[j + 1..], keys, values));
        out := out + t.value;
      }
      j := j + 1;
    }
    assert tags[j..] == [];
    assert out + "" == out;
    return Ok(out);
  }

  /** The inner loop of compile's second part: the template of one
      international tag, filled for every field the tag names. */
  method FillInternational(tag: string, template: string, keys: seq<string>, values: map<string, string>)
    returns (r: Result<string, RpmError>)
    requires forall k :: 0 <= k < |keys| ==> keys[k] in values
    ensures r == MatchPart(tag, template, keys, values)
  {
    var out := "";
    var m := 0;
    assert keys[0..] == keys;
    PrependNothing(MatchPart(tag, template, keys, values));
    while m < |keys|
      invariant m <= |keys|
      invariant MatchPart(tag, template, keys, values) == Prepend(out, MatchPart(tag, template, keys[m..], values))
    {
      assert keys[m..][1..] == keys[m + 1..];
      if StripCountryCode(keys[m]) == tag {
        var s := Percent(template, [CountryCode(keys[m]), values[keys[m]]]);
        if s.None? {
          return Err(FormatError);
        }
        PrependTwice(out, s.value, MatchPart(tag, template, keys[m + 1..], values));
        out := out + s.value;
      }
      m := m + 1;
    }
    assert keys[m..] == [];
    assert out + "" == out;
    return Ok(out);
  }

  /** A compiler with no field for any of its tags writes nothing. */
  lemma CompileNothing(tags: seq<(string, string)>, values: map<string, string>)
    requires forall i :: 0 <= i < |tags| ==> tags[i].0 !in values
    requires forall k :: k in values ==> forall i :: 0 <= i < |tags| ==> !IsInternational(tags[i].0) || StripCountryCode(k) != tags[i].0
    ensures CompileSpec(tags, false, values) == Ok("")
  {
    PlainNothing(tags, values);
    IntlNothing(tags, SortedKeys(values), values);
    ThenNothing(Ok(""));
  }

  lemma {:induction false} PlainNothing(tags: seq<(string, string)>, values: map<string, string>)
    requires forall i :: 0 <= i < |tags| ==> tags[i].0 !in values
    ensures PlainPart(tags, values, false) == Ok("")
  {
    if tags != [] {
      PlainNothing(tags[1..], values);
    }
  }

  lemma {:induction false} IntlNothing(tags: seq<(string, string)>, keys: seq<string>, values: map<string, string>)
    requires forall k :: 0 <= k < |keys| ==> keys[k] in values
    requires forall k :: k in values ==> forall i :: 0 <= i < |tags| ==> !IsInternational(tags[i].0) || StripCountryCode(k) != tags[i].0
    ensures IntlPart(tags, keys, values) == Ok("")
  {
    if tags != [] {
      IntlNothing(tags[1..], keys, values);
      if IsInternational(tags[0].0) {
        MatchNothing(tags[0].0, tags[0].1, keys, values);
        ThenNothing(Ok(""));
      }
    }
  }

  lemma {:induction false} MatchNothing(tag: string, template: string, keys: seq<string>, values: map<string, string>)
    requires forall k :: 0 <= k < |keys| ==> keys[k] in values && StripCountryCode(keys[k]) != tag
    ensures MatchPart(tag, template, keys, values) == Ok("")
  {
    if keys != [] {
      MatchNothing(tag, template, keys[1..], values);
    }
  }

  /** KeyError names a plain tag whose field is missing, and only a
      mandatory compiler raises it; a mandatory compiler fails whenever
      the field of one of its plain tags is missing. */
  lemma {:induction false} PlainMissing(tags: seq<(string, string)>, values: map<string, string>, mandatory: bool)
    ensures PlainPart(tags, values, mandatory).Err? && PlainPart(tags, values, mandatory).error.MissingKey? ==>
      var k := PlainPart(tags, values, mandatory).error.key;
      mandatory && k !in values && !IsInternational(k) && exists i :: 0 <= i < |tags| && tags[i].0 == k
    ensures mandatory && (exists i :: 0 <= i < |tags| && !IsInternational(tags[i].0) && tags[i].0 !in values)
            ==> PlainPart(tags, values, mandatory).Err?
  {
    if tags != [] {
      PlainMissing(tags[1..], values, mandatory);
      var r := PlainPart(tags, values, mandatory);
      var rest := PlainPart(tags[1..], values, mandatory);
      if r.Err? && r.error.MissingKey? && r != rest {
        assert tags[0].0 == r.error.key;
      } else if r.Err? && r.error.MissingKey? {
        var i :| 0 <= i < |tags[1..]| && tags[1..][i].0 == r.error.key;
        assert tags[i + 1].0 == r.error.key;
      }
      if mandatory && (exists i :: 0 <= i < |tags| && !IsInternational(tags[i].0) && tags[i].0 !in values) {
        var i :| 0 <= i < |tags| && !IsInternational(tags[i].0) && tags[i].0 !in values;
        if i > 0 {
          assert tags[1..][i - 1] == tags[i];
        }
      }
    }
  }

  /** The international loop catches KeyError but cannot raise it. */
  lemma {:induction false} IntlNeverMissing(tags: seq<(string, string)>, keys: seq<string>, values: map<string, string>)
    requires forall k :: 0 <= k < |keys| ==> keys[k] in values
    ensures IntlPart(tags, keys, values).Err? ==> IntlPart(tags, keys, values).error == FormatError
  {
    if tags != [] {
      IntlNeverMissing(tags[1..], keys, values);
      MatchNeverMissing(tags[0].0, tags[0].1, keys, values);
    }
  }

  lemma {:induction false} MatchNeverMissing(tag: string, template: string, keys: seq<string>, values: map<string, string>)
    requires forall k :: 0 <= k < |keys| ==> keys[k] in values
    ensures MatchPart(tag, template, keys, values).Err? ==> MatchPart(tag, template, keys, values).error == FormatError
  {
    if keys != [] {
      MatchNeverMissing(tag, template, keys[1..], values);
    }
  }

  /** Compiling two tag lists in a row is compiling their concatenation:
      every tag contributes its own piece. */
  lemma {:induction false} PlainAppend(a: seq<(string, string)>, b: seq<(string, string)>, values: map<string, string>, mandatory: bool)
    ensures PlainPart(a + b, values, mandatory) == Then(PlainPart(a, values, mandatory), PlainPart(b, values, mandatory))
  {
    if a == [] {
      assert a + b == b;
      ThenNothing(PlainPart(b, values, mandatory));
    } else {
      assert (a + b)[1..] == a[1..] + b;
      PlainAppend(a[1..], b, values, mandatory);
      var rest := PlainPart(a[1..], values, mandatory);
      if rest.Ok? {
        var key := a[0].0;
        if !IsInternational(key) && key in values && Percent(a[0].1, [values[key]]).Some? {
          PrependTwice(Percent(a[0].1, [values[key]]).value, rest.value, PlainPart(b, values, mandatory));
        }
      }
    }
  }

  lemma {:induction false} IntlAppend(a: seq<(string, string)>, b: seq<(string, string)>, keys: seq<string>, values: map<string, string>)
    requires forall k :: 0 <= k < |keys| ==> keys[k] in values
    ensures IntlPart(a + b, keys, values) == Then(IntlPart(a, keys, values), IntlPart(b, keys, values))
  {
    if a == [] {
      assert a + b == b;
      ThenNothing(IntlPart(b, keys, values));
    } else {
      assert (a + b)[1..] == a[1..] + b;
      IntlAppend(a[1..], b, keys, values);
      if IsInternational(a[0].0) {
        ThenAssoc(MatchPart(a[0].0, a[0].1, keys, values), IntlPart(a[1..], keys, values), IntlPart(b, keys, values));
      }
    }
  }

  lemma {:induction false} IntlNoTags(tags: seq<(string, string)>, keys: seq<string>, values: map<string, string>)
    requires forall k :: 0 <= k < |keys| ==> keys[k] in values
    requires forall i :: 0 <= i < |tags| ==> !IsInternational(tags[i].0)
    ensures IntlPart(tags, keys, values) == Ok("")
  {
    if tags != [] {
      IntlNoTags(tags[1..], keys, values);
    }
  }

  // ---------------------------------------------------------------------
  // The tag tables

  const MandatorySections: seq<(string, string)> := [("DESCRIPTION", "\n%%description\n%s\n\n")]

  const OptionalSections: seq<(string, string)> := [
    ("DESCRIPTION_", "%%description -l %s\n%s\n\n"),
    ("CHANGELOG", "%%changelog\n%s\n\n"),
    ("X_RPM_PREINSTALL", "%%pre\n%s\n\n"),
    ("X_RPM_POSTINSTALL", "%%post\n%s\n\n"),
    ("X_RPM_PREUNINSTALL", "%%preun\n%s\n\n"),
    ("X_RPM_POSTUNINSTALL", "%%postun\n%s\n\n"),
    ("X_RPM_VERIFY", "%%verify\n%s\n\n"),
    ("X_RPM_PREP", "%%prep\n%s\n\n"),
    ("X_RPM_BUILD", "%%build\n%s\n\n"),
    ("X_RPM_INSTALL", "%%install\n%s\n\n"),
    ("X_RPM_CLEAN", "%%clean\n%s\n\n")]

  const MandatoryHeader: seq<(string, string)> := [
    ("NAME", "%%define name %s\nName: %%{name}\n"),
    ("VERSION", "%%define version %s\nVersion: %%{version}\n"),
    ("PACKAGEVERSION", "%%define release %s\nRelease: %%{release}\n"),
    ("X_RPM_GROUP", "Group: %s\n"),
    ("SUMMARY", "Summary: %s\n"),
    ("LICENSE", "License: %s\n")]

  /** The source's dictionary names X_RPM_CONFLICTS twice with the same
      template, which leaves one entry. */
  const OptionalHeader: seq<(string, string)> := [
    ("VENDOR", "Vendor: %s\n"),
    ("X_RPM_URL", "Url: %s\n"),
    ("SOURCE_URL", "Source: %s\n"),
    ("SUMMARY_", "Summary(%s): %s\n"),
    ("X_RPM_DISTRIBUTION", "Distribution: %s\n"),
    ("X_RPM_ICON", "Icon: %s\n"),
    ("X_RPM_PACKAGER", "Packager: %s\n"),
    ("X_RPM_GROUP_", "Group(%s): %s\n"),
    ("X_RPM_REQUIRES", "Requires: %s\n"),
    ("X_RPM_PROVIDES", "Provides: %s\n"),
    ("X_RPM_CONFLICTS", "Conflicts: %s\n"),
    ("X_RPM_BUILDREQUIRES", "BuildRequires: %s\n"),
    ("X_RPM_SERIAL", "Serial: %s\n"),
    ("X_RPM_EPOCH", "Epoch: %s\n"),
    ("X_RPM_AUTOREQPROV", "AutoReqProv: %s\n"),
    ("X_RPM_EXCLUDEARCH", "ExcludeArch: %s\n"),
    ("X_RPM_EXCLUSIVEARCH", "ExclusiveArch: %s\n"),
    ("X_RPM_PREFIX", "Prefix: %s\n"),
    ("X_RPM_BUILDROOT", "BuildRoot: %s\n")]

  const FileTags: seq<(string, string)> := [
    ("PACKAGING_CONFIG", "%%config %s"),
    ("PACKAGING_CONFIG_NOREPLACE", "%%config(noreplace) %s"),
    ("PACKAGING_DOC", "%%doc %s"),
    ("PACKAGING_UNIX_ATTR", "%%attr %s"),
    ("PACKAGING_LANG_", "%%lang(%s) %s"),
    ("PACKAGING_X_RPM_VERIFY", "%%verify %s"),
    ("PACKAGING_X_RPM_DIR", "%%dir %s"),
    ("PACKAGING_X_RPM_DOCDIR", "%%docdir %s"),
    ("PACKAGING_X_RPM_GHOST", "%%ghost %s")]

  const RemoveBuildRoot := "rm -rf \"$RPM_BUILD_ROOT\""
  const DefaultPrep := RemoveBuildRoot + "\n%setup -q"
  const DefaultBuild := "mkdir \"$RPM_BUILD_ROOT\""
  const DefaultInstall := "scons --install-sandbox=\"$RPM_BUILD_ROOT\" \"$RPM_BUILD_ROOT\""
  const DefaultBuildroot := "%{_tmppath}/%{name}-%{version}-%{release}"
  const DefaultDefattr := "(-,root,root)"

  // ---------------------------------------------------------------------
  // The spec file

  /** `spec[key] = value` unless the key is present. */
  function Default(spec: map<string, string>, key: string, value: string): map<string, string>
  {
    if key in spec then spec else spec[key := value]
  }

  /** A default adds its key and keeps every field already given. */
  lemma DefaultKeeps(spec: map<string, string>, key: string, value: string)
    ensures key in Default(spec, key, value)
    ensures key !in spec ==> Default(spec, key, value)[key] == value
    ensures forall k :: k in spec ==> k in Default(spec, key, value) && Default(spec, key, value)[k] == spec[k]
    ensures Default(spec, key, value).Keys == spec.Keys + {key}
  {
  }

  lemma UpdateTwice(m: map<string, string>, k: string, a: string, b: string)
    ensures m[k := a][k := b] == m[k := b]
  {
  }

  function HeaderDefaults(spec: map<string, string>): map<string, string>
  {
    Default(spec, "X_RPM_BUILDROOT", DefaultBuildroot)
  }

  function SectionDefaults(spec: map<string, string>): map<string, string>
  {
    Default(Default(Default(Default(spec, "X_RPM_PREP", DefaultPrep), "X_RPM_BUILD", DefaultBuild),
            "X_RPM_INSTALL", DefaultInstall), "X_RPM_CLEAN", RemoveBuildRoot)
  }

  function FileDefaults(spec: map<string, string>): map<string, string>
  {
    Default(spec, "X_RPM_DEFATTR", DefaultDefattr)
  }

  /** The text of build_specfile_header. */
  function HeaderText(spec: map<string, string>): Result<string, RpmError>
  {
    Then(CompileSpec(MandatoryHeader, true, spec), CompileSpec(OptionalHeader, false, HeaderDefaults(spec)))
  }

  /** The fields after build_specfile_header: the default is written only
      once the mandatory fields were found. */
  function AfterHeader(spec: map<string, string>): map<string, string>
  {
    if CompileSpec(MandatoryHeader, true, spec).Ok? then HeaderDefaults(spec) else spec
  }

  function SectionsText(spec: map<string, string>): Result<string, RpmError>
  {
    Then(CompileSpec(MandatorySections, true, spec), CompileSpec(OptionalSections, false, SectionDefaults(spec)))
  }

  function AfterSections(spec: map<string, string>): map<string, string>
  {
    if CompileSpec(MandatorySections, true, spec).Ok? then SectionDefaults(spec) else spec
  }

  /** A package file: its PACKAGING_* attributes and its
      PACKAGING_INSTALL_LOCATION attribute, which a file may lack. */
  datatype PackageFile = PackageFile(attrs: map<string, string>, installLocation: Option<string>)

  predicate IsFileTag(k: string)
  {
    exists i :: 0 <= i < |FileTags| && FileTags[i].0 == k
  }

  /** The tag set built for a file: its attributes named exactly like a
      supported tag. */
  function FileTagset(f: PackageFile): map<string, string>
  {
    map k | k in f.attrs && IsFileTag(k) :: f.attrs[k]
  }

  /** The tag set that also takes the attributes the international tag
      names, PACKAGING_LANG_ followed by a country code. */
  function FileTagsetFixed(f: PackageFile): map<string, string>
  {
    map k | k in f.attrs && (IsFileTag(k) || StripCountryCode(k) == "PACKAGING_LANG_") :: f.attrs[k]
  }

  function Tagset(f: PackageFile, fixed: bool): map<string, string>
  {
    if fixed then FileTagsetFixed(f) else FileTagset(f)
  }

  /** The %files entries of the given files: each file's tags, a space,
      its install location and an empty line; a file without an install
      location raises AttributeError. */
  function FilesText(files: seq<PackageFile>, fixed: bool): Result<string, RpmError>
  {
    if files == [] then Ok("")
    else
      var e := FileEntry(files[0], fixed);
      if e.Err? then e else Prepend(e.value, FilesText(files[1..], fixed))
  }

  /** One file's entry: its tags, a space, its install location and an
      empty line. */
  function FileEntry(f: PackageFile, fixed: bool): Result<string, RpmError>
  {
    var t := CompileSpec(FileTags, false, Tagset(f, fixed));
    if t.Err? then t
    else if f.installLocation.None? then Err(NoInstallLocation)
    else Ok(t.value + " " + f.installLocation.value + "\n\n")
  }

  /** FilesText of a suffix, unfolded once. */
  lemma FilesTextStep(files: seq<PackageFile>, i: nat, fixed: bool)
    requires i < |files|
    ensures var e := FileEntry(files[i], fixed);
      FilesText(files[i..], fixed) == if e.Err? then e else Prepend(e.value, FilesText(files[i + 1..], fixed))
  {
    assert files[i..][0] == files[i] && files[i..][1..] == files[i + 1..];
  }

  /** The %files part is written only when every file has an install
      location, and the first file without one, its tags compiled, raises
      AttributeError. */
  lemma {:induction false} FilesNeedLocations(files: seq<PackageFile>, fixed: bool)
    ensures FilesText(files, fixed).Ok? ==> forall f :: f in files ==> f.installLocation.Some?
    ensures forall i | 0 <= i < |files| && files[i].installLocation.None?
                       && CompileSpec(FileTags, false, Tagset(files[i], fixed)).Ok?
                       && (forall j :: 0 <= j < i ==> FileEntry(files[j], fixed).Ok?) ::
              FilesText(files, fixed) == Err(NoInstallLocation)
  {
    if files != [] {
      FilesNeedLocations(files[1..], fixed);
      var e := FileEntry(files[0], fixed);
      if e.Ok? {
        assert forall f :: f in files ==> f == files[0] || f in files[1..];
        forall i | 0 < i < |files| && files[i].installLocation.None?
          && CompileSpec(FileTags, false, Tagset(files[i], fixed)).Ok?
          && (forall j :: 0 <= j < i ==> FileEntry(files[j], fixed).Ok?)
          ensures FilesText(files, fixed) == Err(NoInstallLocation)
        {
          assert files[1..][i - 1] == files[i];
          assert forall j :: 0 <= j < i - 1 ==> files[1..][j] == files[j + 1];
        }
      }
    }
  }

  function FileSectionText(spec: map<string, string>, files: seq<PackageFile>, fixed: bool): Result<string, RpmError>
  {
    Prepend("%files\n" + "%defattr " + FileDefaults(spec)["X_RPM_DEFATTR"] + "\n", FilesText(files, fixed))
  }

  /** What build_specfile raises: a missing field becomes a UserError. */
  datatype SpecError = UserError(msg: string) | TypeError | AttributeError

  function Raised(e: RpmError): SpecError
  {
    match e
    case MissingKey(k) => UserError("\"" + k + "\" package field for RPM is missing.")
    case FormatError => TypeError
    case NoInstallLocation => AttributeError
  }

  /** The text build_specfile writes: header, sections and files. */
  function SpecfileText(spec: map<string, string>, files: seq<PackageFile>, fixed: bool): Result<string, SpecError>
  {
    var h := HeaderText(spec);
    if h.Err? then Err(Raised(h.error))
    else
      var s := SectionsText(AfterHeader(spec));
      if s.Err? then Err(Raised(s.error))
      else
        var t := FileSectionText(AfterSections(AfterHeader(spec)), files, fixed);
        if t.Err? then Err(Raised(t.error)) else Ok(h.value + s.value + t.value)
  }

  /** The fields after build_specfile, which stops at the first error. */
  function SpecfileFields(spec: map<string, string>): map<string, string>
  {
    var f1 := AfterHeader(spec);
    if HeaderText(spec).Err? then f1
    else
      var f2 := AfterSections(f1);
      if SectionsText(f1).Err? then f2 else FileDefaults(f2)
  }

  /** The package fields, into which the spec builders write their
      defaults. `fixed` selects the file tag set that honours
      PACKAGING_LANG_xx. */
  class Spec {
    var fields: map<string, string>
    const fixed: bool

    constructor (fields: map<string, string>, fixed: bool)
      ensures this.fields == fields && this.fixed == fixed
    {
      this.fields := fields;
      this.fixed := fixed;
    }

    /** `if not spec.has_key(key): spec[key] = value`. */
    method SetDefault(key: string, value: string)
      modifies this
      ensures fields == Default(old(fields), key, value)
    {
      if key !in fields {
        fields := fields[key := value];
      }
    }

    /** build_specfile_header. */
    method BuildHeader() returns (r: Result<string, RpmError>)
      modifies this
      ensures r == HeaderText(old(fields))
      ensures fields == AfterHeader(old(fields))
    {
      var m := Compile(MandatoryHeader, true, fields);
      if m.Err? {
        return m;
      }
      SetDefault("X_RPM_BUILDROOT", DefaultBuildroot);
      var o := Compile(OptionalHeader, false, fields);
      r := Prepend(m.value, o);
    }

    /** build_specfile_sections. */
    method BuildSections() returns (r: Result<string, RpmError>)
      modifies this
      ensures r == SectionsText(old(fields))
      ensures fields == AfterSections(old(fields))
    {
      var m := Compile(MandatorySections, true, fields);
      if m.Err? {
        return m;
      }
      ghost var given := fields;
      if "X_RPM_PREP" !in fields {
        fields := fields["X_RPM_PREP" := RemoveBuildRoot];
        fields := fields["X_RPM_PREP" := fields["X_RPM_PREP"] + "\n%setup -q"];
        UpdateTwice(given, "X_RPM_PREP", RemoveBuildRoot, DefaultPrep);
      }
      SetDefault("X_RPM_BUILD", DefaultBuild);
      SetDefault("X_RPM_INSTALL", DefaultInstall);
      SetDefault("X_RPM_CLEAN", RemoveBuildRoot);
      var o := Compile(OptionalSections, false, fields);
      r := Prepend(m.value, o);
    }

    /** build_specfile_filesection. */
    method BuildFileSection(files: seq<PackageFile>) returns (r: Result<string, RpmError>)
      modifies this
      ensures r == FileSectionText(old(fields), files, fixed)
      ensures fields == FileDefaults(old(fields))
    {
      SetDefault("X_RPM_DEFATTR", DefaultDefattr);
      var defattr := fields["X_RPM_DEFATTR"];
      var out := "%files\n";
      out := out + "%defattr " + defattr + "\n";
      var i := 0;
      assert files[0..] == files;
      while i < |files|
        invariant i <= |files|
        invariant fields == FileDefaults(old(fields))
        invariant FileSectionText(old(fields), files, fixed) == Prepend(out, FilesText(files[i..], fixed))
      {
        FilesTextStep(files, i, fixed);
        var e := BuildFileEntry(files[i]);
        if e.Err? {
          return e;
        }
        PrependTwice(out, e.value, FilesText(files[i + 1..], fixed));
        out := out + e.value;
        i := i + 1;
      }
      assert files[i..] == [];
      assert out + "" == out;
      r := Ok(out);
    }

    /** The body of the loop over the files in
        build_specfile_filesection: the tags compiled from the file's tag
        set, then its install location, which raises AttributeError when
        the file has none. */
    method BuildFileEntry(f: PackageFile) returns (r: Result<string, RpmError>)
      ensures r == FileEntry(f, fixed)
    {
      var tags := if fixed then FileTagsetFixed(f) else FileTagset(f);
      var t := Compile(FileTags, false, tags);
      if t.Err? {
        return t;
      }
      if f.installLocation.None? {
        return Err(NoInstallLocation);
      }
      r := Ok(t.value + " " + f.installLocation.value + "\n\n");
    }

    /** build_specfile: the three parts in order; a missing field becomes
        a UserError naming it. */
    method BuildSpecfile(files: seq<PackageFile>) returns (r: Result<string, SpecError>)
      modifies this
      ensures r == SpecfileText(old(fields), files, fixed)
      ensures fields == SpecfileFields(old(fields))
    {
      var h := BuildHeader();
      if h.Err? {
        return Err(Raised(h.error));
      }
      var s := BuildSections();
      if s.Err? {
        return Err(Raised(s.error));
      }
      var t := BuildFileSection(files);
      if t.Err? {
        return Err(Raised(t.error));
      }
      r := Ok(h.value + s.value + t.value);
    }
  }

  /** Every field of `a` is in `b` with the same value. */
  predicate Keeps(a: map<string, string>, b: map<string, string>)
  {
    forall k :: k in a ==> k in b && b[k] == a[k]
  }

  lemma KeepsTrans(a: map<string, string>, b: map<string, string>, c: map<string, string>)
    requires Keeps(a, b) && Keeps(b, c)
    ensures Keeps(a, c)
  {
  }

  /** The defaults the spec builders may write. */
  const DefaultKeys: set<string> :=
    {"X_RPM_BUILDROOT", "X_RPM_PREP", "X_RPM_BUILD", "X_RPM_INSTALL", "X_RPM_CLEAN", "X_RPM_DEFATTR"}

  /** The builders only add fields: a field given by the user keeps its
      value, and the fields added are among the six defaults. */
  lemma SpecfileKeepsFields(spec: map<string, string>)
    ensures Keeps(spec, SpecfileFields(spec))
    ensures SpecfileFields(spec).Keys <= spec.Keys + DefaultKeys
  {
    var f1 := AfterHeader(spec);
    AfterHeaderKeeps(spec);
    var f2 := AfterSections(f1);
    AfterSectionsKeeps(f1);
    KeepsTrans(spec, f1, f2);
    var f3 := FileDefaults(f2);
    FileDefaultsKeeps(f2);
    KeepsTrans(spec, f2, f3);
    if HeaderText(spec).Err? {
      FieldsAtHeaderError(spec);
    } else if SectionsText(f1).Err? {
      FieldsAtSectionsError(spec);
    } else {
      FieldsAtEnd(spec);
    }
  }

  lemma FieldsAtHeaderError(spec: map<string, string>)
    requires HeaderText(spec).Err?
    ensures SpecfileFields(spec) == AfterHeader(spec)
  {
  }

  lemma FieldsAtSectionsError(spec: map<string, string>)
    requires HeaderText(spec).Ok? && SectionsText(AfterHeader(spec)).Err?
    ensures SpecfileFields(spec) == AfterSections(AfterHeader(spec))
  {
  }

  lemma FieldsAtEnd(spec: map<string, string>)
    requires HeaderText(spec).Ok? && SectionsText(AfterHeader(spec)).Ok?
    ensures SpecfileFields(spec) == FileDefaults(AfterSections(AfterHeader(spec)))
  {
  }

  lemma AfterHeaderKeeps(spec: map<string, string>)
    ensures Keeps(spec, AfterHeader(spec))
    ensures AfterHeader(spec).Keys <= spec.Keys + DefaultKeys
  {
    DefaultKeeps(spec, "X_RPM_BUILDROOT", DefaultBuildroot);
  }

  lemma AfterSectionsKeeps(spec: map<string, string>)
    ensures Keeps(spec, AfterSections(spec))
    ensures AfterSections(spec).Keys <= spec.Keys + DefaultKeys
  {
    SectionDefaultsKeep(spec);
  }

  lemma FileDefaultsKeeps(spec: map<string, string>)
    ensures Keeps(spec, FileDefaults(spec))
    ensures FileDefaults(spec).Keys <= spec.Keys + DefaultKeys
  {
    DefaultKeeps(spec, "X_RPM_DEFATTR", DefaultDefattr);
  }

  /** The four section defaults are written, each only where absent. */
  lemma SectionDefaultsKeep(spec: map<string, string>)
    ensures forall k :: k in spec ==> k in SectionDefaults(spec) && SectionDefaults(spec)[k] == spec[k]
    ensures SectionDefaults(spec).Keys == spec.Keys + {"X_RPM_PREP", "X_RPM_BUILD", "X_RPM_INSTALL", "X_RPM_CLEAN"}
    ensures "X_RPM_PREP" !in spec ==> SectionDefaults(spec)["X_RPM_PREP"] == DefaultPrep
    ensures "X_RPM_BUILD" !in spec ==> SectionDefaults(spec)["X_RPM_BUILD"] == DefaultBuild
    ensures "X_RPM_INSTALL" !in spec ==> SectionDefaults(spec)["X_RPM_INSTALL"] == DefaultInstall
    ensures "X_RPM_CLEAN" !in spec ==> SectionDefaults(spec)["X_RPM_CLEAN"] == RemoveBuildRoot
  {
    var s1 := Default(spec, "X_RPM_PREP", DefaultPrep);
    var s2 := Default(s1, "X_RPM_BUILD", DefaultBuild);
    var s3 := Default(s2, "X_RPM_INSTALL", DefaultInstall);
    DefaultKeeps(spec, "X_RPM_PREP", DefaultPrep);
    DefaultKeeps(s1, "X_RPM_BUILD", DefaultBuild);
    DefaultKeeps(s2, "X_RPM_INSTALL", DefaultInstall);
    DefaultKeeps(s3, "X_RPM_CLEAN", RemoveBuildRoot);
  }

  /** A missing mandatory header field makes build_specfile fail, and a
      KeyError from the header becomes a UserError naming such a field. */
  lemma MissingHeaderField(spec: map<string, string>, files: seq<PackageFile>, fixed: bool)
    requires exists i :: 0 <= i < |MandatoryHeader| && MandatoryHeader[i].0 !in spec
    ensures SpecfileText(spec, files, fixed).Err?
    ensures CompileSpec(MandatoryHeader, true, spec).Err?
    ensures CompileSpec(MandatoryHeader, true, spec).error.MissingKey? ==>
      exists i :: 0 <= i < |MandatoryHeader| && MandatoryHeader[i].0 !in spec
        && SpecfileText(spec, files, fixed) == Err(UserError("\"" + MandatoryHeader[i].0 + "\" package field for RPM is missing."))
  {
    HeaderMissing(spec);
    HeaderErrorRaised(spec, files, fixed);
  }

  lemma MandatoryHeaderPlain()
    ensures forall i :: 0 <= i < |MandatoryHeader| ==> !IsInternational(MandatoryHeader[i].0)
  {
  }

  /** The mandatory header tags fail on a missing field, naming one. */
  lemma HeaderMissing(spec: map<string, string>)
    requires exists i :: 0 <= i < |MandatoryHeader| && MandatoryHeader[i].0 !in spec
    ensures CompileSpec(MandatoryHeader, true, spec).Err?
    ensures CompileSpec(MandatoryHeader, true, spec).error.MissingKey? ==>
      exists i :: 0 <= i < |MandatoryHeader| && MandatoryHeader[i].0 !in spec
        && MandatoryHeader[i].0 == CompileSpec(MandatoryHeader, true, spec).error.key
  {
    MandatoryHeaderPlain();
    PlainMissing(MandatoryHeader, spec, true);
  }

  /** An error of the mandatory header tags is what build_specfile raises. */
  lemma HeaderErrorRaised(spec: map<string, string>, files: seq<PackageFile>, fixed: bool)
    requires CompileSpec(MandatoryHeader, true, spec).Err?
    ensures SpecfileText(spec, files, fixed) == Err(Raised(CompileSpec(MandatoryHeader, true, spec).error))
  {
  }

  /** Without DESCRIPTION the sections raise KeyError for it and write no
      default. */
  lemma SectionsNeedDescription(spec: map<string, string>)
    requires "DESCRIPTION" !in spec
    ensures SectionsText(spec) == Err(MissingKey("DESCRIPTION"))
    ensures AfterSections(spec) == spec
  {
    assert !IsInternational("DESCRIPTION");
  }

  // ---------------------------------------------------------------------
  // PACKAGING_LANG_ in the %files section

  lemma FileTagFacts()
    ensures forall i :: 0 <= i < |FileTags| ==> |FileTags[i].0| != 17
    ensures forall i :: 0 <= i < |FileTags| && i != 4 ==> !IsInternational(FileTags[i].0)
    ensures FileTags[4].0 == "PACKAGING_LANG_" && FileTags[4].1 == "%%lang(%s) %s"
  {
  }

  /** As written, the tag set of a file holds only supported tag names, so
      no field is ever named by the international tag and no file gets a
      %lang entry: the entry is the plain tags alone. */
  lemma FileLangNeverEmitted(f: PackageFile)
    ensures CompileSpec(FileTags, false, FileTagset(f)) == PlainPart(FileTags, FileTagset(f), false)
  {
    var values := FileTagset(f);
    FileTagFacts();
    forall k | k in values
      ensures forall i :: 0 <= i < |FileTags| ==> !IsInternational(FileTags[i].0) || StripCountryCode(k) != FileTags[i].0
    {
      assert |k| != 17;
    }
    IntlNothing(FileTags, SortedKeys(values), values);
    ThenNothing(PlainPart(FileTags, values, false));
  }

  /** The %lang template filled with a country code and a value. */
  lemma LangEntry(cc: string, v: string)
    ensures Percent("%%lang(%s) %s", [cc, v]) == Some("%lang(" + cc + ") " + v)
  {
    assert "%%lang(%s) %s" == "%%" + ("lang(" + ("%s" + (") " + ("%s" + ""))));
    PercentEscape("lang(" + ("%s" + (") " + ("%s" + ""))), [cc, v]);
    PercentPlainPrefix("lang(", "%s" + (") " + ("%s" + "")), [cc, v]);
    assert [cc, v] == [cc] + [v] && [v] == [v] + [];
    PercentHole(") " + ("%s" + ""), cc, [v]);
    PercentPlainPrefix(") ", "%s" + "", [v]);
    PercentHole("", v, []);
    assert "%" + ("lang(" + (cc + (") " + (v + "")))) == "%lang(" + cc + ") " + v;
  }

  /** A file whose one attribute is PACKAGING_LANG_ followed by a country
      code: as written its entry is empty; with the tag set that honours
      the international tag it is the %lang entry. */
  lemma FileLangEntry(cc: string, v: string)
    requires |cc| == 2
    ensures var f := PackageFile(map["PACKAGING_LANG_" + cc := v], Some(""));
      CompileSpec(FileTags, false, FileTagset(f)) == Ok("")
      && CompileSpec(FileTags, false, FileTagsetFixed(f)) == Ok("%lang(" + cc + ") " + v)
  {
    FileLangAsWritten(cc, v);
    FileLangFixed(cc, v);
  }

  /** PACKAGING_LANG_xx is no file tag, and the international tag names it. */
  lemma LangKey(cc: string)
    requires |cc| == 2
    ensures !IsFileTag("PACKAGING_LANG_" + cc)
    ensures StripCountryCode("PACKAGING_LANG_" + cc) == "PACKAGING_LANG_"
    ensures CountryCode("PACKAGING_LANG_" + cc) == cc
  {
    var key := "PACKAGING_LANG_" + cc;
    FileTagFacts();
    assert |key| == 17;
    assert key[..|key| - 2] == "PACKAGING_LANG_" && key[|key| - 2..] == cc;
  }

  lemma FileLangAsWritten(cc: string, v: string)
    requires |cc| == 2
    ensures CompileSpec(FileTags, false, FileTagset(PackageFile(map["PACKAGING_LANG_" + cc := v], Some("")))) == Ok("")
  {
    LangKey(cc);
    assert FileTagset(PackageFile(map["PACKAGING_LANG_" + cc := v], Some(""))) == map[];
    CompileNothing(FileTags, map[]);
  }

  /** Of the file tags only PACKAGING_LANG_ is international. */
  lemma FileTagsIntl(keys: seq<string>, values: map<string, string>)
    requires forall k :: 0 <= k < |keys| ==> keys[k] in values
    ensures IntlPart(FileTags, keys, values) == MatchPart("PACKAGING_LANG_", "%%lang(%s) %s", keys, values)
  {
    FileTagFacts();
    assert FileTags == FileTags[..4] + ([FileTags[4]] + FileTags[5..]);
    IntlAppend(FileTags[..4], [FileTags[4]] + FileTags[5..], keys, values);
    IntlAppend([FileTags[4]], FileTags[5..], keys, values);
    IntlNoTags(FileTags[..4], keys, values);
    IntlNoTags(FileTags[5..], keys, values);
    ThenNothing(MatchPart("PACKAGING_LANG_", "%%lang(%s) %s", keys, values));
    assert [FileTags[4]][1..] == [];
  }

  lemma FileLangFixed(cc: string, v: string)
    requires |cc| == 2
    ensures CompileSpec(FileTags, false, FileTagsetFixed(PackageFile(map["PACKAGING_LANG_" + cc := v], Some(""))))
         == Ok("%lang(" + cc + ") " + v)
  {
    var key := "PACKAGING_LANG_" + cc;
    LangKey(cc);
    var values := FileTagsetFixed(PackageFile(map[key := v], Some("")));
    assert values == map[key := v];
    PlainNothing(FileTags, values);
    SingletonKeys(key, v);
    var keys := SortedKeys(values);
    FileTagsIntl(keys, values);
    LangEntry(cc, v);
    var entry := "%lang(" + cc + ") " + v;
    assert MatchPart("PACKAGING_LANG_", "%%lang(%s) %s", keys, values) == Prepend(entry, Ok(""));
    assert entry + "" == entry;
    ThenNothing(Ok(entry));
  }
}
