# A verified model of the SCons build-engine core

This project models, in Dafny, the parts of SCons that decide what gets
built and what a build writes:

- **Taskmaster** (`src/engine/SCons/Taskmaster.py`): the dependency scheduler.
  It walks the node graph depth first with an explicit candidate stack. It
  marks the current path `stack` and raises a UserError on a dependency
  cycle. It parks nodes waiting for executing work in `pending` and hands out
  Tasks. Completion and failure (`executed`, `fail_stop`, `fail_continue`,
  `stop`) feed back into the scheduler.
- **Comments** (`src/engine/SCons/Comments.py`): the character scanners that
  strip or keep `#`, C and D comments. They respect double quotes and
  backslash-escape parity. The `Stripper` signature decision is also modelled.
- **Header** (`src/engine/SCons/Header.py`) and **HeaderTool**
  (`src/engine/SCons/Tool/header/__init__.py`): the header-file generators with
  their C syntax. HeaderTool adds the dictionary of definitions and C literal
  formatting.
- **Rpm** and **RpmTargets** (`src/engine/SCons/Tool/packaging/rpm.py`): the
  `SimpleTagCompiler`, the spec-file section builders that fill defaults only
  where a field is absent, and the naming of the package targets.
- **Substitute** (`src/engine/SCons/Tool/substitute.py`): `@KEY@` substitution
  with its restrict and unknown-key errors, and its emitter.
- **Jar** (`src/engine/SCons/Tool/jar.py`): manifest detection, flags and the
  construction-variable defaults.
- **ProjectTool** (`src/engine/SCons/Tool/project.py`): the project registry,
  project defaults, the installation hierarchy and directory choice, the
  substitution dictionary and the test-command status.
- **SConscriptScript** (`src/engine/SCons/Script/SConscript.py`):
  - how SConscript() picks its files and exports;
  - the frame stack behind Import and Return;
  - Default, Clean and ARGUMENTS;
  - the signature settings and the version checks.
- **Heapmonitor** and **MemStats** (`src/engine/SCons/Heapmonitor.py`):
  - the tracked-object and tracked-class registry;
  - the size samples per object and string truncation;
  - the garbage-cycle pruning fixpoint;
  - the sorting of the statistics view.

Where the source updates objects in place, the model does too: the
Taskmaster, the header files, the spec fields, the SConscript state and the
heap monitor are classes whose methods are proved against specification
functions. The comment scanners keep their `while` loops and are proved equal
to recursive functions that take one loop pass per call.

Things the engine obtains from outside are parameters of the model:
- file contents;
- content signatures (MD5) and file existence;
- the node graph (children, parents, builders) and the Calc signatures;
- clock readings, object sizes and liveness;
- `textwrap.wrap`;
- `env.subst`;
- the result of executing an SConscript file.

`Util` holds the small string and list operations taken from Python's
standard library.

## Model

| member | source | states |
|---|---|---|
| Comments.SigsCode | src/engine/SCons/Comments.py:36-38 | the verdicts are the codes 1 to 3 |
| Comments.NonBlankAppend | src/engine/SCons/Comments.py:124-125 | dropping spaces and newlines distributes over concatenation |
| Comments.EscapeRunIsMaximal | src/engine/SCons/Comments.py:74-81 | the counted run is exactly the backslashes just before i, never reaching index 0, and is not preceded by another backslash past index 0 |
| Comments.IndexZeroIgnored | src/engine/SCons/Comments.py:76 | a backslash at index 0 is never counted, so a quote at index 1 after it counts as a real quote |
| Comments.CountMetachars | src/engine/SCons/Comments.py:66-82 | the result is true iff the counted backslash run before i has even length |
| Comments.LineEnd | src/engine/SCons/Comments.py:123 | the line loop stops at the first newline from i, or at the end |
| Comments.PairAt | src/engine/SCons/Comments.py:231-237 | the block loop stops at the first closing pair from i, or at the last character |
| Comments.NestEnd | src/engine/SCons/Comments.py:338-344 | the nested loop stops at the `+` of the first `+/`, or at the end; it raises IndexError exactly when it reaches a `+` that is the last character |
| Comments.CodeCommentsSplit | src/engine/SCons/Comments.py:85-179 | Code and Comments split the text: every non-blank character goes to exactly one of them, each in the text's order |
| Comments.CodeWithoutCommentChar | src/engine/SCons/Comments.py:85-130 | Code returns nothing from a text without the comment character |
| Comments.CommentsWithoutCommentChar | src/engine/SCons/Comments.py:134-179 | Comments keeps every non-blank character of a text without the comment character |
| Comments.CommentsNoBlank | src/engine/SCons/Comments.py:175-176 | Comments never returns a space or a newline |
| Comments.ToggleQuotes | src/engine/SCons/Comments.py:110-119 | an unescaped single quote toggles the single-quote flag, and otherwise an unescaped double quote toggles the double-quote flag |
| Comments.SkipLine | src/engine/SCons/Comments.py:171-172 | the loop ends where LineEnd says |
| Comments.CollectLine | src/engine/SCons/Comments.py:123-126 | the loop ends where LineEnd says, having collected the line's non-blank characters |
| Comments.Code | src/engine/SCons/Comments.py:85-130 | the loop returns the non-blank characters of every unquoted comment, as CodeFrom defines |
| Comments.CodeStep | src/engine/SCons/Comments.py:108-128 | each pass advances and keeps buffer plus remaining result fixed |
| Comments.StripComments | src/engine/SCons/Comments.py:134-179 | the loop returns the non-blank characters outside unquoted comments, as CommentsFrom defines |
| Comments.StripStep | src/engine/SCons/Comments.py:156-177 | each pass advances and keeps buffer plus remaining result fixed |
| Comments.CodeTakesLine | src/engine/SCons/Comments.py:122-126 | at an unquoted comment character Code takes the line's text and resumes after the newline |
| Comments.CommentsSkipLine | src/engine/SCons/Comments.py:170-172 | at an unquoted comment character Comments drops the line and resumes after the newline |
| Comments.CommentsKeepChar | src/engine/SCons/Comments.py:174-176 | elsewhere Comments keeps the character unless it is blank |
| Comments.OpenerAt | src/engine/SCons/Comments.py:224-230 | testing txt[i+1] raises exactly when a slash is the last character; a comment opens only at an unquoted slash; `/+` opens one only in D |
| Comments.ToggleQuote | src/engine/SCons/Comments.py:265-269 | an unescaped double quote toggles the quote flag |
| Comments.FindPair | src/engine/SCons/Comments.py:277-281 | the loop ends where PairAt says |
| Comments.CollectBlock | src/engine/SCons/Comments.py:231-237 | the loop ends where PairAt says, having collected the non-blank characters and the closing pair |
| Comments.ScanNest | src/engine/SCons/Comments.py:380-384 | the loop ends or raises as NestEnd says |
| Comments.CollectNest | src/engine/SCons/Comments.py:338-344 | the same, having collected the non-blank characters and the closing pair |
| Comments.CComments | src/engine/SCons/Comments.py:242-289 | CComments and DComments return what CCommentsFrom defines, or the IndexError it raises |
| Comments.CCommentsStep | src/engine/SCons/Comments.py:263-287 | each pass raises as the function does, or advances and keeps buffer plus remaining result fixed |
| Comments.CCode | src/engine/SCons/Comments.py:182-239 | CCode and DCode return what CCodeFrom defines, or the IndexError it raises |
| Comments.CCodeStep | src/engine/SCons/Comments.py:203-238 | each pass raises as the function does, or advances and keeps buffer plus remaining result fixed |
| Comments.CodeOfLine | src/engine/SCons/Comments.py:224-228 | the line branch collects the line and resumes after it |
| Comments.CodeOfBlock | src/engine/SCons/Comments.py:230-237 | the block branch collects the comment and resumes where CloseResume says |
| Comments.CodeOfNest | src/engine/SCons/Comments.py:337-344 | the nested branch raises on a final `+`, or collects the comment |
| Comments.CodeRaisesOnClosingSlash | src/engine/SCons/Comments.py:230-238 | as written, CCode raises IndexError on "/**/", which CComments strips to ""; corrected, CCode returns "/**/" |
| Comments.CodeOutgrowsText | src/engine/SCons/Comments.py:230-238 | as written, CCode of "/**//x" is "/**///x", longer than the text; corrected, it is "/**/" |
| Comments.NestDropsNextChar | src/engine/SCons/Comments.py:379-401 | as written, DComments of "/+x+/a" is "", dropping the "a" after the comment; corrected, it is "a" |
| Comments.FixedCodeInText | src/engine/SCons/Comments.py:182-239 | corrected, what CCode and DCode return is a subsequence of the text |
| Comments.FixedRaisesAlike | src/engine/SCons/Comments.py:182-289 | corrected, the code collector raises exactly when the comment stripper does |
| Comments.PlainText | src/engine/SCons/Comments.py:182-289 | on a text with no slash and no double quote, the strippers keep its non-blank characters and the collectors return nothing |
| Comments.RaisesOnlyAtEnd | src/engine/SCons/Comments.py:272-276 | the C and D functions raise only on a text ending in a slash or, for D, a plus sign |
| Comments.UnquotedLosesBlanks | src/engine/SCons/Comments.py:284 | without a double quote, CComments and DComments return no space and no newline |
| Comments.Stripper | src/engine/SCons/Comments.py:40-62 | SIGS_WHOLE unless a .c or .h file feeds a .o; raising only as CComments does; for an existing file the MD5 of the stripped text is stored, and the verdict is SIGS_WHOLE exactly when there is no previous csig, SIGS_EQUAL only when the stored csig equals it and SIGS_DIFFER only when it differs; a missing file gives SIGS_WHOLE |
| Comments.StripperIgnoresLayout | src/engine/SCons/Comments.py:48-59 | a C file rewritten with different spaces and newlines (no comment or string) compares equal against the first version's signature |
| Jar.JarSources | src/engine/SCons/Tool/jar.py:41-53 | the result is exactly the non-manifest sources in order, each as the node or, with JARCHDIR set, its path relative to that directory |
| Jar.SourcesFromMembers | src/engine/SCons/Tool/jar.py:44-52 | every source that is not a manifest contributes its argument to jarSources |
| Jar.SourcesFromCount | src/engine/SCons/Tool/jar.py:44-52 | the jarSources arguments and the manifests account for every source exactly once |
| Jar.JarManifest | src/engine/SCons/Tool/jar.py:55-61 | the result is the first source whose contents start with "Manifest-Version", or none when no source does |
| Jar.JarFlags | src/engine/SCons/Tool/jar.py:63-72 | JARFLAGS, with 'm' appended when some source is a manifest and the flags lack it |
| Jar.FlagsForShape | src/engine/SCons/Tool/jar.py:63-72 | the flags gain at most one 'm' and contain 'm' whenever a manifest is among the sources |
| Jar.FlagsForIdempotent | src/engine/SCons/Tool/jar.py:69-70 | feeding the result back as JARFLAGS changes nothing |
| Jar.JarChdir | src/engine/SCons/Tool/jar.py:74-80 | ['-C', '$JARCHDIR'] exactly when JARCHDIR is set, '' otherwise |
| Jar.JarVariables | src/engine/SCons/Tool/jar.py:93-100 | the eight construction variables generate sets, other variables kept |
| Jar.JarBuilders | src/engine/SCons/Tool/jar.py:88-91 | a Jar builder already present is kept; otherwise JarBuilder is installed |
| Jar.Environment.Generate | src/engine/SCons/Tool/jar.py:86-100 | the environment's variables and builders become those of JarVariables and JarBuilders |
| Jar.GenerateIdempotent | src/engine/SCons/Tool/jar.py:86-100 | running generate twice leaves the environment as running it once |
| Substitute.KeyRunEnd | src/engine/SCons/Tool/substitute.py:130 | the run of key characters `[a-zA-Z0-9_]+` ends at the first other character or at the end of the text |
| Substitute.KeyRunAllKeyChars | src/engine/SCons/Tool/substitute.py:130 | every character of the run is a key character |
| Substitute.MatchAt | src/engine/SCons/Tool/substitute.py:127-131 | a match at p starts at p and spans at least the two markers |
| Substitute.MatchAtShape | src/engine/SCons/Tool/substitute.py:131 | a match is the marker, the key, the marker |
| Substitute.MatchedKeyChars | src/engine/SCons/Tool/substitute.py:130-131 | a matched key is empty or made only of key characters |
| Substitute.Search | src/engine/SCons/Tool/substitute.py:59-81 | a search from pos returns a match at or after pos |
| Substitute.SearchLeftmost | src/engine/SCons/Tool/substitute.py:59-81 | the search finds the leftmost match, and finds one whenever one exists |
| Substitute.KeyValueCases | src/engine/SCons/Tool/substitute.py:63-76 | the empty key gives the marker; a key outside a non-empty restrict list raises "not allowed"; a key the dictionary lacks raises "unknown"; otherwise the expanded value |
| Substitute.SubstInText | src/engine/SCons/Tool/substitute.py:58-82 | the loop writes the text with every match replaced by its value, or stops with the first key's error |
| Substitute.SubstStep | src/engine/SCons/Tool/substitute.py:60-81 | one pass of the loop keeps the written prefix plus what the rest of the text produces equal to the final output |
| Substitute.NoMarkerUnchanged | src/engine/SCons/Tool/substitute.py:59-82 | a text without the marker is copied unchanged |
| Substitute.EmptyKeyWritesMarker | src/engine/SCons/Tool/substitute.py:64-65 | `@@` becomes the marker |
| Substitute.KeyAlone | src/engine/SCons/Tool/substitute.py:63-77 | `@KEY@` alone becomes KEY's value or raises KEY's error |
| Substitute.SubstInFiles | src/engine/SCons/Tool/substitute.py:38-86 | targets and sources are zipped; each written target is its source substituted; the first error stops the run at that pair |
| Substitute.Emitter | src/engine/SCons/Tool/substitute.py:93-103 | a non-empty key list becomes the restrict list over the environment's dictionary; a dictionary or callable is used as is; an unset or empty SUBST_DICT falls back to the environment |
| Substitute.RestrictedKeyRaises | src/engine/SCons/Tool/substitute.py:67-101 | with a restrict list from the emitter, a key outside it raises even when the environment defines it |
| Header.FinalText | src/engine/SCons/Header.py:38-42 | a string is returned unchanged; any other argument raises |
| Header.IdentRunEnd | src/engine/SCons/Header.py:174 | the run `[_A-Za-z0-9]*` from i ends at the first non-identifier character or at the end |
| Header.IdentRunChars | src/engine/SCons/Header.py:174 | every character inside the run is an identifier character |
| Header.IdentRunWhole | src/engine/SCons/Header.py:174 | on a text of identifier characters the run reaches the end |
| Header.StrictNameIsIdentifier | src/engine/SCons/Header.py:174-180 | the corrected name check accepts exactly the C identifiers (both directions) |
| Header.NameAcceptsNewline | src/engine/SCons/Header.py:174-186 | as written, "A" followed by a newline passes the check and yields a #define split over two lines |
| Header.Starred | src/engine/SCons/Header.py:183 | each comment line gets the " * " prefix, one output line per input line |
| Header.NoCloserJoin | src/engine/SCons/Header.py:176-183 | joining two texts without the closer and ending in no '*' creates no closer |
| Header.NoCloserLines | src/engine/SCons/Header.py:183 | starred lines that passed the corrected check contain no closer |
| Header.CommentClosesOnce | src/engine/SCons/Header.py:176-183 | with the corrected line check, the formatted comment is closed exactly once, at its end |
| Header.CommentClosedEarly | src/engine/SCons/Header.py:176-183 | as written, the line "a */ b" passes the check and closes the comment before its end |
| Header.RenderEnds | src/engine/SCons/Header.py:146-149 | the rendered text starts with the first part and ends with the last part and a newline |
| Header.CommentText | src/engine/SCons/Header.py:107-117 | the comment succeeds iff every line passes the check, and is then the formatted lines; otherwise "Invalid comment." |
| Header.DefinitionText | src/engine/SCons/Header.py:124-141 | an invalid name raises; a bad comment raises; otherwise a newline, the comment, the #define (or the #undef comment for None) and a newline |
| Header.HeaderFile.constructor | src/engine/SCons/Header.py:45-48 | the three buffers start empty |
| Header.HeaderFile.Verbatim | src/engine/SCons/Header.py:86-105 | "top" inserts at the front of the top texts, "bottom" appends to the bottom texts, anything else to the main texts; nothing changes on error |
| Header.HeaderFile.Comment | src/engine/SCons/Header.py:107-122 | the result is the checked comment; it is inserted at the position unless noinsert or an error |
| Header.HeaderFile.Definition | src/engine/SCons/Header.py:124-143 | the result is the definition text; an inserted definition is appended to the main texts only |
| Header.PlacedTextsFramed | src/engine/SCons/Header.py:99-102 | a text inserted at the top opens the header and one appended at the bottom closes it |
| HeaderTool.FinalText | src/engine/SCons/Tool/header/__init__.py:42-48 | a string is returned, a callable is called until it yields a text, anything else raises UserError |
| HeaderTool.FinalTextExtends | src/engine/SCons/Tool/header/__init__.py:42-48 | every text Header.py accepts is accepted with the same result, and a callable yielding a string is accepted only here |
| HeaderTool.UnescapeChar | src/engine/SCons/Tool/header/__init__.py:289-304 | reading back one escaped character gives that character |
| HeaderTool.EscapeRoundTrip | src/engine/SCons/Tool/header/__init__.py:289-304 | the body format_string writes reads back, under C's escape rules, as the original string |
| HeaderTool.EscapeOneToken | src/engine/SCons/Tool/header/__init__.py:289-304 | the escaped text has no line break and every double quote in it is escaped |
| HeaderTool.FormatLiteral | src/engine/SCons/Tool/header/__init__.py:127-150 | the literal fails exactly when the value is None once read and called through, with InternalError; a string becomes its quoted escaped literal and an integer its decimal text |
| HeaderTool.CommentText | src/engine/SCons/Tool/header/__init__.py:174-185 | the stripped final text is cut into lines and succeeds iff every line passes the check; errors from the text or a line are UserError |
| HeaderTool.DefinitionRejects | src/engine/SCons/Tool/header/__init__.py:194-203 | a name that is no text raises the non-string UserError, a bad name "Invalid identifier.", and a truthy comment that fails the line check "Invalid comment.", in that order |
| HeaderTool.DefinitionNoneLiteral | src/engine/SCons/Tool/header/__init__.py:127-131 | once name and comment pass, a non-verbatim value that is None once read and called raises InternalError, and only it; a None value gives the comment's text then the #undef line |
| HeaderTool.DefinitionFramed | src/engine/SCons/Tool/header/__init__.py:198-213 | a definition is a newline, the comment, the #define or #undef line, and a newline |
| HeaderTool.KwDefsOf | src/engine/SCons/Tool/header/__init__.py:119-125 | one definition per key in key order with its description, failing iff one of them fails |
| HeaderTool.HeaderFile.constructor | src/engine/SCons/Tool/header/__init__.py:53-59 | empty buffers and descriptions; the definitions are the given dictionary |
| HeaderTool.HeaderFile.SetItem | src/engine/SCons/Tool/header/__init__.py:114-117 | a valid name is bound to the value; an invalid one raises "Invalid identifier." and changes nothing |
| HeaderTool.HeaderFile.Verbatim | src/engine/SCons/Tool/header/__init__.py:153-172 | "top" inserts at the front, "bottom" appends at the bottom, anything else appends to the main texts; nothing changes on error |
| HeaderTool.HeaderFile.Comment | src/engine/SCons/Tool/header/__init__.py:174-190 | the result is the checked comment, inserted at the position unless noinsert or an error |
| HeaderTool.HeaderFile.Definition | src/engine/SCons/Tool/header/__init__.py:192-218 | the result is the definition text, appended to the main texts unless noinsert or an error |
| HeaderTool.HeaderFile.Template | src/engine/SCons/Tool/header/__init__.py:220-230 | a non-text name or comment, or an invalid name, raises and changes nothing; otherwise the description is recorded and the value defined only when nodef is off and the name is undefined |
| HeaderTool.TextLayout | src/engine/SCons/Tool/header/__init__.py:119-125 | the definitions appear between the main and bottom texts, in ascending key order, each key exactly once |
| Rpm.PercentPlainPrefix | src/engine/SCons/Tool/packaging/rpm.py:326 | `template % args` copies text without a percent sign unchanged |
| Rpm.PercentHole | src/engine/SCons/Tool/packaging/rpm.py:326 | `%s` takes the next argument |
| Rpm.PercentEscape | src/engine/SCons/Tool/packaging/rpm.py:326 | `%%` writes one percent sign |
| Rpm.Compile | src/engine/SCons/Tool/packaging/rpm.py:309-340 | the text is the plain tags' templates filled from present fields, then each international tag filled once per field named by the tag plus a country code; a missing plain field raises KeyError only when mandatory |
| Rpm.FillInternational | src/engine/SCons/Tool/packaging/rpm.py:331-338 | one international tag adds its template filled with (country code, value) for every field whose name minus its last two characters is the tag |
| Rpm.CompileNothing | src/engine/SCons/Tool/packaging/rpm.py:309-340 | an optional compiler with no field for any tag writes nothing |
| Rpm.PlainMissing | src/engine/SCons/Tool/packaging/rpm.py:324-329 | KeyError is raised only by a mandatory compiler and names a plain tag whose field is missing; with such a tag it is raised |
| Rpm.IntlNeverMissing | src/engine/SCons/Tool/packaging/rpm.py:331-338 | the international loop never raises KeyError |
| Rpm.PlainAppend | src/engine/SCons/Tool/packaging/rpm.py:324-329 | compiling two plain tag lists in a row is compiling their concatenation |
| Rpm.IntlAppend | src/engine/SCons/Tool/packaging/rpm.py:331-338 | the same for international tags |
| Rpm.DefaultKeeps | src/engine/SCons/Tool/packaging/rpm.py:176-187 | `if not spec.has_key(k): spec[k] = v` adds k with v when absent and keeps every given field |
| Rpm.Spec.constructor | src/engine/SCons/Tool/packaging/rpm.py:124-134 | the builders start from the given package fields |
| Rpm.Spec.SetDefault | src/engine/SCons/Tool/packaging/rpm.py:176-187 | the field is written only when absent |
| Rpm.Spec.BuildHeader | src/engine/SCons/Tool/packaging/rpm.py:193-247 | the mandatory header tags, then the BuildRoot default, then the optional header tags; the default is written only once the mandatory tags succeeded |
| Rpm.Spec.BuildSections | src/engine/SCons/Tool/packaging/rpm.py:148-191 | the %description section, then the four build-step defaults, then the optional sections |
| Rpm.Spec.BuildFileSection | src/engine/SCons/Tool/packaging/rpm.py:252-289 | "%files", the %defattr line (default "(-,root,root)"), then per file its tags, a space, its install location and a blank line; the first file whose tags fail or that has no install location ends the section with that error (AttributeError for the missing location) |
| Rpm.Spec.BuildFileEntry | src/engine/SCons/Tool/packaging/rpm.py:276-287 | one file's entry: the compiled tags, then its install location; a file without one is an AttributeError |
| Rpm.FilesNeedLocations | src/engine/SCons/Tool/packaging/rpm.py:284-287 | a files section that succeeds has an install location for every file; the first file without one, after readable entries and with readable tags, makes the section an AttributeError |
| Rpm.Spec.BuildSpecfile | src/engine/SCons/Tool/packaging/rpm.py:124-142 | header, sections and file section in order, stopping at the first error; a KeyError becomes the UserError naming the field |
| Rpm.SpecfileKeepsFields | src/engine/SCons/Tool/packaging/rpm.py:124-142 | the spec builders only add default fields: every user field keeps its value |
| Rpm.SectionDefaultsKeep | src/engine/SCons/Tool/packaging/rpm.py:176-187 | the prep, build, install and clean defaults are written exactly where absent, with their texts |
| Rpm.MissingHeaderField | src/engine/SCons/Tool/packaging/rpm.py:141-142 | a missing mandatory header field makes build_specfile fail with the UserError naming such a field |
| Rpm.HeaderErrorRaised | src/engine/SCons/Tool/packaging/rpm.py:131-142 | an error of the mandatory header tags is what build_specfile raises |
| Rpm.SectionsNeedDescription | src/engine/SCons/Tool/packaging/rpm.py:153-156 | without DESCRIPTION the sections raise KeyError for it before writing any default |
| Rpm.FileLangNeverEmitted | src/engine/SCons/Tool/packaging/rpm.py:262-283 | as written, a file's tag set holds only exact tag names, so the international PACKAGING_LANG_ tag never contributes |
| Rpm.FileLangAsWritten | src/engine/SCons/Tool/packaging/rpm.py:262-283 | as written, a file whose only attribute is PACKAGING_LANG_xx gets an empty tag entry |
| Rpm.FileLangFixed | src/engine/SCons/Tool/packaging/rpm.py:262-283 | with the tag set that also takes PACKAGING_LANG_xx attributes, such a file gets "%lang(xx) value" |
| Rpm.FileLangEntry | src/engine/SCons/Tool/packaging/rpm.py:262-283 | both halves side by side: empty as written, the %lang entry when corrected |
| RpmTargets.BuildArchitecture | src/engine/SCons/Tool/packaging/rpm.py:56-66 | ARCHITECTURE wins when given; otherwise i486, i586 and i686 map to i386 and any other machine name is kept |
| RpmTargets.ReplaceSrcSuffix | src/engine/SCons/Tool/packaging/rpm.py:68-69 | in a package name whose base holds no "src", only the ".src.rpm" suffix changes, to ".ARCH.rpm" |
| RpmTargets.BinaryRpmAgrees | src/engine/SCons/Tool/packaging/rpm.py:68-69 | when name, version and release hold no "src", the as-written and the corrected binary names agree |
| RpmTargets.BinaryRpmRenamesName | src/engine/SCons/Tool/packaging/rpm.py:68-69 | as written, a package named "src" gets a binary name starting with the architecture; corrected, it keeps its name |
| RpmTargets.SourceUrlDefault | src/engine/SCons/Tool/packaging/rpm.py:80-81 | without SOURCE_URL, the source package BASE.src.rpm gets the URL BASE.src.tar.gz |
| RpmTargets.RenamedTargets | src/engine/SCons/Tool/packaging/rpm.py:51-81 | a target named NAME-VERSION becomes the source and binary package names, and the default SOURCE_URL is the source tarball |
| RpmTargets.OtherTargetsKept | src/engine/SCons/Tool/packaging/rpm.py:51 | any other target is left as it is |
| ProjectTool.Project.constructor | src/engine/SCons/Tool/project.py:175-206 | the new project is appended to the list of unfinished projects, unfinished, with the string defaults added where absent |
| ProjectTool.Project.SetDefault | src/engine/SCons/Tool/project.py:169-173 | the fields become the given fields plus the keywords they lack |
| ProjectTool.WithDefaultsKeeps | src/engine/SCons/Tool/project.py:169-173 | a present key keeps its value, an absent one takes the default, and no other key appears |
| ProjectTool.WithDefaultsIdempotent | src/engine/SCons/Tool/project.py:169-173 | setting the same defaults twice changes nothing more |
| ProjectTool.ShortNameDefault | src/engine/SCons/Tool/project.py:194-206 | SHORTNAME defaults to NAME, and PACKAGE defaults to the resulting SHORTNAME |
| ProjectTool.Registry.constructor | src/engine/SCons/Tool/project.py:141 | the list of unfinished projects starts empty |
| ProjectTool.Registry.FindProject | src/engine/SCons/Tool/project.py:152-159 | None with no unfinished project; the first project without a name; otherwise the first project with that NAME, or None when no project has it |
| ProjectTool.Registry.Finish | src/engine/SCons/Tool/project.py:298-302 | finishing twice raises "Project NAME already finished."; otherwise the project is marked finished and removed from the list (ValueError when it is not listed); its keywords are never changed |
| ProjectTool.Registry.FinishAll | src/engine/SCons/Tool/project.py:143-150 | every listed project is finished with its keywords unchanged, and the list ends empty, as the sanity check asserts |
| ProjectTool.SectionChars | src/engine/SCons/Tool/project.py:102 | the default manual sections are the digits 1-9, 'l' and 'n' |
| ProjectTool.SectionsMember | src/engine/SCons/Tool/project.py:118-119 | the sections added are exactly the one-character names of those characters |
| ProjectTool.DirectoryHierarchy.constructor | src/engine/SCons/Tool/project.py:107-119 | the directories are the standard ones updated by the keywords plus one man<N> directory per section; the arch-dependent ones are the defaults among them |
| ProjectTool.DirectoryHierarchy.DefineDirectories | src/engine/SCons/Tool/project.py:114-116 | each directory is defined, arch-dependent exactly when it is one of the defaults |
| ProjectTool.DirectoryHierarchy.AddManSections | src/engine/SCons/Tool/project.py:118-119 | each section adds its man<N> directory and is recorded in order |
| ProjectTool.DirectoryHierarchy.AddManSection | src/engine/SCons/Tool/project.py:127-129 | man<N> is defined as "${DIR.man}/man<N>" and N recorded as a section |
| ProjectTool.DirectoryHierarchy.DefineDirectory | src/engine/SCons/Tool/project.py:131-138 | the directory is recorded, and listed as arch-dependent when asked |
| ProjectTool.StandardHasArchDependent | src/engine/SCons/Tool/project.py:65-100 | every default arch-dependent directory is a standard directory |
| ProjectTool.HierarchyMembership | src/engine/SCons/Tool/project.py:121-125 | is_arch_dependent holds exactly for the seven defaults, and is_man_section exactly for the default section characters |
| ProjectTool.LayeredLastWins | src/engine/SCons/Tool/project.py:419-425 | after the update chain a key has the value of the last layer that sets it |
| ProjectTool.LayeredKeys | src/engine/SCons/Tool/project.py:419-425 | a key is present iff some layer sets it |
| ProjectTool.InstallKeywords | src/engine/SCons/Tool/project.py:419-425 | the keywords are the defaults updated by the environment's, the project's, the node's, the node environment's (when present) and the call's |
| ProjectTool.DefaultInstallDirFacts | src/engine/SCons/Tool/project.py:427-439 | the default directory is standard; it is arch-dependent exactly for read-only, machine-independent, arch-dependent files; it is a package state directory exactly for writable files |
| ProjectTool.RFind | src/engine/SCons/Tool/project.py:452 | the last index of the character, or -1 when it does not occur |
| ProjectTool.ManExtension | src/engine/SCons/Tool/project.py:452-454 | the extension is never empty |
| ProjectTool.ManExtensionFirst | src/engine/SCons/Tool/project.py:452-454 | its first character follows the last dot when that dot is neither first nor last, and is a blank otherwise |
| ProjectTool.AbsoluteNeedsArch | src/engine/SCons/Tool/project.py:476-486 | an absolute directory is accepted exactly with a truthy arch_dependent, and the node then joins install-exec; otherwise the UserError ends with the node's path in parentheses |
| ProjectTool.AliasFollowsArch | src/engine/SCons/Tool/project.py:443-446 | a placed node joins install-exec exactly when arch_dependent is truthy or its directory is arch-dependent |
| ProjectTool.AutoinstallPlaces | src/engine/SCons/Tool/project.py:427-444 | the node is placed in the 'install' keyword's directory, or in the default one; a relative directory must be one the hierarchy defines |
| ProjectTool.Resolve | src/engine/SCons/Tool/project.py:475 | getattr(self.hierarchy, dir): a placement succeeds iff its directory is one the hierarchy defines; an undefined one is an AttributeError |
| ProjectTool.OtherDirectoryLookup | src/engine/SCons/Tool/project.py:470-475 | into any other relative directory, the node is placed there iff the hierarchy defines it, and an AttributeError otherwise |
| ProjectTool.ManGuess | src/engine/SCons/Tool/project.py:456-463 | into 'man', the placement succeeds exactly when the character after the last dot is a section, and goes to that man<N> |
| ProjectTool.ManGoesToGuess | src/engine/SCons/Tool/project.py:456 | a node sent to 'man' is placed by the guess, given a hierarchy that defines every man<N> |
| ProjectTool.ManSectionRequest | src/engine/SCons/Tool/project.py:464-469 | into 'man<N>', N must be one section character; a file whose extension is no section is installed as stem.N |
| ProjectTool.ManNGoesToSection | src/engine/SCons/Tool/project.py:464 | a node sent to a man<N> directory is placed by the section rule, given a hierarchy that defines every man<N> |
| ProjectTool.ManDirectoriesDefined | src/engine/SCons/Tool/project.py:118-119 | the hierarchy defines man<N> for every section N |
| ProjectTool.HierarchyDefinesManDirs | src/engine/SCons/Tool/project.py:112-119 | a constructed hierarchy defines the man<N> directory of each of its sections |
| ProjectTool.SubstituteDictFacts | src/engine/SCons/Tool/project.py:265-276 | a key outside the restrict list is a UserError; a key of the project is expanded by the project first, then the environment's; an unknown key raises KeyError |
| ProjectTool.PackageRoot | src/engine/SCons/Tool/project.py:318-321 | SHORTNAME-VERSION when VERSION is non-empty, SHORTNAME otherwise |
| ProjectTool.TestStatus | src/engine/SCons/Tool/project.py:50-60 | status 0 exactly for 0 and 77; any other status is passed through |
| Taskmaster.DefaultCalc | src/engine/SCons/Taskmaster.py:133-145 | the default calculator gives no build signature and never calls a node current |
| Taskmaster.DefaultCalcAlwaysBuilds | src/engine/SCons/Taskmaster.py:139-145 | with the default calculator every task is made ready as executing |
| Taskmaster.Group | src/engine/SCons/Taskmaster.py:232-235 | a node whose builder has no target list is built alone; a node of the graph is always among its own targets |
| Taskmaster.StackedIn | src/engine/SCons/Taskmaster.py:185-188 | filter(in_stack, ...) keeps exactly the nodes whose state is stack |
| Taskmaster.Unvisited | src/engine/SCons/Taskmaster.py:202-204 | filter(derived, ...) keeps exactly the children with a builder and no state |
| Taskmaster.Names | src/engine/SCons/Taskmaster.py:190 | map(str, nodes) keeps the order and names every node |
| Taskmaster.SetSourceSigs | src/engine/SCons/Taskmaster.py:193-198 | every child without a builder gets the calculator's content signature; every other entry is unchanged |
| Taskmaster.ExploreStep | src/engine/SCons/Taskmaster.py:170-219 | one pass of the loop keeps every node inside the graph and strictly decreases the unvisited set, the top's visit, or the stack |
| Taskmaster.VisitNode | src/engine/SCons/Taskmaster.py:180-219 | visiting the top of the stack keeps the same measure decreasing |
| Taskmaster.AfterChildren | src/engine/SCons/Taskmaster.py:193-219 | after the cycle check the pass either defers to unvisited derived children, parks the node, or makes it ready |
| Taskmaster.Explore | src/engine/SCons/Taskmaster.py:164-219 | _find_next_ready_node terminates and leaves every node in the graph |
| Taskmaster.StepOutcome | src/engine/SCons/Taskmaster.py:170-219 | one pass never changes the executing list, and a pass that stops ends as Ends describes |
| Taskmaster.ExploreOutcome | src/engine/SCons/Taskmaster.py:164-219 | the walk ends with a ready node that passed every test (on the path, no child on the path, no unvisited derived child, not waiting on executing or pending work, source signatures set), or with the "Dependency cycle: " error naming the stacked candidates then the stacked children, or with no candidates; executing is untouched |
| Taskmaster.StepPending | src/engine/SCons/Taskmaster.py:210-215 | a pass only appends to pending, and only nodes it marks pending that depend on executing or pending nodes; other states only advance from none or stack to stack or pending |
| Taskmaster.ExplorePending | src/engine/SCons/Taskmaster.py:164-219 | the same holds over the whole walk |
| Taskmaster.ExploreParked | src/engine/SCons/Taskmaster.py:164-219 | over the whole walk, a node unvisited at the start that ends pending was parked by this walk, and so was every unvisited derived child of a node it parked |
| Taskmaster.PathParked | src/engine/SCons/Taskmaster.py:200-215 | along a chain of derived nodes unvisited at the start, once one is parked every later one is |
| Taskmaster.ReadyNotOnCycle | src/engine/SCons/Taskmaster.py:164-219 | the walk never hands out a node that lies on a cycle of derived nodes it found unvisited |
| Taskmaster.CycleReported | src/engine/SCons/Taskmaster.py:180-191 | on A -> B -> C -> A, all derived, the first walk from the constructor's state raises "Dependency cycle: A -> C -> B -> A" and hands out nothing |
| Taskmaster.ExploreTracksStack | src/engine/SCons/Taskmaster.py:175-219 | a node in state stack is always on the candidate stack or the ready node |
| Taskmaster.ReadyState | src/engine/SCons/Taskmaster.py:123-131 | the targets become executing iff some target is not current, and up_to_date iff all are |
| Taskmaster.SetAll | src/engine/SCons/Taskmaster.py:76-79 | exactly the listed nodes take the new state |
| Taskmaster.Release | src/engine/SCons/Taskmaster.py:253-263 | as written: the node leaves executing, every pending node loses its state and is appended in reverse order to the candidates, and pending empties |
| Taskmaster.ReleaseKeepingFailures | src/engine/SCons/Taskmaster.py:253-263 | corrected: the same, but only nodes still in state pending lose their state |
| Taskmaster.FailedStaysFailed | src/engine/SCons/Taskmaster.py:253-263 | with the correction a failed node stays failed through the release and the next walk, and is never handed out |
| Taskmaster.ExecutedRevivesFailedParent | src/engine/SCons/Taskmaster.py:253-263 | as written, in a parallel build where child 1 fails while parent 0 is pending on child 2, parent 0 loses its failed state and is handed out ready after child 2 completes |
| Taskmaster.UpwardClosure | src/engine/SCons/Taskmaster.py:113-119 | the Walker over get_parents visits exactly the targets and their transitive parents |
| Taskmaster.MarkFailed | src/engine/SCons/Taskmaster.py:113-119 | a node reachable upwards from the targets is failed; every other node and the rest of the scheduler are unchanged |
| Taskmaster.FailContinueStates | src/engine/SCons/Taskmaster.py:113-121 | as written, after fail_continue every node that was pending is unvisited again, failed parents included; the other upward nodes are failed, the rest unchanged; the node is no longer executing |
| Taskmaster.FailContinueKeepingStates | src/engine/SCons/Taskmaster.py:113-121 | corrected, every upward node ends failed and only pending nodes still in state pending are reset |
| Taskmaster.Taskmaster.constructor | src/engine/SCons/Taskmaster.py:154-162 | the candidates are the targets reversed, so the first target is on top; executing, pending and ready are empty |
| Taskmaster.Taskmaster.FindNextReadyNode | src/engine/SCons/Taskmaster.py:164-219 | the loop reaches exactly the state of the Explore walk, and returns its cycle error; a pending list whose nodes are all in state pending stays so |
| Taskmaster.Taskmaster.VisitTop | src/engine/SCons/Taskmaster.py:171-177 | one loop pass does what ExploreStep says |
| Taskmaster.Taskmaster.VisitPath | src/engine/SCons/Taskmaster.py:180-191 | visiting the top does what VisitNode says |
| Taskmaster.Taskmaster.VisitChildren | src/engine/SCons/Taskmaster.py:193-219 | the rest of the pass does what AfterChildren says |
| Taskmaster.Taskmaster.CacheSourceSigs | src/engine/SCons/Taskmaster.py:193-198 | the csig cache becomes SetSourceSigs of the children and nothing else changes |
| Taskmaster.Taskmaster.NextTask | src/engine/SCons/Taskmaster.py:221-240 | None when the walk finds no ready node; otherwise a new task for the ready node and its builder's targets, top iff it is a top-level target, the node appended to executing, and its targets made ready; pending nodes outside the task stay in state pending |
| Taskmaster.Taskmaster.StartTask | src/engine/SCons/Taskmaster.py:231-240 | the ready node becomes a task as NextTask describes and ready is cleared |
| Taskmaster.Taskmaster.IsBlocked | src/engine/SCons/Taskmaster.py:242-245 | after the walk, blocked iff no node is ready and some node is pending; pending nodes stay in state pending |
| Taskmaster.Taskmaster.Stop | src/engine/SCons/Taskmaster.py:247-251 | candidates, ready and pending are emptied; executing and states are kept |
| Taskmaster.Taskmaster.Executed | src/engine/SCons/Taskmaster.py:253-263 | a node not executing is a ValueError and changes nothing; otherwise the state becomes Release of the old one, whose pending list is empty and consistent |
| Taskmaster.Taskmaster.ExecutedKeepingFailures | src/engine/SCons/Taskmaster.py:253-263 | corrected: the same with ReleaseKeepingFailures, so no failed node changes state |
| Taskmaster.Taskmaster.ClearPending | src/engine/SCons/Taskmaster.py:259-260 | every pending node's state is reset to none |
| Taskmaster.Taskmaster.ResetStillPending | src/engine/SCons/Taskmaster.py:259-260 | corrected: only pending nodes still in state pending are reset |
| Taskmaster.Taskmaster.ReleaseValid | src/engine/SCons/Taskmaster.py:253-263 | releasing keeps every node in the graph and keeps stack states tracked |
| Taskmaster.Task.constructor | src/engine/SCons/Taskmaster.py:57-61 | a new Task records its taskmaster, targets, top flag and node |
| Taskmaster.Task.GetTarget | src/engine/SCons/Taskmaster.py:71-74 | the node the Task was made for |
| Taskmaster.Task.SetTstates | src/engine/SCons/Taskmaster.py:76-79 | every target takes the state; nothing else changes |
| Taskmaster.Task.MakeReady | src/engine/SCons/Taskmaster.py:123-131 | every target stores its build signature and takes ReadyState of the targets |
| Taskmaster.Task.Execute | src/engine/SCons/Taskmaster.py:63-69 | the first target is built exactly when it is not up to date; the result is whether that build succeeds |
| Taskmaster.Task.Executed | src/engine/SCons/Taskmaster.py:81-96 | when the first target is executing, all targets become executed and store their signatures; then the taskmaster releases the node |
| Taskmaster.Task.FailStop | src/engine/SCons/Taskmaster.py:102-105 | the targets fail and the build stops, with every pending node in state pending |
| Taskmaster.Task.Failed | src/engine/SCons/Taskmaster.py:98-100 | failing stops the build as FailStop |
| Taskmaster.Task.FailContinue | src/engine/SCons/Taskmaster.py:107-121 | as written: every target and every transitive parent fails (MarkFailed), then executed releases the node (Release), or raises ValueError when it is not executing |
| Taskmaster.Task.FailContinueKeepingFailures | src/engine/SCons/Taskmaster.py:107-121 | corrected: the same with the release that keeps failures, so every target and transitive parent ends failed |
| Taskmaster.Task.MarkUpwardFailed | src/engine/SCons/Taskmaster.py:113-119 | exactly the targets and their transitive parents become failed: the state becomes MarkFailed of the old one |
| SConscriptScript.AsList | src/engine/SCons/Script/SConscript.py:162-185 | a single value becomes a one-element list and a list stays as it is |
| SConscriptScript.Basename | src/engine/SCons/Script/SConscript.py:198-210 | the last path component: a suffix of the path without a slash |
| SConscriptScript.RelativeName | src/engine/SCons/Script/SConscript.py:196-210 | without src_dir, the last component of the path string; with it, paths are compared as normalised nodes: a file below the source directory gets a relative path that leads back to it from there, any other file its own name |
| SConscriptScript.UnderRelative | src/engine/SCons/Script/SConscript.py:204-206 | get_path(src_dir) of a file below src_dir is a non-empty relative path whose components, after src_dir's, are the file's |
| SConscriptScript.RelativeNameNormalises | src/engine/SCons/Script/SConscript.py:200-210 | for all plain names: src_dir '.' keeps the whole path, './d' and 'd/' act as 'd', and a file reached through '..' is not below '.' |
| SConscriptScript.DirFiles | src/engine/SCons/Script/SConscript.py:164-168 | each directory joined with the script name, in order |
| SConscriptScript.GetSConscriptFilenames | src/engine/SCons/Script/SConscript.py:152-214 | success needs at most two positional arguments and, without any, a 'dirs' keyword; with build_dir exactly one file comes out; every failure is a UserError |
| SConscriptScript.FilenamesFromDirs | src/engine/SCons/Script/SConscript.py:155-168 | without positional arguments the files are the 'dirs' joined with 'name', which defaults to "SConscript" |
| SConscriptScript.FilenamesFromArguments | src/engine/SCons/Script/SConscript.py:170-188 | one positional argument gives the files; a second gives the first exports; the 'exports' keyword's names come last |
| SConscriptScript.FilenamesRefused | src/engine/SCons/Script/SConscript.py:155-194 | the call is refused exactly without arguments or 'dirs', with more than two arguments, or with build_dir and not exactly one file |
| SConscriptScript.FilenamesUnderBuildDir | src/engine/SCons/Script/SConscript.py:190-212 | with build_dir the one file is a name joined under build_dir |
| SConscriptScript.ImportStar | src/engine/SCons/Script/SConscript.py:406-408 | '*' copies the global exports and then the frame's exports, so the frame's win |
| SConscriptScript.ImportNamed | src/engine/SCons/Script/SConscript.py:409-413 | each name takes the frame's export if there is one, else the global one; nothing else changes |
| SConscriptScript.ImportMissing | src/engine/SCons/Script/SConscript.py:401-415 | the import stops exactly at the first name found in neither, after importing the names before it |
| SConscriptScript.Packed | src/engine/SCons/Script/SConscript.py:141-144 | one value is returned as itself, any other number as a tuple |
| SConscriptScript.ReturnValues | src/engine/SCons/Script/SConscript.py:132-139 | Return succeeds iff every name is bound, yielding their values in order; otherwise it stops at the first unbound name |
| SConscriptScript.PackedAmbiguous | src/engine/SCons/Script/SConscript.py:141-144 | returning one tuple of two values looks the same as returning the two values |
| SConscriptScript.PackedInjective | src/engine/SCons/Script/SConscript.py:141-144 | apart from that, packing loses nothing |
| SConscriptScript.DefaultSplit | src/engine/SCons/Script/SConscript.py:359-370 | two Default calls act as one call with both argument lists |
| SConscriptScript.DefaultAppends | src/engine/SCons/Script/SConscript.py:366-370 | without None the targets' nodes are appended in order |
| SConscriptScript.DefaultAfterNone | src/engine/SCons/Script/SConscript.py:364-365 | after the last None only the later targets remain |
| SConscriptScript.CleanAccumulates | src/engine/SCons/Script/SConscript.py:510-513 | two Clean calls for a target equal one with both lists; other targets are untouched; the new nodes come last |
| SConscriptScript.ExportLastWins | src/engine/SCons/Script/SConscript.py:397-399 | a name takes the value of the last Export that mentions it; names never exported keep their value |
| SConscriptScript.ParseArg | src/engine/SCons/Script/SConscript.py:74-78 | corrected: a word holding '=' splits at the first '=' into name and value, which rebuild the word; a word without '=' is a ValueError |
| SConscriptScript.ArgWithEqualsInValue | src/engine/SCons/Script/SConscript.py:77 | as written, a value holding '=' (NAME=X=1) raises ValueError, which the corrected split accepts |
| SConscriptScript.ArgAgrees | src/engine/SCons/Script/SConscript.py:77 | with one '=' both splits agree |
| SConscriptScript.ArgAsWrittenReads | src/engine/SCons/Script/SConscript.py:77 | as written a word is read iff it holds exactly one '=', then as the corrected split reads it; otherwise ValueError |
| SConscriptScript.ArgumentsLastWins | src/engine/SCons/Script/SConscript.py:76-78 | when every word can be read (as written: holds exactly one '='; corrected: holds one), the reading never stops and each name ends bound to the value of its last word |
| SConscriptScript.ArgumentsKeep | src/engine/SCons/Script/SConscript.py:76-78 | names no word mentions keep their value |
| SConscriptScript.ArgumentsStopAt | src/engine/SCons/Script/SConscript.py:76-78 | the reading stops at the first word it cannot read, keeping exactly the bindings of the words before it |
| SConscriptScript.DefineStopsArguments | src/engine/SCons/Script/SConscript.py:74-78 | as written, A=1 CPPDEFINES=X=1 B=2 stops at the second word with only A bound |
| SConscriptScript.DefineKeptCorrected | src/engine/SCons/Script/SConscript.py:74-78 | corrected, the same line binds A, CPPDEFINES (to X=1) and B |
| SConscriptScript.BuildSignatureFor | src/engine/SCons/Script/SConscript.py:426-433 | 'build' selects 1 and 'content' 0; anything else is "Unknown build signature type" |
| SConscriptScript.SignatureModuleFor | src/engine/SCons/Script/SConscript.py:441-449 | 'MD5' and 'timestamp' select their modules; anything else is "Unknown content signature type" |
| SConscriptScript.DigitsRoundTrip | src/engine/SCons/Script/SConscript.py:463-464 | a printed number reads back as itself |
| SConscriptScript.ParseInt | src/engine/SCons/Script/SConscript.py:463 | int() fails only with ValueError |
| SConscriptScript.LeadingDigits | src/engine/SCons/Script/SConscript.py:464 | re.match('\d+') takes the longest run of leading digits |
| SConscriptScript.ParseVersionRoundTrip | src/engine/SCons/Script/SConscript.py:462-464 | a version printed as major.minor[.more] reads back as (major, minor) |
| SConscriptScript.Compare | src/engine/SCons/Script/SConscript.py:465-468 | 0 iff the required version is above the current one, 1 iff the current one is at least the required one |
| SConscriptScript.CompareMonotone | src/engine/SCons/Script/SConscript.py:465-468 | a version that passes also passes any lower requirement |
| SConscriptScript.CheckVersionIgnoresString | src/engine/SCons/Script/SConscript.py:456-474 | as written, when sys.version_info exists the version string is ignored, so asking for SCons 1.0 passes under SCons 0.96.1 and Python 2.4; the corrected check refuses it |
| SConscriptScript.CheckVersion | src/engine/SCons/Script/SConscript.py:456-468 | corrected: the check succeeds iff the version string parses, and compares against it |
| SConscriptScript.CheckVersionAgainstPrinted | src/engine/SCons/Script/SConscript.py:456-468 | for a version printed as vmajor.vminor[.more] it returns 0 exactly when (major, minor) is above it |
| SConscriptScript.Frame.constructor | src/engine/SCons/Script/SConscript.py:116-120 | a new frame holds the exports, an empty namespace and None as return value |
| SConscriptScript.Script.constructor | src/engine/SCons/Script/SConscript.py:59-65 | the stack, exports, clean targets and arguments start empty and the default targets unset |
| SConscriptScript.Script.AddArgs | src/engine/SCons/Script/SConscript.py:74-78 | ARGUMENTS becomes what the words give as written, stopping with ValueError at the first word without exactly one '='; nothing else changes |
| SConscriptScript.Script.Export | src/engine/SCons/Script/SConscript.py:397-399 | the global exports become ExportSpec of the computed tables |
| SConscriptScript.Script.Import | src/engine/SCons/Script/SConscript.py:401-415 | the running frame's namespace becomes ImportSpec's and its return value is unchanged; a missing name raises "Import of non-existant variable"; with no running script, any name raises IndexError |
| SConscriptScript.Script.Return | src/engine/SCons/Script/SConscript.py:132-144 | the running frame's return value becomes the packed values; an unbound name raises "Return of non-existant variable" and keeps it |
| SConscriptScript.Script.Default | src/engine/SCons/Script/SConscript.py:359-370 | the default targets become DefaultSpec of the old list, empty when unset |
| SConscriptScript.Script.Clean | src/engine/SCons/Script/SConscript.py:496-513 | the target's clean list gains all the files' nodes |
| SConscriptScript.Script.TargetSignatures | src/engine/SCons/Script/SConscript.py:426-433 | sets the build-signature flag or raises, leaving it unchanged |
| SConscriptScript.Script.SourceSignatures | src/engine/SCons/Script/SConscript.py:441-449 | selects the signature module or raises, leaving it unchanged |
| SConscriptScript.Script.SConscript | src/engine/SCons/Script/SConscript.py:216-313 | the call fails as GetSConscriptFilenames does, or returns the packed return values of the chosen files, with the stack back as it was |
| Heapmonitor.NoNewlines | src/engine/SCons/Heapmonitor.py:161 | every newline becomes '\|' and nothing else changes |
| Heapmonitor.SliceFrom | src/engine/SCons/Heapmonitor.py:164 | Python's s[start:] on a non-negative start: the suffix from start, empty past the end |
| Heapmonitor.SliceTo | src/engine/SCons/Heapmonitor.py:166 | Python's s[:stop]: the prefix up to stop, counting a negative stop from the end |
| Heapmonitor.Trunc | src/engine/SCons/Heapmonitor.py:154-168 | the result holds no newline, and a text no longer than max is returned whole |
| Heapmonitor.TruncLength | src/engine/SCons/Heapmonitor.py:162-166 | for max of at least 3 a longer text is cut to exactly max characters: '...' then its last max-3 characters with left, else its first max-3 characters then '...' |
| Heapmonitor.TruncTinyMax | src/engine/SCons/Heapmonitor.py:162-166 | below 3 the result is longer than max and still ends in '...' |
| Heapmonitor.MaxSize | src/engine/SCons/Heapmonitor.py:305-313 | 0 with no samples; otherwise one of the sampled sizes, at least every other |
| Heapmonitor.SizeAt | src/engine/SCons/Heapmonitor.py:315-323 | the size of the first sample taken at ts, or 0 when there is none |
| Heapmonitor.SizeAtOpt | src/engine/SCons/Heapmonitor.py:315-323 | asked with no timestamp (tmax None) the size is 0 |
| Heapmonitor.TrackedObject.constructor | src/engine/SCons/Heapmonitor.py:199-220 | the record is NewRecord: it keeps the id and class, is born now, alive and undead, at the level, with one sample of the initial size |
| Heapmonitor.TrackedObject.GetSizeAtTime | src/engine/SCons/Heapmonitor.py:315-323 | the loop returns SizeAt of the samples |
| Heapmonitor.TrackedObject.SetResolutionLevel | src/engine/SCons/Heapmonitor.py:325-331 | only the level changes |
| Heapmonitor.TrackedObject.Finalize | src/engine/SCons/Heapmonitor.py:333-348 | the record is dead with the time of death; nothing else changes |
| Heapmonitor.Observer.constructor | src/engine/SCons/Heapmonitor.py:86-91 | the observer holds the given settings |
| Heapmonitor.Observer.Modify | src/engine/SCons/Heapmonitor.py:93-97 | the settings are replaced |
| Heapmonitor.ClassName | src/engine/SCons/Heapmonitor.py:407-411 | the given name, else module.classname |
| Heapmonitor.Monitor.constructor | src/engine/SCons/Heapmonitor.py:60-74 | all registries start empty |
| Heapmonitor.Monitor.TrackObject | src/engine/SCons/Heapmonitor.py:360-395 | an id whose record is alive is left alone; an object that cannot be weakly referenced raises TypeError; otherwise a new record (NewRecord: born now, not dead, alive, at the level, one sample) replaces the id's entry, is appended under the name (the class name by default) and the object is kept alive on request |
| Heapmonitor.IndexedAdd | src/engine/SCons/Heapmonitor.py:384-389 | recording an object under its id and appending it under a name keeps every object reachable by id carrying that id and listed in the index under some name |
| Heapmonitor.Monitor.TrackChange | src/engine/SCons/Heapmonitor.py:351-357 | a tracked id gets the new level and keeps its birth, death and footprint; an unknown one raises KeyError; the index and every other tracked object are unchanged |
| Heapmonitor.Monitor.TrackClass | src/engine/SCons/Heapmonitor.py:398-415 | the class is observed with the given settings, whether new or modified; every other observer keeps its object and its settings, and the object registries are unchanged |
| Heapmonitor.Monitor.InstanceCreated | src/engine/SCons/Heapmonitor.py:143-152 | an instance of an untracked class changes nothing; for a tracked class, track_object's three cases with the observer's name, level and keep setting: an id still alive is left alone, an instance without weak references raises TypeError and changes nothing, otherwise a fresh NewRecord is indexed under the observer's name; the footprint never changes |
| Heapmonitor.Monitor.DetachClass | src/engine/SCons/Heapmonitor.py:418-423 | the observer is removed; an untracked class raises KeyError |
| Heapmonitor.Monitor.DetachAllClasses | src/engine/SCons/Heapmonitor.py:426-431 | no class is observed afterwards; the object registries are unchanged |
| Heapmonitor.Monitor.DetachAll | src/engine/SCons/Heapmonitor.py:434-442 | no class, no object, nothing kept alive; snapshots stay |
| Heapmonitor.Monitor.Clear | src/engine/SCons/Heapmonitor.py:444-449 | as DetachAll, and the snapshots are dropped |
| Heapmonitor.Leafless | src/engine/SCons/Heapmonitor.py:730-740 | a node stays exactly when it refers to some node of the graph |
| Heapmonitor.EliminateLeafs | src/engine/SCons/Heapmonitor.py:730-740 | the loop returns Leafless of the graph, in order |
| Heapmonitor.PruneFixpoint | src/engine/SCons/Heapmonitor.py:782-785 | the pruned graph is a fixpoint: each node left refers to a node left |
| Heapmonitor.PruneKeepsCycles | src/engine/SCons/Heapmonitor.py:782-785 | no node of a reference cycle (a set whose nodes all refer into it) is pruned |
| Heapmonitor.FindCycles | src/engine/SCons/Heapmonitor.py:778-785 | with prune, leaves are eliminated until the size stops changing, giving Prune; without, the garbage is kept whole |
| MemStats.CriterionOf | src/engine/SCons/Heapmonitor.py:553-554 | a recognised name is the name of the criterion it yields |
| MemStats.CriterionRoundTrip | src/engine/SCons/Heapmonitor.py:553-554 | every criterion is recognised by its own name |
| MemStats.ParseCriteria | src/engine/SCons/Heapmonitor.py:553-560 | the arguments are accepted iff each is a criterion, else ValueError; no arguments means all seven in order; otherwise one criterion per argument, by name |
| MemStats.ParseNames | src/engine/SCons/Heapmonitor.py:556 | any list of criterion names is accepted |
| MemStats.CmpKeyAntisymmetric | src/engine/SCons/Heapmonitor.py:564 | cmp(a, b) is -cmp(b, a) |
| MemStats.CmpKeyZero | src/engine/SCons/Heapmonitor.py:564 | cmp is 0 exactly on equal fields |
| MemStats.CmpKeyTransitive | src/engine/SCons/Heapmonitor.py:564 | cmp is transitive |
| MemStats.DirectedFacts | src/engine/SCons/Heapmonitor.py:564-568 | reversing tsize, size and death keeps cmp antisymmetric, zero on equal fields and transitive |
| MemStats.CmpAntisymmetric | src/engine/SCons/Heapmonitor.py:562-569 | _sort is antisymmetric |
| MemStats.CmpTransitive | src/engine/SCons/Heapmonitor.py:562-569 | _sort is transitive, so it is a valid ordering for list.sort |
| MemStats.Insert | src/engine/SCons/Heapmonitor.py:574 | inserting adds exactly the one record |
| MemStats.SortBy | src/engine/SCons/Heapmonitor.py:574 | sorting is a permutation |
| MemStats.SortBySorted | src/engine/SCons/Heapmonitor.py:574 | the result is ordered by _sort |
| MemStats.DefaultOrder | src/engine/SCons/Heapmonitor.py:559-569 | with no criteria the records are by class name ascending, then by size at the chosen snapshot descending |
| MemStats.SizeOrder | src/engine/SCons/Heapmonitor.py:566-567 | sorted by 'size' the largest come first |
| MemStats.DeathOrder | src/engine/SCons/Heapmonitor.py:566-567 | sorted by 'death' the latest deaths come first and live objects last |
| MemStats.TMaxIsLastPositive | src/engine/SCons/Heapmonitor.py:536-540 | as written, maxsize stays 0, so tmax is the last snapshot with a positive total |
| MemStats.LargestSnapshotIsMax | src/engine/SCons/Heapmonitor.py:535-540 | corrected: no snapshot chosen iff no total is positive; otherwise the first snapshot with the largest total |
| MemStats.TMaxPicksSmaller | src/engine/SCons/Heapmonitor.py:536-540 | totals 100 then 50: as written it picks the second, corrected the first |
| MemStats.InitRecordsComplete | src/engine/SCons/Heapmonitor.py:541-546 | every tracked object gets a record under its key, and every record comes from one |
| MemStats.RecordSizes | src/engine/SCons/Heapmonitor.py:544-545 | a record's size is at least every sample; with no snapshot chosen its tsize is 0 |
| MemStats.Stats.constructor | src/engine/SCons/Heapmonitor.py:501-507 | the statistics hold the index and snapshots and no records yet |
| MemStats.Stats.InitSort | src/engine/SCons/Heapmonitor.py:527-546 | with no records yet they are built at the snapshot the loop picks as written (the last one with a positive total, TMaxIsLastPositive); existing ones are kept |
| MemStats.Stats.SortStats | src/engine/SCons/Heapmonitor.py:548-576 | invalid criteria raise ValueError and change nothing; otherwise the records (built first, as written, if there are none) are sorted by the criteria |
| MemStats.Stats.ReverseOrder | src/engine/SCons/Heapmonitor.py:578-585 | the records (built first, as written, if there are none) are reversed |
| MemStats.SortStatsOrders | src/engine/SCons/Heapmonitor.py:548-576 | after sort_stats the records are a permutation of what was there, ordered by the criteria |

## Left out

- Task.execute: running the builder is not modelled. Threads, exceptions from the builder and `sys.exc_info` are outside a model of scheduling.
- Node internals are inputs: children, parents, builders, `builder.targets`, `depends_on`, the Walker and the Calc signatures (`bsig`, `current`, `csig`). The model takes them as functions and does not model how nodes compute them.
- File I/O is not modelled. Every file is its contents, and a file that cannot be opened reads as empty. MD5 and `rexists` are abstract inputs.
- `src/engine/SCons/CommentsRE.py` is not part of this model.
- Header and HeaderTool `Comment`: only the path without wrapping is stated precisely. `textwrap.wrap` is a parameter.
- HeaderTool `_format_literal`: Python's float formatting is not modelled. A float is an opaque text.
- Header `Write`, `build_function` and `HeaderClassSelector` are not modelled: file writing and builder glue.
- HeaderTool `set_node`, `Write`, the `_bld*` helpers, `HeaderMethod` and `generate` are not modelled: builder and environment glue.
- Rpm: `os.uname`, the `package()` builder glue, `targz_emitter`, `specfile_emitter`, `CHANGE_SPECFILE` and writing the spec file are left out. They are I/O and environment plumbing.
- Rpm: Python leaves dictionary order unspecified. The model takes the tag tables in the order the source writes them and the package fields in ascending key order, so the output order of the tags is a model choice.
- Substitute: reading and writing files, `env.subst` (a parameter here) and a configurable `SUBST_REGEXP` are left out. Only the default `@KEY@` pattern is modelled.
- Substitute: `generate` (lines 107-132) and `subst_in_file_string` (lines 88-91) are not modelled: builder registration.
- Substitute: the "Can't read source file" and "Can't write target file" errors (lines 51 and 56) name `sourcefile` and `targetfile`, which the module never defines, so a file that cannot be opened raises NameError instead of UserError. File I/O is not modelled, so neither error path is.
- ProjectTool: Alias, Install, Package, Command and FindSourceFiles are not modelled. Neither are AddOption/GetOption and sysconfig. These are environment calls and command-line plumbing.
- ProjectTool: the output printed by TestCommandAction is not modelled. Only its exit status is.
- ProjectTool: the node plumbing of Distribute, Attach, Test and AutoInstall is not modelled. Neither are the distcheck commands or the Header/Substitute wrappers.
- Jar: the `exists` function is not modelled. It only reports that the tool is available.
- SConscriptScript: executing a script is not modelled. Neither are `chdir`, `sys.path`, `get_calling_namespaces`, `annotate`, `SConscript_exception` or `BuildDefaultGlobals`. Each script's Return value is an input.
- SConscriptScript: these environment methods are not modelled: Local, Help, BuildDir, GetBuildPath, FindFile, GetLaunchDir, Options, GetJobs/SetJobs, AddPreAction/AddPostAction, Exit, Alias, SetOption/GetOption and SConsignFile.
- SConscriptScript: the process exit of EnsureSConsVersion and EnsurePythonVersion is left out. The model stops at the comparison that decides it.
- Heapmonitor: `weakref`, `gc`, `asizeof`, `cPickle` and `inspect` are not modelled. Object sizes, liveness, clock readings and referents are inputs.
- Heapmonitor: the constructor injection through `new.instancemethod` is not modelled. InstanceCreated models its effect.
- Heapmonitor: printing is not modelled: `_pp`, `print_*`, `_get_timestamp` and the graphviz output.
- Heapmonitor: the sizing part of `create_snapshot` is not modelled. Neither are the sizing and annotation in `find_garbage`, or `get_edges`. Only the cycle pruning is.
- MemStats: `load` and `dump` (pickle) are not modelled. `dump` also refers to globals the module never defines. `diff_stats`, `print_stats` and `print_summary` are not modelled either.
- MemStats: `iterkeys` order is unspecified in Python. The model visits the index in ascending key order.
- MemStats.Stats.InitSort: `list.sort` is modelled as an insertion sort. The contract states sortedness and permutation, not the stability of Python's sort.
- NextTask: make_ready sets the state of every target of the handed-out group, so a pending node in that group takes the group's state; the promise that pending nodes stay in state pending covers the others.
- ProjectTool: a node's str() is modelled as its path, the form the absolute-directory UserError shows.
- RelativeName: paths are normalised without the file system: a '#' (top-directory) prefix, symbolic links, and an absolute path compared with a relative one (which needs the current directory's location) are not modelled; such a file counts as not below the source directory.
- ImportMessage: the KeyError is formatted with '%s'; interpreters whose KeyError prints its key's repr show the name in doubled quotes (''v''). The model uses the bare name in single quotes.
- ReturnMessage: the same quoting of the KeyError as ImportMessage.
- ProjectTool: the directory template the hierarchy's attribute would be substituted into is not modelled; a relative placement names the directory the node goes to.
- `runtest.py`, the `python.py` and `with.py` helpers and the test suites are not part of this model.

## Findings

| source | as written | input that shows it | evidently intended | confidence | as-written member | corrected member |
|---|---|---|---|---|---|---|
| src/engine/SCons/Taskmaster.py:253-263 | `executed` resets every pending parent to state None, failed ones too | child A failed, so parent P failed while waiting on B; B finishes | a failed parent stays failed and is never handed out | high, not executed | Taskmaster.Release, Taskmaster.ExecutedRevivesFailedParent, Taskmaster.Task.FailContinue, Taskmaster.FailContinueStates | Taskmaster.ReleaseKeepingFailures, Taskmaster.FailedStaysFailed, Taskmaster.Task.FailContinueKeepingFailures, Taskmaster.FailContinueKeepingStates |
| src/engine/SCons/Comments.py:230-238 | CCode and DCode resume at the closing `/` of a block comment | "/**/" raises IndexError; "/**//x" yields "/**///x" | resume after the `/` | high, not executed | Comments.CodeRaisesOnClosingSlash, Comments.CodeOutgrowsText | Comments.FixedCodeInText, Comments.FixedRaisesAlike |
| src/engine/SCons/Comments.py:379-384 | DComments skips the character after `+/` | "/+x+/a" yields "" | "a" | high, not executed | Comments.NestDropsNextChar | Comments.FixedRaisesAlike |
| src/engine/SCons/Header.py:174-180 | `$` in `name_re` also matches before a final newline | "A\n" passes check_name and yields a #define over two lines | only identifiers pass | high, not executed | Header.NameAcceptsNewline | Header.StrictNameIsIdentifier |
| src/engine/SCons/Header.py:173-177 | the check finds "*/" only at the start of a comment line | the line "a */ b" closes the comment early | no line contains "*/" | medium, not executed | Header.CommentClosedEarly | Header.CommentClosesOnce |
| src/engine/SCons/Tool/packaging/rpm.py:262-283 | the tag set holds only exact tag names, so PACKAGING_LANG_xx never reaches the `%lang` template | a file with PACKAGING_LANG_de gets no `%lang(de)` | `%lang(de)` is emitted | high, not executed | Rpm.FileLangNeverEmitted, Rpm.FileLangAsWritten | Rpm.FileLangFixed |
| src/engine/SCons/Tool/packaging/rpm.py:51-71 | `replace('src', arch)` replaces every "src" in the source package name | NAME "src" becomes the architecture | only the ".src.rpm" suffix changes | high, not executed | RpmTargets.BinaryRpmRenamesName | RpmTargets.BinaryRpmAgrees |
| src/engine/SCons/Script/SConscript.py:456-468 | with `sys.version_info` present, the SCons version check compares against the Python version | SCons 1.0 required, 0.96.1 running, Python 2.4: passes | compare with the SCons version | medium, not executed | SConscriptScript.CheckVersionAsWritten, SConscriptScript.CheckVersionIgnoresString | SConscriptScript.CheckVersion, SConscriptScript.CheckVersionAgainstPrinted |
| src/engine/SCons/Script/SConscript.py:74-78 | `split(arg, '=', 2)` gives three parts when the value holds '=' | NAME=X=1 raises ValueError | split at the first '=' only | high, not executed | SConscriptScript.ArgAsWritten, SConscriptScript.ArgWithEqualsInValue, SConscriptScript.DefineStopsArguments | SConscriptScript.ParseArg, SConscriptScript.DefineKeptCorrected |
| src/engine/SCons/Heapmonitor.py:536-540 | the running maximum is never updated | [Snapshot(1,100), Snapshot(2,50)] picks 2 | picks 1, the largest | high, not executed | MemStats.TMaxAsWritten, MemStats.TMaxPicksSmaller | MemStats.LargestSnapshot, MemStats.LargestSnapshotIsMax |
