/** The header-file generator of src/engine/SCons/Header.py: a HeaderFile
    collects texts in three ordered buffers (top, main, bottom) and renders
    them joined by newlines; CHeaderFile supplies the C comment, #define and
    identifier syntax. textwrap.wrap is the parameter `wrap`.

    The checks of CHeaderFile are modelled as written (`fixed` false) and
    corrected (`fixed` true); see NameOk and CommentLineOk. */
module Header {
  import opened Util

  datatype HeaderError = InvalidIdentifier | InvalidComment | NotAString

  /** A text argument: a string, a callable returning a text argument, or
      any other object. */
  datatype TextArg = StrArg(s: string) | CallArg(result: TextArg) | OtherArg

  /** _final_text: only a string is accepted. */
  function FinalText(t: TextArg): (r: Result<string, HeaderError>)
    ensures r.Ok? <==> t.StrArg?
    ensures r.Ok? ==> r.value == t.s
  {
    if t.StrArg? then Ok(t.s) else Err(NotAString)
  }

  // ---------------------------------------------------------------------
  // C syntax (CHeaderFile)

  predicate IsIdentStart(c: char)
  {
    ('a' <= c <= 'z') || ('A' <= c <= 'Z') || c == '_'
  }

  predicate IsIdentChar(c: char)
  {
    IsIdentStart(c) || ('0' <= c <= '9')
  }

  /** An identifier of section 6.4.2.1 of ISO/IEC 9899:1999 without
      universal character names. */
  predicate IsIdentifier(s: string)
  {
    s != [] && IsIdentStart(s[0]) && forall k :: 1 <= k < |s| ==> IsIdentChar(s[k])
  }

  /** The end of the run of identifier characters from i: `[_A-Za-z0-9]*`. */
  function IdentRunEnd(s: string, i: nat): (e: nat)
    requires i <= |s|
    ensures i <= e <= |s| && (e < |s| ==> !IsIdentChar(s[e]))
    decreases |s| - i
  {
    if i < |s| && IsIdentChar(s[i]) then IdentRunEnd(s, i + 1) else i
  }

  lemma {:induction false} IdentRunChars(s: string, i: nat, k: nat)
    requires i <= |s| && i <= k < IdentRunEnd(s, i)
    ensures IsIdentChar(s[k])
    decreases |s| - i
  {
    if k > i {
      IdentRunChars(s, i + 1, k);
    }
  }

  lemma {:induction false} IdentRunWhole(s: string, i: nat)
    requires i <= |s| && forall k :: i <= k < |s| ==> IsIdentChar(s[k])
    ensures IdentRunEnd(s, i) == |s|
    decreases |s| - i
  {
    if i < |s| {
      IdentRunWhole(s, i + 1);
    }
  }

  /** check_name: `name_re.match(name)` with `^[_A-Za-z][_A-Za-z0-9]*$`.
      Python's `$` also matches just before a newline that ends the
      string, so as written a name followed by one newline is accepted;
      the corrected check (`fixed`) requires the run to reach the end. */
  predicate NameOk(name: string, fixed: bool)
  {
    name != [] && IsIdentStart(name[0]) &&
    var e := IdentRunEnd(name, 1);
    e == |name| || (!fixed && e == |name| - 1 && name[e] == '\n')
  }

  /** The corrected check accepts exactly the identifiers. */
  lemma StrictNameIsIdentifier(name: string)
    ensures NameOk(name, true) <==> IsIdentifier(name)
  {
    if NameOk(name, true) {
      forall k | 1 <= k < |name| ensures IsIdentChar(name[k]) {
        IdentRunChars(name, 1, k);
      }
    }
    if IsIdentifier(name) {
      IdentRunWhole(name, 1);
    }
  }

  /** As written, an identifier followed by a newline passes the check and
      the #define it yields spans two lines. */
  lemma NameAcceptsNewline()
    ensures NameOk("A\n", false) && !NameOk("A\n", true)
    ensures FormatDefinition("A\n", "1") == "#define A\n 1"
  {
    assert IdentRunEnd("A\n", 2) == 2;
    assert IdentRunEnd("A\n", 1) == 1;
  }

  // The comment closer (star, slash) starts at k in s.
  predicate CloserAt(s: string, k: int)
  {
    0 <= k < |s| - 1 && s[k] == '*' && s[k + 1] == '/'
  }

  predicate NoCloser(s: string)
  {
    forall k :: 0 <= k < |s| ==> !CloserAt(s, k)
  }

  // check_comment_line: `not close_comment_re.match(line)`. match only
  // looks at the start, so as written only a line beginning with the
  // closer is rejected; the corrected check (`fixed`) rejects it anywhere.
  predicate CommentLineOk(line: string, fixed: bool)
  {
    if fixed then NoCloser(line) else !CloserAt(line, 0)
  }

  /** format_comment. */
  function FormatComment(lines: seq<string>): string
  {
    "/*\n" + Join(Starred(lines), "\n") + "\n */\n"
  }

  function Starred(lines: seq<string>): (r: seq<string>)
    ensures |r| == |lines|
    ensures forall k :: 0 <= k < |r| ==> r[k] == " * " + lines[k]
  {
    if lines == [] then [] else [" * " + lines[0]] + Starred(lines[1..])
  }

  /** format_definition: "#define %s %s". */
  function FormatDefinition(name: string, value: string): string
  {
    "#define " + name + " " + value
  }

  // format_undefinition: the name inside an "#undef" comment.
  function FormatUndefinition(name: string): string
  {
    "/* #undef " + name + " */"
  }

  lemma NoCloserJoin(a: string, b: string)
    requires NoCloser(a) && NoCloser(b)
    requires a == [] || b == [] || a[|a| - 1] != '*' || b[0] != '/'
    ensures NoCloser(a + b)
  {
    var s := a + b;
    forall k | CloserAt(s, k) ensures false {
      if k + 1 < |a| {
        assert CloserAt(a, k);
      } else if k >= |a| {
        assert CloserAt(b, k - |a|);
      }
    }
  }

  lemma {:induction false} NoCloserLines(lines: seq<string>)
    requires forall k :: 0 <= k < |lines| ==> NoCloser(lines[k])
    ensures NoCloser(Join(Starred(lines), "\n"))
  {
    var st := Starred(lines);
    if |lines| == 1 {
      NoCloserJoin(" * ", lines[0]);
    } else if |lines| > 1 {
      var rest := Join(st[1..], "\n");
      NoCloserLines(lines[1..]);
      assert Starred(lines[1..]) == st[1..];
      NoCloserJoin(" * ", lines[0]);
      NoCloserJoin(" * " + lines[0], "\n");
      NoCloserJoin(" * " + lines[0] + "\n", rest);
      assert Join(st, "\n") == " * " + lines[0] + "\n" + rest;
    }
  }

  /** With the corrected check, the formatted comment is closed exactly
      once, by its last line. */
  lemma {:induction false} CommentClosesOnce(lines: seq<string>)
    requires forall k :: 0 <= k < |lines| ==> CommentLineOk(lines[k], true)
    ensures var c := FormatComment(lines);
      CloserAt(c, |c| - 3) && forall k :: CloserAt(c, k) ==> k == |c| - 3
  {
    var body := Join(Starred(lines), "\n");
    NoCloserLines(lines);
    NoCloserJoin("/*\n", body);
    NoCloserJoin("/*\n" + body, "\n ");
    var c := FormatComment(lines);
    assert c == "/*\n" + body + "\n " + "*/\n";
    forall k | CloserAt(c, k) ensures k == |c| - 3 {
      if k < |c| - 3 {
        assert CloserAt("/*\n" + body + "\n ", k);
      }
    }
  }

  // As written, a line with the closer after its first character passes
  // the check and closes the comment before its end.
  lemma CommentClosedEarly()
    ensures CommentLineOk("a */ b", false) && !CommentLineOk("a */ b", true)
    ensures var c := FormatComment(["a */ b"]);
      CloserAt(c, 8) && 8 != |c| - 3
  {
    assert CloserAt("a */ b", 2);
    var c := FormatComment(["a */ b"]);
    assert c == "/*\n * a */ b\n */\n";
  }

  // ---------------------------------------------------------------------
  // Texts

  /** The final text of a header: the parts joined by newlines, plus a
      trailing newline. */
  function Render(parts: seq<string>): string
  {
    Join(parts, "\n") + "\n"
  }

  /** The first part opens the rendered text and the last part closes it. */
  lemma {:induction false} RenderEnds(parts: seq<string>)
    requires parts != []
    ensures IsPrefix(parts[0] + "\n", Render(parts)) || |parts| == 1
    ensures IsPrefix(parts[0], Render(parts))
    ensures var r := Render(parts); var last := parts[|parts| - 1] + "\n";
      |last| <= |r| && r[|r| - |last|..] == last
  {
    var r := Render(parts);
    if |parts| > 1 {
      assert Join(parts, "\n") == parts[0] + "\n" + Join(parts[1..], "\n");
      assert r == parts[0] + "\n" + (Join(parts[1..], "\n") + "\n");
      RenderEnds(parts[1..]);
      assert parts[1..][|parts[1..]| - 1] == parts[|parts| - 1];
      var last := parts[|parts| - 1] + "\n";
      var tail := Render(parts[1..]);
      assert r == parts[0] + "\n" + tail;
      assert r[|r| - |last|..] == tail[|tail| - |last|..];
    }
  }

  /** Comment(text, nowrap=...): the lines (split at newlines, or wrapped),
      checked one by one, then formatted. */
  function CommentText(text: string, nowrap: bool, wrap: string -> seq<string>, fixed: bool): (r: Result<string, HeaderError>)
    ensures var lines := if nowrap then SplitOn(text, '\n') else wrap(text);
      (r.Ok? <==> forall k :: 0 <= k < |lines| ==> CommentLineOk(lines[k], fixed))
      && (r.Ok? ==> r.value == FormatComment(lines))
      && (r.Err? ==> r.error == InvalidComment)
  {
    var lines := if nowrap then SplitOn(text, '\n') else wrap(text);
    if forall k :: 0 <= k < |lines| ==> CommentLineOk(lines[k], fixed) then Ok(FormatComment(lines))
    else Err(InvalidComment)
  }

  /** Definition(name, value, comment, nowrap=..., noinsert=True): the
      text of one definition. The value is passed through as its string
      form; None is an undefinition. An empty comment is no comment. */
  function DefinitionText(name: string, value: Option<string>, comment: string, nowrap: bool,
                          wrap: string -> seq<string>, fixed: bool): (r: Result<string, HeaderError>)
    ensures r == Err(InvalidIdentifier) <==> !NameOk(name, fixed)
    ensures r == Err(InvalidComment) <==> NameOk(name, fixed) && comment != [] && CommentText(comment, nowrap, wrap, fixed).Err?
    ensures r.Ok? ==>
      var line := if value.None? then FormatUndefinition(name) else FormatDefinition(name, value.value);
      var c := if comment == [] then "" else CommentText(comment, nowrap, wrap, fixed).value;
      r.value == "\n" + c + line + "\n"
  {
    if !NameOk(name, fixed) then Err(InvalidIdentifier)
    else
      var c := if comment != [] then CommentText(comment, nowrap, wrap, fixed) else Ok("");
      if c.Err? then Err(c.error)
      else
        var line := if value.None? then FormatUndefinition(name) else FormatDefinition(name, value.value);
        Ok("\n" + c.value + line + "\n")
  }

  // ---------------------------------------------------------------------
  // HeaderFile

  class HeaderFile {
    var top: seq<string>
    var main: seq<string>
    var bottom: seq<string>
    const fixed: bool

    constructor (fixed: bool)
      ensures top == [] && main == [] && bottom == [] && this.fixed == fixed
    {
      top := [];
      main := [];
      bottom := [];
      this.fixed := fixed;
    }

    /** Text(). */
    function Text(): string
      reads this
    {
      Render(top + main + bottom)
    }

    /** Verbatim(text, position): "top" inserts in front of the top texts,
        "bottom" appends to the bottom texts, anything else to the main
        texts; the text is returned. */
    method Verbatim(text: TextArg, position: Option<string>) returns (r: Result<string, HeaderError>)
      modifies this
      ensures r == FinalText(text)
      ensures r.Err? ==> top == old(top) && main == old(main) && bottom == old(bottom)
      ensures r.Ok? && position == Some("top") ==> top == [r.value] + old(top) && main == old(main) && bottom == old(bottom)
      ensures r.Ok? && position == Some("bottom") ==> top == old(top) && main == old(main) && bottom == old(bottom) + [r.value]
      ensures r.Ok? && position != Some("top") && position != Some("bottom") ==>
                top == old(top) && main == old(main) + [r.value] && bottom == old(bottom)
    {
      r := FinalText(text);
      if r.Err? {
        return;
      }
      if position == Some("top") {
        top := [r.value] + top;
      } else if position == Some("bottom") {
        bottom := bottom + [r.value];
      } else {
        main := main + [r.value];
      }
    }

    /** Comment(text, position, noinsert, nowrap). */
    method Comment(text: string, position: Option<string>, noinsert: bool, nowrap: bool, wrap: string -> seq<string>)
      returns (r: Result<string, HeaderError>)
      modifies this
      ensures r == CommentText(text, nowrap, wrap, fixed)
      ensures r.Err? || noinsert ==> top == old(top) && main == old(main) && bottom == old(bottom)
      ensures r.Ok? && !noinsert && position == Some("top") ==> top == [r.value] + old(top) && main == old(main) && bottom == old(bottom)
      ensures r.Ok? && !noinsert && position == Some("bottom") ==> top == old(top) && main == old(main) && bottom == old(bottom) + [r.value]
      ensures r.Ok? && !noinsert && position != Some("top") && position != Some("bottom") ==>
                top == old(top) && main == old(main) + [r.value] && bottom == old(bottom)
    {
      r := CommentText(text, nowrap, wrap, fixed);
      if r.Ok? && !noinsert {
        r := Verbatim(StrArg(r.value), position);
      }
    }

    /** Definition(name, value, comment, position, noinsert, nowrap,
        verbatim): an inserted definition always goes to the main texts. */
    method Definition(name: string, value: Option<string>, comment: string, position: Option<string>,
                      noinsert: bool, nowrap: bool, verbatim: bool, wrap: string -> seq<string>)
      returns (r: Result<string, HeaderError>)
      modifies this
      ensures r == DefinitionText(name, value, comment, nowrap, wrap, fixed)
      ensures top == old(top) && bottom == old(bottom)
      ensures main == if r.Ok? && !noinsert then old(main) + [r.value] else old(main)
    {
      r := DefinitionText(name, value, comment, nowrap, wrap, fixed);
      if r.Ok? && !noinsert {
        r := Verbatim(StrArg(r.value), None);
      }
    }
  }

  /** A text inserted at the top opens the header, one inserted at the
      bottom closes it. */
  lemma PlacedTextsFramed(top: seq<string>, main: seq<string>, bottom: seq<string>, t: string)
    ensures IsPrefix(t, Render([t] + top + main + bottom))
    ensures var r := Render(top + main + bottom + [t]); |t| + 1 <= |r| && r[|r| - |t| - 1..] == t + "\n"
  {
    RenderEnds([t] + top + main + bottom);
    var parts := top + main + bottom + [t];
    RenderEnds(parts);
    assert parts[|parts| - 1] == t;
  }
}
