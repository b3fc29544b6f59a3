/** The header tool of src/engine/SCons/Tool/header/__init__.py: the
    successor of Header.py. A HeaderFile is also a dictionary of
    definitions, rendered in sorted key order between the main and the
    bottom texts; values are formatted as C literals. The C syntax (names,
    comments, #define) is the one of module Header; textwrap.wrap is the
    parameter `wrap`. */
module HeaderTool {
  import opened Util
  import H = Header

  /** SCons.Errors.UserError and SCons.Errors.InternalError. */
  datatype ToolError = UserError(msg: string) | InternalError(msg: string)

  const InvalidIdentifier := UserError("Invalid identifier.")
  const InvalidComment := UserError("Invalid comment.")
  const NotAString := UserError("TODO/jph: Non-string text not supported yet.")
  const NoneLiteral := InternalError("Cannot format literal for None value.")

  /** _final_text: a string, or the final text of what a callable returns. */
  function FinalText(t: H.TextArg): (r: Result<string, ToolError>)
    ensures r.Err? ==> r == Err(NotAString)
  {
    match t
    case StrArg(s) => Ok(s)
    case CallArg(res) => FinalText(res)
    case OtherArg => Err(NotAString)
  }

  /** The tool accepts every text Header.py accepts, with the same result,
      and also callables that produce a string. */
  lemma FinalTextExtends(t: H.TextArg, s: string)
    ensures H.FinalText(t).Ok? ==> FinalText(t) == Ok(H.FinalText(t).value)
    ensures FinalText(H.CallArg(H.StrArg(s))) == Ok(s) && H.FinalText(H.CallArg(H.StrArg(s))).Err?
  {
  }

  // ---------------------------------------------------------------------
  // Literals

  /** A definition value: None, a string, an integer, a float (its str()
      and repr() are given), an object with a read method or a callable
      (with what reading or calling yields), or any other object (its
      str()). */
  datatype Value =
    | NoneValue
    | StrValue(s: string)
    | IntValue(i: int)
    | FloatValue(str: string, repr: string)
    | ReadValue(str: string, contents: Value)
    | CallValue(str: string, result: Value)
    | OtherValue(str: string)

  /** What a value stands for once read and called through. */
  function Inner(v: Value): Value
  {
    match v
    case ReadValue(_, c) => Inner(c)
    case CallValue(_, c) => Inner(c)
    case _ => v
  }

  /** CHeaderFile._quote_chars, applied to one character. */
  function EscapeChar(c: char): string
  {
    if c == '\\' then "\\\\"
    else if c == '"' then "\\\""
    else if c == '\U{0007}' then "\\a"
    else if c == '\U{0008}' then "\\b"
    else if c == '\U{000C}' then "\\f"
    else if c == '\n' then "\\n"
    else if c == '\r' then "\\r"
    else if c == '\t' then "\\t"
    else [c]
  }

  function Escape(s: string): string
  {
    if s == [] then [] else EscapeChar(s[0]) + Escape(s[1..])
  }

  /** format_string: the escaped characters between double quotes. */
  function FormatString(s: string): string
  {
    "\"" + Escape(s) + "\""
  }

  /** The meaning of a C simple escape sequence (section 6.4.4.4 of
      ISO/IEC 9899:1999) for the escapes format_string writes. */
  function Unescaped(e: char): char
  {
    if e == 'a' then '\U{0007}'
    else if e == 'b' then '\U{0008}'
    else if e == 'f' then '\U{000C}'
    else if e == 'n' then '\n'
    else if e == 'r' then '\r'
    else if e == 't' then '\t'
    else e
  }

  /** The characters a C compiler reads from the body of a string literal. */
  function Unescape(t: string): string
    decreases |t|
  {
    if t == [] then []
    else if t[0] == '\\' && |t| >= 2 then [Unescaped(t[1])] + Unescape(t[2..])
    else [t[0]] + Unescape(t[1..])
  }

  lemma UnescapeChar(c: char, rest: string)
    ensures Unescape(EscapeChar(c) + rest) == [c] + Unescape(rest)
  {
    var e := EscapeChar(c);
    if |e| == 2 {
      assert (e + rest)[2..] == rest;
    } else {
      assert (e + rest)[1..] == rest;
    }
  }

  /** The literal format_string writes reads back as the original string. */
  lemma {:induction false} EscapeRoundTrip(s: string)
    ensures Unescape(Escape(s)) == s
  {
    if s != [] {
      UnescapeChar(s[0], Escape(s[1..]));
      EscapeRoundTrip(s[1..]);
    }
  }

  /** The escaped text has no line break, and every double quote in it is
      escaped, so the literal is one token on one line. */
  lemma {:induction false} EscapeOneToken(s: string)
    ensures '\n' !in Escape(s) && '\r' !in Escape(s)
    ensures forall k :: 0 <= k < |Escape(s)| && Escape(s)[k] == '"' ==> k > 0 && Escape(s)[k - 1] == '\\'
  {
    if s != [] {
      EscapeOneToken(s[1..]);
      var e := EscapeChar(s[0]);
      var t := Escape(s[1..]);
      assert Escape(s) == e + t;
      forall k | 0 <= k < |e + t| && (e + t)[k] == '"' ensures k > 0 && (e + t)[k - 1] == '\\' {
        if k >= |e| {
          assert (e + t)[k] == t[k - |e|];
          if k - |e| > 0 {
            assert (e + t)[k - 1] == t[k - |e| - 1];
          }
        }
      }
    }
  }

  /** _format_literal. */
  function FormatLiteral(v: Value): (r: Result<string, ToolError>)
    ensures r.Err? <==> Inner(v).NoneValue?
    ensures r.Err? ==> r.error == NoneLiteral
    ensures Inner(v).StrValue? ==> r == Ok(FormatString(Inner(v).s))
    ensures Inner(v).IntValue? ==> r == Ok(IntToString(Inner(v).i))
  {
    match v
    case NoneValue => Err(NoneLiteral)
    case StrValue(s) => Ok(FormatString(s))
    case IntValue(i) => Ok(IntToString(i))
    case FloatValue(_, repr) => Ok(repr)
    case ReadValue(_, c) => FormatLiteral(c)
    case CallValue(_, c) => FormatLiteral(c)
    case OtherValue(str) => Ok(FormatString(str))
  }

  /** `"%s" % value`: the str() of a value. */
  function StrOf(v: Value): string
  {
    match v
    case NoneValue => "None"
    case StrValue(s) => s
    case IntValue(i) => IntToString(i)
    case FloatValue(str, _) => str
    case ReadValue(str, _) => str
    case CallValue(str, _) => str
    case OtherValue(str) => str
  }

  // ---------------------------------------------------------------------
  // Comments and definitions

  /** Comment(text, nowrap=...): the stripped text cut into lines (at
      newlines, or by textwrap), each line checked, then formatted. */
  function CommentText(text: H.TextArg, nowrap: bool, wrap: string -> seq<string>, fixed: bool): (r: Result<string, ToolError>)
    ensures FinalText(text).Err? ==> r == Err(NotAString)
    ensures FinalText(text).Ok? ==>
      var t := Strip(FinalText(text).value);
      var lines := if nowrap then SplitOn(t, '\n') else wrap(t);
      (r.Ok? <==> forall k :: 0 <= k < |lines| ==> H.CommentLineOk(lines[k], fixed))
      && (r.Ok? ==> r.value == H.FormatComment(lines))
      && (r.Err? ==> r.error == InvalidComment)
  {
    var t := FinalText(text);
    if t.Err? then Err(t.error)
    else
      var stripped := Strip(t.value);
      var lines := if nowrap then SplitOn(stripped, '\n') else wrap(stripped);
      if forall k :: 0 <= k < |lines| ==> H.CommentLineOk(lines[k], fixed) then Ok(H.FormatComment(lines))
      else Err(InvalidComment)
  }

  /** A comment argument is used when it is truthy: given and not empty. */
  predicate Truthy(comment: Option<string>)
  {
    comment.Some? && comment.value != []
  }

  /** The comment part of a definition: nothing for a falsy comment; a
      comment that fails check_comment_line as a whole raises UserError. */
  function CommentPart(comment: Option<string>, nowrap: bool, wrap: string -> seq<string>, fixed: bool): Result<string, ToolError>
  {
    if !Truthy(comment) then Ok("")
    else if !H.CommentLineOk(comment.value, fixed) then Err(InvalidComment)
    else CommentText(H.StrArg(comment.value), nowrap, wrap, fixed)
  }

  /** The line a definition ends with: the #undef comment for None, the
      value's str() when verbatim, its literal otherwise. */
  function LinePart(n: string, value: Value, verbatim: bool): Result<string, ToolError>
  {
    if value.NoneValue? then Ok(H.FormatUndefinition(n))
    else if verbatim then Ok(H.FormatDefinition(n, StrOf(value)))
    else if FormatLiteral(value).Err? then Err(FormatLiteral(value).error)
    else Ok(H.FormatDefinition(n, FormatLiteral(value).value))
  }

  /** Definition(name, value, comment, nowrap=..., noinsert=True,
      verbatim=...): the text of one definition. */
  function DefinitionText(name: H.TextArg, value: Value, comment: Option<string>, nowrap: bool, verbatim: bool,
                          wrap: string -> seq<string>, fixed: bool): (r: Result<string, ToolError>)
  {
    var n := FinalText(name);
    if n.Err? then Err(n.error)
    else if !H.NameOk(n.value, fixed) then Err(InvalidIdentifier)
    else
      var c := CommentPart(comment, nowrap, wrap, fixed);
      if c.Err? then Err(c.error)
      else
        var line := LinePart(n.value, value, verbatim);
        if line.Err? then Err(line.error) else Ok("\n" + c.value + line.value + "\n")
  }

  /** A name that is no text, a rejected name or a rejected comment
      raises UserError, in that order. */
  lemma DefinitionRejects(name: H.TextArg, value: Value, comment: Option<string>, nowrap: bool, verbatim: bool,
                          wrap: string -> seq<string>, fixed: bool)
    ensures var r := DefinitionText(name, value, comment, nowrap, verbatim, wrap, fixed);
      (FinalText(name).Err? ==> r == Err(NotAString))
      && (FinalText(name).Ok? && !H.NameOk(FinalText(name).value, fixed) ==> r == Err(InvalidIdentifier))
      && ((FinalText(name).Ok? && H.NameOk(FinalText(name).value, fixed) && Truthy(comment)
           && !H.CommentLineOk(comment.value, fixed)) ==> r == Err(InvalidComment))
  {
  }

  /** A value that is None once read and called raises InternalError,
      unless it is written verbatim, after the comment has been checked;
      None itself is an undefinition, after the comment's text. */
  lemma DefinitionNoneLiteral(name: H.TextArg, value: Value, comment: Option<string>, nowrap: bool, verbatim: bool,
                              wrap: string -> seq<string>, fixed: bool)
    requires FinalText(name).Ok? && H.NameOk(FinalText(name).value, fixed)
    requires CommentPart(comment, nowrap, wrap, fixed).Ok?
    ensures var r := DefinitionText(name, value, comment, nowrap, verbatim, wrap, fixed);
      (r == Err(NoneLiteral) <==> !value.NoneValue? && !verbatim && Inner(value).NoneValue?)
      && (value.NoneValue? ==>
            r == Ok("\n" + CommentPart(comment, nowrap, wrap, fixed).value + H.FormatUndefinition(FinalText(name).value) + "\n"))
  {
  }

  /** A definition is framed by newlines and ends with its #define or
      #undef line. */
  lemma DefinitionFramed(name: H.TextArg, value: Value, comment: Option<string>, nowrap: bool, verbatim: bool,
                         wrap: string -> seq<string>, fixed: bool)
    requires DefinitionText(name, value, comment, nowrap, verbatim, wrap, fixed).Ok?
    ensures FinalText(name).Ok? && H.NameOk(FinalText(name).value, fixed)
    ensures LinePart(FinalText(name).value, value, verbatim).Ok?
    ensures var r := DefinitionText(name, value, comment, nowrap, verbatim, wrap, fixed).value;
      var line := LinePart(FinalText(name).value, value, verbatim).value;
      |r| >= |line| + 2 && r[0] == '\n' && r[|r| - |line| - 1..] == line + "\n"
  {
    var r := DefinitionText(name, value, comment, nowrap, verbatim, wrap, fixed).value;
    var c := CommentPart(comment, nowrap, wrap, fixed).value;
    var line := LinePart(FinalText(name).value, value, verbatim).value;
    assert r == ("\n" + c) + (line + "\n");
  }

  /** _kwdefs for the given keys: each key's definition, with its
      description as comment, in the order of the keys. */
  function KwDefsOf(keys: seq<string>, defs: map<string, Value>, descriptions: map<string, string>,
                    wrap: string -> seq<string>, fixed: bool): (r: Result<seq<string>, ToolError>)
    requires forall k :: 0 <= k < |keys| ==> keys[k] in defs
    ensures r.Ok? <==> forall k :: 0 <= k < |keys| ==> KeyDefinition(keys[k], defs, descriptions, wrap, fixed).Ok?
    ensures r.Ok? ==> |r.value| == |keys|
    ensures r.Ok? ==> forall k :: 0 <= k < |keys| ==> r.value[k] == KeyDefinition(keys[k], defs, descriptions, wrap, fixed).value
  {
    if keys == [] then Ok([])
    else
      var d := KeyDefinition(keys[0], defs, descriptions, wrap, fixed);
      var rest := KwDefsOf(keys[1..], defs, descriptions, wrap, fixed);
      if d.Err? then Err(d.error)
      else if rest.Err? then Err(rest.error)
      else
        assert forall k :: 1 <= k < |keys| ==> keys[k] == keys[1..][k - 1];
        Ok([d.value] + rest.value)
  }

  function KeyDefinition(key: string, defs: map<string, Value>, descriptions: map<string, string>,
                         wrap: string -> seq<string>, fixed: bool): Result<string, ToolError>
    requires key in defs
  {
    var comment := if key in descriptions then Some(descriptions[key]) else None;
    DefinitionText(H.StrArg(key), defs[key], comment, false, false, wrap, fixed)
  }

  // ---------------------------------------------------------------------
  // HeaderFile

  class HeaderFile {
    var top: seq<string>
    var main: seq<string>
    var bottom: seq<string>
    var descriptions: map<string, string>
    var defs: map<string, Value>
    const fixed: bool

    /** HeaderFile(dict): the initial definitions are taken as given,
        without checking their names. */
    constructor (dict: map<string, Value>, fixed: bool)
      ensures top == [] && main == [] && bottom == [] && descriptions == map[] && defs == dict && this.fixed == fixed
    {
      top := [];
      main := [];
      bottom := [];
      descriptions := map[];
      defs := dict;
      this.fixed := fixed;
    }

    /** _kwdefs(): the definitions in ascending key order. */
    function KwDefs(wrap: string -> seq<string>): (r: Result<seq<string>, ToolError>)
      reads this
    {
      KwDefsOf(SortedKeys(defs), defs, descriptions, wrap, fixed)
    }

    /** Text(). */
    function Text(wrap: string -> seq<string>): (r: Result<string, ToolError>)
      reads this
    {
      var kw := KwDefs(wrap);
      if kw.Err? then Err(kw.error) else Ok(H.Render(top + main + kw.value + bottom))
    }

    /** __setitem__: a name that fails check_name raises UserError. */
    method SetItem(name: string, value: Value) returns (err: Option<ToolError>)
      modifies this
      ensures err.None? <==> H.NameOk(name, fixed)
      ensures err.Some? ==> err.value == InvalidIdentifier && defs == old(defs)
      ensures err.None? ==> defs == old(defs)[name := value]
      ensures top == old(top) && main == old(main) && bottom == old(bottom) && descriptions == old(descriptions)
    {
      if !H.NameOk(name, fixed) {
        return Some(InvalidIdentifier);
      }
      defs := defs[name := value];
      err := None;
    }

    /** Verbatim(text, position). */
    method Verbatim(text: H.TextArg, position: Option<string>) returns (r: Result<string, ToolError>)
      modifies this
      ensures r == FinalText(text)
      ensures descriptions == old(descriptions) && defs == old(defs)
      ensures r.Err? ==> top == old(top) && main == old(main) && bottom == old(bottom)
      ensures r.Ok? && position == Some("top") ==> top == [r.value] + old(top) && main == old(main) && bottom == old(bottom)
      ensures r.Ok? && position == Some("bottom") ==> top == old(top) && main == old(main) && bottom == old(bottom) + [r.value]
      ensures r.Ok? && position != Some("top") && position != Some("bottom") ==>
                top == old(top) && main == old(main) + [r.value] && bottom == old(bottom)
    {
      r := FinalText(text);
      if r.Err? {
        return;
      }
      if position == Some("top") {
        top := [r.value] + top;
      } else if position == Some("bottom") {
        bottom := bottom + [r.value];
      } else {
        main := main + [r.value];
      }
    }

    /** Comment(text, position, noinsert, nowrap). */
    method Comment(text: H.TextArg, position: Option<string>, noinsert: bool, nowrap: bool, wrap: string -> seq<string>)
      returns (r: Result<string, ToolError>)
      modifies this
      ensures r == CommentText(text, nowrap, wrap, fixed)
      ensures descriptions == old(descriptions) && defs == old(defs)
      ensures r.Err? || noinsert ==> top == old(top) && main == old(main) && bottom == old(bottom)
      ensures r.Ok? && !noinsert && position == Some("top") ==> top == [r.value] + old(top) && main == old(main) && bottom == old(bottom)
      ensures r.Ok? && !noinsert && position == Some("bottom") ==> top == old(top) && main == old(main) && bottom == old(bottom) + [r.value]
      ensures r.Ok? && !noinsert && position != Some("top") && position != Some("bottom") ==>
                top == old(top) && main == old(main) + [r.value] && bottom == old(bottom)
    {
      r := CommentText(text, nowrap, wrap, fixed);
      if r.Ok? && !noinsert {
        r := Verbatim(H.StrArg(r.value), position);
      }
    }

    /** Definition(name, value, comment, position, noinsert, nowrap,
        verbatim): an inserted definition always goes to the main texts. */
    method Definition(name: H.TextArg, value: Value, comment: Option<string>, position: Option<string>,
                      noinsert: bool, nowrap: bool, verbatim: bool, wrap: string -> seq<string>)
      returns (r: Result<string, ToolError>)
      modifies this
      ensures r == DefinitionText(name, value, comment, nowrap, verbatim, wrap, fixed)
      ensures top == old(top) && bottom == old(bottom) && descriptions == old(descriptions) && defs == old(defs)
      ensures main == if r.Ok? && !noinsert then old(main) + [r.value] else old(main)
    {
      r := DefinitionText(name, value, comment, nowrap, verbatim, wrap, fixed);
      if r.Ok? && !noinsert {
        r := Verbatim(H.StrArg(r.value), None);
      }
    }

    /** Template(name, comment, value, nodef): the description is always
        recorded; the value only when nodef is false and the name has no
        definition yet. */
    method Template(name: H.TextArg, comment: H.TextArg, value: Value, nodef: bool) returns (err: Option<ToolError>)
      modifies this
      ensures FinalText(name).Err? ==> err == Some(NotAString)
      ensures FinalText(name).Ok? && FinalText(comment).Err? ==> err == Some(NotAString)
      ensures FinalText(name).Ok? && FinalText(comment).Ok? && !H.NameOk(FinalText(name).value, fixed) ==> err == Some(InvalidIdentifier)
      ensures err.Some? ==> descriptions == old(descriptions) && defs == old(defs)
      ensures err.None? ==>
        var n := FinalText(name).value;
        FinalText(comment).Ok? && H.NameOk(n, fixed)
        && descriptions == old(descriptions)[n := FinalText(comment).value]
        && defs == if !nodef && n !in old(defs) then old(defs)[n := value] else old(defs)
      ensures top == old(top) && main == old(main) && bottom == old(bottom)
    {
      var n := FinalText(name);
      if n.Err? {
        return Some(n.error);
      }
      var c := FinalText(comment);
      if c.Err? {
        return Some(c.error);
      }
      if !H.NameOk(n.value, fixed) {
        return Some(InvalidIdentifier);
      }
      descriptions := descriptions[n.value := c.value];
      err := None;
      if !nodef && n.value !in defs {
        err := SetItem(n.value, value);
      }
    }
  }

  /** The definitions appear in ascending key order, each exactly once,
      between the main and the bottom texts. */
  lemma TextLayout(top: seq<string>, main: seq<string>, bottom: seq<string>, defs: map<string, Value>,
                   descriptions: map<string, string>, wrap: string -> seq<string>, fixed: bool)
    requires KwDefsOf(SortedKeys(defs), defs, descriptions, wrap, fixed).Ok?
    ensures var keys := SortedKeys(defs);
      var kw := KwDefsOf(keys, defs, descriptions, wrap, fixed).value;
      |kw| == |defs| && SortedStrings(keys)
      && (forall i :: 0 <= i < |keys| ==> kw[i] == KeyDefinition(keys[i], defs, descriptions, wrap, fixed).value)
      && (top + main + kw + bottom)[|top| + |main|..|top| + |main| + |kw|] == kw
  {
    var keys := SortedKeys(defs);
    SortedKeysCount(defs);
  }
}
