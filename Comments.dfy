/** The comment strippers of src/engine/SCons/Comments.py, on the contents
    of the file (a file that cannot be opened reads as the empty string).

    Every stripper is a `while i < len_max` loop over the text that toggles
    quote flags on unescaped quote characters and either skips, collects or
    copies characters. Each loop is a method proved equal to a recursive
    function that takes one pass of the loop per call, from position `i`
    with the current quote flags. Looking at `txt[i+1]` past the end raises
    IndexError in the source; here it is `Err(IndexError)`. */
module Comments {
  import opened Util

  /** The exception a stripper can raise. */
  datatype Raised = IndexError

  /** The Stripper verdicts SIGS_WHOLE, SIGS_EQUAL and SIGS_DIFFER. */
  datatype Sigs = SigsWhole | SigsEqual | SigsDiffer

  function SigsCode(v: Sigs): (n: int)
    ensures 1 <= n <= 3
  {
    match v
    case SigsWhole => 1
    case SigsEqual => 2
    case SigsDiffer => 3
  }

  predicate IsBlank(c: char)
  {
    c == ' ' || c == '\n'
  }

  /** The character, unless it is a space or a newline. */
  function KeepChar(c: char): string
  {
    if IsBlank(c) then [] else [c]
  }

  /** The characters of s that are not spaces or newlines, in order. */
  function NonBlank(s: string): (r: string)
    ensures |r| <= |s|
  {
    if s == [] then [] else KeepChar(s[0]) + NonBlank(s[1..])
  }

  lemma {:induction false} NonBlankHasNoBlank(s: string)
    ensures forall k :: 0 <= k < |NonBlank(s)| ==> !IsBlank(NonBlank(s)[k])
  {
    if s != [] {
      NonBlankHasNoBlank(s[1..]);
    }
  }

  lemma {:induction false} NonBlankSnoc(s: string, c: char)
    ensures NonBlank(s + [c]) == NonBlank(s) + KeepChar(c)
  {
    if s == [] {
      assert [c][1..] == [];
    } else {
      assert (s + [c])[1..] == s[1..] + [c];
      NonBlankSnoc(s[1..], c);
    }
  }

  lemma {:induction false} NonBlankAppend(a: string, b: string)
    ensures NonBlank(a + b) == NonBlank(a) + NonBlank(b)
  {
    if a == [] {
      assert a + b == b;
    } else {
      assert (a + b)[0] == a[0] && (a + b)[1..] == a[1..] + b;
      NonBlankAppend(a[1..], b);
    }
  }

  /** A result with text in front of it; an exception stays as it is. */
  function Prepend(pre: string, r: Result<string, Raised>): Result<string, Raised>
  {
    if r.Ok? then Ok(pre + r.value) else r
  }

  // ---------------------------------------------------------------------
  // count_metachars

  /** The backslashes count_metachars counts before position i: the run of
      backslashes ending just before i, scanned backwards while the index is
      positive, so a backslash at index 0 is never counted. */
  function EscapeRun(txt: string, i: int): nat
    requires i <= |txt|
    decreases i
  {
    if i - 1 > 0 && txt[i - 1] == '\\' then 1 + EscapeRun(txt, i - 1) else 0
  }

  /** A quote at i is a real quote: the backslashes before it pair up. */
  predicate Unescaped(txt: string, i: int)
    requires i <= |txt|
  {
    EscapeRun(txt, i) % 2 == 0
  }

  /** EscapeRun is the whole run: the n characters before i are
      backslashes, none of them at index 0, and the character before the
      run is not one unless it sits at index 0. */
  lemma {:induction false} EscapeRunIsMaximal(txt: string, i: int)
    requires 0 <= i <= |txt|
    ensures var n := EscapeRun(txt, i);
      n <= i && (n > 0 ==> i - n >= 1) &&
      (forall k :: i - n <= k < i ==> txt[k] == '\\') &&
      (i - n - 1 > 0 ==> txt[i - n - 1] != '\\')
    decreases i
  {
    if i - 1 > 0 && txt[i - 1] == '\\' {
      EscapeRunIsMaximal(txt, i - 1);
    }
  }

  /** The character at index 0 is never looked at: a quote at index 1 after
      a backslash at index 0 counts as a real quote. */
  lemma {:induction false} IndexZeroIgnored(txt: string)
    requires |txt| >= 2
    ensures Unescaped(txt, 1)
  {
  }

  /** count_metachars(txt, i). */
  method CountMetachars(txt: string, i: int) returns (r: bool)
    requires i <= |txt|
    ensures r == Unescaped(txt, i)
  {
    var metas := 0;
    var j := i - 1;
    while j > 0
      invariant j < i
      invariant metas + EscapeRun(txt, j + 1) == EscapeRun(txt, i)
      decreases j
    {
      if txt[j] == '\\' {
        metas := metas + 1;
      } else {
        break;
      }
      j := j - 1;
    }
    r := metas % 2 == 0;
  }

  // ---------------------------------------------------------------------
  // The inner loops

  /** Where `while i < len_max and txt[i] != '\n': i += 1` stops. */
  function LineEnd(txt: string, i: nat): (j: nat)
    requires i <= |txt|
    ensures i <= j <= |txt| && (j == |txt| || txt[j] == '\n')
    decreases |txt| - i
  {
    if i == |txt| || txt[i] == '\n' then i else LineEnd(txt, i + 1)
  }

  /** What the collecting version of that loop appends. */
  function LineText(txt: string, i: nat): string
    requires i <= |txt|
  {
    NonBlank(txt[i..LineEnd(txt, i)])
  }

  /** Where `while i+1 < len_max: if txt[i] == a and txt[i+1] == b: ... break;
      i += 1` stops: at the first pair a b from i, or at the last character. */
  function PairAt(txt: string, i: nat, a: char, b: char): (j: nat)
    requires i < |txt|
    ensures i <= j < |txt|
    ensures j + 1 < |txt| ==> txt[j] == a && txt[j + 1] == b
    ensures j + 1 >= |txt| ==> j == |txt| - 1
    decreases |txt| - i
  {
    if i + 1 >= |txt| || (txt[i] == a && txt[i + 1] == b) then i else PairAt(txt, i + 1, a, b)
  }

  /** Where `while i < len_max: if txt[i] == '+' and txt[i+1] == '/': ... break;
      i += 1` stops, at the `+` of the first `+/` or at the end; a `+` as
      the last character raises. */
  function NestEnd(txt: string, i: nat): (r: Result<nat, Raised>)
    requires i <= |txt|
    ensures r.Ok? ==> i <= r.value <= |txt|
    ensures r.Ok? && r.value < |txt| ==> r.value + 1 < |txt| && txt[r.value] == '+' && txt[r.value + 1] == '/'
    ensures r.Err? ==> |txt| > 0 && txt[|txt| - 1] == '+'
    decreases |txt| - i
  {
    if i == |txt| then Ok(i)
    else if txt[i] == '+' && i + 1 == |txt| then Err(IndexError)
    else if txt[i] == '+' && txt[i + 1] == '/' then Ok(i)
    else NestEnd(txt, i + 1)
  }

  // ---------------------------------------------------------------------
  // Code and Comments: `comment_char` to the end of the line

  datatype Quotes = Quotes(single: bool, double: bool)

  predicate Quoted(q: Quotes)
  {
    q.single || q.double
  }

  /** An unescaped single quote toggles the single flag, an unescaped
      double quote the double flag. */
  function Toggle(txt: string, i: nat, q: Quotes): Quotes
    requires i < |txt|
  {
    if txt[i] == '\'' && Unescaped(txt, i) then q.(single := !q.single)
    else if txt[i] == '"' && Unescaped(txt, i) then q.(double := !q.double)
    else q
  }

  /** Code(filename, comment_char) from position i: the non-blank characters
      of every unquoted comment. */
  function CodeFrom(txt: string, c: char, i: nat, q: Quotes): string
    decreases |txt| - i
  {
    if i >= |txt| then ""
    else
      var q' := Toggle(txt, i, q);
      if txt[i] == c && !Quoted(q') then LineText(txt, i) + CodeFrom(txt, c, LineEnd(txt, i) + 1, q')
      else CodeFrom(txt, c, i + 1, q')
  }

  /** Comments(filename, comment_char) from position i: the non-blank
      characters outside unquoted comments. */
  function CommentsFrom(txt: string, c: char, i: nat, q: Quotes): string
    decreases |txt| - i
  {
    if i >= |txt| then ""
    else
      var q' := Toggle(txt, i, q);
      if txt[i] == c && !Quoted(q') then CommentsFrom(txt, c, LineEnd(txt, i) + 1, q')
      else KeepChar(txt[i]) + CommentsFrom(txt, c, i + 1, q')
  }

  /** The text from position i on; nothing once i is past the end. */
  function From(txt: string, i: nat): string
  {
    if i >= |txt| then [] else txt[i..]
  }

  /** Code and Comments split the text between them: every character that
      is not a space or a newline goes to exactly one of them, and each
      keeps the order of the text. */
  lemma {:induction false} CodeCommentsSplit(txt: string, c: char, i: nat, q: Quotes)
    ensures Split(txt, c, i, q)
    decreases |txt| - i
  {
    if i < |txt| {
      var q' := Toggle(txt, i, q);
      if txt[i] == c && !Quoted(q') {
        CodeCommentsSplit(txt, c, LineEnd(txt, i) + 1, q');
        SplitAtComment(txt, c, i, q);
      } else {
        CodeCommentsSplit(txt, c, i + 1, q');
        SplitAtChar(txt, c, i, q);
      }
    }
  }

  predicate Split(txt: string, c: char, i: nat, q: Quotes)
  {
    Interleaving(CodeFrom(txt, c, i, q), CommentsFrom(txt, c, i, q), NonBlank(From(txt, i)))
  }

  lemma {:induction false} SplitAtComment(txt: string, c: char, i: nat, q: Quotes)
    requires i < |txt| && txt[i] == c && !Quoted(Toggle(txt, i, q))
    requires Split(txt, c, LineEnd(txt, i) + 1, Toggle(txt, i, q))
    ensures Split(txt, c, i, q)
  {
    AtComment(txt, c, i, q);
    SplitJoin(txt, c, i, q);
  }

  /** At an unquoted comment character both Code and Comments jump past the
      line, Code taking the line's text with it. */
  predicate TakesLine(txt: string, c: char, i: nat, q: Quotes)
    requires i < |txt|
  {
    var k, q' := LineEnd(txt, i) + 1, Toggle(txt, i, q);
    && CodeFrom(txt, c, i, q) == LineText(txt, i) + CodeFrom(txt, c, k, q')
    && CommentsFrom(txt, c, i, q) == CommentsFrom(txt, c, k, q')
    && NonBlank(From(txt, i)) == LineText(txt, i) + NonBlank(From(txt, k))
  }

  lemma {:induction false} SplitJoin(txt: string, c: char, i: nat, q: Quotes)
    requires i < |txt| && TakesLine(txt, c, i, q)
    requires Split(txt, c, LineEnd(txt, i) + 1, Toggle(txt, i, q))
    ensures Split(txt, c, i, q)
  {
    var k, q' := LineEnd(txt, i) + 1, Toggle(txt, i, q);
    InterleavingPrefixLeft(LineText(txt, i), CodeFrom(txt, c, k, q'), CommentsFrom(txt, c, k, q'), NonBlank(From(txt, k)));
  }

  lemma {:induction false} SplitAtChar(txt: string, c: char, i: nat, q: Quotes)
    requires i < |txt| && !(txt[i] == c && !Quoted(Toggle(txt, i, q)))
    requires Split(txt, c, i + 1, Toggle(txt, i, q))
    ensures Split(txt, c, i, q)
  {
    var q' := Toggle(txt, i, q);
    AtChar(txt, c, i, q);
    InterleavingPrefixRight(KeepChar(txt[i]), CodeFrom(txt, c, i + 1, q'), CommentsFrom(txt, c, i + 1, q'), NonBlank(From(txt, i + 1)));
  }

  lemma {:induction false} AtComment(txt: string, c: char, i: nat, q: Quotes)
    requires i < |txt| && txt[i] == c && !Quoted(Toggle(txt, i, q))
    ensures TakesLine(txt, c, i, q)
  {
    CodeTakesLine(txt, c, i, q);
    CommentsSkipLine(txt, c, i, q);
    LineThenRest(txt, i);
  }

  /** Elsewhere Code moves on and Comments keeps the character. */
  lemma {:induction false} AtChar(txt: string, c: char, i: nat, q: Quotes)
    requires i < |txt| && !(txt[i] == c && !Quoted(Toggle(txt, i, q)))
    ensures CodeFrom(txt, c, i, q) == CodeFrom(txt, c, i + 1, Toggle(txt, i, q))
    ensures CommentsFrom(txt, c, i, q) == KeepChar(txt[i]) + CommentsFrom(txt, c, i + 1, Toggle(txt, i, q))
    ensures NonBlank(From(txt, i)) == KeepChar(txt[i]) + NonBlank(From(txt, i + 1))
  {
    NonBlankFrom(txt, i);
  }

  lemma {:induction false} NonBlankFrom(txt: string, i: nat)
    requires i < |txt|
    ensures NonBlank(From(txt, i)) == KeepChar(txt[i]) + NonBlank(From(txt, i + 1))
  {
    assert From(txt, i)[0] == txt[i];
    assert From(txt, i)[1..] == From(txt, i + 1);
  }

  /** The text from i is the line up to its end, then what follows the
      newline; the newline itself is blank. */
  lemma {:induction false} LineThenRest(txt: string, i: nat)
    requires i <= |txt|
    ensures NonBlank(From(txt, i)) == LineText(txt, i) + NonBlank(From(txt, LineEnd(txt, i) + 1))
  {
    var e := LineEnd(txt, i);
    FromSplit(txt, i, e);
    NonBlankAppend(txt[i..e], From(txt, e));
    NewlineSkipped(txt, e);
  }

  /** The newline that ends a line is blank. */
  lemma {:induction false} NewlineSkipped(txt: string, e: nat)
    requires e <= |txt| && (e == |txt| || txt[e] == '\n')
    ensures NonBlank(From(txt, e)) == NonBlank(From(txt, e + 1))
  {
    if e < |txt| {
      NonBlankFrom(txt, e);
    }
  }

  /** Code: nothing comes out of a text without the comment character. */
  lemma {:induction false} CodeWithoutCommentChar(txt: string, c: char, i: nat, q: Quotes)
    requires c !in txt
    ensures CodeFrom(txt, c, i, q) == ""
    decreases |txt| - i
  {
    if i < |txt| {
      CodeWithoutCommentChar(txt, c, i + 1, Toggle(txt, i, q));
    }
  }

  /** Comments never emits a space or a newline, and keeps a text without
      the comment character whole apart from those. */
  lemma {:induction false} CommentsWithoutCommentChar(txt: string, c: char, i: nat, q: Quotes)
    requires c !in txt
    ensures CommentsFrom(txt, c, i, q) == NonBlank(From(txt, i))
    decreases |txt| - i
  {
    if i < |txt| {
      assert txt[i..] == [txt[i]] + txt[i + 1..];
      assert From(txt, i + 1) == txt[i + 1..];
      CommentsWithoutCommentChar(txt, c, i + 1, Toggle(txt, i, q));
    }
  }

  lemma {:induction false} CommentsNoBlank(txt: string, c: char, i: nat, q: Quotes)
    ensures forall k :: 0 <= k < |CommentsFrom(txt, c, i, q)| ==> !IsBlank(CommentsFrom(txt, c, i, q)[k])
    decreases |txt| - i
  {
    if i < |txt| {
      var q' := Toggle(txt, i, q);
      if txt[i] == c && !Quoted(q') {
        CommentsNoBlank(txt, c, LineEnd(txt, i) + 1, q');
      } else {
        CommentsNoBlank(txt, c, i + 1, q');
      }
    }
  }

  /** The quote test at the top of the loop in Code and Comments. */
  method ToggleQuotes(txt: string, i: nat, q: Quotes) returns (r: Quotes)
    requires i < |txt|
    ensures r == Toggle(txt, i, q)
  {
    r := q;
    if txt[i] == '\'' || txt[i] == '"' {
      var unescaped := CountMetachars(txt, i);
      if unescaped && txt[i] == '\'' {
        r := q.(single := !q.single);
      } else if unescaped {
        r := q.(double := !q.double);
      }
    }
  }

  /** `while i < len_max and txt[i] != '\n': i += 1`. */
  method SkipLine(txt: string, i0: nat) returns (i: nat)
    requires i0 <= |txt|
    ensures i == LineEnd(txt, i0)
  {
    i := i0;
    while i < |txt| && txt[i] != '\n'
      invariant i0 <= i <= |txt| && LineEnd(txt, i) == LineEnd(txt, i0)
      decreases |txt| - i
    {
      i := i + 1;
    }
  }

  /** The same loop appending every character that is not a space or a
      newline. */
  method CollectLine(txt: string, i0: nat) returns (i: nat, text: string)
    requires i0 <= |txt|
    ensures i == LineEnd(txt, i0) && text == LineText(txt, i0)
  {
    i := i0;
    text := "";
    while i < |txt| && txt[i] != '\n'
      invariant i0 <= i <= |txt| && LineEnd(txt, i) == LineEnd(txt, i0)
      invariant Collected(txt, i0, i, text)
      decreases |txt| - i
    {
      CollectOne(txt, i0, i, text);
      if !IsBlank(txt[i]) {
        text := text + [txt[i]];
      }
      i := i + 1;
    }
  }

  /** Code(filename, comment_char) on the file's contents. */
  method Code(txt: string, c: char) returns (r: string)
    ensures r == CodeFrom(txt, c, 0, Quotes(false, false))
  {
    var i: nat := 0;
    var buf := "";
    var q := Quotes(false, false);
    while i < |txt|
      invariant buf + CodeFrom(txt, c, i, q) == CodeFrom(txt, c, 0, Quotes(false, false))
      decreases |txt| - i
    {
      i, q, buf := CodeStep(txt, c, i, q, buf);
    }
    r := buf;
  }

  /** One pass of the loop of Code: the quote test, then the comment
      collected to the end of its line, then `i += 1`. */
  method CodeStep(txt: string, c: char, i: nat, q: Quotes, buf: string) returns (next: nat, q': Quotes, buf': string)
    requires i < |txt|
    ensures i < next
    ensures buf' + CodeFrom(txt, c, next, q') == buf + CodeFrom(txt, c, i, q)
  {
    q' := ToggleQuotes(txt, i, q);
    if txt[i] == c && !(q'.single || q'.double) {
      CodeTakesLine(txt, c, i, q);
      var comment;
      next, comment := CollectLine(txt, i);
      Shift(buf, comment, CodeFrom(txt, c, next + 1, q'), buf + CodeFrom(txt, c, i, q));
      next, buf' := next + 1, buf + comment;
    } else {
      CodeSkipsChar(txt, c, i, q);
      next, buf' := i + 1, buf;
    }
  }

  /** Comments(filename, comment_char) on the file's contents. */
  method StripComments(txt: string, c: char) returns (r: string)
    ensures r == CommentsFrom(txt, c, 0, Quotes(false, false))
  {
    var i: nat := 0;
    var buf := "";
    var q := Quotes(false, false);
    while i < |txt|
      invariant buf + CommentsFrom(txt, c, i, q) == CommentsFrom(txt, c, 0, Quotes(false, false))
      decreases |txt| - i
    {
      i, q, buf := StripStep(txt, c, i, q, buf);
    }
    r := buf;
  }

  /** One pass of the loop of Comments: the quote test, then the comment
      skipped to the end of its line or the character kept, then `i += 1`. */
  method StripStep(txt: string, c: char, i: nat, q: Quotes, buf: string) returns (next: nat, q': Quotes, buf': string)
    requires i < |txt|
    ensures i < next
    ensures buf' + CommentsFrom(txt, c, next, q') == buf + CommentsFrom(txt, c, i, q)
  {
    q' := ToggleQuotes(txt, i, q);
    if txt[i] == c && !(q'.single || q'.double) {
      CommentsSkipLine(txt, c, i, q);
      next := SkipLine(txt, i);
      next, buf' := next + 1, buf;
    } else {
      CommentsKeepChar(txt, c, i, q);
      Shift(buf, KeepChar(txt[i]), CommentsFrom(txt, c, i + 1, q'), buf + CommentsFrom(txt, c, i, q));
      if !(txt[i] == ' ' || txt[i] == '\n') {
        buf' := buf + [txt[i]];
      } else {
        EmptyRight(buf);
        buf' := buf;
      }
      next := i + 1;
    }
  }

  lemma {:induction false} CodeTakesLine(txt: string, c: char, i: nat, q: Quotes)
    requires i < |txt| && txt[i] == c && !Quoted(Toggle(txt, i, q))
    ensures CodeFrom(txt, c, i, q) == LineText(txt, i) + CodeFrom(txt, c, LineEnd(txt, i) + 1, Toggle(txt, i, q))
  {
  }

  lemma {:induction false} CodeSkipsChar(txt: string, c: char, i: nat, q: Quotes)
    requires i < |txt| && !(txt[i] == c && !Quoted(Toggle(txt, i, q)))
    ensures CodeFrom(txt, c, i, q) == CodeFrom(txt, c, i + 1, Toggle(txt, i, q))
  {
  }

  lemma {:induction false} CommentsSkipLine(txt: string, c: char, i: nat, q: Quotes)
    requires i < |txt| && txt[i] == c && !Quoted(Toggle(txt, i, q))
    ensures CommentsFrom(txt, c, i, q) == CommentsFrom(txt, c, LineEnd(txt, i) + 1, Toggle(txt, i, q))
  {
  }

  lemma {:induction false} CommentsKeepChar(txt: string, c: char, i: nat, q: Quotes)
    requires i < |txt| && !(txt[i] == c && !Quoted(Toggle(txt, i, q)))
    ensures CommentsFrom(txt, c, i, q) == KeepChar(txt[i]) + CommentsFrom(txt, c, i + 1, Toggle(txt, i, q))
  {
  }

  /** Moving what is appended from the rest of the output onto the buffer. */
  lemma {:induction false} Shift(buf: string, kept: string, rest: string, whole: string)
    requires buf + (kept + rest) == whole
    ensures (buf + kept) + rest == whole
  {
    assert (buf + kept) + rest == buf + (kept + rest);
  }

  lemma {:induction false} EmptyRight(s: string)
    ensures s + [] == s
  {
  }

  /** Code keeps nothing but non-blank characters of the text, in order. */
  lemma {:induction false} NonBlankSubseq(s: string)
    ensures Subseq(NonBlank(s), s)
  {
    if s != [] {
      NonBlankSubseq(s[1..]);
      if IsBlank(s[0]) {
        assert NonBlank(s) == NonBlank(s[1..]);
      } else {
        assert NonBlank(s)[0] == s[0] && NonBlank(s)[1..] == NonBlank(s[1..]);
      }
    }
  }

  /** Skipping forward in the text keeps a subsequence a subsequence. */
  lemma {:induction false} SubseqFrom(r: string, txt: string, i: nat, k: nat)
    requires i <= k && Subseq(r, From(txt, k))
    ensures Subseq(r, From(txt, i))
    decreases k - i
  {
    if i < k {
      SubseqFrom(r, txt, i + 1, k);
      if i < |txt| && r != [] {
        assert From(txt, i)[1..] == From(txt, i + 1);
      }
    }
  }

  /** The text from i splits at any later position e. */
  lemma {:induction false} FromSplit(txt: string, i: nat, e: nat)
    requires i <= e <= |txt|
    ensures From(txt, i) == txt[i..e] + From(txt, e)
  {
    if e == |txt| {
      assert From(txt, i) == txt[i..e];
    }
  }

  // ---------------------------------------------------------------------
  // CCode, CComments, DCode, DComments: `//`, `/* */` and, in D, `/+ +/`

  /** Which language a stripper reads: D adds `/+ +/` comments. `fixed`
      selects the corrected resumption after a closing delimiter (see
      CodeRaisesOnClosingSlash and NestDropsNextChar); the source's
      functions are C and D. */
  datatype Dialect = Dialect(nests: bool, fixed: bool)

  const C := Dialect(false, false)
  const D := Dialect(true, false)

  /** An unescaped double quote toggles the quote flag. */
  function QuoteAt(txt: string, i: nat, quot: bool): bool
    requires i < |txt|
  {
    if txt[i] == '"' && Unescaped(txt, i) then !quot else quot
  }

  datatype Opener = NoComment | LineComment | BlockComment | NestComment

  /** The comment opened at i. The test `txt[i] == '/' and txt[i+1] == ...`
      looks past the end when a `/` is the last character, whether quoted or
      not: that raises. */
  function OpenerAt(txt: string, i: nat, quot: bool, nests: bool): (r: Result<Opener, Raised>)
    requires i < |txt|
    ensures r.Err? <==> txt[i] == '/' && i + 1 == |txt|
    ensures r.Ok? && r.value != NoComment ==> txt[i] == '/' && i + 1 < |txt| && !quot
    ensures r == Ok(NestComment) ==> nests && txt[i + 1] == '+'
  {
    if txt[i] != '/' then Ok(NoComment)
    else if i + 1 == |txt| then Err(IndexError)
    else if quot then Ok(NoComment)
    else if txt[i + 1] == '/' then Ok(LineComment)
    else if txt[i + 1] == '*' then Ok(BlockComment)
    else if nests && txt[i + 1] == '+' then Ok(NestComment)
    else Ok(NoComment)
  }

  // Where a stripper of comments resumes after a block comment: the
  // character after its closing star-slash pair, or the end when the
  // comment never closes.
  function BlockResume(txt: string, i: nat): (k: nat)
    requires i < |txt|
    ensures i < k <= |txt|
  {
    var j := PairAt(txt, i, '*', '/');
    if j + 1 < |txt| then j + 2 else j + 1
  }

  /** Where a stripper of comments resumes after the `/+ +/` comment whose
      closing `+` is at j (j is the end when it never closes). As written,
      `i += 2` and the outer `i += 1` step over the character after `+/`. */
  function NestResume(txt: string, j: nat, dl: Dialect): nat
  {
    if j < |txt| && !dl.fixed then j + 3 else if j < |txt| then j + 2 else j + 1
  }

  /** CComments (dl == C) and DComments (dl == D) from position i: the text
      with unquoted comments removed, and spaces and newlines removed
      outside quotes. */
  function CCommentsFrom(txt: string, i: nat, quot: bool, dl: Dialect): Result<string, Raised>
    decreases |txt| - i
  {
    if i >= |txt| then Ok("")
    else
      var q := QuoteAt(txt, i, quot);
      match OpenerAt(txt, i, q, dl.nests)
      case Err(e) => Err(e)
      case Ok(LineComment) => CCommentsFrom(txt, LineEnd(txt, i) + 1, q, dl)
      case Ok(BlockComment) => CCommentsFrom(txt, BlockResume(txt, i), q, dl)
      case Ok(NestComment) =>
        (match NestEnd(txt, i)
         case Err(e) => Err(e)
         case Ok(j) => CCommentsFrom(txt, NestResume(txt, j, dl), q, dl))
      case Ok(NoComment) =>
        Prepend(if q || !IsBlank(txt[i]) then [txt[i]] else [], CCommentsFrom(txt, i + 1, q, dl))
  }

  // What the block-comment loop of a collector of comments appends: the
  // non-blank characters up to the closing star-slash pair, then the pair;
  // without a closing pair the last character of the text is not appended.
  function BlockText(txt: string, i: nat): string
    requires i < |txt|
  {
    var j := PairAt(txt, i, '*', '/');
    NonBlank(txt[i..j]) + (if j + 1 < |txt| then "*/" else "")
  }

  /** The same for a nested comment closing at j (j is the end when it never closes). */
  function NestText(txt: string, i: nat, j: nat): string
    requires i <= j <= |txt|
  {
    NonBlank(txt[i..j]) + (if j < |txt| then "+/" else "")
  }

  /** Where a collector of comments resumes after a comment whose closing
      pair starts at j. As written it resumes at the pair's second
      character, the closing `/`, and looks at it again. */
  function CloseResume(txt: string, j: nat, dl: Dialect): nat
  {
    if j + 1 < |txt| && dl.fixed then j + 2 else j + 1
  }

  /** CCode (dl == C) and DCode (dl == D) from position i: the non-blank
      characters of every unquoted comment, delimiters included. */
  function CCodeFrom(txt: string, i: nat, quot: bool, dl: Dialect): Result<string, Raised>
    decreases |txt| - i
  {
    if i >= |txt| then Ok("")
    else
      var q := QuoteAt(txt, i, quot);
      match OpenerAt(txt, i, q, dl.nests)
      case Err(e) => Err(e)
      case Ok(LineComment) => Prepend(LineText(txt, i), CCodeFrom(txt, LineEnd(txt, i) + 1, q, dl))
      case Ok(BlockComment) =>
        Prepend(BlockText(txt, i), CCodeFrom(txt, CloseResume(txt, PairAt(txt, i, '*', '/'), dl), q, dl))
      case Ok(NestComment) =>
        (match NestEnd(txt, i)
         case Err(e) => Err(e)
         case Ok(j) => Prepend(NestText(txt, i, j), CCodeFrom(txt, CloseResume(txt, j, dl), q, dl)))
      case Ok(NoComment) => CCodeFrom(txt, i + 1, q, dl)
  }

  // ---------------------------------------------------------------------
  // The C and D strippers as loops

  /** Text in front of text in front of a result. */
  lemma {:induction false} PrependShift(buf: string, kept: string, r: Result<string, Raised>)
    ensures Prepend(buf, Prepend(kept, r)) == Prepend(buf + kept, r)
  {
    if r.Ok? {
      assert buf + (kept + r.value) == (buf + kept) + r.value;
    }
  }

  lemma {:induction false} PrependNothing(r: Result<string, Raised>)
    ensures Prepend("", r) == r
  {
    if r.Ok? {
      assert "" + r.value == r.value;
    }
  }

  /** The quote test at the top of the loop of the C and D strippers. */
  method ToggleQuote(txt: string, i: nat, quot: bool) returns (r: bool)
    requires i < |txt|
    ensures r == QuoteAt(txt, i, quot)
  {
    r := quot;
    if txt[i] == '"' {
      var unescaped := CountMetachars(txt, i);
      if unescaped {
        r := !quot;
      }
    }
  }

  /** `while i+1 < len_max: if txt[i] == a and txt[i+1] == b: break; i += 1`. */
  method FindPair(txt: string, i0: nat, a: char, b: char) returns (j: nat)
    requires i0 < |txt|
    ensures j == PairAt(txt, i0, a, b)
  {
    j := i0;
    while j + 1 < |txt|
      invariant i0 <= j < |txt| && PairAt(txt, j, a, b) == PairAt(txt, i0, a, b)
      decreases |txt| - j
    {
      if txt[j] == a && txt[j + 1] == b {
        break;
      }
      j := j + 1;
    }
  }

  /** The collecting loops have gathered the non-blank characters of txt[i0..j]. */
  predicate Collected(txt: string, i0: nat, j: nat, text: string)
    requires i0 <= j <= |txt|
  {
    text == NonBlank(txt[i0..j])
  }

  /** One more character of the text through the collecting loops. */
  lemma {:induction false} CollectOne(txt: string, i0: nat, j: nat, text: string)
    requires i0 <= j < |txt| && Collected(txt, i0, j, text)
    ensures IsBlank(txt[j]) ==> Collected(txt, i0, j + 1, text)
    ensures !IsBlank(txt[j]) ==> Collected(txt, i0, j + 1, text + [txt[j]])
  {
    assert txt[i0..j + 1] == txt[i0..j] + [txt[j]];
    NonBlankSnoc(txt[i0..j], txt[j]);
  }

  /** The block-comment loop of CCode and DCode: it appends the non-blank
      characters and, when it finds it, the closing pair. */
  method CollectBlock(txt: string, i0: nat) returns (j: nat, text: string)
    requires i0 < |txt|
    ensures j == PairAt(txt, i0, '*', '/') && text == BlockText(txt, i0)
  {
    j := i0;
    text := "";
    while j + 1 < |txt|
      invariant i0 <= j < |txt| && PairAt(txt, j, '*', '/') == PairAt(txt, i0, '*', '/')
      invariant Collected(txt, i0, j, text)
      decreases |txt| - j
    {
      if txt[j] == '*' && txt[j + 1] == '/' {
        text := text + "*/";
        return;
      }
      CollectOne(txt, i0, j, text);
      if !IsBlank(txt[j]) {
        text := text + [txt[j]];
      }
      j := j + 1;
    }
  }

  /** The nested-comment loop of DComments: `while i < len_max: if
      txt[i] == '+' and txt[i+1] == '/': ... break; i += 1`. */
  method ScanNest(txt: string, i0: nat) returns (r: Result<nat, Raised>)
    requires i0 <= |txt|
    ensures r == NestEnd(txt, i0)
  {
    var j := i0;
    while j < |txt|
      invariant i0 <= j <= |txt|
      invariant NestEnd(txt, j) == NestEnd(txt, i0)
      decreases |txt| - j
    {
      if txt[j] == '+' && j + 1 == |txt| {
        return Err(IndexError);
      }
      if txt[j] == '+' && txt[j + 1] == '/' {
        return Ok(j);
      }
      j := j + 1;
    }
    r := Ok(j);
  }

  /** The same loop in DCode, appending the non-blank characters and the
      closing pair. */
  method CollectNest(txt: string, i0: nat) returns (r: Result<nat, Raised>, text: string)
    requires i0 <= |txt|
    ensures r == NestEnd(txt, i0)
    ensures r.Ok? ==> text == NestText(txt, i0, r.value)
  {
    var j := i0;
    text := "";
    while j < |txt|
      invariant i0 <= j <= |txt|
      invariant NestEnd(txt, j) == NestEnd(txt, i0)
      invariant Collected(txt, i0, j, text)
      decreases |txt| - j
    {
      if txt[j] == '+' && j + 1 == |txt| {
        return Err(IndexError), text;
      }
      if txt[j] == '+' && txt[j + 1] == '/' {
        return Ok(j), text + "+/";
      }
      CollectOne(txt, i0, j, text);
      if !IsBlank(txt[j]) {
        text := text + [txt[j]];
      }
      j := j + 1;
    }
    EmptyRight(text);
    r := Ok(j);
  }

  /** One pass of the loop of CComments and DComments takes it from
      position i, quote flag quot and buffer buf to next, quot' and buf'
      without changing what the loop returns. */
  predicate CommentsStepped(txt: string, dl: Dialect, i: nat, quot: bool, buf: string, next: nat, quot': bool, buf': string)
  {
    Prepend(buf', CCommentsFrom(txt, next, quot', dl)) == Prepend(buf, CCommentsFrom(txt, i, quot, dl))
  }

  lemma {:induction false} CCommentsAtLine(txt: string, i: nat, quot: bool, dl: Dialect, buf: string)
    requires i + 1 < |txt| && txt[i] == '/' && txt[i + 1] == '/' && !QuoteAt(txt, i, quot)
    ensures CommentsStepped(txt, dl, i, quot, buf, LineEnd(txt, i) + 1, QuoteAt(txt, i, quot), buf)
  {
  }

  lemma {:induction false} CCommentsAtBlock(txt: string, i: nat, quot: bool, dl: Dialect, buf: string)
    requires i + 1 < |txt| && txt[i] == '/' && txt[i + 1] == '*' && !QuoteAt(txt, i, quot)
    ensures CommentsStepped(txt, dl, i, quot, buf, BlockResume(txt, i), QuoteAt(txt, i, quot), buf)
  {
  }

  lemma {:induction false} CCommentsAtNest(txt: string, i: nat, quot: bool, dl: Dialect, j: nat, buf: string)
    requires i + 1 < |txt| && txt[i] == '/' && txt[i + 1] == '+' && !QuoteAt(txt, i, quot) && dl.nests
    requires NestEnd(txt, i) == Ok(j)
    ensures CommentsStepped(txt, dl, i, quot, buf, NestResume(txt, j, dl), QuoteAt(txt, i, quot), buf)
  {
  }

  lemma {:induction false} CCommentsNestRaises(txt: string, i: nat, quot: bool, dl: Dialect)
    requires i + 1 < |txt| && txt[i] == '/' && txt[i + 1] == '+' && !QuoteAt(txt, i, quot) && dl.nests
    requires NestEnd(txt, i).Err?
    ensures CCommentsFrom(txt, i, quot, dl) == Err(NestEnd(txt, i).error)
  {
  }

  lemma {:induction false} CCommentsAtChar(txt: string, i: nat, quot: bool, dl: Dialect, buf: string)
    requires i < |txt| && OpenerAt(txt, i, QuoteAt(txt, i, quot), dl.nests) == Ok(NoComment)
    ensures var kept := if QuoteAt(txt, i, quot) || !IsBlank(txt[i]) then [txt[i]] else [];
      CommentsStepped(txt, dl, i, quot, buf, i + 1, QuoteAt(txt, i, quot), buf + kept)
  {
    var kept := if QuoteAt(txt, i, quot) || !IsBlank(txt[i]) then [txt[i]] else [];
    PrependShift(buf, kept, CCommentsFrom(txt, i + 1, QuoteAt(txt, i, quot), dl));
  }

  /** CComments (dl == C) and DComments (dl == D) on the file's contents. */
  method CComments(txt: string, dl: Dialect) returns (r: Result<string, Raised>)
    ensures r == CCommentsFrom(txt, 0, false, dl)
  {
    var i: nat := 0;
    var quot := false;
    var buf := "";
    PrependNothing(CCommentsFrom(txt, 0, false, dl));
    while i < |txt|
      invariant Prepend(buf, CCommentsFrom(txt, i, quot, dl)) == CCommentsFrom(txt, 0, false, dl)
      decreases |txt| - i
    {
      var raised, next, quot', buf' := CCommentsStep(txt, dl, i, quot, buf);
      if raised.Some? {
        return Err(raised.value);
      }
      i, quot, buf := next, quot', buf';
    }
    EmptyRight(buf);
    r := Ok(buf);
  }

  // One pass of the loop of CComments and DComments: the quote test, the
  // tests for the comment openers (the first raises on a slash that ends
  // the text), then the comment skipped or the character kept, then
  // `i += 1`. As written, DComments steps over the character after a
  // closing plus-slash pair; `dl.fixed` does not.
  method CCommentsStep(txt: string, dl: Dialect, i: nat, quot: bool, buf: string)
    returns (raised: Option<Raised>, next: nat, quot': bool, buf': string)
    requires i < |txt|
    ensures raised.Some? ==> CCommentsFrom(txt, i, quot, dl) == Err(raised.value)
    ensures raised.None? ==> i < next && CommentsStepped(txt, dl, i, quot, buf, next, quot', buf')
  {
    quot' := ToggleQuote(txt, i, quot);
    raised, next, buf' := None, i + 1, buf;
    if txt[i] == '/' && i + 1 == |txt| {
      raised := Some(IndexError);
    } else if dl.nests && txt[i] == '/' && txt[i + 1] == '+' && !quot' {
      var r := ScanNest(txt, i);
      if r.Err? {
        CCommentsNestRaises(txt, i, quot, dl);
        raised := Some(r.error);
      } else {
        CCommentsAtNest(txt, i, quot, dl, r.value, buf);
        var j := r.value;
        if j < |txt| {
          j := if dl.fixed then j + 1 else j + 2;
        }
        next := j + 1;
        assert next == NestResume(txt, r.value, dl);
      }
    } else if txt[i] == '/' && txt[i + 1] == '/' && !quot' {
      CCommentsAtLine(txt, i, quot, dl, buf);
      next := SkipLine(txt, i);
      next := next + 1;
    } else if txt[i] == '/' && txt[i + 1] == '*' && !quot' {
      CCommentsAtBlock(txt, i, quot, dl, buf);
      var j := FindPair(txt, i, '*', '/');
      if j + 1 < |txt| {
        j := j + 1;
      }
      next := j + 1;
      assert next == BlockResume(txt, i);
    } else {
      CCommentsAtChar(txt, i, quot, dl, buf);
      if quot' || !(txt[i] == ' ' || txt[i] == '\n') {
        buf' := buf + [txt[i]];
      } else {
        EmptyRight(buf);
      }
    }
  }

  /** One pass of the loop of CCode and DCode takes it from position i,
      quote flag quot and buffer buf to next, quot' and buf' without
      changing what the loop returns. */
  predicate CodeStepped(txt: string, dl: Dialect, i: nat, quot: bool, buf: string, next: nat, quot': bool, buf': string)
  {
    Prepend(buf', CCodeFrom(txt, next, quot', dl)) == Prepend(buf, CCodeFrom(txt, i, quot, dl))
  }

  lemma {:induction false} CCodeAtLine(txt: string, i: nat, quot: bool, dl: Dialect, buf: string)
    requires i + 1 < |txt| && txt[i] == '/' && txt[i + 1] == '/' && !QuoteAt(txt, i, quot)
    ensures CodeStepped(txt, dl, i, quot, buf, LineEnd(txt, i) + 1, QuoteAt(txt, i, quot), buf + LineText(txt, i))
  {
    PrependShift(buf, LineText(txt, i), CCodeFrom(txt, LineEnd(txt, i) + 1, QuoteAt(txt, i, quot), dl));
  }

  lemma {:induction false} CCodeAtBlock(txt: string, i: nat, quot: bool, dl: Dialect, buf: string)
    requires i + 1 < |txt| && txt[i] == '/' && txt[i + 1] == '*' && !QuoteAt(txt, i, quot)
    ensures var j := PairAt(txt, i, '*', '/');
      CodeStepped(txt, dl, i, quot, buf, CloseResume(txt, j, dl), QuoteAt(txt, i, quot), buf + BlockText(txt, i))
  {
    var j := PairAt(txt, i, '*', '/');
    PrependShift(buf, BlockText(txt, i), CCodeFrom(txt, CloseResume(txt, j, dl), QuoteAt(txt, i, quot), dl));
  }

  lemma {:induction false} CCodeAtNest(txt: string, i: nat, quot: bool, dl: Dialect, j: nat, buf: string)
    requires i + 1 < |txt| && txt[i] == '/' && txt[i + 1] == '+' && !QuoteAt(txt, i, quot) && dl.nests
    requires NestEnd(txt, i) == Ok(j)
    ensures CodeStepped(txt, dl, i, quot, buf, CloseResume(txt, j, dl), QuoteAt(txt, i, quot), buf + NestText(txt, i, j))
  {
    PrependShift(buf, NestText(txt, i, j), CCodeFrom(txt, CloseResume(txt, j, dl), QuoteAt(txt, i, quot), dl));
  }

  lemma {:induction false} CCodeNestRaises(txt: string, i: nat, quot: bool, dl: Dialect)
    requires i + 1 < |txt| && txt[i] == '/' && txt[i + 1] == '+' && !QuoteAt(txt, i, quot) && dl.nests
    requires NestEnd(txt, i).Err?
    ensures CCodeFrom(txt, i, quot, dl) == Err(NestEnd(txt, i).error)
  {
  }

  lemma {:induction false} CCodeAtChar(txt: string, i: nat, quot: bool, dl: Dialect, buf: string)
    requires i < |txt| && OpenerAt(txt, i, QuoteAt(txt, i, quot), dl.nests) == Ok(NoComment)
    ensures CodeStepped(txt, dl, i, quot, buf, i + 1, QuoteAt(txt, i, quot), buf)
  {
  }

  /** CCode (dl == C) and DCode (dl == D) on the file's contents. */
  method CCode(txt: string, dl: Dialect) returns (r: Result<string, Raised>)
    ensures r == CCodeFrom(txt, 0, false, dl)
  {
    var i: nat := 0;
    var quot := false;
    var buf := "";
    PrependNothing(CCodeFrom(txt, 0, false, dl));
    while i < |txt|
      invariant Prepend(buf, CCodeFrom(txt, i, quot, dl)) == CCodeFrom(txt, 0, false, dl)
      decreases |txt| - i
    {
      var raised, next, quot', buf' := CCodeStep(txt, dl, i, quot, buf);
      if raised.Some? {
        return Err(raised.value);
      }
      i, quot, buf := next, quot', buf';
    }
    EmptyRight(buf);
    r := Ok(buf);
  }

  // One pass of the loop of CCode and DCode: the quote test, the tests for
  // the comment openers (the first raises on a slash that ends the text),
  // then the comment collected, then `i += 1`. As written the pass after a
  // closed comment starts at its closing slash; `dl.fixed` steps over it.
  method CCodeStep(txt: string, dl: Dialect, i: nat, quot: bool, buf: string)
    returns (raised: Option<Raised>, next: nat, quot': bool, buf': string)
    requires i < |txt|
    ensures raised.Some? ==> CCodeFrom(txt, i, quot, dl) == Err(raised.value)
    ensures raised.None? ==> i < next && CodeStepped(txt, dl, i, quot, buf, next, quot', buf')
  {
    quot' := ToggleQuote(txt, i, quot);
    raised, next, buf' := None, i + 1, buf;
    if txt[i] == '/' && i + 1 == |txt| {
      raised := Some(IndexError);
    } else if txt[i] == '/' && txt[i + 1] == '/' && !quot' {
      next, buf' := CodeOfLine(txt, dl, i, quot, buf);
    } else if txt[i] == '/' && txt[i + 1] == '*' && !quot' {
      next, buf' := CodeOfBlock(txt, dl, i, quot, buf);
    } else if dl.nests && txt[i] == '/' && txt[i + 1] == '+' && !quot' {
      raised, next, buf' := CodeOfNest(txt, dl, i, quot, buf);
    } else {
      CCodeAtChar(txt, i, quot, dl, buf);
    }
  }

  /** The line-comment branch of CCode and DCode. */
  method CodeOfLine(txt: string, dl: Dialect, i: nat, quot: bool, buf: string) returns (next: nat, buf': string)
    requires i + 1 < |txt| && txt[i] == '/' && txt[i + 1] == '/' && !QuoteAt(txt, i, quot)
    ensures i < next && CodeStepped(txt, dl, i, quot, buf, next, QuoteAt(txt, i, quot), buf')
  {
    CCodeAtLine(txt, i, quot, dl, buf);
    var e, text := CollectLine(txt, i);
    next, buf' := e + 1, buf + text;
  }

  /** The block-comment branch of CCode and DCode. */
  method CodeOfBlock(txt: string, dl: Dialect, i: nat, quot: bool, buf: string) returns (next: nat, buf': string)
    requires i + 1 < |txt| && txt[i] == '/' && txt[i + 1] == '*' && !QuoteAt(txt, i, quot)
    ensures i < next && CodeStepped(txt, dl, i, quot, buf, next, QuoteAt(txt, i, quot), buf')
  {
    CCodeAtBlock(txt, i, quot, dl, buf);
    var j, text := CollectBlock(txt, i);
    ghost var close := j;
    if j + 1 < |txt| && dl.fixed {
      j := j + 1;
    }
    next, buf' := j + 1, buf + text;
    assert next == CloseResume(txt, close, dl);
  }

  /** The nested-comment branch of DCode, which raises on a `+` that ends
      the text. */
  method CodeOfNest(txt: string, dl: Dialect, i: nat, quot: bool, buf: string)
    returns (raised: Option<Raised>, next: nat, buf': string)
    requires i + 1 < |txt| && txt[i] == '/' && txt[i + 1] == '+' && !QuoteAt(txt, i, quot) && dl.nests
    ensures raised.Some? ==> CCodeFrom(txt, i, quot, dl) == Err(raised.value)
    ensures raised.None? ==> i < next && CodeStepped(txt, dl, i, quot, buf, next, QuoteAt(txt, i, quot), buf')
  {
    raised, next, buf' := None, i + 1, buf;
    var r, text := CollectNest(txt, i);
    if r.Err? {
      CCodeNestRaises(txt, i, quot, dl);
      raised := Some(r.error);
    } else {
      CCodeAtNest(txt, i, quot, dl, r.value, buf);
      var j := r.value;
      if j + 1 < |txt| && dl.fixed {
        j := j + 1;
      }
      next, buf' := j + 1, buf + text;
      assert next == CloseResume(txt, r.value, dl);
    }
  }

  // ---------------------------------------------------------------------
  // Properties of the C and D strippers

  /** With the closing delimiter stepped over, CCode and CComments walk the
      same positions, so one raises exactly when the other does. */
  lemma {:induction false} FixedRaisesAlike(txt: string, i: nat, quot: bool, dl: Dialect)
    requires dl.fixed
    ensures CCodeFrom(txt, i, quot, dl).Err? <==> CCommentsFrom(txt, i, quot, dl).Err?
    decreases |txt| - i
  {
    if i < |txt| {
      var q := QuoteAt(txt, i, quot);
      match OpenerAt(txt, i, q, dl.nests)
      case Err(_) =>
      case Ok(LineComment) =>
        FixedRaisesAlike(txt, LineEnd(txt, i) + 1, q, dl);
      case Ok(BlockComment) =>
        FixedRaisesAlike(txt, BlockResume(txt, i), q, dl);
      case Ok(NestComment) =>
        if NestEnd(txt, i).Ok? {
          FixedRaisesAlike(txt, NestResume(txt, NestEnd(txt, i).value, dl), q, dl);
        }
      case Ok(NoComment) =>
        FixedRaisesAlike(txt, i + 1, q, dl);
    }
  }

  /** As written, CCode raises on a text that ends with a closed block
      comment, which CComments reads without trouble. */
  lemma CodeRaisesOnClosingSlash()
    ensures CCodeFrom("/**/", 0, false, C) == Err(IndexError)
    ensures CCommentsFrom("/**/", 0, false, C) == Ok("")
    ensures CCodeFrom("/**/", 0, false, C.(fixed := true)) == Ok("/**/")
  {
    var txt := "/**/";
    var fixed := C.(fixed := true);
    assert OpenerAt(txt, 0, false, false) == Ok(BlockComment);
    assert PairAt(txt, 0, '*', '/') == 2;
    assert NonBlank(txt[0..2]) == "/*";
    assert BlockText(txt, 0) == "/**/";
    assert CCodeFrom(txt, 4, false, fixed) == Ok("");
    assert CloseResume(txt, 2, fixed) == 4;
    assert CCodeFrom(txt, 0, false, fixed) == Prepend(BlockText(txt, 0), CCodeFrom(txt, 4, false, fixed));
    EmptyRight(BlockText(txt, 0));
  }

  /** As written, CCode reads the closing `/` of a block comment again, so
      a `//` starting there is taken for a line comment as well: the result
      is longer than the text, so not a subsequence of it. */
  lemma CodeOutgrowsText()
    ensures CCodeFrom("/**//x", 0, false, C) == Ok("/**///x")
    ensures !Subseq("/**///x", "/**//x")
    ensures CCodeFrom("/**//x", 0, false, C.(fixed := true)) == Ok("/**/")
  {
    var txt := "/**//x";
    OutgrowLead(C);
    OutgrowLead(C.(fixed := true));
    assert CloseResume(txt, 2, C) == 3;
    assert CloseResume(txt, 2, C.(fixed := true)) == 4;
    OutgrowTail();
    assert "/**/" + "//x" == "/**///x";
    if Subseq("/**///x", txt) {
      SubseqLength("/**///x", txt);
    }
    OutgrowFixedTail();
    EmptyRight("/**/");
  }

  /** "/**//x" opens with a block comment that closes at 2. */
  lemma OutgrowLead(dl: Dialect)
    requires !dl.nests
    ensures CCodeFrom("/**//x", 0, false, dl) == Prepend("/**/", CCodeFrom("/**//x", CloseResume("/**//x", 2, dl), false, dl))
  {
    var txt := "/**//x";
    assert !QuoteAt(txt, 0, false);
    assert OpenerAt(txt, 0, false, false) == Ok(BlockComment);
    assert PairAt(txt, 0, '*', '/') == 2;
    assert NonBlank(txt[0..2]) == "/*";
    assert BlockText(txt, 0) == "/**/";
  }

  /** Read again from the closing `/`, "//x" is a line comment. */
  lemma OutgrowTail()
    ensures CCodeFrom("/**//x", 3, false, C) == Ok("//x")
  {
    var txt := "/**//x";
    assert !QuoteAt(txt, 3, false);
    assert OpenerAt(txt, 3, false, false) == Ok(LineComment);
    assert LineEnd(txt, 3) == 6;
    assert txt[3..6] == "//x";
    assert NonBlank("x") == "x";
    assert "/x"[1..] == "x";
    assert NonBlank("/x") == "/x";
    assert "//x"[1..] == "/x";
    assert NonBlank("//x") == "//x";
    assert CCodeFrom(txt, 7, false, C) == Ok("");
    assert CCodeFrom(txt, 3, false, C) == Prepend("//x", Ok(""));
    EmptyRight("//x");
  }

  /** Past the closing pair, "/x" holds no comment. */
  lemma OutgrowFixedTail()
    ensures CCodeFrom("/**//x", 4, false, C.(fixed := true)) == Ok("")
  {
    var txt := "/**//x";
    var fixed := C.(fixed := true);
    assert !QuoteAt(txt, 4, false) && !QuoteAt(txt, 5, false);
    assert OpenerAt(txt, 4, false, false) == Ok(NoComment);
    assert OpenerAt(txt, 5, false, false) == Ok(NoComment);
    assert CCodeFrom(txt, 6, false, fixed) == Ok("");
    assert CCodeFrom(txt, 5, false, fixed) == Ok("");
  }

  /** As written, DComments steps over the character that follows `+/`. */
  lemma NestDropsNextChar()
    ensures CCommentsFrom("/+x+/a", 0, false, D) == Ok("")
    ensures CCommentsFrom("/+x+/a", 0, false, D.(fixed := true)) == Ok("a")
  {
    var txt := "/+x+/a";
    var fixed := D.(fixed := true);
    assert OpenerAt(txt, 0, false, true) == Ok(NestComment);
    assert NestEnd(txt, 3) == Ok(3);
    assert NestEnd(txt, 2) == Ok(3);
    assert NestEnd(txt, 1) == Ok(3);
    assert NestEnd(txt, 0) == Ok(3);
    assert NestResume(txt, 3, D) == 6;
    assert NestResume(txt, 3, fixed) == 5;
    assert !QuoteAt(txt, 0, false) && !QuoteAt(txt, 5, false);
    assert OpenerAt(txt, 5, false, true) == Ok(NoComment);
    assert CCommentsFrom(txt, 6, false, fixed) == Ok("");
    assert CCommentsFrom(txt, 5, false, fixed) == Prepend([txt[5]], Ok(""));
    EmptyRight([txt[5]]);
  }

  /** With the closing delimiter stepped over, what CCode and DCode return
      is a subsequence of the text: every character comes from the text,
      in order, at most once. */
  lemma {:induction false} FixedCodeInText(txt: string, i: nat, quot: bool, dl: Dialect)
    requires dl.fixed
    ensures CodeInText(txt, i, quot, dl)
    decreases |txt| - i, 1
  {
    if i < |txt| {
      match OpenerAt(txt, i, QuoteAt(txt, i, quot), dl.nests)
      case Err(_) =>
      case Ok(LineComment) => LineInText(txt, i, quot, dl);
      case Ok(BlockComment) => BlockInText(txt, i, quot, dl);
      case Ok(NestComment) =>
        if NestEnd(txt, i).Ok? {
          NestInText(txt, i, quot, dl, NestEnd(txt, i).value);
        }
      case Ok(NoComment) => CharInText(txt, i, quot, dl);
    }
  }

  lemma {:induction false} LineInText(txt: string, i: nat, quot: bool, dl: Dialect)
    requires dl.fixed
    requires i < |txt| && OpenerAt(txt, i, QuoteAt(txt, i, quot), dl.nests) == Ok(LineComment)
    ensures CodeInText(txt, i, quot, dl)
    decreases |txt| - i, 0
  {
    var e := LineEnd(txt, i);
    FixedCodeInText(txt, e + 1, QuoteAt(txt, i, quot), dl);
    CodeIsAtLine(txt, i, quot, dl);
    NonBlankSubseq(txt[i..e]);
    TextThenCode(txt, i, quot, dl, LineText(txt, i), e, e + 1, QuoteAt(txt, i, quot));
  }

  lemma {:induction false} BlockInText(txt: string, i: nat, quot: bool, dl: Dialect)
    requires dl.fixed
    requires i < |txt| && OpenerAt(txt, i, QuoteAt(txt, i, quot), dl.nests) == Ok(BlockComment)
    ensures CodeInText(txt, i, quot, dl)
    decreases |txt| - i, 0
  {
    var j := PairAt(txt, i, '*', '/');
    FixedCodeInText(txt, CloseResume(txt, j, dl), QuoteAt(txt, i, quot), dl);
    CodeIsAtBlock(txt, i, quot, dl);
    if j + 1 < |txt| {
      DelimitedInText(txt, i, j, "*/");
      TextThenCode(txt, i, quot, dl, BlockText(txt, i), j + 2, j + 2, QuoteAt(txt, i, quot));
    } else {
      UnclosedInText(txt, i, j);
      TextThenCode(txt, i, quot, dl, BlockText(txt, i), j, j + 1, QuoteAt(txt, i, quot));
    }
  }

  lemma {:induction false} NestInText(txt: string, i: nat, quot: bool, dl: Dialect, j: nat)
    requires dl.fixed
    requires i < |txt| && OpenerAt(txt, i, QuoteAt(txt, i, quot), dl.nests) == Ok(NestComment)
    requires NestEnd(txt, i) == Ok(j)
    ensures CodeInText(txt, i, quot, dl)
    decreases |txt| - i, 0
  {
    FixedCodeInText(txt, CloseResume(txt, j, dl), QuoteAt(txt, i, quot), dl);
    CodeIsAtNest(txt, i, quot, dl, j);
    if j < |txt| {
      DelimitedInText(txt, i, j, "+/");
      TextThenCode(txt, i, quot, dl, NestText(txt, i, j), j + 2, j + 2, QuoteAt(txt, i, quot));
    } else {
      UnclosedInText(txt, i, j);
      TextThenCode(txt, i, quot, dl, NestText(txt, i, j), j, j + 1, QuoteAt(txt, i, quot));
    }
  }

  lemma {:induction false} CharInText(txt: string, i: nat, quot: bool, dl: Dialect)
    requires dl.fixed
    requires i < |txt| && OpenerAt(txt, i, QuoteAt(txt, i, quot), dl.nests) == Ok(NoComment)
    ensures CodeInText(txt, i, quot, dl)
    decreases |txt| - i, 0
  {
    FixedCodeInText(txt, i + 1, QuoteAt(txt, i, quot), dl);
    var r := CCodeFrom(txt, i + 1, QuoteAt(txt, i, quot), dl);
    if r.Ok? {
      SubseqFrom(r.value, txt, i, i + 1);
    }
  }

  predicate CodeInText(txt: string, i: nat, quot: bool, dl: Dialect)
  {
    CCodeFrom(txt, i, quot, dl).Ok? ==> Subseq(CCodeFrom(txt, i, quot, dl).value, From(txt, i))
  }

  /** CCodeFrom at i is text in front of CCodeFrom at k with quote flag q. */
  predicate CodeIs(txt: string, i: nat, quot: bool, dl: Dialect, text: string, k: nat, q: bool)
  {
    CCodeFrom(txt, i, quot, dl) == Prepend(text, CCodeFrom(txt, k, q, dl))
  }

  lemma {:induction false} CodeIsAtLine(txt: string, i: nat, quot: bool, dl: Dialect)
    requires i < |txt| && OpenerAt(txt, i, QuoteAt(txt, i, quot), dl.nests) == Ok(LineComment)
    ensures CodeIs(txt, i, quot, dl, LineText(txt, i), LineEnd(txt, i) + 1, QuoteAt(txt, i, quot))
  {
  }

  lemma {:induction false} CodeIsAtBlock(txt: string, i: nat, quot: bool, dl: Dialect)
    requires i < |txt| && OpenerAt(txt, i, QuoteAt(txt, i, quot), dl.nests) == Ok(BlockComment)
    ensures CodeIs(txt, i, quot, dl, BlockText(txt, i), CloseResume(txt, PairAt(txt, i, '*', '/'), dl), QuoteAt(txt, i, quot))
  {
  }

  lemma {:induction false} CodeIsAtNest(txt: string, i: nat, quot: bool, dl: Dialect, j: nat)
    requires i < |txt| && OpenerAt(txt, i, QuoteAt(txt, i, quot), dl.nests) == Ok(NestComment)
    requires NestEnd(txt, i) == Ok(j)
    ensures CodeIs(txt, i, quot, dl, NestText(txt, i, j), CloseResume(txt, j, dl), QuoteAt(txt, i, quot))
  {
  }

  /** A comment's text taken from txt[i..k], followed by what CCode returns
      from a position k' at or after k. */
  lemma {:induction false} TextThenCode(txt: string, i: nat, quot: bool, dl: Dialect, text: string, k: nat, k': nat, q: bool)
    requires i <= k <= |txt| && k <= k' && Subseq(text, txt[i..k])
    requires CodeIs(txt, i, quot, dl, text, k', q) && CodeInText(txt, k', q, dl)
    ensures CodeInText(txt, i, quot, dl)
  {
    var r := CCodeFrom(txt, k', q, dl);
    if r.Ok? {
      SubseqFrom(r.value, txt, k, k');
      FromSplit(txt, i, k);
      SubseqConcat(text, r.value, txt[i..k], From(txt, k));
    }
  }

  /** An unclosed comment keeps the non-blank characters up to j. */
  lemma {:induction false} UnclosedInText(txt: string, i: nat, j: nat)
    requires i <= j <= |txt|
    ensures Subseq(NonBlank(txt[i..j]) + "", txt[i..j])
  {
    NonBlankSubseq(txt[i..j]);
    EmptyRight(NonBlank(txt[i..j]));
  }

  /** The non-blank characters of txt[i..j] and the closing pair at j. */
  lemma {:induction false} DelimitedInText(txt: string, i: nat, j: nat, close: string)
    requires i <= j && j + |close| <= |txt| && txt[j..j + |close|] == close
    ensures Subseq(NonBlank(txt[i..j]) + close, txt[i..j + |close|])
  {
    NonBlankSubseq(txt[i..j]);
    SubseqRefl(close);
    SubseqConcat(NonBlank(txt[i..j]), close, txt[i..j], close);
    assert txt[i..j + |close|] == txt[i..j] + close;
  }

  /** The text from i holds no slash and no double quote. */
  predicate Plain(txt: string, i: nat)
  {
    forall k :: i <= k < |txt| ==> txt[k] != '/' && txt[k] != '"'
  }

  /** On a text with no comment and no string, the collectors of code keep
      its non-blank characters and the collectors of comments keep nothing. */
  lemma {:induction false} PlainText(txt: string, i: nat, dl: Dialect)
    requires Plain(txt, i)
    ensures CCommentsFrom(txt, i, false, dl) == Ok(NonBlank(From(txt, i)))
    ensures CCodeFrom(txt, i, false, dl) == Ok("")
    decreases |txt| - i
  {
    if i < |txt| {
      assert txt[i] != '/' && txt[i] != '"';
      assert !QuoteAt(txt, i, false);
      assert OpenerAt(txt, i, false, dl.nests) == Ok(NoComment);
      PlainText(txt, i + 1, dl);
      NonBlankFrom(txt, i);
    }
  }

  /** The strippers raise only when the text ends with a slash or, for D, a
      plus sign. */
  lemma {:induction false} RaisesOnlyAtEnd(txt: string, i: nat, quot: bool, dl: Dialect)
    ensures CCommentsFrom(txt, i, quot, dl).Err? ==> EndsInRaise(txt, dl)
    ensures CCodeFrom(txt, i, quot, dl).Err? ==> EndsInRaise(txt, dl)
    decreases |txt| - i
  {
    if i < |txt| {
      var q := QuoteAt(txt, i, quot);
      match OpenerAt(txt, i, q, dl.nests)
      case Err(_) =>
      case Ok(LineComment) =>
        RaisesOnlyAtEnd(txt, LineEnd(txt, i) + 1, q, dl);
      case Ok(BlockComment) =>
        RaisesOnlyAtEnd(txt, BlockResume(txt, i), q, dl);
        RaisesOnlyAtEnd(txt, CloseResume(txt, PairAt(txt, i, '*', '/'), dl), q, dl);
      case Ok(NestComment) =>
        if NestEnd(txt, i).Ok? {
          RaisesOnlyAtEnd(txt, NestResume(txt, NestEnd(txt, i).value, dl), q, dl);
          RaisesOnlyAtEnd(txt, CloseResume(txt, NestEnd(txt, i).value, dl), q, dl);
        }
      case Ok(NoComment) =>
        RaisesOnlyAtEnd(txt, i + 1, q, dl);
    }
  }

  predicate EndsInRaise(txt: string, dl: Dialect)
  {
    |txt| > 0 && (txt[|txt| - 1] == '/' || (dl.nests && txt[|txt| - 1] == '+'))
  }

  /** Spaces and newlines survive CComments and DComments only inside
      double quotes: a text without a double quote loses them all. */
  lemma {:induction false} UnquotedLosesBlanks(txt: string, i: nat, dl: Dialect)
    requires forall k :: i <= k < |txt| ==> txt[k] != '"'
    ensures CommentsBlankFree(txt, i, dl)
    decreases |txt| - i
  {
    if i < |txt| {
      assert !QuoteAt(txt, i, false);
      match OpenerAt(txt, i, false, dl.nests)
      case Err(_) =>
      case Ok(LineComment) => UnquotedLosesBlanks(txt, LineEnd(txt, i) + 1, dl);
      case Ok(BlockComment) => UnquotedLosesBlanks(txt, BlockResume(txt, i), dl);
      case Ok(NestComment) =>
        if NestEnd(txt, i).Ok? {
          UnquotedLosesBlanks(txt, NestResume(txt, NestEnd(txt, i).value, dl), dl);
        }
      case Ok(NoComment) =>
        UnquotedLosesBlanks(txt, i + 1, dl);
        var rest := CCommentsFrom(txt, i + 1, false, dl);
        if rest.Ok? {
          assert CCommentsFrom(txt, i, false, dl) == Ok(KeepChar(txt[i]) + rest.value);
        }
    }
  }

  predicate CommentsBlankFree(txt: string, i: nat, dl: Dialect)
  {
    CCommentsFrom(txt, i, false, dl).Ok? ==> forall k :: 0 <= k < |CCommentsFrom(txt, i, false, dl).value| ==> !IsBlank(CCommentsFrom(txt, i, false, dl).value[k])
  }

  // ---------------------------------------------------------------------
  // Stripper

  /** What Stripper returns, and the signature it stores in the
      dependency's node information (None: nothing stored). */
  datatype Stripped = Stripped(verdict: Sigs, stored: Option<string>)

  /** CComments(str(dependency)): a file that cannot be opened reads as "". */
  function CCommentsOf(contents: Option<string>): Result<string, Raised>
  {
    if contents.Some? then CCommentsFrom(contents.value, 0, false, C) else Ok("")
  }

  /** Stripper(dependency, target, prev_ni). The dependency is given by its
      suffix, its contents (None when the file cannot be opened, which
      CComments reads as the empty string) and whether it exists (rexists); the
      target by its suffix; prev_ni by its csig (None when it has none, the
      AttributeError case); MD5signature is the parameter md5. */
  function Stripper(depSuffix: string, tgtSuffix: string, contents: Option<string>, present: bool,
                    prevCsig: Option<string>, md5: string -> string): (r: Result<Stripped, Raised>)
    ensures !((depSuffix == ".c" || depSuffix == ".h") && tgtSuffix == ".o") ==> r == Ok(Stripped(SigsWhole, None))
    ensures r.Err? ==> contents.Some? && EndsInRaise(contents.value, C)
    ensures r.Ok? && r.value.stored.Some? ==>
              present && CCommentsOf(contents).Ok? && r.value.stored == Some(md5(CCommentsOf(contents).value))
    ensures r.Ok? && r.value.verdict == SigsEqual ==> prevCsig.Some? && r.value.stored == prevCsig
    ensures r.Ok? && r.value.verdict == SigsDiffer ==> prevCsig.Some? && r.value.stored.Some? && r.value.stored != prevCsig
    ensures r.Ok? && r.value.verdict != SigsWhole ==> present
    ensures r.Ok? && (depSuffix == ".c" || depSuffix == ".h") && tgtSuffix == ".o" && present ==>
              r.value.stored.Some? && (r.value.verdict == SigsWhole <==> prevCsig.None?)
  {
    if (depSuffix == ".c" || depSuffix == ".h") && tgtSuffix == ".o" then
      var code := CCommentsOf(contents);
      if code.Err? then
        RaisesOnlyAtEnd(contents.value, 0, false, C);
        Err(code.error)
      else if !present then Ok(Stripped(SigsWhole, None))
      else
        var csig := md5(code.value);
        if prevCsig.None? then Ok(Stripped(SigsWhole, Some(csig)))
        else if csig != prevCsig.value then Ok(Stripped(SigsDiffer, Some(csig)))
        else Ok(Stripped(SigsEqual, Some(csig)))
    else Ok(Stripped(SigsWhole, None))
  }

  /** A C file rewritten with different spaces and newlines, and no comment
      or string, compares equal against the signature stored for the first
      version. */
  lemma StripperIgnoresLayout(suffix: string, txt1: string, txt2: string, md5: string -> string)
    requires suffix == ".c" || suffix == ".h"
    requires Plain(txt1, 0) && Plain(txt2, 0) && NonBlank(txt1) == NonBlank(txt2)
    ensures var first := Stripper(suffix, ".o", Some(txt1), true, None, md5);
      first.Ok? && first.value.stored.Some? &&
      Stripper(suffix, ".o", Some(txt2), true, first.value.stored, md5) == Ok(Stripped(SigsEqual, first.value.stored))
  {
    PlainText(txt1, 0, C);
    PlainText(txt2, 0, C);
    assert From(txt1, 0) == txt1 && From(txt2, 0) == txt2;
  }
}
