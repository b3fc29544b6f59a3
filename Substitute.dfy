/** The Substitute builder of src/engine/SCons/Tool/substitute.py with its
    default settings: every `@KEY@` (KEY made of letters, digits and
    underscores) in a source is replaced by the value of KEY, and `@@` by the
    marker `@`. Files are their contents; env.subst of a dictionary value is
    the parameter `expand`. */
module Substitute {
  import opened Util

  // ---------------------------------------------------------------------
  // The default pattern `@(|[a-zA-Z0-9_]+)@`

  predicate IsKeyChar(c: char)
  {
    ('a' <= c <= 'z') || ('A' <= c <= 'Z') || ('0' <= c <= '9') || c == '_'
  }

  /** The end of the run of key characters starting at i. */
  function KeyRunEnd(txt: string, i: nat): (e: nat)
    requires i <= |txt|
    ensures i <= e <= |txt|
    ensures e < |txt| ==> !IsKeyChar(txt[e])
    decreases |txt| - i
  {
    if i < |txt| && IsKeyChar(txt[i]) then KeyRunEnd(txt, i + 1) else i
  }

  lemma {:induction false} KeyRunAllKeyChars(txt: string, i: nat, k: nat)
    requires i <= |txt| && i <= k < KeyRunEnd(txt, i)
    ensures IsKeyChar(txt[k])
    decreases |txt| - i
  {
    if k > i {
      KeyRunAllKeyChars(txt, i + 1, k);
    }
  }

  /** A match of the pattern: txt[start..end] is `@key@`. */
  datatype Match = Match(start: nat, end: nat, key: string)

  /** The match starting at p, if any: the empty alternative is tried
      first, then the longest run of key characters. */
  function MatchAt(txt: string, p: nat): (r: Option<Match>)
    requires p <= |txt|
    ensures r.Some? ==> r.value.start == p && p + 2 <= r.value.end <= |txt|
  {
    if p + 1 < |txt| && txt[p] == '@' then
      if txt[p + 1] == '@' then Some(Match(p, p + 2, ""))
      else
        var e := KeyRunEnd(txt, p + 1);
        if p + 1 < e < |txt| && txt[e] == '@' then Some(Match(p, e + 1, txt[p + 1..e])) else None
    else None
  }

  /** A match is `@`, its key, `@`. */
  lemma MatchAtShape(txt: string, p: nat)
    requires p <= |txt| && MatchAt(txt, p).Some?
    ensures var m := MatchAt(txt, p).value;
      p + 2 + |m.key| == m.end && txt[p] == '@' && txt[m.end - 1] == '@' && m.key == txt[p + 1..m.end - 1]
  {
  }

  /** subst_re.search(contents, pos): the leftmost match at or after pos. */
  function Search(txt: string, pos: nat): (r: Option<Match>)
    requires pos <= |txt|
    ensures r.Some? ==> pos <= r.value.start <= |txt| && MatchAt(txt, r.value.start) == r
    decreases |txt| - pos
  {
    if MatchAt(txt, pos).Some? then MatchAt(txt, pos)
    else if pos == |txt| then None
    else Search(txt, pos + 1)
  }

  /** The search finds the leftmost match, and finds one whenever there is one. */
  lemma {:induction false} SearchLeftmost(txt: string, pos: nat, p: nat)
    requires pos <= p <= |txt|
    ensures Search(txt, pos).Some? && p < Search(txt, pos).value.start ==> MatchAt(txt, p).None?
    ensures Search(txt, pos).None? ==> MatchAt(txt, p).None?
    decreases |txt| - pos
  {
    if MatchAt(txt, pos).None? && pos < p {
      SearchLeftmost(txt, pos + 1, p);
    }
  }

  /** A key found by the pattern is empty or made of key characters. */
  lemma MatchedKeyChars(txt: string, p: nat)
    requires p <= |txt| && MatchAt(txt, p).Some?
    ensures forall k :: 0 <= k < |MatchAt(txt, p).value.key| ==> IsKeyChar(MatchAt(txt, p).value.key[k])
  {
    var m := MatchAt(txt, p).value;
    if m.key != "" {
      forall k | 0 <= k < |m.key|
        ensures IsKeyChar(m.key[k])
      {
        KeyRunAllKeyChars(txt, p + 1, p + 1 + k);
      }
    }
  }

  // ---------------------------------------------------------------------
  // Values

  /** The substitution dictionary: a callable subst_dict(env, key), where
      None stands for raising KeyError, or a dictionary. */
  datatype Dict = Callable(f: string -> Option<string>) | Table(m: map<string, string>)

  /** The restrict list, the dictionary and the settings of the builder. */
  datatype Config = Config(restrict: Option<seq<string>>, dict: Dict, marker: string, expand: string -> string)

  datatype SubstError = KeyNotAllowed(key: string) | UnknownKey(key: string)

  /** The UserError message. */
  function ErrorMessage(e: SubstError): string
  {
    match e
    case KeyNotAllowed(k) => "Substitution key not allowed: " + k
    case UnknownKey(k) => "Unknown substitution key: " + k
  }

  /** The value written for a matched key. */
  function KeyValue(cfg: Config, key: string): Result<string, SubstError>
  {
    if key == "" then Ok(cfg.marker)
    else if Restricted(cfg, key) then Err(KeyNotAllowed(key))
    else
      match cfg.dict
      case Callable(f) => if f(key).Some? then Ok(f(key).value) else Err(UnknownKey(key))
      case Table(m) => if key in m then Ok(cfg.expand(m[key])) else Err(UnknownKey(key))
  }

  /** `restrict and key not in restrict`: an empty list restricts nothing. */
  predicate Restricted(cfg: Config, key: string)
  {
    cfg.restrict.Some? && cfg.restrict.value != [] && key !in cfg.restrict.value
  }

  /** The empty key writes the marker; a key outside a non-empty restrict
      list raises "not allowed"; a key the dictionary lacks raises
      "unknown"; any other key writes its value. */
  lemma KeyValueCases(cfg: Config, key: string)
    ensures key == "" ==> KeyValue(cfg, key) == Ok(cfg.marker)
    ensures KeyValue(cfg, key) == Err(KeyNotAllowed(key)) <==> key != "" && Restricted(cfg, key)
    ensures KeyValue(cfg, key) == Err(UnknownKey(key)) <==>
              key != "" && !Restricted(cfg, key) && (if cfg.dict.Callable? then cfg.dict.f(key).None? else key !in cfg.dict.m)
    ensures KeyValue(cfg, key).Ok? <==>
              key == "" || (!Restricted(cfg, key) && (if cfg.dict.Callable? then cfg.dict.f(key).Some? else key in cfg.dict.m))
    ensures KeyValue(cfg, key).Err? ==> KeyValue(cfg, key).error.key == key
  {
  }

  function Prepend(pre: string, r: Result<string, SubstError>): Result<string, SubstError>
  {
    if r.Ok? then Ok(pre + r.value) else r
  }

  lemma PrependNothing(r: Result<string, SubstError>)
    ensures Prepend("", r) == r
  {
    if r.Ok? {
      assert "" + r.value == r.value;
    }
  }

  /** What the loop writes from position pos on. */
  function SubstFrom(txt: string, pos: nat, cfg: Config): Result<string, SubstError>
    requires pos <= |txt|
    decreases |txt| - pos
  {
    match Search(txt, pos)
    case None => Ok(txt[pos..])
    case Some(m) =>
      var v := KeyValue(cfg, m.key);
      if v.Err? then Err(v.error)
      else Prepend(txt[pos..m.start] + v.value, SubstFrom(txt, m.end, cfg))
  }

  // ---------------------------------------------------------------------
  // subst_in_file

  /** One pass of the loop from `last` leaves what is written in the end unchanged. */
  predicate Progressed(txt: string, cfg: Config, out: string, last: nat, out': string, last': nat)
    requires last <= |txt| && last' <= |txt|
  {
    Prepend(out', SubstFrom(txt, last', cfg)) == Prepend(out, SubstFrom(txt, last, cfg))
  }

  lemma {:induction false} SubstStep(txt: string, cfg: Config, out: string, last: nat)
    requires last <= |txt| && Search(txt, last).Some?
    requires KeyValue(cfg, Search(txt, last).value.key).Ok?
    ensures var m := Search(txt, last).value;
      Progressed(txt, cfg, out, last, out + txt[last..m.start] + KeyValue(cfg, m.key).value, m.end)
  {
    var m := Search(txt, last).value;
    var v := KeyValue(cfg, m.key).value;
    var rest := SubstFrom(txt, m.end, cfg);
    if rest.Ok? {
      assert out + txt[last..m.start] + v + rest.value == out + (txt[last..m.start] + v + rest.value);
    }
  }

  /** The loop of subst_in_file for one (target, source) pair: the text
      written to the target, or the UserError raised. */
  method SubstInText(txt: string, cfg: Config) returns (r: Result<string, SubstError>)
    ensures r == SubstFrom(txt, 0, cfg)
  {
    var out := "";
    var last := 0;
    var match_ := Search(txt, 0);
    PrependNothing(SubstFrom(txt, 0, cfg));
    while match_.Some?
      invariant last <= |txt| && match_ == Search(txt, last)
      invariant Progressed(txt, cfg, "", 0, out, last)
      decreases |txt| - last
    {
      var m := match_.value;
      var value := KeyValue(cfg, m.key);
      if value.Err? {
        return Err(value.error);
      }
      SubstStep(txt, cfg, out, last);
      out := out + txt[last..m.start] + value.value;
      last := m.end;
      match_ := Search(txt, last);
    }
    r := Ok(out + txt[last..]);
  }

  // ---------------------------------------------------------------------
  // Properties of the substitution

  /** A text without the marker character is copied unchanged. */
  lemma {:induction false} NoMarkerUnchanged(txt: string, pos: nat, cfg: Config)
    requires pos <= |txt| && forall k :: pos <= k < |txt| ==> txt[k] != '@'
    ensures SubstFrom(txt, pos, cfg) == Ok(txt[pos..])
  {
    if Search(txt, pos).Some? {
      MatchAtShape(txt, Search(txt, pos).value.start);
      assert false;
    }
  }

  /** SubstFrom at pos is pre in front of SubstFrom at k. */
  predicate Unfolds(txt: string, pos: nat, cfg: Config, pre: string, k: nat)
    requires pos <= |txt| && k <= |txt|
  {
    SubstFrom(txt, pos, cfg) == Prepend(pre, SubstFrom(txt, k, cfg))
  }

  lemma {:induction false} UnfoldAtMatch(txt: string, pos: nat, cfg: Config)
    requires pos <= |txt| && Search(txt, pos).Some? && KeyValue(cfg, Search(txt, pos).value.key).Ok?
    ensures var m := Search(txt, pos).value;
      Unfolds(txt, pos, cfg, txt[pos..m.start] + KeyValue(cfg, m.key).value, m.end)
  {
  }

  /** A stretch without the marker character is copied unchanged in front
      of what is written for the text after it. */
  lemma {:induction false} PlainStretchCopied(txt: string, pos: nat, q: nat, cfg: Config)
    requires pos <= q <= |txt| && forall k :: pos <= k < q ==> txt[k] != '@'
    ensures Unfolds(txt, pos, cfg, txt[pos..q], q)
  {
    SearchSkipsPlain(txt, pos, q);
    SameSearchUnfolds(txt, pos, q, cfg);
  }

  lemma SameSearchUnfolds(txt: string, pos: nat, q: nat, cfg: Config)
    requires pos <= q <= |txt| && Search(txt, pos) == Search(txt, q)
    ensures Unfolds(txt, pos, cfg, txt[pos..q], q)
  {
    if Search(txt, q).None? {
      assert txt[pos..] == txt[pos..q] + txt[q..];
    } else if KeyValue(cfg, Search(txt, q).value.key).Ok? {
      SameMatchUnfolds(txt, pos, q, cfg, Search(txt, q).value);
    }
  }

  lemma SameMatchUnfolds(txt: string, pos: nat, q: nat, cfg: Config, m: Match)
    requires pos <= q <= |txt| && Search(txt, pos) == Some(m) && Search(txt, q) == Some(m)
    requires KeyValue(cfg, m.key).Ok?
    ensures Unfolds(txt, pos, cfg, txt[pos..q], q)
  {
    var v := KeyValue(cfg, m.key).value;
    UnfoldAtMatch(txt, pos, cfg);
    UnfoldAtMatch(txt, q, cfg);
    var rest := SubstFrom(txt, m.end, cfg);
    if rest.Ok? {
      assert txt[pos..m.start] == txt[pos..q] + txt[q..m.start];
      Regroup(txt[pos..q], txt[q..m.start], v, rest.value);
    }
  }

  lemma Regroup(a: string, b: string, c: string, d: string)
    ensures a + b + c + d == a + (b + c + d)
  {
  }

  /** The search passes over a stretch without the marker character. */
  lemma {:induction false} SearchSkipsPlain(txt: string, pos: nat, q: nat)
    requires pos <= q <= |txt| && forall k :: pos <= k < q ==> txt[k] != '@'
    ensures Search(txt, pos) == Search(txt, q)
    decreases q - pos
  {
    if pos < q {
      assert MatchAt(txt, pos).None?;
      SearchSkipsPlain(txt, pos + 1, q);
    }
  }

  /** `@@` with the default settings writes the marker. */
  lemma EmptyKeyWritesMarker(cfg: Config)
    ensures SubstFrom("@@", 0, cfg) == Ok(cfg.marker)
  {
    assert MatchAt("@@", 0) == Some(Match(0, 2, ""));
    assert Search("@@", 2).None?;
    assert "@@"[0..0] == "" && "@@"[2..] == "";
    assert "" + cfg.marker + "" == cfg.marker;
  }

  /** `@KEY@` alone is replaced by the value of KEY, or raises its error. */
  lemma KeyAlone(key: string, cfg: Config)
    requires key != [] && forall k :: 0 <= k < |key| ==> IsKeyChar(key[k])
    ensures SubstFrom("@" + key + "@", 0, cfg) == KeyValue(cfg, key)
  {
    var txt := "@" + key + "@";
    KeyRunWhole(txt, 1, |key| + 1);
    assert txt[1..|key| + 1] == key;
    assert MatchAt(txt, 0) == Some(Match(0, |key| + 2, key));
    assert Search(txt, |key| + 2).None?;
    assert txt[0..0] == "" && txt[|key| + 2..] == "";
    var v := KeyValue(cfg, key);
    if v.Ok? {
      assert "" + v.value + "" == v.value;
    }
  }

  lemma {:induction false} KeyRunWhole(txt: string, i: nat, e: nat)
    requires i <= e < |txt| && !IsKeyChar(txt[e]) && forall k :: i <= k < e ==> IsKeyChar(txt[k])
    ensures KeyRunEnd(txt, i) == e
    decreases e - i
  {
    if i < e {
      KeyRunWhole(txt, i + 1, e);
    }
  }

  // ---------------------------------------------------------------------
  // Pairs of targets and sources, and the emitter

  /** subst_in_file: each target gets the substitution of the source at the
      same position; sources or targets without a partner are ignored. The
      first UserError stops the loop. */
  method SubstInFiles(targets: seq<string>, sources: seq<string>, cfg: Config) returns (written: seq<string>, err: Option<SubstError>)
    ensures |written| <= |targets| && |written| <= |sources|
    ensures forall k :: 0 <= k < |written| ==> SubstFrom(sources[k], 0, cfg) == Ok(written[k])
    ensures err.None? ==> |written| == Min(|targets|, |sources|)
    ensures err.Some? ==> |written| < Min(|targets|, |sources|) && SubstFrom(sources[|written|], 0, cfg) == Err(err.value)
  {
    written := [];
    var k := 0;
    var n := Min(|targets|, |sources|);
    while k < n
      invariant k <= n && |written| == k
      invariant forall j :: 0 <= j < k ==> SubstFrom(sources[j], 0, cfg) == Ok(written[j])
    {
      var r := SubstInText(sources[k], cfg);
      if r.Err? {
        return written, Some(r.error);
      }
      written := written + [r.value];
      k := k + 1;
    }
    err := None;
  }

  function Min(a: nat, b: nat): nat
  {
    if a <= b then a else b
  }

  /** The SUBST_DICT construction variable as subst_emitter sees it. */
  datatype Setting = Unset | Keys(keys: seq<string>) | DictSetting(m: map<string, string>) | CallableSetting(f: string -> Option<string>)

  /** subst_emitter: a list of keys becomes the restrict list, with the
      environment's dictionary as the values; an unset or empty setting
      also takes the environment's dictionary. */
  function Emitter(setting: Setting, envDict: map<string, string>): (r: (Option<seq<string>>, Dict))
    ensures setting.Keys? && setting.keys != [] <==> r.0.Some?
    ensures r.0.Some? ==> r.0.value == setting.keys && r.1 == Table(envDict)
    ensures setting.DictSetting? && setting.m != map[] ==> r == (None, Table(setting.m))
    ensures setting.CallableSetting? ==> r == (None, Callable(setting.f))
    ensures setting.Unset? || setting == Keys([]) || setting == DictSetting(map[]) ==> r == (None, Table(envDict))
  {
    match setting
    case Unset => (None, Table(envDict))
    case Keys(keys) => if keys == [] then (None, Table(envDict)) else (Some(keys), Table(envDict))
    case DictSetting(m) => if m == map[] then (None, Table(envDict)) else (None, Table(m))
    case CallableSetting(f) => (None, Callable(f))
  }

  /** With a restrict list from the emitter, a key outside it raises even
      when the environment defines it. */
  lemma RestrictedKeyRaises(keys: seq<string>, envDict: map<string, string>, marker: string, expand: string -> string, key: string)
    requires keys != [] && key != "" && key !in keys
    ensures var (restrict, dict) := Emitter(Keys(keys), envDict);
      KeyValue(Config(restrict, dict, marker, expand), key) == Err(KeyNotAllowed(key))
  {
  }
}
