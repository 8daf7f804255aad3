/**
 * Stage 2 of the config loader, from `crates/harness-config/src/interpolate.rs`: `${VAR}`,
 * `${VAR:-default}` and the `$${` escape, over every string of a document.
 */
module Interpolate {
  import opened Prelude
  import opened Tables
  import opened Document

  datatype InterpolationError =
    | Unterminated(path: string)
    | EmptyName(path: string)
    | MissingVar(name: string, path: string)

  type Vars = string -> Option<string>

  // ----- one string -----

  function IndexOf(s: string, c: char): (r: Option<nat>)
    ensures r.Some? ==> r.value < |s| && s[r.value] == c && c !in s[..r.value]
    ensures r.None? ==> c !in s
  {
    if s == "" then None
    else if s[0] == c then Some(0)
    else
      match IndexOf(s[1..], c)
      case None => None
      case Some(i) => Some(i + 1)
  }

  /** The index of the first `:-`, which separates a name from its default. */
  function FindSeparator(s: string): (r: Option<nat>)
    ensures r.Some? ==> r.value + 1 < |s|
  {
    if |s| < 2 then None
    else if s[0] == ':' && s[1] == '-' then Some(0)
    else
      match FindSeparator(s[1..])
      case None => None
      case Some(i) => Some(i + 1)
  }

  /** What the text between the braces stands for. */
  function Expand(content: string, vars: Vars, path: string): Result<string, InterpolationError> {
    var (name, fallback) :=
      match FindSeparator(content)
      case Some(i) => (content[..i], Some(content[i + 2..]))
      case None => (content, None);
    if name == "" then Err(EmptyName(path))
    else
      match vars(name)
      case Some(value) => Ok(value)
      case None => if fallback.Some? then Ok(fallback.value) else Err(MissingVar(name, path))
  }

  function Prepend(prefix: string, rest: Result<string, InterpolationError>): Result<string, InterpolationError> {
    match rest
    case Ok(t) => Ok(prefix + t)
    case Err(e) => Err(e)
  }

  /** What the scanner does at the head of a string: give up, or emit text and move on. */
  datatype Scan = Stop(error: InterpolationError) | Emit(text: string, used: nat)

  function Head(s: string, vars: Vars, path: string): (r: Scan)
    requires s != ""
    ensures r.Emit? ==> 0 < r.used <= |s|
  {
    if s[0] != '$' then Emit(s[..1], 1)
    else if |s| > 2 && s[1] == '$' && s[2] == '{' then Emit("${", 3)
    else if |s| > 1 && s[1] == '{' then
      match IndexOf(s[2..], '}')
      case None => Stop(Unterminated(path))
      case Some(k) =>
        (match Expand(s[2..][..k], vars, path)
         case Err(e) => Stop(e)
         case Ok(value) => Emit(value, 3 + k))
    else Emit("$", 1)
  }

  /** The meaning of one string, left to right. */
  function Interpolated(s: string, vars: Vars, path: string): Result<string, InterpolationError> {
    if s == "" then Ok("")
    else
      match Head(s, vars, path)
      case Stop(e) => Err(e)
      case Emit(text, used) => Prepend(text, Interpolated(s[used..], vars, path))
  }

  lemma PrependTwice(a: string, b: string, r: Result<string, InterpolationError>)
    ensures Prepend(a, Prepend(b, r)) == Prepend(a + b, r)
  {
    if r.Ok? { assert a + (b + r.value) == a + b + r.value; }
  }

  lemma PrependNothing(r: Result<string, InterpolationError>)
    ensures Prepend("", r) == r
  {
    if r.Ok? { assert "" + r.value == r.value; }
  }

  /** Emitting the head's text moves the scan past it. */
  lemma Emitted(past: string, s: string, i: nat, vars: Vars, path: string)
    requires i < |s| && Head(s[i..], vars, path).Emit?
    ensures var head := Head(s[i..], vars, path);
            Prepend(past, Interpolated(s[i..], vars, path))
                == Prepend(past + head.text, Interpolated(s[i + head.used..], vars, path))
  {
    var head := Head(s[i..], vars, path);
    assert s[i..][head.used..] == s[i + head.used..];
    PrependTwice(past, head.text, Interpolated(s[i + head.used..], vars, path));
  }

  lemma {:induction false} CloseIs(s: string, k: nat)
    requires k <= |s| && '}' !in s[..k] && (k < |s| ==> s[k] == '}')
    ensures IndexOf(s, '}') == if k < |s| then Some(k) else None
  {
    if k > 0 {
      assert s[..k][0] == s[0] && s[..k][1..] == s[1..][..k - 1];
      CloseIs(s[1..], k - 1);
    }
  }

  /** The inner scan: the first closing brace at or after `start`, or the end of the string. */
  method FindClose(s: string, start: nat) returns (j: nat)
    requires start <= |s|
    ensures start <= j <= |s|
    ensures IndexOf(s[start..], '}') == if j < |s| then Some(j - start) else None
  {
    j := start;
    while j < |s| && s[j] != '}'
      invariant start <= j <= |s|
      invariant '}' !in s[start..j]
    {
      assert s[start..j + 1] == s[start..j] + [s[j]];
      j := j + 1;
    }
    assert s[start..][..j - start] == s[start..j];
    CloseIs(s[start..], j - start);
  }

  /** The character scanner: `i` runs over the string, `j` looks for the closing brace. */
  method InterpolateString(s: string, vars: Vars, path: string) returns (r: Result<string, InterpolationError>)
    ensures r == Interpolated(s, vars, path)
  {
    hide Head, Interpolated, Expand, IndexOf;
    var result := "";
    var i := 0;
    assert s[0..] == s;
    PrependNothing(Interpolated(s, vars, path));
    while i < |s|
      invariant 0 <= i <= |s|
      invariant Prepend(result, Interpolated(s[i..], vars, path)) == Interpolated(s, vars, path)
    {
      if s[i] != '$' {
        HeadCharacter(s, i, vars, path);
        Emitted(result, s, i, vars, path);
        result := result + [s[i]];
        i := i + 1;
        continue;
      }
      if i + 2 < |s| && s[i + 1] == '$' && s[i + 2] == '{' {
        HeadEscape(s, i, vars, path);
        Emitted(result, s, i, vars, path);
        result := result + "${";
        i := i + 3;
        continue;
      }
      if i + 1 < |s| && s[i + 1] == '{' {
        var start := i + 2;
        var j := FindClose(s, start);
        HeadReference(s, i, j, vars, path);
        if j == |s| {
          StopsHere(result, s[i..], vars, path);
          return Err(Unterminated(path));
        }
        var expanded := Expand(s[start..j], vars, path);
        if expanded.Err? {
          StopsHere(result, s[i..], vars, path);
          return expanded;
        }
        Emitted(result, s, i, vars, path);
        result := result + expanded.value;
        i := j + 1;
        continue;
      }
      HeadDollar(s, i, vars, path);
      Emitted(result, s, i, vars, path);
      result := result + "$";
      i := i + 1;
    }
    assert s[|s|..] == "" && result + "" == result;
    NothingLeft(vars, path);
    r := Ok(result);
  }

  lemma NothingLeft(vars: Vars, path: string)
    ensures Interpolated("", vars, path) == Ok("")
  {
  }

  lemma HeadCharacter(s: string, i: nat, vars: Vars, path: string)
    requires i < |s| && s[i] != '$'
    ensures Head(s[i..], vars, path) == Emit([s[i]], 1)
  {
    assert s[i..][..1] == [s[i]];
  }

  lemma HeadEscape(s: string, i: nat, vars: Vars, path: string)
    requires i + 2 < |s| && s[i] == '$' && s[i + 1] == '$' && s[i + 2] == '{'
    ensures Head(s[i..], vars, path) == Emit("${", 3)
  {
  }

  lemma HeadReference(s: string, i: nat, j: nat, vars: Vars, path: string)
    requires i + 2 <= j <= |s| && s[i] == '$' && s[i + 1] == '{'
    requires IndexOf(s[i + 2..], '}') == if j < |s| then Some(j - (i + 2)) else None
    ensures Head(s[i..], vars, path)
         == if j == |s| then Stop(Unterminated(path))
            else match Expand(s[i + 2..j], vars, path)
                 case Err(e) => Stop(e)
                 case Ok(value) => Emit(value, j + 1 - i)
  {
    hide Expand, IndexOf;
    assert s[i..][2..] == s[i + 2..];
    if j < |s| { assert s[i + 2..][..j - (i + 2)] == s[i + 2..j]; }
  }

  lemma HeadDollar(s: string, i: nat, vars: Vars, path: string)
    requires i < |s| && s[i] == '$' && !(i + 1 < |s| && s[i + 1] == '{')
    requires !(i + 2 < |s| && s[i + 1] == '$' && s[i + 2] == '{')
    ensures Head(s[i..], vars, path) == Emit("$", 1)
  {
  }

  lemma StopsHere(past: string, s: string, vars: Vars, path: string)
    requires s != "" && Head(s, vars, path).Stop?
    ensures Prepend(past, Interpolated(s, vars, path)) == Err(Head(s, vars, path).error)
  {
  }

  // ----- escaping -----

  /** Replace every `${` by `$${`. */
  function Escape(s: string): string {
    if s == "" then ""
    else if |s| > 1 && s[0] == '$' && s[1] == '{' then "$${" + Escape(s[2..])
    else s[..1] + Escape(s[1..])
  }

  lemma EscapeKeepsHead(s: string)
    ensures s == "" ==> Escape(s) == ""
    ensures s != "" ==> Escape(s) != "" && Escape(s)[0] == s[0]
  {
  }

  /** A brace, or a dollar with a brace: what a `$` in front of it would open or escape. */
  predicate TakesDollar(rest: string) {
    (|rest| > 0 && rest[0] == '{') || (|rest| > 1 && rest[0] == '$' && rest[1] == '{')
  }

  /** A final `$` of the text stays a lone `$` before `rest`. */
  predicate DollarSafe(text: string, rest: string) {
    text == "" || text[|text| - 1] != '$' || !TakesDollar(rest)
  }

  lemma EscapeHead(rest: string, vars: Vars, path: string)
    ensures Interpolated("$${" + rest, vars, path) == Prepend("${", Interpolated(rest, vars, path))
  {
    assert ("$${" + rest)[3..] == rest;
  }

  /** A character that opens nothing stands for itself. */
  lemma PlainCharacter(c: char, rest: string, vars: Vars, path: string)
    requires c == '$' ==> !TakesDollar(rest)
    ensures Interpolated([c] + rest, vars, path) == Prepend([c], Interpolated(rest, vars, path))
  {
    var s := [c] + rest;
    assert s[1..] == rest && s[..1] == [c];
    if c == '$' { assert Head(s, vars, path) == Emit("$", 1); }
  }

  /** Interpolation reads an escaped text back verbatim, whatever follows it. */
  lemma {:induction false} EscapedTextIsLiteral(text: string, rest: string, vars: Vars, path: string)
    requires DollarSafe(text, rest)
    ensures Interpolated(Escape(text) + rest, vars, path) == Prepend(text, Interpolated(rest, vars, path))
    decreases |text|
  {
    var whole, tail := Escape(text) + rest, Interpolated(rest, vars, path);
    hide Interpolated;
    if text == "" {
      assert whole == rest;
      PrependNothing(tail);
    } else if |text| > 1 && text[0] == '$' && text[1] == '{' {
      EscapedTextIsLiteral(text[2..], rest, vars, path);
      assert whole == "$${" + (Escape(text[2..]) + rest);
      assert whole[3..] == Escape(text[2..]) + rest;
      EscapeHead(Escape(text[2..]) + rest, vars, path);
      PrependTwice("${", text[2..], tail);
      assert "${" + text[2..] == text;
    } else {
      EscapedTextIsLiteral(text[1..], rest, vars, path);
      assert text[..1] == [text[0]];
      assert whole == [text[0]] + (Escape(text[1..]) + rest);
      if text[0] == '$' { LoneDollar(text, rest); }
      PlainCharacter(text[0], Escape(text[1..]) + rest, vars, path);
      PrependTwice(text[..1], text[1..], tail);
      assert text[..1] + text[1..] == text;
    }
  }

  /** An escaped `$` that opens nothing starts neither an escape nor an expression. */
  lemma LoneDollar(text: string, rest: string)
    requires text != "" && text[0] == '$' && !(|text| > 1 && text[1] == '{') && DollarSafe(text, rest)
    ensures !TakesDollar(Escape(text[1..]) + rest)
  {
    EscapeKeepsHead(text[1..]);
    if |text| > 1 && text[1] == '$' && !(|text| > 2 && text[2] == '{') {
      assert text[1..][1..] == text[2..];
      EscapeKeepsHead(text[2..]);
    }
  }

  /** Interpolation undoes escaping, for every string and every variable map. */
  lemma EscapeRoundTrip(s: string, vars: Vars, path: string)
    ensures Interpolated(Escape(s), vars, path) == Ok(s)
  {
    EscapedTextIsLiteral(s, "", vars, path);
    assert Escape(s) + "" == Escape(s);
    assert s + "" == s;
  }

  predicate OpensNothing(s: string) {
    forall i :: 0 <= i < |s| - 1 ==> !(s[i] == '$' && s[i + 1] == '{')
  }

  lemma {:induction false} EscapeOfPlainText(s: string)
    requires OpensNothing(s)
    ensures Escape(s) == s
  {
    if s != "" {
      if |s| > 1 { assert !(s[0] == '$' && s[0 + 1] == '{'); }
      forall i | 0 <= i < |s[1..]| - 1 ensures !(s[1..][i] == '$' && s[1..][i + 1] == '{') {
        assert !(s[i + 1] == '$' && s[(i + 1) + 1] == '{');
      }
      EscapeOfPlainText(s[1..]);
      assert s == s[..1] + s[1..];
    }
  }

  /** Text without `${` passes through unchanged. */
  lemma PlainTextUnchanged(s: string, vars: Vars, path: string)
    requires OpensNothing(s)
    ensures Interpolated(s, vars, path) == Ok(s)
  {
    EscapeOfPlainText(s);
    EscapeRoundTrip(s, vars, path);
  }

  /** A reference that is never closed is refused, wherever it stands. */
  lemma UnterminatedIsRefused(text: string, rest: string, vars: Vars, path: string)
    requires (text == "" || text[|text| - 1] != '$') && '}' !in rest
    ensures Interpolated(Escape(text) + ("${" + rest), vars, path) == Err(Unterminated(path))
  {
    EscapedTextIsLiteral(text, "${" + rest, vars, path);
    assert ("${" + rest)[2..] == rest;
    assert IndexOf(rest, '}').None?;
  }

  lemma EmptyNameExpands(fallback: Option<string>, vars: Vars, path: string)
    ensures Expand(if fallback.Some? then ":-" + fallback.value else "", vars, path) == Err(EmptyName(path))
  {
    var content := if fallback.Some? then ":-" + fallback.value else "";
    assert content[..0] == "";
  }

  lemma RefusedReference(content: string, rest: string, vars: Vars, path: string)
    requires '}' !in content && Expand(content, vars, path).Err?
    ensures Interpolated("${" + content + "}" + rest, vars, path) == Err(Expand(content, vars, path).error)
  {
    hide Expand, IndexOf;
    var s := "${" + content + "}" + rest;
    assert s[2..] == content + "}" + rest;
    assert s[2..][..|content|] == content;
    CloseIs(s[2..], |content|);
  }

  /** A reference without a name is refused, with or without a fallback. */
  lemma EmptyNameIsRefused(text: string, fallback: Option<string>, rest: string, vars: Vars, path: string)
    requires (text == "" || text[|text| - 1] != '$') && (fallback.Some? ==> '}' !in fallback.value)
    ensures var content := if fallback.Some? then ":-" + fallback.value else "";
            Interpolated(Escape(text) + ("${" + content + "}" + rest), vars, path) == Err(EmptyName(path))
  {
    hide Expand, Interpolated, Escape;
    var content := if fallback.Some? then ":-" + fallback.value else "";
    assert '}' !in content;
    EmptyNameExpands(fallback, vars, path);
    RefusedReference(content, rest, vars, path);
    EscapedTextIsLiteral(text, "${" + content + "}" + rest, vars, path);
  }

  // ----- templates -----

  datatype Token = Literal(text: string) | Reference(name: string, fallback: Option<string>)

  /** A name that can be written between braces. */
  predicate WritableName(name: string) {
    name != "" && '}' !in name && FindSeparator(name).None?
  }

  /** Names and fallbacks that can stand between braces; what the literals are does not matter here. */
  predicate WellNamed(tokens: seq<Token>) {
    forall t :: t in tokens && t.Reference? ==> WritableName(t.name) && (t.fallback.Some? ==> '}' !in t.fallback.value)
  }

  /** No literal ends in a `$` that the spelling of what follows would take. */
  predicate Writable(tokens: seq<Token>) {
    tokens == [] ||
    (&& (tokens[0].Literal? ==> DollarSafe(tokens[0].text, Render(tokens[1..])))
     && Writable(tokens[1..]))
  }

  function Content(name: string, fallback: Option<string>): string {
    name + if fallback.Some? then ":-" + fallback.value else ""
  }

  function Render(tokens: seq<Token>): string {
    if tokens == [] then ""
    else
      (match tokens[0]
       case Literal(text) => Escape(text)
       case Reference(name, fallback) => "${" + Content(name, fallback) + "}")
      + Render(tokens[1..])
  }

  /** What a template denotes: literals as they are, references looked up once. */
  function Meaning(tokens: seq<Token>, vars: Vars, path: string): Result<string, InterpolationError> {
    if tokens == [] then Ok("")
    else
      match tokens[0]
      case Literal(text) => Prepend(text, Meaning(tokens[1..], vars, path))
      case Reference(name, fallback) =>
        (match vars(name)
         case Some(value) => Prepend(value, Meaning(tokens[1..], vars, path))
         case None =>
           if fallback.Some? then Prepend(fallback.value, Meaning(tokens[1..], vars, path))
           else Err(MissingVar(name, path)))
  }

  lemma {:induction false} SeparatorAfterName(name: string, fallback: string)
    requires FindSeparator(name).None?
    ensures FindSeparator(name + ":-" + fallback) == Some(|name|)
  {
    var s := name + ":-" + fallback;
    if name != "" {
      SeparatorAfterName(name[1..], fallback);
      assert s[1..] == name[1..] + ":-" + fallback;
    }
  }

  lemma ReferenceExpands(name: string, fallback: Option<string>, vars: Vars, path: string)
    requires WritableName(name)
    ensures Expand(Content(name, fallback), vars, path)
         == match vars(name)
            case Some(value) => Ok(value)
            case None => if fallback.Some? then Ok(fallback.value) else Err(MissingVar(name, path))
  {
    var content := Content(name, fallback);
    if fallback.Some? {
      assert content == name + ":-" + fallback.value;
      SeparatorAfterName(name, fallback.value);
      assert content[..|name|] == name && content[|name| + 2..] == fallback.value;
    } else {
      assert content == name;
    }
  }

  lemma ReferenceMeaning(name: string, fallback: Option<string>, rest: string, vars: Vars, path: string)
    requires WritableName(name) && (fallback.Some? ==> '}' !in fallback.value)
    ensures Interpolated("${" + Content(name, fallback) + "}" + rest, vars, path)
         == match vars(name)
            case Some(value) => Prepend(value, Interpolated(rest, vars, path))
            case None =>
              if fallback.Some? then Prepend(fallback.value, Interpolated(rest, vars, path))
                  else Err(MissingVar(name, path))
  {
    hide Expand, FindSeparator, IndexOf;
    var content := Content(name, fallback);
    var s := "${" + content + "}" + rest;
    assert '}' !in content;
    assert s[2..] == content + "}" + rest;
    assert s[2..][..|content|] == content;
    CloseIs(s[2..], |content|);
    assert s[3 + |content|..] == rest;
    ReferenceExpands(name, fallback, vars, path);
  }

  /**
   * Interpolating the spelling of a template gives its meaning: references are replaced by their
   * value or fallback exactly once, substituted text is never scanned again, and the first
   * unresolved name is the error.
   */
  lemma {:induction false} InterpolationIsMeaning(tokens: seq<Token>, vars: Vars, path: string)
    requires WellNamed(tokens) && Writable(tokens)
    ensures Interpolated(Render(tokens), vars, path) == Meaning(tokens, vars, path)
  {
    if tokens != [] {
      assert tokens[0] in tokens;
      var rest := Render(tokens[1..]);
      InterpolationIsMeaning(tokens[1..], vars, path);
      match tokens[0]
      case Literal(text) => EscapedTextIsLiteral(text, rest, vars, path);
      case Reference(name, fallback) =>
        ReferenceMeaning(name, fallback, rest, vars, path);
    }
  }

  // ----- the converse: a taken dollar changes the meaning -----

  /** Every name is defined, as a text that starts with neither a dollar nor a brace. */
  const ALL_SET: Vars := name => Some("A")

  /** With every name defined a template has a meaning, and its first character shows what it is made of. */
  lemma {:induction false} MeaningStarts(tokens: seq<Token>, path: string)
    ensures var r, m := Render(tokens), Meaning(tokens, ALL_SET, path);
            && m.Ok?
            && (|r| > 0 && r[0] == '{' ==> |m.value| > 0 && m.value[0] == '{')
            && (|r| > 1 && r[0] == '$' && r[1] == '{' ==> |m.value| > 0 && m.value[0] != '{')
  {
    if tokens != [] {
      MeaningStarts(tokens[1..], path);
      match tokens[0]
      case Literal(text) =>
        EscapeKeepsHead(text);
        if text == "" { assert Render(tokens) == Render(tokens[1..]); }
      case Reference(_, _) =>
    }
  }

  lemma PrependDiffers(text: string, r: Result<string, InterpolationError>, s: Result<string, InterpolationError>)
    requires Prepend(text, r) == Prepend(text, s)
    ensures r == s
  {
    if r.Ok? && s.Ok? {
      assert (text + r.value)[|text|..] == r.value && (text + s.value)[|text|..] == s.value;
    }
  }

  lemma EscapeUnfolds(s: string)
    ensures Escape(s) == if s == "" then ""
                         else if |s| > 1 && s[0] == '$' && s[1] == '{' then "$${" + Escape(s[2..])
                         else s[..1] + Escape(s[1..])
  {
  }

  lemma {:induction false} EscapeFinalDollar(text: string)
    ensures Escape(text + "$") == Escape(text) + "$"
  {
    hide Escape;
    var whole := text + "$";
    EscapeUnfolds(whole);
    EscapeUnfolds(text);
    EscapeUnfolds("");
    if text == "" {
      assert whole[1..] == "" && whole[..1] == "$";
    } else if |text| > 1 && text[0] == '$' && text[1] == '{' {
      EscapeFinalDollar(text[2..]);
      assert whole[2..] == text[2..] + "$";
    } else {
      EscapeFinalDollar(text[1..]);
      assert whole[1..] == text[1..] + "$" && whole[..1] == text[..1];
    }
  }

  /** The scan of a `$` that is taken never begins with a `$` followed by what a lone one would leave. */
  lemma TakenDollar(rest: string, tail: string, path: string)
    requires TakesDollar(rest)
    requires |rest| > 0 && rest[0] == '{' ==> |tail| > 0 && tail[0] == '{'
    requires |rest| > 1 && rest[0] == '$' && rest[1] == '{' ==> |tail| > 0 && tail[0] != '{'
    ensures Interpolated("$" + rest, ALL_SET, path) != Ok("$" + tail)
  {
    var s := "$" + rest;
    if rest[0] == '$' {
      assert s[3..] == rest[2..];
      var r := Prepend("${", Interpolated(s[3..], ALL_SET, path));
      assert Interpolated(s, ALL_SET, path) == r;
      if r.Ok? { assert r.value[1] == '{' && ("$" + tail)[1] == tail[0]; }
    } else {
      match Head(s, ALL_SET, path) {
        case Stop(_) =>
        case Emit(text, used) =>
          assert text == "A";
          var r := Prepend(text, Interpolated(s[used..], ALL_SET, path));
          if r.Ok? { assert r.value[0] == 'A' && ("$" + tail)[0] == '$'; }
      }
    }
  }

  /** Two dollars before a brace read as one escape. */
  lemma TwoDollars(rest: string, tail: string, path: string)
    requires |rest| > 0 && rest[0] == '{'
    ensures Interpolated("$$" + rest, ALL_SET, path) != Ok("$$" + tail)
  {
    var s := "$$" + rest;
    var r := Prepend("${", Interpolated(s[3..], ALL_SET, path));
    assert Interpolated(s, ALL_SET, path) == r;
    if r.Ok? { assert r.value[1] == '{' && ("$$" + tail)[1] == '$'; }
  }

  /** A literal whose final `$` is taken is not read as it is written. */
  lemma TakenLiteral(text: string, rest: string, tail: string, path: string)
    requires !DollarSafe(text, rest)
    requires rest[0] == '{' ==> |tail| > 0 && tail[0] == '{'
    requires |rest| > 1 && rest[0] == '$' && rest[1] == '{' ==> |tail| > 0 && tail[0] != '{'
    ensures Interpolated(Escape(text) + rest, ALL_SET, path) != Prepend(text, Ok(tail))
  {
    hide Interpolated;
    var before := text[..|text| - 1];
    assert text == before + "$";
    EscapeFinalDollar(before);
    assert Escape(text) + rest == Escape(before) + ("$" + rest);
    assert text + tail == before + ("$" + tail);
    if DollarSafe(before, "$" + rest) {
      EscapedTextIsLiteral(before, "$" + rest, ALL_SET, path);
      TakenDollar(rest, tail, path);
      if Interpolated(Escape(text) + rest, ALL_SET, path) == Prepend(text, Ok(tail)) {
        PrependDiffers(before, Interpolated("$" + rest, ALL_SET, path), Ok("$" + tail));
      }
    } else {
      var earlier := before[..|before| - 1];
      assert before == earlier + "$";
      EscapeFinalDollar(earlier);
      assert Escape(text) + rest == Escape(earlier) + ("$$" + rest);
      assert text + tail == earlier + ("$$" + tail);
      assert rest[0] == '{';
      EscapedTextIsLiteral(earlier, "$$" + rest, ALL_SET, path);
      TwoDollars(rest, tail, path);
      if Interpolated(Escape(text) + rest, ALL_SET, path) == Prepend(text, Ok(tail)) {
        PrependDiffers(earlier, Interpolated("$$" + rest, ALL_SET, path), Ok("$$" + tail));
      }
    }
  }

  /** With every name defined, a template that is not writable is misread. */
  lemma {:induction false} UnwritableIsMisread(tokens: seq<Token>, path: string)
    requires WellNamed(tokens) && !Writable(tokens)
    ensures Interpolated(Render(tokens), ALL_SET, path) != Meaning(tokens, ALL_SET, path)
  {
    assert tokens[0] in tokens;
    var rest := Render(tokens[1..]);
    var tail := Meaning(tokens[1..], ALL_SET, path);
    MeaningStarts(tokens[1..], path);
    hide Interpolated;
    if tokens[0].Literal? && !DollarSafe(tokens[0].text, rest) {
      TakenLiteral(tokens[0].text, rest, tail.value, path);
    } else {
      UnwritableIsMisread(tokens[1..], path);
      match tokens[0] {
        case Literal(text) =>
          EscapedTextIsLiteral(text, rest, ALL_SET, path);
          if Prepend(text, Interpolated(rest, ALL_SET, path)) == Prepend(text, tail) {
            PrependDiffers(text, Interpolated(rest, ALL_SET, path), tail);
          }
        case Reference(name, fallback) =>
          ReferenceMeaning(name, fallback, rest, ALL_SET, path);
          if Prepend("A", Interpolated(rest, ALL_SET, path)) == Prepend("A", tail) {
            PrependDiffers("A", Interpolated(rest, ALL_SET, path), tail);
          }
      }
    }
  }

  /**
   * The exact condition: a template is read as it is meant, whatever the variables, if and only if
   * none of its literals ends in a `$` that the spelling of what follows takes.
   */
  lemma ReadAsMeantIffWritable(tokens: seq<Token>, path: string)
    requires WellNamed(tokens)
    ensures (forall vars: Vars :: Interpolated(Render(tokens), vars, path) == Meaning(tokens, vars, path))
            <==> Writable(tokens)
  {
    if Writable(tokens) {
      forall vars: Vars ensures Interpolated(Render(tokens), vars, path) == Meaning(tokens, vars, path) {
        InterpolationIsMeaning(tokens, vars, path);
      }
    } else {
      UnwritableIsMisread(tokens, path);
    }
  }

  /** A literal ending in `$` right before a reference is always misread under some variables. */
  lemma DollarBeforeReferenceIsMisread(text: string, name: string, fallback: Option<string>, tokens: seq<Token>,
                                       path: string)
    requires WellNamed([Reference(name, fallback)] + tokens)
    ensures var all := [Literal(text + "$"), Reference(name, fallback)] + tokens;
            && !Writable(all)
            && exists vars: Vars :: Interpolated(Render(all), vars, path) != Meaning(all, vars, path)
  {
    var all := [Literal(text + "$"), Reference(name, fallback)] + tokens;
    assert all[1..] == [Reference(name, fallback)] + tokens;
    assert TakesDollar(Render(all[1..]));
    assert forall t :: t in all ==> t == all[0] || t in all[1..];
    UnwritableIsMisread(all, path);
  }

  /** The excluded spelling: a `$` right before a reference turns it into literal text. */
  lemma DollarBeforeReferenceEscapesIt(name: string, rest: string, vars: Vars, path: string)
    ensures Interpolated("$" + ("${" + name + "}" + rest), vars, path)
         == Prepend("${", Interpolated(name + "}" + rest, vars, path))
  {
    var s := "$" + ("${" + name + "}" + rest);
    assert s[3..] == name + "}" + rest;
  }

  // ----- whole documents -----

  function ItemPath(path: string, i: nat): string {
    path + "[" + Decimal(i) + "]"
  }

  function EntryPath(path: string, key: string): string {
    if path == "" then key else path + "." + key
  }

  /** Every string of the document has a meaning. */
  ghost predicate Resolves(doc: Doc, vars: Vars, path: string) {
    match doc
    case Str(s) => Interpolated(s, vars, path).Ok?
    case Arr(items) => forall i :: 0 <= i < |items| ==> Resolves(items[i], vars, ItemPath(path, i))
    case Table(entries) => forall k :: k in entries ==> Resolves(entries[k], vars, EntryPath(path, k))
    case Opaque(_) => true
  }

  /** The first error of the walk, which takes items in order and entries as they are listed. */
  function ErrorIn(doc: Doc, listing: Listing, vars: Vars, path: string): Option<InterpolationError>
    decreases doc, 1, 0
  {
    match doc
    case Str(s) => ErrorOf(Interpolated(s, vars, path))
    case Arr(_) => ErrorInItems(doc, 0, listing, vars, path)
    case Table(entries) => ErrorInEntries(doc, listing(path, entries), 0, listing, vars, path)
    case Opaque(_) => None
  }

  function ErrorOf(r: Result<string, InterpolationError>): Option<InterpolationError> {
    if r.Ok? then None else Some(r.error)
  }

  function ErrorInItems(doc: Doc, from: nat, listing: Listing, vars: Vars, path: string): Option<InterpolationError>
    requires doc.Arr? && from <= |doc.items|
    decreases doc, 0, |doc.items| - from
  {
    if from == |doc.items| then None
    else
      var e := ErrorIn(doc.items[from], listing, vars, ItemPath(path, from));
      if e.Some? then e else ErrorInItems(doc, from + 1, listing, vars, path)
  }

  function ErrorInEntries(doc: Doc, keys: seq<string>, from: nat, listing: Listing, vars: Vars, path: string)
    : Option<InterpolationError>
    requires doc.Table? && from <= |keys| && ListsAll(keys, doc.entries.Keys)
    decreases doc, 0, |keys| - from
  {
    if from == |keys| then None
    else
      var e := ErrorIn(doc.entries[keys[from]], listing, vars, EntryPath(path, keys[from]));
      if e.Some? then e else ErrorInEntries(doc, keys, from + 1, listing, vars, path)
  }

  /** The walk meets an error exactly when some string has no meaning, whatever the listing. */
  lemma {:induction false} ErrorIffUnresolved(doc: Doc, listing: Listing, vars: Vars, path: string)
    ensures ErrorIn(doc, listing, vars, path).None? <==> Resolves(doc, vars, path)
    decreases doc, 1, 0
  {
    hide Interpolated, ItemPath, EntryPath;
    match doc
    case Str(_) =>
    case Arr(items) =>
      ItemErrorIffUnresolved(doc, 0, listing, vars, path);
      assert forall k :: 0 <= k < |items| ==>
             (ItemResolves(doc, k, vars, path) <==> Resolves(items[k], vars, ItemPath(path, k)));
    case Table(entries) =>
      var keys := listing(path, entries);
      assert ListsAll(keys, entries.Keys);
      EntryErrorIffUnresolved(doc, keys, 0, listing, vars, path);
      assert forall key :: key in entries ==> key in keys;
      assert forall key :: key in entries ==>
             (EntryResolves(doc, key, vars, path) <==> Resolves(entries[key], vars, EntryPath(path, key)));
    case Opaque(_) =>
  }

  ghost predicate ItemResolves(doc: Doc, k: nat, vars: Vars, path: string)
    requires doc.Arr? && k < |doc.items|
  {
    Resolves(doc.items[k], vars, ItemPath(path, k))
  }

  ghost predicate EntryResolves(doc: Doc, key: string, vars: Vars, path: string)
    requires doc.Table? && key in doc.entries
  {
    Resolves(doc.entries[key], vars, EntryPath(path, key))
  }

  lemma {:induction false} ItemErrorIffUnresolved(doc: Doc, from: nat, listing: Listing, vars: Vars, path: string)
    requires doc.Arr? && from <= |doc.items|
    ensures ErrorInItems(doc, from, listing, vars, path).None?
       <==> forall k :: from <= k < |doc.items| ==> ItemResolves(doc, k, vars, path)
    decreases doc, 0, |doc.items| - from
  {
    if from < |doc.items| {
      ErrorIffUnresolved(doc.items[from], listing, vars, ItemPath(path, from));
      var e := ErrorIn(doc.items[from], listing, vars, ItemPath(path, from));
      assert e.None? <==> ItemResolves(doc, from, vars, path);
      hide ErrorIn, Resolves, ItemResolves;
      ItemErrorIffUnresolved(doc, from + 1, listing, vars, path);
    }
  }

  lemma {:induction false} EntryErrorIffUnresolved(doc: Doc, keys: seq<string>, from: nat, listing: Listing,
                                                   vars: Vars, path: string)
    requires doc.Table? && from <= |keys| && ListsAll(keys, doc.entries.Keys)
    ensures ErrorInEntries(doc, keys, from, listing, vars, path).None?
       <==> forall k :: from <= k < |keys| ==> EntryResolves(doc, keys[k], vars, path)
    decreases doc, 0, |keys| - from
  {
    assert forall k :: 0 <= k < |keys| ==> keys[k] in doc.entries;
    hide ListsAll, ErrorIn, Resolves, EntryPath;
    if from < |keys| {
      ErrorIffUnresolved(doc.entries[keys[from]], listing, vars, EntryPath(path, keys[from]));
      var e := ErrorIn(doc.entries[keys[from]], listing, vars, EntryPath(path, keys[from]));
      assert e.None? <==> EntryResolves(doc, keys[from], vars, path);
      hide EntryResolves;
      EntryErrorIffUnresolved(doc, keys, from + 1, listing, vars, path);
    }
  }

  /** One step from a document to a part of it. */
  datatype Step = Key(key: string) | Index(index: nat)

  /** How the way to a part is written: `a.b[0].c`. */
  function Spelled(from: string, way: seq<Step>): string
    decreases |way|
  {
    if way == [] then from
    else
      match way[0]
      case Key(key) => Spelled(if from == "" then key else from + "." + key, way[1..])
      case Index(i) => Spelled(from + "[" + Decimal(i) + "]", way[1..])
  }

  /** The string at the end of the way. */
  function StringAt(doc: Doc, way: seq<Step>): Option<string> {
    if way == [] then if doc.Str? then Some(doc.text) else None
    else
      match (doc, way[0])
      case (Table(entries), Key(key)) => if key in entries then StringAt(entries[key], way[1..]) else None
      case (Arr(items), Index(i)) => if i < |items| then StringAt(items[i], way[1..]) else None
      case _ => None
  }

  /** The error comes from a string of the document, and names the way to it. */
  ghost predicate ComesFrom(doc: Doc, vars: Vars, path: string, e: InterpolationError) {
    exists way :: CameAlong(doc, vars, path, way, e)
  }

  predicate CameAlong(doc: Doc, vars: Vars, path: string, way: seq<Step>, e: InterpolationError) {
    && StringAt(doc, way).Some? && e.path == Spelled(path, way)
    && Interpolated(StringAt(doc, way).value, vars, Spelled(path, way)) == Err(e)
  }

  lemma {:induction false} ErrorHasPath(s: string, vars: Vars, path: string)
    ensures Interpolated(s, vars, path).Err? ==> Interpolated(s, vars, path).error.path == path
    decreases |s|
  {
    if s != "" {
      match Head(s, vars, path)
      case Stop(_) =>
      case Emit(_, used) => ErrorHasPath(s[used..], vars, path);
    }
  }

  /** Every error names the way to a string of the document that raises it. */
  lemma {:induction false} ErrorNamesItsString(doc: Doc, listing: Listing, vars: Vars, path: string)
    requires ErrorIn(doc, listing, vars, path).Some?
    ensures ComesFrom(doc, vars, path, ErrorIn(doc, listing, vars, path).value)
    decreases doc, 1, 0
  {
    match doc
    case Str(s) =>
      ErrorHasPath(s, vars, path);
      assert CameAlong(doc, vars, path, [], ErrorIn(doc, listing, vars, path).value);
    case Arr(_) => ErrorNamesItem(doc, 0, listing, vars, path);
    case Table(entries) => ErrorNamesEntry(doc, listing(path, entries), 0, listing, vars, path);
    case Opaque(_) =>
  }

  lemma {:induction false} ErrorNamesItem(doc: Doc, from: nat, listing: Listing, vars: Vars, path: string)
    requires doc.Arr? && from <= |doc.items| && ErrorInItems(doc, from, listing, vars, path).Some?
    ensures ComesFrom(doc, vars, path, ErrorInItems(doc, from, listing, vars, path).value)
    decreases doc, 0, |doc.items| - from
  {
    hide Interpolated;
    var e := ErrorIn(doc.items[from], listing, vars, ItemPath(path, from));
    if e.Some? {
      ErrorNamesItsString(doc.items[from], listing, vars, ItemPath(path, from));
      var way :| CameAlong(doc.items[from], vars, ItemPath(path, from), way, e.value);
      assert ([Index(from)] + way)[1..] == way;
      assert CameAlong(doc, vars, path, [Index(from)] + way, e.value);
    } else {
      ErrorNamesItem(doc, from + 1, listing, vars, path);
    }
  }

  lemma {:induction false} ErrorNamesEntry(doc: Doc, keys: seq<string>, from: nat, listing: Listing, vars: Vars,
                                           path: string)
    requires doc.Table? && from <= |keys| && ListsAll(keys, doc.entries.Keys)
    requires ErrorInEntries(doc, keys, from, listing, vars, path).Some?
    ensures ComesFrom(doc, vars, path, ErrorInEntries(doc, keys, from, listing, vars, path).value)
    decreases doc, 0, |keys| - from
  {
    hide Interpolated;
    var key := keys[from];
    var e := ErrorIn(doc.entries[key], listing, vars, EntryPath(path, key));
    if e.Some? {
      ErrorNamesItsString(doc.entries[key], listing, vars, EntryPath(path, key));
      var way :| CameAlong(doc.entries[key], vars, EntryPath(path, key), way, e.value);
      assert ([Key(key)] + way)[1..] == way;
      assert CameAlong(doc, vars, path, [Key(key)] + way, e.value);
    } else {
      ErrorNamesEntry(doc, keys, from + 1, listing, vars, path);
    }
  }

  /** The document with every string replaced by its meaning. */
  function Substituted(doc: Doc, vars: Vars, path: string): Doc {
    match doc
    case Str(s) => if Interpolated(s, vars, path).Ok? then Str(Interpolated(s, vars, path).value) else doc
    case Arr(items) => Arr(seq(|items|, i requires 0 <= i < |items| => Substituted(items[i], vars, ItemPath(path, i))))
    case Table(entries) => Table(map k | k in entries :: Substituted(entries[k], vars, EntryPath(path, k)))
    case Opaque(_) => doc
  }

  /** Walk the document, interpolating every string; the first failing string is the error. */
  method InterpolateDocument(doc: Doc, listing: Listing, vars: Vars, path: string)
    returns (r: Result<Doc, InterpolationError>)
    ensures r == match ErrorIn(doc, listing, vars, path)
                 case None => Ok(Substituted(doc, vars, path))
                 case Some(e) => Err(e)
    decreases doc, 1
  {
    hide Interpolated;
    match doc
    case Str(s) =>
      var t := InterpolateString(s, vars, path);
      r := match t case Ok(text) => Ok(Str(text)) case Err(e) => Err(e);
    case Arr(_) => r := InterpolateItems(doc, listing, vars, path);
    case Table(_) => r := InterpolateEntries(doc, listing, vars, path);
    case Opaque(_) => r := Ok(doc);
  }

  lemma ItemsSubstituted(doc: Doc, done: seq<Doc>, vars: Vars, path: string)
    requires doc.Arr? && |done| == |doc.items|
    requires forall k :: 0 <= k < |done| ==> done[k] == Substituted(doc.items[k], vars, ItemPath(path, k))
    ensures Substituted(doc, vars, path) == Arr(done)
  {
  }

  lemma EntriesSubstituted(doc: Doc, done: Entries, vars: Vars, path: string)
    requires doc.Table? && done.Keys == doc.entries.Keys
    requires forall k :: k in done ==> done[k] == Substituted(doc.entries[k], vars, EntryPath(path, k))
    ensures Substituted(doc, vars, path) == Table(done)
  {
  }

  method InterpolateItems(doc: Doc, listing: Listing, vars: Vars, path: string)
    returns (r: Result<Doc, InterpolationError>)
    requires doc.Arr?
    ensures r == match ErrorInItems(doc, 0, listing, vars, path)
                 case None => Ok(Substituted(doc, vars, path))
                 case Some(e) => Err(e)
    decreases doc, 0
  {
    hide ErrorIn, ItemPath, Substituted;
    var items, done := doc.items, [];
    for i := 0 to |items|
      invariant ErrorInItems(doc, i, listing, vars, path) == ErrorInItems(doc, 0, listing, vars, path)
      invariant |done| == i
      invariant forall k :: 0 <= k < i ==> done[k] == Substituted(items[k], vars, ItemPath(path, k))
    {
      var item := InterpolateDocument(items[i], listing, vars, ItemPath(path, i));
      if item.Err? {
        return Err(item.error);
      }
      done := done + [item.value];
    }
    ItemsSubstituted(doc, done, vars, path);
    r := Ok(Arr(done));
  }

  method InterpolateEntries(doc: Doc, listing: Listing, vars: Vars, path: string)
    returns (r: Result<Doc, InterpolationError>)
    requires doc.Table?
    ensures r == match ErrorInEntries(doc, listing(path, doc.entries), 0, listing, vars, path)
                 case None => Ok(Substituted(doc, vars, path))
                 case Some(e) => Err(e)
    decreases doc, 0
  {
    var entries := doc.entries;
    var keys := listing(path, entries);
    assert ListsAll(keys, entries.Keys);
    AllNamed(keys, entries.Keys);
    hide ErrorIn, EntryPath, ListsAll, Named, Substituted;
    var done: Entries := map[];
    for i := 0 to |keys|
      invariant ErrorInEntries(doc, keys, i, listing, vars, path) == ErrorInEntries(doc, keys, 0, listing, vars, path)
      invariant done.Keys == Named(keys[..i]) <= entries.Keys
      invariant forall k :: k in done ==> done[k] == Substituted(entries[k], vars, EntryPath(path, k))
    {
      var key := keys[i];
      NextNamed(keys, entries.Keys, i);
      var entry := InterpolateDocument(entries[key], listing, vars, EntryPath(path, key));
      if entry.Err? {
        return Err(entry.error);
      }
      done := done[key := entry.value];
    }
    EntriesSubstituted(doc, done, vars, path);
    r := Ok(Table(done));
  }

  function EscapeDocument(doc: Doc): Doc {
    match doc
    case Str(s) => Str(Escape(s))
    case Arr(items) => Arr(seq(|items|, i requires 0 <= i < |items| => EscapeDocument(items[i])))
    case Table(entries) => Table(map k | k in entries :: EscapeDocument(entries[k]))
    case Opaque(_) => doc
  }

  /** Interpolation undoes escaping on whole documents: nothing fails and nothing changes. */
  lemma {:induction false} EscapeDocumentRoundTrip(doc: Doc, vars: Vars, path: string)
    ensures Resolves(EscapeDocument(doc), vars, path)
    ensures Substituted(EscapeDocument(doc), vars, path) == doc
  {
    match doc
    case Str(s) => EscapeRoundTrip(s, vars, path);
    case Arr(items) =>
      forall i | 0 <= i < |items| { EscapeDocumentRoundTrip(items[i], vars, ItemPath(path, i)); }
    case Table(entries) =>
      forall k | k in entries { EscapeDocumentRoundTrip(entries[k], vars, EntryPath(path, k)); }
    case Opaque(_) =>
  }
}
