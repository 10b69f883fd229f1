/** Substituting `{{placeholders}}` in a stored flow. */
module Interpolation {
  import opened Options
  import opened Text

  type Context = map<string, string>

  predicate IsWord(c: char) {
    'a' <= c <= 'z' || 'A' <= c <= 'Z' || '0' <= c <= '9' || c == '_'
  }

  datatype Match = Match(key: string, length: nat)

  /** A placeholder at the start of the text, matched greedily. */
  function Placeholder(s: string): (m: Option<Match>)
    ensures m.Some? ==> 0 < m.value.length <= |s|
  {
    if |s| < 2 || s[0] != '{' || s[1] != '{' then None else
    var a := SpanEnd(s, 2, IsSpace);
    var b := SpanEnd(s, a, IsWord);
    var c := SpanEnd(s, b, IsSpace);
    if b > a && c + 2 <= |s| && s[c] == '}' && s[c + 1] == '}' then Some(Match(s[a..b], c + 2)) else None
  }

  /** An unknown placeholder stays as it is written, and a value put in is not looked at again. */
  function Interpolate(template: string, context: Context): string
    decreases |template|
  {
    if template == "" then ""
    else
      match Placeholder(template)
      case Some(m) =>
        (if m.key in context then context[m.key] else template[..m.length]) + Interpolate(template[m.length..], context)
      case None => [template[0]] + Interpolate(template[1..], context)
  }

  /** The names a template asks for. */
  function Mentioned(template: string): set<string>
    decreases |template|
  {
    if template == "" then {}
    else
      match Placeholder(template)
      case Some(m) => {m.key} + Mentioned(template[m.length..])
      case None => Mentioned(template[1..])
  }

  /** Only the names asked for matter, and nothing is ever blanked: with none of them
      known the text is typed as it stands. */
  lemma {:induction false} OnlyMentionedMatter(template: string, a: Context, b: Context)
    requires forall k :: k in Mentioned(template) ==> (k in a <==> k in b) && (k in a ==> a[k] == b[k])
    ensures Interpolate(template, a) == Interpolate(template, b)
    decreases |template|
  {
    if template == "" {
    } else {
      match Placeholder(template)
      case Some(m) => OnlyMentionedMatter(template[m.length..], a, b);
      case None => OnlyMentionedMatter(template[1..], a, b);
    }
  }

  lemma {:induction false} UnknownIsKept(template: string, context: Context)
    requires forall k :: k in Mentioned(template) ==> k !in context
    ensures Interpolate(template, context) == template
    decreases |template|
  {
    if template == "" {
    } else {
      match Placeholder(template)
      case Some(m) =>
        UnknownIsKept(template[m.length..], context);
        assert template[..m.length] + template[m.length..] == template;
      case None =>
        UnknownIsKept(template[1..], context);
        assert [template[0]] + template[1..] == template;
    }
  }

  // ----- against what a placeholder looks like -----

  /** What `\w` stands for, by code point: a digit, a letter or an underscore. */
  predicate IsNameCharacter(c: char) {
    48 <= c as int < 58 || 65 <= c as int < 91 || c as int == 95 || 97 <= c as int < 123
  }

  /** Two braces, spaces, a name from `a` to `b`, spaces, and two braces at `c`. */
  predicate LooksLike(s: string, a: nat, b: nat, c: nat) {
    && 2 <= a < b <= c && c + 2 <= |s|
    && s[0] == '{' && s[1] == '{' && s[c] == '}' && s[c + 1] == '}'
    && All(s, 2, a, IsSpace) && All(s, a, b, IsNameCharacter) && All(s, b, c, IsSpace)
  }

  /** Spaces, word characters and braces are three different things, so the greedy match is
      the only one there can be. */
  lemma Recognized(s: string, a: nat, b: nat, c: nat, key: string)
    requires LooksLike(s, a, b, c) && key == s[a..b]
    ensures s != "" && Placeholder(s) == Some(Match(key, c + 2))
  {
    SpanIs(s, 2, a, IsSpace);
    SpanIs(s, a, b, IsWord);
    SpanIs(s, b, c, IsSpace);
  }

  lemma RecognizedOnly(s: string) returns (a: nat, b: nat, c: nat)
    requires Placeholder(s).Some?
    ensures LooksLike(s, a, b, c) && Placeholder(s) == Some(Match(s[a..b], c + 2))
  {
    a := SpanEnd(s, 2, IsSpace);
    b := SpanEnd(s, a, IsWord);
    c := SpanEnd(s, b, IsSpace);
  }

  /** No placeholder begins in the text before the rest. */
  predicate IsLiteral(before: string, rest: string)
    decreases |before|
  {
    before == "" || (Placeholder(before + rest).None? && IsLiteral(before[1..], rest))
  }

  lemma OneLiteral(s: string, context: Context)
    requires s != "" && Placeholder(s).None?
    ensures Interpolate(s, context) == [s[0]] + Interpolate(s[1..], context)
  {
  }

  /** Such text is typed as it stands. */
  lemma {:induction false} LiteralIsKept(before: string, rest: string, context: Context)
    requires IsLiteral(before, rest)
    ensures Interpolate(before + rest, context) == before + Interpolate(rest, context)
    decreases |before|
  {
    if before == "" {
      assert before + rest == rest;
    } else {
      var s := before + rest;
      OneLiteral(s, context);
      assert s[0] == before[0] && s[1..] == before[1..] + rest;
      LiteralIsKept(before[1..], rest, context);
      Put(before, Interpolate(rest, context));
    }
  }

  lemma Put(before: string, tail: string)
    requires before != ""
    ensures [before[0]] + (before[1..] + tail) == before + tail
  {
  }

  /** A known name is replaced by its value exactly: braces inside the value are typed, not
      expanded, and what follows is looked at on its own. */
  lemma KnownIsReplaced(s: string, a: nat, b: nat, c: nat, key: string, context: Context)
    requires LooksLike(s, a, b, c) && key == s[a..b] && key in context
    ensures Interpolate(s, context) == context[key] + Interpolate(s[c + 2..], context)
  {
    Recognized(s, a, b, c, key);
    Step(s, key, c + 2, context);
  }

  lemma Step(s: string, key: string, length: nat, context: Context)
    requires s != "" && Placeholder(s) == Some(Match(key, length)) && key in context
    ensures Interpolate(s, context) == context[key] + Interpolate(s[length..], context)
  {
  }
}
