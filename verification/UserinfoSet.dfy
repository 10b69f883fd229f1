/** What the URL parser does to the characters of a username or password: those of the
    userinfo percent-encode set are escaped, and an escape that is there already is kept. */
module UserinfoSet {
  import opened Options
  import opened UriComponent

  /** The set, for the characters an authority can hold. */
  predicate InUserinfoSet(c: char) {
    c <= ' ' || c > '~' || c in "\"<>`{}:;=@[]^|"
  }

  function UserinfoEncode(s: string): string {
    if s == "" then ""
    else (if InUserinfoSet(s[0]) then EscapeAll(Utf8(s[0] as int)) else [s[0]]) + UserinfoEncode(s[1..])
  }

  lemma {:induction false} PlainStays(s: string)
    requires AllPlain(s)
    ensures UserinfoEncode(s) == s
  {
    if s == "" {
    } else {
      PlainStays(s[1..]);
      assert IsPlain(s[0]) && !InUserinfoSet(s[0]);
      assert [s[0]] + s[1..] == s;
    }
  }

  // ----- decoding takes out what the parser put in, and nothing else -----

  lemma Kept(s: string)
    requires s != "" && !InUserinfoSet(s[0])
    ensures UserinfoEncode(s) == [s[0]] + UserinfoEncode(s[1..])
    ensures UserinfoEncode(s) != "" && UserinfoEncode(s)[0] == s[0] && UserinfoEncode(s)[1..] == UserinfoEncode(s[1..])
  {
  }

  /** The first character that comes out is no hexadecimal digit unless it went in as one. */
  lemma FirstOut(s: string)
    requires s != "" && HexValue(s[0]).None?
    ensures UserinfoEncode(s) != "" && HexValue(UserinfoEncode(s)[0]).None?
  {
    if InUserinfoSet(s[0]) {
      var bytes := Utf8(s[0] as int);
      assert EscapeAll(bytes) == Escape(bytes[0]) + EscapeAll(bytes[1..]);
    }
  }

  lemma {:induction false} KeptPrefix(s: string, n: nat)
    requires n <= |s| && forall i :: 0 <= i < n ==> !InUserinfoSet(s[i])
    ensures UserinfoEncode(s) == s[..n] + UserinfoEncode(s[n..])
    decreases n
  {
    if n == 0 {
      assert s[0..] == s;
    } else {
      KeptPrefix(s[1..], n - 1);
      assert s[..n] == [s[0]] + s[1..][..n - 1] && s[1..][n - 1..] == s[n..];
    }
  }

  lemma KeptEscape(s: string)
    requires Escaped(s).Some?
    ensures Escaped(UserinfoEncode(s)) == Escaped(s) && UserinfoEncode(s)[3..] == UserinfoEncode(s[3..])
  {
    KeptPrefix(s, 3);
    var e := UserinfoEncode(s);
    assert e[0] == s[0] && e[1] == s[1] && e[2] == s[2];
  }

  /** What is not an escape does not become one. */
  lemma BadEscape(s: string)
    requires s != "" && s[0] == '%' && Escaped(s).None?
    ensures Escaped(UserinfoEncode(s)).None?
  {
    Kept(s);
    if |s| >= 2 {
      if HexValue(s[1]).None? {
        FirstOut(s[1..]);
      } else {
        Kept(s[1..]);
        assert s[1..][1..] == s[2..];
        if |s| >= 3 { FirstOut(s[2..]); }
      }
    }
  }

  /** A byte past the first that cannot continue a sequence. */
  predicate Breaks(bytes: seq<Byte>, first: bool) {
    exists k :: 0 <= k < |bytes| && !IsContinuation(bytes[k]) && (k == 0 ==> first)
  }

  lemma FirstByteBreaks(c: char, after: string)
    ensures var b := Escaped(EscapeAll(Utf8(c as int)) + after); b.Some? && !IsContinuation(b.value)
  {
    FirstRoundTrip(Utf8(c as int), after);
  }

  /** A run of escapes stays the run that it is; where there is none, escaping the character
      in its way makes none that is UTF-8. */
  lemma {:induction false} RunKept(s: string, n: nat)
    ensures EscapedRun(s, n).Some? ==>
              EscapedRun(UserinfoEncode(s), n) == EscapedRun(s, n)
                  && UserinfoEncode(s)[3 * n..] == UserinfoEncode(s[3 * n..])
    ensures EscapedRun(s, n).None? && EscapedRun(UserinfoEncode(s), n).Some? ==>
              Breaks(EscapedRun(UserinfoEncode(s), n).value, s == "" || s[0] != '%')
    decreases n
  {
    if n == 0 {
    } else {
      var e := UserinfoEncode(s);
      if Escaped(s).Some? {
        KeptEscape(s);
        RunKept(s[3..], n - 1);
        RunStep(s, e, n);
      } else if s != "" && s[0] == '%' {
        BadEscape(s);
      } else if s != "" && InUserinfoSet(s[0]) {
        FirstByteBreaks(s[0], UserinfoEncode(s[1..]));
        if EscapedRun(e, n).Some? { assert EscapedRun(e, n).value[0] == Escaped(e).value; }
      }
    }
  }

  lemma RunStep(s: string, e: string, n: nat)
    requires n > 0 && Escaped(s).Some? && Escaped(e) == Escaped(s)
    ensures EscapedRun(s[3..], n - 1).Some? && EscapedRun(e[3..], n - 1) == EscapedRun(s[3..], n - 1) ==>
              && EscapedRun(e, n) == EscapedRun(s, n) && EscapedRun(s, n).Some?
              && s[3..][3 * (n - 1)..] == s[3 * n..] && e[3..][3 * (n - 1)..] == e[3 * n..]
    ensures EscapedRun(s, n).Some? ==> EscapedRun(s[3..], n - 1).Some?
    ensures EscapedRun(e, n).Some? && EscapedRun(e[3..], n - 1).Some?
             && Breaks(EscapedRun(e[3..], n - 1).value, true) ==>
              Breaks(EscapedRun(e, n).value, false)
  {
    if EscapedRun(e, n).Some? && Breaks(EscapedRun(e[3..], n - 1).value, true) {
      var tail := EscapedRun(e[3..], n - 1).value;
      var k :| 0 <= k < |tail| && !IsContinuation(tail[k]);
      assert EscapedRun(e, n).value[k + 1] == tail[k];
    }
  }

  lemma BrokenIsNotUtf8(bytes: seq<Byte>)
    requires Breaks(bytes, false)
    ensures FromUtf8(bytes).None?
  {
    var k :| 0 <= k < |bytes| && !IsContinuation(bytes[k]) && k != 0;
  }

  lemma DecodeCharKept(s: string)
    requires s != "" && s[0] == '%'
    ensures UserinfoEncode(s) != "" && DecodeChar(UserinfoEncode(s)) == DecodeChar(s)
    ensures DecodeChar(s).Some? ==>
              UserinfoEncode(s)[DecodeChar(s).value.1..] == UserinfoEncode(s[DecodeChar(s).value.1..])
  {
    Kept(s);
    var e := UserinfoEncode(s);
    if Escaped(s).None? {
      BadEscape(s);
    } else {
      KeptEscape(s);
      if Width(Escaped(s).value).Some? {
        var n := Width(Escaped(s).value).value;
        RunKept(s, n);
        if EscapedRun(s, n).None? && EscapedRun(e, n).Some? { BrokenIsNotUtf8(EscapedRun(e, n).value); }
      }
    }
  }

  /** Whatever the characters: decoding sees through the parser's escaping, and fails if and
      only if it would have failed without it. */
  lemma {:induction false} DecodeSeesThrough(s: string)
    ensures Decode(UserinfoEncode(s)) == Decode(s)
    decreases |s|
  {
    if s == "" {
    } else {
      var e := UserinfoEncode(s);
      if InUserinfoSet(s[0]) {
        EscapedRoundTrip(s[0], UserinfoEncode(s[1..]));
        assert e[|EscapeAll(Utf8(s[0] as int))|..] == UserinfoEncode(s[1..]);
        DecodeSeesThrough(s[1..]);
      } else if s[0] == '%' {
        DecodeCharKept(s);
        if DecodeChar(s).Some? { DecodeSeesThrough(s[DecodeChar(s).value.1..]); }
      } else {
        Kept(s);
        DecodeSeesThrough(s[1..]);
      }
    }
  }
}
