/** Scanning and trimming strings. */
module Text {
  import opened Options

  /** White space as JavaScript has it. */
  predicate IsSpace(c: char) {
    || '\t' <= c <= '\r' || c == ' ' || c == '\U{A0}' || c == '\U{1680}' || '\U{2000}' <= c <= '\U{200A}'
    || c == '\U{2028}' || c == '\U{2029}' || c == '\U{202F}' || c == '\U{205F}' || c == '\U{3000}' || c == '\U{FEFF}'
  }

  /** Where the run of such characters that starts at `i` ends. */
  function SpanEnd(s: string, i: nat, inClass: char -> bool): (end: nat)
    requires i <= |s|
    ensures i <= end <= |s| && (forall k :: i <= k < end ==> inClass(s[k])) && (end < |s| ==> !inClass(s[end]))
    decreases |s| - i
  {
    if i == |s| || !inClass(s[i]) then i else SpanEnd(s, i + 1, inClass)
  }

  predicate All(s: string, from: nat, to: nat, inClass: char -> bool)
    requires from <= to <= |s|
  {
    forall k :: from <= k < to ==> inClass(s[k])
  }

  lemma {:induction false} SpanIs(s: string, i: nat, n: nat, inClass: char -> bool)
    requires i <= n <= |s| && All(s, i, n, inClass) && (n < |s| ==> !inClass(s[n]))
    ensures SpanEnd(s, i, inClass) == n
    decreases n - i
  {
    if i == n {
    } else {
      SpanIs(s, i + 1, n, inClass);
    }
  }

  function Decimal(n: nat): (s: string)
    ensures s != "" && forall i :: 0 <= i < |s| ==> '0' <= s[i] <= '9'
  {
    (if n < 10 then "" else Decimal(n / 10)) + ['0' + (n % 10) as char]
  }

  /** The order of bytes, a prefix first. */
  predicate Precedes(a: string, b: string) {
    a == "" || (b != "" && (a[0] < b[0] || (a[0] == b[0] && Precedes(a[1..], b[1..]))))
  }

  lemma {:induction false} PrecedesIsTotal(a: string, b: string)
    ensures Precedes(a, b) || Precedes(b, a)
  {
    if a == "" || b == "" || a[0] != b[0] {
    } else {
      PrecedesIsTotal(a[1..], b[1..]);
    }
  }

  lemma {:induction false} PrecedesIsTransitive(a: string, b: string, c: string)
    requires Precedes(a, b) && Precedes(b, c)
    ensures Precedes(a, c)
  {
    if a == "" || a[0] != b[0] || b[0] != c[0] {
    } else {
      PrecedesIsTransitive(a[1..], b[1..], c[1..]);
    }
  }

  function TrimEnd(s: string): string {
    if s != "" && IsSpace(s[|s| - 1]) then TrimEnd(s[..|s| - 1]) else s
  }

  function Trim(s: string): string {
    TrimEnd(s[SpanEnd(s, 0, IsSpace)..])
  }

  /** An empty string stands for nothing. */
  function NonEmpty(s: string): Option<string> {
    if s == "" then None else Some(s)
  }
}
