/** The string operations of Go's `strings` package that the connector relies on. */
module Strings {
  import opened Collections

  predicate HasPrefix(s: string, prefix: string) {
    prefix <= s
  }

  predicate HasSuffix(s: string, suffix: string) {
    |suffix| <= |s| && s[|s| - |suffix|..] == suffix
  }

  function TrimPrefix(s: string, prefix: string): string {
    if HasPrefix(s, prefix) then s[|prefix|..] else s
  }

  /** The text before the first `sep` and the text after it. */
  function Cut(s: string, sep: char): Option<(string, string)> {
    if s == [] then None
    else if s[0] == sep then Some(([], s[1..]))
    else match Cut(s[1..], sep)
         case None => None
         case Some((before, after)) => Some(([s[0]] + before, after))
  }

  /** `strings.SplitN(s, sep, n)` for n >= 1: at most n parts, the last one holds the rest. */
  function SplitN(s: string, sep: char, n: nat): (parts: seq<string>)
    requires n >= 1
    decreases n
  {
    if n == 1 then [s]
    else match Cut(s, sep)
         case None => [s]
         case Some((before, after)) => [before] + SplitN(after, sep, n - 1)
  }

  /** Cutting inverts joining exactly when the first part is free of the separator. */
  lemma {:induction false} CutJoin(a: string, b: string, sep: char)
    ensures sep !in a ==> Cut(a + [sep] + b, sep) == Some((a, b))
    ensures sep in a ==> Cut(a + [sep] + b, sep).Some? && |Cut(a + [sep] + b, sep).value.1| > |b|
  {
    var s := a + [sep] + b;
    if a == [] {
      assert s[1..] == b;
    } else {
      assert s[1..] == a[1..] + [sep] + b;
      assert a == [a[0]] + a[1..];
      CutJoin(a[1..], b, sep);
    }
  }

  /** A cut is made at the first separator, and exactly when there is one. */
  lemma {:induction false} CutIff(s: string, sep: char)
    ensures Cut(s, sep).Some? <==> sep in s
    ensures Cut(s, sep).Some? ==>
              s == Cut(s, sep).value.0 + [sep] + Cut(s, sep).value.1 && sep !in Cut(s, sep).value.0
  {
    if s != [] && s[0] != sep {
      CutIff(s[1..], sep);
      assert s == [s[0]] + s[1..];
    }
  }

  /** Two joined strings are equal only part by part, when the first parts hold no separator. */
  lemma JoinInjective(a: string, x: string, b: string, y: string, sep: char)
    requires sep !in a && sep !in b
    requires a + [sep] + x == b + [sep] + y
    ensures a == b && x == y
  {
    CutJoin(a, x, sep);
    CutJoin(b, y, sep);
  }
}
