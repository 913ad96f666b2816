/** Python's str helpers as the source uses them, restricted to ASCII:
    whitespace is the ASCII part of str.isspace, case mapping is A-Z/a-z,
    and a "word character" (\w) is a letter, a digit or '_'. */
module Strings {

  /** The ASCII characters for which Python's str.isspace() holds. */
  predicate IsSpace(c: char) {
    c == ' ' || ('\t' <= c <= '\r') || ('\U{1C}' <= c <= '\U{1F}')
  }

  predicate IsUpper(c: char) { 'A' <= c <= 'Z' }
  predicate IsLowerLetter(c: char) { 'a' <= c <= 'z' }
  predicate IsDigit(c: char) { '0' <= c <= '9' }

  /** The characters matched by the regular-expression class \w. */
  predicate IsWordChar(c: char) { IsUpper(c) || IsLowerLetter(c) || IsDigit(c) || c == '_' }

  function LowerChar(c: char): (r: char)
    ensures !IsUpper(r)
    ensures IsUpper(c) ==> r as int == c as int + 32
    ensures !IsUpper(c) ==> r == c
  {
    if IsUpper(c) then (c as int + 32) as char else c
  }

  function UpperChar(c: char): (r: char)
    ensures !IsLowerLetter(r)
    ensures IsLowerLetter(c) ==> r as int == c as int - 32
    ensures !IsLowerLetter(c) ==> r == c
  {
    if IsLowerLetter(c) then (c as int - 32) as char else c
  }

  /** str.lower() */
  function Lower(s: string): (r: string)
    ensures |r| == |s|
    ensures forall i :: 0 <= i < |s| ==> r[i] == LowerChar(s[i])
  {
    if s == [] then [] else [LowerChar(s[0])] + Lower(s[1..])
  }

  predicate AllSpace(s: string) { forall i :: 0 <= i < |s| ==> IsSpace(s[i]) }

  predicate NoSpace(s: string) { forall i :: 0 <= i < |s| ==> !IsSpace(s[i]) }

  /** A token of str.split(): a non-empty run of non-whitespace characters. */
  predicate IsToken(s: string) { |s| > 0 && NoSpace(s) }

  /** A string that str.strip() leaves unchanged. */
  predicate IsStripped(s: string) { s == [] || (!IsSpace(s[0]) && !IsSpace(s[|s| - 1])) }

  function TrimLeft(s: string): (r: string)
    ensures |r| <= |s|
    ensures r == [] || !IsSpace(r[0])
  {
    if s != [] && IsSpace(s[0]) then TrimLeft(s[1..]) else s
  }

  /** TrimLeft removes a prefix made only of whitespace. */
  lemma {:induction false} TrimLeftRemovesSpaces(s: string)
    ensures TrimLeft(s) == s[|s| - |TrimLeft(s)|..]
    ensures forall i :: 0 <= i < |s| - |TrimLeft(s)| ==> IsSpace(s[i])
    decreases |s|
  {
    if s != [] && IsSpace(s[0]) {
      TrimLeftRemovesSpaces(s[1..]);
    }
  }

  function TrimRight(s: string): (r: string)
    ensures |r| <= |s|
    ensures r == [] || !IsSpace(r[|r| - 1])
  {
    if s != [] && IsSpace(s[|s| - 1]) then TrimRight(s[..|s| - 1]) else s
  }

  /** TrimRight removes a suffix made only of whitespace. */
  lemma {:induction false} TrimRightRemovesSpaces(s: string)
    ensures TrimRight(s) == s[..|TrimRight(s)|]
    ensures forall i :: |TrimRight(s)| <= i < |s| ==> IsSpace(s[i])
    decreases |s|
  {
    if s != [] && IsSpace(s[|s| - 1]) {
      TrimRightRemovesSpaces(s[..|s| - 1]);
    }
  }

  /** str.strip() */
  function Strip(s: string): (r: string)
    ensures |r| <= |s|
    ensures IsStripped(r)
  {
    var l := TrimLeft(s);
    var r := TrimRight(l);
    TrimRightRemovesSpaces(l);
    assert r == [] || r[0] == l[0];
    r
  }

  /** str.strip() removes only whitespace, and only at both ends. */
  lemma StripRemovesSpaces(s: string)
    ensures var a := |s| - |TrimLeft(s)|;
      && a + |Strip(s)| <= |s| && Strip(s) == s[a..a + |Strip(s)|]
      && (forall i :: 0 <= i < a ==> IsSpace(s[i]))
      && (forall i :: a + |Strip(s)| <= i < |s| ==> IsSpace(s[i]))
  {
    var l := TrimLeft(s);
    var a := |s| - |l|;
    var r := Strip(s);
    assert l == s[a..] && forall i :: 0 <= i < a ==> IsSpace(s[i]) by {
      TrimLeftRemovesSpaces(s);
    }
    assert r == l[..|r|] && forall i :: |r| <= i < |l| ==> IsSpace(l[i]) by {
      TrimRightRemovesSpaces(l);
      assert r == TrimRight(l);
    }
    assert s[a..a + |r|] == r;
    forall i | a + |r| <= i < |s| ensures IsSpace(s[i]) {
      assert s[i] == l[i - a];
    }
  }

  lemma StripOfStripped(s: string)
    requires IsStripped(s)
    ensures Strip(s) == s
  {
    assert TrimLeft(s) == s;
    assert TrimRight(s) == s;
  }

  lemma StripIdempotent(s: string)
    ensures Strip(Strip(s)) == Strip(s)
  {
    StripOfStripped(Strip(s));
  }

  lemma TokenIsStripped(s: string)
    requires NoSpace(s)
    ensures IsStripped(s) && Strip(s) == s
  {
    StripOfStripped(s);
  }

  /** The number of leading non-whitespace characters. */
  function TokenLength(s: string): (n: nat)
    ensures n <= |s|
    ensures forall i :: 0 <= i < n ==> !IsSpace(s[i])
    ensures n < |s| ==> IsSpace(s[n])
  {
    if s == [] || IsSpace(s[0]) then 0 else 1 + TokenLength(s[1..])
  }

  lemma {:induction false} TokenLengthIs(s: string, n: nat)
    requires n <= |s| && (forall i :: 0 <= i < n ==> !IsSpace(s[i])) && (n < |s| ==> IsSpace(s[n]))
    ensures TokenLength(s) == n
    decreases n
  {
    if n > 0 {
      TokenLengthIs(s[1..], n - 1);
    }
  }

  /** str.split() with no argument: the maximal runs of non-whitespace characters. */
  function Split(s: string): (r: seq<string>)
    ensures forall i :: 0 <= i < |r| ==> IsToken(r[i])
    decreases |s|
  {
    var t := TrimLeft(s);
    if t == [] then []
    else
      var n := TokenLength(t);
      var tok := t[..n];
      assert IsToken(tok);
      [tok] + Split(t[n..])
  }

  /** str.split() gives no token exactly when the string is all whitespace. */
  lemma SplitEmpty(s: string)
    ensures Split(s) == [] <==> AllSpace(s)
  {
    var t := TrimLeft(s);
    TrimLeftRemovesSpaces(s);
    if t != [] {
      assert s[|s| - |t|] == t[0];
    }
  }

  lemma SplitOfToken(s: string)
    requires IsToken(s)
    ensures Split(s) == [s]
  {
    assert TrimLeft(s) == s;
    assert TokenLength(s) == |s|;
    assert s[..|s|] == s;
    assert Split(s[|s|..]) == [];
  }

  lemma SplitDropSpace(s: string)
    requires s != [] && IsSpace(s[0])
    ensures Split(s) == Split(s[1..])
  {
    assert TrimLeft(s) == TrimLeft(s[1..]);
  }

  lemma SplitHead(s: string)
    requires s != [] && !IsSpace(s[0])
    ensures Split(s) == [s[..TokenLength(s)]] + Split(s[TokenLength(s)..])
  {
    assert TrimLeft(s) == s;
  }

  /** Leading whitespace does not change the tokens. */
  lemma {:induction false} SplitAfterSpaces(w: string, s: string)
    requires AllSpace(w)
    ensures Split(w + s) == Split(s)
    decreases |w|
  {
    if w != [] {
      assert (w + s)[1..] == w[1..] + s;
      SplitDropSpace(w + s);
      SplitAfterSpaces(w[1..], s);
    } else {
      assert w + s == s;
    }
  }

  /** A non-empty run of whitespace separates tokens: the tokens of a + w + b
      are those of a followed by those of b. With SplitOfToken and SplitEmpty
      this pins str.split() down to the maximal non-whitespace runs, in order,
      whatever whitespace separates them. */
  lemma {:induction false} SplitSpaces(a: string, w: string, b: string)
    requires w != [] && AllSpace(w)
    ensures Split(a + w + b) == Split(a) + Split(b)
    decreases |a|
  {
    if a == [] {
      assert a + w + b == w + b;
      SplitAfterSpaces(w, b);
    } else if IsSpace(a[0]) {
      SplitSpaces(a[1..], w, b);
      SplitSpacesAfterSpace(a, w, b);
    } else {
      var n := TokenLength(a);
      SplitSpaces(a[n..], w, b);
      SplitSpacesAfterToken(a, w, b);
    }
  }

  /** The step of SplitSpaces over a leading whitespace character. */
  lemma SplitSpacesAfterSpace(a: string, w: string, b: string)
    requires a != [] && IsSpace(a[0])
    requires Split(a[1..] + w + b) == Split(a[1..]) + Split(b)
    ensures Split(a + w + b) == Split(a) + Split(b)
  {
    var s := a + w + b;
    assert s[1..] == a[1..] + w + b;
    SplitDropSpace(s);
    SplitDropSpace(a);
  }

  /** Whitespace after a token ends it, whatever follows the whitespace. */
  lemma TokenLengthBeforeSpaces(a: string, w: string, b: string)
    requires w != [] && AllSpace(w)
    ensures TokenLength(a + w + b) == TokenLength(a)
  {
    var s := a + w + b;
    var n := TokenLength(a);
    assert forall i :: 0 <= i < n ==> s[i] == a[i];
    if n < |a| {
      assert s[n] == a[n];
    } else {
      assert s[n] == w[0];
    }
    TokenLengthIs(s, n);
  }

  /** The first token of a + w + b is the first token of a. */
  lemma SplitTokenThenSpaces(a: string, w: string, b: string)
    requires a != [] && !IsSpace(a[0]) && w != [] && AllSpace(w)
    ensures var n := TokenLength(a);
      Split(a + w + b) == [a[..n]] + Split(a[n..] + w + b)
  {
    var s := a + w + b;
    var n := TokenLength(a);
    TokenLengthBeforeSpaces(a, w, b);
    assert s[0] == a[0];
    SplitHead(s);
    assert s[..n] == a[..n];
    assert s[n..] == a[n..] + w + b;
  }

  /** The step of SplitSpaces over a leading token. */
  lemma SplitSpacesAfterToken(a: string, w: string, b: string)
    requires a != [] && !IsSpace(a[0]) && w != [] && AllSpace(w)
    requires Split(a[TokenLength(a)..] + w + b) == Split(a[TokenLength(a)..]) + Split(b)
    ensures Split(a + w + b) == Split(a) + Split(b)
  {
    SplitTokenThenSpaces(a, w, b);
    SplitHead(a);
  }

  /** str.join */
  function Join(sep: string, parts: seq<string>): (r: string)
    decreases |parts|
  {
    if parts == [] then ""
    else if |parts| == 1 then parts[0]
    else parts[0] + sep + Join(sep, parts[1..])
  }

  /** Joining non-empty stripped parts gives a non-empty stripped string. */
  lemma {:induction false} JoinOfStripped(sep: string, parts: seq<string>)
    requires |parts| > 0 && forall i :: 0 <= i < |parts| ==> parts[i] != [] && IsStripped(parts[i])
    ensures Join(sep, parts) != [] && IsStripped(Join(sep, parts))
    decreases |parts|
  {
    if |parts| > 1 {
      JoinOfStripped(sep, parts[1..]);
      var j := Join(sep, parts);
      var rest := Join(sep, parts[1..]);
      assert j == parts[0] + sep + rest;
      assert j[0] == parts[0][0];
      assert j[|j| - 1] == rest[|rest| - 1];
    }
  }

  lemma {:induction false} JoinAppend(sep: string, parts: seq<string>, last: string)
    requires |parts| > 0
    ensures Join(sep, parts + [last]) == Join(sep, parts) + sep + last
    decreases |parts|
  {
    if |parts| > 1 {
      assert (parts + [last])[1..] == parts[1..] + [last];
      JoinAppend(sep, parts[1..], last);
    }
  }

  /** (a + "  " + b).strip() for stripped a and b, a non-empty: the two spaces
      are kept only when b is non-empty. */
  lemma StripSpacedConcat(a: string, b: string)
    requires a != [] && IsStripped(a) && IsStripped(b)
    ensures Strip(a + "  " + b) == if b == [] then a else a + "  " + b
  {
    var x := a + "  " + b;
    if b == [] {
      assert x == a + "  ";
      assert TrimLeft(x) == x;
      assert x[..|x| - 1] == a + " ";
      assert TrimRight(x) == TrimRight(a + " ");
      assert (a + " ")[..|a|] == a;
      assert TrimRight(a + " ") == TrimRight(a);
      assert TrimRight(a) == a;
    } else {
      StripOfStripped(x);
    }
  }

  /** Splitting single-space-joined tokens gives the tokens back. */
  lemma {:induction false} SplitJoin(parts: seq<string>)
    requires forall i :: 0 <= i < |parts| ==> IsToken(parts[i])
    ensures Split(Join(" ", parts)) == parts
    decreases |parts|
  {
    if parts == [] {
    } else if |parts| == 1 {
      SplitOfToken(parts[0]);
    } else {
      var p := parts[0];
      var rest := Join(" ", parts[1..]);
      var s := p + " " + rest;
      JoinOfStripped(" ", parts[1..]);
      assert TrimLeft(s) == s;
      assert s[..|p|] == p;
      TokenLengthIs(s, |p|);
      assert s[|p|..] == " " + rest;
      assert TrimLeft(" " + rest) == rest by {
        assert (" " + rest)[1..] == rest;
      }
      assert Split(" " + rest) == Split(rest);
      SplitJoin(parts[1..]);
    }
  }

  /** Index of the first occurrence of c in s. */
  function IndexOf(s: string, c: char): (i: nat)
    requires c in s
    ensures i < |s| && s[i] == c && c !in s[..i]
  {
    if s[0] == c then 0 else 1 + IndexOf(s[1..], c)
  }

  /** str.split(sep) for a one-character separator: always at least one part. */
  function SplitOn(s: string, sep: char): (r: seq<string>)
    ensures |r| >= 1
    ensures forall i :: 0 <= i < |r| ==> sep !in r[i]
    decreases |s|
  {
    if sep in s then
      var i := IndexOf(s, sep);
      [s[..i]] + SplitOn(s[i + 1..], sep)
    else [s]
  }

  /** Joining the parts of SplitOn with the separator gives the string back. */
  lemma {:induction false} JoinSplitOn(s: string, sep: char)
    ensures Join([sep], SplitOn(s, sep)) == s
    decreases |s|
  {
    if sep in s {
      var i := IndexOf(s, sep);
      JoinSplitOn(s[i + 1..], sep);
      assert s == s[..i] + [sep] + s[i + 1..];
    }
  }

  /** Splitting separator-joined parts that do not contain the separator gives the parts back. */
  lemma {:induction false} SplitOnJoin(parts: seq<string>, sep: char)
    requires |parts| >= 1
    requires forall i :: 0 <= i < |parts| ==> sep !in parts[i]
    ensures SplitOn(Join([sep], parts), sep) == parts
    decreases |parts|
  {
    if |parts| > 1 {
      var p := parts[0];
      var s := Join([sep], parts);
      assert s == p + [sep] + Join([sep], parts[1..]);
      assert s[|p|] == sep;
      assert sep in s;
      assert s[..|p|] == p;
      assert IndexOf(s, sep) == |p|;
      assert s[|p| + 1..] == Join([sep], parts[1..]);
      SplitOnJoin(parts[1..], sep);
    }
  }

  predicate StartsWith(s: string, prefix: string) {
    |prefix| <= |s| && s[..|prefix|] == prefix
  }

  predicate EndsWith(s: string, suffix: string) {
    |suffix| <= |s| && s[|s| - |suffix|..] == suffix
  }

  /** sub occurs in s starting at index i. */
  predicate OccursAt(s: string, sub: string, i: nat) {
    i + |sub| <= |s| && s[i..i + |sub|] == sub
  }

  /** Python's `sub in s`: sub occurs somewhere in s. */
  predicate Contains(s: string, sub: string) {
    exists i: nat | i <= |s| :: OccursAt(s, sub, i)
  }

  /** A text lacking some character of sub does not contain sub. */
  lemma MissingCharNotContained(s: string, sub: string, c: char)
    requires c in sub && c !in s
    ensures !Contains(s, sub)
  {
    forall i: nat | i + |sub| <= |s| ensures !OccursAt(s, sub, i) {
      var j :| 0 <= j < |sub| && sub[j] == c;
      assert s[i + j] != c;
    }
  }

  /** str.replace(a, b) for single characters. */
  function ReplaceChar(s: string, a: char, b: char): (r: string)
    ensures |r| == |s|
    ensures forall i :: 0 <= i < |s| ==> r[i] == if s[i] == a then b else s[i]
  {
    if s == [] then [] else [if s[0] == a then b else s[0]] + ReplaceChar(s[1..], a, b)
  }
}
