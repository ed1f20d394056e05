/**
 * The string primitives the core relies on: Go's strings package (TrimSpace,
 * HasPrefix, TrimSuffix, LastIndex, Split, EqualFold, ...) and the few
 * JavaScript string methods the web client uses. Case mapping is ASCII only.
 */
module Strings {

  /** Go's unicode.IsSpace: the white space that strings.TrimSpace removes. */
  predicate IsSpace(c: char) {
    c == ' ' || c == '\t' || c == '\n' || c == '\r' || c == '\U{000B}' || c == '\U{000C}'
    || c == '\U{0085}' || c == '\U{00A0}' || c == '\U{1680}'
    || ('\U{2000}' <= c <= '\U{200A}')
    || c == '\U{2028}' || c == '\U{2029}' || c == '\U{202F}' || c == '\U{205F}' || c == '\U{3000}'
  }

  /** The white space and line terminators that JavaScript's String.prototype.trim removes. */
  predicate IsJsSpace(c: char) {
    c == ' ' || c == '\t' || c == '\n' || c == '\r' || c == '\U{000B}' || c == '\U{000C}'
    || c == '\U{00A0}' || c == '\U{FEFF}' || c == '\U{1680}'
    || ('\U{2000}' <= c <= '\U{200A}')
    || c == '\U{2028}' || c == '\U{2029}' || c == '\U{202F}' || c == '\U{205F}' || c == '\U{3000}'
  }

  /** Every character of s is white space in the sense of ws. */
  predicate AllIn(s: string, ws: char -> bool) {
    forall i :: 0 <= i < |s| ==> ws(s[i])
  }

  /**
   * Drops the leading white space. The trimming functions carry no contract of
   * their own; what they compute is stated by the lemmas below, which callers
   * invoke where they need it.
   */
  function TrimLeft(s: string, ws: char -> bool): string {
    if s != [] && ws(s[0]) then TrimLeft(s[1..], ws) else s
  }

  /** Drops the trailing white space. */
  function TrimRight(s: string, ws: char -> bool): string {
    if s != [] && ws(s[|s| - 1]) then TrimRight(s[..|s| - 1], ws) else s
  }

  /** TrimLeft gives the longest suffix that does not start with white space. */
  lemma {:induction false} TrimLeftSuffix(s: string, ws: char -> bool)
    ensures var r := TrimLeft(s, ws);
      && |r| <= |s| && r == s[|s| - |r|..]
      && AllIn(s[..|s| - |r|], ws)
      && (r != [] ==> !ws(r[0]))
  {
    if s != [] && ws(s[0]) {
      TrimLeftSuffix(s[1..], ws);
      var r := TrimLeft(s, ws);
      assert s[1..][|s| - 1 - |r|..] == s[|s| - |r|..];
      var dropped := s[..|s| - |r|];
      forall i | 0 <= i < |dropped| ensures ws(dropped[i]) {
        if i > 0 {
          assert dropped[i] == s[1..][..|s| - 1 - |r|][i - 1];
        }
      }
    }
  }

  /** TrimRight gives the longest prefix that does not end with white space. */
  lemma {:induction false} TrimRightPrefix(s: string, ws: char -> bool)
    ensures var r := TrimRight(s, ws);
      && |r| <= |s| && r == s[..|r|]
      && AllIn(s[|r|..], ws)
      && (r != [] ==> !ws(r[|r| - 1]))
  {
    if s != [] && ws(s[|s| - 1]) {
      var t := s[..|s| - 1];
      TrimRightPrefix(t, ws);
      var r := TrimRight(s, ws);
      assert t[..|r|] == s[..|r|];
      var dropped := s[|r|..];
      forall i | 0 <= i < |dropped| ensures ws(dropped[i]) {
        if i < |s| - 1 - |r| {
          assert dropped[i] == t[|r|..][i];
        }
      }
    }
  }

  /** Drops white space at both ends. */
  function Trim(s: string, ws: char -> bool): string {
    TrimRight(TrimLeft(s, ws), ws)
  }

  /**
   * Trim keeps the middle of s: the result is a slice s[a..b] with only white space
   * before a and after b, and it neither starts nor ends with white space.
   */
  lemma TrimMiddle(s: string, ws: char -> bool)
    ensures var r := Trim(s, ws);
      && (exists a, b :: 0 <= a <= b <= |s| && r == s[a..b] && AllIn(s[..a], ws) && AllIn(s[b..], ws))
      && (r != [] ==> !ws(r[0]) && !ws(r[|r| - 1]))
  {
    var t := TrimLeft(s, ws);
    var r := Trim(s, ws);
    TrimLeftSuffix(s, ws);
    TrimRightPrefix(t, ws);
    var a := |s| - |t|;
    var b := a + |r|;
    assert r == s[a..b];
    assert s[b..] == t[|r|..];
  }

  /** Trim gives the empty string exactly when s is all white space. */
  lemma TrimEmpty(s: string, ws: char -> bool)
    ensures Trim(s, ws) == [] <==> AllIn(s, ws)
  {
    var t := TrimLeft(s, ws);
    TrimLeftSuffix(s, ws);
    TrimRightPrefix(t, ws);
    if t == [] {
      assert s[..|s|] == s;
    } else {
      assert t[0] == s[|s| - |t|];
    }
  }

  /** A string that neither starts nor ends with white space is its own trim. */
  lemma TrimOfTrimmed(s: string, ws: char -> bool)
    requires s == [] || (!ws(s[0]) && !ws(s[|s| - 1]))
    ensures Trim(s, ws) == s
  {
  }

  /** Trimming twice is trimming once. */
  lemma TrimIdempotent(s: string, ws: char -> bool)
    ensures Trim(Trim(s, ws), ws) == Trim(s, ws)
  {
    TrimMiddle(s, ws);
    TrimOfTrimmed(Trim(s, ws), ws);
  }

  /** Go's strings.TrimSpace. */
  function TrimSpace(s: string): string {
    Trim(s, IsSpace)
  }

  /** Neither end is white space: what TrimSpace returns and leaves alone. */
  predicate IsTrimmed(s: string) {
    s == [] || (!IsSpace(s[0]) && !IsSpace(s[|s| - 1]))
  }

  /** TrimSpace always returns a trimmed string. */
  lemma TrimSpaceTrimmed(s: string)
    ensures IsTrimmed(TrimSpace(s))
  {
    TrimMiddle(s, IsSpace);
  }

  /** IsTrimmed holds exactly of the strings TrimSpace leaves unchanged. */
  lemma TrimmedIsFixpoint(s: string)
    ensures IsTrimmed(s) <==> TrimSpace(s) == s
  {
    TrimSpaceTrimmed(s);
    if IsTrimmed(s) {
      TrimOfTrimmed(s, IsSpace);
    }
  }

  /** A non-empty string with no white space at either end is its own trim and is not blank. */
  lemma TrimmedWord(s: string)
    requires s != [] && !IsSpace(s[0]) && !IsSpace(s[|s| - 1])
    ensures TrimSpace(s) == s && !IsBlank(s)
  {
    TrimOfTrimmed(s, IsSpace);
  }

  /** JavaScript's String.prototype.trim. */
  function JsTrim(s: string): string {
    Trim(s, IsJsSpace)
  }

  /** True when s is empty or made only of white space (strings.TrimSpace(s) == ""). */
  predicate IsBlank(s: string) {
    TrimSpace(s) == ""
  }

  function LowerChar(c: char): char {
    if 'A' <= c <= 'Z' then (c as int + 32) as char else c
  }

  function UpperChar(c: char): char {
    if 'a' <= c <= 'z' then (c as int - 32) as char else c
  }

  /** strings.ToLower / toLowerCase, restricted to ASCII letters. */
  function ToLower(s: string): string {
    seq(|s|, i requires 0 <= i < |s| => LowerChar(s[i]))
  }

  /** toUpperCase, restricted to ASCII letters. */
  function ToUpper(s: string): string {
    seq(|s|, i requires 0 <= i < |s| => UpperChar(s[i]))
  }

  /** strings.EqualFold, restricted to ASCII case folding. */
  predicate EqualFold(a: string, b: string) {
    ToLower(a) == ToLower(b)
  }

  /** strings.HasPrefix / startsWith. */
  predicate HasPrefix(s: string, p: string) {
    p <= s
  }

  /** strings.HasSuffix. */
  predicate HasSuffix(s: string, x: string) {
    |x| <= |s| && s[|s| - |x|..] == x
  }

  /** strings.TrimPrefix: removes p once when s starts with it. */
  function TrimPrefix(s: string, p: string): string {
    if HasPrefix(s, p) then s[|p|..] else s
  }

  /** strings.TrimSuffix: removes x once when s ends with it. */
  function TrimSuffix(s: string, x: string): string {
    if HasSuffix(s, x) then s[..|s| - |x|] else s
  }

  /** strings.Contains / includes: sub occurs in s, tried position by position. */
  predicate Contains(s: string, sub: string) {
    sub <= s || (s != [] && Contains(s[1..], sub))
  }

  /** strings.LastIndex for a one-character separator: -1 when c does not occur. */
  function LastIndexOf(s: string, c: char): (r: int)
    ensures -1 <= r < |s|
    ensures r >= 0 ==> s[r] == c
    ensures forall i :: r < i < |s| ==> s[i] != c
  {
    if s == [] then -1
    else if s[|s| - 1] == c then |s| - 1
    else LastIndexOf(s[..|s| - 1], c)
  }

  /** The first position of c in s, or -1 when c does not occur. */
  function IndexOf(s: string, c: char): (r: int)
    ensures -1 <= r < |s|
    ensures r >= 0 ==> s[r] == c
    ensures forall i :: 0 <= i < |s| && (r < 0 || i < r) ==> s[i] != c
  {
    if s == [] then -1
    else if s[0] == c then 0
    else var k := IndexOf(s[1..], c); if k < 0 then -1 else k + 1
  }

  /** strings.Split with a one-character separator: never empty, "" gives [""]. */
  function Split(s: string, sep: char): (parts: seq<string>)
    ensures |parts| >= 1
    decreases |s|
  {
    var i := IndexOf(s, sep);
    if i < 0 then [s] else [s[..i]] + Split(s[i + 1..], sep)
  }

  /** No piece of a split holds the separator. */
  lemma {:induction false} SplitPiecesLackSep(s: string, sep: char)
    ensures forall k :: 0 <= k < |Split(s, sep)| ==> sep !in Split(s, sep)[k]
    decreases |s|
  {
    var i := IndexOf(s, sep);
    if i >= 0 {
      var head := s[..i];
      assert forall j :: 0 <= j < |head| ==> head[j] == s[j];
      assert sep !in head;
      SplitPiecesLackSep(s[i + 1..], sep);
    }
  }

  /** strings.Join / Array.prototype.join. */
  function Join(parts: seq<string>, sep: string): string {
    if |parts| == 0 then ""
    else if |parts| == 1 then parts[0]
    else parts[0] + sep + Join(parts[1..], sep)
  }

  lemma JoinCons(a: string, rest: seq<string>, sep: string)
    requires |rest| >= 1
    ensures Join([a] + rest, sep) == a + sep + Join(rest, sep)
  {
    assert ([a] + rest)[1..] == rest;
  }

  /** A join starts with its first piece. */
  lemma {:induction false} JoinStartsWith(parts: seq<string>, sep: string)
    requires |parts| >= 1
    ensures parts[0] <= Join(parts, sep)
  {
    if |parts| > 1 {
      assert Join(parts, sep) == parts[0] + (sep + Join(parts[1..], sep));
    }
  }

  /** Lowercasing keeps a prefix a prefix. */
  lemma ToLowerPrefix(a: string, b: string)
    requires a <= b
    ensures ToLower(a) <= ToLower(b)
  {
    assert forall i :: 0 <= i < |a| ==> ToLower(b)[i] == LowerChar(a[i]);
  }

  /** Joining the pieces of a split with the separator gives back the input. */
  lemma {:induction false} SplitJoin(s: string, sep: char)
    ensures Join(Split(s, sep), [sep]) == s
    decreases |s|
  {
    var i := IndexOf(s, sep);
    if i >= 0 {
      var head := s[..i];
      var rest := s[i + 1..];
      var parts := Split(rest, sep);
      SplitJoin(rest, sep);
      JoinCons(head, parts, [sep]);
      assert s == head + [sep] + rest by {
        assert s[i] == sep;
      }
    }
  }

  /** The first occurrence of c in a + [c] + b, when a lacks c, is at |a|. */
  lemma IndexOfAfter(a: string, c: char, b: string)
    requires c !in a
    ensures IndexOf(a + [c] + b, c) == |a|
  {
    var s := a + [c] + b;
    assert s[|a|] == c;
    forall j | 0 <= j < |a| ensures s[j] != c {
      assert s[j] == a[j];
    }
  }

  /** Splitting a join of separator-free pieces gives the pieces back. */
  lemma {:induction false} JoinSplit(parts: seq<string>, sep: char)
    requires |parts| >= 1
    requires forall i :: 0 <= i < |parts| ==> sep !in parts[i]
    ensures Split(Join(parts, [sep]), sep) == parts
  {
    if |parts| == 1 {
      assert IndexOf(parts[0], sep) < 0;
    } else {
      var rest := parts[1..];
      var s := Join(parts, [sep]);
      assert s == parts[0] + [sep] + Join(rest, [sep]);
      IndexOfAfter(parts[0], sep, Join(rest, [sep]));
      assert s[..|parts[0]|] == parts[0];
      assert s[|parts[0]| + 1..] == Join(rest, [sep]);
      JoinSplit(rest, sep);
      assert parts == [parts[0]] + rest;
    }
  }

  /** Lexicographic order on code points: the order used for text sort keys. */
  predicate LexLe(a: string, b: string) {
    if a == [] then true
    else if b == [] then false
    else if a[0] != b[0] then a[0] < b[0]
    else LexLe(a[1..], b[1..])
  }

  lemma {:induction false} LexLeTotal(a: string, b: string)
    ensures LexLe(a, b) || LexLe(b, a)
  {
    if a != [] && b != [] && a[0] == b[0] {
      LexLeTotal(a[1..], b[1..]);
    }
  }

  lemma {:induction false} LexLeTransitive(a: string, b: string, c: string)
    requires LexLe(a, b) && LexLe(b, c)
    ensures LexLe(a, c)
  {
    if a != [] && b != [] && c != [] && a[0] == b[0] && b[0] == c[0] {
      LexLeTransitive(a[1..], b[1..], c[1..]);
    }
  }
}
