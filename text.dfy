/** The JavaScript string built-ins the hymnal relies on, as functions on
    `string` (a sequence of Unicode scalar values): `trim`, `split('\n')[0]`,
    `toLowerCase`, `includes`, `startsWith`, `endsWith`, `join`, and the
    ordering used for titles. */
module Text {

  /** The characters ECMAScript counts as white space or line terminators:
      the set both `String.prototype.trim` and the regular-expression class
      `\s` use. */
  predicate IsWhitespace(c: char) {
    || c == '\t' || c == '\n' || c == '\U{000B}' || c == '\U{000C}' || c == '\r'
    || c == ' ' || c == '\U{00A0}' || c == '\U{1680}'
    || ('\U{2000}' <= c <= '\U{200A}')
    || c == '\U{2028}' || c == '\U{2029}' || c == '\U{202F}' || c == '\U{205F}'
    || c == '\U{3000}' || c == '\U{FEFF}'
  }

  predicate AllWhitespace(s: string) {
    forall i :: 0 <= i < |s| ==> IsWhitespace(s[i])
  }

  /** `s` with its leading white space removed. */
  function TrimStart(s: string): (r: string)
    ensures |r| <= |s| && r == s[|s| - |r|..]
    ensures r == [] || !IsWhitespace(r[0])
    ensures AllWhitespace(s[..|s| - |r|])
    ensures s != [] && IsWhitespace(s[0]) ==> |r| < |s|
  {
    if s != [] && IsWhitespace(s[0]) then TrimStart(s[1..]) else s
  }

  /** `s` with its trailing white space removed. */
  function TrimEnd(s: string): (r: string)
    ensures |r| <= |s| && r == s[..|r|]
    ensures r == [] || !IsWhitespace(r[|r| - 1])
    ensures AllWhitespace(s[|r|..])
  {
    if s != [] && IsWhitespace(s[|s| - 1]) then TrimEnd(s[..|s| - 1]) else s
  }

  /** `s.trim()`: the slice of `s` between its leading and its trailing white
      space. */
  function Trim(s: string): (r: string)
    ensures exists a, b :: 0 <= a <= b <= |s| && r == s[a..b]
                           && AllWhitespace(s[..a]) && AllWhitespace(s[b..])
    ensures r == [] || (!IsWhitespace(r[0]) && !IsWhitespace(r[|r| - 1]))
  {
    var t := TrimStart(s);
    var r := TrimEnd(t);
    var a := |s| - |t|;
    assert s[a..a + |r|] == r;
    assert s[a + |r|..] == t[|r|..];
    r
  }

  /** A string whose trim is empty is falsy in `if (!s.trim())`; that
      happens exactly when every character is white space. */
  lemma {:induction false} TrimEmptyIffAllWhitespace(s: string)
    ensures Trim(s) == [] <==> AllWhitespace(s)
  {
    if AllWhitespace(s) {
      TrimStartOfWhitespace(s);
    } else {
      var i :| 0 <= i < |s| && !IsWhitespace(s[i]);
      TrimStartKeeps(s, i);
      TrimEndKeepsFirst(TrimStart(s));
    }
  }

  lemma {:induction false} TrimStartOfWhitespace(s: string)
    requires AllWhitespace(s)
    ensures TrimStart(s) == []
  {
    if s != [] {
      TrimStartOfWhitespace(s[1..]);
    }
  }

  lemma {:induction false} TrimStartKeeps(s: string, i: int)
    requires 0 <= i < |s| && !IsWhitespace(s[i])
    ensures TrimStart(s) != []
  {
    if IsWhitespace(s[0]) {
      assert i > 0;
      assert s[1..][i - 1] == s[i];
      TrimStartKeeps(s[1..], i - 1);
    }
  }

  lemma {:induction false} TrimEndKeepsFirst(t: string)
    requires t != [] && !IsWhitespace(t[0])
    ensures TrimEnd(t) != []
  {
    if |t| > 1 && IsWhitespace(t[|t| - 1]) {
      TrimEndKeepsFirst(t[..|t| - 1]);
    }
  }

  /** Trimming a trimmed string changes nothing. */
  lemma TrimIdempotent(s: string)
    ensures Trim(Trim(s)) == Trim(s)
  {
    var r := Trim(s);
    assert TrimStart(r) == r;
    assert TrimEnd(r) == r;
  }

  /** `s.split('\n')[0]`: the text of `s` up to its first line feed. */
  function FirstLine(s: string): (r: string)
    ensures |r| <= |s| && r == s[..|r|]
    ensures '\n' !in r
    ensures r == s || s[|r|] == '\n'
  {
    if s == [] || s[0] == '\n' then [] else [s[0]] + FirstLine(s[1..])
  }

  /** The first line of a text made of a line and what follows a line feed
      is that line. */
  lemma {:induction false} FirstLineOfLines(line: string, rest: string)
    requires '\n' !in line
    ensures FirstLine(line + "\n" + rest) == line
  {
    if line != [] {
      assert (line + "\n" + rest)[1..] == line[1..] + "\n" + rest;
      FirstLineOfLines(line[1..], rest);
    }
  }

  /** Whatever follows a line feed, the first line of the text is the first
      line of what comes before it. */
  lemma {:induction false} FirstLineOfPrefix(s: string, rest: string)
    ensures FirstLine(s + "\n" + rest) == FirstLine(s)
  {
    if s != [] && s[0] != '\n' {
      assert (s + "\n" + rest)[1..] == s[1..] + "\n" + rest;
      FirstLineOfPrefix(s[1..], rest);
    }
  }

  /** `toLowerCase()` restricted to ASCII: `'A'..'Z'` become `'a'..'z'`,
      every other character is kept. */
  function ToLower(s: string): (r: string)
    ensures |r| == |s|
    ensures forall i :: 0 <= i < |s| ==> r[i] == LowerChar(s[i])
  {
    if s == [] then [] else [LowerChar(s[0])] + ToLower(s[1..])
  }

  function LowerChar(c: char): char {
    if 'A' <= c <= 'Z' then (c as int - 'A' as int + 'a' as int) as char else c
  }

  predicate OccursAt(s: string, q: string, i: int) {
    0 <= i && i + |q| <= |s| && s[i..i + |q|] == q
  }

  /** `s.includes(q)`: `q` occurs in `s` as a contiguous substring. */
  function Includes(s: string, q: string): (r: bool)
    ensures r <==> exists i :: OccursAt(s, q, i)
  {
    if |q| <= |s| && s[..|q|] == q then
      assert OccursAt(s, q, 0);
      true
    else if s == [] then
      assert forall i :: !OccursAt(s, q, i);
      false
    else
      var r := Includes(s[1..], q);
      assert forall i :: OccursAt(s[1..], q, i) ==> OccursAt(s, q, i + 1) by {
        forall i | OccursAt(s[1..], q, i) ensures OccursAt(s, q, i + 1) {
          assert s[i + 1..i + 1 + |q|] == s[1..][i..i + |q|];
        }
      }
      assert forall i :: OccursAt(s, q, i) ==> i == 0 || OccursAt(s[1..], q, i - 1) by {
        forall i | OccursAt(s, q, i) && i != 0 ensures OccursAt(s[1..], q, i - 1) {
          assert s[1..][i - 1..i - 1 + |q|] == s[i..i + |q|];
        }
      }
      r
  }

  /** `s.startsWith(p)`. */
  predicate StartsWith(s: string, p: string) {
    |p| <= |s| && s[..|p|] == p
  }

  /** `s.endsWith(p)`. */
  predicate EndsWith(s: string, p: string) {
    |p| <= |s| && s[|s| - |p|..] == p
  }

  lemma StartsWithPrefix(p: string, s: string)
    ensures StartsWith(p + s, p)
  {
    assert (p + s)[..|p|] == p;
  }

  lemma EndsWithSuffix(s: string, p: string)
    ensures EndsWith(s + p, p)
  {
    assert (s + p)[|s|..] == p;
  }

  /** `vs.join(sep)`. */
  function Join(vs: seq<string>, sep: string): (r: string)
    ensures |vs| == 1 ==> r == vs[0]
  {
    if vs == [] then [] else if |vs| == 1 then vs[0] else vs[0] + sep + Join(vs[1..], sep)
  }

  /** Joining two non-empty lists is joining each and putting one separator
      between them: the separator stands only between neighbours. */
  lemma {:induction false} JoinConcat(a: seq<string>, b: seq<string>, sep: string)
    requires a != [] && b != []
    ensures Join(a + b, sep) == Join(a, sep) + sep + Join(b, sep)
  {
    if |a| == 1 {
      assert (a + b)[1..] == b;
    } else {
      assert (a + b)[1..] == a[1..] + b;
      JoinConcat(a[1..], b, sep);
    }
  }

  /** The joined text is as long as the parts plus one separator between each
      pair of neighbours. */
  lemma {:induction false} JoinLength(vs: seq<string>, sep: string)
    ensures |Join(vs, sep)| == TotalLength(vs) + (if vs == [] then 0 else (|vs| - 1) * |sep|)
  {
    if |vs| > 1 {
      JoinLength(vs[1..], sep);
    }
  }

  function TotalLength(vs: seq<string>): nat {
    if vs == [] then 0 else |vs[0]| + TotalLength(vs[1..])
  }

  /** Lexicographic order on strings by code point. */
  predicate LexLeq(a: string, b: string) {
    a == [] || (b != [] && (a[0] < b[0] || (a[0] == b[0] && LexLeq(a[1..], b[1..]))))
  }

  lemma {:induction false} LexLeqTotal(a: string, b: string)
    ensures LexLeq(a, b) || LexLeq(b, a)
  {
    if a != [] && b != [] && a[0] == b[0] {
      LexLeqTotal(a[1..], b[1..]);
    }
  }

  lemma {:induction false} LexLeqTransitive(a: string, b: string, c: string)
    requires LexLeq(a, b) && LexLeq(b, c)
    ensures LexLeq(a, c)
  {
    if a != [] && b != [] && c != [] && a[0] == b[0] && b[0] == c[0] {
      LexLeqTransitive(a[1..], b[1..], c[1..]);
    }
  }

  /** The order `a.title.localeCompare(b.title) <= 0` stands for: titles
      compared letter by letter with ASCII case folded. */
  predicate TitleLeq(a: string, b: string) {
    LexLeq(ToLower(a), ToLower(b))
  }

  lemma TitleLeqTotal(a: string, b: string)
    ensures TitleLeq(a, b) || TitleLeq(b, a)
  {
    LexLeqTotal(ToLower(a), ToLower(b));
  }

  lemma TitleLeqTransitive(a: string, b: string, c: string)
    requires TitleLeq(a, b) && TitleLeq(b, c)
    ensures TitleLeq(a, c)
  {
    LexLeqTransitive(ToLower(a), ToLower(b), ToLower(c));
  }
}
