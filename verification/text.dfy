/** String operations the pages rely on, with the semantics of the
    JavaScript built-ins they call: `String.prototype.trim`, a global
    replace of "\n", and `Array.prototype.join` over strings. */
module Text {

  /** The code points ECMAScript classes as WhiteSpace or LineTerminator,
      which is exactly what `trim` strips from both ends. */
  predicate IsWhitespace(c: char) {
    || c == '\t' || c == '\n' || c == '\U{000B}' || c == '\U{000C}' || c == '\r' || c == ' '
    || c == '\U{00A0}' || c == '\U{1680}' || ('\U{2000}' <= c <= '\U{200A}')
    || c == '\U{2028}' || c == '\U{2029}' || c == '\U{202F}' || c == '\U{205F}'
    || c == '\U{3000}' || c == '\U{FEFF}'
  }

  /** Drops leading whitespace: the result is the suffix of `s` that starts
      at its first non-whitespace character. */
  function TrimStart(s: string): (r: string)
    ensures |r| <= |s| && r == s[|s| - |r|..]
    ensures forall i :: 0 <= i < |s| - |r| ==> IsWhitespace(s[i])
    ensures r != [] ==> !IsWhitespace(r[0])
  {
    if |s| > 0 && IsWhitespace(s[0]) then TrimStart(s[1..]) else s
  }

  /** Drops trailing whitespace: the result is the prefix of `s` that ends
      at its last non-whitespace character. */
  function TrimEnd(s: string): (r: string)
    ensures |r| <= |s| && r == s[..|r|]
    ensures forall i :: |r| <= i < |s| ==> IsWhitespace(s[i])
    ensures r != [] ==> !IsWhitespace(r[|r| - 1])
  {
    if |s| > 0 && IsWhitespace(s[|s| - 1]) then TrimEnd(s[..|s| - 1]) else s
  }

  function Trim(s: string): string {
    TrimEnd(TrimStart(s))
  }

  /** `!s.trim()`: the guard both pages use to ignore empty submissions. */
  predicate IsBlank(s: string) {
    Trim(s) == []
  }

  /** A string is blank exactly when every character of it is whitespace. */
  lemma BlankIffAllWhitespace(s: string)
    ensures IsBlank(s) <==> forall i :: 0 <= i < |s| ==> IsWhitespace(s[i])
  {
    var t := TrimStart(s);
    if t != [] {
      assert t[0] == s[|s| - |t|];
      assert !IsWhitespace(t[0]);
      assert TrimEnd(t) != [];
    }
  }

  const LineBreak := "<br>"

  /** One character of the Word export body: a newline becomes `<br>`,
      anything else is copied verbatim. */
  function Expand(c: char): string {
    if c == '\n' then LineBreak else [c]
  }

  /** `s.replace(/\n/g, "<br>")`. Only "\n" is replaced; "\r" and every
      markup character pass through unescaped. */
  function ReplaceNewlines(s: string): (r: string)
    ensures |r| >= |s|
    ensures forall i :: 0 <= i < |r| ==> r[i] != '\n'
    ensures (forall i :: 0 <= i < |s| ==> s[i] != '\n') ==> r == s
  {
    if s == [] then [] else Expand(s[0]) + ReplaceNewlines(s[1..])
  }

  /** The replacement is global: it acts on each part of a concatenation
      independently, so no newline is missed at any position. */
  lemma {:induction false} ReplaceDistributes(a: string, b: string)
    ensures ReplaceNewlines(a + b) == ReplaceNewlines(a) + ReplaceNewlines(b)
  {
    if a != [] {
      assert (a + b)[0] == a[0];
      assert (a + b)[1..] == a[1..] + b;
      ReplaceDistributes(a[1..], b);
    } else {
      assert a + b == b;
    }
  }

  /** The inverse reading of an exported body: each `<br>` back to "\n". */
  function RestoreNewlines(t: string): string
  {
    if |t| >= 4 && t[..4] == LineBreak then "\n" + RestoreNewlines(t[4..])
    else if t == [] then []
    else [t[0]] + RestoreNewlines(t[1..])
  }

  /** A literal `<br>` starts at position `i` of `s`. */
  predicate TagAt(s: string, i: nat) {
    i + 4 <= |s| && s[i..i + 4] == LineBreak
  }

  predicate ContainsLineBreakTag(s: string) {
    exists i: nat :: i < |s| && TagAt(s, i)
  }

  lemma TailKeepsNoTag(s: string)
    requires s != [] && !ContainsLineBreakTag(s)
    ensures !ContainsLineBreakTag(s[1..])
  {
    forall i: nat
      ensures !TagAt(s[1..], i)
    {
      assert !TagAt(s, i + 1);
      if i + 4 <= |s[1..]| {
        assert s[1..][i..i + 4] == s[i + 1..i + 1 + 4];
      }
    }
  }

  lemma ReplaceHead(u: string)
    requires u != []
    ensures ReplaceNewlines(u) != []
    ensures ReplaceNewlines(u)[0] == (if u[0] == '\n' then '<' else u[0])
    ensures u[0] != '\n' ==> ReplaceNewlines(u)[1..] == ReplaceNewlines(u[1..])
  {
  }

  /** If a replaced body starts with characters none of which is `<`, the
      original text starts with the same characters. */
  lemma {:induction false} ReadBackPrefix(u: string, w: string)
    requires forall i :: 0 <= i < |w| ==> w[i] != '<'
    requires |ReplaceNewlines(u)| >= |w| && ReplaceNewlines(u)[..|w|] == w
    ensures |u| >= |w| && u[..|w|] == w
  {
    if w != [] {
      assert u != [];
      ReplaceHead(u);
      var r := ReplaceNewlines(u);
      assert r[0] == w[0];
      assert u[0] == w[0];
      assert r[1..][..|w| - 1] == w[1..];
      ReadBackPrefix(u[1..], w[1..]);
      assert u[..|w|] == [u[0]] + u[1..][..|w| - 1];
    }
  }

  /** A replaced body that starts with an ordinary character starts with
      `<br>` only when the original text itself did. */
  lemma TagAtHeadComesFromText(s: string)
    requires s != [] && s[0] != '\n'
    ensures |ReplaceNewlines(s)| >= 4 && ReplaceNewlines(s)[..4] == LineBreak ==> TagAt(s, 0)
  {
    var t := ReplaceNewlines(s);
    if |t| >= 4 && t[..4] == LineBreak {
      ReplaceHead(s);
      var w := "br>";
      assert t[1..][..3] == w;
      assert forall i :: 0 <= i < |w| ==> w[i] != '<';
      ReadBackPrefix(s[1..], w);
      assert s[..4] == [s[0]] + s[1..][..3];
    }
  }

  /** Exporting is lossless for texts that do not already contain a literal
      `<br>`: for those, reading the body back restores the text. */
  lemma {:induction false} RestoreAfterReplace(s: string)
    requires !ContainsLineBreakTag(s)
    ensures RestoreNewlines(ReplaceNewlines(s)) == s
  {
    if s != [] {
      TailKeepsNoTag(s);
      RestoreAfterReplace(s[1..]);
      var t := ReplaceNewlines(s);
      if s[0] == '\n' {
        assert t == LineBreak + ReplaceNewlines(s[1..]);
        assert t[..4] == LineBreak && t[4..] == ReplaceNewlines(s[1..]);
      } else {
        TagAtHeadComesFromText(s);
        assert t == [s[0]] + ReplaceNewlines(s[1..]);
        assert t[1..] == ReplaceNewlines(s[1..]);
      }
    }
  }

  /** Without escaping, a text holding a literal `<br>` and one holding a
      newline export to the same body. */
  lemma TagAndNewlineCollide()
    ensures ReplaceNewlines("a<br>b") == ReplaceNewlines("a\nb")
    ensures "a<br>b" != "a\nb"
  {
  }

  /** `parts.join(sep)`. */
  function JoinWith(parts: seq<string>, sep: string): (r: string)
    ensures |parts| == 1 ==> r == parts[0]
    ensures sep != [] ==> (r == [] <==> |parts| == 0 || (|parts| == 1 && parts[0] == []))
  {
    if |parts| == 0 then []
    else if |parts| == 1 then parts[0]
    else JoinWith(parts[..|parts| - 1], sep) + sep + parts[|parts| - 1]
  }
}
