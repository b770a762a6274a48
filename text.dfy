/** String operations of the Java standard library that the task tracker relies on:
    `String.trim`, the `\d+` check with `Integer.parseInt`, `%d` formatting,
    `String.indexOf`, `split(" ", 2)`, ASCII `toUpperCase` and the
    `replaceAll("\n", "\n\t")` rewrite applied to every reply. */
module Text {

  // ---------------------------------------------------------------- trim

  /** `String.trim` treats every character up to U+0020 as white space. */
  predicate IsBlank(c: char) { c <= ' ' }

  /** First index at or after `i` whose character is not blank (the forward scan of `trim`). */
  function TrimStart(s: string, i: nat): (st: nat)
    requires i <= |s|
    ensures i <= st <= |s|
    ensures forall k :: i <= k < st ==> IsBlank(s[k])
    ensures st < |s| ==> !IsBlank(s[st])
    decreases |s| - i
  {
    if i < |s| && IsBlank(s[i]) then TrimStart(s, i + 1) else i
  }

  /** End index reached by the backward scan of `trim`, never passing `st`. */
  function TrimEnd(s: string, st: nat, len: nat): (e: nat)
    requires st <= len <= |s|
    ensures st <= e <= len
    ensures forall k :: e <= k < len ==> IsBlank(s[k])
    ensures e > st ==> !IsBlank(s[e - 1])
    decreases len
  {
    if st < len && IsBlank(s[len - 1]) then TrimEnd(s, st, len - 1) else len
  }

  /** `String.trim`: drop blank characters at both ends. */
  function Trim(s: string): (t: string)
    ensures |t| <= |s|
    ensures t == [] <==> forall k :: 0 <= k < |s| ==> IsBlank(s[k])
    ensures t != [] ==> !IsBlank(t[0]) && !IsBlank(t[|t| - 1])
  {
    var st := TrimStart(s, 0);
    var e := TrimEnd(s, st, |s|);
    assert st < |s| ==> e > st;
    s[st..e]
  }

  /** What `trim` returns is the input with blank characters removed at its two ends only:
      a slice of the input with nothing but blanks before and after it. */
  lemma TrimRemovesOnlyBlankEnds(s: string)
    ensures exists st, e ::
              0 <= st <= e <= |s| && Trim(s) == s[st..e] &&
              (forall k :: 0 <= k < st ==> IsBlank(s[k])) &&
              (forall k :: e <= k < |s| ==> IsBlank(s[k]))
  {
    var st := TrimStart(s, 0);
    var e := TrimEnd(s, st, |s|);
    assert Trim(s) == s[st..e];
  }

  /** A string is trimmed when `trim` leaves it as it is. */
  predicate IsTrimmed(s: string) {
    s == [] || (!IsBlank(s[0]) && !IsBlank(s[|s| - 1]))
  }

  lemma TrimmedIsFixed(s: string)
    requires IsTrimmed(s)
    ensures Trim(s) == s
  {
    if s != [] {
      assert TrimStart(s, 0) == 0;
      assert TrimEnd(s, 0, |s|) == |s|;
    }
  }

  /** A trimmed text is trimmed, and trimming it twice is trimming it once. */
  lemma TrimIdempotent(s: string)
    ensures IsTrimmed(Trim(s))
    ensures Trim(Trim(s)) == Trim(s)
  {
    TrimmedIsFixed(Trim(s));
  }

  // ------------------------------------------------------ decimal digits

  /** `\d` in a Java regular expression: an ASCII digit. */
  predicate IsDigit(c: char) { '0' <= c <= '9' }

  /** The regular expression `\d+`, matched against the whole string. */
  predicate IsDigits(s: string) {
    |s| > 0 && forall k :: 0 <= k < |s| ==> IsDigit(s[k])
  }

  /** Value of a string of decimal digits (leading zeros allowed), as `Integer.parseInt`
      reads it before any range check. */
  function DigitsValue(s: string): nat
    requires forall k :: 0 <= k < |s| ==> IsDigit(s[k])
  {
    if s == [] then 0
    else
      assert IsDigit(s[|s| - 1]);
      DigitsValue(s[..|s| - 1]) * 10 + (s[|s| - 1] as int - '0' as int)
  }

  function DigitChar(d: nat): (c: char)
    requires d < 10
    ensures IsDigit(c) && c as int - '0' as int == d
  {
    ['0', '1', '2', '3', '4', '5', '6', '7', '8', '9'][d]
  }

  /** `%d` of a non-negative number: the decimal text of `n`, which reads back as `n`
      and carries no leading zero. */
  function NatToString(n: nat): (s: string)
    ensures IsDigits(s) && DigitsValue(s) == n
    ensures s[0] == '0' ==> n == 0 && |s| == 1
  {
    if n < 10 then [DigitChar(n)]
    else
      var prefix := NatToString(n / 10);
      var s := prefix + [DigitChar(n % 10)];
      assert s[..|s| - 1] == prefix;
      s
  }

  /** `%d` of any `int`: a minus sign before the magnitude of a negative number. */
  function IntToString(i: int): (s: string)
    ensures i >= 0 ==> IsDigits(s) && DigitsValue(s) == i
    ensures i < 0 ==> |s| >= 2 && s[0] == '-' && IsDigits(s[1..]) && DigitsValue(s[1..]) == -i
  {
    if i < 0 then "-" + NatToString(-i) else NatToString(i)
  }

  // -------------------------------------------------------------- indexOf

  /** `p` occurs in `s` starting at index `j`. */
  predicate OccursAt(s: string, p: string, j: nat) {
    j + |p| <= |s| && s[j..j + |p|] == p
  }

  /** `s.indexOf(p, k)`: the first occurrence of `p` at or after `k`, or -1. */
  function IndexOfFrom(s: string, p: string, k: nat): (r: int)
    requires k <= |s|
    ensures r == -1 || (k <= r && OccursAt(s, p, r))
    ensures r == -1 ==> forall j :: k <= j ==> !OccursAt(s, p, j)
    ensures r != -1 ==> forall j :: k <= j < r ==> !OccursAt(s, p, j)
    decreases |s| - k
  {
    if k + |p| > |s| then -1
    else if s[k..k + |p|] == p then k
    else IndexOfFrom(s, p, k + 1)
  }

  /** `s.indexOf(p)`. */
  function IndexOf(s: string, p: string): (r: int)
    ensures r == -1 <==> forall j :: !OccursAt(s, p, j)
    ensures r != -1 ==> 0 <= r && OccursAt(s, p, r) && forall j: nat :: j < r ==> !OccursAt(s, p, j)
  {
    IndexOfFrom(s, p, 0)
  }

  // ------------------------------------------------------- split(" ", 2)

  /** `s.split(" ", 2)` read as (first element, second element or ""): the text before
      the first space and everything after it, the latter not trimmed again. */
  function SplitFirstSpace(s: string): (string, string)
  {
    var i := IndexOf(s, " ");
    if i < 0 then (s, "") else (s[..i], s[i + 1..])
  }

  /** The two parts of `SplitFirstSpace` rebuild the input: the head holds no space and,
      when the input has one, head + " " + rest is the input again. */
  lemma SplitFirstSpaceJoin(s: string)
    ensures var (head, rest) := SplitFirstSpace(s);
      ' ' !in head &&
      (' ' in s ==> s == head + " " + rest) &&
      (' ' !in s ==> head == s && rest == "")
  {
    var i := IndexOf(s, " ");
    if i < 0 {
      forall j | 0 <= j < |s| ensures s[j] != ' ' {
        assert !OccursAt(s, " ", j);
        assert s[j..j + 1] == [s[j]];
      }
    } else {
      assert s[i..i + 1] == " ";
      forall j | 0 <= j < i ensures s[j] != ' ' {
        assert !OccursAt(s, " ", j);
        assert s[j..j + 1] == [s[j]];
      }
      assert s == s[..i] + " " + s[i + 1..];
    }
  }

  // ---------------------------------------------------------- upper case

  /** `Character.toUpperCase` restricted to ASCII letters. */
  function UpperChar(c: char): char {
    if 'a' <= c <= 'z' then (c as int - 32) as char else c
  }

  /** `a` and `b` spell the same text up to the letter case of ASCII letters, `b` being in
      capitals wherever the two differ. */
  predicate SameIgnoringCase(a: string, b: string) {
    |a| == |b| &&
    forall k :: 0 <= k < |a| ==> a[k] == b[k] || ('a' <= a[k] <= 'z' && a[k] as int - 32 == b[k] as int)
  }

  /** `String.toUpperCase` over ASCII. */
  function Upper(s: string): (u: string)
    ensures |u| == |s|
    ensures forall k :: 0 <= k < |s| ==> u[k] == UpperChar(s[k])
  {
    seq(|s|, k requires 0 <= k < |s| => UpperChar(s[k]))
  }

  /** Upper-casing is what case-insensitive comparison with a name in capitals needs: a
      text without lower-case letters matches `Upper(s)` exactly when it matches `s` up to
      letter case. */
  lemma UpperMatchesIgnoringCase(s: string, name: string)
    requires forall k :: 0 <= k < |name| ==> !('a' <= name[k] <= 'z')
    ensures Upper(s) == name <==> SameIgnoringCase(s, name)
  {
    if SameIgnoringCase(s, name) {
      assert forall k :: 0 <= k < |s| ==> Upper(s)[k] == name[k];
    }
  }

  // ----------------------------------------------- newline indentation

  /** What the rewrite puts in place of one character. */
  function IndentChunk(c: char): string
  {
    if c == '\n' then "\n\t" else [c]
  }

  /** Concatenation of a sequence of strings. */
  function Flatten(chunks: seq<string>): string
  {
    if chunks == [] then [] else chunks[0] + Flatten(chunks[1..])
  }

  /** `message.replaceAll("\n", "\n\t")`: a tab after every newline. */
  function IndentNewlines(s: string): string
  {
    Flatten(seq(|s|, k requires 0 <= k < |s| => IndentChunk(s[k])))
  }

  /** The rewrite works character by character, from the front. */
  lemma IndentCons(s: string)
    requires s != []
    ensures IndentNewlines(s) == IndentChunk(s[0]) + IndentNewlines(s[1..])
  {
    var chunks := seq(|s|, k requires 0 <= k < |s| => IndentChunk(s[k]));
    assert chunks[1..] == seq(|s| - 1, k requires 0 <= k < |s| - 1 => IndentChunk(s[1..][k]));
  }

  /** Inverse rewrite: every newline followed by a tab loses the tab. */
  function UnindentNewlines(s: string): string
  {
    if s == [] then []
    else if |s| >= 2 && s[0] == '\n' && s[1] == '\t' then "\n" + UnindentNewlines(s[2..])
    else [s[0]] + UnindentNewlines(s[1..])
  }

  /** The rewrite loses nothing: removing the inserted tabs gives the message back. */
  lemma {:induction false} IndentRoundTrip(s: string)
    ensures UnindentNewlines(IndentNewlines(s)) == s
  {
    if s != [] {
      IndentCons(s);
      IndentRoundTrip(s[1..]);
      var t := IndentNewlines(s);
      if s[0] == '\n' {
        assert t[2..] == IndentNewlines(s[1..]);
      } else {
        assert t[1..] == IndentNewlines(s[1..]);
      }
    }
  }

  /** Text without a newline is left as it is. */
  lemma {:induction false} IndentWithoutNewline(s: string)
    requires '\n' !in s
    ensures IndentNewlines(s) == s
  {
    if s != [] {
      IndentCons(s);
      assert s[0] != '\n';
      assert '\n' !in s[1..] by {
        forall j | 0 <= j < |s[1..]| ensures s[1..][j] != '\n' { assert s[1..][j] == s[j + 1]; }
      }
      IndentWithoutNewline(s[1..]);
      assert s == [s[0]] + s[1..];
    }
  }
}
