/**
 * The JavaScript string built-ins that the dashboard's logic calls: `trim`,
 * `toLowerCase`, `includes`, `endsWith`, `split(',')` and `split(/\r\n|\n/)`.
 */
module Text {

  /**
   * The code points `String.prototype.trim` removes: ECMAScript's WhiteSpace
   * (tab, vertical tab, form feed, space, no-break space, byte order mark and
   * the space separators of category Zs) and LineTerminator (LF, CR, LS, PS).
   */
  predicate IsWhitespace(c: char) {
    || c == '\t' || c == '\n' || c == '\U{B}' || c == '\U{C}' || c == '\r' || c == ' '
    || c == '\U{A0}' || c == '\U{1680}' || '\U{2000}' <= c <= '\U{200A}'
    || c == '\U{2028}' || c == '\U{2029}' || c == '\U{202F}' || c == '\U{205F}'
    || c == '\U{3000}' || c == '\U{FEFF}'
  }

  /** `s` with its leading whitespace removed. */
  function TrimStart(s: string): (r: string)
    ensures |r| <= |s| && r == s[|s| - |r|..]
    ensures forall i :: 0 <= i < |s| - |r| ==> IsWhitespace(s[i])
    ensures r == [] || !IsWhitespace(r[0])
  {
    if |s| > 0 && IsWhitespace(s[0]) then TrimStart(s[1..]) else s
  }

  /** `s` with its trailing whitespace removed. */
  function TrimEnd(s: string): (r: string)
    ensures |r| <= |s| && r == s[..|r|]
    ensures forall i :: |r| <= i < |s| ==> IsWhitespace(s[i])
    ensures r == [] || !IsWhitespace(r[|r| - 1])
  {
    if |s| > 0 && IsWhitespace(s[|s| - 1]) then TrimEnd(s[..|s| - 1]) else s
  }

  /**
   * `String.prototype.trim`: a slice `s[i..j]` with no whitespace left at
   * either end, empty exactly when every character of `s` is whitespace;
   * `TrimCutsOnlyEdges` adds that only whitespace is cut off.
   */
  function Trim(s: string): (r: string)
    ensures exists i, j :: 0 <= i <= j <= |s| && r == s[i..j]
    ensures r == [] || (!IsWhitespace(r[0]) && !IsWhitespace(r[|r| - 1]))
    ensures r == [] <==> forall i :: 0 <= i < |s| ==> IsWhitespace(s[i])
  {
    TrimFacts(s);
    TrimEnd(TrimStart(s))
  }

  /** `trim` removes whitespace at the two ends of the text and nothing else. */
  lemma TrimCutsOnlyEdges(s: string)
    ensures exists i, j :: CutsEdges(s, Trim(s), i, j)
  {
    var front := TrimStart(s);
    var k := |s| - |front|;
    TrimCuts(s, front, TrimEnd(front));
    assert CutsEdges(s, Trim(s), k, k + |Trim(s)|);
  }

  /** `r` is `s[i..j]`, and everything cut off before `i` and from `j` on is whitespace. */
  predicate CutsEdges(s: string, r: string, i: int, j: int) {
    && 0 <= i <= j <= |s| && r == s[i..j]
    && (forall k :: 0 <= k < i ==> IsWhitespace(s[k]))
    && (forall k :: j <= k < |s| ==> IsWhitespace(s[k]))
  }

  lemma TrimFacts(s: string)
    ensures var r := TrimEnd(TrimStart(s));
      && (exists i, j :: 0 <= i <= j <= |s| && r == s[i..j])
      && (r == [] || (!IsWhitespace(r[0]) && !IsWhitespace(r[|r| - 1])))
      && (r == [] <==> forall i :: 0 <= i < |s| ==> IsWhitespace(s[i]))
  {
    var front := TrimStart(s);
    var r := TrimEnd(front);
    var k := |s| - |front|;
    assert r == s[k..][..|r|] == s[k..k + |r|];
    if r != [] {
      assert r[0] == front[0] == s[k];
    }
  }

  /** Cutting a whitespace prefix and then a whitespace suffix cuts whitespace at both edges. */
  lemma TrimCuts(s: string, front: string, r: string)
    requires |front| <= |s| && front == s[|s| - |front|..]
    requires forall m :: 0 <= m < |s| - |front| ==> IsWhitespace(s[m])
    requires |r| <= |front| && r == front[..|r|]
    requires forall m :: |r| <= m < |front| ==> IsWhitespace(front[m])
    ensures CutsEdges(s, r, |s| - |front|, |s| - |front| + |r|)
  {
    var k := |s| - |front|;
    var j := k + |r|;
    assert r == s[k..j] by {
      assert forall m :: 0 <= m < |r| ==> r[m] == front[m] == s[k + m];
    }
    assert forall m :: j <= m < |s| ==> IsWhitespace(s[m]) by {
      assert forall m :: j <= m < |s| ==> s[m] == front[m - k];
    }
  }

  /** A text with no whitespace at either end is its own trim. */
  lemma TrimOfTrimmed(s: string)
    requires s == [] || (!IsWhitespace(s[0]) && !IsWhitespace(s[|s| - 1]))
    ensures Trim(s) == s
  {
    assert TrimStart(s) == s;
    assert TrimEnd(s) == s;
  }

  /**
   * `toLowerCase` on the letters whose lower-case form is one code point
   * higher by 32: ASCII `A`-`Z` and Latin-1 `À`-`Þ` except `×`.
   */
  function LowerChar(c: char): (r: char)
    ensures IsUpper(c) ==> r as int == c as int + 32
    ensures !IsUpper(c) ==> r == c
  {
    if IsUpper(c) then (c as int + 32) as char else c
  }

  /** The capitals `toLowerCase` moves here: ASCII `A`-`Z` and Latin-1 `À`-`Þ` except `×`. */
  predicate IsUpper(c: char) {
    'A' <= c <= 'Z' || ('\U{C0}' <= c <= '\U{DE}' && c != '\U{D7}')
  }

  /** Lower-casing never turns a character into whitespace or whitespace into something else. */
  lemma LowerKeepsWhitespace(c: char)
    ensures IsWhitespace(LowerChar(c)) <==> IsWhitespace(c)
  {
  }

  /** Lower-casing a lower-cased text changes nothing. */
  lemma LowerIdempotent(s: string)
    ensures Lower(Lower(s)) == Lower(s)
  {
  }

  /** A text is all whitespace exactly when its lower-cased form is. */
  lemma LowerBlank(s: string)
    ensures (forall i :: 0 <= i < |s| ==> IsWhitespace(s[i]))
        <==> (forall i :: 0 <= i < |s| ==> IsWhitespace(Lower(s)[i]))
  {
    forall i | 0 <= i < |s|
      ensures IsWhitespace(s[i]) <==> IsWhitespace(Lower(s)[i])
    {
      LowerKeepsWhitespace(s[i]);
    }
  }

  /** `String.prototype.toLowerCase`, character by character. */
  function Lower(s: string): (r: string)
    ensures |r| == |s|
    ensures forall i :: 0 <= i < |s| ==> r[i] == LowerChar(s[i])
  {
    seq(|s|, i requires 0 <= i < |s| => LowerChar(s[i]))
  }

  predicate StartsWith(s: string, prefix: string) {
    |prefix| <= |s| && s[..|prefix|] == prefix
  }

  /** `String.prototype.endsWith`: a case-sensitive suffix test. */
  predicate EndsWith(s: string, suffix: string) {
    |suffix| <= |s| && s[|s| - |suffix|..] == suffix
  }

  /** `needle` occurs in `hay` starting at index `i`. */
  ghost predicate OccursAt(hay: string, needle: string, i: int) {
    0 <= i && i + |needle| <= |hay| && hay[i..i + |needle|] == needle
  }

  /** `String.prototype.includes`: some occurrence of `needle` in `hay`. */
  function Contains(hay: string, needle: string): (b: bool)
    ensures b <==> exists i :: OccursAt(hay, needle, i)
  {
    if StartsWith(hay, needle) then
      assert OccursAt(hay, needle, 0);
      true
    else if |hay| == 0 then
      assert forall i :: !OccursAt(hay, needle, i);
      false
    else
      var b := Contains(hay[1..], needle);
      assert forall i :: 0 < i ==> (OccursAt(hay, needle, i) <==> OccursAt(hay[1..], needle, i - 1)) by {
        forall i | 0 < i ensures OccursAt(hay, needle, i) <==> OccursAt(hay[1..], needle, i - 1) {
          if i + |needle| <= |hay| {
            SliceOfTail(hay, i, |needle|);
          }
        }
      }
      assert b ==> exists i :: OccursAt(hay, needle, i) by {
        if b {
          var k :| OccursAt(hay[1..], needle, k);
          assert OccursAt(hay, needle, k + 1);
        }
      }
      assert !OccursAt(hay, needle, 0);
      b
  }

  /** A slice of `s` not touching its first character is a slice of `s[1..]`. */
  lemma SliceOfTail(s: string, i: int, n: nat)
    requires 0 < i && i + n <= |s|
    ensures s[i..i + n] == s[1..][i - 1..i - 1 + n]
  {
    var a, b := s[i..i + n], s[1..][i - 1..i - 1 + n];
    assert |a| == n == |b|;
    forall j | 0 <= j < n
      ensures a[j] == b[j]
    {
      assert a[j] == s[i + j];
      assert b[j] == s[1..][i - 1 + j] == s[i + j];
    }
  }

  /** The number of occurrences of `c` in `s`. */
  function Count(s: string, c: char): nat {
    if |s| == 0 then 0 else (if s[0] == c then 1 else 0) + Count(s[1..], c)
  }

  /**
   * `String.prototype.split` with a one-character separator: one more piece
   * than there are separators, none of the pieces holding a separator.
   */
  function Split(s: string, sep: char): (parts: seq<string>)
    ensures |parts| == Count(s, sep) + 1
    ensures forall i :: 0 <= i < |parts| ==> sep !in parts[i]
  {
    if |s| == 0 then [""]
    else
      var rest := Split(s[1..], sep);
      if s[0] == sep then [""] + rest else [[s[0]] + rest[0]] + rest[1..]
  }

  /** `Array.prototype.join`: the pieces with `sep` between consecutive ones. */
  function Join(parts: seq<string>, sep: char): string {
    if |parts| == 0 then ""
    else if |parts| == 1 then parts[0]
    else parts[0] + [sep] + Join(parts[1..], sep)
  }

  /** Splitting loses nothing: joining the pieces back gives the original text. */
  lemma {:induction false} JoinSplit(s: string, sep: char)
    ensures Join(Split(s, sep), sep) == s
  {
    if |s| > 0 {
      var rest := Split(s[1..], sep);
      JoinSplit(s[1..], sep);
      if s[0] == sep {
        assert Split(s, sep) == [""] + rest;
        assert ([""] + rest)[1..] == rest;
        assert s == [sep] + s[1..];
      } else {
        var parts := Split(s, sep);
        assert parts == [[s[0]] + rest[0]] + rest[1..];
        if |rest| == 1 {
          assert parts == [[s[0]] + rest[0]];
        } else {
          assert parts[1..] == rest[1..];
          assert Join(rest, sep) == rest[0] + [sep] + Join(rest[1..], sep);
        }
      }
    }
  }

  /** Joining pieces that hold no separator and splitting again gives the pieces back. */
  lemma {:induction false} SplitJoin(parts: seq<string>, sep: char)
    requires |parts| > 0
    requires forall i :: 0 <= i < |parts| ==> sep !in parts[i]
    ensures Split(Join(parts, sep), sep) == parts
    decreases |Join(parts, sep)|
  {
    var head, text := parts[0], Join(parts, sep);
    if |head| > 0 {
      // peel the first character off the first piece
      var shorter := [head[1..]] + parts[1..];
      assert head == [head[0]] + head[1..];
      assert text == [head[0]] + Join(shorter, sep) by {
        if |parts| > 1 {
          assert shorter[1..] == parts[1..];
        }
      }
      assert text[1..] == Join(shorter, sep);
      SplitJoin(shorter, sep);
      assert head[0] != sep by { assert head[0] in head; }
      var rest := Split(text[1..], sep);
      assert rest == shorter;
      assert Split(text, sep) == [[text[0]] + rest[0]] + rest[1..];
      assert rest[1..] == parts[1..];
      assert parts == [head] + parts[1..];
    } else if |parts| > 1 {
      assert text == [sep] + Join(parts[1..], sep);
      assert text[1..] == Join(parts[1..], sep);
      SplitJoin(parts[1..], sep);
      assert parts == [""] + parts[1..];
    }
  }

  /**
   * `split(/\r\n|\n/)`: a line break is a line feed, optionally preceded by a
   * carriage return; a carriage return on its own does not break the line.
   */
  function SplitLines(s: string): (lines: seq<string>)
    ensures |lines| == Count(s, '\n') + 1
    ensures forall i :: 0 <= i < |lines| ==> '\n' !in lines[i]
  {
    if |s| == 0 then [""]
    else if s[0] == '\n' then [""] + SplitLines(s[1..])
    else if |s| >= 2 && s[0] == '\r' && s[1] == '\n' then
      assert Count(s, '\n') == Count(s[2..], '\n') + 1 by { assert s[1..][1..] == s[2..]; }
      [""] + SplitLines(s[2..])
    else
      var rest := SplitLines(s[1..]);
      [[s[0]] + rest[0]] + rest[1..]
  }

  /** One trailing carriage return removed, if there is one. */
  function DropCarriageReturn(line: string): string {
    if |line| > 0 && line[|line| - 1] == '\r' then line[..|line| - 1] else line
  }

  /** Every piece but the last loses one trailing carriage return. */
  function DropCarriageReturns(pieces: seq<string>): seq<string> {
    if |pieces| <= 1 then pieces
    else [DropCarriageReturn(pieces[0])] + DropCarriageReturns(pieces[1..])
  }

  /**
   * The line splitter is the comma-style split on line feeds, followed by
   * removing the carriage return of each `\r\n` pair: the final piece keeps a
   * trailing `\r`, since no line feed follows it.
   */
  lemma {:induction false} SplitLinesIsSplitOnLineFeed(s: string)
    ensures SplitLines(s) == DropCarriageReturns(Split(s, '\n'))
  {
    if |s| == 0 {
    } else if s[0] == '\n' {
      SplitLinesIsSplitOnLineFeed(s[1..]);
      var rest := Split(s[1..], '\n');
      assert Split(s, '\n') == [""] + rest;
      assert ([""] + rest)[1..] == rest;
    } else if |s| >= 2 && s[0] == '\r' && s[1] == '\n' {
      SplitLinesIsSplitOnLineFeed(s[2..]);
      var rest := Split(s[2..], '\n');
      assert s[1..][1..] == s[2..];
      var after := Split(s[1..], '\n');
      assert after == [""] + rest;
      assert after[0] == "" && after[1..] == rest;
      assert Split(s, '\n') == [[s[0]] + after[0]] + after[1..];
      assert [s[0]] + after[0] == "\r";
      assert Split(s, '\n') == ["\r"] + rest;
      assert (["\r"] + rest)[1..] == rest;
    } else {
      SplitLinesIsSplitOnLineFeed(s[1..]);
      var rest := Split(s[1..], '\n');
      var parts := Split(s, '\n');
      assert parts == [[s[0]] + rest[0]] + rest[1..];
      if |rest| > 1 {
        assert parts[1..] == rest[1..];
        assert !(rest[0] == [] && s[0] == '\r') by {
          if rest[0] == [] {
            SplitHeadEmpty(s[1..], '\n');
          }
        }
        assert DropCarriageReturn([s[0]] + rest[0]) == [s[0]] + DropCarriageReturn(rest[0]);
      }
    }
  }

  /** The first piece of a split is empty only when the text starts with the separator or is empty. */
  lemma SplitHeadEmpty(s: string, sep: char)
    requires Split(s, sep)[0] == []
    ensures |s| == 0 || s[0] == sep
  {
  }

  /** Decimal digit character of `d`. */
  function DigitChar(d: nat): (c: char)
    requires d < 10
    ensures IsDigit(c)
    ensures c as int - '0' as int == d
  {
    ('0' as int + d) as char
  }

  /** `\d` in a JavaScript regular expression without the `u` flag: ASCII digits only. */
  predicate IsDigit(c: char) {
    '0' <= c <= '9'
  }

  /** A string made of decimal digits only. */
  predicate IsDigits(s: string) {
    forall i :: 0 <= i < |s| ==> IsDigit(s[i])
  }

  /** The number a string of decimal digits denotes. */
  function DigitsValue(s: string): nat
    requires IsDigits(s)
  {
    if |s| == 0 then 0
    else DigitsValue(s[..|s| - 1]) * 10 + (s[|s| - 1] as int - '0' as int)
  }

  /** The decimal numeral of `n`, as a template literal `${n}` prints it. */
  function NatToString(n: nat): (r: string)
    ensures |r| > 0 && IsDigits(r)
    ensures DigitsValue(r) == n
    ensures n > 0 ==> r[0] != '0'
  {
    if n < 10 then [DigitChar(n)]
    else
      var r := NatToString(n / 10) + [DigitChar(n % 10)];
      assert r[..|r| - 1] == NatToString(n / 10);
      r
  }
}
