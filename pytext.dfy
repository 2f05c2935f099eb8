/** The Python `str` operations the pipeline relies on, stated over `seq<char>`:
    `isspace`, `strip`, `split(None, n)`, `splitlines(keepends=True)`,
    `upper`/`lower`, `int(s, 16)`, the `X` and `d` format specs, `count`,
    `join`, and the pieces of `re` the trigger patterns use. */
module PyText {
  import opened Common

  // ---------------------------------------------------------------------------
  // Character classes
  // ---------------------------------------------------------------------------

  /** The characters for which Python's `c.isspace()` holds, as ranges of code points. */
  predicate IsSpace(c: char)
  {
    ('\t' <= c <= '\r') || ('\U{1C}' <= c <= ' ') || c == '\U{85}' || c == '\U{A0}' || c == '\U{1680}' ||
    ('\U{2000}' <= c <= '\U{200A}') || c == '\U{2028}' || c == '\U{2029}' || c == '\U{202F}' ||
    c == '\U{205F}' || c == '\U{3000}'
  }

  /** The characters that end a line for `str.splitlines` (besides the pair CR LF). */
  predicate IsLineBreak(c: char)
  {
    c == '\n' || c == '\r' || c == '\U{0B}' || c == '\U{0C}' || ('\U{1C}' <= c <= '\U{1E}') ||
    c == '\U{85}' || c == '\U{2028}' || c == '\U{2029}'
  }

  /** A regular-expression word character (`\w`), for ASCII text. */
  predicate IsWordChar(c: char)
  {
    ('a' <= c <= 'z') || ('A' <= c <= 'Z') || ('0' <= c <= '9') || c == '_'
  }

  function UpperChar(c: char): char
  {
    if 'a' <= c <= 'z' then (c as int - 32) as char else c
  }

  function LowerChar(c: char): char
  {
    if 'A' <= c <= 'Z' then (c as int + 32) as char else c
  }

  /** `s.upper()` (ASCII letters). */
  function Upper(s: string): (r: string)
    ensures |r| == |s| && forall i :: 0 <= i < |s| ==> r[i] == UpperChar(s[i])
  {
    seq(|s|, i requires 0 <= i < |s| => UpperChar(s[i]))
  }

  /** `s.lower()` (ASCII letters). */
  function Lower(s: string): (r: string)
    ensures |r| == |s| && forall i :: 0 <= i < |s| ==> r[i] == LowerChar(s[i])
  {
    seq(|s|, i requires 0 <= i < |s| => LowerChar(s[i]))
  }

  /** The two strings agree up to ASCII case, as an IGNORECASE regex compares them. */
  predicate SameIgnoringCase(a: string, b: string)
  {
    Lower(a) == Lower(b)
  }

  // ---------------------------------------------------------------------------
  // strip, lstrip, rstrip
  // ---------------------------------------------------------------------------

  /** `s.lstrip()`: drops leading whitespace. */
  function LStrip(s: string): (r: string)
    ensures |r| <= |s| && r == s[|s| - |r|..]
    ensures forall i :: 0 <= i < |s| - |r| ==> IsSpace(s[i])
    ensures r != [] ==> !IsSpace(r[0])
  {
    if s != [] && IsSpace(s[0]) then LStrip(s[1..]) else s
  }

  /** `s.rstrip()`: drops trailing whitespace. */
  function RStrip(s: string): (r: string)
    ensures |r| <= |s| && r == s[..|r|]
    ensures forall i :: |r| <= i < |s| ==> IsSpace(s[i])
    ensures r != [] ==> !IsSpace(r[|r| - 1])
  {
    if s != [] && IsSpace(s[|s| - 1]) then RStrip(s[..|s| - 1]) else s
  }

  /** `s.strip()`: the text between the leading and the trailing whitespace. */
  function Strip(s: string): (r: string)
    ensures |r| <= |s|
    ensures r != [] ==> !IsSpace(r[0]) && !IsSpace(r[|r| - 1])
    ensures r == [] <==> forall i :: 0 <= i < |s| ==> IsSpace(s[i])
  {
    RStrip(LStrip(s))
  }

  /** What `strip` keeps: the part of `s` between its leading whitespace and
      its trailing whitespace. */
  lemma StripIsMiddle(s: string)
    ensures var r, lead := Strip(s), |s| - |LStrip(s)|;
      && lead + |r| <= |s|
      && (forall i :: 0 <= i < |r| ==> r[i] == s[lead + i])
      && (forall i :: 0 <= i < lead ==> IsSpace(s[i]))
      && (forall i :: lead + |r| <= i < |s| ==> IsSpace(s[i]))
  {
    var t, r := LStrip(s), Strip(s);
    StripMiddle(s, t, r, |s| - |t|);
  }

  /** `r` cut from the front of `t`, itself the tail of `s` after `lead`
      characters, with blanks around it. */
  lemma StripMiddle(s: string, t: string, r: string, lead: nat)
    requires lead + |t| == |s| && t == s[lead..] && forall i :: 0 <= i < lead ==> IsSpace(s[i])
    requires |r| <= |t| && r == t[..|r|] && forall i :: |r| <= i < |t| ==> IsSpace(t[i])
    ensures lead + |r| <= |s|
    ensures forall i :: 0 <= i < |r| ==> r[i] == s[lead + i]
    ensures forall i :: lead + |r| <= i < |s| ==> IsSpace(s[i])
  {
    forall i | lead + |r| <= i < |s| ensures IsSpace(s[i]) {
      assert s[i] == t[i - lead];
    }
  }

  /** `s.lstrip(c)` for a single character `c`. */
  function LStripChar(s: string, c: char): (r: string)
    ensures |r| <= |s| && r == s[|s| - |r|..]
    ensures forall i :: 0 <= i < |s| - |r| ==> s[i] == c
    ensures r != [] ==> r[0] != c
  {
    if s != [] && s[0] == c then LStripChar(s[1..], c) else s
  }

  /** `s.rstrip(c)` for a single character `c`. */
  function RStripChar(s: string, c: char): (r: string)
    ensures |r| <= |s| && r == s[..|r|]
    ensures forall i :: |r| <= i < |s| ==> s[i] == c
    ensures r != [] ==> r[|r| - 1] != c
  {
    if s != [] && s[|s| - 1] == c then RStripChar(s[..|s| - 1], c) else s
  }

  /** The leading whitespace of `s`: Python's `s[: len(s) - len(s.lstrip())]`. */
  function Indent(s: string): (r: string)
    ensures s == r + LStrip(s)
    ensures forall i :: 0 <= i < |r| ==> IsSpace(r[i])
  {
    s[..|s| - |LStrip(s)|]
  }

  // ---------------------------------------------------------------------------
  // split(None, maxsplit)
  // ---------------------------------------------------------------------------

  /** The longest prefix of `s` free of whitespace. */
  function Word(s: string): (w: string)
    ensures |w| <= |s| && w == s[..|w|]
    ensures forall i :: 0 <= i < |w| ==> !IsSpace(w[i])
    ensures |w| < |s| ==> IsSpace(s[|w|])
  {
    if s == [] || IsSpace(s[0]) then [] else [s[0]] + Word(s[1..])
  }

  /** `s.split(None, maxsplit)`: runs of whitespace separate the parts, and once
      `maxsplit` parts are cut the rest (its leading whitespace skipped) is the
      last part. */
  function SplitWs(s: string, maxsplit: nat): (parts: seq<string>)
    ensures |parts| <= maxsplit + 1
    ensures parts == [] <==> LStrip(s) == []
    decreases |s|
  {
    var t := LStrip(s);
    if t == [] then []
    else if maxsplit == 0 then [t]
    else
      var w := Word(t);
      assert w == [t[0]] + Word(t[1..]);
      [w] + SplitWs(t[|w|..], maxsplit - 1)
  }

  /** No character of `s` is whitespace. */
  predicate NoSpace(s: string)
  {
    forall i :: 0 <= i < |s| ==> !IsSpace(s[i])
  }

  /** Every character of `s` is whitespace. */
  predicate AllSpace(s: string)
  {
    forall i :: 0 <= i < |s| ==> IsSpace(s[i])
  }

  /** `lstrip` removes exactly a leading run of whitespace. */
  lemma {:induction false} LStripSpaces(ws: string, t: string)
    requires AllSpace(ws) && (t == [] || !IsSpace(t[0]))
    ensures LStrip(ws + t) == t
    decreases |ws|
  {
    if ws == [] {
      assert ws + t == t;
    } else {
      assert (ws + t)[1..] == ws[1..] + t;
      LStripSpaces(ws[1..], t);
    }
  }

  /** `rstrip` removes exactly a trailing run of whitespace. */
  lemma {:induction false} RStripSpaces(t: string, ws: string)
    requires AllSpace(ws) && (t == [] || !IsSpace(t[|t| - 1]))
    ensures RStrip(t + ws) == t
    decreases |ws|
  {
    if ws == [] {
      assert t + ws == t;
    } else {
      assert (t + ws)[..|t + ws| - 1] == t + ws[..|ws| - 1];
      RStripSpaces(t, ws[..|ws| - 1]);
    }
  }

  /** `strip` of a text wrapped in whitespace gives back the text. */
  lemma StripAround(ws1: string, t: string, ws2: string)
    requires AllSpace(ws1) && AllSpace(ws2)
    requires t != [] && !IsSpace(t[0]) && !IsSpace(t[|t| - 1])
    ensures Strip(ws1 + t + ws2) == t
  {
    assert ws1 + t + ws2 == ws1 + (t + ws2);
    LStripSpaces(ws1, t + ws2);
    RStripSpaces(t, ws2);
  }

  /** The first word of a text that starts with a whitespace-free `w` followed by whitespace. */
  lemma {:induction false} WordPrefix(w: string, rest: string)
    requires NoSpace(w) && (rest == [] || IsSpace(rest[0]))
    ensures Word(w + rest) == w
    decreases |w|
  {
    if w == [] {
      assert w + rest == rest;
    } else {
      assert (w + rest)[1..] == w[1..] + rest;
      WordPrefix(w[1..], rest);
    }
  }

  /** Leading whitespace and one word split into just that word. */
  lemma SplitOneWord(ws: string, w: string, n: nat)
    requires AllSpace(ws) && w != [] && NoSpace(w)
    ensures SplitWs(ws + w, n) == [w]
  {
    LStripSpaces(ws, w);
    if n > 0 {
      WordPrefix(w, []);
      assert w + [] == w;
      assert w[|w|..] == [];
    }
  }

  /** One cutting step of `split` on a text that starts with a word. */
  lemma SplitWsStep(s: string, n: nat)
    requires s != [] && !IsSpace(s[0]) && n > 0
    ensures SplitWs(s, n) == [Word(s)] + SplitWs(s[|Word(s)|..], n - 1)
  {
    assert LStrip(s) == s;
  }

  /** The first part `split` cuts off is the first word of the text. */
  lemma SplitWsHead(s: string, n: nat)
    requires SplitWs(s, n) != [] && n > 0
    ensures SplitWs(s, n)[0] == Word(LStrip(s))
    ensures SplitWs(s, n)[1..] == SplitWs(LStrip(s)[|Word(LStrip(s))|..], n - 1)
    ensures Word(LStrip(s)) != [] && NoSpace(Word(LStrip(s)))
  {
    var t := LStrip(s);
    WordStart(t);
  }

  /** The second part of `split(None, 2)` is a word as well. */
  lemma SplitWsSecond(s: string)
    requires |SplitWs(s, 2)| >= 2
    ensures SplitWs(s, 2)[1] != [] && NoSpace(SplitWs(s, 2)[1])
  {
    SplitWsHead(s, 2);
    var rest := LStrip(s)[|Word(LStrip(s))|..];
    SecondOfTail(SplitWs(s, 2), SplitWs(rest, 1));
    SplitWsHead(rest, 1);
  }

  lemma SecondOfTail<T>(a: seq<T>, b: seq<T>)
    requires |a| >= 2 && a[1..] == b
    ensures b != [] && a[1] == b[0]
  {
  }

  lemma WordStart(t: string)
    requires t != [] && !IsSpace(t[0])
    ensures Word(t) != [] && NoSpace(Word(t))
  {
    assert Word(t) == [t[0]] + Word(t[1..]);
  }

  /** Every line terminator is whitespace, so `strip` removes it. */
  lemma LineBreakIsSpace(c: char)
    requires IsLineBreak(c)
    ensures IsSpace(c)
  {
  }

  /** Two words separated by whitespace split into the two words. */
  lemma SplitTwoWords(a: string, ws: string, b: string)
    requires a != [] && NoSpace(a) && b != [] && NoSpace(b)
    requires ws != [] && AllSpace(ws)
    ensures SplitWs(a + ws + b, 2) == [a, b]
  {
    var rest := ws + b;
    assert a + ws + b == a + rest;
    assert IsSpace(rest[0]) by { assert rest[0] == ws[0]; }
    WordPrefix(a, rest);
    SplitOneWord(ws, b, 1);
    var s := a + rest;
    assert s[0] == a[0] && s[|a|..] == rest;
    SplitAfterWord(s, |a|, b);
  }

  /** A text that starts with a word of length `k` and whose remainder splits into
      one part splits with `maxsplit=2` into the word and that part. */
  lemma SplitAfterWord(s: string, k: nat, b: string)
    requires s != [] && !IsSpace(s[0]) && |Word(s)| == k && SplitWs(s[k..], 1) == [b]
    ensures SplitWs(s, 2) == [Word(s), b]
  {
    var w := Word(s);
    SplitWsStep(s, 2);
    ConsOne(w, SplitWs(s[|w|..], 1), b);
  }

  lemma ConsOne<T>(x: T, r: seq<T>, y: T)
    requires r == [y]
    ensures [x] + r == [x, y]
  {
  }

  /** Only a text whose last character is `c` ends with `[c]`. */
  lemma EndsWithChar(s: string, c: char)
    ensures EndsWith(s, [c]) <==> s != [] && s[|s| - 1] == c
  {
    if s != [] && EndsWith(s, [c]) {
      assert s[|s| - 1..][0] == s[|s| - 1];
    }
  }

  /** Hexadecimal digits are not whitespace. */
  lemma HexNoSpace(h: string)
    requires AllHexDigits(h)
    ensures NoSpace(h)
  {
  }

  lemma NoSpaceAppend(a: string, b: string)
    requires NoSpace(a) && NoSpace(b)
    ensures NoSpace(a + b)
  {
  }

  /** `upper` leaves a text without lower-case letters unchanged. */
  lemma UpperFixed(s: string)
    requires forall i :: 0 <= i < |s| ==> !('a' <= s[i] <= 'z')
    ensures Upper(s) == s
  {
  }

  /** `lower` leaves a text without upper-case letters unchanged. */
  lemma LowerFixed(s: string)
    requires forall i :: 0 <= i < |s| ==> !('A' <= s[i] <= 'Z')
    ensures Lower(s) == s
  {
  }

  // ---------------------------------------------------------------------------
  // splitlines(keepends=True), join
  // ---------------------------------------------------------------------------

  /** Length of the first line of a non-empty `s`, including its terminator. */
  function FirstLineLength(s: string): (k: nat)
    requires s != []
    ensures 0 < k <= |s|
    ensures k < |s| ==> IsLineBreak(s[k - 1])
    ensures LineBreaksAtEnd(s[..k])
    ensures k < |s| && s[k - 1] == '\r' ==> s[k] != '\n'
    decreases |s|
  {
    if s[0] == '\r' && |s| >= 2 && s[1] == '\n' then 2
    else if IsLineBreak(s[0]) then 1
    else if |s| == 1 then 1
    else 1 + FirstLineLength(s[1..])
  }

  /** A line break occurs in `line` only as its last character, or as the
      `\r` of a final `\r\n`. */
  predicate LineBreaksAtEnd(line: string)
  {
    forall j :: 0 <= j < |line| - 1 && IsLineBreak(line[j]) ==>
      j == |line| - 2 && line[j] == '\r' && line[j + 1] == '\n'
  }

  /** `s.splitlines(keepends=True)`: the lines of `s`, each with its terminator.
      Each line ends at its first line break (`\r\n` counting as one), so every
      line but the last ends in a line break, and a line ending in `\r` is not
      followed by one starting with `\n`. */
  function SplitLines(s: string): (lines: seq<string>)
    ensures forall i :: 0 <= i < |lines| ==> lines[i] != [] && LineBreaksAtEnd(lines[i])
    ensures forall i :: 0 <= i < |lines| - 1 ==> IsLineBreak(lines[i][|lines[i]| - 1])
    ensures forall i :: 0 <= i < |lines| - 1 && lines[i][|lines[i]| - 1] == '\r' ==> lines[i + 1][0] != '\n'
    ensures |lines| <= |s|
    ensures s != [] ==> lines != [] && lines[0] == s[..FirstLineLength(s)]
    decreases |s|
  {
    if s == [] then [] else
      var k := FirstLineLength(s);
      var rest := SplitLines(s[k..]);
      assert rest != [] ==> rest[0][0] == s[k];
      [s[..k]] + rest
  }

  /** `"".join(parts)`. */
  function Concat(parts: seq<string>): (r: string)
  {
    if parts == [] then [] else Concat(parts[..|parts| - 1]) + parts[|parts| - 1]
  }

  /** `sep.join(parts)`. */
  function Join(parts: seq<string>, sep: string): (r: string)
  {
    if parts == [] then []
    else if |parts| == 1 then parts[0]
    else Join(parts[..|parts| - 1], sep) + sep + parts[|parts| - 1]
  }

  lemma {:induction false} ConcatAppend(a: seq<string>, b: seq<string>)
    ensures Concat(a + b) == Concat(a) + Concat(b)
    decreases |b|
  {
    if b == [] {
      assert a + b == a;
    } else {
      var b', last := b[..|b| - 1], b[|b| - 1];
      var ab := a + b;
      assert ab[..|ab| - 1] == a + b' && ab[|ab| - 1] == last;
      ConcatAppend(a, b');
      calc {
        Concat(ab);
        Concat(a + b') + last;
        Concat(a) + Concat(b') + last;
      }
    }
  }

  /** A single part joins to itself. */
  lemma ConcatOne(p: string)
    ensures Concat([p]) == p
  {
    assert [p][..0] == [];
  }

  /** Keeping the terminators makes the split lossless: joining the lines gives back the text. */
  lemma {:induction false} SplitLinesRoundTrip(s: string)
    ensures Concat(SplitLines(s)) == s
    decreases |s|
  {
    if s != [] {
      var k := FirstLineLength(s);
      var head, tail := s[..k], s[k..];
      assert SplitLines(s) == [head] + SplitLines(tail);
      SplitLinesRoundTrip(tail);
      ConcatAppend([head], SplitLines(tail));
      ConcatOne(head);
      assert head + tail == s;
    }
  }

  // ---------------------------------------------------------------------------
  // Substrings
  // ---------------------------------------------------------------------------

  predicate StartsWith(s: string, p: string)
  {
    |p| <= |s| && s[..|p|] == p
  }

  predicate EndsWith(s: string, p: string)
  {
    |p| <= |s| && s[|s| - |p|..] == p
  }

  lemma EndsWithAppend(x: string, y: string)
    ensures EndsWith(x + y, y)
  {
    assert (x + y)[|x + y| - |y|..] == y;
  }

  /** `s.count(sub)` for non-empty `sub`: non-overlapping occurrences, scanning from the left. */
  function Count(s: string, sub: string): (n: nat)
    requires sub != []
    ensures n * |sub| <= |s|
    decreases |s|
  {
    if |s| < |sub| then 0
    else if s[..|sub|] == sub then 1 + Count(s[|sub|..], sub)
    else Count(s[1..], sub)
  }

  /** `sub` occurs in `s` starting at index `i`. */
  predicate OccursAt(s: string, sub: string, i: nat)
  {
    i + |sub| <= |s| && s[i..i + |sub|] == sub
  }

  /** The count is zero exactly when `sub` occurs nowhere in `s`, and an
      occurrence at the front is counted and skipped whole, so occurrences
      never overlap. */
  lemma {:induction false} CountOccurrences(s: string, sub: string)
    requires sub != []
    ensures Count(s, sub) == 0 <==> forall i :: 0 <= i < |s| ==> !OccursAt(s, sub, i)
    ensures OccursAt(s, sub, 0) ==> Count(s, sub) == 1 + Count(s[|sub|..], sub)
    decreases |s|
  {
    if |s| >= |sub| {
      assert s[0..|sub|] == s[..|sub|];
      if s[..|sub|] != sub {
        var t := s[1..];
        CountOccurrences(t, sub);
        assert Count(s, sub) == Count(t, sub);
        if Count(s, sub) == 0 {
          forall i | 0 <= i < |s| ensures !OccursAt(s, sub, i) {
            if i >= 1 {
              OccursShift(s, sub, i);
            }
          }
        } else {
          var j :| 0 <= j < |t| && OccursAt(t, sub, j);
          OccursShift(s, sub, j + 1);
        }
      } else {
        assert OccursAt(s, sub, 0);
      }
    }
  }

  /** An occurrence at `i` in `s` is one at `i - 1` in `s[1..]`. */
  lemma OccursShift(s: string, sub: string, i: nat)
    requires 1 <= i < |s|
    ensures OccursAt(s, sub, i) <==> OccursAt(s[1..], sub, i - 1)
  {
    if i + |sub| <= |s| {
      var a, b := s[1..][i - 1..i - 1 + |sub|], s[i..i + |sub|];
      assert |a| == |b|;
      forall k | 0 <= k < |a| ensures a[k] == b[k] {
        assert a[k] == s[i + k];
      }
      assert a == b;
    }
  }

  // ---------------------------------------------------------------------------
  // int(s, 16)
  // ---------------------------------------------------------------------------

  function HexDigitValue(c: char): Option<nat>
  {
    if '0' <= c <= '9' then Some(c as int - '0' as int)
    else if 'a' <= c <= 'f' then Some(c as int - 'a' as int + 10)
    else if 'A' <= c <= 'F' then Some(c as int - 'A' as int + 10)
    else None
  }

  predicate IsHexDigit(c: char)
  {
    HexDigitValue(c).Some?
  }

  predicate AllHexDigits(s: string)
  {
    forall i :: 0 <= i < |s| ==> IsHexDigit(s[i])
  }

  /** The value of a string of hexadecimal digits, most significant first. */
  function HexValue(s: string): (v: nat)
    requires AllHexDigits(s)
  {
    if s == [] then 0 else HexValue(s[..|s| - 1]) * 16 + HexDigitValue(s[|s| - 1]).value
  }

  /** Python's `int(s, 16)`: surrounding whitespace, an optional sign and an
      optional `0x`/`0X` prefix around at least one hexadecimal digit; `None`
      where Python raises ValueError. */
  function ParseHex(s: string): Option<int>
  {
    var t := Strip(s);
    var neg := |t| > 0 && t[0] == '-';
    var body := if |t| > 0 && (t[0] == '-' || t[0] == '+') then t[1..] else t;
    var digits := if |body| >= 2 && body[0] == '0' && (body[1] == 'x' || body[1] == 'X') then body[2..] else body;
    if digits != [] && AllHexDigits(digits) then
      var v: int := HexValue(digits);
      Some(if neg then -v else v)
    else None
  }

  // ---------------------------------------------------------------------------
  // Formatting: f"{n:0wX}" and f"{n:0wd}"
  // ---------------------------------------------------------------------------

  function HexChar(d: nat): (c: char)
    requires d < 16
    ensures HexDigitValue(c) == Some(d)
    ensures !('a' <= c <= 'z')
  {
    if d < 10 then ('0' as int + d) as char else ('A' as int + d - 10) as char
  }

  /** `f"{n:0{width}X}"`: the upper-case hexadecimal digits of `n`, zero-padded on
      the left to at least `width` digits and never cut short. */
  function HexPad(n: nat, width: nat): (s: string)
    ensures |s| >= width && |s| >= 1
    ensures AllHexDigits(s) && HexValue(s) == n
    ensures forall i :: 0 <= i < |s| ==> !('a' <= s[i] <= 'z')
    decreases n, width
  {
    var high := if n < 16 && width <= 1 then [] else HexPad(n / 16, if width == 0 then 0 else width - 1);
    var s := high + [HexChar(n % 16)];
    HexValueSnoc(high, HexChar(n % 16), n % 16);
    s
  }

  /** Appending a digit multiplies the value by sixteen and adds the digit. */
  lemma HexValueSnoc(high: string, c: char, d: nat)
    requires AllHexDigits(high) && HexDigitValue(c) == Some(d)
    ensures AllHexDigits(high + [c]) && HexValue(high + [c]) == HexValue(high) * 16 + d
    ensures forall i :: 0 <= i < |high| ==> (high + [c])[i] == high[i]
    ensures (high + [c])[|high|] == c
  {
    var s := high + [c];
    assert s[..|s| - 1] == high;
  }

  lemma DivMod16(n: int, q: int, r: int)
    requires 0 <= r < 16 && n == q * 16 + r
    ensures n / 16 == q && n % 16 == r
  {
  }

  /** One unfolding step of `HexPad` at a width of two digits or more. */
  lemma HexPadStep(n: nat, width: nat)
    requires width >= 2
    ensures HexPad(n, width) == HexPad(n / 16, width - 1) + [HexChar(n % 16)]
  {
  }

  lemma HexPadDigit(d: nat)
    requires d < 16
    ensures HexPad(d, 1) == [HexChar(d)]
  {
    DivMod16(d, 0, d);
    assert [] + [HexChar(d)] == [HexChar(d)];
  }

  /** A byte in two hex digits followed by another gives the 16-bit word they form. */
  lemma HexPadWord(hi: nat, lo: nat, word: nat)
    requires hi < 256 && lo < 256 && word == hi * 256 + lo
    ensures HexPad(word, 4) == HexPad(hi, 2) + HexPad(lo, 2)
  {
    WordDigits(hi, lo);
    HexPadJoin(word, hi * 16 + lo / 16, hi, lo / 16, lo % 16, lo);
  }

  lemma WordDigits(hi: nat, lo: nat)
    requires hi < 256 && lo < 256
    ensures (hi * 256 + lo) / 16 == hi * 16 + lo / 16 && (hi * 256 + lo) % 16 == lo % 16
    ensures (hi * 16 + lo / 16) / 16 == hi && (hi * 16 + lo / 16) % 16 == lo / 16
  {
    DivMod16(lo, lo / 16, lo % 16);
    DivMod16(hi * 256 + lo, hi * 16 + lo / 16, lo % 16);
    DivMod16(hi * 16 + lo / 16, hi, lo / 16);
  }

  lemma HexPadJoin(n: nat, m: nat, hi: nat, d1: nat, d0: nat, lo: nat)
    requires d1 < 16 && d0 < 16
    requires n / 16 == m && n % 16 == d0 && m / 16 == hi && m % 16 == d1
    requires lo / 16 == d1 && lo % 16 == d0
    ensures HexPad(n, 4) == HexPad(hi, 2) + HexPad(lo, 2)
  {
    var a := HexPad(hi, 2);
    var c1, c0 := HexChar(d1), HexChar(d0);
    HexPadStep(m, 3);
    assert HexPad(m, 3) == a + [c1];
    HexPadStep(n, 4);
    assert HexPad(n, 4) == a + [c1] + [c0];
    HexPadStep(lo, 2);
    HexPadDigit(d1);
    assert HexPad(lo, 2) == [c1] + [c0];
  }

  /** `f"0x{n:04X}"`, the way every stage writes an address as text. */
  function AddrText(n: nat): (s: string)
    ensures |s| >= 6 && s[..2] == "0x"
  {
    "0x" + HexPad(n, 4)
  }

  /** The address text every stage writes is read back by `int(..., 16)` as the same address. */
  lemma AddrTextRoundTrip(n: nat)
    ensures ParseHex(AddrText(n)) == Some(n)
  {
    ParsePrefixedHex(HexPad(n, 4));
  }

  /** `int("0x" + digits, 16)` is the value of the digits. */
  lemma ParsePrefixedHex(h: string)
    requires h != [] && AllHexDigits(h)
    ensures ParseHex("0x" + h) == Some(HexValue(h) as int)
  {
    var s := "0x" + h;
    assert s[2..] == h;
    assert IsHexDigit(s[|s| - 1]) by { assert s[|s| - 1] == h[|h| - 1]; }
    StripUnpadded(s);
    var t := Strip(s);
    assert t == s;
    assert !(t[0] == '-' || t[0] == '+');
  }

  /** A string that neither starts nor ends with whitespace is unchanged by `strip`. */
  lemma StripUnpadded(s: string)
    requires s != [] && !IsSpace(s[0]) && !IsSpace(s[|s| - 1])
    ensures Strip(s) == s
  {
    assert LStrip(s) == s;
    assert RStrip(s) == s;
  }

  /** Two addresses with the same text are the same address. */
  lemma AddrTextInjective(m: nat, n: nat)
    requires AddrText(m) == AddrText(n)
    ensures m == n
  {
    AddrTextRoundTrip(m);
    AddrTextRoundTrip(n);
  }

  function DecChar(d: nat): (c: char)
    requires d < 10
    ensures '0' <= c <= '9' && c as int - '0' as int == d
  {
    ('0' as int + d) as char
  }

  predicate AllDecDigits(s: string)
  {
    forall i :: 0 <= i < |s| ==> '0' <= s[i] <= '9'
  }

  /** The value of a string of decimal digits, most significant first. */
  function DecValue(s: string): (v: nat)
    requires AllDecDigits(s)
  {
    if s == [] then 0 else DecValue(s[..|s| - 1]) * 10 + (s[|s| - 1] as int - '0' as int)
  }

  /** `f"{n:0{width}d}"`; `str(n)` is `DecPad(n, 1)`: the decimal digits of `n`,
      zero-padded on the left to at least `width` digits. */
  function DecPad(n: nat, width: nat): (s: string)
    ensures |s| >= width && |s| >= 1
    ensures AllDecDigits(s) && DecValue(s) == n
    decreases n, width
  {
    var high := if n < 10 && width <= 1 then [] else DecPad(n / 10, if width == 0 then 0 else width - 1);
    var s := high + [DecChar(n % 10)];
    DecValueSnoc(high, DecChar(n % 10), n % 10);
    s
  }

  /** Appending a digit multiplies the value by ten and adds the digit. */
  lemma DecValueSnoc(high: string, c: char, d: nat)
    requires AllDecDigits(high) && '0' <= c <= '9' && c as int - '0' as int == d
    ensures AllDecDigits(high + [c]) && DecValue(high + [c]) == DecValue(high) * 10 + d
  {
    var s := high + [c];
    assert s[..|s| - 1] == high;
  }

  /** `f"{s:<width}"`: left-justified, padded with blanks. */
  function PadRight(s: string, width: nat): (r: string)
    ensures |r| == Max(|s|, width) && r[..|s|] == s
    ensures forall i :: |s| <= i < |r| ==> r[i] == ' '
  {
    s + seq(if |s| < width then width - |s| else 0, i => ' ')
  }
}
