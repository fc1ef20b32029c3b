/**
 * The JavaScript string built-ins the two line-oriented parsers rely on, stated over
 * `seq<char>`: `String.prototype.split` with a one-character separator and with the
 * regular expression `/\s+/`, `Array.prototype.join`, `trim`, `startsWith`, the
 * keyword expression `/(\w*)(?: )*(.*)/` and the global `parseInt`.
 */
module JsText {

  /** The code points JavaScript's `trim` strips and `\s` matches (WhiteSpace and LineTerminator). */
  predicate IsSpace(c: char) {
    c == '\t' || c == '\n' || c == '\U{000B}' || c == '\U{000C}' || c == '\r' || c == ' '
    || c == '\U{00A0}' || c == '\U{1680}' || ('\U{2000}' <= c <= '\U{200A}')
    || c == '\U{2028}' || c == '\U{2029}' || c == '\U{202F}' || c == '\U{205F}'
    || c == '\U{3000}' || c == '\U{FEFF}'
  }

  /** The code points `.` does not match in a regular expression without the `s` flag. */
  predicate IsLineTerminator(c: char) {
    c == '\n' || c == '\r' || c == '\U{2028}' || c == '\U{2029}'
  }

  /** The class `\w` without the `u` flag. */
  predicate IsWordChar(c: char) {
    ('a' <= c <= 'z') || ('A' <= c <= 'Z') || ('0' <= c <= '9') || c == '_'
  }

  /** A non-empty run of word characters, as a directive's keyword is written. */
  predicate IsKeyword(s: string) {
    |s| > 0 && forall i :: 0 <= i < |s| ==> IsWordChar(s[i])
  }

  /** `parts.join(sep)`. */
  function Join(parts: seq<string>, sep: string): (r: string)
    ensures |parts| > 0 ==> parts[0] <= r
  {
    if |parts| == 0 then ""
    else if |parts| == 1 then parts[0]
    else parts[0] + sep + Join(parts[1..], sep)
  }

  lemma JoinCons(first: string, rest: seq<string>, sep: string)
    requires |rest| > 0
    ensures Join([first] + rest, sep) == first + sep + Join(rest, sep)
  {
    assert ([first] + rest)[1..] == rest;
  }

  /**
   * `s.split(sep)` for a one-character separator: the pieces between the occurrences
   * of `sep`, an empty piece where two occurrences touch or at either end.
   */
  function Split(s: string, sep: char): (parts: seq<string>)
    ensures |parts| > 0
  {
    if |s| == 0 then [""]
    else
      var rest := Split(s[1..], sep);
      if s[0] == sep then [""] + rest
      else [[s[0]] + rest[0]] + rest[1..]
  }

  /** No piece holds the separator, and joining the pieces with it gives the text back. */
  lemma {:induction false} SplitFacts(s: string, sep: char)
    ensures forall i :: 0 <= i < |Split(s, sep)| ==> sep !in Split(s, sep)[i]
    ensures Join(Split(s, sep), [sep]) == s
    decreases |s|
  {
    if |s| > 0 {
      var rest := Split(s[1..], sep);
      var parts := Split(s, sep);
      SplitFacts(s[1..], sep);
      assert s == [s[0]] + s[1..];
      if s[0] == sep {
        assert parts == [""] + rest;
        JoinCons("", rest, [sep]);
      } else {
        assert parts[1..] == rest[1..];
        if |rest| > 1 {
          JoinCons(rest[0], rest[1..], [sep]);
          assert [rest[0]] + rest[1..] == rest;
        }
      }
    }
  }

  /** Removes a leading run of `IsSpace` characters. */
  function TrimStart(s: string): (r: string)
    ensures |r| <= |s|
  {
    if |s| > 0 && IsSpace(s[0]) then TrimStart(s[1..]) else s
  }

  /** What `TrimStart` removes is white space, and what it keeps is the rest of the text. */
  lemma {:induction false} TrimStartFacts(s: string)
    ensures var r := TrimStart(s);
      r == s[|s| - |r|..]
      && (forall i :: 0 <= i < |s| - |r| ==> IsSpace(s[i]))
      && (r == [] || !IsSpace(r[0]))
  {
    if |s| > 0 && IsSpace(s[0]) {
      TrimStartFacts(s[1..]);
      var r := TrimStart(s);
      assert s[1..][|s| - 1 - |r|..] == s[|s| - |r|..];
      forall i | 0 < i < |s| - |r| ensures IsSpace(s[i]) {
        assert s[i] == s[1..][i - 1];
      }
    }
  }

  /** Removes a trailing run of `IsSpace` characters. */
  function TrimEnd(s: string): (r: string)
    ensures |r| <= |s|
  {
    if |s| > 0 && IsSpace(s[|s| - 1]) then TrimEnd(s[..|s| - 1]) else s
  }

  /** What `TrimEnd` removes is white space, and what it keeps is the start of the text. */
  lemma {:induction false} TrimEndFacts(s: string)
    ensures var r := TrimEnd(s);
      r == s[..|r|]
      && (forall i :: |r| <= i < |s| ==> IsSpace(s[i]))
      && (r == [] || !IsSpace(r[|r| - 1]))
  {
    if |s| > 0 && IsSpace(s[|s| - 1]) {
      TrimEndFacts(s[..|s| - 1]);
      var r := TrimEnd(s);
      assert s[..|s| - 1][..|r|] == s[..|r|];
      forall i | |r| <= i < |s| - 1 ensures IsSpace(s[i]) {
        assert s[i] == s[..|s| - 1][i];
      }
    }
  }

  /** `s.trim()`. */
  function Trim(s: string): (r: string)
    ensures |r| <= |s|
    ensures r != [] ==> !IsSpace(r[0]) && !IsSpace(r[|r| - 1])
  {
    TrimStartFacts(s);
    TrimEndFacts(TrimStart(s));
    TrimEnd(TrimStart(s))
  }

  /** Trimming twice is trimming once. */
  lemma TrimIdempotent(s: string)
    ensures Trim(Trim(s)) == Trim(s)
  {
    var r := Trim(s);
    assert TrimEnd(TrimStart(r)) == TrimEnd(r);
  }

  /** `s.startsWith(prefix)`. */
  predicate StartsWith(s: string, prefix: string) {
    |prefix| <= |s| && s[..|prefix|] == prefix
  }

  /** Drops a leading run of `IsSpace` characters; what remains is empty or starts a piece. */
  function DropSpaceRun(s: string): (r: string)
    ensures |r| <= |s|
    ensures r == [] || !IsSpace(r[0])
  {
    if |s| > 0 && IsSpace(s[0]) then DropSpaceRun(s[1..]) else s
  }

  /**
   * `s.split(/\s+/)`: the pieces between maximal runs of white space, with an empty
   * first piece when `s` starts with white space and an empty last piece when it ends
   * with white space.
   */
  function SplitOnSpace(s: string): (parts: seq<string>)
    ensures |parts| > 0
    decreases |s|
  {
    if |s| == 0 then [""]
    else if IsSpace(s[0]) then [""] + SplitOnSpace(DropSpaceRun(s[1..]))
    else
      var rest := SplitOnSpace(s[1..]);
      [[s[0]] + rest[0]] + rest[1..]
  }

  /**
   * The pieces hold no white space, only the first and the last can be empty, the first is
   * not when the text starts with a non-space, and a text without white space is one piece.
   */
  lemma {:induction false} SplitOnSpaceFacts(s: string)
    ensures var parts := SplitOnSpace(s);
      && (forall i, j :: 0 <= i < |parts| && 0 <= j < |parts[i]| ==> !IsSpace(parts[i][j]))
      && (forall i :: 0 < i < |parts| - 1 ==> parts[i] != "")
      && (|s| > 0 && !IsSpace(s[0]) ==> parts[0] != "")
      && ((forall i :: 0 <= i < |s| ==> !IsSpace(s[i])) ==> parts == [s])
    decreases |s|
  {
    if |s| > 0 {
      var parts := SplitOnSpace(s);
      if IsSpace(s[0]) {
        SplitOnSpaceFacts(DropSpaceRun(s[1..]));
        assert parts[1..] == SplitOnSpace(DropSpaceRun(s[1..]));
      } else {
        var rest := SplitOnSpace(s[1..]);
        SplitOnSpaceFacts(s[1..]);
        assert forall i :: 1 <= i < |parts| ==> parts[i] == rest[i];
        forall i, j | 0 <= i < |parts| && 0 <= j < |parts[i]| ensures !IsSpace(parts[i][j]) {
          if i == 0 && j > 0 { assert parts[0][j] == rest[0][j - 1]; }
        }
        if forall i :: 0 <= i < |s| ==> !IsSpace(s[i]) {
          forall i | 0 <= i < |s[1..]| ensures !IsSpace(s[1..][i]) { assert s[1..][i] == s[i + 1]; }
          assert rest == [s[1..]];
          assert s == [s[0]] + s[1..];
        }
      }
    }
  }

  /** The length of the longest prefix of `s` made of word characters. */
  function WordSpan(s: string): (n: nat)
    ensures n <= |s|
  {
    if |s| > 0 && IsWordChar(s[0]) then 1 + WordSpan(s[1..]) else 0
  }

  /** Drops a leading run of plain spaces (U+0020 only), as `(?: )*` does. */
  function SkipPlainSpaces(s: string): (r: string)
    ensures |r| <= |s|
  {
    if |s| > 0 && s[0] == ' ' then SkipPlainSpaces(s[1..]) else s
  }

  /** The length of the longest prefix of `s` that holds no line terminator, as `(.*)` matches. */
  function LineSpan(s: string): (n: nat)
    ensures n <= |s|
  {
    if |s| > 0 && !IsLineTerminator(s[0]) then 1 + LineSpan(s[1..]) else 0
  }

  /** The two captures of `/(\w*)(?: )*(.*)/` on a line. */
  datatype KeywordLine = KeywordLine(keyword: string, unparsedArgs: string)

  /**
   * What `keywordRE.exec(line)` captures. The expression always matches at position 0:
   * the keyword is the longest run of word characters, a run of plain spaces is skipped,
   * and the remainder runs up to the first line terminator or the end of the line.
   */
  function MatchKeyword(line: string): (m: KeywordLine)
    ensures m.keyword <= line
    ensures |m.keyword| + |m.unparsedArgs| <= |line|
  {
    var k := WordSpan(line);
    var rest := SkipPlainSpaces(line[k..]);
    KeywordLine(line[..k], rest[..LineSpan(rest)])
  }

  /**
   * The keyword is the longest prefix of word characters; the remainder starts after the
   * plain spaces that follow it and is the longest run without a line terminator.
   */
  lemma MatchKeywordFacts(line: string)
    ensures var m := MatchKeyword(line);
      && |m.keyword| <= |line| && m.keyword == line[..|m.keyword|]
      && (forall i :: 0 <= i < |m.keyword| ==> IsWordChar(m.keyword[i]))
      && (|m.keyword| < |line| ==> !IsWordChar(line[|m.keyword|]))
      && (var rest := SkipPlainSpaces(line[|m.keyword|..]);
          && |m.unparsedArgs| <= |rest| && m.unparsedArgs == rest[..|m.unparsedArgs|]
          && (|m.unparsedArgs| < |rest| ==> IsLineTerminator(rest[|m.unparsedArgs|])))
      && (forall i :: 0 <= i < |m.unparsedArgs| ==> !IsLineTerminator(m.unparsedArgs[i]))
  {
    var k := WordSpan(line);
    var rest := SkipPlainSpaces(line[k..]);
    var n := LineSpan(rest);
    WordSpanFacts(line);
    SkipPlainSpacesFacts(line[k..]);
    LineSpanFacts(rest);
    PrefixFacts(line, k);
    PrefixFacts(rest, n);
  }

  lemma {:induction false} WordSpanFacts(s: string)
    ensures forall i :: 0 <= i < WordSpan(s) ==> IsWordChar(s[i])
    ensures WordSpan(s) < |s| ==> !IsWordChar(s[WordSpan(s)])
  {
    if |s| > 0 && IsWordChar(s[0]) {
      WordSpanFacts(s[1..]);
      assert forall i :: 0 < i < |s| ==> s[i] == s[1..][i - 1];
    }
  }

  lemma {:induction false} SkipPlainSpacesFacts(s: string)
    ensures var r := SkipPlainSpaces(s);
      r == s[|s| - |r|..] && (forall i :: 0 <= i < |s| - |r| ==> s[i] == ' ') && (r == [] || r[0] != ' ')
  {
    if |s| > 0 && s[0] == ' ' {
      SkipPlainSpacesFacts(s[1..]);
      var r := SkipPlainSpaces(s);
      assert s[1..][|s| - 1 - |r|..] == s[|s| - |r|..];
      forall i | 0 < i < |s| - |r| ensures s[i] == ' ' {
        assert s[i] == s[1..][i - 1];
      }
    }
  }

  lemma {:induction false} LineSpanFacts(s: string)
    ensures forall i :: 0 <= i < LineSpan(s) ==> !IsLineTerminator(s[i])
    ensures LineSpan(s) < |s| ==> IsLineTerminator(s[LineSpan(s)])
  {
    if |s| > 0 && !IsLineTerminator(s[0]) {
      LineSpanFacts(s[1..]);
      assert forall i :: 0 < i < |s| ==> s[i] == s[1..][i - 1];
    }
  }

  lemma PrefixFacts(s: string, n: nat)
    requires n <= |s|
    ensures |s[..n]| == n && forall i :: 0 <= i < n ==> s[..n][i] == s[i]
  {
  }

  /** `line.split(/\s+/).slice(1)`: the arguments after the keyword. */
  function Parts(line: string): seq<string> {
    SplitOnSpace(line)[1..]
  }

  /** Whether the line loop of either parser skips a trimmed line before looking at its keyword. */
  predicate Skipped(line: string) {
    line == "" || StartsWith(line, "#")
  }

  /** `String(parts[0])` as a built-in receives it: a missing first argument becomes the text "undefined". */
  function FirstArg(parts: seq<string>): string {
    if |parts| > 0 then parts[0] else "undefined"
  }

  /** `parts.map(parseFloat)`. */
  function Floats(parseFloat: string -> real, parts: seq<string>): (r: seq<real>)
    ensures |r| == |parts| && forall i :: 0 <= i < |parts| ==> r[i] == parseFloat(parts[i])
  {
    seq(|parts|, i requires 0 <= i < |parts| => parseFloat(parts[i]))
  }

  /** The result of a JavaScript `parseInt`, which is an integer or NaN. */
  datatype JsInt = Int(value: int) | NaN

  /** The value of a character as a digit in radix up to 36, or 36 when it is not one. */
  function DigitValue(c: char): (d: nat)
    ensures d <= 36
  {
    if '0' <= c <= '9' then c as int - '0' as int
    else if 'a' <= c <= 'z' then c as int - 'a' as int + 10
    else if 'A' <= c <= 'Z' then c as int - 'A' as int + 10
    else 36
  }

  /** The number the digit string `ds` denotes in `radix`. */
  function DigitsValue(ds: string, radix: nat): nat {
    if |ds| == 0 then 0
    else DigitsValue(ds[..|ds| - 1], radix) * radix + DigitValue(ds[|ds| - 1])
  }

  /** The length of the longest prefix of `s` made of digits of `radix`. */
  function DigitSpan(s: string, radix: nat): (n: nat)
    ensures n <= |s|
  {
    if |s| > 0 && DigitValue(s[0]) < radix then 1 + DigitSpan(s[1..], radix) else 0
  }

  lemma {:induction false} DigitSpanFacts(s: string, radix: nat)
    ensures forall i :: 0 <= i < DigitSpan(s, radix) ==> DigitValue(s[i]) < radix
    ensures DigitSpan(s, radix) < |s| ==> DigitValue(s[DigitSpan(s, radix)]) >= radix
  {
    if |s| > 0 && DigitValue(s[0]) < radix {
      DigitSpanFacts(s[1..], radix);
      assert forall i :: 0 < i < |s| ==> s[i] == s[1..][i - 1];
    }
  }

  /** The value of the longest prefix of digits of `radix` in `ds`, or NaN if there is none. */
  function ParseDigits(ds: string, radix: nat): JsInt {
    var n := DigitSpan(ds, radix);
    if n == 0 then NaN else Int(DigitsValue(ds[..n], radix))
  }

  /** A numeral after its sign: a `0x`/`0X` prefix selects radix 16, radix 10 otherwise. */
  function ParseUnsigned(u: string): JsInt {
    if |u| >= 2 && u[0] == '0' && (u[1] == 'x' || u[1] == 'X') then ParseDigits(u[2..], 16)
    else ParseDigits(u, 10)
  }

  /**
   * `parseInt(s)` with no radix: leading white space is skipped, then an optional sign,
   * then an optional `0x`/`0X` prefix selecting radix 16 (radix 10 otherwise); the value
   * is that of the longest prefix of digits that follows, and NaN if there is none.
   */
  function ParseInt(s: string): (r: JsInt)
    ensures TrimStart(s) == [] ==> r == NaN
    ensures r.Int? && r.value < 0 ==> TrimStart(s)[0] == '-'
  {
    var t := TrimStart(s);
    if |t| > 0 && t[0] == '-' then
      match ParseUnsigned(t[1..])
      case Int(v) => Int(-v)
      case NaN => NaN
    else if |t| > 0 && t[0] == '+' then ParseUnsigned(t[1..])
    else ParseUnsigned(t)
  }

  /** The decimal numeral of a natural number, without leading zeros. */
  function NatToString(n: nat): (s: string)
    ensures |s| > 0 && forall i :: 0 <= i < |s| ==> '0' <= s[i] <= '9'
    ensures |s| > 1 ==> s[0] != '0'
  {
    if n < 10 then [('0' as int + n) as char]
    else NatToString(n / 10) + [('0' as int + n % 10) as char]
  }

  /** The decimal numeral of an integer, with a leading `-` when it is negative. */
  function IntToString(k: int): string {
    if k < 0 then "-" + NatToString(-k) else NatToString(k)
  }

  lemma {:induction false} DigitsOfNat(n: nat)
    ensures DigitsValue(NatToString(n), 10) == n
  {
    var s := NatToString(n);
    if n >= 10 {
      DigitsOfNat(n / 10);
      assert s[..|s| - 1] == NatToString(n / 10);
    }
  }

  lemma {:induction false} DigitSpanWhole(ds: string, radix: nat)
    requires forall i :: 0 <= i < |ds| ==> DigitValue(ds[i]) < radix
    ensures DigitSpan(ds, radix) == |ds|
  {
    if |ds| > 0 {
      assert forall i :: 0 <= i < |ds[1..]| ==> ds[1..][i] == ds[i + 1];
      DigitSpanWhole(ds[1..], radix);
    }
  }

  /** The digits of a natural number, without a sign, read back as that number. */
  lemma ParseUnsignedOfNat(m: nat)
    ensures ParseUnsigned(NatToString(m)) == Int(m)
  {
    var digits := NatToString(m);
    DigitSpanWhole(digits, 10);
    assert digits[..|digits|] == digits;
    DigitsOfNat(m);
    assert !(|digits| >= 2 && digits[0] == '0');
  }

  /** parseInt reads back every decimal numeral: `parseInt(String(k)) == k`. */
  lemma ParseIntOfDecimal(k: int)
    ensures ParseInt(IntToString(k)) == Int(k)
  {
    var m: nat := if k < 0 then -k else k;
    var digits := NatToString(m);
    ParseUnsignedOfNat(m);
    var s := IntToString(k);
    assert s[0] == '-' || '0' <= s[0] <= '9';
    assert TrimStart(s) == s by { assert !IsSpace(s[0]); }
    if k < 0 {
      assert s[1..] == digits;
    } else {
      assert s == digits;
    }
  }

  // ---------------------------------------------------------------------------------
  // A directive line, taken apart

  lemma {:induction false} SplitOnSpaceOfWordThenSpace(w: string, t: string)
    requires forall i :: 0 <= i < |w| ==> !IsSpace(w[i])
    requires t == [] || !IsSpace(t[0])
    ensures SplitOnSpace(w + " " + t) == [w] + SplitOnSpace(t)
    decreases |w|
  {
    if |w| == 0 {
      assert w + " " + t == " " + t;
      assert (" " + t)[1..] == t;
      assert DropSpaceRun(t) == t;
    } else {
      var u := w + " " + t;
      assert u[1..] == w[1..] + " " + t;
      SplitOnSpaceOfWordThenSpace(w[1..], t);
      assert [w[0]] + w[1..] == w;
    }
  }

  /** `split(/\s+/)` takes apart what `join(' ')` put together, for words without white space. */
  lemma {:induction false} SplitOnSpaceOfJoin(words: seq<string>)
    requires |words| > 0
    requires forall i :: 0 <= i < |words| ==> words[i] != ""
    requires forall i, j :: 0 <= i < |words| && 0 <= j < |words[i]| ==> !IsSpace(words[i][j])
    ensures SplitOnSpace(Join(words, " ")) == words
  {
    if |words| == 1 {
      SplitOnSpaceFacts(words[0]);
      assert forall j :: 0 <= j < |words[0]| ==> !IsSpace(words[0][j]);
    } else {
      var rest := Join(words[1..], " ");
      SplitOnSpaceOfJoin(words[1..]);
      assert |rest| > 0 && rest[0] == words[1][0];
      SplitOnSpaceOfWordThenSpace(words[0], rest);
      assert [words[0]] + words[1..] == words;
    }
  }

  /** A join ends with the last character of the last part. */
  lemma {:induction false} JoinEndsWithLast(words: seq<string>)
    requires |words| > 0 && words[|words| - 1] != ""
    ensures var s := Join(words, " "); |s| > 0 && s[|s| - 1] == words[|words| - 1][|words[|words| - 1]| - 1]
  {
    if |words| > 1 {
      JoinEndsWithLast(words[1..]);
    }
  }

  lemma {:induction false} JoinHasNoLineTerminator(words: seq<string>)
    requires forall i, j :: 0 <= i < |words| && 0 <= j < |words[i]| ==> !IsSpace(words[i][j])
    ensures forall i :: 0 <= i < |Join(words, " ")| ==> !IsLineTerminator(Join(words, " ")[i])
  {
    if |words| > 1 {
      JoinHasNoLineTerminator(words[1..]);
      var rest := Join(words[1..], " ");
      var s := words[0] + " " + rest;
      assert s == Join(words, " ");
      forall i | 0 <= i < |s| ensures !IsLineTerminator(s[i]) {
        if i < |words[0]| {
          assert s[i] == words[0][i];
          assert !IsSpace(words[0][i]);
        } else if i == |words[0]| {
          assert s[i] == ' ';
        } else {
          assert s[i] == rest[i - |words[0]| - 1];
        }
      }
    }
  }

  lemma {:induction false} WordSpanOfWordThen(w: string, rest: string)
    requires forall i :: 0 <= i < |w| ==> IsWordChar(w[i])
    requires rest == [] || !IsWordChar(rest[0])
    ensures WordSpan(w + rest) == |w|
    decreases |w|
  {
    if |w| > 0 {
      assert (w + rest)[1..] == w[1..] + rest;
      WordSpanOfWordThen(w[1..], rest);
    } else {
      assert w + rest == rest;
    }
  }

  lemma {:induction false} LineSpanWhole(s: string)
    requires forall i :: 0 <= i < |s| ==> !IsLineTerminator(s[i])
    ensures LineSpan(s) == |s|
  {
    if |s| > 0 {
      assert forall i :: 0 <= i < |s[1..]| ==> s[1..][i] == s[i + 1];
      LineSpanWhole(s[1..]);
    }
  }

  lemma WordsHaveNoSpace(keyword: string, args: seq<string>)
    requires forall i :: 0 <= i < |keyword| ==> IsWordChar(keyword[i])
    requires forall i, j :: 0 <= i < |args| && 0 <= j < |args[i]| ==> !IsSpace(args[i][j])
    ensures var words := [keyword] + args;
      forall i, j :: 0 <= i < |words| && 0 <= j < |words[i]| ==> !IsSpace(words[i][j])
  {
    var words := [keyword] + args;
    forall i, j | 0 <= i < |words| && 0 <= j < |words[i]| ensures !IsSpace(words[i][j]) {
      if i == 0 {
        assert IsWordChar(keyword[j]);
      } else {
        assert words[i] == args[i - 1];
      }
    }
  }

  lemma DirectiveLineIsTrimmed(keyword: string, args: seq<string>)
    requires |keyword| > 0 && forall i :: 0 <= i < |keyword| ==> IsWordChar(keyword[i])
    requires forall i :: 0 <= i < |args| ==> args[i] != ""
    requires forall i, j :: 0 <= i < |args| && 0 <= j < |args[i]| ==> !IsSpace(args[i][j])
    ensures var line := Join([keyword] + args, " ");
      Trim(line) == line && line != "" && !StartsWith(line, "#")
  {
    var words := [keyword] + args;
    var line := Join(words, " ");
    WordsHaveNoSpace(keyword, args);
    JoinEndsWithLast(words);
    assert IsWordChar(keyword[0]);
    assert !IsSpace(line[0]);
    assert TrimStart(line) == line;
    assert line[0] != '#';
  }

  lemma DirectiveLineKeyword(keyword: string, args: seq<string>)
    requires |keyword| > 0 && forall i :: 0 <= i < |keyword| ==> IsWordChar(keyword[i])
    requires forall i :: 0 <= i < |args| ==> args[i] != ""
    requires forall i, j :: 0 <= i < |args| && 0 <= j < |args[i]| ==> !IsSpace(args[i][j])
    ensures MatchKeyword(Join([keyword] + args, " ")) == KeywordLine(keyword, Join(args, " "))
  {
    var words := [keyword] + args;
    var line := Join(words, " ");
    var joined := Join(args, " ");
    var rest := if |args| == 0 then "" else " " + joined;
    assert line == keyword + rest by {
      if |args| > 0 {
        assert words[1..] == args;
      }
    }
    WordSpanOfWordThen(keyword, rest);
    assert line[..|keyword|] == keyword && line[|keyword|..] == rest;
    assert SkipPlainSpaces(rest) == joined by {
      if |args| > 0 {
        assert rest[1..] == joined;
        assert IsSpace(' ');
      }
    }
    JoinHasNoLineTerminator(args);
    LineSpanWhole(joined);
    assert joined[..|joined|] == joined;
    var k := WordSpan(line);
    assert k == |keyword|;
    assert SkipPlainSpaces(line[k..]) == joined;
    assert MatchKeyword(line) == KeywordLine(line[..k], joined[..LineSpan(joined)]);
  }

  /**
   * A line written as a keyword followed by space-separated arguments reads back as
   * that keyword, those arguments and, as the remainder, the arguments joined by spaces.
   */
  lemma DirectiveLine(keyword: string, args: seq<string>)
    requires |keyword| > 0 && forall i :: 0 <= i < |keyword| ==> IsWordChar(keyword[i])
    requires forall i :: 0 <= i < |args| ==> args[i] != ""
    requires forall i, j :: 0 <= i < |args| && 0 <= j < |args[i]| ==> !IsSpace(args[i][j])
    ensures var line := Join([keyword] + args, " ");
      Trim(line) == line && line != "" && !StartsWith(line, "#")
      && MatchKeyword(line) == KeywordLine(keyword, Join(args, " "))
      && SplitOnSpace(line)[1..] == args
  {
    var words := [keyword] + args;
    assert words[1..] == args;
    WordsHaveNoSpace(keyword, args);
    SplitOnSpaceOfJoin(words);
    DirectiveLineIsTrimmed(keyword, args);
    DirectiveLineKeyword(keyword, args);
  }

  /** A line that is one bare word is its own keyword, and is not skipped. */
  lemma BareKeywordLine(line: string)
    requires IsKeyword(line)
    ensures Trim(line) == line && !Skipped(line)
    ensures MatchKeyword(line).keyword == line
  {
    assert !IsSpace(line[0]) && !IsSpace(line[|line| - 1]) by {
      assert IsWordChar(line[0]) && IsWordChar(line[|line| - 1]);
    }
    assert TrimStart(line) == line;
    assert TrimEnd(line) == line;
    assert line[0] != '#';
    WordSpanWhole(line);
    assert line[..|line|] == line;
  }

  lemma {:induction false} WordSpanWhole(s: string)
    requires forall i :: 0 <= i < |s| ==> IsWordChar(s[i])
    ensures WordSpan(s) == |s|
  {
    if |s| > 0 {
      assert forall i :: 0 <= i < |s[1..]| ==> s[1..][i] == s[i + 1];
      WordSpanWhole(s[1..]);
    }
  }

  // ---------------------------------------------------------------------------------
  // A text, taken apart into lines

  lemma {:induction false} SplitOfPieceThenSeparator(a: string, sep: char, b: string)
    requires sep !in a
    ensures Split(a + [sep] + b, sep) == [a] + Split(b, sep)
    decreases |a|
  {
    var s := a + [sep] + b;
    if |a| == 0 {
      assert s[1..] == b;
    } else {
      assert s[1..] == a[1..] + [sep] + b;
      SplitOfPieceThenSeparator(a[1..], sep, b);
      assert [a[0]] + a[1..] == a;
    }
  }

  /** `split(sep)` takes apart what `join(sep)` put together, for pieces without `sep`. */
  lemma {:induction false} SplitOfJoin(parts: seq<string>, sep: char)
    requires |parts| > 0 && forall i :: 0 <= i < |parts| ==> sep !in parts[i]
    ensures Split(Join(parts, [sep]), sep) == parts
  {
    if |parts| == 1 {
      SplitOfNoSeparator(parts[0], sep);
    } else {
      SplitOfJoin(parts[1..], sep);
      SplitOfPieceThenSeparator(parts[0], sep, Join(parts[1..], [sep]));
      assert [parts[0]] + parts[1..] == parts;
    }
  }

  lemma {:induction false} SplitOfNoSeparator(a: string, sep: char)
    requires sep !in a
    ensures Split(a, sep) == [a]
  {
    if |a| > 0 {
      assert sep !in a[1..];
      SplitOfNoSeparator(a[1..], sep);
      assert [a[0]] + a[1..] == a;
    }
  }
}
