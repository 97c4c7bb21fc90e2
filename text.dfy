/** The Python `str` operations the utilities rely on: case mapping,
    `strip`, `split`, `replace`, `startswith`/`endswith` and `str(int)`.
    Case mapping covers the ASCII letters only. */
module Text {

  // ---------------------------------------------------------------------
  // Characters
  // ---------------------------------------------------------------------

  predicate IsDigit(c: char) { '0' <= c <= '9' }

  predicate IsUpperLetter(c: char) { 'A' <= c <= 'Z' }

  predicate IsLowerLetter(c: char) { 'a' <= c <= 'z' }

  function DigitValue(c: char): (v: nat)
    requires IsDigit(c)
    ensures v < 10
  {
    c as int - '0' as int
  }

  function DigitChar(v: nat): (c: char)
    requires v < 10
    ensures IsDigit(c) && DigitValue(c) == v
  {
    ('0' as int + v) as char
  }

  function LowerChar(c: char): char {
    if IsUpperLetter(c) then (c as int + 32) as char else c
  }

  function UpperChar(c: char): char {
    if IsLowerLetter(c) then (c as int - 32) as char else c
  }

  /** Python's `str.isspace` set, which `str.strip()` removes. */
  predicate IsSpace(c: char) {
    || '\t' <= c <= '\r'
    || '\U{1c}' <= c <= ' '
    || c == '\U{85}' || c == '\U{a0}' || c == '\U{1680}'
    || '\U{2000}' <= c <= '\U{200a}'
    || c == '\U{2028}' || c == '\U{2029}' || c == '\U{202f}'
    || c == '\U{205f}' || c == '\U{3000}'
  }

  // ---------------------------------------------------------------------
  // Case mapping: str.lower, str.upper, str.capitalize
  // ---------------------------------------------------------------------

  function Lower(s: string): (r: string)
    ensures |r| == |s|
    ensures forall i :: 0 <= i < |s| ==> r[i] == LowerChar(s[i])
  {
    seq(|s|, i requires 0 <= i < |s| => LowerChar(s[i]))
  }

  function Upper(s: string): (r: string)
    ensures |r| == |s|
    ensures forall i :: 0 <= i < |s| ==> r[i] == UpperChar(s[i])
  {
    seq(|s|, i requires 0 <= i < |s| => UpperChar(s[i]))
  }

  /** `str.capitalize`: first character upper-cased, the rest lower-cased. */
  function Capitalize(s: string): (r: string)
    ensures |r| == |s|
    ensures s != [] ==> r[0] == UpperChar(s[0])
    ensures forall i :: 1 <= i < |s| ==> r[i] == LowerChar(s[i])
  {
    if s == [] then [] else [UpperChar(s[0])] + Lower(s[1..])
  }

  /** Folding case is insensitive to how the input was cased. */
  lemma LowerOfUpper(s: string)
    ensures Lower(Upper(s)) == Lower(s)
  {
  }

  lemma LowerIdempotent(s: string)
    ensures Lower(Lower(s)) == Lower(s)
  {
  }

  lemma UpperIdempotent(s: string)
    ensures Upper(Upper(s)) == Upper(s)
  {
  }

  lemma CapitalizeIdempotent(s: string)
    ensures Capitalize(Capitalize(s)) == Capitalize(s)
  {
    if s != [] {
      assert Capitalize(s)[1..] == Lower(s[1..]);
      LowerIdempotent(s[1..]);
    }
  }

  // ---------------------------------------------------------------------
  // str.strip
  // ---------------------------------------------------------------------

  function TrimStart(s: string): (r: string)
    ensures |r| <= |s| && r == s[|s| - |r|..]
    ensures r == [] || !IsSpace(r[0])
    ensures forall i :: 0 <= i < |s| - |r| ==> IsSpace(s[i])
  {
    if s != [] && IsSpace(s[0]) then TrimStart(s[1..]) else s
  }

  function TrimEnd(s: string): (r: string)
    ensures |r| <= |s| && r == s[..|r|]
    ensures r == [] || !IsSpace(r[|r| - 1])
    ensures forall i :: |r| <= i < |s| ==> IsSpace(s[i])
  {
    if s != [] && IsSpace(s[|s| - 1]) then TrimEnd(s[..|s| - 1]) else s
  }

  /** How many whitespace characters `s` starts with. */
  function LeadingSpaces(s: string): (n: nat)
    ensures n <= |s| && forall i :: 0 <= i < n ==> IsSpace(s[i])
    ensures n < |s| ==> !IsSpace(s[n])
  {
    var t := TrimStart(s);
    assert t != [] ==> s[|s| - |t|] == t[0];
    |s| - |t|
  }

  /** `str.strip()`: the longest infix of `s` that neither starts nor ends
      with whitespace. It starts after the leading whitespace, and
      everything after it is whitespace. */
  function Strip(s: string): (r: string)
    ensures LeadingSpaces(s) + |r| <= |s| && r == s[LeadingSpaces(s)..][..|r|]
    ensures forall i :: LeadingSpaces(s) + |r| <= i < |s| ==> IsSpace(s[i])
    ensures r == [] || (!IsSpace(r[0]) && !IsSpace(r[|r| - 1]))
  {
    var t := TrimStart(s);
    var r := TrimEnd(t);
    StripWitness(s, t, r);
    r
  }

  /** Strip's witness: `s` splits into leading whitespace, `t`'s kept
      prefix `r`, and trailing whitespace. */
  lemma StripWitness(s: string, t: string, r: string)
    requires |t| <= |s| && t == s[|s| - |t|..]
    requires |r| <= |t| && r == t[..|r|]
    requires forall i :: |r| <= i < |t| ==> IsSpace(t[i])
    requires t == [] || !IsSpace(t[0])
    ensures var k := |s| - |t|;
            && r == s[k..][..|r|]
            && (forall i :: k + |r| <= i < |s| ==> IsSpace(s[i]))
    ensures r != [] ==> r[0] == t[0]
  {
    var k := |s| - |t|;
    forall i | k + |r| <= i < |s| ensures IsSpace(s[i]) {
      assert s[i] == t[i - k];
    }
  }

  /** A stripped string is empty exactly when the input was all whitespace. */
  lemma StripEmptyIffBlank(s: string)
    ensures Strip(s) == [] <==> forall i :: 0 <= i < |s| ==> IsSpace(s[i])
  {
    if Strip(s) != [] {
      var r := Strip(s);
      assert r[0] == s[LeadingSpaces(s)];
    }
  }

  // ---------------------------------------------------------------------
  // str.startswith, str.endswith, str.replace (single characters)
  // ---------------------------------------------------------------------

  predicate StartsWith(s: string, prefix: string) {
    |prefix| <= |s| && s[..|prefix|] == prefix
  }

  predicate EndsWith(s: string, suffix: string) {
    |suffix| <= |s| && s[|s| - |suffix|..] == suffix
  }

  lemma NotInConcat(c: char, a: string, b: string)
    requires c !in a && c !in b
    ensures c !in a + b
  {
  }

  /** A text ending in `a + b` ends in `b`. */
  lemma EndsWithTail(s: string, a: string, b: string)
    requires EndsWith(s, a + b)
    ensures EndsWith(s, b)
  {
    assert s[|s| - |b|..] == s[|s| - |a + b|..][|a|..];
  }

  /** `s.replace(from, to)` for one-character `from` and `to`. */
  function ReplaceChar(s: string, from: char, to: char): (r: string)
    ensures |r| == |s|
    ensures forall i :: 0 <= i < |s| ==> r[i] == if s[i] == from then to else s[i]
  {
    seq(|s|, i requires 0 <= i < |s| => if s[i] == from then to else s[i])
  }

  function Repeat(c: char, n: nat): (r: string)
    ensures |r| == n && forall i :: 0 <= i < n ==> r[i] == c
  {
    seq(n, _ => c)
  }

  // ---------------------------------------------------------------------
  // str.split(sep) and its inverse, sep.join(pieces)
  // ---------------------------------------------------------------------

  /** `s.split(sep)`: scans left to right and cuts at every non-overlapping
      occurrence of `sep`; there is always at least one piece. */
  function Split(s: string, sep: string): (r: seq<string>)
    requires sep != []
    ensures |r| >= 1
    decreases |s|
  {
    if |s| < |sep| then [s]
    else if s[..|sep|] == sep then [""] + Split(s[|sep|..], sep)
    else
      var rest := Split(s[1..], sep);
      [[s[0]] + rest[0]] + rest[1..]
  }

  function Join(pieces: seq<string>, sep: string): string
    requires |pieces| >= 1
  {
    if |pieces| == 1 then pieces[0] else pieces[0] + sep + Join(pieces[1..], sep)
  }

  /** Splitting loses nothing: joining the pieces back gives the input. */
  lemma {:induction false} JoinSplit(s: string, sep: string)
    requires sep != []
    ensures Join(Split(s, sep), sep) == s
    decreases |s|
  {
    if |s| < |sep| {
    } else if s[..|sep|] == sep {
      var tail := s[|sep|..];
      assert s == sep + tail;
      assert Join(Split(sep + tail, sep), sep) == sep + tail by {
        JoinSplit(tail, sep);
        JoinAfterSeparator(sep, tail);
      }
    } else {
      var tail := s[1..];
      assert s == [s[0]] + tail;
      assert Join(Split([s[0]] + tail, sep), sep) == [s[0]] + tail by {
        JoinSplit(tail, sep);
        JoinAfterChar(s[0], tail, sep);
      }
    }
  }

  lemma JoinCons(head: string, rest: seq<string>, sep: string)
    requires |rest| >= 1
    ensures Join([head] + rest, sep) == head + sep + Join(rest, sep)
  {
    assert ([head] + rest)[1..] == rest;
  }

  /** The step of `JoinSplit` past a leading separator. */
  lemma JoinAfterSeparator(sep: string, tail: string)
    requires sep != [] && Join(Split(tail, sep), sep) == tail
    ensures Join(Split(sep + tail, sep), sep) == sep + tail
  {
    var s := sep + tail;
    assert s[..|sep|] == sep && s[|sep|..] == tail;
    var rest := Split(tail, sep);
    assert Split(s, sep) == [""] + rest;
    JoinCons("", rest, sep);
    assert "" + sep == sep;
  }

  /** Putting a character before the first piece puts it before the joined text. */
  lemma JoinExtendsHead(c: char, pieces: seq<string>, sep: string)
    requires |pieces| >= 1
    ensures Join([[c] + pieces[0]] + pieces[1..], sep) == [c] + Join(pieces, sep)
  {
    if |pieces| > 1 {
      var rest := pieces[1..];
      JoinCons([c] + pieces[0], rest, sep);
      JoinCons(pieces[0], rest, sep);
      assert [pieces[0]] + rest == pieces;
      assert [c] + pieces[0] + sep + Join(rest, sep) == [c] + (pieces[0] + sep + Join(rest, sep));
    }
  }

  /** The step of `JoinSplit` past a leading character that does not start
      a separator. */
  lemma JoinAfterChar(c: char, tail: string, sep: string)
    requires sep != [] && |[c] + tail| >= |sep| && ([c] + tail)[..|sep|] != sep
    requires Join(Split(tail, sep), sep) == tail
    ensures Join(Split([c] + tail, sep), sep) == [c] + tail
  {
    var s := [c] + tail;
    assert s[0] == c && s[1..] == tail;
    var rest := Split(tail, sep);
    assert Split(s, sep) == [[c] + rest[0]] + rest[1..];
    JoinExtendsHead(c, rest, sep);
  }

  /** A text without the separator character is a single piece. */
  lemma {:induction false} SplitWithoutSeparator(s: string, c: char)
    requires c !in s
    ensures Split(s, [c]) == [s]
    decreases |s|
  {
    if |s| >= 1 {
      assert s[..1] == [s[0]];
      SplitWithoutSeparator(s[1..], c);
      assert [s[0]] + s[1..] == s;
    }
  }

  /** Cutting at the first separator character. */
  lemma {:induction false} SplitAtFirst(a: string, c: char, b: string)
    requires c !in a
    ensures Split(a + [c] + b, [c]) == [a] + Split(b, [c])
    decreases |a|
  {
    var s := a + [c] + b;
    if a == [] {
      assert s[..1] == [c] && s[1..] == b;
    } else {
      assert s[..1] == [a[0]];
      assert s[1..] == a[1..] + [c] + b;
      SplitAtFirst(a[1..], c, b);
      assert [a[0]] + a[1..] == a;
    }
  }

  /** Cutting at a separator that the head cannot start inside: the first
      character of `sep` does not occur in `a`. */
  lemma {:induction false} SplitAfterHead(a: string, sep: string, b: string)
    requires sep != [] && sep[0] !in a
    ensures Split(a + sep + b, sep) == [a] + Split(b, sep)
    decreases |a|
  {
    var s := a + sep + b;
    if a == [] {
      assert s[..|sep|] == sep && s[|sep|..] == b;
    } else {
      assert s[0] == a[0] != sep[0];
      assert s[..|sep|] != sep;
      assert s[1..] == a[1..] + sep + b;
      SplitAfterHead(a[1..], sep, b);
      assert [a[0]] + a[1..] == a;
    }
  }

  /** `sep` occurs in `s` starting at index `i`. */
  predicate OccursAt(s: string, sep: string, i: nat) {
    i + |sep| <= |s| && s[i..i + |sep|] == sep
  }

  predicate Occurs(s: string, sep: string) {
    exists i: nat | i <= |s| :: OccursAt(s, sep, i)
  }

  /** A text in which `sep` occurs nowhere is a single piece. */
  lemma {:induction false} SplitWithoutOccurrence(s: string, sep: string)
    requires sep != [] && !Occurs(s, sep)
    ensures Split(s, sep) == [s]
    decreases |s|
  {
    if |s| >= |sep| {
      assert !OccursAt(s, sep, 0);
      assert s[..|sep|] != sep;
      var t := s[1..];
      forall i: nat | i <= |t|
        ensures !OccursAt(t, sep, i)
      {
        assert !OccursAt(s, sep, i + 1);
        if i + |sep| <= |t| {
          assert t[i..i + |sep|] == s[i + 1..i + 1 + |sep|];
        }
      }
      assert !Occurs(t, sep);
      SplitWithoutOccurrence(t, sep);
      assert [s[0]] + t == s;
    }
  }

  /** No piece of a split on a character contains that character. */
  lemma {:induction false} SplitPiecesExclude(s: string, c: char)
    ensures forall k :: 0 <= k < |Split(s, [c])| ==> c !in Split(s, [c])[k]
    decreases |s|
  {
    if |s| >= 1 {
      SplitPiecesExclude(s[1..], c);
      if s[..1] != [c] {
        assert s[0] != c;
      }
    }
  }

  // ---------------------------------------------------------------------
  // Universal newlines: reading text with universal_newlines=True
  // ---------------------------------------------------------------------

  /** Text-mode decoding turns every "\r\n" and every lone "\r" into "\n". */
  function TranslateNewlines(s: string): string {
    if s == [] then []
    else if s[0] != '\r' then [s[0]] + TranslateNewlines(s[1..])
    else if |s| > 1 && s[1] == '\n' then "\n" + TranslateNewlines(s[2..])
    else "\n" + TranslateNewlines(s[1..])
  }

  /** Translation leaves no carriage return behind. */
  lemma {:induction false} TranslateRemovesReturns(s: string)
    ensures '\r' !in TranslateNewlines(s)
    decreases |s|
  {
    if s != [] {
      var k := if s[0] == '\r' && |s| > 1 && s[1] == '\n' then 2 else 1;
      TranslateRemovesReturns(s[k..]);
    }
  }

  /** Translation brings in no character other than "\n". */
  lemma {:induction false} TranslateAddsOnlyNewlines(s: string, c: char)
    requires c != '\n' && c !in s
    ensures c !in TranslateNewlines(s)
    decreases |s|
  {
    if s != [] {
      var k := if s[0] == '\r' && |s| > 1 && s[1] == '\n' then 2 else 1;
      assert forall x :: x in s[k..] ==> x in s;
      TranslateAddsOnlyNewlines(s[k..], c);
    }
  }

  /** Text without a carriage return is read as it was written. */
  lemma {:induction false} TranslateWithoutReturn(s: string)
    requires '\r' !in s
    ensures TranslateNewlines(s) == s
    decreases |s|
  {
    if s != [] {
      assert s[0] in s;
      assert forall c :: c in s[1..] ==> c in s;
      TranslateWithoutReturn(s[1..]);
    }
  }

  /** Translation keeps a text non-empty. */
  lemma TranslateKeepsNonEmpty(s: string)
    requires s != []
    ensures TranslateNewlines(s) != []
  {
  }

  /** Translating past one leading character other than "\r". */
  lemma TranslateCons(x: char, rest: string)
    requires x != '\r'
    ensures TranslateNewlines([x] + rest) == [x] + TranslateNewlines(rest)
  {
    assert ([x] + rest)[1..] == rest;
  }

  /** Translating past a leading "\r", and the "\n" after it if any. */
  lemma TranslateReturn(rest: string)
    ensures TranslateNewlines(['\r'] + rest)
            == "\n" + TranslateNewlines(if rest != [] && rest[0] == '\n' then rest[1..] else rest)
  {
    var s := ['\r'] + rest;
    assert s[1..] == rest;
    if rest != [] {
      assert s[1] == rest[0] && s[2..] == rest[1..];
    }
  }

  /** Two texts are read piecewise unless a "\r\n" straddles their seam. */
  lemma {:induction false} TranslateAppend(a: string, b: string)
    requires a == [] || b == [] || a[|a| - 1] != '\r' || b[0] != '\n'
    ensures TranslateNewlines(a + b) == TranslateNewlines(a) + TranslateNewlines(b)
    decreases |a|, 1
  {
    if a == [] {
      assert a + b == b;
    } else if a[0] != '\r' {
      AppendPastChar(a, b);
    } else if |a| == 1 {
      assert a == ['\r'];
      ReturnThenText(b);
    } else {
      AppendPastReturn(a, b);
    }
  }

  lemma {:induction false} AppendPastChar(a: string, b: string)
    requires a != [] && a[0] != '\r'
    requires b == [] || a[|a| - 1] != '\r' || b[0] != '\n'
    ensures TranslateNewlines(a + b) == TranslateNewlines(a) + TranslateNewlines(b)
    decreases |a|, 0
  {
    var t := a[1..];
    assert a == [a[0]] + t;
    assert t == [] || t[|t| - 1] == a[|a| - 1];
    TranslateAppend(t, b);
    StepPastChar(a[0], t, b);
  }

  lemma {:induction false} AppendPastReturn(a: string, b: string)
    requires |a| > 1 && a[0] == '\r'
    requires b == [] || a[|a| - 1] != '\r' || b[0] != '\n'
    ensures TranslateNewlines(a + b) == TranslateNewlines(a) + TranslateNewlines(b)
    decreases |a|, 0
  {
    var t := a[1..];
    var j := if t[0] == '\n' then 1 else 0;
    assert a == ['\r'] + t;
    assert t[j..] == [] || t[j..][|t[j..]| - 1] == a[|a| - 1];
    TranslateAppend(t[j..], b);
    StepPastReturn(t, b, j);
  }

  /** A lone "\r" before a text that does not start with "\n". */
  lemma ReturnThenText(b: string)
    requires b == [] || b[0] != '\n'
    ensures TranslateNewlines(['\r'] + b) == TranslateNewlines(['\r']) + TranslateNewlines(b)
  {
    TranslateReturn(b);
    TranslateReturn([]);
  }

  lemma ConcatAssoc<T>(a: seq<T>, b: seq<T>, c: seq<T>)
    ensures a + b + c == a + (b + c)
  {
  }

  lemma DropOfAppend<T>(a: seq<T>, b: seq<T>, j: nat)
    requires j <= |a|
    ensures (a + b)[j..] == a[j..] + b
  {
  }

  lemma StepPastChar(x: char, t: string, b: string)
    requires x != '\r'
    requires TranslateNewlines(t + b) == TranslateNewlines(t) + TranslateNewlines(b)
    ensures TranslateNewlines([x] + t + b) == TranslateNewlines([x] + t) + TranslateNewlines(b)
  {
    ConcatAssoc([x], t, b);
    TranslateCons(x, t + b);
    TranslateCons(x, t);
    ConcatAssoc([x], TranslateNewlines(t), TranslateNewlines(b));
  }

  lemma StepPastReturn(t: string, b: string, j: nat)
    requires t != [] && j == (if t[0] == '\n' then 1 else 0)
    requires TranslateNewlines(t[j..] + b) == TranslateNewlines(t[j..]) + TranslateNewlines(b)
    ensures TranslateNewlines(['\r'] + t + b) == TranslateNewlines(['\r'] + t) + TranslateNewlines(b)
  {
    ConcatAssoc(['\r'], t, b);
    assert (t + b)[0] == t[0];
    DropOfAppend(t, b, j);
    TranslateReturn(t + b);
    TranslateReturn(t);
    ConcatAssoc("\n", TranslateNewlines(t[j..]), TranslateNewlines(b));
  }

  // ---------------------------------------------------------------------
  // str(n) for a natural number, and its decimal value
  // ---------------------------------------------------------------------

  predicate AllDigits(s: string) {
    forall i :: 0 <= i < |s| ==> IsDigit(s[i])
  }

  /** The number a string of decimal digits denotes. */
  function DecimalValue(s: string): nat
    requires AllDigits(s)
  {
    if s == [] then 0 else DecimalValue(s[..|s| - 1]) * 10 + DigitValue(s[|s| - 1])
  }

  /** `str(n)`: the shortest decimal numeral, whose value is `n`. */
  function NatToString(n: nat): (r: string)
    ensures 1 <= |r| && AllDigits(r)
    ensures |r| > 1 ==> r[0] != '0'
    ensures DecimalValue(r) == n
  {
    if n < 10 then [DigitChar(n)]
    else
      var r := NatToString(n / 10) + [DigitChar(n % 10)];
      assert r[..|r| - 1] == NatToString(n / 10);
      r
  }

  /** Different numbers have different numerals. */
  lemma NatToStringInjective(m: nat, n: nat)
    requires NatToString(m) == NatToString(n)
    ensures m == n
  {
  }

  /** Two-digit zero-padded numeral, as `%02d` or strftime's `%d`. */
  function Pad2(n: nat): (r: string)
    requires n < 100
    ensures |r| == 2 && AllDigits(r)
    ensures DigitValue(r[0]) * 10 + DigitValue(r[1]) == n
  {
    [DigitChar(n / 10), DigitChar(n % 10)]
  }
}
