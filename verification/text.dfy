/** The string operations the original program borrows from Python: `str(int)`,
    `",".join`, `str.split`, `str.strip`, `str.lower`, `str.replace` and the
    substring test `a in b`, together with the parsers that invert the
    renderings so that wire strings can be shown to determine their content.
 */
module Text {
  import opened Results

  // ---------------------------------------------------------------------------
  // Decimal rendering of integers, as `str(n)` / an f-string does it.

  predicate IsDigit(c: char) {
    '0' <= c <= '9'
  }

  predicate AllDigits(s: string) {
    forall i :: 0 <= i < |s| ==> IsDigit(s[i])
  }

  function DigitChar(d: nat): (c: char)
    requires d < 10
    ensures IsDigit(c)
    ensures DigitValue(c) == d
  {
    ['0', '1', '2', '3', '4', '5', '6', '7', '8', '9'][d]
  }

  function DigitValue(c: char): nat
    requires IsDigit(c)
  {
    (c as int - '0' as int) as nat
  }

  /** `str(n)` for a non-negative `n`: no sign and no leading zero. */
  function NatToString(n: nat): (s: string)
    ensures |s| >= 1 && AllDigits(s)
    ensures |s| > 1 ==> s[0] != '0'
    decreases n
  {
    if n < 10 then [DigitChar(n)] else NatToString(n / 10) + [DigitChar(n % 10)]
  }

  /** `str(i)`: a leading `-` for negative numbers. */
  function IntToString(i: int): (s: string)
    ensures |s| >= 1
    ensures i >= 0 ==> s == NatToString(i)
    ensures i < 0 ==> s == "-" + NatToString(-i)
  {
    if i < 0 then "-" + NatToString(-i) else NatToString(i)
  }

  /** The value of a non-empty run of decimal digits. */
  function DigitsValue(s: string): nat
    requires AllDigits(s)
  {
    if |s| == 0 then 0 else DigitsValue(s[..|s| - 1]) * 10 + DigitValue(s[|s| - 1])
  }

  /** Reads a decimal integer written as `str` writes it; `None` for anything else. */
  function ParseInt(s: string): (r: Option<int>)
    ensures r.Some? ==> |s| >= 1
  {
    if |s| >= 1 && AllDigits(s) then Some(DigitsValue(s))
    else if |s| >= 2 && s[0] == '-' && AllDigits(s[1..]) then Some(0 - DigitsValue(s[1..]))
    else None
  }

  lemma {:induction false} NatToStringValue(n: nat)
    ensures DigitsValue(NatToString(n)) == n
    decreases n
  {
    if n >= 10 {
      var s := NatToString(n);
      assert s[..|s| - 1] == NatToString(n / 10);
      NatToStringValue(n / 10);
    }
  }

  /** Parsing what `str(i)` writes gives `i` back. */
  lemma {:induction false} IntToStringRoundTrip(i: int)
    ensures ParseInt(IntToString(i)) == Some(i)
  {
    if i < 0 {
      NegativeRoundTrip(i);
    } else {
      NatToStringValue(i);
    }
  }

  lemma {:induction false} NegativeRoundTrip(i: int)
    requires i < 0
    ensures ParseInt(IntToString(i)) == Some(i)
  {
    var m: nat := -i;
    var s := IntToString(i);
    assert s == "-" + NatToString(m);
    ParseNegative(m);
    assert ParseInt(s) == Some(0 - DigitsValue(NatToString(m)));
    NatToStringValue(m);
  }

  /** A minus sign followed by the digits of `m` reads as `-m`'s digits negated. */
  lemma ParseNegative(m: nat)
    ensures ParseInt("-" + NatToString(m)) == Some(0 - DigitsValue(NatToString(m)))
  {
    var n := NatToString(m);
    var s := "-" + n;
    assert s[1..] == n;
    assert !IsDigit(s[0]);
  }

  lemma IntToStringInjective(i: int, j: int)
    requires IntToString(i) == IntToString(j)
    ensures i == j
  {
    IntToStringRoundTrip(i);
    IntToStringRoundTrip(j);
  }

  /** A rendered integer holds only digits and possibly a leading minus sign. */
  lemma IntToStringChars(i: int, k: nat)
    requires k < |IntToString(i)|
    ensures IsDigit(IntToString(i)[k]) || (k == 0 && IntToString(i)[k] == '-')
  {
    if i < 0 {
      var s := IntToString(i);
      if k > 0 {
        assert s[k] == NatToString(-i)[k - 1];
      }
    }
  }

  /** A rendered integer never holds a character other than a digit or `-`. */
  lemma IntToStringExcludes(i: int, c: char)
    requires !IsDigit(c) && c != '-'
    ensures Excludes(IntToString(i), c)
  {
    forall k | 0 <= k < |IntToString(i)|
      ensures IntToString(i)[k] != c
    {
      IntToStringChars(i, k);
    }
  }

  /** A non-empty sequence is its front followed by its last element. */
  lemma InitLast<T>(s: seq<T>)
    requires |s| > 0
    ensures s[..|s| - 1] + [s[|s| - 1]] == s
  {
  }

  // ---------------------------------------------------------------------------
  // `sep.join(parts)` and `s.split(sep)`.

  function Join(parts: seq<string>, sep: string): string {
    if |parts| == 0 then ""
    else if |parts| == 1 then parts[0]
    else Join(parts[..|parts| - 1], sep) + sep + parts[|parts| - 1]
  }

  /** Joining one more part appends the separator and the part. */
  lemma JoinSnoc(parts: seq<string>, last: string, sep: string)
    requires |parts| >= 1
    ensures Join(parts + [last], sep) == Join(parts, sep) + sep + last
  {
    assert (parts + [last])[..|parts|] == parts;
  }

  /** A join starts with the first character of its first part and ends with the
      last character of its last part, when those parts are not empty. */
  lemma {:induction false} JoinEnds(parts: seq<string>, sep: string)
    requires |parts| >= 1 && |parts[0]| > 0 && |parts[|parts| - 1]| > 0
    ensures var s := Join(parts, sep);
            |s| > 0 && s[0] == parts[0][0] && s[|s| - 1] == parts[|parts| - 1][|parts[|parts| - 1]| - 1]
    decreases |parts|
  {
    if |parts| > 1 {
      var init := parts[..|parts| - 1];
      if |init| > 1 {
        JoinEnds(init[..|init| - 1] + [parts[0]], sep);
      }
      JoinFirst(init, sep);
    }
  }

  lemma {:induction false} JoinFirst(parts: seq<string>, sep: string)
    requires |parts| >= 1 && |parts[0]| > 0
    ensures |Join(parts, sep)| > 0 && Join(parts, sep)[0] == parts[0][0]
    decreases |parts|
  {
    if |parts| > 1 {
      JoinFirst(parts[..|parts| - 1], sep);
    }
  }

  /** `"".join(parts)`. */
  function Concat(parts: seq<string>): string {
    Join(parts, "")
  }

  /** Python's `s.split(sep)` for a one-character separator: always at least one piece. */
  function Split(s: string, sep: char): (parts: seq<string>)
    ensures |parts| >= 1
  {
    if |s| == 0 then [""]
    else
      var init := Split(s[..|s| - 1], sep);
      if s[|s| - 1] == sep then init + [""]
      else init[..|init| - 1] + [init[|init| - 1] + [s[|s| - 1]]]
  }

  predicate Excludes(s: string, c: char) {
    forall j :: 0 <= j < |s| ==> s[j] != c
  }

  /** Appending a piece without the separator extends the last piece of a split. */
  lemma {:induction false} SplitAppendPlain(s: string, t: string, sep: char)
    requires Excludes(t, sep)
    ensures var a := Split(s, sep);
            Split(s + t, sep) == a[..|a| - 1] + [a[|a| - 1] + t]
    decreases |t|
  {
    var a := Split(s, sep);
    if |t| == 0 {
      assert s + t == s;
      assert a[|a| - 1] + t == a[|a| - 1];
      assert a[..|a| - 1] + [a[|a| - 1]] == a;
    } else {
      var t' := t[..|t| - 1];
      var x := t[|t| - 1];
      assert t' + [x] == t;
      assert s + t == (s + t') + [x];
      SplitAppendPlain(s, t', sep);
      SplitSnocPlain(s + t', x, sep);
      SnocLastPiece(a, t', x);
    }
  }

  /** One character other than the separator extends the last piece. */
  lemma SplitSnocPlain(u: string, x: char, sep: char)
    requires x != sep
    ensures var a := Split(u, sep);
            Split(u + [x], sep) == a[..|a| - 1] + [a[|a| - 1] + [x]]
  {
    assert (u + [x])[..|u|] == u;
  }

  lemma SnocLastPiece(a: seq<string>, t: string, x: char)
    requires |a| >= 1
    ensures var b := a[..|a| - 1] + [a[|a| - 1] + t];
            b[..|b| - 1] + [b[|b| - 1] + [x]] == a[..|a| - 1] + [a[|a| - 1] + (t + [x])]
  {
    var b := a[..|a| - 1] + [a[|a| - 1] + t];
    assert b[..|b| - 1] == a[..|a| - 1];
    assert b[|b| - 1] + [x] == a[|a| - 1] + (t + [x]);
  }

  /** Appending the separator opens a new, empty piece. */
  lemma SplitAppendSep(s: string, sep: char)
    ensures Split(s + [sep], sep) == Split(s, sep) + [""]
  {
    assert (s + [sep])[..|s|] == s;
  }

  /** Splitting a join gives the parts back when no part contains the separator. */
  lemma {:induction false} SplitJoin(parts: seq<string>, sep: char)
    requires |parts| >= 1
    requires forall k :: 0 <= k < |parts| ==> Excludes(parts[k], sep)
    ensures Split(Join(parts, [sep]), sep) == parts
    decreases |parts|
  {
    var last := parts[|parts| - 1];
    if |parts| == 1 {
      SplitPlain(last, sep);
    } else {
      var init := parts[..|parts| - 1];
      assert forall k :: 0 <= k < |init| ==> Excludes(init[k], sep) by {
        forall k | 0 <= k < |init| ensures Excludes(init[k], sep) {
          assert init[k] == parts[k];
        }
      }
      SplitJoin(init, sep);
      SplitJoinStep(init, last, sep);
      assert init + [last] == parts;
    }
  }

  /** A string without the separator splits into itself. */
  lemma SplitPlain(t: string, sep: char)
    requires Excludes(t, sep)
    ensures Split(t, sep) == [t]
  {
    SplitAppendPlain("", t, sep);
    assert "" + t == t;
  }

  /** Joining one more part splits into one more piece. */
  lemma SplitJoinStep(init: seq<string>, last: string, sep: char)
    requires |init| >= 1 && Excludes(last, sep)
    requires Split(Join(init, [sep]), sep) == init
    ensures Split(Join(init + [last], [sep]), sep) == init + [last]
  {
    var j := Join(init, [sep]);
    JoinSnoc(init, last, [sep]);
    assert Join(init + [last], [sep]) == (j + [sep]) + last;
    SplitAppendSep(j, sep);
    SplitAppendPlain(j + [sep], last, sep);
    var a := init + [""];
    assert a[..|a| - 1] == init;
    assert a[|a| - 1] + last == last;
  }

  lemma {:induction false} JoinExcludes(parts: seq<string>, sep: string, c: char)
    requires Excludes(sep, c)
    requires forall k :: 0 <= k < |parts| ==> Excludes(parts[k], c)
    ensures Excludes(Join(parts, sep), c)
    decreases |parts|
  {
    if |parts| > 1 {
      JoinExcludes(parts[..|parts| - 1], sep, c);
    }
  }

  // ---------------------------------------------------------------------------
  // `str.strip()`.

  /** The characters Python's `str.strip()` removes: those for which `str.isspace()`
      holds. In ASCII, tab to carriage return, the four separators 0x1C to 0x1F, and
      space; beyond it, next line, no-break space and the Unicode space separators,
      line and paragraph separators. */
  predicate IsSpace(c: char) {
    var n := c as int;
    9 <= n <= 13 || 28 <= n <= 32 || n == 0x85 || n == 0xA0 || n == 0x1680
    || 0x2000 <= n <= 0x200A || n == 0x2028 || n == 0x2029 || n == 0x202F || n == 0x205F || n == 0x3000
  }

  predicate AllSpace(t: string) {
    forall k :: 0 <= k < |t| ==> IsSpace(t[k])
  }

  function TrimLeft(s: string): (r: string)
    ensures |r| == 0 || !IsSpace(r[0])
  {
    if |s| > 0 && IsSpace(s[0]) then TrimLeft(s[1..]) else s
  }

  function TrimRight(s: string): (r: string)
    ensures |r| == 0 || !IsSpace(r[|r| - 1])
    ensures |r| <= |s| && (|r| > 0 ==> r[0] == s[0])
  {
    if |s| > 0 && IsSpace(s[|s| - 1]) then TrimRight(s[..|s| - 1]) else s
  }

  /** `TrimLeft` drops a prefix of blanks, the first `i` characters. */
  lemma {:induction false} TrimLeftSlice(s: string) returns (i: nat)
    ensures i <= |s| && TrimLeft(s) == s[i..] && AllSpace(s[..i])
  {
    if |s| > 0 && IsSpace(s[0]) {
      var rest := TrimLeftSlice(s[1..]);
      i := rest + 1;
      assert TrimLeft(s) == s[1..][rest..] == s[i..];
      var blanks := s[..i];
      forall k | 0 <= k < |blanks| ensures IsSpace(blanks[k]) {
        if k > 0 {
          assert blanks[k] == s[1..][..rest][k - 1];
        }
      }
    } else {
      i := 0;
      assert TrimLeft(s) == s[0..];
    }
  }

  /** `TrimRight` drops a suffix of blanks, all characters from `j` on. */
  lemma {:induction false} TrimRightSlice(s: string) returns (j: nat)
    ensures j <= |s| && TrimRight(s) == s[..j] && AllSpace(s[j..])
  {
    if |s| > 0 && IsSpace(s[|s| - 1]) {
      var t := s[..|s| - 1];
      j := TrimRightSlice(t);
      assert TrimRight(s) == TrimRight(t);
      assert t[..j] == s[..j];
      var blanks := s[j..];
      forall k | 0 <= k < |blanks| ensures IsSpace(blanks[k]) {
        if j + k < |t| {
          assert blanks[k] == t[j..][k];
        } else {
          assert blanks[k] == s[|s| - 1];
        }
      }
    } else {
      j := |s|;
      assert TrimRight(s) == s[..|s|];
    }
  }

  lemma StripSlice(s: string)
    ensures exists i, j :: 0 <= i <= j <= |s| && TrimRight(TrimLeft(s)) == s[i..j]
                           && AllSpace(s[..i]) && AllSpace(s[j..])
  {
    var i := TrimLeftSlice(s);
    var t := s[i..];
    var j := TrimRightSlice(t);
    SliceOfSlice(s, i, j);
    assert TrimRight(TrimLeft(s)) == s[i..i + j] && AllSpace(s[i + j..]);
  }

  lemma SliceOfSlice(s: string, i: nat, j: nat)
    requires i + j <= |s|
    ensures s[i..][..j] == s[i..i + j] && s[i..][j..] == s[i + j..]
  {
  }

  /** `str.strip()`: the input without its leading and trailing blanks. */
  function Strip(s: string): (r: string)
    ensures |r| == 0 || (!IsSpace(r[0]) && !IsSpace(r[|r| - 1]))
    ensures exists i, j :: 0 <= i <= j <= |s| && r == s[i..j] && AllSpace(s[..i]) && AllSpace(s[j..])
  {
    StripSlice(s);
    TrimRight(TrimLeft(s))
  }

  /** A string that already has no surrounding blanks is left as it is by `strip`. */
  lemma StripUnchanged(s: string)
    requires |s| > 0 && !IsSpace(s[0]) && !IsSpace(s[|s| - 1])
    ensures Strip(s) == s
  {
  }

  /** `strip` removes exactly the surrounding blanks: any run of blanks around a text
      whose ends are not blanks is dropped, and the text is kept whole. */
  lemma StripSurrounded(a: string, m: string, b: string)
    requires AllSpace(a) && AllSpace(b)
    requires |m| > 0 && !IsSpace(m[0]) && !IsSpace(m[|m| - 1])
    ensures Strip(a + m + b) == m
  {
    var s := a + m + b;
    var i, j :| 0 <= i <= j <= |s| && Strip(s) == s[i..j] && AllSpace(s[..i]) && AllSpace(s[j..]);
    // The first non-blank is at |a| and the last at |a| + |m| - 1.
    assert s[|a|] == m[0] && s[|a| + |m| - 1] == m[|m| - 1];
    if i > |a| { assert s[..i][|a|] == m[0]; }
    if i < |a| { assert s[i] == a[i]; }
    if j < |a| + |m| { assert s[j..][|a| + |m| - 1 - j] == m[|m| - 1]; }
    if j > |a| + |m| { assert s[j - 1] == b[j - 1 - |a| - |m|]; }
    assert s[|a|..|a| + |m|] == m;
  }

  // ---------------------------------------------------------------------------
  // Format names: `name.lower().replace("[", "").replace("]", "").replace(" ", "")`.

  function LowerChar(c: char): (d: char)
    ensures !('A' <= d <= 'Z')
  {
    if 'A' <= c <= 'Z' then (c as int - 'A' as int + 'a' as int) as char else c
  }

  predicate IsFormatNoise(c: char) {
    c == '[' || c == ']' || c == ' '
  }

  /** Lower-cases (ASCII letters only) and drops every `[`, `]` and space. */
  function NormalizeFormat(name: string): (r: string)
    ensures |r| <= |name|
    ensures forall k :: 0 <= k < |r| ==> !IsFormatNoise(r[k]) && !('A' <= r[k] <= 'Z')
  {
    if |name| == 0 then ""
    else
      var rest := NormalizeFormat(name[1..]);
      var c := LowerChar(name[0]);
      if IsFormatNoise(c) then rest else [c] + rest
  }

  /** Normalising a normalised name changes nothing. */
  lemma {:induction false} NormalizeFormatIdempotent(name: string)
    ensures NormalizeFormat(NormalizeFormat(name)) == NormalizeFormat(name)
  {
    var r := NormalizeFormat(name);
    NormalizedIsFixed(r);
  }

  lemma {:induction false} NormalizedIsFixed(r: string)
    requires forall k :: 0 <= k < |r| ==> !IsFormatNoise(r[k]) && !('A' <= r[k] <= 'Z')
    ensures NormalizeFormat(r) == r
    decreases |r|
  {
    if |r| > 0 {
      NormalizedIsFixed(r[1..]);
      assert [r[0]] + r[1..] == r;
    }
  }

  // ---------------------------------------------------------------------------
  // Python's `a in b` on two strings.

  predicate IsSubstring(a: string, b: string)
    decreases |b|
  {
    |a| <= |b| && (b[..|a|] == a || IsSubstring(a, b[1..]))
  }

  /** `needle` occurs in `hay` starting at position `j`. */
  predicate OccursAt(hay: string, needle: string, j: int) {
    0 <= j && j + |needle| <= |hay| && hay[j..j + |needle|] == needle
  }

  /** Python's `hay.find(needle)`: the first position where `needle` occurs, -1 when nowhere. */
  function Find(hay: string, needle: string): (r: int)
    ensures r == -1 <==> !IsSubstring(needle, hay)
    ensures r >= 0 ==> OccursAt(hay, needle, r)
    ensures forall j :: 0 <= j < r ==> !OccursAt(hay, needle, j)
    decreases |hay|
  {
    if |needle| > |hay| then -1
    else if hay[..|needle|] == needle then 0
    else
      var i := Find(hay[1..], needle);
      assert forall j :: 1 <= j ==> (OccursAt(hay, needle, j) <==> OccursAt(hay[1..], needle, j - 1));
      if i < 0 then -1 else i + 1
  }
}
