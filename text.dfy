/** String helpers used by several modules: the parts of Python's `str` and
    .NET's `System.String` / `System.Int32` that the modelled code relies on.
    Strings are `seq<char>`; case mapping is ASCII only. */
module Text {
  import opened Wrappers

  // ---------------------------------------------------------------------------
  // Prefixes, suffixes, substrings
  // ---------------------------------------------------------------------------

  predicate StartsWith(s: string, prefix: string) {
    prefix <= s
  }

  predicate EndsWith(s: string, suffix: string) {
    |suffix| <= |s| && s[|s| - |suffix|..] == suffix
  }

  /** Ordinal substring test (`str.__contains__`, `String.Contains(string)`). */
  predicate Contains(s: string, sub: string)
    decreases |s|
  {
    sub <= s || (|s| > 0 && Contains(s[1..], sub))
  }

  predicate ContainsChar(s: string, c: char) {
    c in s
  }

  // ---------------------------------------------------------------------------
  // ASCII case mapping
  // ---------------------------------------------------------------------------

  function LowerChar(c: char): char {
    if 'A' <= c <= 'Z' then (c as int + 32) as char else c
  }

  function UpperChar(c: char): char {
    if 'a' <= c <= 'z' then (c as int - 32) as char else c
  }

  function ToLower(s: string): (r: string)
    ensures |r| == |s|
    ensures forall i :: 0 <= i < |s| ==> r[i] == LowerChar(s[i])
  {
    seq(|s|, i requires 0 <= i < |s| => LowerChar(s[i]))
  }

  /** Equality of two characters ignoring ASCII case (both sides are
      upper-cased in the ASCII range before they are compared). */
  predicate CharEqualsIgnoreCase(a: char, b: char) {
    UpperChar(a) == UpperChar(b)
  }

  /** `s.StartsWith(prefix, StringComparison.OrdinalIgnoreCase)`, ignoring
      ASCII case only: other letters must match exactly. */
  predicate StartsWithIgnoreCase(s: string, prefix: string) {
    |prefix| <= |s| && forall i :: 0 <= i < |prefix| ==> CharEqualsIgnoreCase(s[i], prefix[i])
  }

  // ---------------------------------------------------------------------------
  // Whitespace
  // ---------------------------------------------------------------------------

  /** The characters Python's `str.isspace()` accepts (and `str.strip()` removes). */
  predicate IsPyWhitespace(c: char) {
    || c == ' ' || ('\t' <= c <= '\r') || ('\U{1C}' <= c <= '\U{1F}')
    || c == '\U{85}' || c == '\U{A0}' || c == '\U{1680}' || ('\U{2000}' <= c <= '\U{200A}')
    || c == '\U{2028}' || c == '\U{2029}' || c == '\U{202F}' || c == '\U{205F}' || c == '\U{3000}'
  }

  /** The end of the run of white space that starts at `k`. */
  function SpaceFrom(s: string, k: nat): (n: nat)
    requires k <= |s|
    decreases |s| - k
    ensures k <= n <= |s|
    ensures forall i :: k <= i < n ==> IsPyWhitespace(s[i])
    ensures n < |s| ==> !IsPyWhitespace(s[n])
  {
    if k < |s| && IsPyWhitespace(s[k]) then SpaceFrom(s, k + 1) else k
  }

  /** The start of the run of white space that ends at `k`, going no lower
      than `lo`. */
  function SpaceBefore(s: string, lo: nat, k: nat): (n: nat)
    requires lo <= k <= |s|
    ensures lo <= n <= k
    ensures forall i :: n <= i < k ==> IsPyWhitespace(s[i])
    ensures n > lo ==> !IsPyWhitespace(s[n - 1])
  {
    if k > lo && IsPyWhitespace(s[k - 1]) then SpaceBefore(s, lo, k - 1) else k
  }

  /** Python's `str.strip()` with no argument. */
  function Strip(s: string): (r: string)
    ensures r == [] <==> forall i :: 0 <= i < |s| ==> IsPyWhitespace(s[i])
    ensures r != [] ==> !IsPyWhitespace(r[0]) && !IsPyWhitespace(r[|r| - 1])
    ensures exists lo, hi :: && 0 <= lo <= hi <= |s| && r == s[lo..hi]
                             && (forall i :: 0 <= i < lo ==> IsPyWhitespace(s[i]))
                             && (forall i :: hi <= i < |s| ==> IsPyWhitespace(s[i]))
  {
    var lo := SpaceFrom(s, 0);
    var hi := SpaceBefore(s, lo, |s|);
    s[lo..hi]
  }

  /** Text that neither starts nor ends with white space is its own strip. */
  lemma StripUnchanged(s: string)
    requires s == [] || (!IsPyWhitespace(s[0]) && !IsPyWhitespace(s[|s| - 1]))
    ensures Strip(s) == s
  {
    assert SpaceFrom(s, 0) == 0;
    assert SpaceBefore(s, 0, |s|) == |s|;
    assert s[0..|s|] == s;
  }

  /** Stripping twice strips nothing more. */
  lemma StripIdempotent(s: string)
    ensures Strip(Strip(s)) == Strip(s)
  {
    var t := Strip(s);
    assert t == [] || (!IsPyWhitespace(t[0]) && !IsPyWhitespace(t[|t| - 1]));
    StripUnchanged(t);
  }

  // ---------------------------------------------------------------------------
  // Splitting on one character (`String.Split(char)`)
  // ---------------------------------------------------------------------------

  /** Every separator splits: `n` separators give `n + 1` pieces, possibly empty. */
  function Split(s: string, sep: char): (r: seq<string>)
    ensures |r| >= 1
    ensures forall k :: 0 <= k < |r| ==> sep !in r[k]
    ensures sep !in s ==> r == [s]
  {
    if |s| == 0 then [""]
    else if s[0] == sep then [""] + Split(s[1..], sep)
    else
      var rest := Split(s[1..], sep);
      assert sep !in s ==> [s[0]] + rest[0] == s;
      [[s[0]] + rest[0]] + rest[1..]
  }

  function Join(parts: seq<string>, sep: char): string
    requires |parts| >= 1
  {
    if |parts| == 1 then parts[0] else parts[0] + [sep] + Join(parts[1..], sep)
  }

  /** Splitting and re-joining on the same separator gives back the string. */
  lemma {:induction false} JoinSplit(s: string, sep: char)
    ensures Join(Split(s, sep), sep) == s
  {
    if |s| == 0 {
    } else if s[0] == sep {
      JoinSplit(s[1..], sep);
      assert s == [sep] + s[1..];
    } else {
      JoinSplit(s[1..], sep);
      var rest := Split(s[1..], sep);
      if |rest| == 1 {
        assert s == [s[0]] + s[1..];
      } else {
        assert Join(rest, sep) == rest[0] + [sep] + Join(rest[1..], sep);
        assert s == [s[0]] + s[1..];
      }
    }
  }

  function Last<T>(xs: seq<T>): T
    requires |xs| > 0
  {
    xs[|xs| - 1]
  }

  // ---------------------------------------------------------------------------
  // Decimal rendering of integers (Python `str(int)`, .NET `Int32.ToString()`)
  // ---------------------------------------------------------------------------

  function DigitChar(d: nat): char
    requires d < 10
  {
    ('0' as int + d) as char
  }

  predicate IsDigit(c: char) {
    '0' <= c <= '9'
  }

  function DigitValue(c: char): nat
    requires IsDigit(c)
  {
    c as int - '0' as int
  }

  function NatToString(n: nat): (r: string)
    ensures |r| >= 1
    ensures forall i :: 0 <= i < |r| ==> IsDigit(r[i])
    ensures n < 10 <==> |r| == 1
  {
    if n < 10 then [DigitChar(n)] else NatToString(n / 10) + [DigitChar(n % 10)]
  }

  function IntToString(n: int): (r: string)
    ensures |r| >= 1
  {
    if n < 0 then "-" + NatToString(-n) else NatToString(n)
  }

  /** Different numbers render differently. */
  lemma {:induction false} NatToStringInjective(a: nat, b: nat)
    requires NatToString(a) == NatToString(b)
    ensures a == b
  {
    if a < 10 || b < 10 {
      assert |NatToString(a)| == 1 && |NatToString(b)| == 1;
      assert NatToString(a)[0] == DigitChar(a) && NatToString(b)[0] == DigitChar(b);
    } else {
      var sa, sb := NatToString(a), NatToString(b);
      assert sa[|sa| - 1] == DigitChar(a % 10) && sb[|sb| - 1] == DigitChar(b % 10);
      assert sa[..|sa| - 1] == NatToString(a / 10) && sb[..|sb| - 1] == NatToString(b / 10);
      NatToStringInjective(a / 10, b / 10);
    }
  }

  /** Value of a non-empty run of decimal digits. */
  function DigitsValue(ds: string): nat
    requires forall i :: 0 <= i < |ds| ==> IsDigit(ds[i])
  {
    if |ds| == 0 then 0 else 10 * DigitsValue(ds[..|ds| - 1]) + DigitValue(ds[|ds| - 1])
  }

  lemma {:induction false} DigitsValueOfNatToString(n: nat)
    ensures DigitsValue(NatToString(n)) == n
  {
    if n >= 10 {
      var s := NatToString(n);
      assert s[..|s| - 1] == NatToString(n / 10);
      DigitsValueOfNatToString(n / 10);
    }
  }

  // ---------------------------------------------------------------------------
  // Integer parsing (`int.TryParse` with NumberStyles.Integer, `int.Parse`)
  // ---------------------------------------------------------------------------

  /** The white space NumberStyles.Integer tolerates around a number. */
  predicate IsNumberWhite(c: char) {
    c == ' ' || ('\t' <= c <= '\r')
  }

  function TrimNumberWhite(s: string): (r: string)
    ensures |r| <= |s|
    ensures (forall i :: 0 <= i < |s| ==> !IsNumberWhite(s[i])) ==> r == s
    decreases |s|
  {
    if |s| > 0 && IsNumberWhite(s[0]) then TrimNumberWhite(s[1..])
    else if |s| > 0 && IsNumberWhite(s[|s| - 1]) then TrimNumberWhite(s[..|s| - 1])
    else s
  }

  predicate AllDigits(s: string) {
    forall i :: 0 <= i < |s| ==> IsDigit(s[i])
  }

  /** Optional surrounding white space, an optional sign, then one or more
      decimal digits; any other text does not parse. The result is unbounded:
      range checks belong to the caller. */
  function ParseInteger(s: string): (r: Option<int>)
  {
    var t := TrimNumberWhite(s);
    if |t| > 0 && (t[0] == '-' || t[0] == '+') then
      (if |t| > 1 && AllDigits(t[1..]) then
        var magnitude: int := DigitsValue(t[1..]);
        Some(if t[0] == '-' then -magnitude else magnitude)
      else None)
    else if |t| > 0 && AllDigits(t) then Some(DigitsValue(t))
    else None
  }

  /** Rendering an integer and parsing the text back gives the integer. */
  lemma ParseIntToString(n: int)
    ensures ParseInteger(IntToString(n)) == Some(n)
  {
    var s := IntToString(n);
    assert forall i :: 0 <= i < |s| ==> !IsNumberWhite(s[i]);
    assert TrimNumberWhite(s) == s;
    if n < 0 {
      var digits := NatToString(-n);
      assert s[0] == '-' && s[1..] == digits;
      DigitsValueOfNatToString(-n);
      assert AllDigits(s[1..]) && DigitsValue(s[1..]) == -n;
    } else {
      var digits := NatToString(n);
      assert s == digits && IsDigit(s[0]);
      DigitsValueOfNatToString(n);
      assert AllDigits(s) && DigitsValue(s) == n;
    }
  }

  /** Text that holds no digit never parses. */
  lemma NoDigitNoParse(s: string)
    requires forall i :: 0 <= i < |s| ==> !IsDigit(s[i])
    ensures ParseInteger(s) == None
  {
    var t := TrimNumberWhite(s);
    TrimIsInfix(s);
    if |t| > 1 {
      assert !IsDigit(t[1]);
    }
    if |t| > 0 {
      assert !IsDigit(t[0]);
    }
  }

  lemma {:induction false} TrimIsInfix(s: string)
    ensures forall i :: 0 <= i < |TrimNumberWhite(s)| ==> TrimNumberWhite(s)[i] in s
    decreases |s|
  {
    if |s| > 0 && IsNumberWhite(s[0]) {
      TrimIsInfix(s[1..]);
      forall i | 0 <= i < |TrimNumberWhite(s)| ensures TrimNumberWhite(s)[i] in s {
        assert TrimNumberWhite(s)[i] in s[1..];
      }
    } else if |s| > 0 && IsNumberWhite(s[|s| - 1]) {
      TrimIsInfix(s[..|s| - 1]);
      forall i | 0 <= i < |TrimNumberWhite(s)| ensures TrimNumberWhite(s)[i] in s {
        assert TrimNumberWhite(s)[i] in s[..|s| - 1];
      }
    }
  }

  // ---------------------------------------------------------------------------
  // File names (`System.IO.Path`)
  // ---------------------------------------------------------------------------

  predicate IsDirSeparator(c: char) {
    c == '/' || c == '\\'
  }

  /** `Path.GetFileName`: the text after the last directory separator. */
  function FileName(path: string): (r: string)
    ensures |r| <= |path| && r == path[|path| - |r|..]
    ensures forall i :: 0 <= i < |r| ==> !IsDirSeparator(r[i])
  {
    if |path| == 0 then ""
    else if IsDirSeparator(path[|path| - 1]) then ""
    else FileName(path[..|path| - 1]) + [path[|path| - 1]]
  }

  /** Index just after the last '.' of `s`, if any. */
  function LastDotEnd(s: string): (r: Option<nat>)
    ensures r.Some? ==> 0 < r.value <= |s| && s[r.value - 1] == '.'
    ensures r.Some? ==> forall i :: r.value <= i < |s| ==> s[i] != '.'
    ensures r.None? ==> '.' !in s
  {
    if |s| == 0 then None
    else if s[|s| - 1] == '.' then Some(|s|)
    else LastDotEnd(s[..|s| - 1])
  }

  /** `Path.GetExtension`: from the last '.' of the file name to its end,
      or "" when the name has no '.' or ends with one. */
  function Extension(path: string): string {
    var name := FileName(path);
    match LastDotEnd(name)
    case None => ""
    case Some(k) => if k == |name| then "" else name[k - 1..]
  }

  /** An extension is empty, or a '.' followed by no other '.', at the very
      end of the path. */
  lemma ExtensionShape(path: string)
    ensures var r := Extension(path);
            r == [] || (r[0] == '.' && EndsWith(path, r) && '.' !in r[1..])
  {
    var name := FileName(path);
    var r := Extension(path);
    if r != [] {
      assert path[|path| - |r|..] == name[|name| - |r|..];
    }
  }
}
