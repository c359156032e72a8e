/** String helpers the export pipeline relies on: JavaScript's `String.prototype.trim`,
    `split` on a one-character separator, `indexOf`/`replace` with a string pattern,
    and the decimal rendering of a count inside a template literal. */
module TextUtil {
  import opened Wrappers

  /** The characters `String.prototype.trim` removes: ECMAScript WhiteSpace
      (tab, vertical tab, form feed, space, no-break space, byte order mark and
      the space separators) and LineTerminator (LF, CR, LS, PS). */
  predicate IsJsWhitespace(c: char)
  {
    var n := c as int;
    n == 0x09 || n == 0x0A || n == 0x0B || n == 0x0C || n == 0x0D || n == 0x20
    || n == 0xA0 || n == 0x1680 || (0x2000 <= n <= 0x200A) || n == 0x2028
    || n == 0x2029 || n == 0x202F || n == 0x205F || n == 0x3000 || n == 0xFEFF
  }

  predicate AllWhitespace(s: string)
  {
    forall i :: 0 <= i < |s| ==> IsJsWhitespace(s[i])
  }

  /** The end of the run of whitespace that starts at `i`. */
  function WhitespaceEnd(s: string, i: nat): (r: nat)
    requires i <= |s|
    decreases |s| - i
    ensures i <= r <= |s|
    ensures forall j :: i <= j < r ==> IsJsWhitespace(s[j])
    ensures r == |s| || !IsJsWhitespace(s[r])
  {
    if i < |s| && IsJsWhitespace(s[i]) then WhitespaceEnd(s, i + 1) else i
  }

  /** The start of the run of whitespace that ends at `i`. */
  function WhitespaceStart(s: string, i: nat): (r: nat)
    requires i <= |s|
    ensures r <= i
    ensures forall j :: r <= j < i ==> IsJsWhitespace(s[j])
    ensures r == 0 || !IsJsWhitespace(s[r - 1])
  {
    if 0 < i && IsJsWhitespace(s[i - 1]) then WhitespaceStart(s, i - 1) else i
  }

  /** Where the text `trim` keeps starts and ends. */
  function TrimBounds(s: string): (b: (nat, nat))
    ensures b.0 <= b.1 <= |s|
    ensures forall j :: 0 <= j < b.0 ==> IsJsWhitespace(s[j])
    ensures forall j :: b.1 <= j < |s| ==> IsJsWhitespace(s[j])
    ensures b.0 < b.1 ==> !IsJsWhitespace(s[b.0]) && !IsJsWhitespace(s[b.1 - 1])
  {
    var lo := WhitespaceEnd(s, 0);
    if lo == |s| then (lo, lo) else (lo, WhitespaceStart(s, |s|))
  }

  /** `trim`: drops the whitespace at both ends, and only that. */
  function Trim(s: string): (r: string)
    ensures |r| <= |s|
    ensures r == [] || (!IsJsWhitespace(r[0]) && !IsJsWhitespace(r[|r| - 1]))
    ensures r == [] <==> AllWhitespace(s)
  {
    var b := TrimBounds(s);
    s[b.0..b.1]
  }

  /** What `trim` keeps is an infix of its input with only whitespace around it. */
  lemma TrimIsInfix(s: string)
    ensures exists k :: 0 <= k <= |s| - |Trim(s)| && s[k..k + |Trim(s)|] == Trim(s)
                        && AllWhitespace(s[..k]) && AllWhitespace(s[k + |Trim(s)|..])
  {
    var b := TrimBounds(s);
    assert Trim(s) == s[b.0..b.1];
    assert AllWhitespace(s[..b.0]);
    assert AllWhitespace(s[b.1..]);
  }

  /** `str.trim().length === 0`: true exactly when every character is whitespace. */
  function OnlyWhitespace(s: string): (b: bool)
    ensures b <==> AllWhitespace(s)
  {
    |Trim(s)| == 0
  }

  /** The whitespace table of the exporter: blanks, tabs and line feeds only count as
      empty; text with blanks around it does not. */
  lemma OnlyWhitespaceTable()
    ensures OnlyWhitespace("") && OnlyWhitespace("   ") && OnlyWhitespace(" \n \t ")
    ensures !OnlyWhitespace("foo") && !OnlyWhitespace("  bar  ")
  {
    assert !IsJsWhitespace("foo"[0]);
    assert !IsJsWhitespace("  bar  "[2]);
  }

  /** Trimming a trimmed string changes nothing. */
  lemma TrimIdempotent(s: string)
    ensures Trim(Trim(s)) == Trim(s)
  {
    TrimKeeps(Trim(s));
  }

  /** A string that neither starts nor ends with whitespace is its own trim. */
  lemma TrimKeeps(s: string)
    requires s == [] || (!IsJsWhitespace(s[0]) && !IsJsWhitespace(s[|s| - 1]))
    ensures Trim(s) == s
  {
    if s != [] {
      assert WhitespaceEnd(s, 0) == 0;
      assert WhitespaceStart(s, |s|) == |s|;
      assert s[0..|s|] == s;
    }
  }

  /** Concatenation regroups freely. */
  lemma Assoc3(a: string, b: string, c: string)
    ensures (a + b) + c == a + (b + c)
  {
  }

  // ---------------------------------------------------------------------------
  // split(",") and its inverse

  /** Index of the first `c` in `s`. */
  function IndexOfChar(s: string, c: char): (i: nat)
    requires c in s
    ensures i < |s| && s[i] == c && c !in s[..i]
  {
    if s[0] == c then 0
    else
      var i := 1 + IndexOfChar(s[1..], c);
      assert s[..i] == [s[0]] + s[1..][..i - 1];
      i
  }

  /** `parts.join(sep)`: the pieces with the separator in between. */
  function Join(parts: seq<string>, sep: string): string
  {
    if |parts| == 0 then ""
    else if |parts| == 1 then parts[0]
    else parts[0] + sep + Join(parts[1..], sep)
  }

  /** `s.split(sep)` for a one-character separator: the maximal separator-free
      pieces, empty ones included, so that joining them gives `s` back. */
  function Split(s: string, sep: char): (r: seq<string>)
    ensures |r| >= 1
    ensures forall i :: 0 <= i < |r| ==> sep !in r[i]
    ensures Join(r, [sep]) == s
    decreases |s|
  {
    if sep !in s then [s]
    else
      var i := IndexOfChar(s, sep);
      var rest := Split(s[i + 1..], sep);
      assert s == s[..i] + [sep] + s[i + 1..];
      [s[..i]] + rest
  }

  /** A separator at `i` with none before it is the first one. */
  lemma IndexOfCharAt(s: string, c: char, i: nat)
    requires i < |s| && s[i] == c && c !in s[..i]
    ensures IndexOfChar(s, c) == i
  {
  }

  /** Splitting a joined list of separator-free pieces gives the pieces back. */
  lemma {:induction false} SplitJoin(parts: seq<string>, sep: char)
    requires |parts| >= 1
    requires forall i :: 0 <= i < |parts| ==> sep !in parts[i]
    ensures Split(Join(parts, [sep]), sep) == parts
  {
    if |parts| > 1 {
      var tail := Join(parts[1..], [sep]);
      var s := parts[0] + [sep] + tail;
      assert Join(parts, [sep]) == s;
      var n := |parts[0]|;
      assert s[..n] == parts[0];
      assert s[n + 1..] == tail;
      assert s[n] == sep;
      IndexOfCharAt(s, sep, n);
      assert Split(s, sep) == [parts[0]] + Split(tail, sep);
      assert forall i :: 0 <= i < |parts| - 1 ==> parts[1..][i] == parts[i + 1];
      SplitJoin(parts[1..], sep);
      assert parts == [parts[0]] + parts[1..];
    }
  }

  // ---------------------------------------------------------------------------
  // decimal numbers, as a template literal prints a count

  predicate IsDigit(c: char) { '0' <= c <= '9' }

  function DigitChar(d: nat): (c: char)
    requires d < 10
    ensures IsDigit(c) && (c as int) - ('0' as int) == d
  {
    ('0' as int + d) as char
  }

  /** The value of a string of decimal digits. */
  function DecimalValue(s: string): int
    requires forall i :: 0 <= i < |s| ==> IsDigit(s[i])
  {
    if s == [] then 0
    else 10 * DecimalValue(s[..|s| - 1]) + ((s[|s| - 1] as int) - ('0' as int))
  }

  /** `${n}` for a natural number: its decimal digits, without leading zeros. */
  function DecimalString(n: nat): (r: string)
    ensures |r| >= 1 && forall i :: 0 <= i < |r| ==> IsDigit(r[i])
    ensures r[0] == '0' ==> n == 0 && r == "0"
  {
    if n < 10 then [DigitChar(n)] else DecimalString(n / 10) + [DigitChar(n % 10)]
  }

  /** Reading the digits back gives the number. */
  lemma {:induction false} DecimalRoundTrip(n: nat)
    ensures DecimalValue(DecimalString(n)) == n
  {
    if n >= 10 {
      var s := DecimalString(n);
      assert s[..|s| - 1] == DecimalString(n / 10);
      DecimalRoundTrip(n / 10);
    }
  }

  // ---------------------------------------------------------------------------
  // indexOf / replace with a string pattern

  predicate OccursAt(s: string, pat: string, q: nat)
  {
    q + |pat| <= |s| && s[q..q + |pat|] == pat
  }

  /** `s.indexOf(pat, from)`: the first position at or after `from` where `pat` occurs. */
  function IndexOfFrom(s: string, pat: string, from: nat): (r: Option<nat>)
    decreases |s| - from
    ensures r.Some? ==> from <= r.value && OccursAt(s, pat, r.value)
    ensures r.Some? ==> forall q :: from <= q < r.value ==> !OccursAt(s, pat, q)
    ensures r.None? ==> forall q :: from <= q ==> !OccursAt(s, pat, q)
  {
    if from + |pat| > |s| then None
    else if s[from..from + |pat|] == pat then Some(from)
    else IndexOfFrom(s, pat, from + 1)
  }

  /** `s.replace(pat, v)` with a string pattern: the first occurrence of `pat`
      becomes `v`; without an occurrence `s` is returned as it is. */
  function ReplaceFirst(s: string, pat: string, v: string): (r: string)
    ensures (forall q: nat :: !OccursAt(s, pat, q)) ==> r == s
    ensures forall i: nat :: OccursAt(s, pat, i) && (forall q: nat :: q < i ==> !OccursAt(s, pat, q))
                        ==> r == s[..i] + v + s[i + |pat|..]
  {
    match IndexOfFrom(s, pat, 0)
    case None => s
    case Some(i) => s[..i] + v + s[i + |pat|..]
  }
}
