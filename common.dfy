/** Small helpers shared by the backend and the client model: optional
    values, results, the whitespace trimming of `string.Trim()` (C#) and
    `String.prototype.trim()` (TypeScript), the UTF-16 length both report,
    and decimal digit strings as produced by the filter drop-downs. */
module Common {

  datatype Option<+T> = None | Some(value: T)

  datatype Result<+T, +E> = Ok(value: T) | Err(error: E)

  /** The runtime that trims or validates a string: the browser
      (`String.prototype.trim`) or .NET (`string.Trim()`, and
      `[Required]` through `string.IsNullOrWhiteSpace`). */
  datatype Runtime = Js | DotNet

  /** The characters `rt` counts as whitespace. Both count the ASCII
      controls TAB..CR, SPACE, the Unicode space separators and the line and
      paragraph separators; only .NET counts U+0085 (NEXT LINE), and only
      JavaScript counts U+FEFF (ZERO WIDTH NO-BREAK SPACE). */
  predicate IsWhiteSpace(rt: Runtime, c: char)
  {
    || ('\t' <= c <= '\r')
    || c == ' '
    || c == '\U{00A0}'
    || c == '\U{1680}'
    || ('\U{2000}' <= c <= '\U{200A}')
    || c == '\U{2028}'
    || c == '\U{2029}'
    || c == '\U{202F}'
    || c == '\U{205F}'
    || c == '\U{3000}'
    || (rt == DotNet && c == '\U{0085}')
    || (rt == Js && c == '\U{FEFF}')
  }

  /** A string made of `rt`'s whitespace only (the empty string included). */
  predicate IsBlank(rt: Runtime, s: string)
  {
    forall i :: 0 <= i < |s| ==> IsWhiteSpace(rt, s[i])
  }

  /** The number of whitespace characters `s` starts with. */
  function LeadingBlanks(rt: Runtime, s: string): (n: nat)
    ensures n <= |s|
    ensures forall i :: 0 <= i < n ==> IsWhiteSpace(rt, s[i])
    ensures n < |s| ==> !IsWhiteSpace(rt, s[n])
  {
    if s == [] || !IsWhiteSpace(rt, s[0]) then 0 else 1 + LeadingBlanks(rt, s[1..])
  }

  /** The number of whitespace characters `s` ends with. */
  function TrailingBlanks(rt: Runtime, s: string): (n: nat)
    ensures n <= |s|
    ensures forall i :: |s| - n <= i < |s| ==> IsWhiteSpace(rt, s[i])
    ensures n < |s| ==> !IsWhiteSpace(rt, s[|s| - n - 1])
  {
    if s == [] || !IsWhiteSpace(rt, s[|s| - 1]) then 0 else 1 + TrailingBlanks(rt, s[..|s| - 1])
  }

  /** Removes `rt`'s whitespace from both ends (the lemmas below state what
      that means). */
  function Trim(rt: Runtime, s: string): (r: string)
    ensures |r| <= |s|
  {
    var lo := LeadingBlanks(rt, s);
    if lo == |s| then [] else s[lo..|s| - TrailingBlanks(rt, s)]
  }

  /** The trimmed string is the infix of `s` between a blank prefix and a
      blank suffix. */
  lemma TrimIsInfix(rt: Runtime, s: string)
    ensures var r := Trim(rt, s);
      exists k :: 0 <= k <= |s| - |r| && r == s[k..k + |r|] && IsBlank(rt, s[..k]) && IsBlank(rt, s[k + |r|..])
  {
    var lo := LeadingBlanks(rt, s);
    if lo == |s| {
      assert IsBlank(rt, s[..lo]) && IsBlank(rt, s[lo..]);
    } else {
      var hi := |s| - TrailingBlanks(rt, s);
      assert lo < hi by {
        assert !IsWhiteSpace(rt, s[lo]);
      }
      assert IsBlank(rt, s[..lo]) && IsBlank(rt, s[hi..]);
      assert Trim(rt, s) == s[lo..lo + (hi - lo)];
    }
  }

  /** Trimming leaves nothing exactly when the string is blank. */
  lemma TrimEmptyIffBlank(rt: Runtime, s: string)
    ensures Trim(rt, s) == [] <==> IsBlank(rt, s)
  {
    var lo := LeadingBlanks(rt, s);
    if lo < |s| {
      assert !IsWhiteSpace(rt, s[lo]);
      assert lo < |s| - TrailingBlanks(rt, s);
    }
  }

  /** A non-empty trimmed string starts and ends with a non-whitespace
      character: no longer infix between blanks exists. */
  lemma TrimEndsNonBlank(rt: Runtime, s: string)
    ensures var r := Trim(rt, s); r != [] ==> !IsWhiteSpace(rt, r[0]) && !IsWhiteSpace(rt, r[|r| - 1])
  {
    var lo := LeadingBlanks(rt, s);
    if lo < |s| {
      var hi := |s| - TrailingBlanks(rt, s);
      assert lo < hi by {
        assert !IsWhiteSpace(rt, s[lo]);
      }
      var r := s[lo..hi];
      assert r[0] == s[lo] && r[|r| - 1] == s[hi - 1];
    }
  }

  /** Trimming twice is trimming once, in either runtime. */
  lemma TrimIdempotent(rt: Runtime, s: string)
    ensures Trim(rt, Trim(rt, s)) == Trim(rt, s)
  {
    var r := Trim(rt, s);
    TrimEndsNonBlank(rt, s);
    if r != [] {
      assert LeadingBlanks(rt, r) == 0 && TrailingBlanks(rt, r) == 0;
      assert r[0..|r|] == r;
    }
  }

  /** A string that neither starts nor ends with whitespace trims to
      itself. */
  lemma TrimKeeps(rt: Runtime, s: string)
    requires s != [] && !IsWhiteSpace(rt, s[0]) && !IsWhiteSpace(rt, s[|s| - 1])
    ensures Trim(rt, s) == s
  {
    assert LeadingBlanks(rt, s) == 0 && TrailingBlanks(rt, s) == 0;
    assert s[0..|s|] == s;
  }

  /** A text the browser has trimmed reaches .NET unchanged by its trim and
      non-blank for `[Required]`, provided it contains no NEXT LINE
      (U+0085), the one character .NET strips and JavaScript keeps. The
      `NextLine…` lemmas of the conformance module show inputs with that
      character for which both conclusions fail. */
  lemma BrowserTrimmedSurvivesServer(s: string)
    requires '\U{0085}' !in s
    ensures var r := Trim(Js, s);
      && Trim(DotNet, r) == r
      && (IsBlank(DotNet, r) <==> r == [])
  {
    var lo := LeadingBlanks(Js, s);
    if lo < |s| {
      var hi := |s| - TrailingBlanks(Js, s);
      assert lo < hi by {
        assert !IsWhiteSpace(Js, s[lo]);
      }
      var r := s[lo..hi];
      assert r[0] == s[lo] && r[|r| - 1] == s[hi - 1];
      assert !IsWhiteSpace(DotNet, r[0]) && !IsWhiteSpace(DotNet, r[|r| - 1]);
      TrimKeeps(DotNet, r);
    }
  }

  /** The number of UTF-16 code units `c` takes: two for a character
      outside the Basic Multilingual Plane (a surrogate pair), one
      otherwise. */
  function CodeUnits(c: char): nat
  {
    if c as int > 0xFFFF then 2 else 1
  }

  /** The length both runtimes report (`.length` in TypeScript,
      `string.Length` and `[MaxLength]` in C#): the number of UTF-16 code
      units, which is the number of characters only when none lies outside
      the Basic Multilingual Plane. */
  function Utf16Length(s: string): (n: nat)
    ensures |s| <= n <= 2 * |s|
    ensures (forall i :: 0 <= i < |s| ==> s[i] as int <= 0xFFFF) ==> n == |s|
    ensures (forall i :: 0 <= i < |s| ==> s[i] as int > 0xFFFF) ==> n == 2 * |s|
  {
    if s == [] then 0
    else
      assert forall i :: 0 < i < |s| ==> s[1..][i - 1] == s[i];
      CodeUnits(s[0]) + Utf16Length(s[1..])
  }

  lemma {:induction false} Utf16LengthAppend(a: string, b: string)
    ensures Utf16Length(a + b) == Utf16Length(a) + Utf16Length(b)
  {
    if a != [] {
      assert (a + b)[0] == a[0] && (a + b)[1..] == a[1..] + b;
      Utf16LengthAppend(a[1..], b);
    } else {
      assert a + b == b;
    }
  }

  /** Trimming never lengthens a string, counted in code units either. */
  lemma TrimUtf16Length(rt: Runtime, s: string)
    ensures Utf16Length(Trim(rt, s)) <= Utf16Length(s)
  {
    var lo := LeadingBlanks(rt, s);
    if lo < |s| {
      var hi := |s| - TrailingBlanks(rt, s);
      assert lo < hi by {
        assert !IsWhiteSpace(rt, s[lo]);
      }
      assert s == s[..lo] + s[lo..hi] + s[hi..];
      Utf16LengthAppend(s[..lo], s[lo..hi]);
      Utf16LengthAppend(s[..lo] + s[lo..hi], s[hi..]);
    }
  }

  predicate IsDigit(c: char)
  {
    '0' <= c <= '9'
  }

  /** A non-empty string of decimal digits. */
  predicate IsDigits(s: string)
  {
    s != [] && forall i :: 0 <= i < |s| ==> IsDigit(s[i])
  }

  /** The value `Number(s)` gives for a string of decimal digits. */
  function DecimalValue(s: string): (n: nat)
    requires forall i :: 0 <= i < |s| ==> IsDigit(s[i])
    ensures |s| == 1 ==> n == s[0] as int - '0' as int
  {
    if s == [] then 0
    else
      var last := s[|s| - 1];
      assert IsDigit(last);
      DecimalValue(s[..|s| - 1]) * 10 + (last as int - '0' as int)
  }
}
