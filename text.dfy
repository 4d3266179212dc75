/** String helpers shared by the model: the parts of JavaScript's and
    Python's string libraries that the core relies on, restricted to ASCII
    (lower-casing and white space). */
module Text {

  /** The six ASCII white-space characters that JavaScript's `\s` and `trim()`
      accept; Python's `strip()` also strips `\x1c`-`\x1f`, which this omits. */
  predicate IsSpace(c: char) {
    c == ' ' || c == '\t' || c == '\n' || c == '\r' || c == '\U{0B}' || c == '\U{0C}'
  }

  predicate IsUpper(c: char) { 'A' <= c <= 'Z' }

  predicate IsDigit(c: char) { '0' <= c <= '9' }

  function LowerChar(c: char): (r: char)
    ensures !IsUpper(r)
    ensures IsUpper(c) ==> r as int == c as int + 32
    ensures !IsUpper(c) ==> r == c
  {
    if IsUpper(c) then (c as int + 32) as char else c
  }

  /** `toLowerCase()` / `lower()` on ASCII. */
  function Lower(s: string): (r: string)
    ensures |r| == |s|
    ensures forall i :: 0 <= i < |s| ==> r[i] == LowerChar(s[i])
  {
    seq(|s|, i requires 0 <= i < |s| => LowerChar(s[i]))
  }

  lemma LowerIdempotent(s: string)
    ensures Lower(Lower(s)) == Lower(s)
  {
  }

  lemma LowerConcat(a: string, b: string)
    ensures Lower(a + b) == Lower(a) + Lower(b)
  {
  }

  /** `s.startsWith(p)`. */
  predicate StartsWith(s: string, p: string) { p <= s }

  /** `s.endsWith(p)`. */
  predicate EndsWith(s: string, p: string) {
    |p| <= |s| && s[|s| - |p|..] == p
  }

  /** `s.includes(t)` / `t in s`: t occurs somewhere in s. */
  predicate Contains(s: string, t: string)
    decreases |s|
  {
    t <= s || (s != [] && Contains(s[1..], t))
  }

  /** An occurrence at index i makes Contains true. */
  lemma {:induction false} ContainsAt(s: string, t: string, i: nat)
    requires i + |t| <= |s| && s[i..i + |t|] == t
    ensures Contains(s, t)
    decreases i
  {
    if i == 0 {
      assert t <= s;
    } else {
      assert s[1..][i - 1..i - 1 + |t|] == s[i..i + |t|];
      ContainsAt(s[1..], t, i - 1);
    }
  }

  /** Contains only holds when there is an occurrence. */
  lemma {:induction false} ContainsWitness(s: string, t: string) returns (i: nat)
    requires Contains(s, t)
    ensures i + |t| <= |s| && s[i..i + |t|] == t
    decreases |s|
  {
    if t <= s {
      i := 0;
    } else {
      var k := ContainsWitness(s[1..], t);
      assert s[1..][k..k + |t|] == s[k + 1..k + 1 + |t|];
      i := k + 1;
    }
  }

  lemma ContainsSelf(s: string)
    ensures Contains(s, s)
  {
  }

  /** Leading white space removed (`trimStart`). */
  function TrimStart(s: string): (r: string)
    ensures |r| <= |s| && r == s[|s| - |r|..]
    ensures forall i :: 0 <= i < |s| - |r| ==> IsSpace(s[i])
    ensures r != [] ==> !IsSpace(r[0])
    decreases |s|
  {
    if s != [] && IsSpace(s[0]) then TrimStart(s[1..]) else s
  }

  /** Trailing white space removed (`trimEnd`). */
  function TrimEnd(s: string): (r: string)
    ensures |r| <= |s| && r == s[..|r|]
    ensures forall i :: |r| <= i < |s| ==> IsSpace(s[i])
    ensures r != [] ==> !IsSpace(r[|r| - 1])
    decreases |s|
  {
    if s != [] && IsSpace(s[|s| - 1]) then TrimEnd(s[..|s| - 1]) else s
  }

  /** `trim()` / `strip()`: the longest infix without white space at either end. */
  function Trim(s: string): (r: string)
    ensures |r| <= |s|
    ensures r != [] ==> !IsSpace(r[0]) && !IsSpace(r[|r| - 1])
  {
    TrimEnd(TrimStart(s))
  }

  /** What `Trim` cuts off on either side is white space only. */
  lemma TrimIsInfix(s: string)
    ensures var r := Trim(s);
      var k := |s| - |TrimStart(s)|;
      && k + |r| <= |s| && r == s[k..k + |r|]
      && (forall i :: 0 <= i < k ==> IsSpace(s[i]))
      && (forall i :: k + |r| <= i < |s| ==> IsSpace(s[i]))
  {
    var a := TrimStart(s);
    var r := TrimEnd(a);
    var k := |s| - |a|;
    assert a == s[k..];
    assert r == a[..|r|];
    assert r == s[k..k + |r|];
    forall i | k + |r| <= i < |s|
      ensures IsSpace(s[i])
    {
      assert s[i] == a[i - k];
    }
  }

  lemma TrimNoSpace(s: string)
    requires forall i :: 0 <= i < |s| ==> !IsSpace(s[i])
    ensures Trim(s) == s
  {
    assert s != [] ==> !IsSpace(s[0]);
  }

  lemma TrimStartNoLeadingSpace(s: string)
    requires s != [] ==> !IsSpace(s[0])
    ensures TrimStart(s) == s
  {
  }

  lemma TrimEndNoTrailingSpace(s: string)
    requires s != [] ==> !IsSpace(s[|s| - 1])
    ensures TrimEnd(s) == s
  {
  }

  /** Trimming twice is trimming once. */
  lemma TrimIdempotent(s: string)
    ensures Trim(Trim(s)) == Trim(s)
  {
    var r := Trim(s);
    TrimStartNoLeadingSpace(r);
    TrimEndNoTrailingSpace(r);
  }

  /** Lower-casing keeps white space where it is, so it commutes with
      trimming. */
  lemma {:induction false} TrimStartLower(s: string)
    ensures TrimStart(Lower(s)) == Lower(TrimStart(s))
    decreases |s|
  {
    var l := Lower(s);
    if s != [] {
      assert l[0] == LowerChar(s[0]);
      assert IsSpace(l[0]) == IsSpace(s[0]);
    }
    if s != [] && IsSpace(s[0]) {
      assert l[1..] == Lower(s[1..]);
      TrimStartLower(s[1..]);
      assert TrimStart(l) == TrimStart(l[1..]);
    }
  }

  lemma {:induction false} TrimEndLower(s: string)
    ensures TrimEnd(Lower(s)) == Lower(TrimEnd(s))
    decreases |s|
  {
    if s != [] && IsSpace(s[|s| - 1]) {
      assert Lower(s)[..|s| - 1] == Lower(s[..|s| - 1]);
      TrimEndLower(s[..|s| - 1]);
    }
  }

  lemma TrimLower(s: string)
    ensures Trim(Lower(s)) == Lower(Trim(s))
  {
    TrimStartLower(s);
    TrimEndLower(TrimStart(s));
  }

  /** `s.replace(/\s+/g, rep)`: every maximal run of white space becomes `rep`. */
  function ReplaceSpaceRuns(s: string, rep: string): (r: string)
    decreases |s|
  {
    if s == [] then []
    else if IsSpace(s[0]) then
      var rest := TrimStart(s);
      assert |rest| < |s|;
      rep + ReplaceSpaceRuns(rest, rep)
    else [s[0]] + ReplaceSpaceRuns(s[1..], rep)
  }

  /** The characters of s that are not white space, in order. */
  function NonSpace(s: string): string
    decreases |s|
  {
    if s == [] then [] else (if IsSpace(s[0]) then [] else [s[0]]) + NonSpace(s[1..])
  }

  lemma {:induction false} NonSpaceConcat(a: string, b: string)
    ensures NonSpace(a + b) == NonSpace(a) + NonSpace(b)
    decreases |a|
  {
    if a != [] {
      assert (a + b)[1..] == a[1..] + b;
      NonSpaceConcat(a[1..], b);
      var h: string := if IsSpace(a[0]) then [] else [a[0]];
      calc {
        NonSpace(a + b);
        h + NonSpace(a[1..] + b);
        h + (NonSpace(a[1..]) + NonSpace(b));
        (h + NonSpace(a[1..])) + NonSpace(b);
      }
    } else {
      assert a + b == b;
    }
  }

  lemma {:induction false} NonSpaceAllSpace(s: string)
    requires forall i :: 0 <= i < |s| ==> IsSpace(s[i])
    ensures NonSpace(s) == []
    decreases |s|
  {
    if s != [] {
      NonSpaceAllSpace(s[1..]);
    }
  }

  lemma NonSpaceTrimStart(s: string)
    ensures NonSpace(TrimStart(s)) == NonSpace(s)
  {
    var r := TrimStart(s);
    var k := |s| - |r|;
    var pre := s[..k];
    assert r == s[k..];
    assert s == pre + r;
    assert forall i :: 0 <= i < |pre| ==> IsSpace(pre[i]);
    NonSpaceConcat(pre, r);
    NonSpaceAllSpace(pre);
  }

  lemma NonSpaceTrimEnd(s: string)
    ensures NonSpace(TrimEnd(s)) == NonSpace(s)
  {
    var r := TrimEnd(s);
    assert s == r + s[|r|..];
    NonSpaceConcat(r, s[|r|..]);
    NonSpaceAllSpace(s[|r|..]);
  }

  lemma NonSpaceTrim(s: string)
    ensures NonSpace(Trim(s)) == NonSpace(s)
  {
    NonSpaceTrimStart(s);
    NonSpaceTrimEnd(TrimStart(s));
  }

  /** Replacing white-space runs by a white-space-free separator keeps every
      other character, in order, and leaves no white space behind. */
  lemma {:induction false} ReplaceSpaceRunsKeeps(s: string, rep: string)
    requires forall i :: 0 <= i < |rep| ==> !IsSpace(rep[i])
    ensures forall i :: 0 <= i < |ReplaceSpaceRuns(s, rep)| ==> !IsSpace(ReplaceSpaceRuns(s, rep)[i])
    decreases |s|
  {
    if s == [] {
    } else if IsSpace(s[0]) {
      var rest := TrimStart(s);
      ReplaceSpaceRunsKeeps(rest, rep);
    } else {
      ReplaceSpaceRunsKeeps(s[1..], rep);
    }
  }

  /** A suffix cut at two more points. */
  lemma SliceThree<T>(s: seq<T>, a: nat, b: nat, c: nat)
    requires a <= b <= c <= |s|
    ensures s[a..] == s[a..b] + s[b..c] + s[c..]
  {
  }

  /** Every character `ReplaceSpaceRuns` yields comes from the text or from
      the replacement. */
  lemma {:induction false} ReplaceSpaceRunsChars(s: string, rep: string)
    ensures forall i :: 0 <= i < |ReplaceSpaceRuns(s, rep)| ==>
      ReplaceSpaceRuns(s, rep)[i] in s || ReplaceSpaceRuns(s, rep)[i] in rep
    decreases |s|
  {
    if s == [] {
    } else if IsSpace(s[0]) {
      var rest := TrimStart(s);
      ReplaceSpaceRunsChars(rest, rep);
      var r := ReplaceSpaceRuns(s, rep);
      assert r == rep + ReplaceSpaceRuns(rest, rep);
      forall i | 0 <= i < |r|
        ensures r[i] in s || r[i] in rep
      {
        if i >= |rep| {
          var c := ReplaceSpaceRuns(rest, rep)[i - |rep|];
          assert r[i] == c;
          if c in rest {
            var j :| 0 <= j < |rest| && rest[j] == c;
            assert s[|s| - |rest| + j] == c;
          }
        }
      }
    } else {
      ReplaceSpaceRunsChars(s[1..], rep);
      var r := ReplaceSpaceRuns(s, rep);
      assert r == [s[0]] + ReplaceSpaceRuns(s[1..], rep);
      forall i | 0 <= i < |r|
        ensures r[i] in s || r[i] in rep
      {
        if i > 0 {
          var c := ReplaceSpaceRuns(s[1..], rep)[i - 1];
          assert r[i] == c;
          if c in s[1..] {
            var j :| 0 <= j < |s| - 1 && s[1..][j] == c;
            assert s[j + 1] == c;
          }
        }
      }
    }
  }

  /** Only the empty text is replaced by the empty text. */
  lemma ReplaceSpaceRunsEmpty(s: string, rep: string)
    requires rep != []
    ensures ReplaceSpaceRuns(s, rep) == [] <==> s == []
  {
  }

  /** Single spacing: every white-space character is a plain space, and no
      two of them stand side by side. */
  predicate SingleSpaced(s: string) {
    && (forall i :: 0 <= i < |s| && IsSpace(s[i]) ==> s[i] == ' ')
    && (forall i, j :: 0 <= i < |s| && j == i + 1 && j < |s| ==> !IsSpace(s[i]) || !IsSpace(s[j]))
  }

  lemma SingleSpacedCons(h: string, x: string)
    requires SingleSpaced(x) && (h == " " || (|h| == 1 && !IsSpace(h[0])))
    requires h == " " && x != [] ==> !IsSpace(x[0])
    ensures SingleSpaced(h + x)
  {
    var y := h + x;
    forall i | 0 <= i < |y| && IsSpace(y[i])
      ensures y[i] == ' '
    {
      if i > 0 {
        assert y[i] == x[i - 1];
      }
    }
    forall i, j | 0 <= i < |y| && j == i + 1 && j < |y|
      ensures !IsSpace(y[i]) || !IsSpace(y[j])
    {
      assert y[j] == x[j - 1];
      if i > 0 {
        assert y[i] == x[i - 1];
      }
    }
  }

  /** Replacing each white-space run by one space leaves the text single-spaced,
      and what follows a run is never white space. */
  lemma {:induction false} ReplaceSpaceRunsSingle(s: string)
    ensures SingleSpaced(ReplaceSpaceRuns(s, " "))
    ensures s != [] && !IsSpace(s[0]) ==> ReplaceSpaceRuns(s, " ")[0] == s[0]
    decreases |s|
  {
    if s == [] {
    } else if IsSpace(s[0]) {
      var rest := TrimStart(s);
      ReplaceSpaceRunsSingle(rest);
      SingleSpacedCons(" ", ReplaceSpaceRuns(rest, " "));
    } else {
      ReplaceSpaceRunsSingle(s[1..]);
      SingleSpacedCons([s[0]], ReplaceSpaceRuns(s[1..], " "));
    }
  }

  /** An infix of a single-spaced text is single-spaced. */
  lemma SingleSpacedInfix(s: string, k: nat, n: nat)
    requires k + n <= |s| && SingleSpaced(s)
    ensures SingleSpaced(s[k..k + n])
  {
    var t := s[k..k + n];
    forall i | 0 <= i < |t| && IsSpace(t[i])
      ensures t[i] == ' '
    {
      assert t[i] == s[k + i];
    }
    forall i, j | 0 <= i < |t| && j == i + 1 && j < |t|
      ensures !IsSpace(t[i]) || !IsSpace(t[j])
    {
      assert t[i] == s[k + i] && t[j] == s[k + j];
    }
  }

  lemma SingleSpacedTrim(s: string)
    requires SingleSpaced(s)
    ensures SingleSpaced(Trim(s))
  {
    var k := |s| - |TrimStart(s)|;
    TrimSlice(s);
    SingleSpacedInfix(s, k, |Trim(s)|);
  }

  lemma TrimSlice(s: string)
    ensures var k := |s| - |TrimStart(s)|;
      k + |Trim(s)| <= |s| && Trim(s) == s[k..k + |Trim(s)|]
  {
    var a := TrimStart(s);
    var k := |s| - |a|;
    var r := TrimEnd(a);
    assert a == s[k..];
    assert r == a[..|r|];
  }

  /** A lone white-space character becomes the replacement. */
  lemma ReplaceSpaceRunsLone(s: string, rep: string)
    requires s != [] && IsSpace(s[0]) && (|s| > 1 ==> !IsSpace(s[1]))
    ensures ReplaceSpaceRuns(s, rep) == rep + ReplaceSpaceRuns(s[1..], rep)
  {
    TrimStartNoLeadingSpace(s[1..]);
  }

  /** A single-spaced text has no run to collapse. */
  lemma {:induction false} ReplaceSpaceRunsFixed(s: string)
    requires SingleSpaced(s)
    ensures ReplaceSpaceRuns(s, " ") == s
    decreases |s|
  {
    if s != [] {
      var t := s[1..];
      SingleSpacedInfix(s, 1, |s| - 1);
      assert s[1..|s|] == t;
      ReplaceSpaceRunsFixed(t);
      FixedStep(s);
    }
  }

  lemma FixedStep(s: string)
    requires s != [] && SingleSpaced(s) && ReplaceSpaceRuns(s[1..], " ") == s[1..]
    ensures ReplaceSpaceRuns(s, " ") == s
  {
    var t := s[1..];
    if IsSpace(s[0]) {
      assert |s| > 1 ==> !IsSpace(s[1]);
      ReplaceSpaceRunsLone(s, " ");
      assert s == [s[0]] + t;
    } else {
      assert s == [s[0]] + t;
    }
  }

  /** Collapsing white-space runs drops white space only. */
  lemma {:induction false} NonSpaceReplaceSpaceRuns(s: string)
    ensures NonSpace(ReplaceSpaceRuns(s, " ")) == NonSpace(s)
    decreases |s|
  {
    if s == [] {
    } else if IsSpace(s[0]) {
      var rest := TrimStart(s);
      NonSpaceReplaceSpaceRuns(rest);
      NonSpaceConcat(" ", ReplaceSpaceRuns(rest, " "));
      assert NonSpace(" ") == [] + NonSpace([]);
      NonSpaceTrimStart(s);
    } else {
      NonSpaceReplaceSpaceRuns(s[1..]);
      NonSpaceConcat([s[0]], ReplaceSpaceRuns(s[1..], " "));
      assert NonSpace([s[0]]) == [s[0]] + NonSpace([]);
    }
  }

  function DigitChar(d: nat): (c: char)
    requires d < 10
    ensures IsDigit(c) && c as int - '0' as int == d
  {
    ('0' as int + d) as char
  }

  /** The decimal spelling of a natural number (`String(n)`, `str(n)`). */
  function NatToString(n: nat): (s: string)
    ensures s != []
    ensures forall i :: 0 <= i < |s| ==> IsDigit(s[i])
    decreases n
  {
    if n < 10 then [DigitChar(n)] else NatToString(n / 10) + [DigitChar(n % 10)]
  }

  predicate AllDigits(s: string) {
    forall i :: 0 <= i < |s| ==> IsDigit(s[i])
  }

  /** The number a string of decimal digits spells (`Number(s)`). */
  function ParseNat(s: string): nat
    requires AllDigits(s)
    decreases |s|
  {
    if s == [] then 0 else 10 * ParseNat(s[..|s| - 1]) + (s[|s| - 1] as int - '0' as int)
  }

  /** Reading back the decimal spelling of n gives n. */
  lemma {:induction false} ParseNatToString(n: nat)
    ensures ParseNat(NatToString(n)) == n
    decreases n
  {
    if n >= 10 {
      ParseNatToString(n / 10);
      var s := NatToString(n);
      assert s[..|s| - 1] == NatToString(n / 10);
    }
  }

  lemma NatToStringInjective(a: nat, b: nat)
    ensures NatToString(a) == NatToString(b) ==> a == b
  {
    ParseNatToString(a);
    ParseNatToString(b);
  }

  /** `String(n)` for an integer: a minus sign before the digits of a negative number. */
  function IntToString(n: int): (s: string)
    ensures s != []
  {
    if n < 0 then "-" + NatToString(-n) else NatToString(n)
  }

  lemma IntToStringInjective(a: int, b: int)
    ensures IntToString(a) == IntToString(b) ==> a == b
  {
    if a < 0 && b < 0 {
      assert NatToString(-a) == IntToString(a)[1..];
      assert NatToString(-b) == IntToString(b)[1..];
      NatToStringInjective(-a, -b);
    } else if a >= 0 && b >= 0 {
      NatToStringInjective(a, b);
    } else if a < 0 {
      assert IntToString(a)[0] == '-' && IsDigit(IntToString(b)[0]);
    } else {
      assert IntToString(b)[0] == '-' && IsDigit(IntToString(a)[0]);
    }
  }

  /** A common prefix can be cancelled. */
  lemma PrefixCancel(p: string, a: string, b: string)
    ensures p + a == p + b ==> a == b
  {
    if p + a == p + b {
      assert a == (p + a)[|p|..];
      assert b == (p + b)[|p|..];
    }
  }

  /** JavaScript's `.length`: the number of UTF-16 code units, where a
      character beyond U+FFFF takes two. */
  function Utf16Len(s: string): (n: nat)
    ensures |s| <= n <= 2 * |s|
    decreases |s|
  {
    if s == [] then 0
    else Utf16Len(s[..|s| - 1]) + (if s[|s| - 1] as int >= 0x1_0000 then 2 else 1)
  }

  /** Below U+10000 every character is one code unit. */
  lemma {:induction false} Utf16LenBmp(s: string)
    requires forall i :: 0 <= i < |s| ==> s[i] as int < 0x1_0000
    ensures Utf16Len(s) == |s|
    decreases |s|
  {
    if s != [] {
      Utf16LenBmp(s[..|s| - 1]);
    }
  }

  /** Beyond U+FFFF every character is two code units. */
  lemma {:induction false} Utf16LenAstral(s: string)
    requires forall i :: 0 <= i < |s| ==> s[i] as int >= 0x1_0000
    ensures Utf16Len(s) == 2 * |s|
    decreases |s|
  {
    if s != [] {
      Utf16LenAstral(s[..|s| - 1]);
    }
  }

  /** Lexicographic order on characters, that is on Unicode scalar values,
      which agrees with UTF-16 code-unit order below U+10000. It stands in
      for `localeCompare(...) <= 0`, which collates by locale and disagrees
      with it on case and punctuation. */
  predicate StrLe(a: string, b: string)
    decreases |a|
  {
    a == [] || (b != [] && (a[0] < b[0] || (a[0] == b[0] && StrLe(a[1..], b[1..]))))
  }

  lemma {:induction false} StrLeTotal(a: string, b: string)
    ensures StrLe(a, b) || StrLe(b, a)
    decreases |a|
  {
    if a != [] && b != [] && a[0] == b[0] {
      StrLeTotal(a[1..], b[1..]);
    }
  }

  lemma {:induction false} StrLeTransitive(a: string, b: string, c: string)
    requires StrLe(a, b) && StrLe(b, c)
    ensures StrLe(a, c)
    decreases |a|
  {
    if a != [] && b != [] && c != [] && a[0] == b[0] && b[0] == c[0] {
      StrLeTransitive(a[1..], b[1..], c[1..]);
    }
  }

  lemma {:induction false} StrLeAntisymmetric(a: string, b: string)
    requires StrLe(a, b) && StrLe(b, a)
    ensures a == b
    decreases |a|
  {
    if a != [] && b != [] {
      StrLeAntisymmetric(a[1..], b[1..]);
      assert a == [a[0]] + a[1..];
      assert b == [b[0]] + b[1..];
    }
  }

  /** No element occurs twice. */
  predicate NoDup<T(==)>(s: seq<T>) {
    forall i, j :: 0 <= i < j < |s| ==> s[i] != s[j]
  }
}
