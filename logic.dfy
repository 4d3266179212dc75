/** `parse_logic` of tools/convert_csv_to_json.py (lines 52-63): the
    achievement tokens of a `Required Achievement Id` expression, each marked
    negated when a `!` sits right before it. The operators `&&`, `||` and
    the parentheses are not interpreted; they only separate tokens. */
module Logic {
  import opened Wrappers
  import opened Text

  /** A character of the class `[A-Za-z0-9_\\-]`: ASCII letters and digits,
      `_`, the backslash and `-`. */
  predicate IsTokChar(c: char) {
    'a' <= c <= 'z' || 'A' <= c <= 'Z' || '0' <= c <= '9' || c == '_' || c == '\\' || c == '-'
  }

  predicate AllTok(s: string) {
    forall i :: 0 <= i < |s| ==> IsTokChar(s[i])
  }

  /** One `(tok, is_neg)` pair. */
  datatype Token = Token(text: string, negated: bool)

  /** What a match of `!?[A-Za-z0-9_\\-]+` can yield. */
  predicate WellFormed(t: Token) {
    t.text != [] && AllTok(t.text)
  }

  /** The length of the run of token characters `s` starts with. */
  function RunLen(s: string): (n: nat)
    ensures n <= |s|
    ensures AllTok(s[..n])
    ensures n < |s| ==> !IsTokChar(s[n])
    decreases |s|
  {
    if s == [] || !IsTokChar(s[0]) then 0
    else
      var m := RunLen(s[1..]);
      assert s[..m + 1] == [s[0]] + s[1..][..m];
      m + 1
  }

  /** `re.findall`, left to right: a `!` followed by a token character starts
      a negated token, a token character starts a plain one, and anything
      else is passed over. Each match is as long as it can be. */
  function Scan(s: string): (r: seq<Token>)
    ensures forall i :: 0 <= i < |r| ==> WellFormed(r[i])
    decreases |s|
  {
    if s == [] then []
    else if s[0] == '!' && |s| > 1 && IsTokChar(s[1]) then
      var n := RunLen(s[1..]);
      [Token(s[1..][..n], true)] + Scan(s[1..][n..])
    else if IsTokChar(s[0]) then
      var n := RunLen(s);
      [Token(s[..n], false)] + Scan(s[n..])
    else Scan(s[1..])
  }

  /** `parse_logic(expr)`: nothing for a missing or blank expression. */
  function ParseLogic(expr: Option<string>): seq<Token> {
    if expr.None? || Trim(expr.value) == "" then [] else Scan(expr.value)
  }

  /** A string without token characters yields no token. */
  lemma {:induction false} ScanNoTokens(s: string)
    requires forall i :: 0 <= i < |s| ==> !IsTokChar(s[i])
    ensures Scan(s) == []
    decreases |s|
  {
    if s != [] {
      ScanNoTokens(s[1..]);
    }
  }

  /** The blank-expression guard changes nothing: white space alone yields
      no token anyway. */
  lemma ParseLogicIsScan(s: string)
    ensures ParseLogic(Some(s)) == Scan(s)
  {
    if Trim(s) == "" {
      TrimIsInfix(s);
      assert forall i :: 0 <= i < |s| ==> IsSpace(s[i]);
      ScanNoTokens(s);
    }
  }

  /** The text of a token as an expression would spell it. */
  function Render(t: Token): string {
    (if t.negated then "!" else "") + t.text
  }

  /** Tokens written one after another, each followed by a space. */
  function RenderAll(ts: seq<Token>): string {
    if ts == [] then "" else Render(ts[0]) + " " + RenderAll(ts[1..])
  }

  /** A run of token characters stops at the first other character. */
  lemma {:induction false} RunLenStops(a: string, b: string)
    requires AllTok(a) && b != [] && !IsTokChar(b[0])
    ensures RunLen(a + b) == |a|
    decreases |a|
  {
    var ab := a + b;
    if a == [] {
      assert ab == b;
    } else {
      assert ab[0] == a[0] && IsTokChar(a[0]);
      assert ab[1..] == a[1..] + b;
      assert AllTok(a[1..]) by {
        forall i | 0 <= i < |a| - 1
          ensures IsTokChar(a[1..][i])
        {
          assert a[1..][i] == a[i + 1];
        }
      }
      RunLenStops(a[1..], b);
    }
  }

  lemma ScanSpace(rest: string)
    ensures Scan(" " + rest) == Scan(rest)
  {
    assert (" " + rest)[1..] == rest;
  }

  /** A run of token characters followed by a space is read back as a
      plain token. */
  lemma ScanPlain(text: string, rest: string)
    requires text != [] && AllTok(text)
    ensures Scan(text + " " + rest) == [Token(text, false)] + Scan(rest)
  {
    var tail := " " + rest;
    var s := text + tail;
    assert text + " " + rest == s;
    RunLenStops(text, tail);
    assert s[0] == text[0];
    assert s[..|text|] == text;
    assert s[|text|..] == tail;
    ScanSpace(rest);
  }

  /** The same run after a `!` is read back as a negated token. */
  lemma ScanNegated(text: string, rest: string)
    requires text != [] && AllTok(text)
    ensures Scan("!" + text + " " + rest) == [Token(text, true)] + Scan(rest)
  {
    var tail := " " + rest;
    var s := "!" + (text + tail);
    assert "!" + text + " " + rest == s;
    RunLenStops(text, tail);
    assert s[0] == '!' && s[1..] == text + tail;
    assert s[1] == text[0];
    assert (text + tail)[..|text|] == text;
    assert (text + tail)[|text|..] == tail;
    ScanSpace(rest);
  }

  /** One token followed by a space is read back as that token. */
  lemma ScanOne(t: Token, rest: string)
    requires WellFormed(t)
    ensures Scan(Render(t) + " " + rest) == [t] + Scan(rest)
  {
    if t.negated {
      assert Render(t) == "!" + t.text;
      ScanNegated(t.text, rest);
    } else {
      assert Render(t) == t.text;
      ScanPlain(t.text, rest);
    }
  }

  /** Reading back well-formed tokens written out gives those tokens:
      `Scan` loses nothing and invents nothing. */
  lemma {:induction false} ScanRender(ts: seq<Token>)
    requires forall i :: 0 <= i < |ts| ==> WellFormed(ts[i])
    ensures Scan(RenderAll(ts)) == ts
    decreases |ts|
  {
    if ts != [] {
      ScanRender(ts[1..]);
      ScanOne(ts[0], RenderAll(ts[1..]));
      assert RenderAll(ts) == Render(ts[0]) + " " + RenderAll(ts[1..]);
      assert ts == [ts[0]] + ts[1..];
    }
  }

  lemma {:induction false} RunLenEnd(a: string)
    requires AllTok(a)
    ensures RunLen(a) == |a|
    decreases |a|
  {
    if a != [] {
      assert AllTok(a[1..]) by {
        forall i | 0 <= i < |a| - 1
          ensures IsTokChar(a[1..][i])
        {
          assert a[1..][i] == a[i + 1];
        }
      }
      RunLenEnd(a[1..]);
    }
  }

  lemma ScanTail(s: string)
    requires s != [] && s[0] != '!' && !IsTokChar(s[0])
    ensures Scan(s) == Scan(s[1..])
  {
  }

  /** The operators only separate tokens. */
  lemma OperatorsSeparate()
    ensures Scan("!A&&B") == [Token("A", true), Token("B", false)]
  {
    var s := "!A&&B";
    assert s[1..] == "A&&B";
    RunLenStops("A", "&&B");
    assert "A" + "&&B" == s[1..];
    assert s[1..][..1] == "A" && s[1..][1..] == "&&B";
    ScanTail("&&B");
    assert "&&B"[1..] == "&B";
    ScanTail("&B");
    assert "&B"[1..] == "B";
    RunLenEnd("B");
    assert "B"[..1] == "B" && "B"[1..] == [];
  }

  /** A `!` counts only right before a token. */
  lemma BangBeforeSpace()
    ensures Scan("! C") == [Token("C", false)]
  {
    var u := "! C";
    assert u[1] == ' ';
    ScanTail(u[1..]);
    assert u[1..][1..] == "C";
    RunLenEnd("C");
    assert "C"[..1] == "C" && "C"[1..] == [];
  }
}
