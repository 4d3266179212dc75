/** `renderTaskText` of src/components/NodeCard.tsx (lines 91-168): a task
    line is cut into plain text and `{{ITEM::k=v::...}}` / `{{POI::...}}`
    tokens, each token read as a table of keys and values. The JSX each
    segment becomes is not modelled; a segment keeps the values the JSX
    shows. */
module NodeCard {
  import opened Wrappers
  import opened Text

  // ---------------------------------------------------------------------
  // The token grammar: /\{\{(ITEM|POI)(?:::[^}]*)\}\}/

  predicate NoBrace(b: string) {
    forall k :: 0 <= k < |b| ==> b[k] != '}'
  }

  /** `{{`, then `ITEM` or `POI`, then `::`, then characters other than
      `}`, then `}}`. */
  predicate IsToken(t: string) {
    && |t| >= 4 && t[..2] == "{{" && t[|t| - 2..] == "}}"
    && var inner := t[2..|t| - 2];
       || (StartsWith(inner, "ITEM::") && NoBrace(inner[6..]))
       || (StartsWith(inner, "POI::") && NoBrace(inner[5..]))
  }

  /** The first `}` at or after `j`. */
  function FirstBrace(s: string, j: nat): (r: Option<nat>)
    requires j <= |s|
    ensures r.Some? ==> j <= r.value < |s| && s[r.value] == '}' && NoBrace(s[j..r.value])
    ensures r.None? ==> NoBrace(s[j..])
    decreases |s| - j
  {
    if j == |s| then None
    else if s[j] == '}' then Some(j)
    else
      var r := FirstBrace(s, j + 1);
      assert r.Some? ==> s[j..r.value] == [s[j]] + s[j + 1..r.value];
      assert s[j..] == [s[j]] + s[j + 1..];
      r
  }

  /** The length of the opening `{{ITEM::` or `{{POI::` at `i`, 0 when
      there is none. */
  function OpenLen(s: string, i: nat): (n: nat)
    requires i <= |s|
    ensures n == 8 || n == 7 || n == 0
    ensures n > 0 ==> i + n <= |s|
  {
    if StartsWith(s[i..], "{{ITEM::") then 8
    else if StartsWith(s[i..], "{{POI::") then 7
    else 0
  }

  /** Where a match of `TOKEN_RE` that starts at `i` ends: the first `}`
      after the opening must be followed by a second one. */
  function MatchAt(s: string, i: nat): (r: Option<nat>)
    requires i <= |s|
    ensures r.Some? ==> i < r.value <= |s| && IsToken(s[i..r.value])
  {
    var k := OpenLen(s, i);
    if k == 0 then None
    else match FirstBrace(s, i + k)
      case None => None
      case Some(p) =>
        if p + 1 < |s| && s[p + 1] == '}' then
          MatchIsToken(s, i, k, p);
          Some(p + 2)
        else None
  }

  lemma MatchIsToken(s: string, i: nat, k: nat, p: nat)
    requires i <= |s| && k == OpenLen(s, i) && k > 0
    requires i + k <= p && p + 1 < |s| && s[p] == '}' && s[p + 1] == '}' && NoBrace(s[i + k..p])
    ensures IsToken(s[i..p + 2])
  {
    var u := s[i..];
    var kind := if k == 8 then "ITEM::" else "POI::";
    assert k == 8 ==> StartsWith(u, "{{ITEM::");
    assert k == 7 ==> StartsWith(u, "{{POI::");
    assert "{{" + kind == if k == 8 then "{{ITEM::" else "{{POI::";
    PrefixChars(u, "{{" + kind);
    var t := s[i..p + 2];
    assert forall q :: 0 <= q < |t| ==> t[q] == u[q];
    var body, src := t[k..|t| - 2], s[i + k..p];
    assert body == src by {
      forall q | 0 <= q < |body|
        ensures body[q] == src[q]
      {
        assert body[q] == t[k + q];
      }
    }
    TokenShape(t, kind);
  }

  /** The characters of a prefix. */
  lemma PrefixChars(u: string, p: string)
    requires StartsWith(u, p)
    ensures |p| <= |u| && forall q :: 0 <= q < |p| ==> u[q] == p[q]
  {
    assert u[..|p|] == p;
    assert forall q :: 0 <= q < |p| ==> u[q] == u[..|p|][q];
  }

  /** A token read off its characters. */
  lemma TokenShape(t: string, kind: string)
    requires kind == "ITEM::" || kind == "POI::"
    requires |t| >= 4 + |kind| && t[0] == '{' && t[1] == '{' && t[|t| - 2] == '}' && t[|t| - 1] == '}'
    requires forall q :: 0 <= q < |kind| ==> t[q + 2] == kind[q]
    requires NoBrace(t[2 + |kind|..|t| - 2])
    ensures IsToken(t)
  {
    var inner := t[2..|t| - 2];
    assert t[..2] == "{{";
    assert t[|t| - 2..] == "}}";
    assert inner[..|kind|] == kind;
    assert inner[|kind|..] == t[2 + |kind|..|t| - 2];
  }

  /** The opening of a token standing at `i` is what `OpenLen` sees. */
  lemma TokenOpen(s: string, i: nat, t: string)
    requires i + |t| <= |s| && s[i..i + |t|] == t && IsToken(t)
    ensures OpenLen(s, i) == if StartsWith(t[2..|t| - 2], "ITEM::") then 8 else 7
  {
    var inner := t[2..|t| - 2];
    var u := s[i..];
    assert forall q :: 0 <= q < |t| ==> u[q] == t[q] by {
      forall q | 0 <= q < |t|
        ensures u[q] == t[q]
      {
        assert t[q] == s[i..i + |t|][q];
      }
    }
    assert u[0] == t[..2][0] && u[1] == t[..2][1];
    assert forall q :: 0 <= q < |inner| ==> u[q + 2] == inner[q];
    if StartsWith(inner, "ITEM::") {
      OpenKind(u, inner, "ITEM::");
    } else {
      assert inner[..5] == "POI::";
      assert u[2] == 'P';
      NotOpenAt(u, "{{ITEM::", 2);
      OpenKind(u, inner, "POI::");
    }
  }

  lemma NotOpenAt(u: string, p: string, q: nat)
    requires q < |p| && q < |u| && u[q] != p[q]
    ensures !StartsWith(u, p)
  {
  }

  /** `{{` and the kind, read off the characters. */
  lemma OpenKind(u: string, inner: string, kind: string)
    requires 2 + |inner| <= |u| && u[0] == '{' && u[1] == '{'
    requires forall q :: 0 <= q < |inner| ==> u[q + 2] == inner[q]
    requires StartsWith(inner, kind)
    ensures StartsWith(u, "{{" + kind)
  {
    var p := "{{" + kind;
    forall q | 0 <= q < |p|
      ensures u[q] == p[q]
    {
      if q >= 2 {
        assert p[q] == kind[q - 2] == inner[..|kind|][q - 2];
      }
    }
    OpenAt(u, p);
  }

  /** A prefix shown character by character. */
  lemma OpenAt(u: string, p: string)
    requires |p| <= |u| && forall q :: 0 <= q < |p| ==> u[q] == p[q]
    ensures StartsWith(u, p)
  {
    assert u[..|p|] == p;
  }

  /** Conversely, wherever a token stands in a text, `TOKEN_RE` matches
      exactly that token there: the match is neither shorter nor longer. */
  lemma TokenMatches(s: string, i: nat, t: string)
    requires i + |t| <= |s| && s[i..i + |t|] == t && IsToken(t)
    ensures MatchAt(s, i) == Some(i + |t|)
  {
    var inner := t[2..|t| - 2];
    TokenOpen(s, i, t);
    var k := OpenLen(s, i);
    var p := i + |t| - 2;
    assert s[p] == t[|t| - 2] && s[p + 1] == t[|t| - 1];
    assert t[|t| - 2..] == [t[|t| - 2], t[|t| - 1]];
    forall q | i + k <= q < p
      ensures s[q] != '}'
    {
      assert s[q] == t[q - i] == inner[q - i - 2];
      assert inner[q - i - 2] == inner[k - 2..][q - i - k];
    }
    FirstBraceAt(s, i + k, p);
  }

  lemma {:induction false} FirstBraceAt(s: string, j: nat, p: nat)
    requires j <= p < |s| && s[p] == '}'
    requires forall q :: j <= q < p ==> s[q] != '}'
    ensures FirstBrace(s, j) == Some(p)
    decreases p - j
  {
    if j < p {
      FirstBraceAt(s, j + 1, p);
    }
  }

  /** Where a match starts, and where it ends. */
  datatype Span = Span(start: nat, end: nat)

  /** `TOKEN_RE.exec(text)` with `lastIndex` at `from`: the leftmost match
      at or after `from`. */
  function FindFrom(s: string, from: nat): (r: Option<Span>)
    requires from <= |s|
    ensures r.Some? ==> from <= r.value.start < r.value.end <= |s| && MatchAt(s, r.value.start) == Some(r.value.end)
    ensures r.Some? ==> forall i :: from <= i < r.value.start ==> MatchAt(s, i).None?
    ensures r.None? ==> forall i :: from <= i <= |s| ==> MatchAt(s, i).None?
    decreases |s| - from
  {
    if from == |s| then
      MatchAtEnd(s);
      None
    else match MatchAt(s, from)
      case Some(e) => Some(Span(from, e))
      case None => FindFrom(s, from + 1)
  }

  lemma MatchAtEnd(s: string)
    ensures MatchAt(s, |s|).None?
  {
    assert s[|s|..] == [];
  }

  /** No match starts where `{{` does not. */
  lemma NoOpenNoMatch(s: string, i: nat)
    requires i <= |s|
    requires i + 1 < |s| ==> s[i] != '{' || s[i + 1] != '{'
    ensures MatchAt(s, i).None?
  {
    if i + 1 < |s| {
      assert s[i..][0] == s[i] && s[i..][1] == s[i + 1];
    }
  }

  /** A kind without `::` is no token. */
  lemma BareKindStaysPlain()
    ensures FindFrom("{{ITEM}}", 0).None?
  {
    var s := "{{ITEM}}";
    assert !StartsWith(s, "{{ITEM::") by { assert s[6] == '}'; }
    assert !StartsWith(s, "{{POI::") by { assert s[2] == 'I'; }
    assert MatchAt(s, 0).None?;
    forall i | 1 <= i <= |s|
      ensures MatchAt(s, i).None?
    {
      NoOpenNoMatch(s, i);
    }
    NoMatchAnywhere(s, 0);
  }

  /** A `}` inside the payload ends the match too early: no token. */
  lemma BraceInPayloadStaysPlain()
    ensures FindFrom("{{POI::a}b}}", 0).None?
  {
    var u := "{{POI::a}b}}";
    assert !StartsWith(u, "{{ITEM::") by { assert u[2] == 'P'; }
    assert u[..7] == "{{POI::";
    FirstBraceAt(u, 7, 8);
    assert MatchAt(u, 0).None?;
    forall i | 1 <= i <= |u|
      ensures MatchAt(u, i).None?
    {
      NoOpenNoMatch(u, i);
    }
    NoMatchAnywhere(u, 0);
  }

  lemma {:induction false} NoMatchAnywhere(s: string, from: nat)
    requires from <= |s|
    requires forall i :: from <= i <= |s| ==> MatchAt(s, i).None?
    ensures FindFrom(s, from).None?
    decreases |s| - from
  {
    if from < |s| {
      NoMatchAnywhere(s, from + 1);
    }
  }

  // ---------------------------------------------------------------------
  // The payload: `payload.split("::")` and the `kv` table

  /** `::` stands at `k`. */
  predicate SepAt(s: string, k: nat) {
    k + 1 < |s| && s[k] == ':' && s[k + 1] == ':'
  }

  predicate NoSep(s: string) {
    forall k :: 0 <= k < |s| ==> !SepAt(s, k)
  }

  /** The first `::` at or after `j`. */
  function FindSep(s: string, j: nat): (r: Option<nat>)
    requires j <= |s|
    ensures r.Some? ==> j <= r.value && SepAt(s, r.value) && forall k :: j <= k < r.value ==> !SepAt(s, k)
    ensures r.None? ==> forall k :: j <= k < |s| ==> !SepAt(s, k)
    decreases |s| - j
  {
    if j == |s| then None
    else if SepAt(s, j) then Some(j)
    else FindSep(s, j + 1)
  }

  /** `s.split("::")`: the pieces between the separators, left to right. */
  function SplitParts(s: string): (r: seq<string>)
    ensures |r| >= 1
    decreases |s|
  {
    match FindSep(s, 0)
    case None => [s]
    case Some(i) => [s[..i]] + SplitParts(s[i + 2..])
  }

  /** `parts.join("::")`. */
  function JoinParts(ps: seq<string>): string
    requires |ps| >= 1
  {
    if |ps| == 1 then ps[0] else ps[0] + "::" + JoinParts(ps[1..])
  }

  /** Splitting loses nothing, and no piece holds a separator. */
  lemma {:induction false} SplitJoin(s: string)
    ensures JoinParts(SplitParts(s)) == s
    ensures forall i :: 0 <= i < |SplitParts(s)| ==> NoSep(SplitParts(s)[i])
    decreases |s|
  {
    match FindSep(s, 0)
    case None =>
      assert SplitParts(s) == [s];
    case Some(i) =>
      var rest := s[i + 2..];
      SplitJoin(rest);
      var r := SplitParts(s);
      assert r == [s[..i]] + SplitParts(rest);
      assert r[1..] == SplitParts(rest);
      assert s == s[..i] + "::" + rest;
      forall k | 0 <= k < i
        ensures !SepAt(s[..i], k)
      {
        assert !SepAt(s, k);
      }
      forall n | 1 <= n < |r|
        ensures NoSep(r[n])
      {
        assert r[n] == SplitParts(rest)[n - 1];
      }
  }

  /** `payload.split("::").slice(1)` drops the kind and keeps the pieces
      of what follows its `::`. */
  lemma SplitAfterKind(kind: string, body: string)
    requires kind == "ITEM" || kind == "POI"
    ensures SplitParts(kind + "::" + body)[1..] == SplitParts(body)
  {
    var s := kind + "::" + body;
    var n := |kind|;
    forall k | 0 <= k < n
      ensures !SepAt(s, k)
    {
      assert s[k] == kind[k];
    }
    assert SepAt(s, n);
    assert FindSep(s, 0) == Some(n) by {
      FindSepAt(s, 0, n);
    }
    assert s[..n] == kind && s[n + 2..] == body;
  }

  lemma {:induction false} FindSepAt(s: string, j: nat, n: nat)
    requires j <= n && SepAt(s, n) && forall k :: j <= k < n ==> !SepAt(s, k)
    ensures FindSep(s, j) == Some(n)
    decreases n - j
  {
    if j < n {
      FindSepAt(s, j + 1, n);
    }
  }

  /** `p.indexOf("=")`. */
  function IndexOfEq(p: string): (r: Option<nat>)
    ensures r.Some? ==> r.value < |p| && p[r.value] == '=' && forall k :: 0 <= k < r.value ==> p[k] != '='
    ensures r.None? ==> forall k :: 0 <= k < |p| ==> p[k] != '='
  {
    if p == [] then None
    else if p[0] == '=' then Some(0)
    else match IndexOfEq(p[1..])
      case None => None
      case Some(i) => Some(i + 1)
  }

  /** The key of a part: what comes before its first `=`, none without one. */
  function KeyOf(p: string): Option<string> {
    match IndexOfEq(p)
    case None => None
    case Some(eq) => Some(p[..eq])
  }

  /** The value of a part: what comes after its first `=`. */
  function ValueOf(p: string): string {
    match IndexOfEq(p)
    case None => ""
    case Some(eq) => p[eq + 1..]
  }

  /** The `kv` table once the parts are read in order. */
  function KvOf(parts: seq<string>): map<string, string> {
    if parts == [] then map[]
    else
      var kv := KvOf(parts[..|parts| - 1]);
      var p := parts[|parts| - 1];
      match KeyOf(p)
      case None => kv
      case Some(k) => kv[k := ValueOf(p)]
  }

  /** The loop of lines 108-111. */
  method ReadKv(parts: seq<string>) returns (kv: map<string, string>)
    ensures kv == KvOf(parts)
  {
    kv := map[];
    for i := 0 to |parts|
      invariant kv == KvOf(parts[..i])
    {
      assert parts[..i + 1][..i] == parts[..i];
      var p := parts[i];
      var eq := IndexOfEq(p);
      if eq.Some? {
        kv := kv[p[..eq.value] := p[eq.value + 1..]];
      }
    }
    assert parts[..|parts|] == parts;
  }

  /** Reading one more part adds its key, if it has one. */
  lemma KvSnocKeys(parts: seq<string>)
    requires parts != []
    ensures forall k :: k in KvOf(parts) <==>
      k in KvOf(parts[..|parts| - 1]) || KeyOf(parts[|parts| - 1]) == Some(k)
  {
  }

  /** The keys of the table are the keys of the parts that have an `=`. */
  lemma {:induction false} KvKeys(parts: seq<string>)
    ensures forall k :: k in KvOf(parts) <==> exists i :: 0 <= i < |parts| && KeyOf(parts[i]) == Some(k)
    decreases |parts|
  {
    if parts != [] {
      var n := |parts| - 1;
      var init := parts[..n];
      KvKeys(init);
      KvSnocKeys(parts);
      assert forall i :: 0 <= i < n ==> init[i] == parts[i];
      forall k | k in KvOf(parts)
        ensures exists i :: 0 <= i < |parts| && KeyOf(parts[i]) == Some(k)
      {
        if KeyOf(parts[n]) != Some(k) {
          var i :| 0 <= i < n && KeyOf(init[i]) == Some(k);
        }
      }
    }
  }

  /** A key holds the value of the last part that names it: a later
      duplicate overrides an earlier one. */
  lemma {:induction false} KvLastWins(parts: seq<string>, i: nat, k: string)
    requires i < |parts| && KeyOf(parts[i]) == Some(k)
    requires forall j :: i < j < |parts| ==> KeyOf(parts[j]) != Some(k)
    ensures k in KvOf(parts) && KvOf(parts)[k] == ValueOf(parts[i])
    decreases |parts|
  {
    var init := parts[..|parts| - 1];
    if i < |parts| - 1 {
      forall j | i < j < |init|
        ensures KeyOf(init[j]) != Some(k)
      {
        assert init[j] == parts[j];
      }
      assert init[i] == parts[i];
      KvLastWins(init, i, k);
    }
  }

  /** A part without `=` changes nothing. */
  lemma KvSkipsPlain(parts: seq<string>, p: string)
    requires forall k :: 0 <= k < |p| ==> p[k] != '='
    ensures KvOf(parts + [p]) == KvOf(parts)
  {
    assert (parts + [p])[..|parts|] == parts;
  }

  /** `kv.x || ""`. */
  function Get(kv: map<string, string>, k: string): string {
    if k in kv then kv[k] else ""
  }

  // ---------------------------------------------------------------------
  // Segments

  /** What `renderTaskText` pushes: plain text, an item badge or a POI
      badge; a badge keeps the token text it was read from (`full`). */
  datatype Segment =
    | Plain(text: string)
    | Item(raw: string, icon: string, name: string, drop: string, rarity: string)
    | Poi(raw: string, icon: string, name: string, href: Option<string>)

  /** The text of the line a segment stands for. */
  function Raw(g: Segment): string {
    if g.Plain? then g.text else g.raw
  }

  function RawAll(gs: seq<Segment>): string {
    if gs == [] then "" else Raw(gs[0]) + RawAll(gs[1..])
  }

  /** `(kv.rarity || "").toLowerCase().replace(/\s+/g, "-")`. */
  function RaritySlug(r: string): string {
    ReplaceSpaceRuns(Lower(r), "-")
  }

  /** `x || d` on a string. */
  function OrDefault(x: string, d: string): string {
    if x == "" then d else x
  }

  const ZoneLinkPrefix: string := "https://nwdb.info/db/zone/"

  /** The badge lines 112-160 build for the token `full` from its table. */
  function SegmentOf(full: string, kv: map<string, string>): (g: Segment)
    ensures !g.Plain? && Raw(g) == full
    ensures g.Item? <==> StartsWith(full, "{{ITEM")
    ensures g.Item? ==> g.name != "" && (Get(kv, "name") != "" ==> g.name == Get(kv, "name"))
    ensures g.Poi? ==> g.name != "" && (Get(kv, "name") != "" ==> g.name == Get(kv, "name"))
    ensures g.Poi? ==> (g.href.Some? <==> Get(kv, "tid") != "")
    ensures g.Poi? && g.href.Some? ==> g.href.value == ZoneLinkPrefix + Get(kv, "tid")
  {
    var icon := Get(kv, "icon");
    var tid := Get(kv, "tid");
    if StartsWith(full, "{{ITEM") then
      Item(full, icon, OrDefault(Get(kv, "name"), "Item"), Get(kv, "drop"), RaritySlug(Get(kv, "rarity")))
    else
      Poi(full, icon, OrDefault(Get(kv, "name"), "POI"), if tid == "" then None else Some(ZoneLinkPrefix + tid))
  }

  /** `full.slice(2, -2).split("::").slice(1)`. */
  function PartsOf(full: string): seq<string>
    requires |full| >= 4
  {
    SplitParts(full[2..|full| - 2])[1..]
  }

  function TokenSegment(full: string): Segment
    requires |full| >= 4
  {
    SegmentOf(full, KvOf(PartsOf(full)))
  }

  /** The segments of `text` from `from` on, as the loop pushes them. */
  function SegmentsFrom(text: string, from: nat): seq<Segment>
    requires from <= |text|
    decreases |text| - from
  {
    match FindFrom(text, from)
    case None => if from < |text| then [Plain(text[from..])] else []
    case Some(sp) =>
      (if sp.start > from then [Plain(text[from..sp.start])] else [])
        + [TokenSegment(text[sp.start..sp.end])]
        + SegmentsFrom(text, sp.end)
  }

  /** `renderTaskText(text)`: null for the empty text. */
  function Segments(text: string): Option<seq<Segment>> {
    if text == "" then None else Some(SegmentsFrom(text, 0))
  }

  /** One turn of the loop: the plain text before the next match, the
      badge for the match, then the rest. */
  lemma SegmentsStep(text: string, from: nat)
    requires from <= |text| && FindFrom(text, from).Some?
    ensures var sp := FindFrom(text, from).value;
      SegmentsFrom(text, from) ==
        (if sp.start > from then [Plain(text[from..sp.start])] else [])
          + [TokenSegment(text[sp.start..sp.end])] + SegmentsFrom(text, sp.end)
  {
  }

  /** After the last match: the trailing text, if any. */
  lemma SegmentsEnd(text: string, from: nat)
    requires from <= |text| && FindFrom(text, from).None?
    ensures SegmentsFrom(text, from) == if from < |text| then [Plain(text[from..])] else []
  {
  }

  /** Lines 95-168. */
  method RenderTaskText(text: string) returns (nodes: Option<seq<Segment>>)
    ensures nodes == Segments(text)
  {
    if text == "" {
      return None;
    }
    var out: seq<Segment> := [];
    var last: nat := 0;
    var m := FindFrom(text, last);
    while m.Some?
      invariant last <= |text|
      invariant m == FindFrom(text, last)
      invariant out + SegmentsFrom(text, last) == SegmentsFrom(text, 0)
      decreases |text| - last
    {
      var sp := m.value;
      var full := text[sp.start..sp.end];
      var parts := PartsOf(full);
      var kv := ReadKv(parts);
      var before: seq<Segment> := [];
      if sp.start > last {
        before := [Plain(text[last..sp.start])];
      }
      var g := SegmentOf(full, kv);
      RenderStep(text, last, out, before, kv, g);
      out := out + before + [g];
      last := sp.end;
      m := FindFrom(text, last);
    }
    var tail: seq<Segment> := [];
    if last < |text| {
      tail := [Plain(text[last..])];
    }
    SegmentsEnd(text, last);
    Close(out, tail, SegmentsFrom(text, last), SegmentsFrom(text, 0));
    return Some(out + tail);
  }

  lemma RenderStep(text: string, from: nat, out: seq<Segment>, before: seq<Segment>,
                   kv: map<string, string>, g: Segment)
    requires from <= |text| && FindFrom(text, from).Some?
    requires var sp := FindFrom(text, from).value;
      && before == (if sp.start > from then [Plain(text[from..sp.start])] else [])
      && kv == KvOf(PartsOf(text[sp.start..sp.end]))
      && g == SegmentOf(text[sp.start..sp.end], kv)
    requires out + SegmentsFrom(text, from) == SegmentsFrom(text, 0)
    ensures out + before + [g] + SegmentsFrom(text, FindFrom(text, from).value.end) == SegmentsFrom(text, 0)
  {
    var sp := FindFrom(text, from).value;
    assert g == TokenSegment(text[sp.start..sp.end]);
    SegmentsStep(text, from);
    var rest := SegmentsFrom(text, sp.end);
    Regroup(out, before, g, SegmentsFrom(text, from), rest, SegmentsFrom(text, 0));
  }

  lemma Close(out: seq<Segment>, tail: seq<Segment>, a: seq<Segment>, w: seq<Segment>)
    requires a == tail && out + a == w
    ensures out + tail == w
  {
  }

  lemma Regroup(out: seq<Segment>, before: seq<Segment>, g: Segment, a: seq<Segment>, rest: seq<Segment>, w: seq<Segment>)
    requires a == before + [g] + rest && out + a == w
    ensures out + before + [g] + rest == w
  {
  }

  lemma {:induction false} RawAllConcat(a: seq<Segment>, b: seq<Segment>)
    ensures RawAll(a + b) == RawAll(a) + RawAll(b)
    decreases |a|
  {
    if a == [] {
      assert a + b == b;
    } else {
      assert (a + b)[1..] == a[1..] + b;
      RawAllConcat(a[1..], b);
    }
  }

  /** The plain texts and the token texts, put back together, give the
      line: nothing is lost, moved or invented. */
  lemma {:induction false} SegmentsJoin(text: string, from: nat)
    requires from <= |text|
    ensures RawAll(SegmentsFrom(text, from)) == text[from..]
    decreases |text| - from
  {
    var fs := FindFrom(text, from);
    if fs.None? {
      SegmentsEnd(text, from);
      if from < |text| {
        assert RawAll([Plain(text[from..])]) == text[from..] + RawAll([]);
      }
    } else {
      var sp := fs.value;
      SegmentsStep(text, from);
      SegmentsJoin(text, sp.end);
      JoinStep(text, from, sp.start, sp.end, TokenSegment(text[sp.start..sp.end]), SegmentsFrom(text, sp.end));
    }
  }

  lemma RawAll3(before: seq<Segment>, g: Segment, rest: seq<Segment>)
    ensures RawAll(before + [g] + rest) == RawAll(before) + Raw(g) + RawAll(rest)
  {
    RawAllConcat(before + [g], rest);
    RawAllConcat(before, [g]);
    assert RawAll([g]) == Raw(g) + RawAll([]);
  }

  lemma JoinStep(text: string, from: nat, start: nat, end: nat, g: Segment, rest: seq<Segment>)
    requires from <= start <= end <= |text| && Raw(g) == text[start..end]
    requires RawAll(rest) == text[end..]
    ensures RawAll((if start > from then [Plain(text[from..start])] else []) + [g] + rest) == text[from..]
  {
    var before: seq<Segment> := if start > from then [Plain(text[from..start])] else [];
    RawAll3(before, g, rest);
    var head := text[from..start];
    if start > from {
      assert RawAll(before) == head + RawAll([]);
    } else {
      assert RawAll(before) == [] == head;
    }
    SliceThree(text, from, start, end);
  }

  /** No token stands anywhere in `t`. */
  predicate NoTokenIn(t: string) {
    forall i, e :: 0 <= i <= e <= |t| ==> !IsToken(t[i..e])
  }

  /** A stretch of text where no match starts holds no token. */
  lemma PlainHasNoToken(text: string, a: nat, b: nat)
    requires a <= b <= |text|
    requires forall i :: a <= i < b ==> MatchAt(text, i).None?
    ensures NoTokenIn(text[a..b])
  {
    var t := text[a..b];
    forall i, e | 0 <= i <= e <= |t| && IsToken(t[i..e])
      ensures false
    {
      var tok := t[i..e];
      assert |tok| == e - i;
      assert forall q :: 0 <= q < e - i ==> tok[q] == text[a + i + q];
      assert text[a + i..a + i + |tok|] == tok;
      TokenMatches(text, a + i, tok);
    }
  }

  /** Every plain segment is non-empty and holds no token, and every badge
      was read from a token. */
  lemma {:induction false} SegmentsShape(text: string, from: nat)
    requires from <= |text|
    ensures forall g :: g in SegmentsFrom(text, from) ==>
      (g.Plain? ==> g.text != "" && NoTokenIn(g.text)) && (!g.Plain? ==> IsToken(Raw(g)))
    decreases |text| - from
  {
    var fs := FindFrom(text, from);
    if fs.None? {
      SegmentsEnd(text, from);
      if from < |text| {
        PlainHasNoToken(text, from, |text|);
        assert text[from..|text|] == text[from..];
      }
    } else {
      var sp := fs.value;
      SegmentsStep(text, from);
      SegmentsShape(text, sp.end);
      if sp.start > from {
        PlainHasNoToken(text, from, sp.start);
      }
    }
  }

  // ---------------------------------------------------------------------
  // The quest type (lines 178-182)

  /** `normType`: white-space runs collapsed to one space, then trimmed; a
      missing type is the empty text. */
  function NormType(t: string): string {
    Trim(ReplaceSpaceRuns(t, " "))
  }

  /** A normalised type is trimmed and single-spaced. */
  lemma NormTypeSpacing(t: string)
    ensures var n := NormType(t);
      SingleSpaced(n) && (n != [] ==> !IsSpace(n[0]) && !IsSpace(n[|n| - 1]))
  {
    var r := ReplaceSpaceRuns(t, " ");
    var n := Trim(r);
    assert n != [] ==> !IsSpace(n[0]) && !IsSpace(n[|n| - 1]);
    ReplaceSpaceRunsSingle(t);
    SingleSpacedTrim(r);
  }

  /** Normalising drops white space only: every other character of the type
      is kept, in order. */
  lemma NormTypeKeeps(t: string)
    ensures NonSpace(NormType(t)) == NonSpace(t)
  {
    NonSpaceTrim(ReplaceSpaceRuns(t, " "));
    NonSpaceReplaceSpaceRuns(t);
  }

  /** Normalising twice is normalising once. */
  lemma NormTypeIdempotent(t: string)
    ensures NormType(NormType(t)) == NormType(t)
  {
    var n := NormType(t);
    NormTypeSpacing(t);
    ReplaceSpaceRunsFixed(n);
    TrimStartNoLeadingSpace(n);
    TrimEndNoTrailingSpace(n);
  }

  /** `isMainStory`: the trimmed, lower-cased type is exactly
      `main story quest`. */
  predicate IsMainStory(t: string) {
    Lower(Trim(t)) == "main story quest"
  }

  /** The type as the data spells it is a main story. */
  lemma MainStoryText()
    ensures IsMainStory("Main Story Quest")
  {
    var s := "Main Story Quest";
    assert s[0] == 'M' && s[|s| - 1] == 't';
    TrimStartNoLeadingSpace(s);
    TrimEndNoTrailingSpace(s);
    assert Trim(s) == s;
    var l := Lower(s);
    assert l[0] == 'm' && l[5] == 's' && l[11] == 'q';
    assert l == "main story quest";
  }

  /** The text `isMainStory` compares with has no doubled space. */
  lemma MainStoryTextSingle()
    ensures forall i :: 0 <= i < 15 ==> "main story quest"[i] != ' ' || "main story quest"[i + 1] != ' '
  {
  }

  /** A doubled inner space is collapsed by `normType`, so the type shows
      (and finds its icon) as the single-spaced one... */
  lemma DoubledSpaceNorm(a: string, b: string)
    requires a != [] && forall i :: 0 <= i < |a| ==> !IsSpace(a[i])
    requires b != [] && SingleSpaced(b) && !IsSpace(b[0]) && !IsSpace(b[|b| - 1])
    ensures NormType(a + "  " + b) == a + " " + b
  {
    var t := a + "  " + b;
    var n := a + " " + b;
    assert t == a + ("  " + b);
    ReplaceSpaceRunsPrefix(a, "  " + b);
    RunOfTwo(b);
    assert a + (" " + b) == n;
    assert n[0] == a[0] && n[|n| - 1] == b[|b| - 1];
    TrimStartNoLeadingSpace(n);
    TrimEndNoTrailingSpace(n);
  }

  lemma RunOfTwo(b: string)
    requires b != [] && SingleSpaced(b) && !IsSpace(b[0])
    ensures ReplaceSpaceRuns("  " + b, " ") == " " + b
  {
    var u := "  " + b;
    assert u[1..] == " " + b && (" " + b)[1..] == b;
    assert TrimStart(u) == b;
    ReplaceSpaceRunsFixed(b);
  }

  /** ...while `isMainStory` does not collapse it: `Main  Story Quest` is not
      a main story quest. */
  lemma DoubledSpaceNotMain(a: string, b: string)
    requires a != [] && !IsSpace(a[0])
    requires b != [] && !IsSpace(b[|b| - 1])
    ensures !IsMainStory(a + "  " + b)
  {
    var t := a + "  " + b;
    assert t[0] == a[0] && t[|t| - 1] == b[|b| - 1];
    TrimStartNoLeadingSpace(t);
    TrimEndNoTrailingSpace(t);
    assert Trim(t) == t;
    var l := Lower(t);
    assert t[|a|] == ' ' && t[|a| + 1] == ' ';
    assert l[|a|] == ' ' && l[|a| + 1] == ' ';
    MainStoryTextSingle();
  }

  lemma MainStoryDoubledExample()
    ensures NormType("Main  Story Quest") == "Main Story Quest"
    ensures !IsMainStory("Main  Story Quest")
  {
    var b := "Story Quest";
    assert SingleSpaced(b) by {
      assert forall i :: 0 <= i < |b| && IsSpace(b[i]) ==> i == 5;
    }
    assert "Main  Story Quest" == "Main" + "  " + b;
    assert "Main Story Quest" == "Main" + " " + b;
    DoubledSpaceNorm("Main", b);
    DoubledSpaceNotMain("Main", b);
  }

  /** Characters other than white space are copied one by one. */
  lemma {:induction false} ReplaceSpaceRunsPrefix(w: string, rest: string)
    requires forall i :: 0 <= i < |w| ==> !IsSpace(w[i])
    ensures ReplaceSpaceRuns(w + rest, " ") == w + ReplaceSpaceRuns(rest, " ")
    decreases |w|
  {
    if w != [] {
      assert (w + rest)[0] == w[0];
      assert (w + rest)[1..] == w[1..] + rest;
      ReplaceSpaceRunsPrefix(w[1..], rest);
      assert w == [w[0]] + w[1..];
    } else {
      assert w + rest == rest;
    }
  }

  /** The rarity slug holds neither white space nor capitals, and is empty
      only for an empty rarity. */
  lemma RaritySlugShape(rarity: string)
    ensures var r := RaritySlug(rarity);
      && (forall i :: 0 <= i < |r| ==> !IsSpace(r[i]) && !IsUpper(r[i]))
      && (r == "" <==> rarity == "")
  {
    var l := Lower(rarity);
    var r := RaritySlug(rarity);
    ReplaceSpaceRunsKeeps(l, "-");
    ReplaceSpaceRunsChars(l, "-");
    ReplaceSpaceRunsEmpty(l, "-");
    forall i | 0 <= i < |r|
      ensures !IsUpper(r[i])
    {
      if r[i] in l {
        var j :| 0 <= j < |l| && l[j] == r[i];
      }
    }
  }

  // ---------------------------------------------------------------------
  // The rewards block (lines 268-355)

  /** The reward fields of a quest record; `None` is a missing key. */
  datatype RewardData = RewardData(
    experienceReward: Option<int>,
    universalExpAmount: Option<int>,
    currencyReward: Option<int>,
    factionInfluence: Option<int>,
    factionReputation: Option<int>,
    factionTokens: Option<int>,
    azothReward: Option<int>,
    territoryStanding: Option<int>,
    itemReward: Option<string>,
    itemRewardName: Option<string>,
    itemRewardResolvedName: Option<string>,
    itemRewardQty: Option<int>,
    itemRewardIcon: Option<string>,
    itemRewardRarity: Option<string>)

  /** `experience_reward ?? universal_exp_amount ?? 0`. */
  function XpOf(d: RewardData): int {
    d.experienceReward.GetOr(d.universalExpAmount.GetOr(0))
  }

  /** `item_reward ?? item_reward_name ?? ''`. */
  function ItemIdOf(d: RewardData): string {
    d.itemReward.GetOr(d.itemRewardName.GetOr(""))
  }

  /** One line of the rewards block. */
  datatype Reward =
    | Xp(amount: int)
    | Coin(amount: int)
    | FactionInfluence(amount: int)
    | FactionReputation(amount: int)
    | FactionTokens(amount: int)
    | Azoth(amount: int)
    | Standing(amount: int)
    | ItemLine(name: string, qty: int, icon: string, rarity: string)

  /** The seven amounts, in the order of lines 298-339. */
  function Amounts(d: RewardData): seq<Reward> {
    [ Xp(XpOf(d)), Coin(d.currencyReward.GetOr(0)),
      FactionInfluence(d.factionInfluence.GetOr(0)), FactionReputation(d.factionReputation.GetOr(0)),
      FactionTokens(d.factionTokens.GetOr(0)), Azoth(d.azothReward.GetOr(0)),
      Standing(d.territoryStanding.GetOr(0)) ]
  }

  /** The amount lines that are shown: each `{n > 0 && ...}`. */
  function Positive(ls: seq<Reward>): (r: seq<Reward>)
    ensures forall i :: 0 <= i < |r| ==> r[i] in ls && !r[i].ItemLine? && r[i].amount > 0
    ensures forall i :: 0 <= i < |ls| && !ls[i].ItemLine? && ls[i].amount > 0 ==> ls[i] in r
  {
    if ls == [] then []
    else
      var rest := Positive(ls[1..]);
      assert forall i :: 1 <= i < |ls| ==> ls[i] == ls[1..][i - 1];
      if !ls[0].ItemLine? && ls[0].amount > 0 then [ls[0]] + rest else rest
  }

  /** Showing the amount lines keeps their order: the lines of two halves
      are those of each half, in turn. */
  lemma {:induction false} PositiveSplit(a: seq<Reward>, b: seq<Reward>)
    ensures Positive(a + b) == Positive(a) + Positive(b)
    decreases |a|
  {
    if a == [] {
      assert a + b == b;
    } else {
      assert (a + b)[0] == a[0];
      assert (a + b)[1..] == a[1..] + b;
      PositiveSplit(a[1..], b);
    }
  }

  /** One amount is shown exactly when it is positive. */
  lemma PositiveOne(l: Reward)
    ensures Positive([l]) == if !l.ItemLine? && l.amount > 0 then [l] else []
  {
    assert [l][1..] == [];
  }

  /** The item line: shown when any of the three item names is set, named
      by the first one set of resolved name, name id and item id. */
  function ItemLineOf(d: RewardData): (r: seq<Reward>)
    ensures |r| <= 1
    ensures forall i :: 0 <= i < |r| ==> r[i].ItemLine? && r[i].name != ""
    ensures |r| == 1 <==> ItemNamed(d)
    ensures |r| == 1 && d.itemRewardResolvedName.GetOr("") != "" ==>
      r[0].name == d.itemRewardResolvedName.value
    ensures |r| == 1 && d.itemRewardResolvedName.GetOr("") == "" && d.itemRewardName.GetOr("") != "" ==>
      r[0].name == d.itemRewardName.value
    ensures |r| == 1 && d.itemRewardResolvedName.GetOr("") == "" && d.itemRewardName.GetOr("") == "" ==>
      r[0].name == ItemIdOf(d)
    ensures |r| == 1 ==> r[0].qty == d.itemRewardQty.GetOr(0) && r[0].icon == d.itemRewardIcon.GetOr("")
  {
    var id := ItemIdOf(d);
    var nameId := d.itemRewardName.GetOr("");
    var resolved := d.itemRewardResolvedName.GetOr("");
    var rawRarity := Trim(d.itemRewardRarity.GetOr(""));
    if id != "" || nameId != "" || resolved != "" then
      [ItemLine(OrDefault(resolved, OrDefault(nameId, id)), d.itemRewardQty.GetOr(0),
                d.itemRewardIcon.GetOr(""), if rawRarity != "" then RaritySlug(rawRarity) else "")]
    else []
  }

  /** The lines the block lists, in the order of lines 298-352. */
  function RewardLines(d: RewardData): seq<Reward> {
    Positive(Amounts(d)) + ItemLineOf(d)
  }

  /** Some item name is set: `itemId || itemNameId || itemResolved`. */
  predicate ItemNamed(d: RewardData) {
    ItemIdOf(d) != "" || d.itemRewardName.GetOr("") != "" || d.itemRewardResolvedName.GetOr("") != ""
  }

  /** An amount line shows exactly when its amount is positive, an item line
      shows exactly when an item name is set, and it is the last line. */
  lemma RewardLinesShape(d: RewardData)
    ensures forall k :: 0 <= k < 7 ==> (Amounts(d)[k] in RewardLines(d) <==> Amounts(d)[k].amount > 0)
    ensures (exists i :: 0 <= i < |RewardLines(d)| && RewardLines(d)[i].ItemLine?) <==> ItemNamed(d)
    ensures forall i :: 0 <= i < |RewardLines(d)| && RewardLines(d)[i].ItemLine? ==> i == |RewardLines(d)| - 1
  {
    var p := Positive(Amounts(d));
    var r := RewardLines(d);
    assert forall i :: 0 <= i < |p| ==> r[i] == p[i] && !r[i].ItemLine?;
    if ItemNamed(d) {
      assert r[|r| - 1] == ItemLineOf(d)[0];
    }
  }

  /** No amount line shows exactly when no amount is positive. */
  lemma PositiveNone(ls: seq<Reward>)
    ensures Positive(ls) == [] <==> forall i :: 0 <= i < |ls| ==> ls[i].ItemLine? || ls[i].amount <= 0
  {
    var r := Positive(ls);
    if r != [] {
      assert r[0] in ls;
    }
  }

  lemma AmountsNone(d: RewardData)
    ensures Positive(Amounts(d)) == [] <==>
      && XpOf(d) <= 0 && d.currencyReward.GetOr(0) <= 0
      && d.factionInfluence.GetOr(0) <= 0 && d.factionReputation.GetOr(0) <= 0
      && d.factionTokens.GetOr(0) <= 0
      && d.azothReward.GetOr(0) <= 0 && d.territoryStanding.GetOr(0) <= 0
  {
    var a := Amounts(d);
    PositiveNone(a);
    assert |a| == 7;
    assert a[0].amount == XpOf(d) && a[1].amount == d.currencyReward.GetOr(0);
    assert a[2].amount == d.factionInfluence.GetOr(0) && a[3].amount == d.factionReputation.GetOr(0);
    assert a[4].amount == d.factionTokens.GetOr(0) && a[5].amount == d.azothReward.GetOr(0);
    assert a[6].amount == d.territoryStanding.GetOr(0);
  }

  /** `hasAny` as lines 287-292 write it: the faction amounts and the
      resolved item name are not consulted. */
  predicate HasAnyAsWritten(d: RewardData) {
    || XpOf(d) > 0 || d.currencyReward.GetOr(0) > 0 || d.azothReward.GetOr(0) > 0
    || d.territoryStanding.GetOr(0) > 0
    || ItemIdOf(d) != "" || d.itemRewardName.GetOr("") != ""
  }

  /** A quest rewarded only with faction influence. */
  const FactionOnly: RewardData :=
    RewardData(None, None, None, Some(100), None, None, None, None, None, None, None, None, None, None)

  /** A quest whose only reward is an item known by its resolved name. */
  const ResolvedOnly: RewardData :=
    RewardData(None, None, None, None, None, None, None, None, None, None, Some("Iron Sword"), None, None, None)

  /** The gate as written hides the line of a faction-only reward... */
  lemma FactionOnlyHidden()
    ensures !HasAnyAsWritten(FactionOnly)
    ensures FactionInfluence(100) in RewardLines(FactionOnly)
  {
    var a := Amounts(FactionOnly);
    assert a[2] == FactionInfluence(100);
  }

  /** ...and the item line of an item known only by its resolved name. */
  lemma ResolvedOnlyHidden()
    ensures !HasAnyAsWritten(ResolvedOnly) && RewardLines(ResolvedOnly) != []
  {
    ResolvedOnlyShown();
  }

  lemma ResolvedOnlyShown()
    ensures ItemLineOf(ResolvedOnly) == [ItemLine("Iron Sword", 0, "", "")]
  {
    var d := ResolvedOnly;
    assert d.itemRewardResolvedName.GetOr("") == "Iron Sword";
  }

  /** The gate the block evidently means: some line would be shown. */
  predicate HasAny(d: RewardData) {
    || XpOf(d) > 0 || d.currencyReward.GetOr(0) > 0
    || d.factionInfluence.GetOr(0) > 0 || d.factionReputation.GetOr(0) > 0
    || d.factionTokens.GetOr(0) > 0
    || d.azothReward.GetOr(0) > 0 || d.territoryStanding.GetOr(0) > 0
    || ItemIdOf(d) != "" || d.itemRewardName.GetOr("") != ""
    || d.itemRewardResolvedName.GetOr("") != ""
  }

  /** The corrected gate opens exactly when there is a line to show, and it
      opens whenever the gate as written does. */
  lemma HasAnyExact(d: RewardData)
    ensures HasAny(d) <==> RewardLines(d) != []
    ensures HasAnyAsWritten(d) ==> HasAny(d)
  {
    AmountsNone(d);
    assert |RewardLines(d)| == |Positive(Amounts(d))| + |ItemLineOf(d)|;
  }

  /** The rewards block as written: `null` when `hasAny` is false, the lines
      otherwise. Whenever it is shown it has a line; it may be hidden although
      it has some (FactionOnlyBlockHidden). */
  function RewardsBlock(d: RewardData): (r: Option<seq<Reward>>)
    ensures r.Some? <==> HasAnyAsWritten(d)
    ensures r.Some? ==> r.value == RewardLines(d) && r.value != []
  {
    HasAnyExact(d);
    if HasAnyAsWritten(d) then Some(RewardLines(d)) else None
  }

  /** The block the component evidently means: shown exactly when it has a
      line to show. */
  function RewardsBlockIntended(d: RewardData): (r: Option<seq<Reward>>)
    ensures r.Some? <==> RewardLines(d) != []
    ensures r.Some? ==> r.value == RewardLines(d)
    ensures RewardsBlock(d).Some? ==> r == RewardsBlock(d)
  {
    HasAnyExact(d);
    if HasAny(d) then Some(RewardLines(d)) else None
  }

  /** A faction-only reward: the block as written is `null`, the intended
      block lists the influence line. */
  lemma FactionOnlyBlockHidden()
    ensures RewardsBlock(FactionOnly).None?
    ensures RewardsBlockIntended(FactionOnly).Some?
    ensures FactionInfluence(100) in RewardsBlockIntended(FactionOnly).value
  {
    FactionOnlyHidden();
  }
}
