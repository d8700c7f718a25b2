/** What the patterns of the SQL rewriter match, character by character, and what each rule writes for it. */
module Spelling {
  import opened Sql
  import opened Dialect

  // ---------------------------------------------------------------- the characters of the classes

  predicate IsBlank(c: char) { c == ' ' || c == '\t' || c == '\n' || c == '\r' || c == '\U{C}' }
  predicate Numeral(c: char) { '0' <= c <= '9' }
  predicate Alpha(c: char) { 'a' <= c <= 'z' || 'A' <= c <= 'Z' }
  predicate NameChar(c: char) { Alpha(c) || Numeral(c) || c == '_' || c == '.' }

  predicate Blanks(s: string) { forall i :: 0 <= i < |s| ==> IsBlank(s[i]) }
  predicate Numerals(s: string) { s != "" && forall i :: 0 <= i < |s| ==> Numeral(s[i]) }
  predicate Alphas(s: string) { s != "" && forall i :: 0 <= i < |s| ==> Alpha(s[i]) }
  predicate IsName(s: string) { s != "" && (Alpha(s[0]) || s[0] == '_') && forall i :: 0 <= i < |s| ==> NameChar(s[i]) }

  /** What stands for one token: its fixed text, a column name, or an interval back from now. */
  datatype Piece = Fixed(text: string) | Name(name: string) | Since(count: string, gap: string, unit: string)

  predicate Fits(k: Token, p: Piece) {
    match k
    case Text(t) => p == Fixed(t)
    case Quoted(t) => p == Fixed("'" + t + "'")
    case Param => p == Fixed("?")
    case Column => p.Name? && IsName(p.name)
    case Ago => p.Since? && Numerals(p.count) && p.gap != "" && Blanks(p.gap) && Alphas(p.unit)
  }

  function Spelt(p: Piece): string {
    match p
    case Fixed(t) => t
    case Name(n) => n
    case Since(d, g, u) => "'-" + d + g + u + "'"
  }

  /** The pieces with white space between them. */
  function Joined(pieces: seq<Piece>, gaps: seq<string>): string
    requires |gaps| == |pieces|
    decreases |pieces|
  {
    if pieces == [] then "" else Spelt(pieces[0]) + gaps[0] + Joined(pieces[1..], gaps[1..])
  }

  /** A spelling of the pattern: every piece fits its token, white space stands between pieces only. */
  predicate Spells(pattern: seq<Token>, pieces: seq<Piece>, gaps: seq<string>) {
    |pieces| == |pattern| == |gaps| && (pattern != [] ==> gaps[|gaps| - 1] == "") &&
    forall i :: 0 <= i < |pattern| ==> Fits(pattern[i], pieces[i]) && Blanks(gaps[i])
  }

  // ---------------------------------------------------------------- every match is a spelling

  lemma {:induction false} SpanIs(s: string, cl: Class, n: nat)
    requires n <= |s| && (forall i :: 0 <= i < n ==> InClass(s[i], cl)) && (n < |s| ==> !InClass(s[n], cl))
    ensures Span(s, cl) == n
  {
    if n > 0 { SpanIs(s[1..], cl, n - 1); }
  }

  lemma {:induction false} SpanHas(s: string, cl: Class)
    ensures forall i :: 0 <= i < Span(s, cl) ==> InClass(s[i], cl)
    ensures Span(s, cl) < |s| ==> !InClass(s[Span(s, cl)], cl)
  {
    if s != "" && InClass(s[0], cl) {
      SpanHas(s[1..], cl);
      forall i | 0 <= i < Span(s, cl) ensures InClass(s[i], cl) { if i > 0 { assert s[i] == s[1..][i - 1]; } }
    }
  }

  /** The run of a class from `from` on, told on the whole text. */
  lemma SpanFrom(s: string, from: nat, cl: Class)
    requires from <= |s|
    ensures var to := from + Span(s[from..], cl);
            to <= |s| && (forall i :: from <= i < to ==> InClass(s[i], cl)) && (to < |s| ==> !InClass(s[to], cl))
  {
    var t := s[from..];
    SpanHas(t, cl);
    forall i | from <= i < from + Span(t, cl) ensures InClass(s[i], cl) { assert s[i] == t[i - from]; }
    if from + Span(t, cl) < |s| { assert s[from + Span(t, cl)] == t[Span(t, cl)]; }
  }

  lemma SpanTo(s: string, from: nat, cl: Class, to: nat)
    requires from <= to <= |s| && (forall i :: from <= i < to ==> InClass(s[i], cl)) && (to < |s| ==> !InClass(s[to], cl))
    ensures Span(s[from..], cl) == to - from
  {
    SpanIs(s[from..], cl, to - from);
  }

  lemma Cut(s: string, d: nat, g: nat, l: nat)
    requires 2 <= d <= g <= l < |s| && s[0] == '\'' && s[1] == '-' && s[l] == '\''
    ensures s[..l + 1] == "'-" + s[2..d] + s[d..g] + s[g..l] + "'"
  {
    assert s[..2] == "'-";
    assert s[..l + 1] == s[..2] + s[2..d] + s[d..g] + s[g..l] + [s[l]];
  }

  lemma AgoIsPiece(s: string) returns (p: Piece)
    requires MatchAgo(s).Val?
    ensures Fits(Ago, p) && Spelt(p) == s[..MatchAgo(s).v.len] && MatchAgo(s).v.one == p.count && MatchAgo(s).v.two == p.unit
  {
    hide Span;
    var d := 2 + Span(s[2..], Digit);
    var g := d + Span(s[d..], Space);
    var l := g + Span(s[g..], Letter);
    SpanFrom(s, 2, Digit);
    SpanFrom(s, d, Space);
    SpanFrom(s, g, Letter);
    p := Since(s[2..d], s[d..g], s[g..l]);
    assert s[l..][0] == s[l];
    Cut(s, d, g, l);
  }

  lemma TokenIsPiece(k: Token, s: string) returns (p: Piece)
    requires MatchToken(k, s).Val?
    ensures Fits(k, p) && Spelt(p) == s[..MatchToken(k, s).v.len]
  {
    match k {
      case Column =>
        SpanHas(s[1..], IdentRest);
        var n := MatchToken(k, s).v.len;
        p := Name(s[..n]);
        forall i | 0 <= i < n ensures NameChar(s[i]) { if i > 0 { assert s[i] == s[1..][i - 1]; } }
      case Ago => p := AgoIsPiece(s);
      case _ => p := Fixed(s[..MatchToken(k, s).v.len]);
    }
  }

  lemma SpacedIsPiece(k: Token, last: bool, s: string) returns (p: Piece, gap: string)
    requires MatchSpaced(k, last, s).Val?
    ensures Fits(k, p) && Blanks(gap) && (last ==> gap == "") && Spelt(p) + gap == s[..MatchSpaced(k, last, s).v.len]
  {
    hide Span, MatchToken, Fits;
    var token := MatchToken(k, s).v.len;
    var first := MatchSpaced(k, last, s).v.len;
    p := TokenIsPiece(k, s);
    SpanFrom(s, token, Space);
    gap := s[token..first];
    forall i | 0 <= i < |gap|
      ensures IsBlank(gap[i])
    { assert gap[i] == s[token + i] && InClass(s[token + i], Space); }
    assert s[..token] + s[token..first] == s[..first];
  }

  lemma SpellsMore(pattern: seq<Token>, p: Piece, gap: string, pieces: seq<Piece>, gaps: seq<string>)
    requires pattern != [] && Spells(pattern[1..], pieces, gaps) && Fits(pattern[0], p) && Blanks(gap) && (|pattern| == 1 ==> gap == "")
    ensures Spells(pattern, [p] + pieces, [gap] + gaps)
    ensures Joined([p] + pieces, [gap] + gaps) == Spelt(p) + gap + Joined(pieces, gaps)
  {
    hide Fits, Blanks;
    forall i | 0 <= i < |pattern|
      ensures Fits(pattern[i], ([p] + pieces)[i]) && Blanks(([gap] + gaps)[i])
    { if i > 0 { assert pattern[i] == pattern[1..][i - 1]; } }
    assert ([p] + pieces)[1..] == pieces && ([gap] + gaps)[1..] == gaps;
  }

  lemma ThreeCuts(s: string, a: nat, n: nat)
    requires a <= n <= |s|
    ensures s[..n] == s[..a] + s[a..][..n - a]
  {
  }

  /** Whatever a pattern matches is a spelling of it. */
  lemma {:induction false} MatchIsSpelling(pattern: seq<Token>, s: string) returns (pieces: seq<Piece>, gaps: seq<string>)
    requires Match(pattern, s).Val?
    ensures Spells(pattern, pieces, gaps) && Joined(pieces, gaps) == s[..Match(pattern, s).v.len]
    decreases |pattern|
  {
    if pattern == [] {
      pieces, gaps := [], [];
    } else {
      hide MatchSpaced, Spells, Joined, Fits, Blanks;
      var first := MatchSpaced(pattern[0], |pattern| == 1, s).v.len;
      var p, gap := SpacedIsPiece(pattern[0], |pattern| == 1, s);
      var ps, gs := MatchIsSpelling(pattern[1..], s[first..]);
      pieces, gaps := [p] + ps, [gap] + gs;
      SpellsMore(pattern, p, gap, ps, gs);
      ThreeCuts(s, first, Match(pattern, s).v.len);
    }
  }

  // ---------------------------------------------------------------- every spelling is matched

  /** The next piece starts with neither white space nor, after a column name, a character of a name. */
  predicate Apart(pattern: seq<Token>, pieces: seq<Piece>)
    requires |pieces| == |pattern|
  {
    (pattern != [] ==> !pattern[|pattern| - 1].Column?) &&
    forall i :: 0 < i < |pattern| ==>
      Spelt(pieces[i]) != "" && !IsBlank(Spelt(pieces[i])[0]) && (pattern[i - 1].Column? ==> !NameChar(Spelt(pieces[i])[0]))
  }

  /** Where the parts of a text lie. */
  lemma Laid(a: string, b: string, c: string, d: string, e: string)
    ensures var s := a + b + c + d + e;
            |s| == |a| + |b| + |c| + |d| + |e| &&
            (forall i :: 0 <= i < |a| ==> s[i] == a[i]) &&
            (forall i :: |a| <= i < |a| + |b| ==> s[i] == b[i - |a|]) &&
            (forall i :: |a| + |b| <= i < |a| + |b| + |c| ==> s[i] == c[i - |a| - |b|]) &&
            (forall i :: |a| + |b| + |c| <= i < |a| + |b| + |c| + |d| ==> s[i] == d[i - |a| - |b| - |c|]) &&
            (forall i :: |a| + |b| + |c| + |d| <= i < |s| ==> s[i] == e[i - |a| - |b| - |c| - |d|])
  {
  }

  lemma SliceIs(s: string, from: nat, t: string)
    requires from + |t| <= |s| && forall i :: from <= i < from + |t| ==> s[i] == t[i - from]
    ensures s[from..from + |t|] == t
  {
  }

  lemma LaidInClasses(c: string, g: string, u: string, e: string)
    requires Numerals(c) && Blanks(g) && Alphas(u)
    ensures var s := "'-" + c + g + u + e;
            var x := 2 + |c|;
            var y := x + |g|;
            var z := y + |u|;
            |s| == z + |e| && s[0] == '\'' && s[1] == '-' &&
            (forall i :: 2 <= i < x ==> InClass(s[i], Digit)) && (forall i :: x <= i < y ==> InClass(s[i], Space)) &&
            (forall i :: y <= i < z ==> InClass(s[i], Letter)) && (forall i :: z <= i < |s| ==> s[i] == e[i - z])
  {
    Laid("'-", c, g, u, e);
    LetterClasses(c, g, u);
  }

  lemma LetterClasses(c: string, g: string, u: string)
    requires Numerals(c) && Blanks(g) && Alphas(u)
    ensures (forall i :: 0 <= i < |c| ==> InClass(c[i], Digit)) && (forall i :: 0 <= i < |g| ==> InClass(g[i], Space))
    ensures forall i :: 0 <= i < |u| ==> InClass(u[i], Letter)
  {
  }

  lemma LaidSlices(c: string, g: string, u: string, e: string)
    ensures var s := "'-" + c + g + u + e;
            |s| == 2 + |c| + |g| + |u| + |e| && s[2..2 + |c|] == c && s[2 + |c| + |g|..2 + |c| + |g| + |u|] == u
  {
    var s := "'-" + c + g + u + e;
    Laid("'-", c, g, u, e);
    SliceIs(s, 2, c);
    SliceIs(s, 2 + |c| + |g|, u);
  }

  lemma AgoFound(s: string, d: nat, g: nat, l: nat)
    requires 2 < d < g < l < |s| && s[0] == '\'' && s[1] == '-' && s[l] == '\''
    requires (forall i :: 2 <= i < d ==> InClass(s[i], Digit)) && (forall i :: d <= i < g ==> InClass(s[i], Space))
    requires forall i :: g <= i < l ==> InClass(s[i], Letter)
    ensures MatchAgo(s).Val? && MatchAgo(s).v.len == l + 1 && MatchAgo(s).v.one == s[2..d] && MatchAgo(s).v.two == s[g..l]
  {
    hide Span;
    assert InClass(s[d], Space) && InClass(s[g], Letter);
    SpanTo(s, 2, Digit, d);
    SpanTo(s, d, Space, g);
    SpanTo(s, g, Letter, l);
    assert s[l..][0] == '\'';
  }

  lemma AgoText(c: string, g: string, u: string, e: string)
    requires Numerals(c) && g != "" && Blanks(g) && Alphas(u) && e != "" && e[0] == '\''
    ensures var m := MatchAgo("'-" + c + g + u + e);
            m.Val? && m.v.len == 3 + |c| + |g| + |u| && m.v.one == c && m.v.two == u
  {
    hide InClass, Blanks, MatchAgo;
    LaidInClasses(c, g, u, e);
    LaidSlices(c, g, u, e);
    AgoFound("'-" + c + g + u + e, 2 + |c|, 2 + |c| + |g|, 2 + |c| + |g| + |u|);
  }

  lemma AgoMatches(p: Piece, rest: string)
    requires Fits(Ago, p)
    ensures var m := MatchAgo(Spelt(p) + rest);
            m.Val? && m.v.len == |Spelt(p)| && m.v.one == p.count && m.v.two == p.unit
  {
    hide MatchAgo, Numerals, Blanks, Alphas;
    Regroup("'-" + p.count + p.gap + p.unit, "'", rest);
    AgoText(p.count, p.gap, p.unit, "'" + rest);
  }

  /** The groups of a match. */
  function Captured(k: Token, p: Piece): (string, string) {
    if p.Name? then (p.name, "") else if p.Since? then (p.count, p.unit) else ("", "")
  }

  lemma TokenMatches(k: Token, p: Piece, rest: string)
    requires Fits(k, p) && (k.Column? && rest != "" ==> !NameChar(rest[0]))
    ensures MatchToken(k, Spelt(p) + rest) == Val(Hit(|Spelt(p)|, Captured(k, p).0, Captured(k, p).1))
  {
    var s := Spelt(p) + rest;
    match k {
      case Ago => AgoMatches(p, rest);
      case Column =>
        var n := |p.name|;
        forall i | 0 <= i < n - 1 ensures InClass(s[1..][i], IdentRest) { assert s[1..][i] == p.name[i + 1]; }
        if rest != "" { assert s[1..][n - 1] == rest[0]; }
        SpanIs(s[1..], IdentRest, n - 1);
        assert s[..n] == p.name;
      case _ => assert s[..|Spelt(p)|] == Spelt(p);
    }
  }

  lemma GapMatches(gap: string, rest: string)
    requires Blanks(gap) && (rest != "" ==> !IsBlank(rest[0]))
    ensures Span(gap + rest, Space) == |gap|
  {
    SpanIs(gap + rest, Space, |gap|);
  }

  lemma SpacedMatches(k: Token, last: bool, p: Piece, gap: string, tail: string)
    requires Fits(k, p) && Blanks(gap) && (last ==> gap == "" && !k.Column?)
    requires !last ==> tail != "" && !IsBlank(tail[0]) && (k.Column? ==> !NameChar(tail[0]))
    ensures MatchSpaced(k, last, Spelt(p) + gap + tail) == Val(Hit(|Spelt(p) + gap|, Captured(k, p).0, Captured(k, p).1))
  {
    hide Fits, MatchToken, Span, Captured;
    var s := Spelt(p) + gap + tail;
    assert s == Spelt(p) + (gap + tail);
    TokenMatches(k, p, gap + tail);
    assert s[|Spelt(p)|..] == gap + tail;
    if !last { GapMatches(gap, tail); }
  }

  lemma TailSpells(pattern: seq<Token>, pieces: seq<Piece>, gaps: seq<string>)
    requires pattern != [] && Spells(pattern, pieces, gaps) && Apart(pattern, pieces)
    ensures Spells(pattern[1..], pieces[1..], gaps[1..]) && Apart(pattern[1..], pieces[1..])
    ensures |pieces[1..]| == |pattern[1..]| == |gaps[1..]| && Joined(pieces, gaps) == Spelt(pieces[0]) + gaps[0] + Joined(pieces[1..], gaps[1..])
  {
    hide Fits, Blanks, Spelt;
    forall i | 0 <= i < |pattern| - 1
      ensures Fits(pattern[1..][i], pieces[1..][i]) && Blanks(gaps[1..][i])
    { assert Fits(pattern[i + 1], pieces[i + 1]); }
  }

  /** The first capturing token of the pattern decides the groups. */
  predicate Groups(pattern: seq<Token>, pieces: seq<Piece>, one: string, two: string)
    requires |pieces| == |pattern|
    decreases |pattern|
  {
    if pattern == [] then one == "" && two == ""
    else if Captures(pattern[0]) then (one, two) == Captured(pattern[0], pieces[0])
    else Groups(pattern[1..], pieces[1..], one, two)
  }

  /** Each spelling is matched in full, whatever follows it. */
  lemma {:induction false} SpellingMatches(pattern: seq<Token>, pieces: seq<Piece>, gaps: seq<string>, rest: string)
    requires |pieces| == |pattern| == |gaps| && Spells(pattern, pieces, gaps) && Apart(pattern, pieces)
    ensures Match(pattern, Joined(pieces, gaps) + rest).Val?
    ensures Match(pattern, Joined(pieces, gaps) + rest).v.len == |Joined(pieces, gaps)|
    ensures var h := Match(pattern, Joined(pieces, gaps) + rest).v; Groups(pattern, pieces, h.one, h.two)
    decreases |pattern|
  {
    hide MatchSpaced, Joined, Captured, Spells, Apart, Match, Spelt;
    if pattern == [] {
      EmptyMatches(pieces, gaps, rest);
    } else {
      TailSpells(pattern, pieces, gaps);
      SpellingMatches(pattern[1..], pieces[1..], gaps[1..], rest);
      FirstMatches(pattern, pieces, gaps, rest);
      DropHead(Spelt(pieces[0]) + gaps[0], Joined(pieces[1..], gaps[1..]), rest);
      MatchSteps(pattern, Joined(pieces, gaps) + rest, Joined(pieces[1..], gaps[1..]) + rest);
    }
  }

  lemma EmptyMatches(pieces: seq<Piece>, gaps: seq<string>, rest: string)
    requires pieces == [] && gaps == []
    ensures Joined(pieces, gaps) == "" && Match([], Joined(pieces, gaps) + rest) == Val(Hit(0, "", ""))
  {
  }

  lemma DropHead(a: string, b: string, c: string)
    ensures (a + b + c)[|a|..] == b + c
  {
  }

  lemma MatchSteps(pattern: seq<Token>, s: string, t: string)
    requires pattern != [] && Match(pattern[1..], t).Val?
    requires var first := MatchSpaced(pattern[0], |pattern| == 1, s); first.Val? && s[first.v.len..] == t
    ensures var first := MatchSpaced(pattern[0], |pattern| == 1, s).v;
            var others := Match(pattern[1..], t).v;
            Match(pattern, s) == Val((if Captures(pattern[0]) then first else others).(len := first.len + others.len))
  {
    hide MatchSpaced;
  }

  lemma FirstMatches(pattern: seq<Token>, pieces: seq<Piece>, gaps: seq<string>, rest: string)
    requires pattern != [] && Spells(pattern, pieces, gaps) && Apart(pattern, pieces)
    ensures MatchSpaced(pattern[0], |pattern| == 1, Joined(pieces, gaps) + rest)
            == Val(Hit(|Spelt(pieces[0]) + gaps[0]|, Captured(pattern[0], pieces[0]).0, Captured(pattern[0], pieces[0]).1))
  {
    hide MatchSpaced, Captured, Fits, Spelt;
    var ps, gs := pieces[1..], gaps[1..];
    var tail := Joined(ps, gs) + rest;
    assert Joined(pieces, gaps) + rest == Spelt(pieces[0]) + gaps[0] + tail;
    assert Fits(pattern[0], pieces[0]);
    if |pattern| > 1 { StartsWith(ps, gs, rest); }
    SpacedMatches(pattern[0], |pattern| == 1, pieces[0], gaps[0], tail);
  }

  lemma StartsWith(pieces: seq<Piece>, gaps: seq<string>, rest: string)
    requires |gaps| == |pieces| && pieces != [] && Spelt(pieces[0]) != ""
    ensures var s := Joined(pieces, gaps) + rest; s != "" && s[0] == Spelt(pieces[0])[0]
  {
  }

  // ---------------------------------------------------------------- what the rules write

  /** A rule replaces a spelling of its pattern by its template and goes on behind it. */
  lemma RuleWrites(r: Rule, tz: PlainText, pieces: seq<Piece>, gaps: seq<string>, rest: string) returns (h: Hit)
    requires |pieces| == |r.pattern| == |gaps| && Spells(r.pattern, pieces, gaps) && Apart(r.pattern, pieces) && Joined(pieces, gaps) != ""
    ensures Groups(r.pattern, pieces, h.one, h.two)
    ensures Replaced(r, tz, Joined(pieces, gaps) + rest) == Render(r.template, h, tz) + Replaced(r, tz, rest)
  {
    hide Spells, Apart, Joined, Match, Groups, Render;
    var s := Joined(pieces, gaps) + rest;
    SpellingMatches(r.pattern, pieces, gaps, rest);
    h := Match(r.pattern, s).v;
    NextPiece(r, tz, s);
    assert s[|Joined(pieces, gaps)|..] == rest;
  }

  /** The texts of a list, one after the other. */
  function Concat(parts: seq<string>): string
    decreases |parts|
  {
    if parts == [] then "" else parts[0] + Concat(parts[1..])
  }

  /** The texts of a template's parts. */
  function Parts(template: seq<Part>, h: Hit, tz: PlainText): seq<string> {
    seq(|template|, i requires 0 <= i < |template| => RenderPart(template[i], h, tz))
  }

  lemma {:induction false} RenderIsConcat(template: seq<Part>, h: Hit, tz: PlainText)
    ensures Render(template, h, tz) == Concat(Parts(template, h, tz))
    decreases |template|
  {
    if template != [] {
      RenderIsConcat(template[1..], h, tz);
      assert Parts(template, h, tz)[1..] == Parts(template[1..], h, tz);
    }
  }

  /** The groups are those of the first token that captures. */
  lemma {:induction false} GroupsAre(pattern: seq<Token>, pieces: seq<Piece>, one: string, two: string, i: nat)
    requires |pieces| == |pattern| && Groups(pattern, pieces, one, two) && i < |pattern| && Captures(pattern[i])
    requires forall k :: 0 <= k < i ==> !Captures(pattern[k])
    ensures (one, two) == Captured(pattern[i], pieces[i])
    decreases i
  {
    if i > 0 { GroupsAre(pattern[1..], pieces[1..], one, two, i - 1); }
  }

  lemma DaysParamApart()
    ensures var pieces := [Fixed("datetime("), Fixed("'" + "now" + "'"), Fixed(","), Fixed("'" + "-" + "'"), Fixed("||"),
                           Fixed("?"), Fixed("||"), Fixed("'" + " days" + "'"), Fixed(")")];
            |pieces| == |DatetimeDaysParam().pattern| && Apart(DatetimeDaysParam().pattern, pieces)
  {
  }

  lemma DaysParamSpelt(g0: string, g1: string, g2: string, g3: string, g4: string, g5: string, g6: string, g7: string)
    requires Blanks(g0) && Blanks(g1) && Blanks(g2) && Blanks(g3) && Blanks(g4) && Blanks(g5) && Blanks(g6) && Blanks(g7)
    ensures var pieces := [Fixed("datetime("), Fixed("'" + "now" + "'"), Fixed(","), Fixed("'" + "-" + "'"), Fixed("||"),
                           Fixed("?"), Fixed("||"), Fixed("'" + " days" + "'"), Fixed(")")];
            var gaps := [g0, g1, g2, g3, g4, g5, g6, g7, ""];
            |pieces| == |DatetimeDaysParam().pattern| && Spells(DatetimeDaysParam().pattern, pieces, gaps) && Apart(DatetimeDaysParam().pattern, pieces)
  {
    hide Apart, Blanks;
    DaysParamApart();
    BlankNothing();
  }

  lemma BlankNothing()
    ensures Blanks("")
  {
  }

  lemma DaysParamRendered(h: Hit, tz: PlainText)
    ensures Parts(DatetimeDaysParam().template, h, tz) ==
            ["to_char((now() - " + "make_interval(days => (", "?", ")::int)) AT TIME ZONE ", "'" + "utc" + "'", ", ",
             "'" + "YYYY-MM-DD HH24:MI:SS" + "'", ")"]
  {
  }

  /** `datetime('now', '-' || ? || ' days')`: that many days ago; the parameter stays where it was. */
  lemma DaysParamWrites(tz: PlainText, g0: string, g1: string, g2: string, g3: string, g4: string, g5: string, g6: string, g7: string, rest: string)
    requires Blanks(g0) && Blanks(g1) && Blanks(g2) && Blanks(g3) && Blanks(g4) && Blanks(g5) && Blanks(g6) && Blanks(g7)
    ensures var query := Joined([Fixed("datetime("), Fixed("'" + "now" + "'"), Fixed(","), Fixed("'" + "-" + "'"),
                                 Fixed("||"), Fixed("?"), Fixed("||"), Fixed("'" + " days" + "'"), Fixed(")")],
                                [g0, g1, g2, g3, g4, g5, g6, g7, ""]);
            Replaced(DatetimeDaysParam(), tz, query + rest) ==
            Concat(["to_char((now() - " + "make_interval(days => (", "?", ")::int)) AT TIME ZONE ", "'" + "utc" + "'",
                    ", ", "'" + "YYYY-MM-DD HH24:MI:SS" + "'", ")"]) + Replaced(DatetimeDaysParam(), tz, rest)
  {
    hide Spells, Apart, Replaced, Render, Concat, Fits, Blanks;
    var pieces := [Fixed("datetime("), Fixed("'" + "now" + "'"), Fixed(","), Fixed("'" + "-" + "'"), Fixed("||"),
                   Fixed("?"), Fixed("||"), Fixed("'" + " days" + "'"), Fixed(")")];
    DaysParamSpelt(g0, g1, g2, g3, g4, g5, g6, g7);
    var h := RuleWrites(DatetimeDaysParam(), tz, pieces, [g0, g1, g2, g3, g4, g5, g6, g7, ""], rest);
    DaysParamRendered(h, tz);
    RenderIsConcat(DatetimeDaysParam().template, h, tz);
  }

  lemma LiteralSpelt(count: string, space: string, unit: string, g0: string, g1: string, g2: string, g3: string)
    requires Blanks(g0) && Blanks(g1) && Blanks(g2) && Blanks(g3)
    requires Numerals(count) && space != "" && Blanks(space) && Alphas(unit)
    ensures var pieces := [Fixed("datetime("), Fixed("'" + "now" + "'"), Fixed(","), Since(count, space, unit),
                           Fixed(")")];
            var gaps := [g0, g1, g2, g3, ""];
            |pieces| == |DatetimeLiteral().pattern| && Spells(DatetimeLiteral().pattern, pieces, gaps) && Apart(DatetimeLiteral().pattern, pieces)
  {
  }

  lemma LiteralRendered(h: Hit, tz: PlainText, count: string, unit: string)
    requires h.one == count && h.two == unit
    ensures Parts(DatetimeLiteral().template, h, tz) ==
            ["to_char((now() - interval ", "'" + (count + " " + unit) + "'", ") AT TIME ZONE ", "'" + "utc" + "'", ", ",
             "'" + "YYYY-MM-DD HH24:MI:SS" + "'", ")"]
  {
  }

  /** `datetime('now', '-24 hours')`: the literal interval ago. */
  lemma LiteralWrites(tz: PlainText, count: string, space: string, unit: string, g0: string, g1: string, g2: string, g3: string, rest: string)
    requires Blanks(g0) && Blanks(g1) && Blanks(g2) && Blanks(g3)
    requires Numerals(count) && space != "" && Blanks(space) && Alphas(unit)
    ensures var query := Joined([Fixed("datetime("), Fixed("'" + "now" + "'"), Fixed(","), Since(count, space, unit),
                                 Fixed(")")],
                                [g0, g1, g2, g3, ""]);
            Replaced(DatetimeLiteral(), tz, query + rest) ==
            Concat(["to_char((now() - interval ", "'" + (count + " " + unit) + "'", ") AT TIME ZONE ", "'" + "utc" + "'",
                    ", ", "'" + "YYYY-MM-DD HH24:MI:SS" + "'", ")"]) + Replaced(DatetimeLiteral(), tz, rest)
  {
    hide Spells, Apart, Replaced, Render, Concat, Fits, Blanks;
    var pieces := [Fixed("datetime("), Fixed("'" + "now" + "'"), Fixed(","), Since(count, space, unit), Fixed(")")];
    LiteralSpelt(count, space, unit, g0, g1, g2, g3);
    var h := RuleWrites(DatetimeLiteral(), tz, pieces, [g0, g1, g2, g3, ""], rest);
    GroupsAre(DatetimeLiteral().pattern, pieces, h.one, h.two, 3);
    LiteralRendered(h, tz, count, unit);
    RenderIsConcat(DatetimeLiteral().template, h, tz);
  }

  lemma ParamSpelt(g0: string, g1: string, g2: string, g3: string)
    requires Blanks(g0) && Blanks(g1) && Blanks(g2) && Blanks(g3)
    ensures var pieces := [Fixed("datetime("), Fixed("'" + "now" + "'"), Fixed(","), Fixed("?"), Fixed(")")];
            var gaps := [g0, g1, g2, g3, ""];
            |pieces| == |DatetimeParam().pattern| && Spells(DatetimeParam().pattern, pieces, gaps) && Apart(DatetimeParam().pattern, pieces)
  {
  }

  lemma ParamRendered(h: Hit, tz: PlainText)
    ensures Parts(DatetimeParam().template, h, tz) ==
            ["to_char((now() + (", "?", ")::interval) AT TIME ZONE ", "'" + "utc" + "'", ", ",
             "'" + "YYYY-MM-DD HH24:MI:SS" + "'", ")"]
  {
  }

  /** `datetime('now', ?)`: the interval that the parameter holds, from now. */
  lemma ParamWrites(tz: PlainText, g0: string, g1: string, g2: string, g3: string, rest: string)
    requires Blanks(g0) && Blanks(g1) && Blanks(g2) && Blanks(g3)
    ensures var query := Joined([Fixed("datetime("), Fixed("'" + "now" + "'"), Fixed(","), Fixed("?"), Fixed(")")],
                                [g0, g1, g2, g3, ""]);
            Replaced(DatetimeParam(), tz, query + rest) ==
            Concat(["to_char((now() + (", "?", ")::interval) AT TIME ZONE ", "'" + "utc" + "'", ", ",
                    "'" + "YYYY-MM-DD HH24:MI:SS" + "'", ")"]) + Replaced(DatetimeParam(), tz, rest)
  {
    hide Spells, Apart, Replaced, Render, Concat, Fits, Blanks;
    var pieces := [Fixed("datetime("), Fixed("'" + "now" + "'"), Fixed(","), Fixed("?"), Fixed(")")];
    ParamSpelt(g0, g1, g2, g3);
    var h := RuleWrites(DatetimeParam(), tz, pieces, [g0, g1, g2, g3, ""], rest);
    ParamRendered(h, tz);
    RenderIsConcat(DatetimeParam().template, h, tz);
  }

  lemma NowSpelt(g0: string, g1: string)
    requires Blanks(g0) && Blanks(g1)
    ensures var pieces := [Fixed("datetime("), Fixed("'" + "now" + "'"), Fixed(")")];
            var gaps := [g0, g1, ""];
            |pieces| == |DatetimeNow().pattern| && Spells(DatetimeNow().pattern, pieces, gaps) && Apart(DatetimeNow().pattern, pieces)
  {
  }

  lemma NowRendered(h: Hit, tz: PlainText)
    ensures Parts(DatetimeNow().template, h, tz) ==
            ["to_char((now() AT TIME ZONE ", "'" + "utc" + "'", "), ", "'" + "YYYY-MM-DD HH24:MI:SS" + "'", ")"]
  {
  }

  /** `datetime('now')`: the current time in UTC. */
  lemma NowWrites(tz: PlainText, g0: string, g1: string, rest: string)
    requires Blanks(g0) && Blanks(g1)
    ensures var query := Joined([Fixed("datetime("), Fixed("'" + "now" + "'"), Fixed(")")],
                                [g0, g1, ""]);
            Replaced(DatetimeNow(), tz, query + rest) ==
            Concat(["to_char((now() AT TIME ZONE ", "'" + "utc" + "'", "), ", "'" + "YYYY-MM-DD HH24:MI:SS" + "'", ")"]) + Replaced(DatetimeNow(), tz, rest)
  {
    hide Spells, Apart, Replaced, Render, Concat, Fits, Blanks;
    var pieces := [Fixed("datetime("), Fixed("'" + "now" + "'"), Fixed(")")];
    NowSpelt(g0, g1);
    var h := RuleWrites(DatetimeNow(), tz, pieces, [g0, g1, ""], rest);
    NowRendered(h, tz);
    RenderIsConcat(DatetimeNow().template, h, tz);
  }

  lemma TodaySpelt(zoned: bool, g0: string, g1: string, g2: string, g3: string)
    requires Blanks(g0) && Blanks(g1) && Blanks(g2) && Blanks(g3)
    ensures var pieces := [Fixed("date("), Fixed("'" + "now" + "'"), Fixed(","), Fixed("'" + "localtime" + "'"),
                           Fixed(")")];
            var gaps := [g0, g1, g2, g3, ""];
            |pieces| == |DateLocaltime(zoned).pattern| && Spells(DateLocaltime(zoned).pattern, pieces, gaps) && Apart(DateLocaltime(zoned).pattern, pieces)
  {
  }

  lemma TodayRendered(h: Hit, tz: PlainText)
    ensures Parts(DateLocaltime(false).template, h, tz) ==
            ["to_char(now(), ", "'" + "YYYY-MM-DD" + "'", ")"]
  {
  }

  /** `date('now', 'localtime')` without a time zone: today where the database is. */
  lemma TodayWrites(tz: PlainText, g0: string, g1: string, g2: string, g3: string, rest: string)
    requires Blanks(g0) && Blanks(g1) && Blanks(g2) && Blanks(g3)
    ensures var query := Joined([Fixed("date("), Fixed("'" + "now" + "'"), Fixed(","), Fixed("'" + "localtime" + "'"),
                                 Fixed(")")],
                                [g0, g1, g2, g3, ""]);
            Replaced(DateLocaltime(false), tz, query + rest) ==
            Concat(["to_char(now(), ", "'" + "YYYY-MM-DD" + "'", ")"]) + Replaced(DateLocaltime(false), tz, rest)
  {
    hide Spells, Apart, Replaced, Render, Concat, Fits, Blanks;
    var pieces := [Fixed("date("), Fixed("'" + "now" + "'"), Fixed(","), Fixed("'" + "localtime" + "'"), Fixed(")")];
    TodaySpelt(false, g0, g1, g2, g3);
    var h := RuleWrites(DateLocaltime(false), tz, pieces, [g0, g1, g2, g3, ""], rest);
    TodayRendered(h, tz);
    RenderIsConcat(DateLocaltime(false).template, h, tz);
  }

  lemma TodayInZoneRendered(h: Hit, tz: PlainText)
    ensures Parts(DateLocaltime(true).template, h, tz) ==
            ["to_char(now() AT TIME ZONE ", "'" + tz + "'", ", ", "'" + "YYYY-MM-DD" + "'", ")"]
  {
  }

  /** And with one: today in the zone. */
  lemma TodayInZoneWrites(tz: PlainText, g0: string, g1: string, g2: string, g3: string, rest: string)
    requires Blanks(g0) && Blanks(g1) && Blanks(g2) && Blanks(g3)
    ensures var query := Joined([Fixed("date("), Fixed("'" + "now" + "'"), Fixed(","), Fixed("'" + "localtime" + "'"),
                                 Fixed(")")],
                                [g0, g1, g2, g3, ""]);
            Replaced(DateLocaltime(true), tz, query + rest) ==
            Concat(["to_char(now() AT TIME ZONE ", "'" + tz + "'", ", ", "'" + "YYYY-MM-DD" + "'", ")"]) + Replaced(DateLocaltime(true), tz, rest)
  {
    hide Spells, Apart, Replaced, Render, Concat, Fits, Blanks;
    var pieces := [Fixed("date("), Fixed("'" + "now" + "'"), Fixed(","), Fixed("'" + "localtime" + "'"), Fixed(")")];
    TodaySpelt(true, g0, g1, g2, g3);
    var h := RuleWrites(DateLocaltime(true), tz, pieces, [g0, g1, g2, g3, ""], rest);
    TodayInZoneRendered(h, tz);
    RenderIsConcat(DateLocaltime(true).template, h, tz);
  }

  lemma DaySpelt(zoned: bool, column: string, g0: string, g1: string, g2: string, g3: string)
    requires Blanks(g0) && Blanks(g1) && Blanks(g2) && Blanks(g3)
    requires IsName(column)
    ensures var pieces := [Fixed("date("), Name(column), Fixed(","), Fixed("'" + "localtime" + "'"), Fixed(")")];
            var gaps := [g0, g1, g2, g3, ""];
            |pieces| == |DateColumnLocaltime(zoned).pattern| && Spells(DateColumnLocaltime(zoned).pattern, pieces, gaps) && Apart(DateColumnLocaltime(zoned).pattern, pieces)
  {
  }

  lemma DayRendered(h: Hit, tz: PlainText, column: string)
    requires h.one == column
    ensures Parts(DateColumnLocaltime(false).template, h, tz) ==
            ["to_char((", column, ")::timestamp, ", "'" + "YYYY-MM-DD" + "'", ")"]
  {
  }

  /** `date(column, 'localtime')` without a time zone: the stored day. */
  lemma DayWrites(tz: PlainText, column: string, g0: string, g1: string, g2: string, g3: string, rest: string)
    requires Blanks(g0) && Blanks(g1) && Blanks(g2) && Blanks(g3)
    requires IsName(column)
    ensures var query := Joined([Fixed("date("), Name(column), Fixed(","), Fixed("'" + "localtime" + "'"), Fixed(")")],
                                [g0, g1, g2, g3, ""]);
            Replaced(DateColumnLocaltime(false), tz, query + rest) ==
            Concat(["to_char((", column, ")::timestamp, ", "'" + "YYYY-MM-DD" + "'", ")"]) + Replaced(DateColumnLocaltime(false), tz, rest)
  {
    hide Spells, Apart, Replaced, Render, Concat, Fits, Blanks;
    var pieces := [Fixed("date("), Name(column), Fixed(","), Fixed("'" + "localtime" + "'"), Fixed(")")];
    DaySpelt(false, column, g0, g1, g2, g3);
    var h := RuleWrites(DateColumnLocaltime(false), tz, pieces, [g0, g1, g2, g3, ""], rest);
    GroupsAre(DateColumnLocaltime(false).pattern, pieces, h.one, h.two, 1);
    DayRendered(h, tz, column);
    RenderIsConcat(DateColumnLocaltime(false).template, h, tz);
  }

  lemma DayInZoneRendered(h: Hit, tz: PlainText, column: string)
    requires h.one == column
    ensures Parts(DateColumnLocaltime(true).template, h, tz) ==
            ["to_char(((", column, ")::timestamp AT TIME ZONE ", "'" + "UTC" + "'", ") AT TIME ZONE ", "'" + tz + "'",
             ", ", "'" + "YYYY-MM-DD" + "'", ")"]
  {
  }

  /** And with one: the stored time, taken as UTC, in the zone. */
  lemma DayInZoneWrites(tz: PlainText, column: string, g0: string, g1: string, g2: string, g3: string, rest: string)
    requires Blanks(g0) && Blanks(g1) && Blanks(g2) && Blanks(g3)
    requires IsName(column)
    ensures var query := Joined([Fixed("date("), Name(column), Fixed(","), Fixed("'" + "localtime" + "'"), Fixed(")")],
                                [g0, g1, g2, g3, ""]);
            Replaced(DateColumnLocaltime(true), tz, query + rest) ==
            Concat(["to_char(((", column, ")::timestamp AT TIME ZONE ", "'" + "UTC" + "'", ") AT TIME ZONE ",
                    "'" + tz + "'", ", ", "'" + "YYYY-MM-DD" + "'", ")"]) + Replaced(DateColumnLocaltime(true), tz, rest)
  {
    hide Spells, Apart, Replaced, Render, Concat, Fits, Blanks;
    var pieces := [Fixed("date("), Name(column), Fixed(","), Fixed("'" + "localtime" + "'"), Fixed(")")];
    DaySpelt(true, column, g0, g1, g2, g3);
    var h := RuleWrites(DateColumnLocaltime(true), tz, pieces, [g0, g1, g2, g3, ""], rest);
    GroupsAre(DateColumnLocaltime(true).pattern, pieces, h.one, h.two, 1);
    DayInZoneRendered(h, tz, column);
    RenderIsConcat(DateColumnLocaltime(true).template, h, tz);
  }

  lemma JulianTodaySpelt(g0: string, g1: string)
    requires Blanks(g0) && Blanks(g1)
    ensures var pieces := [Fixed("julianday("), Fixed("'" + "now" + "'"), Fixed(")")];
            var gaps := [g0, g1, ""];
            |pieces| == |JulianNow().pattern| && Spells(JulianNow().pattern, pieces, gaps) && Apart(JulianNow().pattern, pieces)
  {
  }

  lemma JulianTodayRendered(h: Hit, tz: PlainText)
    ensures Parts(JulianNow().template, h, tz) ==
            ["(extract(epoch from " + "now()) / 86400.0)"]
  {
  }

  /** `julianday('now')`: now in days. */
  lemma JulianTodayWrites(tz: PlainText, g0: string, g1: string, rest: string)
    requires Blanks(g0) && Blanks(g1)
    ensures var query := Joined([Fixed("julianday("), Fixed("'" + "now" + "'"), Fixed(")")],
                                [g0, g1, ""]);
            Replaced(JulianNow(), tz, query + rest) ==
            Concat(["(extract(epoch from " + "now()) / 86400.0)"]) + Replaced(JulianNow(), tz, rest)
  {
    hide Spells, Apart, Replaced, Render, Concat, Fits, Blanks;
    var pieces := [Fixed("julianday("), Fixed("'" + "now" + "'"), Fixed(")")];
    JulianTodaySpelt(g0, g1);
    var h := RuleWrites(JulianNow(), tz, pieces, [g0, g1, ""], rest);
    JulianTodayRendered(h, tz);
    RenderIsConcat(JulianNow().template, h, tz);
  }

  lemma JulianDaySpelt(column: string, g0: string, g1: string)
    requires Blanks(g0) && Blanks(g1)
    requires IsName(column)
    ensures var pieces := [Fixed("julianday("), Name(column), Fixed(")")];
            var gaps := [g0, g1, ""];
            |pieces| == |JulianColumn().pattern| && Spells(JulianColumn().pattern, pieces, gaps) && Apart(JulianColumn().pattern, pieces)
  {
  }

  lemma JulianDayRendered(h: Hit, tz: PlainText, column: string)
    requires h.one == column
    ensures Parts(JulianColumn().template, h, tz) ==
            ["(extract(epoch from " + "(CASE WHEN ", column, " ~ ", "'" + "^[0-9]{4}-[0-9]{2}-[0-9]{2}" + "'", " THEN ",
             column, " ELSE NULL END)" + "::timestamptz) / 86400.0)"]
  {
  }

  /** `julianday(column)`: the column in days, or nothing for a text that does not look like a date. */
  lemma JulianDayWrites(tz: PlainText, column: string, g0: string, g1: string, rest: string)
    requires Blanks(g0) && Blanks(g1)
    requires IsName(column)
    ensures var query := Joined([Fixed("julianday("), Name(column), Fixed(")")],
                                [g0, g1, ""]);
            Replaced(JulianColumn(), tz, query + rest) ==
            Concat(["(extract(epoch from " + "(CASE WHEN ", column, " ~ ", "'" + "^[0-9]{4}-[0-9]{2}-[0-9]{2}" + "'",
                    " THEN ", column, " ELSE NULL END)" + "::timestamptz) / 86400.0)"]) + Replaced(JulianColumn(), tz, rest)
  {
    hide Spells, Apart, Replaced, Render, Concat, Fits, Blanks;
    var pieces := [Fixed("julianday("), Name(column), Fixed(")")];
    JulianDaySpelt(column, g0, g1);
    var h := RuleWrites(JulianColumn(), tz, pieces, [g0, g1, ""], rest);
    GroupsAre(JulianColumn().pattern, pieces, h.one, h.two, 1);
    JulianDayRendered(h, tz, column);
    RenderIsConcat(JulianColumn().template, h, tz);
  }

  // ---------------------------------------------------------------- the rules in their order

  /** The rules one after the other. */
  function ApplyAll(rules: seq<Rule>, tz: PlainText, s: string): string
    decreases |rules|
  {
    if rules == [] then s else ApplyAll(rules[1..], tz, Replaced(rules[0], tz, s))
  }

  lemma ApplyOne(r: Rule, rules: seq<Rule>, tz: PlainText, s: string)
    ensures ApplyAll([r] + rules, tz, s) == ApplyAll(rules, tz, Replaced(r, tz, s))
  {
    assert ([r] + rules)[1..] == rules;
  }

  /** Eight rules in this order, with the zone where one is set, and then the INSERT OR IGNORE step. */
  lemma RulesInOrder(tz: PlainText, query: string)
    ensures var today := if tz != "" then DateLocaltime(true) else DateLocaltime(false);
            var day := if tz != "" then DateColumnLocaltime(true) else DateColumnLocaltime(false);
            Translated(tz, query) ==
            OnConflict(ApplyAll([DatetimeDaysParam(), DatetimeLiteral(), DatetimeParam(), DatetimeNow(), today, day, JulianNow(), JulianColumn()],
                                tz, query))
  {
    hide Replaced, OnConflict, DatetimeDaysParam, DatetimeLiteral, DatetimeParam, DatetimeNow, DateLocaltime, DateColumnLocaltime, JulianNow, JulianColumn;
    var today, day := DateLocaltime(tz != ""), DateColumnLocaltime(tz != "");
    var s1 := Replaced(DatetimeDaysParam(), tz, query);
    var s2 := Replaced(DatetimeLiteral(), tz, s1);
    var s3 := Replaced(DatetimeParam(), tz, s2);
    var s4 := Replaced(DatetimeNow(), tz, s3);
    var s5 := Replaced(today, tz, s4);
    var s6 := Replaced(day, tz, s5);
    var s7 := Replaced(JulianNow(), tz, s6);
    var rest := [JulianColumn()];
    ApplyOne(JulianColumn(), [], tz, s7);
    assert [JulianColumn()] + [] == rest;
    ApplyOne(JulianNow(), rest, tz, s6);
    ApplyOne(day, [JulianNow()] + rest, tz, s5);
    ApplyOne(today, [day, JulianNow()] + rest, tz, s4);
    ApplyOne(DatetimeNow(), [today, day, JulianNow()] + rest, tz, s3);
    ApplyOne(DatetimeParam(), [DatetimeNow(), today, day, JulianNow()] + rest, tz, s2);
    ApplyOne(DatetimeLiteral(), [DatetimeParam(), DatetimeNow(), today, day, JulianNow()] + rest, tz, s1);
    ApplyOne(DatetimeDaysParam(), [DatetimeLiteral(), DatetimeParam(), DatetimeNow(), today, day, JulianNow()] + rest, tz, query);
    OrderedList(DatetimeDaysParam(), DatetimeLiteral(), DatetimeParam(), DatetimeNow(), today, day, JulianNow(), JulianColumn());
  }

  lemma OrderedList(a: Rule, b: Rule, c: Rule, d: Rule, e: Rule, f: Rule, g: Rule, h: Rule)
    ensures [g] + [h] == [g, h] && [f] + ([g] + [h]) == [f, g] + [h] && [e] + ([f, g] + [h]) == [e, f, g] + [h]
    ensures [d] + ([e, f, g] + [h]) == [d, e, f, g] + [h] && [c] + ([d, e, f, g] + [h]) == [c, d, e, f, g] + [h]
    ensures [b] + ([c, d, e, f, g] + [h]) == [b, c, d, e, f, g] + [h]
    ensures [a] + ([b, c, d, e, f, g] + [h]) == [a, b, c, d, e, f, g, h]
  {
  }

  // ---------------------------------------------------------------- INSERT OR IGNORE

  /** The text starts at no position before `end`. */
  predicate NotBefore(s: string, t: string, end: nat)
    requires end <= |s| + 1
  {
    forall i :: 0 <= i < end ==> !(t <= s[i..])
  }

  lemma {:induction false} IndexOfIs(s: string, t: string, at: nat)
    requires at <= |s| && t <= s[at..] && NotBefore(s, t, at)
    ensures IndexOf(s, t) == Val(at)
  {
    if at > 0 {
      assert s[0..] == s;
      assert s[1..][at - 1..] == s[at..];
      forall i | 0 <= i < at - 1 ensures !(t <= s[1..][i..]) { assert s[1..][i..] == s[i + 1..]; }
      IndexOfIs(s[1..], t, at - 1);
    }
  }

  lemma {:induction false} IndexOfNone(s: string, t: string)
    requires NotBefore(s, t, |s| + 1)
    ensures IndexOf(s, t).Null?
  {
    assert s[0..] == s;
    if s != "" {
      forall i | 0 <= i < |s| ensures !(t <= s[1..][i..]) { assert s[1..][i..] == s[i + 1..]; }
      IndexOfNone(s[1..], t);
    }
  }

  lemma {:induction false} TrimIs(t: string, blanks: string)
    requires t != "" ==> t[|t| - 1] != ' ' && t[|t| - 1] != '\t' && t[|t| - 1] != '\n'
    requires forall i :: 0 <= i < |blanks| ==> blanks[i] == ' ' || blanks[i] == '\t' || blanks[i] == '\n'
    ensures TrimRight(t + blanks) == t
  {
    if blanks == "" {
      assert t + blanks == t;
    } else {
      var n := |blanks| - 1;
      assert (t + blanks)[|t + blanks| - 1] == blanks[n];
      assert (t + blanks)[..|t + blanks| - 1] == t + blanks[..n];
      TrimIs(t, blanks[..n]);
    }
  }

  /** A query without INSERT OR IGNORE is left alone. */
  lemma NoInsertKept(s: string)
    requires NotBefore(s, "INSERT OR IGNORE", |s| + 1)
    ensures OnConflict(s) == s
  {
    IndexOfNone(s, "INSERT OR IGNORE");
  }

  /** The first INSERT OR IGNORE becomes INSERT, and the clause goes behind the query without its trailing blanks. */
  lemma InsertWrites(a: string, b: string, t: string, blanks: string)
    requires NotBefore(a + "INSERT OR IGNORE" + b, "INSERT OR IGNORE", |a|)
    requires a + "INSERT" + b == t + blanks
    requires t != "" ==> t[|t| - 1] != ' ' && t[|t| - 1] != '\t' && t[|t| - 1] != '\n'
    requires forall i :: 0 <= i < |blanks| ==> blanks[i] == ' ' || blanks[i] == '\t' || blanks[i] == '\n'
    ensures OnConflict(a + "INSERT OR IGNORE" + b) == t + " ON CONFLICT DO NOTHING"
  {
    hide IndexOf, TrimRight;
    var s := a + INSERT_OR_IGNORE + b;
    DropHead(a, INSERT_OR_IGNORE, b);
    IndexOfIs(s, INSERT_OR_IGNORE, |a|);
    assert s[..|a|] == a && s[|a| + |INSERT_OR_IGNORE|..] == b;
    TrimIs(t, blanks);
  }
}
