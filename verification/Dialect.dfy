/** The SQL rewriter of dialect.go: the SQLite-to-Postgres rules, and what each keeps of a query. */
module Dialect {
  import opened Sql

  // ---------------------------------------------------------------- quotes and parameters

  function AfterChar(c: char, quoted: bool): bool { if c == '\'' then !quoted else quoted }

  predicate IsParam(c: char, quoted: bool) { c == '?' && !quoted }

  /** How many `?` outside single quotes, when the text starts inside (`quoted`) or outside of a quote. */
  function Params(s: string, quoted: bool): nat {
    if s == [] then 0 else (if IsParam(s[0], quoted) then 1 else 0) + Params(s[1..], AfterChar(s[0], quoted))
  }

  /** Whether the text ends inside a quote. */
  function EndsQuoted(s: string, quoted: bool): bool {
    if s == [] then quoted else EndsQuoted(s[1..], AfterChar(s[0], quoted))
  }

  lemma {:induction false} ScanAppend(a: string, b: string, quoted: bool)
    ensures Params(a + b, quoted) == Params(a, quoted) + Params(b, EndsQuoted(a, quoted))
    ensures EndsQuoted(a + b, quoted) == EndsQuoted(b, EndsQuoted(a, quoted))
  {
    if a == [] {
      assert a + b == b;
    } else {
      ScanAppend(a[1..], b, AfterChar(a[0], quoted));
      assert (a + b)[1..] == a[1..] + b;
    }
  }

  predicate PlainChar(c: char) { c != '\'' && c != '?' }
  predicate Plain(s: string) { forall i :: 0 <= i < |s| ==> PlainChar(s[i]) }

  /** The literal texts of the rules, and the configured time zone. */
  type PlainText = s: string | Plain(s) witness ""

  lemma {:induction false} PlainScan(s: string, quoted: bool)
    requires Plain(s)
    ensures Params(s, quoted) == 0 && EndsQuoted(s, quoted) == quoted
  {
    if s != [] { PlainScan(s[1..], quoted); }
  }

  /** A balanced text ends in the quote state in which it started; `n` is its number of parameters outside of quotes. */
  predicate Balanced(s: string, n: nat) {
    forall q: bool :: Params(s, q) == (if q then 0 else n) && EndsQuoted(s, q) == q
  }

  lemma BalancedAppend(a: string, m: nat, b: string, n: nat)
    requires Balanced(a, m) && Balanced(b, n)
    ensures Balanced(a + b, m + n)
  {
    forall q: bool
      ensures Params(a + b, q) == (if q then 0 else m + n) && EndsQuoted(a + b, q) == q
    { ScanAppend(a, b, q); }
  }

  lemma PlainBalanced(s: string)
    requires Plain(s)
    ensures Balanced(s, 0)
  {
    forall q: bool
      ensures Params(s, q) == 0 && EndsQuoted(s, q) == q
    { PlainScan(s, q); }
  }

  function InQuotes(t: string): string { "'" + t + "'" }

  lemma QuotedBalanced(t: string)
    requires Plain(t)
    ensures Balanced(InQuotes(t), 0)
  {
    forall q: bool
      ensures Params(InQuotes(t), q) == 0 && EndsQuoted(InQuotes(t), q) == q
    {
      PlainScan(t, !q);
      ScanAppend("'", t, q);
      ScanAppend("'" + t, "'", q);
    }
  }

  // ---------------------------------------------------------------- the regular expressions

  datatype Class = Space | Digit | Letter | IdentStart | IdentRest

  predicate InClass(c: char, cl: Class)
    ensures InClass(c, cl) ==> PlainChar(c)
  {
    match cl
    case Space => c == ' ' || c == '\t' || c == '\n' || c == '\r' || c == '\U{C}'
    case Digit => '0' <= c <= '9'
    case Letter => 'a' <= c <= 'z' || 'A' <= c <= 'Z'
    case IdentStart => 'a' <= c <= 'z' || 'A' <= c <= 'Z' || c == '_'
    case IdentRest => 'a' <= c <= 'z' || 'A' <= c <= 'Z' || '0' <= c <= '9' || c == '_' || c == '.'
  }

  /** The length of the longest prefix in a class. */
  function Span(s: string, cl: Class): (n: nat)
    ensures n <= |s| && Plain(s[..n])
  {
    if s == [] || !InClass(s[0], cl) then 0 else 1 + Span(s[1..], cl)
  }

  /** A match: its length and what its groups captured. */
  datatype Hit = Hit(len: nat, one: PlainText, two: PlainText)

  /**
   * The tokens of the patterns, between which any white space may stand: literal text, quoted text, a parameter,
   * a captured column name, and a captured interval `'-<digits> <letters>'`.
   */
  datatype Token = Text(t: PlainText) | Quoted(t: PlainText) | Param | Column | Ago

  predicate Captures(k: Token) { k.Column? || k.Ago? }

  function MatchColumn(s: string): (r: Opt<Hit>)
    ensures r.Val? ==> r.v.len <= |s|
  {
    if s != [] && InClass(s[0], IdentStart) then
      var n := Span(s[1..], IdentRest);
      assert s[..n + 1] == [s[0]] + s[1..][..n];
      Val(Hit(n + 1, s[..n + 1], ""))
    else Null
  }

  /** `'-(\d+)\s+([a-zA-Z]+)'`. After each class comes a character outside of it, so the greedy match is the only one. */
  function MatchAgo(s: string): (r: Opt<Hit>)
    ensures r.Val? ==> r.v.len <= |s|
  {
    if !("'-" <= s) then Null
    else
      var d := 2 + Span(s[2..], Digit);
      var g := d + Span(s[d..], Space);
      var l := g + Span(s[g..], Letter);
      assert s[2..d] == s[2..][..d - 2] && s[g..l] == s[g..][..l - g];
      if d > 2 && g > d && l > g && "'" <= s[l..] then Val(Hit(l + 1, s[2..d], s[g..l])) else Null
  }

  function MatchToken(k: Token, s: string): (r: Opt<Hit>)
    ensures r.Val? ==> r.v.len <= |s|
  {
    match k
    case Text(t) => if t <= s then Val(Hit(|t|, "", "")) else Null
    case Quoted(t) => if InQuotes(t) <= s then Val(Hit(|t| + 2, "", "")) else Null
    case Param => if "?" <= s then Val(Hit(1, "", "")) else Null
    case Column => MatchColumn(s)
    case Ago => MatchAgo(s)
  }

  /** A token and, unless it is the last one, the white space after it. */
  function MatchSpaced(k: Token, last: bool, s: string): (r: Opt<Hit>)
    ensures r.Val? ==> r.v.len <= |s|
  {
    var r := MatchToken(k, s);
    if r.Null? || last then r else Val(r.v.(len := r.v.len + Span(s[r.v.len..], Space)))
  }

  /** A match of the pattern at the start of `s`. */
  function Match(pattern: seq<Token>, s: string): (r: Opt<Hit>)
    ensures r.Val? ==> r.v.len <= |s|
    decreases |pattern|
  {
    if pattern == [] then Val(Hit(0, "", ""))
    else
      var first := MatchSpaced(pattern[0], |pattern| == 1, s);
      if first.Null? then Null
      else
        var others := Match(pattern[1..], s[first.v.len..]);
        if others.Null? then Null
        else Val((if Captures(pattern[0]) then first.v else others.v).(len := first.v.len + others.v.len))
  }

  /** The pieces of the replacements: literal text, quoted text, the time zone in quotes, `?`, `$1`, and `'$1 $2'`. */
  datatype Part = Says(t: PlainText) | SaysQuoted(t: PlainText) | Zone | Again | Captured | Interval

  function RenderPart(p: Part, h: Hit, tz: PlainText): string {
    match p
    case Says(t) => t
    case SaysQuoted(t) => InQuotes(t)
    case Zone => InQuotes(tz)
    case Again => "?"
    case Captured => h.one
    case Interval => InQuotes(h.one + " " + h.two)
  }

  function Render(template: seq<Part>, h: Hit, tz: PlainText): string
    decreases |template|
  {
    if template == [] then "" else RenderPart(template[0], h, tz) + Render(template[1..], h, tz)
  }

  // ---------------------------------------------------------------- what a match and its replacement bind

  datatype Rule = Rule(pattern: seq<Token>, template: seq<Part>)

  function ParamsOf(k: Token): nat { if k.Param? then 1 else 0 }

  function PatternParams(pattern: seq<Token>): nat
    decreases |pattern|
  {
    if pattern == [] then 0 else ParamsOf(pattern[0]) + PatternParams(pattern[1..])
  }

  function TemplateParams(template: seq<Part>): nat
    decreases |template|
  {
    if template == [] then 0 else (if template[0].Again? then 1 else 0) + TemplateParams(template[1..])
  }

  /** Both sides have the same number of parameters; every token and every part is balanced by itself. */
  predicate RuleBinds(r: Rule) { PatternParams(r.pattern) == TemplateParams(r.template) }

  lemma ParamBalanced()
    ensures Balanced("?", 1)
  {
    assert "?"[1..] == "";
  }

  lemma QuotedPieces(s: string, d: nat, g: nat, l: nat)
    requires 2 <= d <= g <= l < |s| && s[0] == s[l] == '\'' && s[1] == '-'
    ensures s[..l + 1] == InQuotes("-" + s[2..d] + s[d..g] + s[g..l])
  {
    assert s[2..l] == s[2..d] + s[d..g] + s[g..l];
    assert s[..l + 1] == "'" + ("-" + s[2..l]) + "'";
    assert "-" + s[2..l] == "-" + s[2..d] + s[d..g] + s[g..l];
  }

  lemma AgoBalanced(s: string)
    requires MatchAgo(s).Val?
    ensures Balanced(s[..MatchAgo(s).v.len], 0)
  {
    var h := MatchAgo(s).v;
    var d := 2 + Span(s[2..], Digit);
    var g := d + Span(s[d..], Space);
    var l := g + Span(s[g..], Letter);
    assert Plain(s[d..g]) by { assert s[d..g] == s[d..][..g - d]; }
    assert s[l..][0] == s[l];
    QuotedPieces(s, d, g, l);
    QuotedBalanced("-" + h.one + s[d..g] + h.two);
  }

  lemma TokenBalanced(k: Token, s: string)
    requires MatchToken(k, s).Val?
    ensures Balanced(s[..MatchToken(k, s).v.len], ParamsOf(k))
  {
    var n := MatchToken(k, s).v.len;
    match k {
      case Text(t) => assert s[..n] == t; PlainBalanced(t);
      case Quoted(t) => assert s[..n] == InQuotes(t); QuotedBalanced(t);
      case Param => assert s[..1] == "?"; ParamBalanced();
      case Column => PlainBalanced(s[..n]);
      case Ago => AgoBalanced(s);
    }
  }

  lemma PrefixBalanced(s: string, n: nat, a: nat, m: nat, b: nat)
    requires n + m <= |s| && Balanced(s[..n], a) && Balanced(s[n..][..m], b)
    ensures Balanced(s[..n + m], a + b)
  {
    BalancedAppend(s[..n], a, s[n..][..m], b);
    assert s[..n + m] == s[..n] + s[n..][..m];
  }

  lemma SpacedBalanced(k: Token, last: bool, s: string)
    requires MatchSpaced(k, last, s).Val?
    ensures Balanced(s[..MatchSpaced(k, last, s).v.len], ParamsOf(k))
  {
    var n := MatchToken(k, s).v.len;
    TokenBalanced(k, s);
    if !last {
      PlainBalanced(s[n..][..Span(s[n..], Space)]);
      PrefixBalanced(s, n, ParamsOf(k), Span(s[n..], Space), 0);
    }
  }

  lemma FirstBalanced(pattern: seq<Token>, s: string) returns (n: nat, m: nat)
    requires pattern != [] && Match(pattern, s).Val?
    ensures n + m == Match(pattern, s).v.len && Balanced(s[..n], ParamsOf(pattern[0]))
    ensures Match(pattern[1..], s[n..]).Val? && Match(pattern[1..], s[n..]).v.len == m
  {
    SpacedBalanced(pattern[0], |pattern| == 1, s);
    n := MatchSpaced(pattern[0], |pattern| == 1, s).v.len;
    m := Match(pattern[1..], s[n..]).v.len;
  }

  lemma TogetherBalanced(s: string, n: nat, a: nat, m: nat, b: nat, len: nat, total: nat)
    requires n + m == len <= |s| && a + b == total && Balanced(s[..n], a) && Balanced(s[n..][..m], b)
    ensures Balanced(s[..len], total)
  {
    PrefixBalanced(s, n, a, m, b);
  }

  lemma NothingBalanced(s: string, len: nat, total: nat)
    requires len == total == 0
    ensures Balanced(s[..len], total)
  {
    PlainBalanced(s[..len]);
  }

  lemma {:induction false} MatchBalanced(pattern: seq<Token>, s: string)
    requires Match(pattern, s).Val?
    ensures Balanced(s[..Match(pattern, s).v.len], PatternParams(pattern))
    decreases |pattern|
  {
    if pattern == [] {
      NothingBalanced(s, Match(pattern, s).v.len, PatternParams(pattern));
    } else {
      var n, m := FirstBalanced(pattern, s);
      MatchBalanced(pattern[1..], s[n..]);
      TogetherBalanced(s, n, ParamsOf(pattern[0]), m, PatternParams(pattern[1..]), Match(pattern, s).v.len, PatternParams(pattern));
    }
  }

  lemma PartBalanced(p: Part, h: Hit, tz: PlainText)
    ensures Balanced(RenderPart(p, h, tz), if p.Again? then 1 else 0)
  {
    match p {
      case Says(t) => PlainBalanced(t);
      case SaysQuoted(t) => QuotedBalanced(t);
      case Zone => QuotedBalanced(tz);
      case Again => ParamBalanced();
      case Captured => PlainBalanced(h.one);
      case Interval => QuotedBalanced(h.one + " " + h.two);
    }
  }

  lemma {:induction false} RenderBalanced(template: seq<Part>, h: Hit, tz: PlainText)
    ensures Balanced(Render(template, h, tz), TemplateParams(template))
    decreases |template|
  {
    if template == [] {
      PlainBalanced("");
    } else {
      PartBalanced(template[0], h, tz);
      RenderBalanced(template[1..], h, tz);
      BalancedAppend(RenderPart(template[0], h, tz), if template[0].Again? then 1 else 0,
                     Render(template[1..], h, tz), TemplateParams(template[1..]));
    }
  }

  // ---------------------------------------------------------------- ReplaceAllString

  /** A replacement as a split of the query: kept characters, and matches with what replaces them. */
  datatype Segment = Kept(c: char) | Swapped(was: string, now: string)

  function Was(g: Segment): string { if g.Kept? then [g.c] else g.was }
  function Now(g: Segment): string { if g.Kept? then [g.c] else g.now }

  function Before(segments: seq<Segment>): string {
    if segments == [] then "" else Was(segments[0]) + Before(segments[1..])
  }

  function After(segments: seq<Segment>): string {
    if segments == [] then "" else Now(segments[0]) + After(segments[1..])
  }

  /** Leftmost, non-overlapping matches; no rule matches the empty text. */
  function Segments(r: Rule, tz: PlainText, s: string): seq<Segment>
    decreases |s|
  {
    if s == [] then []
    else
      var m := Match(r.pattern, s);
      if m.Val? && m.v.len > 0
      then [Swapped(s[..m.v.len], Render(r.template, m.v, tz))] + Segments(r, tz, s[m.v.len..])
      else [Kept(s[0])] + Segments(r, tz, s[1..])
  }

  /** Both sides of a swap are balanced and have the same parameters. */
  predicate SwapBinds(g: Segment, n: nat) { g.Swapped? ==> Balanced(g.was, n) && Balanced(g.now, n) }

  lemma HitBinds(r: Rule, tz: PlainText, s: string)
    requires RuleBinds(r) && Match(r.pattern, s).Val?
    ensures var h := Match(r.pattern, s).v;
            SwapBinds(Swapped(s[..h.len], Render(r.template, h, tz)), PatternParams(r.pattern))
  {
    MatchBalanced(r.pattern, s);
    RenderBalanced(r.template, Match(r.pattern, s).v, tz);
  }

  lemma BeforeCons(g: Segment, rest: seq<Segment>)
    ensures Before([g] + rest) == Was(g) + Before(rest)
  {
    assert ([g] + rest)[1..] == rest;
  }

  lemma FirstWas(r: Rule, tz: PlainText, s: string) returns (n: nat)
    requires s != ""
    ensures 0 < n <= |s| && Before(Segments(r, tz, s)) == s[..n] + Before(Segments(r, tz, s[n..]))
  {
    var m := Match(r.pattern, s);
    if m.Val? && m.v.len > 0 {
      n := m.v.len;
      BeforeCons(Swapped(s[..n], Render(r.template, m.v, tz)), Segments(r, tz, s[n..]));
    } else {
      n := 1;
      BeforeCons(Kept(s[0]), Segments(r, tz, s[1..]));
    }
  }

  lemma TakeAndDrop(s: string, n: nat)
    requires n <= |s|
    ensures s[..n] + s[n..] == s
  {
  }

  /** The segments cover the query. */
  lemma {:induction false} SegmentsCover(r: Rule, tz: PlainText, s: string)
    ensures Before(Segments(r, tz, s)) == s
    decreases |s|
  {
    if s != "" {
      var n := FirstWas(r, tz, s);
      SegmentsCover(r, tz, s[n..]);
      TakeAndDrop(s, n);
    } else {
      assert Segments(r, tz, s) == [];
    }
  }

  /** Every swap is balanced, with the rule's parameters on both sides. */
  lemma {:induction false} SegmentsBind(r: Rule, tz: PlainText, s: string)
    requires RuleBinds(r)
    ensures forall i :: 0 <= i < |Segments(r, tz, s)| ==> SwapBinds(Segments(r, tz, s)[i], PatternParams(r.pattern))
    decreases |s|
  {
    if s != [] {
      var m := Match(r.pattern, s);
      if m.Val? && m.v.len > 0 {
        SegmentsBind(r, tz, s[m.v.len..]);
        HitBinds(r, tz, s);
      } else {
        SegmentsBind(r, tz, s[1..]);
      }
    }
  }

  /** The same number of parameters and the same quote state, from outside and from inside of a quote. */
  predicate BindsAlike(a: string, b: string) {
    forall q: bool :: Params(a, q) == Params(b, q) && EndsQuoted(a, q) == EndsQuoted(b, q)
  }

  lemma {:induction false} SwapsBind(segments: seq<Segment>, n: nat)
    requires forall i :: 0 <= i < |segments| ==> SwapBinds(segments[i], n)
    ensures BindsAlike(Before(segments), After(segments))
  {
    if segments != [] {
      var g, rest := segments[0], segments[1..];
      SwapsBind(rest, n);
      forall q: bool
        ensures Params(Before(segments), q) == Params(After(segments), q) && EndsQuoted(Before(segments), q) == EndsQuoted(After(segments), q)
      {
        ScanAppend(Was(g), Before(rest), q);
        ScanAppend(Now(g), After(rest), q);
        assert Params(Was(g), q) == Params(Now(g), q) && EndsQuoted(Was(g), q) == EndsQuoted(Now(g), q);
      }
    }
  }

  /**
   * A rule keeps the argument binding: up to every cut between its segments, the query before and after has the same
   * number of parameters and the same quote state. So a parameter keeps its number, in a match or outside of one.
   */
  lemma RuleKeepsBinding(r: Rule, tz: PlainText, s: string, cut: nat)
    requires RuleBinds(r) && cut <= |Segments(r, tz, s)|
    ensures Before(Segments(r, tz, s)) == s
    ensures BindsAlike(Before(Segments(r, tz, s)[..cut]), After(Segments(r, tz, s)[..cut]))
  {
    SegmentsCover(r, tz, s);
    SegmentsBind(r, tz, s);
    SwapsBind(Segments(r, tz, s)[..cut], PatternParams(r.pattern));
  }

  function Replaced(r: Rule, tz: PlainText, s: string): string { After(Segments(r, tz, s)) }

  lemma AfterCons(g: Segment, rest: seq<Segment>)
    ensures After([g] + rest) == Now(g) + After(rest)
  {
    assert ([g] + rest)[1..] == rest;
  }

  lemma NextPiece(r: Rule, tz: PlainText, s: string)
    requires s != ""
    ensures var m := Match(r.pattern, s);
            Replaced(r, tz, s) ==
              if m.Val? && m.v.len > 0 then Render(r.template, m.v, tz) + Replaced(r, tz, s[m.v.len..])
              else [s[0]] + Replaced(r, tz, s[1..])
  {
    var m := Match(r.pattern, s);
    if m.Val? && m.v.len > 0 {
      AfterCons(Swapped(s[..m.v.len], Render(r.template, m.v, tz)), Segments(r, tz, s[m.v.len..]));
    } else {
      AfterCons(Kept(s[0]), Segments(r, tz, s[1..]));
    }
  }

  lemma Regroup(a: string, b: string, c: string)
    ensures a + (b + c) == a + b + c
  {
  }

  method ReplaceAllString(r: Rule, tz: PlainText, s: string) returns (out: string)
    ensures out == Replaced(r, tz, s)
  {
    out := "";
    var rest := s;
    while rest != ""
      invariant out + Replaced(r, tz, rest) == Replaced(r, tz, s)
      decreases |rest|
    {
      NextPiece(r, tz, rest);
      var m := Match(r.pattern, rest);
      if m.Val? && m.v.len > 0 {
        Regroup(out, Render(r.template, m.v, tz), Replaced(r, tz, rest[m.v.len..]));
        out, rest := out + Render(r.template, m.v, tz), rest[m.v.len..];
      } else {
        Regroup(out, [rest[0]], Replaced(r, tz, rest[1..]));
        out, rest := out + [rest[0]], rest[1..];
      }
    }
    assert Replaced(r, tz, "") == "";
  }

  // ---------------------------------------------------------------- the rules

  const DATETIME_OPEN: PlainText := "datetime("
  const DATE_OPEN: PlainText := "date("
  const JULIAN_OPEN: PlainText := "julianday("
  const NOW: PlainText := "now"
  const COMMA: PlainText := ","
  const MINUS: PlainText := "-"
  const CONCAT: PlainText := "||"
  const DAYS: PlainText := " days"
  const LOCALTIME: PlainText := "localtime"
  const CLOSE: PlainText := ")"
  const SEPARATOR: PlainText := ", "
  const UTC: PlainText := "utc"
  const UTC_UPPER: PlainText := "UTC"
  const STAMP_FORMAT: PlainText := "YYYY-MM-DD HH24:MI:SS"
  const DATE_FORMAT: PlainText := "YYYY-MM-DD"
  const MINUS_DAYS: PlainText := "to_char((now() - " + "make_interval(days => ("
  const INT_IN_ZONE: PlainText := ")::int)) AT TIME ZONE "
  const MINUS_INTERVAL: PlainText := "to_char((now() - interval "
  const IN_ZONE: PlainText := ") AT TIME ZONE "
  const PLUS_PARAM: PlainText := "to_char((now() + ("
  const INTERVAL_IN_ZONE: PlainText := ")::interval) AT TIME ZONE "
  const NOW_IN_ZONE: PlainText := "to_char((now() AT TIME ZONE "
  const CLOSE_SEPARATOR: PlainText := "), "
  const TODAY_IN_ZONE: PlainText := "to_char(now() AT TIME ZONE "
  const TODAY: PlainText := "to_char(now(), "
  const COLUMN_PINNED: PlainText := "to_char((("
  const TIMESTAMP_IN_ZONE: PlainText := ")::timestamp AT TIME ZONE "
  const COLUMN_CAST: PlainText := "to_char(("
  const TIMESTAMP: PlainText := ")::timestamp, "
  const EPOCH_NOW: PlainText := "(extract(epoch from " + "now()) / 86400.0)"
  const EPOCH_IF: PlainText := "(extract(epoch from " + "(CASE WHEN "
  const TILDE: PlainText := " ~ "
  const DATE_SHAPE: PlainText := "^[0-9]{4}-[0-9]{2}-[0-9]{2}"
  const THEN: PlainText := " THEN "
  const EPOCH_CAST: PlainText := " ELSE NULL END)" + "::timestamptz) / 86400.0)"

  function DatetimeDaysParam(): Rule {
    Rule([Text(DATETIME_OPEN), Quoted(NOW), Text(COMMA), Quoted(MINUS), Text(CONCAT), Param, Text(CONCAT), Quoted(DAYS), Text(CLOSE)],
         [Says(MINUS_DAYS), Again, Says(INT_IN_ZONE), SaysQuoted(UTC), Says(SEPARATOR), SaysQuoted(STAMP_FORMAT), Says(CLOSE)])
  }

  function DatetimeLiteral(): Rule {
    Rule([Text(DATETIME_OPEN), Quoted(NOW), Text(COMMA), Ago, Text(CLOSE)],
         [Says(MINUS_INTERVAL), Interval, Says(IN_ZONE), SaysQuoted(UTC), Says(SEPARATOR), SaysQuoted(STAMP_FORMAT), Says(CLOSE)])
  }

  function DatetimeParam(): Rule {
    Rule([Text(DATETIME_OPEN), Quoted(NOW), Text(COMMA), Param, Text(CLOSE)],
         [Says(PLUS_PARAM), Again, Says(INTERVAL_IN_ZONE), SaysQuoted(UTC), Says(SEPARATOR), SaysQuoted(STAMP_FORMAT), Says(CLOSE)])
  }

  function DatetimeNow(): Rule {
    Rule([Text(DATETIME_OPEN), Quoted(NOW), Text(CLOSE)],
         [Says(NOW_IN_ZONE), SaysQuoted(UTC), Says(CLOSE_SEPARATOR), SaysQuoted(STAMP_FORMAT), Says(CLOSE)])
  }

  function DateLocaltime(zoned: bool): Rule {
    Rule([Text(DATE_OPEN), Quoted(NOW), Text(COMMA), Quoted(LOCALTIME), Text(CLOSE)],
         if zoned then [Says(TODAY_IN_ZONE), Zone, Says(SEPARATOR), SaysQuoted(DATE_FORMAT), Says(CLOSE)]
         else [Says(TODAY), SaysQuoted(DATE_FORMAT), Says(CLOSE)])
  }

  function DateColumnLocaltime(zoned: bool): Rule {
    Rule([Text(DATE_OPEN), Column, Text(COMMA), Quoted(LOCALTIME), Text(CLOSE)],
         if zoned then [Says(COLUMN_PINNED), Captured, Says(TIMESTAMP_IN_ZONE), SaysQuoted(UTC_UPPER), Says(IN_ZONE),
                           Zone, Says(SEPARATOR), SaysQuoted(DATE_FORMAT), Says(CLOSE)]
         else [Says(COLUMN_CAST), Captured, Says(TIMESTAMP), SaysQuoted(DATE_FORMAT), Says(CLOSE)])
  }

  function JulianNow(): Rule {
    Rule([Text(JULIAN_OPEN), Quoted(NOW), Text(CLOSE)], [Says(EPOCH_NOW)])
  }

  function JulianColumn(): Rule {
    Rule([Text(JULIAN_OPEN), Column, Text(CLOSE)],
         [Says(EPOCH_IF), Captured, Says(TILDE), SaysQuoted(DATE_SHAPE), Says(THEN),
          Captured, Says(EPOCH_CAST)])
  }

  lemma DaysParamPattern()
    ensures PatternParams(DatetimeDaysParam().pattern) == 1
  {
  }

  lemma DaysParamTemplate()
    ensures TemplateParams(DatetimeDaysParam().template) == 1
  {
  }

  lemma ParamPattern()
    ensures PatternParams(DatetimeParam().pattern) == 1
  {
  }

  lemma ParamTemplate()
    ensures TemplateParams(DatetimeParam().template) == 1
  {
  }

  lemma DatetimesBind()
    ensures RuleBinds(DatetimeLiteral()) && RuleBinds(DatetimeNow())
  {
    assert PatternParams(DatetimeLiteral().pattern) == 0 && TemplateParams(DatetimeLiteral().template) == 0;
    assert PatternParams(DatetimeNow().pattern) == 0 && TemplateParams(DatetimeNow().template) == 0;
  }

  lemma DatesBind(zoned: bool)
    ensures RuleBinds(DateLocaltime(zoned)) && RuleBinds(DateColumnLocaltime(zoned))
  {
    assert PatternParams(DateLocaltime(true).pattern) == 0 && TemplateParams(DateLocaltime(true).template) == 0;
    assert PatternParams(DateLocaltime(false).pattern) == 0 && TemplateParams(DateLocaltime(false).template) == 0;
    assert PatternParams(DateColumnLocaltime(true).pattern) == 0 && TemplateParams(DateColumnLocaltime(true).template) == 0;
    assert PatternParams(DateColumnLocaltime(false).pattern) == 0 && TemplateParams(DateColumnLocaltime(false).template) == 0;
  }

  lemma JuliansBind()
    ensures RuleBinds(JulianNow()) && RuleBinds(JulianColumn())
  {
    assert PatternParams(JulianNow().pattern) == 0 && TemplateParams(JulianNow().template) == 0;
    assert PatternParams(JulianColumn().pattern) == 0 && TemplateParams(JulianColumn().template) == 0;
  }

  // ---------------------------------------------------------------- INSERT OR IGNORE

  const INSERT_OR_IGNORE: PlainText := "INSERT OR IGNORE"
  const INSERT: PlainText := "INSERT"
  const ON_CONFLICT: PlainText := " ON CONFLICT DO NOTHING"

  /** The first place where `t` occurs. */
  function IndexOf(s: string, t: string): (r: Opt<nat>)
    ensures r.Val? ==> r.v + |t| <= |s| && s[r.v..r.v + |t|] == t
    decreases |s|
  {
    if t <= s then Val(0)
    else if s == [] then Null
    else
      match IndexOf(s[1..], t)
      case Null => Null
      case Val(i) => assert s[1..][i..i + |t|] == s[i + 1..i + 1 + |t|]; Val(i + 1)
  }

  function TrimRight(s: string): string {
    if s != [] && (s[|s| - 1] == ' ' || s[|s| - 1] == '\t' || s[|s| - 1] == '\n') then TrimRight(s[..|s| - 1]) else s
  }

  function OnConflict(s: string): string {
    match IndexOf(s, INSERT_OR_IGNORE)
    case Null => s
    case Val(i) => TrimRight(s[..i] + INSERT + s[i + |INSERT_OR_IGNORE|..]) + ON_CONFLICT
  }

  // ---------------------------------------------------------------- all rules in their order

  function AfterDatetimes(tz: PlainText, query: string): string {
    Replaced(DatetimeNow(), tz,
             Replaced(DatetimeParam(), tz, Replaced(DatetimeLiteral(), tz, Replaced(DatetimeDaysParam(), tz, query))))
  }

  function AfterDates(tz: PlainText, query: string): string {
    Replaced(DateColumnLocaltime(tz != ""), tz, Replaced(DateLocaltime(tz != ""), tz, query))
  }

  function AfterJulians(tz: PlainText, query: string): string {
    Replaced(JulianColumn(), tz, Replaced(JulianNow(), tz, query))
  }

  /** The query as rewrite hands it to rebind. */
  function Translated(tz: PlainText, query: string): string {
    OnConflict(AfterJulians(tz, AfterDates(tz, AfterDatetimes(tz, query))))
  }
}
