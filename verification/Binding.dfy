/** Which argument each `?` of a rewritten statement is bound to: characters carry tags, and a rule hands the tags of the `?` it matched to the `?` it writes. */
module Binding {
  import opened Sql
  import opened Dialect
  import opened Rebind

  datatype Mark = Mark(c: char, tag: nat)

  function TextOf(x: seq<Mark>): (s: string)
    ensures |s| == |x| && forall i :: 0 <= i < |x| ==> s[i] == x[i].c
  {
    seq(|x|, i requires 0 <= i < |x| => x[i].c)
  }

  /** Text that a rule writes itself. */
  function Written(s: string): (x: seq<Mark>)
    ensures TextOf(x) == s
  {
    seq(|s|, i requires 0 <= i < |s| => Mark(s[i], 0))
  }

  /** The tags of the `?` outside of quotes, in order. */
  function Tags(x: seq<Mark>, quoted: bool): seq<nat> {
    if x == [] then []
    else (if IsParam(x[0].c, quoted) then [x[0].tag] else []) + Tags(x[1..], AfterChar(x[0].c, quoted))
  }

  lemma {:induction false} TagsCount(x: seq<Mark>, quoted: bool)
    ensures |Tags(x, quoted)| == Params(TextOf(x), quoted)
  {
    if x != [] {
      assert TextOf(x)[1..] == TextOf(x[1..]);
      TagsCount(x[1..], AfterChar(x[0].c, quoted));
    }
  }

  lemma TextAppend(a: seq<Mark>, b: seq<Mark>)
    ensures TextOf(a + b) == TextOf(a) + TextOf(b)
  {
  }

  lemma TagsFirst(x: seq<Mark>, quoted: bool)
    requires x != []
    ensures Tags(x, quoted) == (if IsParam(x[0].c, quoted) then [x[0].tag] else []) + Tags(x[1..], AfterChar(x[0].c, quoted))
    ensures EndsQuoted(TextOf(x), quoted) == EndsQuoted(TextOf(x[1..]), AfterChar(x[0].c, quoted))
  {
    assert TextOf(x)[1..] == TextOf(x[1..]);
  }

  lemma RegroupTags(a: seq<nat>, b: seq<nat>, c: seq<nat>)
    ensures a + (b + c) == a + b + c
  {
  }

  lemma {:induction false} TagsAppend(a: seq<Mark>, b: seq<Mark>, quoted: bool)
    ensures Tags(a + b, quoted) == Tags(a, quoted) + Tags(b, EndsQuoted(TextOf(a), quoted))
  {
    if a == [] {
      assert a + b == b;
    } else {
      hide Tags, EndsQuoted, TextOf;
      var q := AfterChar(a[0].c, quoted);
      TagsFirst(a, quoted);
      TagsFirst(a + b, quoted);
      assert (a + b)[1..] == a[1..] + b && (a + b)[0] == a[0];
      TagsAppend(a[1..], b, q);
      RegroupTags(if IsParam(a[0].c, quoted) then [a[0].tag] else [], Tags(a[1..], q), Tags(b, EndsQuoted(TextOf(a), quoted)));
    }
  }

  /** A balanced text with parameters `tags`: outside of a quote it binds them, inside of one it binds nothing. */
  predicate Binds(x: seq<Mark>, tags: seq<nat>) {
    forall q: bool :: Tags(x, q) == (if q then [] else tags) && EndsQuoted(TextOf(x), q) == q
  }

  lemma BindsAppend(a: seq<Mark>, m: seq<nat>, b: seq<Mark>, n: seq<nat>)
    requires Binds(a, m) && Binds(b, n)
    ensures Binds(a + b, m + n)
  {
    forall q: bool
      ensures Tags(a + b, q) == (if q then [] else m + n) && EndsQuoted(TextOf(a + b), q) == q
    {
      TagsAppend(a, b, q);
      TextAppend(a, b);
      ScanAppend(TextOf(a), TextOf(b), q);
    }
  }

  lemma NoParamsNoTags(x: seq<Mark>)
    requires Balanced(TextOf(x), 0)
    ensures Binds(x, [])
  {
    forall q: bool
      ensures Tags(x, q) == [] && EndsQuoted(TextOf(x), q) == q
    { TagsCount(x, q); }
  }

  lemma OneParamOneTag(x: seq<Mark>)
    requires x != [] && x[0].c == '?' && Balanced(TextOf(x), 1)
    ensures Binds(x, [x[0].tag])
  {
    forall q: bool
      ensures Tags(x, q) == (if q then [] else [x[0].tag]) && EndsQuoted(TextOf(x), q) == q
    { TagsCount(x, q); }
  }

  // ---------------------------------------------------------------- one rule

  /** The tags of the `?` that the parameters of the pattern match, token by token. */
  function ParamTags(pattern: seq<Token>, x: seq<Mark>): seq<nat>
    decreases |pattern|
  {
    if pattern == [] then []
    else
      var first := MatchSpaced(pattern[0], |pattern| == 1, TextOf(x));
      if first.Null? then []
      else (if pattern[0].Param? then [x[0].tag] else []) + ParamTags(pattern[1..], x[first.v.len..])
  }

  lemma TextDrop(x: seq<Mark>, n: nat)
    requires n <= |x|
    ensures TextOf(x[n..]) == TextOf(x)[n..] && TextOf(x[..n]) == TextOf(x)[..n]
  {
  }

  lemma TokenBinds(k: Token, last: bool, x: seq<Mark>)
    requires MatchSpaced(k, last, TextOf(x)).Val?
    ensures Binds(x[..MatchSpaced(k, last, TextOf(x)).v.len], if k.Param? then [x[0].tag] else [])
  {
    var n := MatchSpaced(k, last, TextOf(x)).v.len;
    SpacedBalanced(k, last, TextOf(x));
    TextDrop(x, n);
    if k.Param? { OneParamOneTag(x[..n]); } else { NoParamsNoTags(x[..n]); }
  }

  lemma FirstBinds(pattern: seq<Token>, x: seq<Mark>) returns (n: nat, m: nat, tags: seq<nat>)
    requires pattern != [] && Match(pattern, TextOf(x)).Val?
    ensures n + m == Match(pattern, TextOf(x)).v.len && Binds(x[..n], tags) && |tags| == ParamsOf(pattern[0])
    ensures Match(pattern[1..], TextOf(x[n..])).Val? && Match(pattern[1..], TextOf(x[n..])).v.len == m
    ensures ParamTags(pattern, x) == tags + ParamTags(pattern[1..], x[n..])
  {
    hide Binds, MatchAgo, MatchColumn;
    n := MatchSpaced(pattern[0], |pattern| == 1, TextOf(x)).v.len;
    m := Match(pattern, TextOf(x)).v.len - n;
    TextDrop(x, n);
    TokenBinds(pattern[0], |pattern| == 1, x);
    tags := if pattern[0].Param? then [x[0].tag] else [];
  }

  lemma TogetherBinds(x: seq<Mark>, n: nat, a: seq<nat>, m: nat, b: seq<nat>, len: nat, tags: seq<nat>)
    requires n + m == len <= |x| && a + b == tags && Binds(x[..n], a) && Binds(x[n..][..m], b)
    ensures Binds(x[..len], tags)
  {
    BindsAppend(x[..n], a, x[n..][..m], b);
    assert x[..n + m] == x[..n] + x[n..][..m];
  }

  lemma NothingBinds(x: seq<Mark>)
    ensures Match([], TextOf(x)).Val? && Binds(x[..Match([], TextOf(x)).v.len], ParamTags([], x)) && ParamTags([], x) == []
  {
    NoParamsNoTags([]);
    assert x[..0] == [];
  }

  /** A match binds exactly the tags of its parameters. */
  lemma {:induction false} MatchBinds(pattern: seq<Token>, x: seq<Mark>)
    requires Match(pattern, TextOf(x)).Val?
    ensures Binds(x[..Match(pattern, TextOf(x)).v.len], ParamTags(pattern, x))
    ensures |ParamTags(pattern, x)| == PatternParams(pattern)
    decreases |pattern|
  {
    hide Binds, Match, ParamTags, TextOf;
    if pattern == [] {
      NothingBinds(x);
    } else {
      var n, m, tags := FirstBinds(pattern, x);
      MatchBinds(pattern[1..], x[n..]);
      TogetherBinds(x, n, tags, m, ParamTags(pattern[1..], x[n..]), Match(pattern, TextOf(x)).v.len, ParamTags(pattern, x));
    }
  }

  /** The replacement, whose `?` get the given tags from left to right. */
  function RenderTagged(template: seq<Part>, h: Hit, tz: PlainText, tags: seq<nat>): seq<Mark>
    decreases |template|
  {
    if template == [] then []
    else if template[0].Again? && tags != [] then [Mark('?', tags[0])] + RenderTagged(template[1..], h, tz, tags[1..])
    else Written(RenderPart(template[0], h, tz)) + RenderTagged(template[1..], h, tz, tags)
  }

  lemma {:induction false} RenderText(template: seq<Part>, h: Hit, tz: PlainText, tags: seq<nat>)
    ensures TextOf(RenderTagged(template, h, tz, tags)) == Render(template, h, tz)
    decreases |template|
  {
    if template != [] {
      if template[0].Again? && tags != [] {
        RenderText(template[1..], h, tz, tags[1..]);
        TextAppend([Mark('?', tags[0])], RenderTagged(template[1..], h, tz, tags[1..]));
      } else {
        RenderText(template[1..], h, tz, tags);
        TextAppend(Written(RenderPart(template[0], h, tz)), RenderTagged(template[1..], h, tz, tags));
      }
    }
  }

  lemma {:induction false} RenderBinds(template: seq<Part>, h: Hit, tz: PlainText, tags: seq<nat>)
    requires |tags| == TemplateParams(template)
    ensures Binds(RenderTagged(template, h, tz, tags), tags)
    decreases |template|
  {
    if template == [] {
      NoParamsNoTags([]);
    } else {
      var head := RenderPart(template[0], h, tz);
      PartBalanced(template[0], h, tz);
      if template[0].Again? {
        RenderBinds(template[1..], h, tz, tags[1..]);
        var mark := [Mark('?', tags[0])];
        assert TextOf(mark) == head;
        OneParamOneTag(mark);
        BindsAppend(mark, [tags[0]], RenderTagged(template[1..], h, tz, tags[1..]), tags[1..]);
        assert [tags[0]] + tags[1..] == tags;
      } else {
        RenderBinds(template[1..], h, tz, tags);
        NoParamsNoTags(Written(head));
        BindsAppend(Written(head), [], RenderTagged(template[1..], h, tz, tags), tags);
        assert [] + tags == tags;
      }
    }
  }

  function ReplacedTagged(r: Rule, tz: PlainText, x: seq<Mark>): seq<Mark>
    decreases |x|
  {
    if x == [] then []
    else
      var m := Match(r.pattern, TextOf(x));
      if m.Val? && m.v.len > 0
      then RenderTagged(r.template, m.v, tz, ParamTags(r.pattern, x)) + ReplacedTagged(r, tz, x[m.v.len..])
      else [x[0]] + ReplacedTagged(r, tz, x[1..])
  }

  /** The same tags in the same order, and the same quote state, from outside and from inside of a quote. */
  predicate SameTags(x: seq<Mark>, y: seq<Mark>) {
    forall q: bool :: Tags(x, q) == Tags(y, q) && EndsQuoted(TextOf(x), q) == EndsQuoted(TextOf(y), q)
  }

  lemma SameTagsAppend(a: seq<Mark>, b: seq<Mark>, c: seq<Mark>, d: seq<Mark>)
    requires SameTags(a, c) && SameTags(b, d)
    ensures SameTags(a + b, c + d)
  {
    forall q: bool
      ensures Tags(a + b, q) == Tags(c + d, q) && EndsQuoted(TextOf(a + b), q) == EndsQuoted(TextOf(c + d), q)
    {
      TagsAppend(a, b, q);
      TagsAppend(c, d, q);
      TextAppend(a, b);
      TextAppend(c, d);
      ScanAppend(TextOf(a), TextOf(b), q);
      ScanAppend(TextOf(c), TextOf(d), q);
    }
  }

  lemma SwapKeepsTags(r: Rule, tz: PlainText, x: seq<Mark>)
    requires RuleBinds(r) && Match(r.pattern, TextOf(x)).Val?
    ensures var h := Match(r.pattern, TextOf(x)).v;
            SameTags(x[..h.len], RenderTagged(r.template, h, tz, ParamTags(r.pattern, x)))
  {
    MatchBinds(r.pattern, x);
    RenderBinds(r.template, Match(r.pattern, TextOf(x)).v, tz, ParamTags(r.pattern, x));
  }

  /** The next match, or the next character, and what stands for it in the translation. */
  lemma NextTagged(r: Rule, tz: PlainText, x: seq<Mark>) returns (n: nat, piece: seq<Mark>)
    requires RuleBinds(r) && x != []
    ensures 0 < n <= |x| && ReplacedTagged(r, tz, x) == piece + ReplacedTagged(r, tz, x[n..]) && SameTags(x[..n], piece)
    ensures Replaced(r, tz, TextOf(x)) == TextOf(piece) + Replaced(r, tz, TextOf(x[n..]))
  {
    hide Replaced, Match, SameTags, ParamTags, Render, RenderTagged, Tags;
    NextPiece(r, tz, TextOf(x));
    var m := Match(r.pattern, TextOf(x));
    if m.Val? && m.v.len > 0 {
      n, piece := m.v.len, RenderTagged(r.template, m.v, tz, ParamTags(r.pattern, x));
      TextDrop(x, n);
      RenderText(r.template, m.v, tz, ParamTags(r.pattern, x));
      SwapKeepsTags(r, tz, x);
    } else {
      n, piece := 1, [x[0]];
      TextDrop(x, n);
      assert x[..1] == [x[0]];
      SameTagsRefl(piece);
    }
  }

  lemma SameTagsRefl(x: seq<Mark>)
    ensures SameTags(x, x)
  {
  }

  /** A rule keeps the tags of the parameters in their order, and does to the text what it does without tags. */
  lemma {:induction false} RuleKeepsTags(r: Rule, tz: PlainText, x: seq<Mark>)
    requires RuleBinds(r)
    ensures TextOf(ReplacedTagged(r, tz, x)) == Replaced(r, tz, TextOf(x))
    ensures SameTags(x, ReplacedTagged(r, tz, x))
    decreases |x|
  {
    if x != [] {
      hide Replaced, ReplacedTagged, RuleBinds, Match, SameTags, ParamTags, Render, RenderTagged;
      var n, piece := NextTagged(r, tz, x);
      RuleKeepsTags(r, tz, x[n..]);
      TextAppend(piece, ReplacedTagged(r, tz, x[n..]));
      SameTagsAppend(x[..n], x[n..], piece, ReplacedTagged(r, tz, x[n..]));
      assert x[..n] + x[n..] == x;
    } else {
      assert Segments(r, tz, "") == [];
    }
  }

  // ---------------------------------------------------------------- INSERT OR IGNORE

  function OnConflictTagged(x: seq<Mark>): seq<Mark> {
    match IndexOf(TextOf(x), INSERT_OR_IGNORE)
    case Null => x
    case Val(i) => Trimmed(x[..i] + Written(INSERT) + x[i + |INSERT_OR_IGNORE|..]) + Written(ON_CONFLICT)
  }

  function Trimmed(x: seq<Mark>): seq<Mark> {
    if x != [] && (x[|x| - 1].c == ' ' || x[|x| - 1].c == '\t' || x[|x| - 1].c == '\n') then Trimmed(x[..|x| - 1]) else x
  }

  lemma PlainHasNoTags(x: seq<Mark>)
    requires Plain(TextOf(x))
    ensures SameTags(x, []) && SameTags([], x)
  {
    PlainBalanced(TextOf(x));
    NoParamsNoTags(x);
  }

  lemma {:induction false} TrimKeepsTags(x: seq<Mark>)
    ensures TextOf(Trimmed(x)) == TrimRight(TextOf(x)) && SameTags(x, Trimmed(x))
  {
    if x != [] && (x[|x| - 1].c == ' ' || x[|x| - 1].c == '\t' || x[|x| - 1].c == '\n') {
      var n := |x| - 1;
      TextDrop(x, n);
      TrimKeepsTags(x[..n]);
      PlainHasNoTags(x[n..]);
      SameTagsAppend(x[..n], x[n..], x[..n], []);
      assert x[..n] + x[n..] == x && x[..n] + [] == x[..n];
    }
  }

  lemma PlainSwapTagged(a: seq<Mark>, b: seq<Mark>, now: string, c: seq<Mark>)
    requires Plain(TextOf(b)) && Plain(now)
    ensures SameTags(a + b + c, a + Written(now) + c)
    ensures TextOf(a + Written(now) + c) == TextOf(a) + now + TextOf(c)
  {
    hide SameTags;
    SameTagsRefl(a);
    SameTagsRefl(c);
    PlainHasNoTags(b);
    PlainHasNoTags(Written(now));
    SameTagsThrough(b, [], Written(now));
    SameTagsAppend(a, b, a, Written(now));
    SameTagsAppend(a + b, c, a + Written(now), c);
    TextAppend(a, Written(now));
    TextAppend(a + Written(now), c);
  }

  lemma SameTagsThrough(a: seq<Mark>, b: seq<Mark>, c: seq<Mark>)
    requires SameTags(a, b) && SameTags(b, c)
    ensures SameTags(a, c)
  {
  }

  lemma PlainTailTagged(x: seq<Mark>, tail: string)
    requires Plain(tail)
    ensures SameTags(x, x + Written(tail)) && TextOf(x + Written(tail)) == TextOf(x) + tail
  {
    PlainSwapTagged(x, [], tail, []);
    assert x + [] + [] == x && x + Written(tail) + [] == x + Written(tail);
    TextAppend(x, Written(tail));
  }

  lemma ThreePieces(x: seq<Mark>, i: nat, j: nat)
    requires i <= j <= |x|
    ensures x == x[..i] + x[i..j] + x[j..]
    ensures TextOf(x[..i]) == TextOf(x)[..i] && TextOf(x[i..j]) == TextOf(x)[i..j] && TextOf(x[j..]) == TextOf(x)[j..]
  {
  }

  lemma ConflictKeepsTags(x: seq<Mark>)
    ensures TextOf(OnConflictTagged(x)) == OnConflict(TextOf(x)) && SameTags(x, OnConflictTagged(x))
  {
    hide SameTags, TextOf, Trimmed, TrimRight, IndexOf;
    match IndexOf(TextOf(x), INSERT_OR_IGNORE)
    case Null => SameTagsRefl(x);
    case Val(i) =>
      var j := i + |INSERT_OR_IGNORE|;
      var y := x[..i] + Written(INSERT) + x[j..];
      ThreePieces(x, i, j);
      PlainSwapTagged(x[..i], x[i..j], INSERT, x[j..]);
      TrimKeepsTags(y);
      PlainTailTagged(Trimmed(y), ON_CONFLICT);
      SameTagsThrough(x, y, Trimmed(y));
      SameTagsThrough(x, Trimmed(y), OnConflictTagged(x));
  }

  // ---------------------------------------------------------------- the whole translation

  function DatetimesTagged(tz: PlainText, x: seq<Mark>): seq<Mark> {
    ReplacedTagged(DatetimeNow(), tz, ReplacedTagged(DatetimeParam(), tz,
      ReplacedTagged(DatetimeLiteral(), tz, ReplacedTagged(DatetimeDaysParam(), tz, x))))
  }

  function DatesTagged(tz: PlainText, x: seq<Mark>): seq<Mark> {
    ReplacedTagged(DateColumnLocaltime(tz != ""), tz, ReplacedTagged(DateLocaltime(tz != ""), tz, x))
  }

  function JuliansTagged(tz: PlainText, x: seq<Mark>): seq<Mark> {
    ReplacedTagged(JulianColumn(), tz, ReplacedTagged(JulianNow(), tz, x))
  }

  function TranslatedTagged(tz: PlainText, x: seq<Mark>): seq<Mark> {
    OnConflictTagged(JuliansTagged(tz, DatesTagged(tz, DatetimesTagged(tz, x))))
  }

  lemma DatetimesKeepTags(tz: PlainText, x: seq<Mark>)
    ensures TextOf(DatetimesTagged(tz, x)) == AfterDatetimes(tz, TextOf(x)) && SameTags(x, DatetimesTagged(tz, x))
  {
    hide ReplacedTagged, Replaced, DatetimeDaysParam, DatetimeLiteral, DatetimeParam, DatetimeNow, RuleBinds;
    DatetimesBindAll();
    var a := ReplacedTagged(DatetimeDaysParam(), tz, x);
    var b := ReplacedTagged(DatetimeLiteral(), tz, a);
    var c := ReplacedTagged(DatetimeParam(), tz, b);
    RuleKeepsTags(DatetimeDaysParam(), tz, x);
    RuleKeepsTags(DatetimeLiteral(), tz, a);
    RuleKeepsTags(DatetimeParam(), tz, b);
    RuleKeepsTags(DatetimeNow(), tz, c);
  }

  lemma DatetimesBindAll()
    ensures RuleBinds(DatetimeDaysParam()) && RuleBinds(DatetimeLiteral()) && RuleBinds(DatetimeParam()) && RuleBinds(DatetimeNow())
  {
    hide DatetimeDaysParam, DatetimeLiteral, DatetimeParam, DatetimeNow, PatternParams, TemplateParams;
    DaysParamPattern();
    DaysParamTemplate();
    ParamPattern();
    ParamTemplate();
    DatetimesBind();
  }

  /**
   * The translation keeps the tags of the parameters in their order: whatever the query's `?` are tagged with, the `?`
   * of the translation, read from left to right, are tagged with the same.
   */
  lemma TranslationKeepsTags(tz: PlainText, x: seq<Mark>)
    ensures TextOf(TranslatedTagged(tz, x)) == Translated(tz, TextOf(x))
    ensures SameTags(x, TranslatedTagged(tz, x))
  {
    hide ReplacedTagged, Replaced, DateLocaltime, DateColumnLocaltime, JulianNow, JulianColumn, RuleBinds, DatetimesTagged,
      AfterDatetimes, OnConflict, OnConflictTagged;
    var zoned := tz != "";
    DatesBind(zoned);
    JuliansBind();
    DatetimesKeepTags(tz, x);
    var a := DatetimesTagged(tz, x);
    var b := ReplacedTagged(DateLocaltime(zoned), tz, a);
    var c := ReplacedTagged(DateColumnLocaltime(zoned), tz, b);
    var d := ReplacedTagged(JulianNow(), tz, c);
    var e := ReplacedTagged(JulianColumn(), tz, d);
    RuleKeepsTags(DateLocaltime(zoned), tz, a);
    RuleKeepsTags(DateColumnLocaltime(zoned), tz, b);
    RuleKeepsTags(JulianNow(), tz, c);
    RuleKeepsTags(JulianColumn(), tz, d);
    ConflictKeepsTags(e);
  }

  /** In particular the whole translation keeps the number of parameters and the quote state of every query, balanced or not. */
  lemma TranslationKeepsParams(tz: PlainText, query: string)
    ensures BindsAlike(query, Translated(tz, query))
  {
    hide TranslatedTagged, Translated;
    var x := Written(query);
    TranslationKeepsTags(tz, x);
    forall q: bool
      ensures Params(query, q) == Params(Translated(tz, query), q) && EndsQuoted(query, q) == EndsQuoted(Translated(tz, query), q)
    {
      TagsCount(x, q);
      TagsCount(TranslatedTagged(tz, x), q);
    }
  }

  // ---------------------------------------------------------------- and the binding

  /** The query with its k-th `?` tagged `k`: the argument that the driver binds to it. */
  function Numbered(query: string): seq<Mark> {
    seq(|query|, i requires 0 <= i < |query| => Mark(query[i], Params(query[..i], false) + 1))
  }

  /** The tag of the k-th `?` is the k-th tag. */
  lemma TagOfKth(x: seq<Mark>, p: nat, k: nat)
    requires IsKthParam(TextOf(x), p, k)
    ensures 1 <= k <= |Tags(x, false)| && Tags(x, false)[k - 1] == x[p].tag
  {
    TextDrop(x, p);
    TagsCount(x[..p], false);
    TagsAppend(x[..p], x[p..], false);
    assert x[..p] + x[p..] == x && x[p..][0] == x[p];
  }

  /** The arguments of the query are bound in order. */
  lemma NumberedTag(query: string, k: nat)
    requires 1 <= k <= Params(query, false)
    ensures |Tags(Numbered(query), false)| == Params(query, false) && Tags(Numbered(query), false)[k - 1] == k
  {
    assert TextOf(Numbered(query)) == query;
    TagsCount(Numbered(query), false);
    EveryParamHasItsPlace(query, k);
    var p: nat :| IsKthParam(query, p, k);
    TagOfKth(Numbered(query), p, k);
  }

  /**
   * Every `?` of the translated statement is rebound to the number of the argument that it had in the query, and every
   * argument of the query has its placeholder.
   */
  lemma RewriteKeepsBinding(tz: PlainText, query: string, p: nat, k: nat)
    ensures var x := TranslatedTagged(tz, Numbered(query));
            var t := Translated(tz, query);
            TextOf(x) == t &&
            ((exists j: nat :: IsKthParam(t, j, k)) <==> 1 <= k <= Params(query, false)) &&
            (IsKthParam(t, p, k) ==>
               x[p].tag == k &&
               Rebound(t, false, 0) == Rebound(t[..p], false, 0) + Placeholder(x[p].tag) + Rebound(t[p + 1..], false, x[p].tag))
  {
    hide TranslatedTagged, Translated, Rebound;
    assert TextOf(Numbered(query)) == query;
    TranslationKeepsTags(tz, Numbered(query));
    var x, t := TranslatedTagged(tz, Numbered(query)), Translated(tz, query);
    TagsCount(x, false);
    TagsCount(Numbered(query), false);
    EveryParamHasItsPlace(t, k);
    if IsKthParam(t, p, k) {
      TagOfKth(x, p, k);
      NumberedTag(query, k);
      KthBecomesDollarK(t, p, k);
    }
  }
}
