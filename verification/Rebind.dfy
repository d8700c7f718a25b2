/** The placeholder rebinder of dialect.go, and rewrite as a whole. */
module Rebind {
  import opened Sql
  import opened Dialect

  /** `strconv.Itoa`. */
  function Itoa(n: nat): (s: string)
    ensures s != "" && forall i :: 0 <= i < |s| ==> InClass(s[i], Digit)
  {
    var last := [('0' as int + n % 10) as char];
    if n < 10 then last else Itoa(n / 10) + last
  }

  function Placeholder(n: nat): string { "$" + Itoa(n) }

  /** The number that a text of digits spells in base ten. */
  function Value(s: string): int {
    if s == "" then 0 else 10 * Value(s[..|s| - 1]) + (s[|s| - 1] as int - '0' as int)
  }

  /** Each number is spelled in base ten, without leading zeros. */
  lemma {:induction false} ItoaSpells(n: nat)
    ensures Value(Itoa(n)) == n && (n > 0 ==> Itoa(n)[0] != '0')
  {
    var last := [('0' as int + n % 10) as char];
    if n < 10 {
      assert last[..0] == "";
      assert Value("") == 0;
    } else {
      ItoaSpells(n / 10);
      assert (Itoa(n / 10) + last)[..|Itoa(n / 10)|] == Itoa(n / 10);
    }
  }

  /** The rest `s` of a query of which `n` parameters are numbered already. */
  function Rebound(s: string, quoted: bool, n: nat): string {
    if s == "" then ""
    else if IsParam(s[0], quoted) then Placeholder(n + 1) + Rebound(s[1..], quoted, n + 1)
    else [s[0]] + Rebound(s[1..], AfterChar(s[0], quoted), n)
  }

  method Rebind(query: string) returns (b: string)
    ensures b == Rebound(query, false, 0)
  {
    b := "";
    var n := 0;
    var inQuote := false;
    assert query[0..] == query;
    for i := 0 to |query|
      invariant b + Rebound(query[i..], inQuote, n) == Rebound(query, false, 0)
    {
      var c := query[i];
      ghost var rest, done := query[i..], b;
      assert rest[0] == c && rest[1..] == query[i + 1..];
      if c == '\'' {
        inQuote := !inQuote;
        b := b + [c];
      } else if c == '?' && !inQuote {
        n := n + 1;
        b := b + "$";
        b := b + Itoa(n);
        assert b == done + Placeholder(n);
      } else {
        b := b + [c];
      }
      Regroup(done, b[|done|..], Rebound(query[i + 1..], inQuote, n));
      assert b == done + b[|done|..];
    }
    assert query[|query|..] == "";
  }

  // ---------------------------------------------------------------- which `$k` stands where

  lemma {:induction false} ReboundAppend(a: string, b: string, quoted: bool, n: nat)
    ensures Rebound(a + b, quoted, n) == Rebound(a, quoted, n) + Rebound(b, EndsQuoted(a, quoted), n + Params(a, quoted))
  {
    if a == "" {
      assert a + b == b;
    } else {
      var k := if IsParam(a[0], quoted) then 1 else 0;
      var q := AfterChar(a[0], quoted);
      var head := if IsParam(a[0], quoted) then Placeholder(n + 1) else [a[0]];
      assert (a + b)[1..] == a[1..] + b && (a + b)[0] == a[0];
      ReboundAppend(a[1..], b, q, n + k);
      Regroup(head, Rebound(a[1..], q, n + k), Rebound(b, EndsQuoted(a, quoted), n + Params(a, quoted)));
      assert Rebound(a, quoted, n) == head + Rebound(a[1..], q, n + k);
      assert Rebound(a + b, quoted, n) == head + Rebound(a[1..] + b, q, n + k);
    }
  }

  /** The `?` at `p` is the k-th parameter of `s`. */
  predicate IsKthParam(s: string, p: nat, k: nat) {
    p < |s| && s[p] == '?' && !EndsQuoted(s[..p], false) && Params(s[..p], false) + 1 == k
  }

  /** The k-th parameter becomes `$k`, and nothing else of the text around it moves: what is before and after is bound on its own. */
  lemma KthBecomesDollarK(s: string, p: nat, k: nat)
    requires IsKthParam(s, p, k)
    ensures Rebound(s, false, 0) == Rebound(s[..p], false, 0) + Placeholder(k) + Rebound(s[p + 1..], false, k)
  {
    assert s == s[..p] + s[p..];
    ReboundAppend(s[..p], s[p..], false, 0);
    assert s[p..][1..] == s[p + 1..];
  }

  /** Any other character, quoted text above all, is copied. */
  lemma OthersCopied(s: string, p: nat)
    requires p < |s| && !IsParam(s[p], EndsQuoted(s[..p], false))
    ensures Rebound(s[..p + 1], false, 0) == Rebound(s[..p], false, 0) + [s[p]]
  {
    assert s[..p + 1] == s[..p] + [s[p]];
    ReboundAppend(s[..p], [s[p]], false, 0);
    assert [s[p]][1..] == "";
  }

  /** Every number from 1 to the number of parameters has its `?`, and no other number has one. */
  lemma {:induction false} EveryParamHasItsPlace(s: string, k: nat)
    ensures (exists p: nat :: IsKthParam(s, p, k)) <==> 1 <= k <= Params(s, false)
  {
    if s == "" {
    } else {
      var init, c := s[..|s| - 1], s[|s| - 1];
      assert s == init + [c] && [c][1..] == "";
      ScanAppend(init, [c], false);
      EveryParamHasItsPlace(init, k);
      if p: nat :| IsKthParam(init, p, k) {
        assert s[..p] == init[..p] && IsKthParam(s, p, k);
      }
      if IsParam(c, EndsQuoted(init, false)) && k == Params(s, false) {
        assert IsKthParam(s, |init|, k);
      }
      if p: nat :| IsKthParam(s, p, k) {
        if p < |init| {
          assert s[..p] == init[..p] && IsKthParam(init, p, k);
        } else {
          assert s[..p] == init;
        }
      }
    }
  }

  // ---------------------------------------------------------------- the inverse

  /** Replace `$1`, `$2`, .. back by `?`, outside of quotes, each when it is the next number due. */
  function Unbound(t: string, quoted: bool, n: nat): string
    decreases |t|
  {
    if t == "" then ""
    else if !quoted && Placeholder(n + 1) <= t then "?" + Unbound(t[|Placeholder(n + 1)|..], quoted, n + 1)
    else [t[0]] + Unbound(t[1..], AfterChar(t[0], quoted), n)
  }

  /** The text itself spells the next placeholder, outside of quotes, at `p`. */
  predicate ClashesAt(s: string, quoted: bool, n: nat, p: nat) {
    p < |s| && !EndsQuoted(s[..p], quoted) && Placeholder(n + Params(s[..p], quoted) + 1) <= s[p..]
  }

  predicate Clashes(s: string, quoted: bool, n: nat) { exists p: nat :: p < |s| && ClashesAt(s, quoted, n, p) }

  /** Digits at the start of the bound text are digits of the text itself. */
  lemma {:induction false} DigitsComeFromText(d: string, s: string, n: nat)
    requires forall i :: 0 <= i < |d| ==> InClass(d[i], Digit)
    ensures d <= Rebound(s, false, n) <==> d <= s
    decreases |d|
  {
    if d != "" && s != "" && s[0] != '?' && s[0] != '\'' {
      DigitsComeFromText(d[1..], s[1..], n);
      PrefixCons(d, s);
      PrefixCons(d, Rebound(s, false, n));
    } else if d != "" && s != "" {
      var t := Rebound(s, false, n);
      assert t[0] == '$' || t[0] == '\'';
      assert d[0] != t[0] && d[0] != s[0];
    }
  }

  lemma PrefixCons(a: string, b: string)
    requires a != "" && b != ""
    ensures a <= b <==> a[0] == b[0] && a[1..] <= b[1..]
  {
    if a[0] == b[0] && a[1..] <= b[1..] {
      forall i | 0 <= i < |a|
        ensures a[i] == b[i]
      { if i > 0 { assert a[i] == a[1..][i - 1] == b[1..][i - 1]; } }
    }
    if a <= b {
      assert a[1..] == b[1..|a|] == b[1..][..|a| - 1];
    }
  }

  /** Whether a non-parameter at the start reads as the next placeholder, before and after the binding. */
  lemma HeadClash(s: string, n: nat)
    requires s != "" && !IsParam(s[0], false)
    ensures Placeholder(n + 1) <= Rebound(s, false, n) <==> Placeholder(n + 1) <= s
  {
    var t := Rebound(s, false, n);
    PrefixCons(Placeholder(n + 1), t);
    PrefixCons(Placeholder(n + 1), s);
    assert Placeholder(n + 1)[1..] == Itoa(n + 1);
    if s[0] == '$' {
      assert t[1..] == Rebound(s[1..], false, n);
      DigitsComeFromText(Itoa(n + 1), s[1..], n);
    }
  }

  lemma ClashShifts(s: string, quoted: bool, n: nat, p: nat)
    requires p + 1 < |s|
    ensures ClashesAt(s, quoted, n, p + 1) <==>
            ClashesAt(s[1..], AfterChar(s[0], quoted), n + if IsParam(s[0], quoted) then 1 else 0, p)
  {
    assert s[..p + 1][1..] == s[1..][..p];
    assert s[p + 1..] == s[1..][p..];
  }

  lemma ClashAtStart(s: string, quoted: bool, n: nat)
    requires s != ""
    ensures ClashesAt(s, quoted, n, 0) <==> !quoted && Placeholder(n + 1) <= s
  {
    assert s[..0] == "" && s[0..] == s;
  }

  lemma ClashesNext(s: string, quoted: bool, n: nat)
    requires s != ""
    ensures Clashes(s, quoted, n) <==>
            (!quoted && Placeholder(n + 1) <= s) || Clashes(s[1..], AfterChar(s[0], quoted), n + if IsParam(s[0], quoted) then 1 else 0)
  {
    ClashAtStart(s, quoted, n);
    hide ClashesAt, Placeholder, IsParam, AfterChar;
    var m := n + if IsParam(s[0], quoted) then 1 else 0;
    var q := AfterChar(s[0], quoted);
    if p: nat :| p < |s[1..]| && ClashesAt(s[1..], q, m, p) {
      ClashShifts(s, quoted, n, p);
      assert ClashesAt(s, quoted, n, p + 1);
    }
    if p: nat :| p < |s| && ClashesAt(s, quoted, n, p) {
      if p > 0 {
        ClashShifts(s, quoted, n, p - 1);
        assert ClashesAt(s[1..], q, m, p - 1);
      }
    }
  }

  lemma ParamUnbinds(s: string, n: nat)
    requires s != "" && IsParam(s[0], false)
    ensures Unbound(Rebound(s, false, n), false, n) == "?" + Unbound(Rebound(s[1..], false, n + 1), false, n + 1)
    ensures !(Placeholder(n + 1) <= s)
  {
    var ph, rest := Placeholder(n + 1), Rebound(s[1..], false, n + 1);
    assert (ph + rest)[|ph|..] == rest && (ph + rest)[..|ph|] == ph;
    assert ph[0] == '$';
  }

  /** Mapping the placeholders back inverts the binding, exactly for the queries that do not spell the next placeholder themselves. */
  lemma {:induction false} UnbindInverts(s: string, quoted: bool, n: nat)
    ensures Unbound(Rebound(s, quoted, n), quoted, n) == s <==> !Clashes(s, quoted, n)
  {
    if s != "" {
      var t := Rebound(s, quoted, n);
      ClashesNext(s, quoted, n);
      if IsParam(s[0], quoted) {
        UnbindInverts(s[1..], quoted, n + 1);
        ParamUnbinds(s, n);
        assert s == "?" + s[1..];
      } else {
        var q := AfterChar(s[0], quoted);
        UnbindInverts(s[1..], q, n);
        assert t[0] == s[0] && t[1..] == Rebound(s[1..], q, n);
        assert s == [s[0]] + s[1..];
        if !quoted { HeadClash(s, n); }
        if !quoted && Placeholder(n + 1) <= s {
          assert s[0] == Placeholder(n + 1)[0];
        } else {
          assert Unbound(t, quoted, n) == [s[0]] + Unbound(Rebound(s[1..], q, n), q, n);
        }
      }
    }
  }

  // ---------------------------------------------------------------- rewrite

  datatype DbType = SQLite | Postgres

  method ReplaceInsertOrIgnore(query: string) returns (out: string)
    ensures out == OnConflict(query)
  {
    out := query;
    var at := IndexOf(out, INSERT_OR_IGNORE);
    if at.Val? {
      out := out[..at.v] + INSERT + out[at.v + |INSERT_OR_IGNORE|..];
      out := TrimRight(out) + ON_CONFLICT;
    }
  }

  method Rewrite(kind: DbType, tz: PlainText, query: string) returns (out: string)
    ensures kind.SQLite? ==> out == query
    ensures kind.Postgres? ==> out == Rebound(Translated(tz, query), false, 0)
  {
    if !kind.Postgres? {
      return query;
    }
    out := ReplaceAllString(DatetimeDaysParam(), tz, query);
    out := ReplaceAllString(DatetimeLiteral(), tz, out);
    out := ReplaceAllString(DatetimeParam(), tz, out);
    out := ReplaceAllString(DatetimeNow(), tz, out);
    out := ReplaceAllString(DateLocaltime(tz != ""), tz, out);
    out := ReplaceAllString(DateColumnLocaltime(tz != ""), tz, out);
    out := ReplaceAllString(JulianNow(), tz, out);
    out := ReplaceAllString(JulianColumn(), tz, out);
    out := ReplaceInsertOrIgnore(out);
    out := Rebind(out);
  }
}
