/**
 * Building the external engine's request URL. The engine setting is a
 * template; the handler calls JavaScript's `String.prototype.replace` four
 * times in a row with a string pattern, which replaces only the FIRST
 * occurrence of the pattern: `{{host}}`, then `{{user}}`, then `{{limit}}`,
 * then `{{offset}}`. Each replacement sees the output of the one before.
 */
module UrlTemplate {

  const HostPlaceholder: string := "{{host}}"
  const UserPlaceholder: string := "{{user}}"
  const LimitPlaceholder: string := "{{limit}}"
  const OffsetPlaceholder: string := "{{offset}}"

  /** `pat` occurs in `s` starting at index `i`. */
  predicate MatchAt(s: string, pat: string, i: nat) {
    i + |pat| <= |s| && s[i..i + |pat|] == pat
  }

  /** `s.indexOf(pat, from)`: the first match at or after `from`, or -1 when there is none. */
  function IndexFrom(s: string, pat: string, from: nat): (r: int)
    ensures r == -1 || from <= r
    ensures r >= 0 ==> MatchAt(s, pat, r)
    ensures r == -1 ==> forall i: nat :: from <= i ==> !MatchAt(s, pat, i)
    ensures r >= 0 ==> forall i: nat :: from <= i < r ==> !MatchAt(s, pat, i)
    decreases |s| - from
  {
    if from + |pat| > |s| then -1
    else if s[from..from + |pat|] == pat then from
    else IndexFrom(s, pat, from + 1)
  }

  /** `s.indexOf(pat)`. The empty pattern is found at index 0. */
  function IndexOf(s: string, pat: string): (r: int)
    ensures r >= -1
    ensures r >= 0 ==> MatchAt(s, pat, r)
    ensures r == -1 <==> forall i: nat :: !MatchAt(s, pat, i)
    ensures r >= 0 ==> forall i: nat :: i < r ==> !MatchAt(s, pat, i)
  {
    IndexFrom(s, pat, 0)
  }

  /**
   * The replacement text for one match, as defined by GetSubstitution
   * (ECMAScript 2015, section 21.1.3.14.1) for a string pattern, which has no
   * capture groups: `$$` is `$`, `$&` the matched text, `` $` `` the text
   * before the match, `$'` the text after it; any other `$` is literal.
   * For `$n` with no captures the 2015 edition leaves the result to the
   * implementation, and it has no `$<`; the model keeps both literal, which
   * is what later editions of the standard prescribe when there are no
   * captures (ExpandDollar).
   */
  function Expand(rep: string, matched: string, before: string, after: string): (r: string)
    ensures '$' !in rep ==> r == rep
  {
    if |rep| == 0 then ""
    else if rep[0] == '$' && |rep| >= 2 && rep[1] == '$' then "$" + Expand(rep[2..], matched, before, after)
    else if rep[0] == '$' && |rep| >= 2 && rep[1] == '&' then matched + Expand(rep[2..], matched, before, after)
    else if rep[0] == '$' && |rep| >= 2 && rep[1] == '`' then before + Expand(rep[2..], matched, before, after)
    else if rep[0] == '$' && |rep| >= 2 && rep[1] == '\'' then after + Expand(rep[2..], matched, before, after)
    else
      assert rep == [rep[0]] + rep[1..];
      [rep[0]] + Expand(rep[1..], matched, before, after)
  }

  /** A character other than `$` is copied as it is. */
  lemma ExpandPlain(c: char, rest: string, matched: string, before: string, after: string)
    requires c != '$'
    ensures Expand([c] + rest, matched, before, after) == [c] + Expand(rest, matched, before, after)
  {
    assert ([c] + rest)[1..] == rest;
  }

  /**
   * A `$` followed by `d`: `$$`, `$&`, `` $` `` and `$'` expand to `$`, the
   * match, the text before it and the text after it; with any other `d`
   * (a digit, `<`, ...) both characters stay literal.
   */
  lemma ExpandDollar(d: char, rest: string, matched: string, before: string, after: string)
    ensures Expand(['$', d] + rest, matched, before, after)
            == (if d == '$' then ['$'] else if d == '&' then matched else if d == '`' then before
                else if d == '\'' then after else ['$', d])
               + Expand(rest, matched, before, after)
  {
    var rep := ['$', d] + rest;
    assert |rep| >= 2 && rep[0] == '$' && rep[1] == d;
    assert rep[2..] == rest;
    if d != '$' && d != '&' && d != '`' && d != '\'' {
      assert rep[1..] == [d] + rest;
      ExpandPlain(d, rest, matched, before, after);
    }
  }

  /** `s.replace(pat, rep)` with a string pattern. */
  function ReplaceFirst(s: string, pat: string, rep: string): (r: string)
    ensures (forall i: nat :: !MatchAt(s, pat, i)) ==> r == s
  {
    var i := IndexOf(s, pat);
    if i < 0 then s
    else s[..i] + Expand(rep, pat, s[..i], s[i + |pat|..]) + s[i + |pat|..]
  }

  /** The replacement happens at the first match and nowhere else: whatever follows is copied unchanged. */
  lemma ReplaceFirstAt(x: string, pat: string, y: string, rep: string)
    requires forall i: nat :: i < |x| ==> !MatchAt(x + pat + y, pat, i)
    ensures ReplaceFirst(x + pat + y, pat, rep) == x + Expand(rep, pat, x, y) + y
  {
    var s := x + pat + y;
    assert s[|x|..|x| + |pat|] == pat;
    assert MatchAt(s, pat, |x|);
    var i := IndexOf(s, pat);
    assert i == |x|;
    assert s[..i] == x;
    assert s[i + |pat|..] == y;
  }

  /** Replacing the first match by `$&`, the matched text itself, changes nothing. */
  lemma ReplaceByMatchIsIdentity(s: string, pat: string)
    ensures ReplaceFirst(s, pat, ['$', '&']) == s
  {
    var i := IndexOf(s, pat);
    if i >= 0 {
      var x, y := s[..i], s[i + |pat|..];
      ExpandDollar('&', [], pat, x, y);
      assert ['$', '&'] + [] == ['$', '&'];
      assert Expand(['$', '&'], pat, x, y) == pat;
      assert s[i..i + |pat|] == pat;
      assert s == x + pat + y;
    }
  }

  /** No match can start inside a prefix free of the pattern's first character. */
  lemma NoMatchInPrefix(x: string, pat: string, y: string)
    requires |pat| > 0 && pat[0] !in x
    ensures forall i: nat :: i < |x| ==> !MatchAt(x + pat + y, pat, i)
  {
    forall i: nat | i < |x| ensures !MatchAt(x + pat + y, pat, i) {
      assert (x + pat + y)[i] == x[i];
    }
  }

  /** The decimal digit for `d`. */
  function DigitChar(d: nat): (c: char)
    requires d < 10
    ensures '0' <= c <= '9'
  {
    ('0' as int + d) as char
  }

  /** `n.toString()` for a non-negative integer: decimal, no sign, no leading zeros. */
  function DecimalString(n: nat): (r: string)
    ensures |r| >= 1
    ensures forall k :: 0 <= k < |r| ==> '0' <= r[k] <= '9'
    ensures r[0] == '0' ==> n == 0
  {
    if n < 10 then [DigitChar(n)] else DecimalString(n / 10) + [DigitChar(n % 10)]
  }

  /** The value of a string of decimal digits. */
  function DecimalValue(s: string): (r: nat)
    requires forall k :: 0 <= k < |s| ==> '0' <= s[k] <= '9'
  {
    if s == [] then 0 else 10 * DecimalValue(s[..|s| - 1]) + (s[|s| - 1] as int - '0' as int)
  }

  /** Reading the digits back gives the number: DecimalString loses nothing. */
  lemma {:induction false} DecimalStringRoundTrip(n: nat)
    ensures DecimalValue(DecimalString(n)) == n
  {
    var r := DecimalString(n);
    if n >= 10 {
      DecimalStringRoundTrip(n / 10);
      assert r[..|r| - 1] == DecimalString(n / 10);
    }
  }

  /** A decimal string contains neither `{` nor `$`. */
  lemma DecimalStringIsPlain(n: nat)
    ensures '{' !in DecimalString(n) && '$' !in DecimalString(n)
  {
    var r := DecimalString(n);
    forall k | 0 <= k < |r| ensures r[k] != '{' && r[k] != '$' {
      assert '0' <= r[k] <= '9';
    }
  }

  /** The engine URL: the four `replace` calls of the handler, in their order. */
  function Fill(template: string, host: string, user: string, limit: nat, offset: nat): (r: string) {
    var withHost := ReplaceFirst(template, HostPlaceholder, host);
    var withUser := ReplaceFirst(withHost, UserPlaceholder, user);
    var withLimit := ReplaceFirst(withUser, LimitPlaceholder, DecimalString(limit));
    ReplaceFirst(withLimit, OffsetPlaceholder, DecimalString(offset))
  }

  /** A template with none of the placeholders is used as it is. */
  lemma FillWithoutPlaceholders(template: string, host: string, user: string, limit: nat, offset: nat)
    requires forall i: nat :: !MatchAt(template, HostPlaceholder, i)
    requires forall i: nat :: !MatchAt(template, UserPlaceholder, i)
    requires forall i: nat :: !MatchAt(template, LimitPlaceholder, i)
    requires forall i: nat :: !MatchAt(template, OffsetPlaceholder, i)
    ensures Fill(template, host, user, limit, offset) == template
  {
  }

  /** One placeholder replaced in front of text that is not re-examined. */
  lemma ReplacePlain(x: string, pat: string, y: string, rep: string)
    requires |pat| > 0 && pat[0] == '{' && '{' !in x && '$' !in rep
    ensures ReplaceFirst(x + pat + y, pat, rep) == x + rep + y
  {
    NoMatchInPrefix(x, pat, y);
    ReplaceFirstAt(x, pat, y, rep);
  }

  /** Four first-occurrence replacements in a row, each pattern starting with `{` and found in order. */
  lemma ReplaceFourInOrder(a: string, b: string, c: string, d: string, e: string,
                           p1: string, p2: string, p3: string, p4: string,
                           v1: string, v2: string, v3: string, v4: string)
    requires |p1| > 0 && p1[0] == '{' && |p2| > 0 && p2[0] == '{'
    requires |p3| > 0 && p3[0] == '{' && |p4| > 0 && p4[0] == '{'
    requires '{' !in a && '{' !in b && '{' !in c && '{' !in d
    requires '{' !in v1 && '{' !in v2 && '{' !in v3
    requires '$' !in v1 && '$' !in v2 && '$' !in v3 && '$' !in v4
    ensures ReplaceFirst(ReplaceFirst(ReplaceFirst(ReplaceFirst(
              a + p1 + b + p2 + c + p3 + d + p4 + e, p1, v1), p2, v2), p3, v3), p4, v4)
            == a + v1 + b + v2 + c + v3 + d + v4 + e
  {
    ReplacePlain(a, p1, b + p2 + c + p3 + d + p4 + e, v1);
    ReplacePlain(a + v1 + b, p2, c + p3 + d + p4 + e, v2);
    ReplacePlain(a + v1 + b + v2 + c, p3, d + p4 + e, v3);
    ReplacePlain(a + v1 + b + v2 + c + v3 + d, p4, e, v4);
    Regroup(a, p1, b, p2, c, p3, d, p4, e);
    Regroup(a, v1, b, p2, c, p3, d, p4, e);
    Regroup(a, v1, b, v2, c, p3, d, p4, e);
    Regroup(a, v1, b, v2, c, v3, d, p4, e);
    Regroup(a, v1, b, v2, c, v3, d, v4, e);
  }

  /** The bracketings of a nine-part concatenation that the steps above use. */
  lemma Regroup(a: string, p1: string, b: string, p2: string, c: string, p3: string, d: string, p4: string, e: string)
    ensures a + p1 + b + p2 + c + p3 + d + p4 + e == a + p1 + (b + p2 + c + p3 + d + p4 + e)
    ensures a + p1 + b + p2 + c + p3 + d + p4 + e == (a + p1 + b) + p2 + (c + p3 + d + p4 + e)
    ensures a + p1 + b + p2 + c + p3 + d + p4 + e == (a + p1 + b + p2 + c) + p3 + (d + p4 + e)
    ensures a + p1 + b + p2 + c + p3 + d + p4 + e == (a + p1 + b + p2 + c + p3 + d) + p4 + e
  {
  }

  /**
   * A template holding each placeholder once, in the order host, user,
   * limit, offset, between spans without `{`, with values without `{` or
   * `$`, yields the template with exactly those four spans replaced.
   */
  lemma FillEachOnce(a: string, b: string, c: string, d: string, e: string,
                     host: string, user: string, limit: nat, offset: nat)
    requires '{' !in a && '{' !in b && '{' !in c && '{' !in d
    requires '{' !in host && '$' !in host && '{' !in user && '$' !in user
    ensures Fill(a + HostPlaceholder + b + UserPlaceholder + c + LimitPlaceholder + d + OffsetPlaceholder + e,
                 host, user, limit, offset)
            == a + host + b + user + c + DecimalString(limit) + d + DecimalString(offset) + e
  {
    DecimalStringIsPlain(limit);
    DecimalStringIsPlain(offset);
    ReplaceFourInOrder(a, b, c, d, e, HostPlaceholder, UserPlaceholder, LimitPlaceholder, OffsetPlaceholder,
                       host, user, DecimalString(limit), DecimalString(offset));
  }

  /*
   * Templates in any order. A template is read as a list of pieces, each a
   * span without `{` or one of the four placeholders, no placeholder twice.
   * A placeholder cannot start inside a span (no `{`) nor inside another
   * placeholder (the four differ at their third character), so each
   * `replace` call rewrites exactly the piece holding its placeholder.
   */

  /** No `{`: no placeholder can start here. */
  predicate Plain(t: string) {
    '{' !in t
  }

  predicate IsPlaceholder(t: string) {
    t == HostPlaceholder || t == UserPlaceholder || t == LimitPlaceholder || t == OffsetPlaceholder
  }

  /** The shape every placeholder has: `{{`, then no further `{`. */
  predicate Braced(q: string) {
    |q| >= 3 && q[0] == '{' && q[1] == '{' && forall j :: 2 <= j < |q| ==> q[j] != '{'
  }

  /** `t` cannot hold the start of a match of the braced pattern `p`. */
  predicate Apart(t: string, p: string)
    requires |p| >= 3
  {
    Plain(t) || (Braced(t) && t[2] != p[2])
  }

  /** A list of spans and placeholders in which no placeholder appears twice. */
  predicate Pieces(ts: seq<string>) {
    && (forall k :: 0 <= k < |ts| ==> Plain(ts[k]) || IsPlaceholder(ts[k]))
    && (forall i, j :: 0 <= i < j < |ts| && IsPlaceholder(ts[i]) ==> ts[i] != ts[j])
  }

  /** The text of a list of pieces. */
  function Concat(ts: seq<string>): (r: string)
    ensures ts == [] ==> r == []
  {
    if ts == [] then [] else ts[0] + Concat(ts[1..])
  }

  lemma {:induction false} ConcatAppend(a: seq<string>, b: seq<string>)
    ensures Concat(a + b) == Concat(a) + Concat(b)
  {
    if a != [] {
      assert (a + b)[1..] == a[1..] + b;
      ConcatAppend(a[1..], b);
    } else {
      assert a + b == b;
    }
  }

  /** Every placeholder opens with `{{` and has no other `{`. */
  lemma PlaceholderShape(q: string)
    requires IsPlaceholder(q)
    ensures |q| >= 3 && q[0] == '{' && q[1] == '{'
    ensures forall j :: 2 <= j < |q| ==> q[j] != '{'
  {
  }

  /** Two different placeholders differ at their third character. */
  lemma PlaceholdersDifferAtKey(p: string, q: string)
    requires IsPlaceholder(p) && IsPlaceholder(q) && p != q
    ensures p[2] != q[2]
  {
  }

  /** A placeholder is never a span. */
  lemma PlaceholdersAreNotPlain()
    ensures !Plain(HostPlaceholder) && !Plain(UserPlaceholder) && !Plain(LimitPlaceholder) && !Plain(OffsetPlaceholder)
  {
    assert HostPlaceholder[0] == '{' && UserPlaceholder[0] == '{';
    assert LimitPlaceholder[0] == '{' && OffsetPlaceholder[0] == '{';
  }

  /** Pieces other than `p` are apart from it. */
  lemma PiecesApart(a: seq<string>, p: string)
    requires forall j :: 0 <= j < |a| ==> Plain(a[j]) || IsPlaceholder(a[j])
    requires IsPlaceholder(p) && p !in a
    ensures Braced(p)
    ensures forall j :: 0 <= j < |a| ==> Apart(a[j], p)
  {
    PlaceholderShape(p);
    forall j | 0 <= j < |a| ensures Apart(a[j], p) {
      if IsPlaceholder(a[j]) {
        PlaceholderShape(a[j]);
        PlaceholdersDifferAtKey(a[j], p);
      }
    }
  }

  /** A match of `p` at an index of `t` fails when `t` is apart from `p`, whatever follows. */
  lemma PieceNoMatch(t: string, w: string, p: string, i: nat)
    requires Braced(p) && Apart(t, p) && i < |t|
    ensures !MatchAt(t + w, p, i)
  {
    var s := t + w;
    if i + |p| <= |s| {
      var m := s[i..i + |p|];
      assert m[0] == t[i];
      if Plain(t) {
        assert t[i] in t;
      } else {
        if i == 0 {
          assert m[2] == t[2];
        } else if i == 1 {
          assert m[1] == t[2];
        }
      }
    }
  }

  /** Past a prefix `t`, matching in `t + w` is matching in `w`. */
  lemma MatchShift(t: string, w: string, p: string, i: nat)
    requires i >= |t|
    ensures MatchAt(t + w, p, i) == MatchAt(w, p, i - |t|)
  {
    if i + |p| <= |t + w| {
      assert (t + w)[i..i + |p|] == w[i - |t|..i - |t| + |p|];
    }
  }

  /** A braced pattern matches at no position of pieces apart from it, whatever follows. */
  lemma {:induction false} PiecesNoMatch(ts: seq<string>, z: string, p: string)
    requires Braced(p) && forall k :: 0 <= k < |ts| ==> Apart(ts[k], p)
    ensures forall i: nat :: i < |Concat(ts)| ==> !MatchAt(Concat(ts) + z, p, i)
  {
    if ts != [] {
      var t, w := ts[0], Concat(ts[1..]) + z;
      assert Concat(ts) + z == t + w;
      PiecesNoMatch(ts[1..], z, p);
      forall i: nat | i < |Concat(ts)| ensures !MatchAt(t + w, p, i) {
        if i < |t| {
          PieceNoMatch(t, w, p, i);
        } else {
          MatchShift(t, w, p, i);
        }
      }
    }
  }

  /** Every piece equal to `p` becomes `v`. */
  function ReplacePiece(ts: seq<string>, p: string, v: string): (r: seq<string>)
    ensures |r| == |ts|
    ensures forall k :: 0 <= k < |ts| ==> r[k] == if ts[k] == p then v else ts[k]
  {
    if ts == [] then [] else [if ts[0] == p then v else ts[0]] + ReplacePiece(ts[1..], p, v)
  }

  /** `replace` of a placeholder absent from the pieces changes nothing. */
  lemma ReplaceAbsentPiece(ts: seq<string>, p: string, v: string)
    requires forall k :: 0 <= k < |ts| ==> Plain(ts[k]) || IsPlaceholder(ts[k])
    requires IsPlaceholder(p) && p !in ts
    ensures ReplaceFirst(Concat(ts), p, v) == Concat(ReplacePiece(ts, p, v))
  {
    PiecesApart(ts, p);
    PiecesNoMatch(ts, [], p);
    assert Concat(ts) + [] == Concat(ts);
    assert ReplacePiece(ts, p, v) == ts;
  }

  /** `replace` of the placeholder held once, by piece `k`, rewrites that piece alone. */
  lemma ReplacePresentPiece(ts: seq<string>, k: nat, p: string, v: string)
    requires forall j :: 0 <= j < |ts| ==> Plain(ts[j]) || IsPlaceholder(ts[j])
    requires IsPlaceholder(p) && k < |ts| && ts[k] == p && p !in ts[..k] && p !in ts[k + 1..]
    requires '$' !in v
    ensures ReplaceFirst(Concat(ts), p, v) == Concat(ReplacePiece(ts, p, v))
  {
    var a, b := ts[..k], ts[k + 1..];
    assert ts == a + [p] + b;
    ConcatAround(a, p, b);
    PiecesApart(a, p);
    ReplaceAfterPieces(a, p, Concat(b), v);
    ReplacePieceAround(a, p, b, v);
    ConcatAround(a, v, b);
  }

  /** Rewriting the only `p` among the pieces. */
  lemma ReplacePieceAround(a: seq<string>, p: string, b: seq<string>, v: string)
    requires p !in a && p !in b
    ensures ReplacePiece(a + [p] + b, p, v) == a + [v] + b
  {
    var r := ReplacePiece(a + [p] + b, p, v);
    forall k | 0 <= k < |r| ensures r[k] == (a + [v] + b)[k] {
      if k < |a| {
        assert (a + [p] + b)[k] == a[k];
      } else if k > |a| {
        assert (a + [p] + b)[k] == b[k - |a| - 1];
      }
    }
  }

  /** Pieces apart from `p`, then `p`: `replace` rewrites that `p`. */
  lemma ReplaceAfterPieces(a: seq<string>, p: string, y: string, v: string)
    requires Braced(p) && (forall j :: 0 <= j < |a| ==> Apart(a[j], p)) && '$' !in v
    ensures ReplaceFirst(Concat(a) + p + y, p, v) == Concat(a) + v + y
  {
    PiecesNoMatch(a, p + y, p);
    ReplaceVerbatimAt(Concat(a), p, y, v);
  }

  /** With no earlier match, a replacement without `$` goes in verbatim. */
  lemma ReplaceVerbatimAt(x: string, p: string, y: string, v: string)
    requires forall i: nat :: i < |x| ==> !MatchAt(x + (p + y), p, i)
    requires '$' !in v
    ensures ReplaceFirst(x + p + y, p, v) == x + v + y
  {
    assert x + (p + y) == x + p + y;
    ReplaceFirstAt(x, p, y, v);
  }

  /** The text of pieces `a`, then `q`, then `b`. */
  lemma ConcatAround(a: seq<string>, q: string, b: seq<string>)
    ensures Concat(a + [q] + b) == Concat(a) + q + Concat(b)
  {
    ConcatAppend(a + [q], b);
    ConcatAppend(a, [q]);
    assert Concat([q]) == q + Concat([]);
  }

  /** One `replace` call on a template of pieces: it rewrites the piece holding `p`, and the result is again such a template. */
  lemma ReplaceStep(ts: seq<string>, p: string, v: string)
    requires Pieces(ts) && IsPlaceholder(p) && Plain(v) && '$' !in v
    ensures ReplaceFirst(Concat(ts), p, v) == Concat(ReplacePiece(ts, p, v))
    ensures Pieces(ReplacePiece(ts, p, v))
  {
    if p in ts {
      var k :| 0 <= k < |ts| && ts[k] == p;
      forall j | 0 <= j < |ts| && j != k ensures ts[j] != p {
        if j < k { assert ts[j] != ts[k]; } else { assert ts[k] != ts[j]; }
      }
      assert p !in ts[..k];
      assert p !in ts[k + 1..];
      ReplacePresentPiece(ts, k, p, v);
    } else {
      ReplaceAbsentPiece(ts, p, v);
    }
    ReplaceKeepsPieces(ts, p, v);
  }

  /** Replacing a placeholder by a span leaves a template of pieces. */
  lemma ReplaceKeepsPieces(ts: seq<string>, p: string, v: string)
    requires Pieces(ts) && Plain(v)
    ensures Pieces(ReplacePiece(ts, p, v))
  {
    PlaceholdersAreNotPlain();
    var r := ReplacePiece(ts, p, v);
    forall i, j | 0 <= i < j < |r| && IsPlaceholder(r[i]) ensures r[i] != r[j] {
      assert r[i] == ts[i];
    }
  }

  /** What a piece becomes once the template is filled. */
  function Subst(t: string, host: string, user: string, limit: nat, offset: nat): (r: string)
    ensures !IsPlaceholder(t) ==> r == t
  {
    if t == HostPlaceholder then host
    else if t == UserPlaceholder then user
    else if t == LimitPlaceholder then DecimalString(limit)
    else if t == OffsetPlaceholder then DecimalString(offset)
    else t
  }

  /** The four `replace` calls of Fill, one piece rewrite each. */
  lemma FillByPieces(ts: seq<string>, host: string, user: string, limit: nat, offset: nat)
    requires Pieces(ts)
    requires Plain(host) && '$' !in host && Plain(user) && '$' !in user
    ensures Fill(Concat(ts), host, user, limit, offset)
            == Concat(ReplacePiece(ReplacePiece(ReplacePiece(ReplacePiece(ts,
                 HostPlaceholder, host), UserPlaceholder, user),
                 LimitPlaceholder, DecimalString(limit)), OffsetPlaceholder, DecimalString(offset)))
  {
    DecimalStringIsPlain(limit);
    DecimalStringIsPlain(offset);
    var t1 := ReplacePiece(ts, HostPlaceholder, host);
    ReplaceStep(ts, HostPlaceholder, host);
    var t2 := ReplacePiece(t1, UserPlaceholder, user);
    ReplaceStep(t1, UserPlaceholder, user);
    var t3 := ReplacePiece(t2, LimitPlaceholder, DecimalString(limit));
    ReplaceStep(t2, LimitPlaceholder, DecimalString(limit));
    ReplaceStep(t3, OffsetPlaceholder, DecimalString(offset));
  }

  /** What the four rewrites do to one piece is Subst, since no value is a placeholder. */
  lemma SubstOnePiece(t: string, host: string, user: string, limit: nat, offset: nat)
    requires Plain(host) && Plain(user)
    ensures var l, o := DecimalString(limit), DecimalString(offset);
            var t1 := if t == HostPlaceholder then host else t;
            var t2 := if t1 == UserPlaceholder then user else t1;
            var t3 := if t2 == LimitPlaceholder then l else t2;
            (if t3 == OffsetPlaceholder then o else t3) == Subst(t, host, user, limit, offset)
  {
    DecimalStringIsPlain(limit);
    PlaceholdersAreNotPlain();
  }

  /**
   * Whatever order the placeholders come in, and whichever of them the
   * template holds, filling it replaces each placeholder by its value and
   * leaves the spans alone, provided the host and user values hold no `{`
   * and no `$`.
   */
  lemma FillAnyOrder(ts: seq<string>, host: string, user: string, limit: nat, offset: nat)
    requires Pieces(ts)
    requires Plain(host) && '$' !in host && Plain(user) && '$' !in user
    ensures var filled := seq(|ts|, k requires 0 <= k < |ts| => Subst(ts[k], host, user, limit, offset));
            Fill(Concat(ts), host, user, limit, offset) == Concat(filled)
  {
    FillByPieces(ts, host, user, limit, offset);
    var t1 := ReplacePiece(ts, HostPlaceholder, host);
    var t2 := ReplacePiece(t1, UserPlaceholder, user);
    var t3 := ReplacePiece(t2, LimitPlaceholder, DecimalString(limit));
    var t4 := ReplacePiece(t3, OffsetPlaceholder, DecimalString(offset));
    var filled := seq(|ts|, k requires 0 <= k < |ts| => Subst(ts[k], host, user, limit, offset));
    forall k | 0 <= k < |ts| ensures t4[k] == filled[k] {
      SubstOnePiece(ts[k], host, user, limit, offset);
    }
    assert t4 == filled;
  }

  /** A string without `{` holds no placeholder. */
  lemma NoBraceNoMatch(s: string, pat: string)
    requires |pat| > 0 && pat[0] == '{' && '{' !in s
    ensures forall i: nat :: !MatchAt(s, pat, i)
  {
    forall i: nat ensures !MatchAt(s, pat, i) {
      if i + |pat| <= |s| {
        assert s[i..i + |pat|][0] == s[i];
      }
    }
  }

  /**
   * The replacements are sequential, not simultaneous: when the host value
   * is itself the text `{{user}}`, the next step overwrites it with the user
   * name.
   */
  lemma FillIsSequential(user: string, limit: nat, offset: nat)
    requires '{' !in user && '$' !in user
    ensures Fill(HostPlaceholder, UserPlaceholder, user, limit, offset) == user
  {
    assert HostPlaceholder == [] + HostPlaceholder + [];
    ReplacePlain([], HostPlaceholder, [], UserPlaceholder);
    assert UserPlaceholder == [] + UserPlaceholder + [];
    ReplacePlain([], UserPlaceholder, [], user);
    assert [] + user + [] == user;
    NoBraceNoMatch(user, LimitPlaceholder);
    NoBraceNoMatch(user, OffsetPlaceholder);
  }


  /**
   * A complete example: the template
   * `https://eng/api?host={{host}}&user={{user}}&limit={{limit}}&offset={{offset}}`
   * (written below piece by piece) with host `example.social`, user `alice`,
   * limit 5 and offset 0.
   */
  lemma FillExample(template: string, host: string, user: string)
    requires template == "https://eng/api?host=" + HostPlaceholder + "&user=" + UserPlaceholder
                         + "&limit=" + LimitPlaceholder + "&offset=" + OffsetPlaceholder
    requires host == "example.social" && user == "alice"
    ensures Fill(template, host, user, 5, 0) == "https://eng/api?host=example.social&user=alice&limit=5&offset=0"
  {
    var a, b, c, d := "https://eng/api?host=", "&user=", "&limit=", "&offset=";
    assert template == a + HostPlaceholder + b + UserPlaceholder + c + LimitPlaceholder + d + OffsetPlaceholder + "";
    FillEachOnce(a, b, c, d, "", host, user, 5, 0);
    assert DecimalString(5) == "5" && DecimalString(0) == "0";
    ExampleUrl(a, b, c, d, host, user);
  }

  lemma ExampleUrl(a: string, b: string, c: string, d: string, host: string, user: string)
    requires a == "https://eng/api?host=" && b == "&user=" && c == "&limit=" && d == "&offset="
    requires host == "example.social" && user == "alice"
    ensures a + host + b + user + c + "5" + d + "0" + "" == "https://eng/api?host=example.social&user=alice&limit=5&offset=0"
  {
  }
}
