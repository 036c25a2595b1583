/** URL rewriting of the resolution server: one rewrite step over the
    ordered rule table (`applySingleMapping`) and the bounded chain of steps
    (`applyMappings`) that the document loader runs before every fetch.

    A rule whose pattern contains `*` is a wildcard rule: the pattern is
    compiled to the anchored regular expression `^L0(.*)L1(.*)...Lk$`, where
    the Li are the literal pieces between the stars (every other
    metacharacter is escaped), and `.` does not match line terminators. */
module Rewrite {
  import opened Common

  /** The rule table `urlMappings`: pattern to replacement template, in the
      order of the object's keys. */
  type Rules = Entries<string>

  /** The default `maxDepth` of `applyMappings`. */
  const MAX_MAPPING_DEPTH: int := 10

  // ---------------------------------------------------------------------
  // Patterns: literal pieces separated by stars.

  function JoinStars(pieces: seq<string>): string
    requires |pieces| >= 1
    decreases |pieces|
  {
    if |pieces| == 1 then pieces[0] else pieces[0] + "*" + JoinStars(pieces[1..])
  }

  /** The literal pieces of a pattern, in order; `*` separates them. */
  function SplitStars(p: string): (pieces: seq<string>)
    ensures |pieces| >= 1
    ensures forall i :: 0 <= i < |pieces| ==> '*' !in pieces[i]
    ensures '*' in p <==> |pieces| >= 2
    decreases |p|
  {
    if |p| == 0 then [""]
    else
      var rest := SplitStars(p[1..]);
      assert p == [p[0]] + p[1..];
      if p[0] == '*' then [""] + rest
      else [[p[0]] + rest[0]] + rest[1..]
  }

  lemma SplitStarsCons(c: char, s: string)
    requires c != '*'
    ensures SplitStars([c] + s) == [[c] + SplitStars(s)[0]] + SplitStars(s)[1..]
  {
    assert ([c] + s)[1..] == s;
  }

  lemma SplitStarsStar(s: string)
    ensures SplitStars("*" + s) == [""] + SplitStars(s)
  {
    assert ("*" + s)[1..] == s;
  }

  /** Joining undoes splitting: a pattern is exactly its pieces and stars. */
  lemma {:induction false} JoinSplit(p: string)
    ensures JoinStars(SplitStars(p)) == p
    decreases |p|
  {
    if |p| > 0 {
      var rest := SplitStars(p[1..]);
      JoinSplit(p[1..]);
      assert p == [p[0]] + p[1..];
      if p[0] == '*' {
        SplitStarsStar(p[1..]);
        assert ([""] + rest)[1..] == rest;
      } else {
        SplitStarsCons(p[0], p[1..]);
        var pieces := [[p[0]] + rest[0]] + rest[1..];
        assert pieces[1..] == rest[1..];
        if |rest| >= 2 {
          assert JoinStars(rest) == rest[0] + "*" + JoinStars(rest[1..]);
          assert JoinStars(pieces) == [p[0]] + rest[0] + "*" + JoinStars(rest[1..]);
        }
      }
    }
  }

  lemma {:induction false} SplitStarsOfPrefix(a: string, t: string)
    requires '*' !in a
    ensures SplitStars(a + t) == [a + SplitStars(t)[0]] + SplitStars(t)[1..]
    decreases |a|
  {
    var x := SplitStars(t);
    if |a| == 0 {
      assert a + t == t;
      assert a + x[0] == x[0];
      assert [a + x[0]] + x[1..] == x;
    } else {
      assert a + t == [a[0]] + (a[1..] + t);
      SplitStarsCons(a[0], a[1..] + t);
      SplitStarsOfPrefix(a[1..], t);
      var rest := SplitStars(a[1..] + t);
      assert rest[0] == a[1..] + x[0] && rest[1..] == x[1..];
      assert [a[0]] + (a[1..] + x[0]) == a + x[0];
    }
  }

  /** Splitting undoes joining, for pieces without stars. */
  lemma {:induction false} SplitJoin(pieces: seq<string>)
    requires |pieces| >= 1
    requires forall i :: 0 <= i < |pieces| ==> '*' !in pieces[i]
    ensures SplitStars(JoinStars(pieces)) == pieces
    decreases |pieces|
  {
    if |pieces| == 1 {
      SplitStarsOfPrefix(pieces[0], "");
      assert pieces[0] + "" == pieces[0];
    } else {
      var tail := JoinStars(pieces[1..]);
      SplitJoin(pieces[1..]);
      assert pieces[0] + "*" + tail == pieces[0] + ("*" + tail);
      SplitStarsOfPrefix(pieces[0], "*" + tail);
      SplitStarsStar(tail);
      assert pieces[0] + "" == pieces[0];
      assert pieces == [pieces[0] + ""] + pieces[1..];
    }
  }

  // ---------------------------------------------------------------------
  // Regular-expression semantics of a wildcard pattern.

  /** The characters JavaScript's `.` does not match. */
  predicate IsLineTerminator(c: char)
  {
    c == '\n' || c == '\r' || c == '\U{2028}' || c == '\U{2029}'
  }

  predicate NoLineTerminator(s: string)
  {
    forall i :: 0 <= i < |s| ==> !IsLineTerminator(s[i])
  }

  /** pieces[0] + caps[0] + pieces[1] + ... + pieces[k]. */
  function Interleave(pieces: seq<string>, caps: seq<string>): string
    requires |caps| + 1 == |pieces|
    decreases |caps|
  {
    if |caps| == 0 then pieces[0]
    else pieces[0] + caps[0] + Interleave(pieces[1..], caps[1..])
  }

  /** `caps` are group texts under which `^pieces(.*)...$` matches `s`. */
  ghost predicate Decomposes(s: string, pieces: seq<string>, caps: seq<string>)
  {
    && |caps| + 1 == |pieces|
    && Interleave(pieces, caps) == s
    && forall i :: 0 <= i < |caps| ==> NoLineTerminator(caps[i])
  }

  /** The match of `^pieces[0](.*)pieces[1]...(.*)pieces[k]$` against `s`,
      with the groups it captures; each `(.*)` is greedy and backtracks. */
  function MatchPieces(s: string, pieces: seq<string>): (r: Option<seq<string>>)
    requires |pieces| >= 1
    ensures r.Some? ==> Decomposes(s, pieces, r.value)
    decreases |pieces|, 0, 0
  {
    if !StartsWith(s, pieces[0]) then None
    else if |pieces| == 1 then (if |s| == |pieces[0]| then Some([]) else None)
    else
      var rest := s[|pieces[0]|..];
      var r := MatchGreedy(rest, pieces[1..], |rest|);
      if r.Some? then
        assert s == pieces[0] + rest;
        Some(r.value)
      else None
  }

  /** Try the next group with the lengths n, n - 1, ..., 0 (longest first). */
  function MatchGreedy(rest: string, pieces: seq<string>, n: nat): (r: Option<seq<string>>)
    requires |pieces| >= 1
    requires n <= |rest|
    ensures r.Some? ==> Decomposes(rest, [""] + pieces, r.value)
    decreases |pieces|, 1, n
  {
    var attempt := if NoLineTerminator(rest[..n]) then MatchPieces(rest[n..], pieces) else None;
    if attempt.Some? then
      var caps := [rest[..n]] + attempt.value;
      assert caps[1..] == attempt.value && ([""] + pieces)[1..] == pieces;
      assert rest == "" + rest[..n] + rest[n..];
      Some(caps)
    else if n == 0 then None
    else MatchGreedy(rest, pieces, n - 1)
  }

  lemma {:induction false} MatchGreedyComplete(rest: string, pieces: seq<string>, n: nat, m: nat)
    requires |pieces| >= 1
    requires m <= n <= |rest|
    requires NoLineTerminator(rest[..m]) && MatchPieces(rest[m..], pieces).Some?
    ensures MatchGreedy(rest, pieces, n).Some?
    decreases n
  {
    if n > m && !(NoLineTerminator(rest[..n]) && MatchPieces(rest[n..], pieces).Some?) {
      MatchGreedyComplete(rest, pieces, n - 1, m);
    }
  }

  /** Every decomposition is found: the match fails only when none exists. */
  lemma {:induction false} MatchPiecesComplete(s: string, pieces: seq<string>, caps: seq<string>)
    requires Decomposes(s, pieces, caps)
    ensures MatchPieces(s, pieces).Some?
    decreases |caps|
  {
    if |caps| > 0 {
      var tail := Interleave(pieces[1..], caps[1..]);
      assert s == pieces[0] + (caps[0] + tail);
      var rest := s[|pieces[0]|..];
      assert rest == caps[0] + tail;
      assert rest[..|caps[0]|] == caps[0] && rest[|caps[0]|..] == tail;
      assert Decomposes(tail, pieces[1..], caps[1..]) by {
        forall i | 0 <= i < |caps| - 1 ensures NoLineTerminator(caps[1..][i]) {
          assert caps[1..][i] == caps[i + 1];
        }
      }
      MatchPiecesComplete(tail, pieces[1..], caps[1..]);
      assert NoLineTerminator(caps[0]);
      MatchGreedyComplete(rest, pieces[1..], |rest|, |caps[0]|);
    }
  }

  function MatchPattern(pattern: string, url: string): (r: Option<seq<string>>)
    ensures r.Some? ==> Decomposes(url, SplitStars(pattern), r.value)
  {
    MatchPieces(url, SplitStars(pattern))
  }

  /** A pattern matches a url exactly when the url decomposes around the
      pattern's literal pieces (anchored at both ends, stars matching any
      text without line terminators). */
  lemma MatchPatternIff(pattern: string, url: string)
    ensures MatchPattern(pattern, url).Some? <==> exists caps :: Decomposes(url, SplitStars(pattern), caps)
  {
    var m := MatchPattern(pattern, url);
    if m.Some? {
      var caps := m.value;
      assert Decomposes(url, SplitStars(pattern), caps);
      assert exists c :: Decomposes(url, SplitStars(pattern), c);
    } else if exists caps :: Decomposes(url, SplitStars(pattern), caps) {
      var caps :| Decomposes(url, SplitStars(pattern), caps);
      MatchPiecesComplete(url, SplitStars(pattern), caps);
      assert false;
    }
  }

  lemma {:induction false} MatchGreedyLastPiece(rest: string, suffix: string, n: nat)
    requires n <= |rest|
    ensures MatchGreedy(rest, [suffix], n) ==
      if |suffix| <= |rest| && |rest| - |suffix| <= n && EndsWith(rest, suffix)
         && NoLineTerminator(rest[..|rest| - |suffix|])
      then Some([rest[..|rest| - |suffix|]]) else None
    decreases n
  {
    var k := |rest| - |suffix|;
    var tailMatch := MatchPieces(rest[n..], [suffix]);
    assert tailMatch == if rest[n..] == suffix then Some([]) else None;
    if |suffix| <= |rest| && k == n {
      assert rest[n..] == suffix <==> EndsWith(rest, suffix);
    } else {
      assert rest[n..] != suffix by {
        if |suffix| <= |rest| { assert |rest[n..]| != |suffix|; }
      }
    }
    if NoLineTerminator(rest[..n]) && tailMatch.Some? {
      assert [rest[..n]] + tailMatch.value == [rest[..n]];
    } else if n > 0 {
      MatchGreedyLastPiece(rest, suffix, n - 1);
    }
  }

  /** A single-star pattern `P*S` matches a url exactly when the url starts
      with P, ends with S, is at least as long as both together, and the text
      between them has no line terminator; that text is the captured group. */
  lemma SingleStarMatch(prefix: string, suffix: string, url: string)
    requires '*' !in prefix && '*' !in suffix
    ensures MatchPattern(prefix + "*" + suffix, url) ==
      if |prefix| + |suffix| <= |url| && StartsWith(url, prefix) && EndsWith(url, suffix)
         && NoLineTerminator(url[|prefix|..|url| - |suffix|])
      then Some([url[|prefix|..|url| - |suffix|]]) else None
  {
    var pieces := [prefix, suffix];
    SplitJoin(pieces);
    assert JoinStars(pieces) == prefix + "*" + suffix;
    assert MatchPattern(prefix + "*" + suffix, url) == MatchPieces(url, pieces);
    if StartsWith(url, prefix) {
      var rest := url[|prefix|..];
      assert pieces[1..] == [suffix];
      assert MatchPieces(url, pieces) == MatchGreedy(rest, [suffix], |rest|);
      MatchGreedyLastPiece(rest, suffix, |rest|);
      if |suffix| <= |rest| {
        assert rest[..|rest| - |suffix|] == url[|prefix|..|url| - |suffix|];
        assert rest[|rest| - |suffix|..] == url[|url| - |suffix|..];
      }
    }
  }

  // ---------------------------------------------------------------------
  // Placeholder substitution in the replacement template.

  /** `s.replace(/needle/g, ins)` for a literal needle: leftmost,
      non-overlapping occurrences, scanned left to right. */
  function ReplaceAll(s: string, needle: string, ins: string): string
    requires |needle| > 0
    decreases |s|
  {
    if |s| == 0 then ""
    else if StartsWith(s, needle) then ins + ReplaceAll(s[|needle|..], needle, ins)
    else [s[0]] + ReplaceAll(s[1..], needle, ins)
  }

  const REST_PLACEHOLDER := "${rest}"

  /** The placeholder `$i` for group i. */
  function GroupPlaceholder(i: nat): string
  {
    "$" + NatToString(i)
  }

  /** Replace `$i`, `$i+1`, ... by the corresponding groups, in that order. */
  function SubstituteGroups(r: string, groups: seq<string>, i: nat): string
    requires i <= |groups|
    decreases |groups| - i
  {
    if i == |groups| then r
    else SubstituteGroups(ReplaceAll(r, GroupPlaceholder(i), groups[i]), groups, i + 1)
  }

  /** The replacement template with `${rest}` replaced by the first group,
      then `$0` by the whole url and `$i` by group i. */
  function Substitute(template: string, url: string, caps: seq<string>): string
    requires |caps| >= 1
  {
    SubstituteGroups(ReplaceAll(template, REST_PLACEHOLDER, caps[0]), [url] + caps, 0)
  }

  lemma {:induction false} ReplaceAllNoDollar(s: string, needle: string, ins: string)
    requires |needle| > 0 && needle[0] == '$'
    requires '$' !in s
    ensures ReplaceAll(s, needle, ins) == s
    decreases |s|
  {
    if |s| > 0 {
      assert s[0] != '$';
      ReplaceAllNoDollar(s[1..], needle, ins);
      assert s == [s[0]] + s[1..];
    }
  }

  lemma {:induction false} ReplaceAllSkip(a: string, b: string, needle: string, ins: string)
    requires |needle| > 0 && needle[0] == '$'
    requires '$' !in a
    ensures ReplaceAll(a + b, needle, ins) == a + ReplaceAll(b, needle, ins)
    decreases |a|
  {
    if |a| > 0 {
      assert (a + b)[0] == a[0] != '$';
      assert (a + b)[1..] == a[1..] + b;
      ReplaceAllSkip(a[1..], b, needle, ins);
      assert a == [a[0]] + a[1..];
    } else {
      assert a + b == b;
    }
  }

  lemma ReplaceAllHit(needle: string, b: string, ins: string)
    requires |needle| > 0
    ensures ReplaceAll(needle + b, needle, ins) == ins + ReplaceAll(b, needle, ins)
  {
    var s := needle + b;
    assert s[..|needle|] == needle && s[|needle|..] == b;
  }

  lemma ReplaceAllMissToken(token: string, b: string, needle: string, ins: string)
    requires |needle| >= 2 && needle[0] == '$'
    requires |token| >= 2 && token[0] == '$' && '$' !in token[1..] && token[1] != needle[1]
    requires '$' !in b
    ensures ReplaceAll(token + b, needle, ins) == token + b
  {
    var s := token + b;
    assert s[1] == token[1];
    assert !StartsWith(s, needle) by {
      if |needle| <= |s| { assert s[..|needle|][1] == s[1]; }
    }
    assert s[1..] == token[1..] + b;
    ReplaceAllNoDollar(token[1..] + b, needle, ins);
    assert ReplaceAll(s, needle, ins) == [s[0]] + ReplaceAll(s[1..], needle, ins);
    assert [s[0]] + (token[1..] + b) == s;
  }

  /** Replacing a placeholder in a text whose only `$` opens one token. */
  lemma ReplaceAllToken(a: string, token: string, b: string, needle: string, ins: string)
    requires |needle| >= 2 && needle[0] == '$'
    requires |token| >= 2 && token[0] == '$' && '$' !in token[1..]
    requires token == needle || token[1] != needle[1]
    requires '$' !in a && '$' !in b && '$' !in ins
    ensures ReplaceAll(a + token + b, needle, ins) == a + (if token == needle then ins else token) + b
  {
    var tb := token + b;
    assert a + token + b == a + tb;
    ReplaceAllSkip(a, tb, needle, ins);
    var rest := ReplaceAll(tb, needle, ins);
    if token == needle {
      ReplaceAllHit(needle, b, ins);
      ReplaceAllNoDollar(b, needle, ins);
      assert rest == ins + b;
      assert a + (ins + b) == a + ins + b;
    } else {
      ReplaceAllMissToken(token, b, needle, ins);
      assert rest == tb;
    }
  }

  lemma SubstituteGroupsDollarFree(r: string, groups: seq<string>, i: nat)
    requires i <= |groups|
    requires '$' !in r
    requires forall k :: 0 <= k < |groups| ==> '$' !in groups[k]
    ensures SubstituteGroups(r, groups, i) == r
    decreases |groups| - i
  {
    if i < |groups| {
      ReplaceAllNoDollar(r, GroupPlaceholder(i), groups[i]);
      SubstituteGroupsDollarFree(r, groups, i + 1);
    }
  }

  /** With one group, `${rest}` and `$1` become the captured text and `$0`
      the whole url (for text free of `$` around the placeholder). */
  lemma SubstituteSinglePlaceholder(a: string, token: string, b: string, url: string, cap: string)
    requires token == REST_PLACEHOLDER || token == "$0" || token == "$1"
    requires '$' !in a && '$' !in b && '$' !in url && '$' !in cap
    ensures Substitute(a + token + b, url, [cap]) == a + (if token == "$0" then url else cap) + b
  {
    var groups := [url, cap];
    assert [url] + [cap] == groups;
    assert GroupPlaceholder(0) == "$0" && GroupPlaceholder(1) == "$1";
    var v := if token == "$0" then url else cap;
    ReplaceAllToken(a, token, b, REST_PLACEHOLDER, cap);
    var r1 := ReplaceAll(a + token + b, REST_PLACEHOLDER, cap);
    assert Substitute(a + token + b, url, [cap]) == SubstituteGroups(r1, groups, 0);
    if token == REST_PLACEHOLDER {
      assert r1 == a + cap + b;
      SubstituteGroupsDollarFree(r1, groups, 0);
    } else {
      assert r1 == a + token + b;
      ReplaceAllToken(a, token, b, "$0", url);
      var r2 := ReplaceAll(r1, "$0", url);
      assert SubstituteGroups(r1, groups, 0) == SubstituteGroups(r2, groups, 1);
      if token == "$0" {
        assert r2 == a + url + b;
        SubstituteGroupsDollarFree(r2, groups, 1);
      } else {
        assert r2 == a + token + b;
        ReplaceAllToken(a, token, b, "$1", cap);
        var r3 := ReplaceAll(r2, "$1", cap);
        assert r3 == a + cap + b;
        assert SubstituteGroups(r2, groups, 1) == SubstituteGroups(r3, groups, 2);
        assert SubstituteGroups(r3, groups, 2) == r3;
      }
    }
  }

  /** A pass moves past a different `$` placeholder at the front and
      continues after it. */
  lemma ReplaceAllOtherToken(token: string, b: string, needle: string, ins: string)
    requires |needle| >= 2 && needle[0] == '$'
    requires |token| >= 2 && token[0] == '$' && '$' !in token[1..] && token[1] != needle[1]
    ensures ReplaceAll(token + b, needle, ins) == token + ReplaceAll(b, needle, ins)
  {
    var s := token + b;
    assert s[1] == token[1];
    assert !StartsWith(s, needle) by {
      if |needle| <= |s| { assert s[..|needle|][1] == s[1]; }
    }
    assert s[1..] == token[1..] + b;
    ReplaceAllSkip(token[1..], b, needle, ins);
    assert ReplaceAll(s, needle, ins) == [s[0]] + ReplaceAll(s[1..], needle, ins);
    assert [s[0]] + (token[1..] + ReplaceAll(b, needle, ins)) == token + ReplaceAll(b, needle, ins);
  }

  /** Every `$` of a template opens one of the placeholders a single-group
      rule can fill: `${rest}`, `$0` or `$1`. */
  ghost predicate OnlySingleGroupPlaceholders(t: string)
  {
    forall i :: 0 <= i < |t| && t[i] == '$' ==>
      StartsWith(t[i..], REST_PLACEHOLDER) || StartsWith(t[i..], "$0") || StartsWith(t[i..], "$1")
  }

  lemma OnlySingleGroupPlaceholdersSuffix(t: string, k: nat)
    requires k <= |t| && OnlySingleGroupPlaceholders(t)
    ensures OnlySingleGroupPlaceholders(t[k..])
  {
    forall i | 0 <= i < |t[k..]| && t[k..][i] == '$'
      ensures StartsWith(t[k..][i..], REST_PLACEHOLDER) || StartsWith(t[k..][i..], "$0")
              || StartsWith(t[k..][i..], "$1")
    {
      assert t[k..][i] == t[k + i];
      assert t[k..][i..] == t[k + i..];
    }
  }

  /** Substitution for a one-group rule read token by token from the left:
      `${rest}` and `$1` become the group, `$0` the whole url, and every
      other character is copied. */
  function SubstituteOneGroup(t: string, url: string, cap: string): string
    decreases |t|
  {
    if |t| == 0 then ""
    else if StartsWith(t, REST_PLACEHOLDER) then cap + SubstituteOneGroup(t[|REST_PLACEHOLDER|..], url, cap)
    else if StartsWith(t, "$0") then url + SubstituteOneGroup(t[2..], url, cap)
    else if StartsWith(t, "$1") then cap + SubstituteOneGroup(t[2..], url, cap)
    else [t[0]] + SubstituteOneGroup(t[1..], url, cap)
  }

  /** The three passes `Substitute` makes for a one-group rule. */
  function ThreePasses(t: string, url: string, cap: string): string
  {
    ReplaceAll(ReplaceAll(ReplaceAll(t, REST_PLACEHOLDER, cap), "$0", url), "$1", cap)
  }

  lemma SubstituteIsThreePasses(t: string, url: string, cap: string)
    ensures Substitute(t, url, [cap]) == ThreePasses(t, url, cap)
  {
    var groups := [url, cap];
    assert [url] + [cap] == groups;
    assert GroupPlaceholder(0) == "$0" && GroupPlaceholder(1) == "$1";
    var r1 := ReplaceAll(t, REST_PLACEHOLDER, cap);
    var r2 := ReplaceAll(r1, "$0", url);
    var r3 := ReplaceAll(r2, "$1", cap);
    assert Substitute(t, url, [cap]) == SubstituteGroups(r1, groups, 0);
    assert SubstituteGroups(r1, groups, 0) == SubstituteGroups(r2, groups, 1);
    assert SubstituteGroups(r2, groups, 1) == SubstituteGroups(r3, groups, 2);
  }

  /** The passes over a template that starts with one token: what the token
      becomes, followed by the passes over the rest. */
  lemma {:induction false} ThreePassesFront(head: string, tail: string, url: string, cap: string)
    requires head == REST_PLACEHOLDER || head == "$0" || head == "$1" || (|head| == 1 && head[0] != '$')
    requires '$' !in url && '$' !in cap
    ensures ThreePasses(head + tail, url, cap)
            == (if head == "$0" then url else if head == REST_PLACEHOLDER || head == "$1" then cap else head)
               + ThreePasses(tail, url, cap)
  {
    var x1 := ReplaceAll(tail, REST_PLACEHOLDER, cap);
    var x2 := ReplaceAll(x1, "$0", url);
    var x3 := ReplaceAll(x2, "$1", cap);
    if head == REST_PLACEHOLDER {
      ReplaceAllHit(REST_PLACEHOLDER, tail, cap);
      ReplaceAllSkip(cap, x1, "$0", url);
      ReplaceAllSkip(cap, x2, "$1", cap);
    } else if head == "$0" {
      ReplaceAllOtherToken("$0", tail, REST_PLACEHOLDER, cap);
      ReplaceAllHit("$0", x1, url);
      ReplaceAllSkip(url, x2, "$1", cap);
    } else if head == "$1" {
      ReplaceAllOtherToken("$1", tail, REST_PLACEHOLDER, cap);
      ReplaceAllOtherToken("$1", x1, "$0", url);
      ReplaceAllHit("$1", x2, cap);
    } else {
      assert '$' !in head;
      ReplaceAllSkip(head, tail, REST_PLACEHOLDER, cap);
      ReplaceAllSkip(head, x1, "$0", url);
      ReplaceAllSkip(head, x2, "$1", cap);
    }
  }

  lemma {:induction false} ThreePassesByTokens(t: string, url: string, cap: string)
    requires OnlySingleGroupPlaceholders(t) && '$' !in url && '$' !in cap
    ensures ThreePasses(t, url, cap) == SubstituteOneGroup(t, url, cap)
    decreases |t|
  {
    if |t| > 0 {
      var k := if StartsWith(t, REST_PLACEHOLDER) then |REST_PLACEHOLDER|
               else if StartsWith(t, "$0") || StartsWith(t, "$1") then 2 else 1;
      if t[0] == '$' {
        assert t[0..] == t;
      }
      var head := t[..k];
      var tail := t[k..];
      assert t == head + tail;
      OnlySingleGroupPlaceholdersSuffix(t, k);
      ThreePassesByTokens(tail, url, cap);
      ThreePassesFront(head, tail, url, cap);
    }
  }

  /** For a rule with one group, substitution fills every `${rest}`, `$0`
      and `$1` of the template, wherever and however often they occur, and
      keeps every other character, provided the url and the group contain
      no `$`. */
  lemma SubstituteAllPlaceholders(template: string, url: string, cap: string)
    requires OnlySingleGroupPlaceholders(template) && '$' !in url && '$' !in cap
    ensures Substitute(template, url, [cap]) == SubstituteOneGroup(template, url, cap)
  {
    SubstituteIsThreePasses(template, url, cap);
    ThreePassesByTokens(template, url, cap);
  }

  // ---------------------------------------------------------------------
  // One rewrite step.

  /** The pattern is a wildcard pattern and its regular expression matches. */
  predicate IsWildcardMatch(pattern: string, url: string)
  {
    '*' in pattern && MatchPattern(pattern, url).Some?
  }

  /** The rewritten url when a wildcard rule matches. */
  function Rewritten(pattern: string, template: string, url: string): string
    requires IsWildcardMatch(pattern, url)
  {
    Substitute(template, url, MatchPattern(pattern, url).value)
  }

  /** Rule i is the first wildcard rule, in table order, that matches. */
  predicate FirstMatchAt(rules: Rules, url: string, i: int)
  {
    && 0 <= i < |rules|
    && IsWildcardMatch(rules[i].key, url)
    && forall j :: 0 <= j < i ==> !IsWildcardMatch(rules[j].key, url)
  }

  /** The wildcard loop: the first matching wildcard rule rewrites the url. */
  function FirstWildcard(rules: Rules, url: string): Option<string>
  {
    if |rules| == 0 then None
    else if IsWildcardMatch(rules[0].key, url) then Some(Rewritten(rules[0].key, rules[0].value, url))
    else FirstWildcard(rules[1..], url)
  }

  /** The loop finds nothing exactly when no wildcard rule matches, and
      otherwise returns the rewrite by the first rule that does. */
  lemma {:induction false} FirstWildcardFindsFirst(rules: Rules, url: string)
    ensures FirstWildcard(rules, url).None? <==> forall i :: 0 <= i < |rules| ==> !IsWildcardMatch(rules[i].key, url)
    ensures FirstWildcard(rules, url).Some? ==>
              exists i :: FirstMatchAt(rules, url, i)
                          && FirstWildcard(rules, url).value == Rewritten(rules[i].key, rules[i].value, url)
    decreases |rules|
  {
    if |rules| == 0 {
    } else if IsWildcardMatch(rules[0].key, url) {
      assert FirstMatchAt(rules, url, 0);
    } else {
      FirstWildcardFindsFirst(rules[1..], url);
      assert forall i :: 1 <= i < |rules| ==> rules[i] == rules[1..][i - 1];
      var r := FirstWildcard(rules[1..], url);
      if r.Some? {
        var i :| FirstMatchAt(rules[1..], url, i) && r.value == Rewritten(rules[1..][i].key, rules[1..][i].value, url);
        assert FirstMatchAt(rules, url, i + 1);
      }
    }
  }

  /** `applySingleMapping`: a non-empty exact entry, else the first matching
      wildcard rule, else the url itself. */
  function ApplySingleMapping(rules: Rules, url: string): string
  {
    var direct := Lookup(rules, url);
    if direct.Some? && direct.value != "" then direct.value
    else
      match FirstWildcard(rules, url)
      case Some(rewritten) => rewritten
      case None => url
  }

  /** No exact entry with a non-empty (truthy) replacement. */
  predicate NoDirectHit(rules: Rules, url: string)
  {
    Lookup(rules, url).None? || Lookup(rules, url) == Some("")
  }

  /** An exact key with a non-empty replacement wins over every wildcard. */
  lemma DirectMatchWins(rules: Rules, i: nat)
    requires DistinctKeys(rules)
    requires i < |rules| && rules[i].value != ""
    ensures ApplySingleMapping(rules, rules[i].key) == rules[i].value
  {
    LookupDistinct(rules, i);
  }

  /** Without a truthy exact entry, the first matching wildcard rule in table
      order rewrites the url, whatever later rules say. */
  lemma FirstWildcardWins(rules: Rules, url: string, i: int)
    requires NoDirectHit(rules, url)
    requires FirstMatchAt(rules, url, i)
    ensures ApplySingleMapping(rules, url) == Rewritten(rules[i].key, rules[i].value, url)
  {
    FirstWildcardFindsFirst(rules, url);
    var r := FirstWildcard(rules, url);
    assert r.Some?;
    var k :| FirstMatchAt(rules, url, k) && r.value == Rewritten(rules[k].key, rules[k].value, url);
  }

  /** A step changes the url only through a truthy exact entry or a
      matching wildcard rule. */
  lemma ChangeNeedsRule(rules: Rules, url: string)
    requires ApplySingleMapping(rules, url) != url
    ensures !NoDirectHit(rules, url) || exists i :: FirstMatchAt(rules, url, i)
  {
    if NoDirectHit(rules, url) {
      FirstWildcardFindsFirst(rules, url);
      var r := FirstWildcard(rules, url);
      assert r.Some?;
    }
  }

  /** When no rule applies the url is returned unchanged; in particular the
      empty table rewrites nothing. */
  lemma NoRuleKeepsUrl(rules: Rules, url: string)
    requires NoDirectHit(rules, url)
    requires forall i :: 0 <= i < |rules| ==> !IsWildcardMatch(rules[i].key, url)
    ensures ApplySingleMapping(rules, url) == url
  {
    FirstWildcardFindsFirst(rules, url);
  }

  lemma EmptyTableKeepsUrl(url: string)
    ensures ApplySingleMapping([], url) == url
  {
  }

  // ---------------------------------------------------------------------
  // The bounded chain of steps.

  /** n steps from url. */
  function Iterate(rules: Rules, url: string, n: nat): string
    decreases n
  {
    if n == 0 then url else ApplySingleMapping(rules, Iterate(rules, url, n - 1))
  }

  /** `resolved` is what `applyMappings(url, maxDepth)` returns after
      `steps` steps: every step changed the url, and the chain stopped either
      at a fixed point or at the step bound. */
  ghost predicate IsResolution(rules: Rules, url: string, maxDepth: int, resolved: string, steps: nat)
  {
    && steps <= (if maxDepth > 0 then maxDepth else 0)
    && resolved == Iterate(rules, url, steps)
    && ChangesAlong(rules, url, steps)
    && (steps < maxDepth ==> ApplySingleMapping(rules, resolved) == resolved)
  }

  /** Each of the first n steps from url changed the url. */
  ghost predicate ChangesAlong(rules: Rules, url: string, n: nat)
    decreases n
  {
    n == 0 || (ChangesAlong(rules, url, n - 1) && Iterate(rules, url, n) != Iterate(rules, url, n - 1))
  }

  lemma {:induction false} ChangesAlongEach(rules: Rules, url: string, n: nat, j: nat)
    requires ChangesAlong(rules, url, n)
    requires j < n
    ensures Iterate(rules, url, j + 1) != Iterate(rules, url, j)
    decreases n
  {
    if j < n - 1 {
      ChangesAlongEach(rules, url, n - 1, j);
    }
  }

  /** `applyMappings`: rewrite until nothing changes or `maxDepth` steps
      have been taken. */
  method ApplyMappings(rules: Rules, url: string, maxDepth: int) returns (resolved: string, steps: nat)
    ensures IsResolution(rules, url, maxDepth, resolved, steps)
  {
    resolved := url;
    steps := 0;
    while steps < maxDepth
      invariant steps <= (if maxDepth > 0 then maxDepth else 0)
      invariant resolved == Iterate(rules, url, steps)
      invariant ChangesAlong(rules, url, steps)
      decreases maxDepth - steps
    {
      var next := ApplySingleMapping(rules, resolved);
      if next == resolved {
        break;
      }
      resolved := next;
      steps := steps + 1;
    }
  }

  /** The resolution of a url is unique. */
  lemma ResolutionUnique(rules: Rules, url: string, maxDepth: int, r1: string, s1: nat, r2: string, s2: nat)
    requires IsResolution(rules, url, maxDepth, r1, s1)
    requires IsResolution(rules, url, maxDepth, r2, s2)
    ensures r1 == r2 && s1 == s2
  {
    if s1 < s2 {
      ChangesAlongEach(rules, url, s2, s1);
    } else if s2 < s1 {
      ChangesAlongEach(rules, url, s1, s2);
    }
  }

  /** At the bound, the result is exactly maxDepth steps from the url. */
  lemma CappedResolution(rules: Rules, url: string, maxDepth: int, resolved: string, steps: nat)
    requires IsResolution(rules, url, maxDepth, resolved, steps)
    requires ApplySingleMapping(rules, resolved) != resolved
    ensures steps == (if maxDepth > 0 then maxDepth else 0) && resolved == Iterate(rules, url, steps)
  {
  }

  // ---------------------------------------------------------------------
  // The chained-mapping example: a prefix scheme mapped to a web url, and
  // the web url mapped to a local directory.

  const CMIP_PREFIX := "cmip7:"
  const CMIP_WEB := "https://wcrp-cmip.github.io/CMIP7-CVs/"
  const CMIP_LOCAL := "/home/user/local-cvs/"

  function ChainRules(): Rules
  {
    [Entry(CMIP_PREFIX + "*", CMIP_WEB + REST_PLACEHOLDER),
     Entry(CMIP_WEB + "*", CMIP_LOCAL + REST_PLACEHOLDER)]
  }

  predicate PlainText(s: string)
  {
    forall i :: 0 <= i < |s| ==> s[i] != '$' && s[i] != '*' && !IsLineTerminator(s[i])
  }

  /** One step of the chain: rule `P*` with template `Q${rest}` maps `P + t`
      to `Q + t` when it is the first matching rule and no exact key hits. */
  lemma PrefixStep(rules: Rules, i: nat, p: string, q: string, t: string)
    requires i < |rules| && rules[i] == Entry(p + "*", q + REST_PLACEHOLDER)
    requires PlainText(p) && PlainText(q) && PlainText(t)
    requires NoDirectHit(rules, p + t)
    requires forall j :: 0 <= j < i ==> !IsWildcardMatch(rules[j].key, p + t)
    ensures ApplySingleMapping(rules, p + t) == q + t
  {
    var url := p + t;
    assert '*' !in p;
    assert p + "*" == p + "*" + "";
    SingleStarMatch(p, "", url);
    assert url[|p|..|url|] == t;
    assert MatchPattern(p + "*", url) == Some([t]);
    assert IsWildcardMatch(rules[i].key, url);
    assert FirstMatchAt(rules, url, i);
    FirstWildcardWins(rules, url, i);
    assert '$' !in url by {
      forall k | 0 <= k < |url| ensures url[k] != '$' {
        if k < |p| { assert url[k] == p[k]; } else { assert url[k] == t[k - |p|]; }
      }
    }
    assert q + REST_PLACEHOLDER == q + REST_PLACEHOLDER + "";
    SubstituteSinglePlaceholder(q, REST_PLACEHOLDER, "", url, t);
    assert q + t + "" == q + t;
  }

  /** A url that does not start with a rule's literal prefix is left alone by it. */
  lemma NoPrefixNoMatch(p: string, url: string)
    requires '*' !in p
    requires !StartsWith(url, p)
    ensures !IsWildcardMatch(p + "*", url)
  {
    assert p + "*" == p + "*" + "";
    SingleStarMatch(p, "", url);
  }

  lemma PlainConcat(a: string, b: string)
    requires PlainText(a) && PlainText(b)
    ensures PlainText(a + b)
  {
    forall k | 0 <= k < |a + b| ensures (a + b)[k] == (if k < |a| then a[k] else b[k - |a|]) {
    }
  }

  const CMIP_PATH := "experiment/graph.jsonld"

  lemma ChainConstantsPlain()
    ensures PlainText(CMIP_PREFIX) && PlainText(CMIP_WEB) && PlainText(CMIP_LOCAL)
  {
  }

  lemma ChainNoDirectHit(rules: Rules, url: string)
    requires rules == ChainRules()
    requires PlainText(url)
    ensures NoDirectHit(rules, url)
  {
    assert '*' !in url;
    assert rules[0].key[|CMIP_PREFIX|] == '*' && rules[1].key[|CMIP_WEB|] == '*';
  }

  lemma ChainFirstStep(rules: Rules, t: string)
    requires rules == ChainRules()
    requires PlainText(t)
    ensures ApplySingleMapping(rules, CMIP_PREFIX + t) == CMIP_WEB + t
  {
    ChainConstantsPlain();
    PlainConcat(CMIP_PREFIX, t);
    ChainNoDirectHit(rules, CMIP_PREFIX + t);
    assert rules[0] == Entry(CMIP_PREFIX + "*", CMIP_WEB + REST_PLACEHOLDER);
    PrefixStep(rules, 0, CMIP_PREFIX, CMIP_WEB, t);
  }

  /** A web url does not start with the scheme prefix. */
  lemma WebNotPrefixed(u: string)
    requires StartsWith(u, CMIP_WEB)
    ensures !StartsWith(u, CMIP_PREFIX)
  {
    assert u[0] == CMIP_WEB[0];
    if |CMIP_PREFIX| <= |u| { assert u[..|CMIP_PREFIX|][0] == u[0]; }
  }

  lemma ChainSecondStep(rules: Rules, t: string)
    requires rules == ChainRules()
    requires PlainText(t)
    ensures ApplySingleMapping(rules, CMIP_WEB + t) == CMIP_LOCAL + t
  {
    ChainConstantsPlain();
    var u1 := CMIP_WEB + t;
    PlainConcat(CMIP_WEB, t);
    ChainNoDirectHit(rules, u1);
    assert u1[..|CMIP_WEB|] == CMIP_WEB;
    WebNotPrefixed(u1);
    NoPrefixNoMatch(CMIP_PREFIX, u1);
    assert rules[0].key == CMIP_PREFIX + "*";
    assert rules[1] == Entry(CMIP_WEB + "*", CMIP_LOCAL + REST_PLACEHOLDER);
    PrefixStep(rules, 1, CMIP_WEB, CMIP_LOCAL, t);
  }

  /** A local path starts with neither rule's literal prefix. */
  lemma LocalNotPrefixed(u: string)
    requires StartsWith(u, CMIP_LOCAL)
    ensures !StartsWith(u, CMIP_PREFIX) && !StartsWith(u, CMIP_WEB)
  {
    assert u[0] == CMIP_LOCAL[0];
    if |CMIP_PREFIX| <= |u| { assert u[..|CMIP_PREFIX|][0] == u[0]; }
    if |CMIP_WEB| <= |u| { assert u[..|CMIP_WEB|][0] == u[0]; }
  }

  lemma ChainFixedPoint(rules: Rules, t: string)
    requires rules == ChainRules()
    requires PlainText(t)
    ensures ApplySingleMapping(rules, CMIP_LOCAL + t) == CMIP_LOCAL + t
  {
    var u2 := CMIP_LOCAL + t;
    ChainConstantsPlain();
    PlainConcat(CMIP_LOCAL, t);
    ChainNoDirectHit(rules, u2);
    assert u2[..|CMIP_LOCAL|] == CMIP_LOCAL;
    LocalNotPrefixed(u2);
    NoPrefixNoMatch(CMIP_PREFIX, u2);
    NoPrefixNoMatch(CMIP_WEB, u2);
    assert rules[0].key == CMIP_PREFIX + "*" && rules[1].key == CMIP_WEB + "*";
    NoRuleKeepsUrl(rules, u2);
  }

  /** Two changing steps from url to a fixed point: the resolution is that
      fixed point, after two steps. */
  lemma TwoStepResolution(rules: Rules, u0: string, u1: string, u2: string, resolved: string, steps: nat)
    requires ApplySingleMapping(rules, u0) == u1 != u0
    requires ApplySingleMapping(rules, u1) == u2 != u1
    requires ApplySingleMapping(rules, u2) == u2
    requires IsResolution(rules, u0, MAX_MAPPING_DEPTH, resolved, steps)
    ensures resolved == u2 && steps == 2
  {
    assert Iterate(rules, u0, 1) == u1;
    assert Iterate(rules, u0, 2) == u2;
    assert ChangesAlong(rules, u0, 2);
    assert IsResolution(rules, u0, MAX_MAPPING_DEPTH, u2, 2);
    ResolutionUnique(rules, u0, MAX_MAPPING_DEPTH, resolved, steps, u2, 2);
  }

  /** With the two chained rules, `cmip7:` followed by a plain path resolves,
      in two steps, to the same path under `/home/user/local-cvs/`. */
  lemma ChainResolves(t: string, url: string, resolved: string, steps: nat)
    requires PlainText(t) && url == CMIP_PREFIX + t
    requires IsResolution(ChainRules(), url, MAX_MAPPING_DEPTH, resolved, steps)
    ensures resolved == CMIP_LOCAL + t && steps == 2
  {
    ChainFirstStep(ChainRules(), t);
    ChainSecondStep(ChainRules(), t);
    ChainFixedPoint(ChainRules(), t);
    assert (CMIP_PREFIX + t)[0] == CMIP_PREFIX[0];
    assert (CMIP_WEB + t)[0] == CMIP_WEB[0];
    assert (CMIP_LOCAL + t)[0] == CMIP_LOCAL[0];
    TwoStepResolution(ChainRules(), CMIP_PREFIX + t, CMIP_WEB + t, CMIP_LOCAL + t, resolved, steps);
  }

  lemma CmipPathIsPlain()
    ensures PlainText(CMIP_PATH)
  {
  }

  /** `cmip7:experiment/graph.jsonld` resolves to the local file
      `/home/user/local-cvs/experiment/graph.jsonld`. */
  lemma ChainingExample(url: string, resolved: string, steps: nat)
    requires url == CMIP_PREFIX + CMIP_PATH
    requires IsResolution(ChainRules(), url, MAX_MAPPING_DEPTH, resolved, steps)
    ensures resolved == CMIP_LOCAL + CMIP_PATH && steps == 2
  {
    CmipPathIsPlain();
    ChainResolves(CMIP_PATH, url, resolved, steps);
  }
}
