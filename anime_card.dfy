/** The text an anime card derives from one AniList media record: the title
    fallback chain, the cleaned and shortened description, the score badge,
    the first genres and the two links (src/components/anime/AnimeCard.tsx).
    Everything here is a pure function of the record. The two global regular
    expression replacements are written out as left-to-right scanners that
    try a match at the current position, replace it and resume after it, or
    else keep one character and move on, as JavaScript's `replace` with the
    `g` flag does. */
module AnimeCard {
  import opened Wrappers
  import Text
  import Decimal

  datatype AniTitle = AniTitle(romaji: Option<string>, english: Option<string>, native: Option<string>)

  /** The fields of an AniList media record the card reads. */
  datatype AniMedia = AniMedia(
    id: int,
    title: AniTitle,
    description: Option<string>,
    genres: Option<seq<string>>,
    averageScore: Option<int>)

  // ---------------------------------------------------------------------------
  // Title

  const Untitled := "Untitled"

  /** `c0 || c1 || ... || fallback` over optional strings. */
  function FirstTruthy(candidates: seq<Option<string>>, fallback: string): (r: string)
    ensures fallback != "" ==> r != ""
  {
    if candidates == [] then fallback
    else if Truthy(candidates[0]) then candidates[0].value
    else FirstTruthy(candidates[1..], fallback)
  }

  /** An `||` chain whose candidates are all falsy yields the fallback. */
  lemma {:induction false} FallbackWhenNoneTruthy(candidates: seq<Option<string>>, fallback: string)
    requires forall k :: 0 <= k < |candidates| ==> !Truthy(candidates[k])
    ensures FirstTruthy(candidates, fallback) == fallback
  {
    if candidates != [] {
      FallbackWhenNoneTruthy(candidates[1..], fallback);
    }
  }

  /** An `||` chain yields its first truthy candidate. */
  lemma {:induction false} FirstTruthyWins(candidates: seq<Option<string>>, fallback: string, k: nat)
    requires k < |candidates| && Truthy(candidates[k])
    requires forall j :: 0 <= j < k ==> !Truthy(candidates[j])
    ensures FirstTruthy(candidates, fallback) == candidates[k].value
  {
    if k > 0 {
      FirstTruthyWins(candidates[1..], fallback, k - 1);
    }
  }

  /** The card title (also the cover's alt text):
      `english || romaji || native || "Untitled"`. */
  function Title(t: AniTitle): (r: string)
    ensures r != ""
  {
    FirstTruthy([t.english, t.romaji, t.native], Untitled)
  }

  /** The title is the first non-empty title among english, romaji and
      native; an empty string falls through like a missing one. */
  lemma TitleFallbackChain(t: AniTitle)
    ensures Truthy(t.english) ==> Title(t) == t.english.value
    ensures !Truthy(t.english) && Truthy(t.romaji) ==> Title(t) == t.romaji.value
    ensures !Truthy(t.english) && !Truthy(t.romaji) && Truthy(t.native) ==> Title(t) == t.native.value
    ensures !Truthy(t.english) && !Truthy(t.romaji) && !Truthy(t.native) ==> Title(t) == Untitled
  {
    var c := [t.english, t.romaji, t.native];
    if Truthy(t.english) {
      FirstTruthyWins(c, Untitled, 0);
    } else if Truthy(t.romaji) {
      FirstTruthyWins(c, Untitled, 1);
    } else if Truthy(t.native) {
      FirstTruthyWins(c, Untitled, 2);
    } else {
      FallbackWhenNoneTruthy(c, Untitled);
    }
  }

  // ---------------------------------------------------------------------------
  // First pass: `/<br\s*\/?>/g` becomes one space (case-sensitive)

  /** Length of the match of `<br\s*\/?>` at the start of `s`, if any. The
      white-space run, the slash and `>` are disjoint character classes, so
      backtracking never yields a second candidate: the match is unique. */
  function BreakMatch(s: string): (r: Option<nat>)
    ensures r.Some? ==> 4 <= r.value <= |s|
  {
    if |s| < 3 || s[..3] != "<br" then None
    else
      var j := 3 + Text.LeadingSpaces(s[3..]);
      if j < |s| && s[j] == '>' then Some(j + 1)
      else if j + 1 < |s| && s[j] == '/' && s[j + 1] == '>' then Some(j + 2)
      else None
  }

  /** `t` is one whole tag of the form the first pattern describes: `<br`,
      any white space, an optional `/`, then `>`. Lower case only. */
  predicate IsBreakTag(t: string) {
    && |t| >= 4 && t[..3] == "<br" && t[|t| - 1] == '>'
    && (|| Text.IsBlank(t[3..|t| - 1])
        || (|t| >= 5 && t[|t| - 2] == '/' && Text.IsBlank(t[3..|t| - 2])))
  }

  /** The white-space run at the start of `s` has length `m` when the first
      `m` characters are white space and the next one is not. */
  lemma LeadingSpacesExact(s: string, m: nat)
    requires m <= |s| && Text.IsBlank(s[..m])
    requires m == |s| || !Text.IsSpace(s[m])
    ensures Text.LeadingSpaces(s) == m
  {
    forall i | 0 <= i < m ensures Text.IsSpace(s[i]) {
      assert s[..m][i] == s[i];
    }
  }

  /** A break tag at the head of `s` ending `>` is found by the scanner. */
  lemma PlainBreakFound(s: string, k: nat)
    requires 4 <= k <= |s| && s[..3] == "<br" && s[k - 1] == '>'
    requires Text.IsBlank(s[3..k - 1])
    ensures BreakMatch(s) == Some(k)
  {
    assert s[3..][..k - 4] == s[3..k - 1];
    assert s[3..][k - 4] == s[k - 1];
    LeadingSpacesExact(s[3..], k - 4);
  }

  /** A break tag at the head of `s` ending `/>` is found by the scanner. */
  lemma SlashBreakFound(s: string, k: nat)
    requires 5 <= k <= |s| && s[..3] == "<br" && s[k - 2] == '/' && s[k - 1] == '>'
    requires Text.IsBlank(s[3..k - 2])
    ensures BreakMatch(s) == Some(k)
  {
    assert s[3..][..k - 5] == s[3..k - 2];
    assert s[3..][k - 5] == s[k - 2];
    LeadingSpacesExact(s[3..], k - 5);
  }

  /** What the scanner finds is a break tag. */
  lemma FoundIsBreakTag(s: string, k: nat)
    requires BreakMatch(s) == Some(k)
    ensures IsBreakTag(s[..k])
  {
    var j := 3 + Text.LeadingSpaces(s[3..]);
    var t := s[..k];
    assert t[..3] == s[..3];
    assert t[3..j] == s[3..][..j - 3];
  }

  /** The scanner finds a match of length `k` exactly when the first `k`
      characters form a break tag. */
  lemma BreakMatchIff(s: string, k: nat)
    ensures BreakMatch(s) == Some(k) <==> (k <= |s| && IsBreakTag(s[..k]))
  {
    if k <= |s| && IsBreakTag(s[..k]) {
      var t := s[..k];
      assert s[..3] == t[..3] && s[k - 1] == t[k - 1];
      if Text.IsBlank(t[3..k - 1]) {
        assert s[3..k - 1] == t[3..k - 1];
        PlainBreakFound(s, k);
      } else {
        assert s[3..k - 2] == t[3..k - 2] && s[k - 2] == t[k - 2];
        SlashBreakFound(s, k);
      }
    }
    if BreakMatch(s) == Some(k) {
      FoundIsBreakTag(s, k);
    }
  }

  /** The first pass: every match becomes a single space. */
  function ReplaceBreaks(s: string): (r: string)
    ensures |r| <= |s|
    decreases |s|
  {
    if s == [] then []
    else match BreakMatch(s)
      case Some(k) => " " + ReplaceBreaks(s[k..])
      case None => [s[0]] + ReplaceBreaks(s[1..])
  }

  /** A character other than `<` starts no break and is kept. */
  lemma ReplaceBreaksKeepsHead(s: string)
    requires s != [] && s[0] != '<'
    ensures ReplaceBreaks(s) == [s[0]] + ReplaceBreaks(s[1..])
  {
    assert |s| >= 3 ==> s[..3][0] == s[0];
    assert BreakMatch(s) == None;
  }

  /** Text with no `<` passes through the first pass unchanged. */
  lemma {:induction false} ReplaceBreaksPlainPrefix(p: string, q: string)
    requires '<' !in p
    ensures ReplaceBreaks(p + q) == p + ReplaceBreaks(q)
  {
    if p != [] {
      assert (p + q)[1..] == p[1..] + q;
      ReplaceBreaksKeepsHead(p + q);
      ReplaceBreaksPlainPrefix(p[1..], q);
      assert ReplaceBreaks(p + q) == [p[0]] + (p[1..] + ReplaceBreaks(q));
      assert [p[0]] + (p[1..] + ReplaceBreaks(q)) == ([p[0]] + p[1..]) + ReplaceBreaks(q);
      assert [p[0]] + p[1..] == p;
    } else {
      assert p + q == q;
    }
  }

  /** Inside a break tag only the first character is a `<`. */
  lemma BreakTagOpensOnce(t: string, i: nat)
    requires IsBreakTag(t) && 1 <= i < |t|
    ensures t[i] != '<'
  {
    if 3 <= i < |t| - 1 {
      if Text.IsBlank(t[3..|t| - 1]) {
        assert t[3..|t| - 1][i - 3] == t[i];
      } else if i < |t| - 2 {
        assert t[3..|t| - 2][i - 3] == t[i];
      }
    }
  }

  /** A `<` after a non-empty text cannot be part of a break that starts at
      the head of the text, so the head's match is the text's own. */
  lemma BreakMatchBeforeOpen(p: string, r: string)
    requires p != [] && (r == [] || r[0] == '<')
    ensures BreakMatch(p + r) == BreakMatch(p)
  {
    var s := p + r;
    if BreakMatch(p).Some? {
      var k := BreakMatch(p).value;
      BreakMatchIff(p, k);
      assert s[..k] == p[..k];
      BreakMatchIff(s, k);
    }
    if BreakMatch(s).Some? {
      var k := BreakMatch(s).value;
      BreakMatchIff(s, k);
      if k > |p| {
        assert s[..k][|p|] == r[0];
        BreakTagOpensOnce(s[..k], |p|);
      }
      assert s[..k] == p[..k];
      BreakMatchIff(p, k);
    }
  }

  /** One step of the first pass at a match of length `k`. */
  lemma ReplaceBreaksAtMatch(s: string, k: nat)
    requires BreakMatch(s) == Some(k)
    ensures ReplaceBreaks(s) == " " + ReplaceBreaks(s[k..])
  {
  }

  /** One step of the first pass where no match starts. */
  lemma ReplaceBreaksNoMatch(s: string)
    requires s != [] && BreakMatch(s).None?
    ensures ReplaceBreaks(s) == [s[0]] + ReplaceBreaks(s[1..])
  {
  }

  /** Regrouping a three-part concatenation. */
  lemma Regroup(whole: string, head: string, rest: string, x: string, y: string, front: string)
    requires whole == head + rest && rest == x + y && front == head + x
    ensures whole == front + y
  {
  }

  /** A match at the head of `p + r` that ends inside `p`. */
  lemma MatchAtJoin(p: string, r: string, k: nat)
    requires BreakMatch(p + r) == Some(k) && k <= |p|
    ensures ReplaceBreaks(p + r) == " " + ReplaceBreaks(p[k..] + r)
  {
    ReplaceBreaksAtMatch(p + r, k);
    assert (p + r)[k..] == p[k..] + r;
  }

  /** A kept head of `p + r`. */
  lemma KeptAtJoin(p: string, r: string)
    requires p != [] && BreakMatch(p + r).None?
    ensures ReplaceBreaks(p + r) == [p[0]] + ReplaceBreaks(p[1..] + r)
  {
    ReplaceBreaksNoMatch(p + r);
    assert (p + r)[1..] == p[1..] + r;
  }

  /** The first pass works on the pieces of a text cut just before a `<`. */
  lemma {:induction false} ReplaceBreaksSplit(p: string, r: string)
    requires r == [] || r[0] == '<'
    ensures ReplaceBreaks(p + r) == ReplaceBreaks(p) + ReplaceBreaks(r)
    decreases |p|, 1
  {
    if p == [] {
      assert p + r == r;
    } else if BreakMatch(p).Some? {
      SplitAfterMatch(p, r);
    } else {
      SplitAfterKept(p, r);
    }
  }

  /** ReplaceBreaksSplit when a break starts at the head of `p`. */
  lemma {:induction false} SplitAfterMatch(p: string, r: string)
    requires r == [] || r[0] == '<'
    requires p != [] && BreakMatch(p).Some?
    ensures ReplaceBreaks(p + r) == ReplaceBreaks(p) + ReplaceBreaks(r)
    decreases |p|, 0
  {
    var k := BreakMatch(p).value;
    BreakMatchBeforeOpen(p, r);
    MatchAtJoin(p, r, k);
    ReplaceBreaksSplit(p[k..], r);
    ReplaceBreaksAtMatch(p, k);
    Regroup(ReplaceBreaks(p + r), " ", ReplaceBreaks(p[k..] + r), ReplaceBreaks(p[k..]), ReplaceBreaks(r), ReplaceBreaks(p));
  }

  /** ReplaceBreaksSplit when the head of `p` is kept. */
  lemma {:induction false} SplitAfterKept(p: string, r: string)
    requires r == [] || r[0] == '<'
    requires p != [] && BreakMatch(p).None?
    ensures ReplaceBreaks(p + r) == ReplaceBreaks(p) + ReplaceBreaks(r)
    decreases |p|, 0
  {
    BreakMatchBeforeOpen(p, r);
    KeptAtJoin(p, r);
    ReplaceBreaksSplit(p[1..], r);
    ReplaceBreaksNoMatch(p);
    Regroup(ReplaceBreaks(p + r), [p[0]], ReplaceBreaks(p[1..] + r), ReplaceBreaks(p[1..]), ReplaceBreaks(r), ReplaceBreaks(p));
  }

  /** Each lower-case break tag (`<br>`, `<br/>`, `<br />`, `<br\t/>`, ...)
      turns into exactly one space, wherever it stands. */
  lemma BreakBecomesOneSpace(p: string, t: string, q: string)
    requires IsBreakTag(t)
    ensures ReplaceBreaks(p + t + q) == ReplaceBreaks(p) + " " + ReplaceBreaks(q)
  {
    assert p + t + q == p + (t + q);
    ReplaceBreaksSplit(p, t + q);
    assert (t + q)[..|t|] == t;
    BreakMatchIff(t + q, |t|);
    assert (t + q)[|t|..] == q;
  }

  /** A `<` that starts no break, followed by text without `<`, is kept
      together with that text. */
  lemma OpenWithoutBreakKept(u: string, q: string)
    requires u != [] && '<' !in u[1..]
    requires BreakMatch(u + q) == None
    ensures ReplaceBreaks(u + q) == u + ReplaceBreaks(q)
  {
    KeptAtJoin(u, q);
    ReplaceBreaksPlainPrefix(u[1..], q);
    Regroup(ReplaceBreaks(u + q), [u[0]], ReplaceBreaks(u[1..] + q), u[1..], ReplaceBreaks(q), u);
  }

  /** An upper-case `<BR>` at the head of a text is kept. */
  lemma UpperBreakAtHead(q: string)
    ensures ReplaceBreaks("<BR>" + q) == "<BR>" + ReplaceBreaks(q)
  {
    var s := "<BR>" + q;
    assert s[..3] == "<BR";
    OpenWithoutBreakKept("<BR>", q);
  }

  /** The first pass is case-sensitive: an upper-case `<BR>` is kept as it
      is, wherever it stands. */
  lemma UpperBreakNotSpaced(p: string, q: string)
    ensures ReplaceBreaks(p + "<BR>" + q) == ReplaceBreaks(p) + "<BR>" + ReplaceBreaks(q)
  {
    assert p + "<BR>" + q == p + ("<BR>" + q);
    ReplaceBreaksSplit(p, "<BR>" + q);
    UpperBreakAtHead(q);
  }

  /** A break tag somewhere in `s` makes the first pass shorten `s`. */
  lemma {:induction false} ReplaceBreaksShrinks(s: string, i: nat)
    requires i < |s| && BreakMatch(s[i..]).Some?
    ensures |ReplaceBreaks(s)| < |s|
  {
    if BreakMatch(s).None? {
      assert i > 0;
      assert s[1..][i - 1..] == s[i..];
      ReplaceBreaksShrinks(s[1..], i - 1);
    }
  }

  /** The first pass changes `s` exactly when some position of `s` starts a
      break tag. */
  lemma {:induction false} ReplaceBreaksIdentityIff(s: string)
    ensures ReplaceBreaks(s) == s <==> forall i :: 0 <= i < |s| ==> BreakMatch(s[i..]).None?
  {
    if forall i :: 0 <= i < |s| ==> BreakMatch(s[i..]).None? {
      if s != [] {
        assert s[0..] == s;
        forall i | 0 <= i < |s| - 1 ensures BreakMatch(s[1..][i..]).None? {
          assert s[1..][i..] == s[i + 1..];
        }
        ReplaceBreaksIdentityIff(s[1..]);
      }
    } else {
      var i :| 0 <= i < |s| && BreakMatch(s[i..]).Some?;
      ReplaceBreaksShrinks(s, i);
    }
  }

  // ---------------------------------------------------------------------------
  // Second pass: `/(<([^>]+)>)/gi` is removed

  /** Index of the first `>` in `s`, or `|s|` when there is none. */
  function FirstClose(s: string): (k: nat)
    ensures k <= |s|
    ensures forall i :: 0 <= i < k ==> s[i] != '>'
    ensures k == |s| || s[k] == '>'
  {
    if s == [] || s[0] == '>' then 0 else 1 + FirstClose(s[1..])
  }

  /** Length of the match of `<[^>]+>` at the start of `s`, if any: `<`, then
      the greedy run of non-`>` characters (at least one), then the first
      `>`. The class `[^>]` also matches `<` and line breaks; the `i` flag
      changes nothing for this pattern. */
  function TagMatch(s: string): (r: Option<nat>)
    ensures r.Some? ==> 3 <= r.value <= |s|
  {
    if s == [] || s[0] != '<' then None
    else
      var k := FirstClose(s[1..]);
      if 1 <= k < |s| - 1 then Some(k + 2) else None
  }

  /** `t` is one whole match of the second pattern. */
  predicate IsTag(t: string) {
    && |t| >= 3 && t[0] == '<' && t[|t| - 1] == '>'
    && forall i :: 1 <= i < |t| - 1 ==> t[i] != '>'
  }

  /** `s` contains a match of the second pattern somewhere. */
  predicate ContainsTag(s: string) {
    exists i, j :: 0 <= i < j <= |s| && IsTag(s[i..j])
  }

  /** The scanner finds a match of length `k` exactly when the first `k`
      characters form a tag. */
  lemma TagMatchIff(s: string, k: nat)
    ensures TagMatch(s) == Some(k) <==> (k <= |s| && IsTag(s[..k]))
  {
    if k <= |s| && IsTag(s[..k]) {
      assert s[1..][k - 2] == s[..k][k - 1];
      assert forall i :: 0 <= i < k - 2 ==> s[1..][i] == s[..k][i + 1];
    }
    if TagMatch(s) == Some(k) {
      var t := s[..k];
      forall i | 1 <= i < k - 1 ensures t[i] != '>' {
        assert t[i] == s[1..][i - 1];
      }
    }
  }

  /** The second pass: every match is removed. */
  function StripTags(s: string): (r: string)
    ensures |r| <= |s|
    ensures multiset(r) <= multiset(s)
    decreases |s|
  {
    if s == [] then []
    else match TagMatch(s)
      case Some(k) =>
        assert s == s[..k] + s[k..];
        StripTags(s[k..])
      case None =>
        assert s == [s[0]] + s[1..];
        [s[0]] + StripTags(s[1..])
  }

  /** A string without `>` contains no tag. */
  lemma NoCloseNoTag(s: string)
    requires '>' !in s
    ensures !ContainsTag(s)
  {
    forall i, j | 0 <= i < j <= |s| ensures !IsTag(s[i..j]) {
      assert s[i..j][j - i - 1] == s[j - 1];
    }
  }

  /** A kept character heads the output of the second pass. */
  lemma StripTagsKeepsHead(s: string)
    requires s != [] && s[0] != '<'
    ensures StripTags(s) == [s[0]] + StripTags(s[1..])
  {
    assert TagMatch(s) == None;
  }

  /** A character put in front of a tag-free text makes no tag, unless it
      is a `<` that a later `>` could close: a `<` is safe when the text
      starts with `>` or has no `>` at all. */
  lemma PrependKeepsNoTag(h: char, tail: string)
    requires !ContainsTag(tail)
    requires h == '<' ==> (tail != [] && tail[0] == '>') || '>' !in tail
    ensures !ContainsTag([h] + tail)
  {
    var r := [h] + tail;
    forall i, j | 0 <= i < j <= |r| ensures !IsTag(r[i..j]) {
      if i > 0 {
        assert r[i..j] == tail[i - 1..j - 1];
      } else if j >= 3 && h == '<' {
        if tail != [] && tail[0] == '>' {
          assert r[i..j][1] == tail[0];
        } else {
          assert r[i..j][j - 1] == tail[j - 2];
        }
      }
    }
  }

  /** The second pass leaves no tag behind: removals never splice a new tag
      together. A `<` that is kept is either followed by `>` at once (so `<>`
      survives) or has no `>` anywhere after it. */
  lemma {:induction false} StripTagsLeavesNoTag(s: string)
    ensures !ContainsTag(StripTags(s))
    decreases |s|
  {
    if s == [] {
    } else if TagMatch(s).Some? {
      StripTagsLeavesNoTag(s[TagMatch(s).value..]);
    } else {
      var tail := StripTags(s[1..]);
      assert StripTags(s) == [s[0]] + tail;
      StripTagsLeavesNoTag(s[1..]);
      if s[0] == '<' {
        var c := FirstClose(s[1..]);
        if c == 0 && |s| > 1 {
          StripTagsKeepsHead(s[1..]);
        } else {
          assert multiset(s[1..])['>'] == 0 by {
            forall m | 0 <= m < |s| - 1 ensures s[1..][m] != '>' {
            }
          }
          assert multiset(tail)['>'] == 0;
        }
      }
      PrependKeepsNoTag(s[0], tail);
    }
  }

  /** Text with no `<` passes through the second pass unchanged. */
  lemma {:induction false} StripTagsPlainPrefix(p: string, q: string)
    requires '<' !in p
    ensures StripTags(p + q) == p + StripTags(q)
  {
    if p != [] {
      assert (p + q)[1..] == p[1..] + q;
      StripTagsKeepsHead(p + q);
      StripTagsPlainPrefix(p[1..], q);
      assert StripTags(p + q) == [p[0]] + (p[1..] + StripTags(q));
      assert [p[0]] + (p[1..] + StripTags(q)) == ([p[0]] + p[1..]) + StripTags(q);
      assert [p[0]] + p[1..] == p;
    } else {
      assert p + q == q;
    }
  }

  /** A tag is removed entirely. */
  lemma TagRemoved(p: string, t: string, q: string)
    requires '<' !in p
    requires IsTag(t)
    ensures StripTags(p + t + q) == p + StripTags(q)
  {
    assert p + t + q == p + (t + q);
    StripTagsPlainPrefix(p, t + q);
    assert (t + q)[..|t|] == t;
    TagMatchIff(t + q, |t|);
    assert (t + q)[|t|..] == q;
  }

  /** A tag at the start is found by the scanner. */
  lemma TagMatchFindsTag(s: string)
    ensures TagMatch(s).Some? ==> ContainsTag(s)
  {
    if TagMatch(s).Some? {
      var k := TagMatch(s).value;
      TagMatchIff(s, k);
      assert s[0..k] == s[..k];
    }
  }

  /** A tag after the first character is a tag of the whole text. */
  lemma TagInTail(s: string)
    requires s != []
    ensures ContainsTag(s[1..]) ==> ContainsTag(s)
  {
    if ContainsTag(s[1..]) {
      var i, j :| 0 <= i < j <= |s| - 1 && IsTag(s[1..][i..j]);
      assert s[1..][i..j] == s[i + 1..j + 1];
    }
  }

  /** Text without a tag passes the second pass unchanged. */
  lemma {:induction false} StripTagsIdentityWithoutTag(s: string)
    requires !ContainsTag(s)
    ensures StripTags(s) == s
    decreases |s|
  {
    if s != [] {
      TagMatchFindsTag(s);
      TagInTail(s);
      StripTagsIdentityWithoutTag(s[1..]);
    }
  }

  /** The second pass changes its input exactly when the input holds a tag,
      and running it twice is the same as running it once. */
  lemma StripTagsFixpoints(s: string)
    ensures StripTags(s) == s <==> !ContainsTag(s)
    ensures StripTags(StripTags(s)) == StripTags(s)
  {
    StripTagsLeavesNoTag(s);
    StripTagsIdentityWithoutTag(StripTags(s));
    if !ContainsTag(s) {
      StripTagsIdentityWithoutTag(s);
    }
  }

  /** A tag that starts at the head of a text ends before a `>`-free
      remainder, so the head's match is the text's own. */
  lemma TagMatchBeforeCloseFree(p: string, r: string)
    requires p != [] && '>' !in r
    ensures TagMatch(p + r) == TagMatch(p)
  {
    var s := p + r;
    if TagMatch(p).Some? {
      var k := TagMatch(p).value;
      TagMatchIff(p, k);
      assert s[..k] == p[..k];
      TagMatchIff(s, k);
    }
    if TagMatch(s).Some? {
      var k := TagMatch(s).value;
      TagMatchIff(s, k);
      assert s[..k] == p[..k];
      TagMatchIff(p, k);
    }
  }

  /** The second pass works on the pieces of a text whose tail has no `>`. */
  lemma {:induction false} StripTagsSplit(p: string, r: string)
    requires '>' !in r
    ensures StripTags(p + r) == StripTags(p) + StripTags(r)
    decreases |p|
  {
    if p == [] {
      assert p + r == r;
    } else {
      TagMatchBeforeCloseFree(p, r);
      match TagMatch(p)
      case Some(k) =>
        assert (p + r)[k..] == p[k..] + r;
        StripTagsSplit(p[k..], r);
      case None =>
        assert (p + r)[1..] == p[1..] + r;
        StripTagsSplit(p[1..], r);
    }
  }

  /** A lone `<` and a comparison such as `a < b` have no `>` after them and
      survive, whatever comes before them. */
  lemma LoneOpenSurvives(p: string, q: string)
    requires '>' !in q
    ensures StripTags(p + "<" + q) == StripTags(p) + "<" + q
  {
    var r := "<" + q;
    assert p + "<" + q == p + r;
    assert '>' !in r;
    StripTagsSplit(p, r);
    NoCloseNoTag(r);
    StripTagsIdentityWithoutTag(r);
  }

  /** An empty `<>` is not a tag and survives. */
  lemma EmptyBracketsSurvive(q: string)
    ensures StripTags("<>" + q) == "<>" + StripTags(q)
  {
    OpenBeforeCloseKept(q);
    StripTagsKeepsHead(">" + q);
    assert (">" + q)[1..] == q;
    Regroup(StripTags("<>" + q), "<", StripTags(">" + q), ">", StripTags(q), "<>");
  }

  /** A `<` directly followed by `>` does not start a match. */
  lemma OpenBeforeCloseKept(q: string)
    ensures StripTags("<>" + q) == "<" + StripTags(">" + q)
  {
    var s := "<>" + q;
    assert FirstClose(s[1..]) == 0;
    assert s[1..] == ">" + q;
  }

  // ---------------------------------------------------------------------------
  // Shortening, genres, score badge and links

  const MaxBlurb := 140
  const Ellipsis := '…'

  /** `desc.length > 140 ? desc.slice(0, 140) + "…" : desc`. */
  function Shorten(desc: string): (r: string)
    ensures |r| <= MaxBlurb + 1
    ensures |desc| <= MaxBlurb ==> r == desc
    ensures |desc| > MaxBlurb ==> |r| == MaxBlurb + 1 && r[..MaxBlurb] == desc[..MaxBlurb] && r[MaxBlurb] == Ellipsis
  {
    if |desc| > MaxBlurb then desc[..MaxBlurb] + [Ellipsis] else desc
  }

  /** Shortening twice is shortening once. */
  lemma ShortenIdempotent(desc: string)
    ensures Shorten(Shorten(desc)) == Shorten(desc)
  {
    if |desc| > MaxBlurb {
      var r := Shorten(desc);
      assert r[..MaxBlurb] + [Ellipsis] == r;
    }
  }

  /** Cutting a tag-free text and appending `…` cannot create a tag. */
  lemma ShortenKeepsNoTag(desc: string)
    requires !ContainsTag(desc)
    ensures !ContainsTag(Shorten(desc))
  {
    var r := Shorten(desc);
    if |desc| > MaxBlurb {
      forall i, j | 0 <= i < j <= |r| ensures !IsTag(r[i..j]) {
        if j == |r| {
          assert r[i..j][j - i - 1] == Ellipsis;
        } else {
          assert r[i..j] == desc[i..j];
        }
      }
    }
  }

  /** The description after both passes: null or missing becomes "". */
  function CleanDescription(description: Option<string>): (r: string)
    ensures description.None? ==> r == ""
    ensures !ContainsTag(r)
  {
    StripTagsLeavesNoTag(ReplaceBreaks(description.GetOr("")));
    StripTags(ReplaceBreaks(description.GetOr("")))
  }

  /** The text under the title: the cleaned description, shortened. */
  function Blurb(description: Option<string>): (r: string)
    ensures description.None? ==> r == ""
    ensures |r| <= MaxBlurb + 1
    ensures !ContainsTag(r)
  {
    ShortenKeepsNoTag(CleanDescription(description));
    Shorten(CleanDescription(description))
  }

  /** Both passes together: a lower-case break between two plain texts leaves
      exactly one space between them. */
  lemma LowerBreakBecomesSpace(p: string, t: string, q: string)
    requires '<' !in p && '<' !in q
    requires IsBreakTag(t)
    ensures CleanDescription(Some(p + t + q)) == p + " " + q
  {
    BreakBecomesOneSpace(p, t, q);
    ReplaceBreaksPlainPrefix(p, []);
    assert p + [] == p;
    ReplaceBreaksPlainPrefix(q, []);
    assert q + [] == q;
    assert p + " " + q == p + " " + q + [];
    StripTagsPlainPrefix(p + " " + q, []);
  }

  /** Both passes together: an upper-case `<BR>` is not turned into a space
      but removed by the tag pass, so the texts on either side are joined. */
  lemma UpperBreakJoinsTexts(p: string, q: string)
    requires '<' !in p && '<' !in q
    ensures CleanDescription(Some(p + "<BR>" + q)) == p + q
  {
    assert p + "<BR>" + q == p + ("<BR>" + q);
    ReplaceBreaksPlainPrefix(p, "<BR>" + q);
    UpperBreakAtHead(q);
    ReplaceBreaksPlainPrefix(q, []);
    assert q + [] == q;
    assert IsTag("<BR>");
    TagRemoved(p, "<BR>", q);
    StripTagsPlainPrefix(q, []);
  }

  const MaxGenres := 3

  /** `(genres || []).slice(0, 3)`: at most the first three genres, in order. */
  function ShownGenres(genres: Option<seq<string>>): (r: seq<string>)
    ensures genres.None? ==> r == []
    ensures genres.Some? ==> |r| == (if |genres.value| < MaxGenres then |genres.value| else MaxGenres)
    ensures genres.Some? ==> r == genres.value[..|r|]
  {
    var gs := genres.GetOr([]);
    gs[..if |gs| < MaxGenres then |gs| else MaxGenres]
  }

  /** The score badge text `{averageScore}%`, shown only when the score is
      truthy: a null and a zero score both hide it. */
  function ScoreBadge(score: Option<int>): (r: Option<string>)
    ensures r.Some? <==> score.Some? && score.value != 0
    ensures r.Some? ==> |r.value| >= 2
    ensures r.Some? ==> Decimal.ParseInt(r.value[..|r.value| - 1]) == Some(score.value)
    ensures r.Some? ==> r.value[|r.value| - 1] == '%'
  {
    if score.Some? && score.value != 0 then
      var text := Decimal.IntToString(score.value) + "%";
      assert text[..|text| - 1] == Decimal.IntToString(score.value);
      Decimal.IntToStringRoundTrip(score.value);
      Some(text)
    else None
  }

  const AnimeRoute := "/anime/"
  const AutoPlayQuery := "?autoPlay=1"

  /** The target of the cover and Details links: `/anime/{id}`, the route
      followed by a decimal text that reads back as the id. */
  function DetailPath(id: int): (p: string)
    ensures |p| > |AnimeRoute| && p[..|AnimeRoute|] == AnimeRoute
    ensures Decimal.ParseInt(p[|AnimeRoute|..]) == Some(id)
  {
    var digits := Decimal.IntToString(id);
    Decimal.IntToStringRoundTrip(id);
    var p := AnimeRoute + digits;
    assert p[..|AnimeRoute|] == AnimeRoute && p[|AnimeRoute|..] == digits;
    p
  }

  /** The target of the Watch link: `/anime/{id}?autoPlay=1`, the Details
      route with the playback query after it. */
  function WatchPath(id: int): (w: string)
    ensures |w| == |DetailPath(id)| + |AutoPlayQuery|
    ensures w[..|DetailPath(id)|] == DetailPath(id) && w[|DetailPath(id)|..] == AutoPlayQuery
  {
    var p := DetailPath(id);
    var w := p + AutoPlayQuery;
    assert w[..|p|] == p && w[|p|..] == AutoPlayQuery;
    w
  }

  /** What a card link tells the page it leads to. */
  datatype Link = Link(id: int, autoPlay: bool)

  /** Reads a card link back: the id after `/anime/`, and whether the
      `?autoPlay=1` query follows it. */
  function ParseLink(path: string): Option<Link> {
    if |path| < |AnimeRoute| || path[..|AnimeRoute|] != AnimeRoute then None
    else
      var rest := path[|AnimeRoute|..];
      var n := |rest| - |AutoPlayQuery|;
      if n >= 0 && rest[n..] == AutoPlayQuery then
        match Decimal.ParseInt(rest[..n])
        case Some(id) => Some(Link(id, true))
        case None => None
      else
        match Decimal.ParseInt(rest)
        case Some(id) => Some(Link(id, false))
        case None => None
  }

  /** The Details link reads back as the card's id, without playback. */
  lemma DetailRoundTrip(id: int)
    ensures ParseLink(DetailPath(id)) == Some(Link(id, false))
  {
    var digits := Decimal.IntToString(id);
    Decimal.IntToStringRoundTrip(id);
    var d := DetailPath(id);
    assert d[..|AnimeRoute|] == AnimeRoute && d[|AnimeRoute|..] == digits;
    var n := |digits| - |AutoPlayQuery|;
    if n >= 0 {
      assert digits[n..][0] == digits[n];
    }
  }

  /** A Watch-shaped path reads back as its id, with playback. */
  lemma ParseWatchShape(digits: string, id: int)
    requires Decimal.ParseInt(digits) == Some(id)
    ensures ParseLink(AnimeRoute + digits + AutoPlayQuery) == Some(Link(id, true))
  {
    var w := AnimeRoute + digits + AutoPlayQuery;
    assert w[..|AnimeRoute|] == AnimeRoute;
    var rest := w[|AnimeRoute|..];
    assert rest == digits + AutoPlayQuery;
    assert rest[|digits|..] == AutoPlayQuery;
    assert rest[..|digits|] == digits;
  }

  /** The Watch link reads back as the card's id, with playback. */
  lemma WatchRoundTrip(id: int)
    ensures ParseLink(WatchPath(id)) == Some(Link(id, true))
  {
    Decimal.IntToStringRoundTrip(id);
    ParseWatchShape(Decimal.IntToString(id), id);
    assert WatchPath(id) == AnimeRoute + Decimal.IntToString(id) + AutoPlayQuery;
  }

  /** Both links lead to the card's own anime, and only the Watch link asks
      for playback. */
  lemma LinksRoundTrip(id: int)
    ensures ParseLink(DetailPath(id)) == Some(Link(id, false))
    ensures ParseLink(WatchPath(id)) == Some(Link(id, true))
  {
    DetailRoundTrip(id);
    WatchRoundTrip(id);
  }

  /** Everything the card shows, derived from one media record. */
  datatype CardView = CardView(
    title: string,
    blurb: string,
    scoreBadge: Option<string>,
    genres: seq<string>,
    detailPath: string,
    watchPath: string)

  function Card(item: AniMedia): (v: CardView)
    ensures v.title != ""
    ensures |v.blurb| <= MaxBlurb + 1 && !ContainsTag(v.blurb)
    ensures |v.genres| <= MaxGenres
    ensures v.scoreBadge.Some? <==> item.averageScore.Some? && item.averageScore.value != 0
    ensures ParseLink(v.detailPath) == Some(Link(item.id, false))
    ensures ParseLink(v.watchPath) == Some(Link(item.id, true))
  {
    LinksRoundTrip(item.id);
    CardView(
      Title(item.title),
      Blurb(item.description),
      ScoreBadge(item.averageScore),
      ShownGenres(item.genres),
      DetailPath(item.id),
      WatchPath(item.id))
  }
}
