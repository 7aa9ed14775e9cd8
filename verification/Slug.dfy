/** Workspace slugs. */
module Slug {
  import opened Prelude

  const SLUG_MAX_LENGTH := 100

  predicate IsAlnum(c: char) {
    'a' <= c <= 'z' || '0' <= c <= '9'
  }

  predicate IsWord(s: string) {
    s != "" && forall i :: 0 <= i < |s| ==> IsAlnum(s[i])
  }

  function Join(words: seq<string>): string {
    if words == [] then "" else if |words| == 1 then words[0] else words[0] + "-" + Join(words[1..])
  }

  /** The language of the slug pattern: words of letters and digits with single hyphens between them. */
  ghost predicate MatchesPattern(s: string) {
    exists words :: words != [] && (forall i :: 0 <= i < |words| ==> IsWord(words[i])) && s == Join(words)
  }

  ghost predicate IsValidSlug(s: string) {
    MatchesPattern(s) && |s| <= SLUG_MAX_LENGTH
  }

  // slugify

  function SkipOther(s: string): (t: string)
    ensures |t| <= |s| && (t != "" ==> IsAlnum(t[0]))
  {
    if s != "" && !IsAlnum(s[0]) then SkipOther(s[1..]) else s
  }

  /** Every run of other characters becomes one hyphen. */
  function ReplaceRuns(s: string): string
    decreases |s|
  {
    if s == "" then ""
    else if IsAlnum(s[0]) then [s[0]] + ReplaceRuns(s[1..])
    else "-" + ReplaceRuns(SkipOther(s[1..]))
  }

  function StripStart(s: string): string {
    if s != "" && s[0] == '-' then StripStart(s[1..]) else s
  }

  function StripEnd(s: string): string {
    if s != "" && s[|s| - 1] == '-' then StripEnd(s[..|s| - 1]) else s
  }

  function Slice(s: string, max: nat): string {
    if |s| <= max then s else s[..max]
  }

  function Slugify(lower: string -> string, name: string, max: nat): string {
    Slice(StripEnd(StripStart(ReplaceRuns(lower(Trim(name))))), max)
  }

  // What it computes

  function TakeWord(s: string): (w: string)
    ensures |w| <= |s| && w == s[..|w|]
    ensures forall i :: 0 <= i < |w| ==> IsAlnum(w[i])
    ensures |w| < |s| ==> !IsAlnum(s[|w|])
  {
    if s != "" && IsAlnum(s[0]) then [s[0]] + TakeWord(s[1..]) else ""
  }

  /** The maximal runs of letters and digits, in order. */
  function Words(s: string): (words: seq<string>)
    decreases |s|
  {
    var t := SkipOther(s);
    if t == "" then [] else [TakeWord(t)] + Words(t[|TakeWord(t)|..])
  }

  lemma {:induction false} WordsAreWords(s: string)
    ensures forall i :: 0 <= i < |Words(s)| ==> IsWord(Words(s)[i])
    decreases |s|
  {
    var t := SkipOther(s);
    if t != "" {
      assert TakeWord(t)[0] == t[0];
      WordsAreWords(t[|TakeWord(t)|..]);
    }
  }

  /** Strings in turn: a gap, a word, a gap, and so on, up to the last gap. */
  function Weave(gaps: seq<string>, words: seq<string>): string
    requires |gaps| == |words| + 1
  {
    if words == [] then gaps[0] else gaps[0] + words[0] + Weave(gaps[1..], words[1..])
  }

  /** The gaps hold no letter or digit, and only the first and the last can be empty. */
  ghost predicate AreGaps(gaps: seq<string>) {
    && (forall g, i :: 0 <= g < |gaps| && 0 <= i < |gaps[g]| ==>
          !('a' <= gaps[g][i] <= 'z') && !('0' <= gaps[g][i] <= '9'))
    && (forall g :: 0 < g < |gaps| - 1 ==> gaps[g] != "")
  }

  ghost predicate AreWords(words: seq<string>) {
    && (forall k :: 0 <= k < |words| ==> words[k] != "")
    && (forall k, i :: 0 <= k < |words| && 0 <= i < |words[k]| ==>
          'a' <= words[k][i] <= 'z' || '0' <= words[k][i] <= '9')
  }

  lemma {:induction false} SkipCuts(s: string) returns (gap: string)
    ensures s == gap + SkipOther(s) && forall i :: 0 <= i < |gap| ==> !IsAlnum(gap[i])
  {
    if s != "" && !IsAlnum(s[0]) {
      var tail, t := s[1..], SkipOther(s);
      var rest := SkipCuts(tail);
      gap := [s[0]] + rest;
      assert gap + t == [s[0]] + (rest + t);
      assert forall i :: 0 < i < |gap| ==> gap[i] == rest[i - 1];
    } else {
      gap := "";
    }
  }

  lemma GapsCons(gap: string, gaps: seq<string>)
    requires AreGaps(gaps) && gaps != [] && (|gaps| > 1 ==> gaps[0] != "")
    requires forall i :: 0 <= i < |gap| ==> !IsAlnum(gap[i])
    ensures AreGaps([gap] + gaps)
  {
    var all := [gap] + gaps;
    forall g | 0 < g < |all|
      ensures all[g] == gaps[g - 1]
    {
    }
  }

  lemma WeaveCons(gap: string, w: string, gaps: seq<string>, words: seq<string>)
    requires |gaps| == |words| + 1
    ensures Weave([gap] + gaps, [w] + words) == gap + w + Weave(gaps, words)
  {
    assert ([gap] + gaps)[1..] == gaps && ([w] + words)[1..] == words;
  }

  lemma StartsWithWord(gaps: seq<string>, words: seq<string>)
    requires |gaps| == |words| + 1 && words != [] && words[0] != ""
    ensures gaps[0] == "" ==> Weave(gaps, words) != "" && Weave(gaps, words)[0] == words[0][0]
  {
    assert Weave(gaps, words) == gaps[0] + words[0] + Weave(gaps[1..], words[1..]);
  }

  lemma WordsAreLetters(s: string)
    ensures AreWords(Words(s))
  {
    WordsAreWords(s);
    forall k | 0 <= k < |Words(s)|
      ensures IsWord(Words(s)[k])
    {
    }
  }

  lemma CutFirst(s: string) returns (gap: string, w: string, rest: string)
    requires Words(s) != []
    ensures s == gap + (w + rest) && |rest| < |s| && Words(s) == [w] + Words(rest)
    ensures (forall i :: 0 <= i < |gap| ==> !IsAlnum(gap[i])) && (rest != "" ==> !IsAlnum(rest[0]))
  {
    gap := SkipCuts(s);
    var t := SkipOther(s);
    w := TakeWord(t);
    rest := t[|w|..];
    assert w[0] == t[0];
  }

  lemma OnlyGap(s: string) returns (gaps: seq<string>)
    requires Words(s) == []
    ensures gaps == [s] && AreGaps(gaps)
  {
    var gap := SkipCuts(s);
    assert gap == s;
    gaps := [s];
  }

  /** The string is taken apart into its words and what stands between them; nothing is lost, added or moved. */
  lemma {:induction false} WordsTakeApart(s: string) returns (gaps: seq<string>)
    ensures |gaps| == |Words(s)| + 1 && s == Weave(gaps, Words(s))
    ensures AreGaps(gaps) && AreWords(Words(s))
    decreases |s|
  {
    WordsAreLetters(s);
    if Words(s) == [] {
      gaps := OnlyGap(s);
    } else {
      var gap, w, rest := CutFirst(s);
      var more := WordsTakeApart(rest);
      gaps := PutGap(gap, w, rest, more, Words(rest));
    }
  }

  lemma PutGap(gap: string, w: string, rest: string, more: seq<string>, words: seq<string>)
    returns (gaps: seq<string>)
    requires |more| == |words| + 1 && rest == Weave(more, words) && AreGaps(more) && AreWords(words)
    requires forall i :: 0 <= i < |gap| ==> !IsAlnum(gap[i])
    requires rest != "" ==> !IsAlnum(rest[0])
    ensures |gaps| == |words| + 2 && AreGaps(gaps) && gap + (w + rest) == Weave(gaps, [w] + words)
  {
    gaps := [gap] + more;
    WeaveCons(gap, w, more, words);
    if words != [] {
      StartsWithWord(more, words);
    }
    GapsCons(gap, more);
  }

  function Lead(s: string): string {
    if s != "" && !IsAlnum(s[0]) then "-" else ""
  }

  function Trail(s: string): string {
    if s != "" && !IsAlnum(s[|s| - 1]) then "-" else ""
  }

  lemma {:induction false} ReplaceWord(w: string, rest: string)
    requires forall i :: 0 <= i < |w| ==> IsAlnum(w[i])
    ensures ReplaceRuns(w + rest) == w + ReplaceRuns(rest)
  {
    if w == "" {
      assert w + rest == rest;
    } else {
      assert (w + rest)[1..] == w[1..] + rest;
      ReplaceWord(w[1..], rest);
      assert [w[0]] + w[1..] == w;
    }
  }

  lemma {:induction false} SkipKeepsEnd(s: string)
    requires s != "" && SkipOther(s) != ""
    ensures SkipOther(s)[|SkipOther(s)| - 1] == s[|s| - 1]
  {
    if !IsAlnum(s[0]) {
      SkipKeepsEnd(s[1..]);
    }
  }

  lemma {:induction false} SkipAllOther(s: string)
    requires s != "" && SkipOther(s) == ""
    ensures !IsAlnum(s[|s| - 1])
  {
    if |s| > 1 {
      SkipAllOther(s[1..]);
    }
  }

  lemma WordsOfSkipped(s: string)
    ensures Words(s) == Words(SkipOther(s))
    ensures Words(s) == [] <==> SkipOther(s) == ""
  {
  }

  lemma JoinCons(w: string, words: seq<string>)
    ensures Join([w] + words) == if words == [] then w else w + "-" + Join(words)
  {
    assert ([w] + words)[1..] == words;
  }

  /** The words, with one more hyphen wherever other characters stand at an end. */
  function Hyphenated(words: seq<string>, lead: string, trail: string): string {
    if words == [] then lead else lead + Join(words) + trail
  }

  lemma PutWord(w: string, words: seq<string>, lead: string, trail: string)
    requires lead == if words == [] then trail else "-"
    ensures Hyphenated([w] + words, "", trail) == w + Hyphenated(words, lead, trail)
  {
    JoinCons(w, words);
    if words != [] {
      assert w + "-" + Join(words) + trail == w + ("-" + Join(words) + trail);
    }
  }

  lemma PutHyphen(words: seq<string>, trail: string)
    ensures Hyphenated(words, "-", trail) == "-" + Hyphenated(words, "", trail)
  {
    assert "-" + Join(words) + trail == "-" + ("" + Join(words) + trail);
  }

  lemma FirstWord(s: string) returns (w: string, rest: string)
    requires s != "" && IsAlnum(s[0])
    ensures s == w + rest && IsWord(w) && |rest| < |s| && Words(s) == [w] + Words(rest)
    ensures Lead(rest) == (if Words(rest) == [] then Trail(s) else "-") && Trail(s) == Trail(rest)
  {
    w := TakeWord(s);
    rest := s[|w|..];
    assert w[0] == s[0] && SkipOther(s) == s;
    if rest != "" && Words(rest) == [] {
      SkipAllOther(rest);
    }
  }

  /** Replacing runs joins the words, up to a hyphen at either end. */
  lemma {:induction false} ReplaceIs(s: string)
    ensures ReplaceRuns(s) == Hyphenated(Words(s), Lead(s), Trail(s))
    decreases |s|
  {
    if s == "" {
    } else if IsAlnum(s[0]) {
      var w, rest := FirstWord(s);
      ReplaceWord(w, rest);
      ReplaceIs(rest);
      PutWord(w, Words(rest), Lead(rest), Trail(s));
    } else {
      var t := SkipOther(s);
      WordsOfSkipped(s);
      ReplaceIs(t);
      PutHyphen(Words(t), Trail(t));
      if t != "" {
        SkipKeepsEnd(s);
      }
    }
  }

  lemma {:induction false} JoinEnds(words: seq<string>)
    requires words != [] && forall i :: 0 <= i < |words| ==> IsWord(words[i])
    ensures var s := Join(words); s != "" && IsAlnum(s[0]) && IsAlnum(s[|s| - 1])
  {
    if |words| > 1 {
      JoinEnds(words[1..]);
    }
  }

  lemma StripsStart(lead: string, s: string)
    requires lead in ["", "-"] && s != "" && IsAlnum(s[0])
    ensures StripStart(lead + s) == s
  {
    if lead == "" {
      assert lead + s == s;
    } else {
      assert (lead + s)[1..] == s;
    }
  }

  lemma StripsEnd(s: string, trail: string)
    requires trail in ["", "-"] && s != "" && IsAlnum(s[|s| - 1])
    ensures StripEnd(s + trail) == s
  {
    if trail == "" {
      assert s + trail == s;
    } else {
      assert (s + trail)[..|s|] == s;
    }
  }

  lemma StripsBoth(lead: string, s: string, trail: string)
    requires lead in ["", "-"] && trail in ["", "-"]
    requires s != "" && IsAlnum(s[0]) && IsAlnum(s[|s| - 1])
    ensures StripEnd(StripStart(lead + s + trail)) == s
  {
    StripsStart(lead, s + trail);
    StripsEnd(s, trail);
    assert lead + s + trail == lead + (s + trail);
  }

  /** A slug is the words of the trimmed, lower-cased name, joined by hyphens and cut to length. */
  lemma SlugifyIs(lower: string -> string, name: string, max: nat)
    ensures var whole := Join(Words(lower(Trim(name))));
      Slugify(lower, name, max) == if |whole| > max then whole[..max] else whole
  {
    var s := lower(Trim(name));
    ReplaceIs(s);
    if Words(s) != [] {
      WordsAreWords(s);
      JoinEnds(Words(s));
      StripsBoth(Lead(s), Join(Words(s)), Trail(s));
    }
  }

  // Which strings are slugs

  /** A letter or digit, or a hyphen inside the string with one after it. */
  predicate FitsAt(s: string, i: nat)
    requires i < |s|
  {
    IsAlnum(s[i]) || (s[i] == '-' && 0 < i < |s| - 1 && IsAlnum(s[i + 1]))
  }

  /** The pattern, character by character. */
  ghost predicate HyphensSeparate(s: string) {
    s != "" && forall i :: 0 <= i < |s| ==> FitsAt(s, i)
  }

  lemma Prepend(w: string, rest: string)
    requires IsWord(w) && HyphensSeparate(rest)
    ensures HyphensSeparate(w + "-" + rest)
  {
    var s, k := w + "-" + rest, |w| + 1;
    assert FitsAt(rest, 0);
    forall i | 0 <= i < |s|
      ensures FitsAt(s, i)
    {
      if i >= k {
        assert FitsAt(rest, i - k);
        assert s[i] == rest[i - k] && (i + 1 < |s| ==> s[i + 1] == rest[i + 1 - k]);
      } else if i < |w| {
        assert s[i] == w[i];
      }
    }
  }

  lemma {:induction false} JoinSeparates(words: seq<string>)
    requires words != [] && forall i :: 0 <= i < |words| ==> IsWord(words[i])
    ensures HyphensSeparate(Join(words))
  {
    assert IsWord(words[0]);
    if |words| > 1 {
      JoinSeparates(words[1..]);
      Prepend(words[0], Join(words[1..]));
    }
  }

  lemma Behead(s: string, k: nat)
    requires HyphensSeparate(s) && k < |s| && s[k] == '-'
    ensures HyphensSeparate(s[k + 1..]) && IsAlnum(s[k + 1..][0])
  {
    assert FitsAt(s, k);
    var rest := s[k + 1..];
    forall i | 0 <= i < |rest|
      ensures FitsAt(rest, i)
    {
      assert FitsAt(s, i + k + 1);
      assert rest[i] == s[i + k + 1];
      assert rest[0] == s[k + 1];
    }
  }

  lemma {:induction false} SeparatedIsJoin(s: string)
    requires HyphensSeparate(s)
    ensures s == Join(Words(s)) && Words(s) != []
    decreases |s|
  {
    var w := TakeWord(s);
    assert FitsAt(s, 0) && SkipOther(s) == s;
    if |w| < |s| {
      var tail, rest := s[|w|..], s[|w| + 1..];
      assert FitsAt(s, |w|);
      Behead(s, |w|);
      assert tail[1..] == rest && SkipOther(tail) == SkipOther(rest) == rest;
      SeparatedIsJoin(rest);
      WordsOfSkipped(tail);
      assert Words(s) == [w] + Words(rest) && ([w] + Words(rest))[1..] == Words(rest);
      assert s == w + "-" + rest;
    } else {
      assert Words(s[|w|..]) == [];
    }
  }

  lemma PatternIs(s: string)
    ensures MatchesPattern(s) <==> HyphensSeparate(s)
  {
    if HyphensSeparate(s) {
      SeparatedIsJoin(s);
      WordsAreWords(s);
    }
    if words: seq<string> :| words != [] && (forall i :: 0 <= i < |words| ==> IsWord(words[i])) && s == Join(words) {
      JoinSeparates(words);
    }
  }

  // What slugify promises

  ghost predicate SlugChars(s: string) {
    forall i :: 0 <= i < |s| ==> IsAlnum(s[i]) || s[i] == '-'
  }

  /** The lower-casing leaves strings of slug characters alone. */
  ghost predicate FixesSlugs(lower: string -> string) {
    forall s :: SlugChars(s) ==> lower(s) == s
  }

  lemma SeparatedAreSlugChars(s: string)
    requires HyphensSeparate(s)
    ensures SlugChars(s)
  {
    forall i | 0 <= i < |s|
      ensures IsAlnum(s[i]) || s[i] == '-'
    {
      assert FitsAt(s, i);
    }
  }

  lemma TrimStays(s: string)
    requires SlugChars(s)
    ensures Trim(s) == s
  {
    assert s != "" ==> !IsSpace(s[0]) && !IsSpace(s[|s| - 1]);
  }

  /** The slug before it is cut to length. */
  ghost function Whole(lower: string -> string, name: string): string {
    Join(Words(lower(Trim(name))))
  }

  lemma WholeOfSlugChars(lower: string -> string, s: string)
    requires FixesSlugs(lower) && SlugChars(s)
    ensures Whole(lower, s) == Join(Words(s))
  {
    TrimStays(s);
  }

  /** It is empty exactly when the name has no letter or digit, and matches the pattern otherwise. */
  lemma WholeMatches(lower: string -> string, name: string)
    ensures Whole(lower, name) == "" <==> Words(lower(Trim(name))) == []
    ensures Whole(lower, name) != "" ==> MatchesPattern(Whole(lower, name))
  {
    var s := lower(Trim(name));
    WordsAreWords(s);
    if Words(s) != [] {
      JoinEnds(Words(s));
    }
  }

  /** A valid slug is its own slug. */
  lemma SlugifyFixesSlugs(lower: string -> string, s: string, max: nat)
    requires FixesSlugs(lower) && MatchesPattern(s) && |s| <= max
    ensures Slugify(lower, s, max) == s
  {
    PatternIs(s);
    SeparatedIsJoin(s);
    SeparatedAreSlugChars(s);
    WholeOfSlugChars(lower, s);
    SlugifyIs(lower, s, max);
  }

  lemma EmptyStays(lower: string -> string, max: nat)
    requires FixesSlugs(lower)
    ensures Slugify(lower, "", max) == ""
  {
    WholeOfSlugChars(lower, "");
    SlugifyIs(lower, "", max);
  }

  /** An untruncated slug is empty or matches the pattern, and is its own slug. */
  lemma UntruncatedIsValid(lower: string -> string, name: string, max: nat)
    requires FixesSlugs(lower) && |Whole(lower, name)| <= max
    ensures var r := Slugify(lower, name, max); (r == "" || MatchesPattern(r)) && Slugify(lower, r, max) == r
  {
    var r := Slugify(lower, name, max);
    SlugifyIs(lower, name, max);
    WholeMatches(lower, name);
    if r == "" {
      EmptyStays(lower, max);
    } else {
      SlugifyFixesSlugs(lower, r, max);
    }
  }

  lemma PrefixMatches(s: string, n: nat)
    requires HyphensSeparate(s) && 0 < n <= |s|
    ensures HyphensSeparate(s[..n]) <==> s[n - 1] != '-'
  {
    if s[n - 1] == '-' {
      assert !FitsAt(s[..n], n - 1);
    } else {
      forall i | 0 <= i < n
        ensures FitsAt(s[..n], i)
      {
        assert FitsAt(s, i) && s[..n][i] == s[i] && (i + 1 < n ==> s[..n][i + 1] == s[i + 1]);
      }
    }
  }

  /** A non-empty slug, cut or not, matches the pattern exactly when it does not end in a hyphen. */
  lemma ValidUnlessEndsInHyphen(lower: string -> string, name: string, max: nat)
    ensures var r := Slugify(lower, name, max);
      r != "" ==> (MatchesPattern(r) <==> r[|r| - 1] != '-') && |r| <= max
  {
    var r, whole := Slugify(lower, name, max), Whole(lower, name);
    SlugifyIs(lower, name, max);
    WholeMatches(lower, name);
    if r != "" {
      assert r == whole[..|r|];
      PatternIs(whole);
      PatternIs(r);
      PrefixMatches(whole, |r|);
    }
  }

  // Which names have a valid slug

  /** The cut falls right behind the hyphen after one of the words. */
  ghost predicate CutsAtHyphen(words: seq<string>, max: nat) {
    exists i :: 0 < i < |words| && |Join(words[..i])| + 1 == max
  }

  lemma {:induction false} JoinLength(words: seq<string>, i: nat)
    requires 0 < i < |words|
    ensures |Join(words)| == |Join(words[..i])| + 1 + |Join(words[i..])|
  {
    if i > 1 {
      JoinLength(words[1..], i - 1);
      assert words[1..][..i - 1] == words[..i][1..] && words[1..][i - 1..] == words[i..];
    } else {
      assert words[..1] == [words[0]];
    }
  }

  /** The hyphens of a join are where its proper prefixes end. */
  lemma {:induction false} HyphensOfJoin(words: seq<string>, k: nat)
    requires words != [] && (forall i :: 0 <= i < |words| ==> IsWord(words[i])) && k < |Join(words)|
    ensures Join(words)[k] == '-' <==> CutsAtHyphen(words, k + 1)
  {
    var w, rest := words[0], words[1..];
    if rest != [] && k > |w| {
      var m := k - |w| - 1;
      assert Join(words)[k] == Join(rest)[m];
      HyphensOfJoin(rest, m);
      CutsShift(words, m);
    } else if k == |w| {
      assert words[..1] == [w] && |Join(words[..1])| + 1 == k + 1;
    } else {
      assert Join(words)[k] == w[k];
      forall i | 0 < i < |words|
        ensures |Join(words[..i])| + 1 != k + 1
      {
        PrefixCoversFirst(words, i);
      }
    }
  }

  lemma PrefixCoversFirst(words: seq<string>, i: nat)
    requires 0 < i <= |words|
    ensures |Join(words[..i])| >= |words[0]|
    ensures i > 1 ==> |Join(words[..i])| == |words[0]| + 1 + |Join(words[1..][..i - 1])|
  {
    assert words[..i][1..] == words[1..][..i - 1];
  }

  lemma CutsShift(words: seq<string>, m: nat)
    requires |words| > 1
    ensures CutsAtHyphen(words[1..], m + 1) <==> CutsAtHyphen(words, |words[0]| + m + 2)
  {
    var rest, max := words[1..], |words[0]| + m + 2;
    if CutsAtHyphen(rest, m + 1) {
      var i :| 0 < i < |rest| && |Join(rest[..i])| + 1 == m + 1;
      PrefixCoversFirst(words, i + 1);
      assert |Join(words[..i + 1])| + 1 == max;
    }
    if CutsAtHyphen(words, max) {
      var i :| 0 < i < |words| && |Join(words[..i])| + 1 == max;
      PrefixCoversFirst(words, i);
      assert i > 1 by {
        assert words[..1] == [words[0]];
      }
      assert |Join(rest[..i - 1])| + 1 == m + 1;
    }
  }

  /** An uncut join is never cut at a hyphen. */
  lemma UncutHasNoCut(words: seq<string>, max: nat)
    requires (forall i :: 0 <= i < |words| ==> IsWord(words[i])) && |Join(words)| <= max
    ensures !CutsAtHyphen(words, max)
  {
    forall i | 0 < i < |words|
      ensures |Join(words[..i])| + 1 != max
    {
      JoinLength(words, i);
      JoinEnds(words[i..]);
    }
  }

  /**
   Which names have a slug that matches the pattern: those with a letter or
   digit whose words, joined, are not cut right behind a hyphen.
   */
  lemma SlugMatchesIff(lower: string -> string, name: string, max: nat)
    ensures var words := Words(lower(Trim(name)));
      MatchesPattern(Slugify(lower, name, max)) <==> max > 0 && words != [] && !CutsAtHyphen(words, max)
  {
    var words := Words(lower(Trim(name)));
    var r := Slugify(lower, name, max);
    SlugifyIs(lower, name, max);
    WordsAreWords(lower(Trim(name)));
    ValidUnlessEndsInHyphen(lower, name, max);
    EmptyMatchesNot();
    if words != [] && max > 0 {
      JoinEnds(words);
      if |Join(words)| <= max {
        UncutHasNoCut(words, max);
      } else {
        assert r[|r| - 1] == Join(words)[max - 1];
        HyphensOfJoin(words, max - 1);
      }
    }
  }

  lemma EmptyMatchesNot()
    ensures !MatchesPattern("")
  {
    PatternIs("");
  }

  /** The same for the length the workspace service uses. */
  lemma SlugIsValidIff(lower: string -> string, name: string)
    ensures var words := Words(lower(Trim(name)));
      IsValidSlug(Slugify(lower, name, SLUG_MAX_LENGTH)) <==> words != [] && !CutsAtHyphen(words, 100)
  {
    SlugMatchesIff(lower, name, SLUG_MAX_LENGTH);
    SlugifyIs(lower, name, SLUG_MAX_LENGTH);
  }

  lemma SlugHasSlugChars(lower: string -> string, name: string, max: nat)
    ensures SlugChars(Slugify(lower, name, max))
  {
    SlugifyIs(lower, name, max);
    WholeMatches(lower, name);
    if Whole(lower, name) != "" {
      PatternIs(Whole(lower, name));
      SeparatedAreSlugChars(Whole(lower, name));
    }
  }

  lemma {:induction false} JoinIsShorter(s: string)
    ensures |Join(Words(s))| <= |s|
    decreases |s|
  {
    var t := SkipOther(s);
    if t != "" {
      var w := TakeWord(t);
      var rest := t[|w|..];
      assert w[0] == t[0];
      JoinIsShorter(SkipOther(rest));
      WordsOfSkipped(rest);
      assert ([w] + Words(rest))[1..] == Words(rest);
    }
  }

  /** A second application gives a fixed point, and changes something exactly when the first slug ends in a hyphen. */
  lemma TwiceIsThrice(lower: string -> string, name: string, max: nat)
    requires FixesSlugs(lower)
    ensures var r := Slugify(lower, name, max);
            var r2 := Slugify(lower, r, max);
      && (r2 == "" || MatchesPattern(r2)) && Slugify(lower, r2, max) == r2
      && (r2 != r <==> r != "" && r[|r| - 1] == '-')
  {
    var r := Slugify(lower, name, max);
    SlugHasSlugChars(lower, name, max);
    WholeOfSlugChars(lower, r);
    JoinIsShorter(r);
    SlugifyIs(lower, name, max);
    UntruncatedIsValid(lower, r, max);
    ValidUnlessEndsInHyphen(lower, name, max);
    if r == "" {
      EmptyStays(lower, max);
    } else if MatchesPattern(r) {
      SlugifyFixesSlugs(lower, r, max);
    }
  }

  /** A word that fills all but one place, with another after it, leaves a slug that ends in a hyphen. */
  lemma CutCanEndInHyphen(lower: string -> string, w: string, max: nat)
    requires IsWord(w) && |w| + 1 == max && lower(w + " b") == w + " b"
    ensures Slugify(lower, w + " b", max) == w + "-" && !MatchesPattern(w + "-")
  {
    var s := w + " b";
    assert Trim(s) == s;
    TwoWords(w);
    assert Join([w, "b"]) == w + "-" + "b";
    SlugifyIs(lower, s, max);
    PatternIs(w + "-");
    assert !FitsAt(w + "-", |w|);
  }

  lemma TwoWords(w: string)
    requires IsWord(w)
    ensures Words(w + " b") == [w, "b"]
  {
    var s := w + " b";
    TakesWhole(w, " b");
    assert SkipOther(s) == s && s[|w|..] == " b";
    OneWord();
    assert Words(s) == [w] + ["b"];
  }

  lemma {:induction false} TakesWhole(w: string, rest: string)
    requires (forall i :: 0 <= i < |w| ==> IsAlnum(w[i])) && rest != "" && !IsAlnum(rest[0])
    ensures TakeWord(w + rest) == w
  {
    if w == "" {
      assert w + rest == rest;
    } else {
      assert (w + rest)[1..] == w[1..] + rest;
      TakesWhole(w[1..], rest);
    }
  }

  lemma OneWord()
    ensures Words(" b") == ["b"]
  {
    assert SkipOther(" b") == SkipOther("b") == "b";
    assert TakeWord("b") == "b" && "b"[1..] == "" && Words("") == [];
  }
}
