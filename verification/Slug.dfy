/**
  URL slugs of features: normalising a display name, and searching for a slug that no other
  feature has taken.
 */
module Slug {
  import opened Text

  const MAX_LENGTH: nat := 120
  const FALLBACK := "feature"

  predicate SlugChar(c: char)
  {
    'a' <= c <= 'z' || '0' <= c <= '9'
  }

  predicate Dash(c: char)
  {
    c == '-'
  }

  /** Each run of other characters becomes one dash; `pending` says the last character written is one. */
  function Dashed(s: string, pending: bool := false): string
  {
    if |s| == 0 then ""
    else if SlugChar(s[0]) then [s[0]] + Dashed(s[1..])
    else (if pending then "" else "-") + Dashed(s[1..], true)
  }

  function Cut(s: string, n: nat): string
  {
    if |s| <= n then s else s[..n]
  }

  /** `lowered` is the name after `str.lower`. */
  function Slugify(lowered: string): string
  {
    var slug := Trim(Cut(Trim(Dashed(lowered), Dash), MAX_LENGTH), Dash);
    if |slug| == 0 then FALLBACK else slug
  }

  /** What a slug looks like: words of lower-case letters and digits joined by single dashes. */
  predicate WellFormed(slug: string)
  {
    && 0 < |slug| <= MAX_LENGTH
    && Spaced(slug)
    && slug[0] != '-' && slug[|slug| - 1] != '-'
  }

  predicate Spaced(s: string)
  {
    && (forall i :: 0 <= i < |s| ==> SlugChar(s[i]) || s[i] == '-')
    && (forall i :: 0 < i < |s| ==> s[i - 1] != '-' || s[i] != '-')
  }

  lemma {:induction false} DashedSpaced(s: string, pending: bool)
    ensures Spaced(Dashed(s, pending))
    ensures pending && |Dashed(s, pending)| > 0 ==> Dashed(s, pending)[0] != '-'
  {
    if |s| > 0 {
      DashedSpaced(s[1..], !SlugChar(s[0]));
    }
  }

  /** Dashing keeps the letters and digits of the name, in order. */
  lemma {:induction false} DashedKeepsLetters(s: string, pending: bool)
    ensures Filter(Dashed(s, pending), SlugChar) == Filter(s, SlugChar)
  {
    if |s| > 0 {
      DashedKeepsLetters(s[1..], !SlugChar(s[0]));
      if SlugChar(s[0]) {
        FilterAppend([s[0]], Dashed(s[1..]), SlugChar);
      } else if !pending {
        FilterAppend("-", Dashed(s[1..], true), SlugChar);
        FilterAllDropped("-", SlugChar);
      } else {
        assert Dashed(s, pending) == Dashed(s[1..], true);
      }
    }
  }

  lemma NoLettersOutside(s: string, lo: nat, hi: nat)
    requires lo <= hi <= |s| && forall i :: 0 <= i < lo || hi <= i < |s| ==> Dash(s[i])
    ensures Filter(s[lo..hi], SlugChar) == Filter(s, SlugChar)
  {
    hide Filter;
    FilterAllDropped(s[..lo], SlugChar);
    FilterAllDropped(s[hi..], SlugChar);
    FilterAppend(s[..lo], s[lo..hi], SlugChar);
    FilterAppend(s[..hi], s[hi..], SlugChar);
    assert s[..hi] == s[..lo] + s[lo..hi] && s == s[..hi] + s[hi..];
  }

  /** Unless the name is cut at 120 characters, its slug has its letters and digits, in order. */
  lemma SlugKeepsLetters(lowered: string)
    requires exists c :: c in lowered && SlugChar(c)
    requires |Trim(Dashed(lowered), Dash)| <= MAX_LENGTH
    ensures Filter(Slugify(lowered), SlugChar) == Filter(lowered, SlugChar)
  {
    hide Dashed, Trim, Filter;
    var dashed := Dashed(lowered);
    DashedKeepsLetters(lowered, false);
    var lo, hi := TrimShape(dashed, Dash);
    NoLettersOutside(dashed, lo, hi);
    var trimmed := Trim(dashed, Dash);
    var lo', hi' := TrimShape(trimmed, Dash);
    NoLettersOutside(trimmed, lo', hi');
    var c :| c in lowered && SlugChar(c);
    KeptIn(lowered, c);
    assert Filter("", SlugChar) == "" by {
      FilterAllDropped("", SlugChar);
    }
  }

  lemma {:induction false} KeptIn(s: string, c: char)
    requires c in s && SlugChar(c)
    ensures c in Filter(s, SlugChar)
  {
    if s[0] != c {
      KeptIn(s[1..], c);
    }
  }

  /** A name without letters or digits gets the fixed slug. */
  lemma SlugFallsBack(lowered: string)
    requires forall c :: c in lowered ==> !SlugChar(c)
    ensures Slugify(lowered) == FALLBACK
  {
    hide Dashed, Trim, Filter;
    DashedKeepsLetters(lowered, false);
    FilterAllDropped(lowered, SlugChar);
    var dashed := Dashed(lowered);
    var lo, hi := TrimShape(dashed, Dash);
    DashedSpaced(lowered, false);
    if lo < hi {
      KeptIn(dashed, dashed[lo]);
    }
    var lo', hi' := TrimShape(Trim(dashed, Dash), Dash);
  }

  lemma SpacedSlice(s: string, lo: nat, hi: nat)
    requires Spaced(s) && lo <= hi <= |s|
    ensures Spaced(s[lo..hi])
  {
  }

  /** Every name gets a well-formed slug. */
  lemma SlugifyWellFormed(lowered: string)
    ensures WellFormed(Slugify(lowered))
  {
    hide Dashed, Trim, Spaced;
    DashedSpaced(lowered, false);
    var dashed := Dashed(lowered);
    var lo, hi := TrimShape(dashed, Dash);
    SpacedSlice(dashed, lo, hi);
    var trimmed := Trim(dashed, Dash);
    SpacedSlice(trimmed, 0, if |trimmed| <= MAX_LENGTH then |trimmed| else MAX_LENGTH);
    var cut := Cut(trimmed, MAX_LENGTH);
    assert Spaced(cut);
    var lo', hi' := TrimShape(cut, Dash);
    SpacedSlice(cut, lo', hi');
    assert Spaced(FALLBACK) by {
      FallbackSpaced();
    }
  }

  lemma FallbackSpaced()
    ensures Spaced(FALLBACK)
  {
  }

  lemma {:induction false} DashedFixed(s: string, pending: bool)
    requires Spaced(s) && (pending && |s| > 0 ==> s[0] != '-')
    ensures Dashed(s, pending) == s
  {
    if |s| > 0 {
      SpacedSlice(s, 1, |s|);
      assert |s| > 1 ==> s[1..][0] == s[1];
      DashedFixed(s[1..], !SlugChar(s[0]));
    }
  }

  /** The slugs are exactly the fixed points: slugifying a slug again changes nothing. */
  lemma SlugifyFixed(s: string)
    ensures Slugify(s) == s <==> WellFormed(s)
  {
    hide Dashed, Trim, Spaced;
    if WellFormed(s) {
      DashedFixed(s, false);
      TrimNothing(s);
    } else {
      SlugifyWellFormed(s);
    }
  }

  lemma TrimNothing(s: string)
    requires 0 < |s| && s[0] != '-' && s[|s| - 1] != '-'
    ensures Trim(s, Dash) == s
  {
  }

  lemma SlugifyIdempotent(lowered: string)
    ensures Slugify(Slugify(lowered)) == Slugify(lowered)
  {
    SlugifyWellFormed(lowered);
    SlugifyFixed(Slugify(lowered));
  }

  // ----- slugs in terms of words -----

  /** Words with the gaps around them: `gaps[0] words[0] gaps[1] words[1] ...`. */
  function Spelled(gaps: seq<string>, words: seq<string>): string
    requires |gaps| == |words| + 1
  {
    if words == [] then gaps[0] else gaps[0] + (words[0] + Spelled(gaps[1..], words[1..]))
  }

  predicate Word(s: string)
  {
    s != "" && forall i :: 0 <= i < |s| ==> 'a' <= s[i] <= 'z' || '0' <= s[i] <= '9'
  }

  predicate Gap(s: string)
  {
    forall i :: 0 <= i < |s| ==> !('a' <= s[i] <= 'z') && !('0' <= s[i] <= '9')
  }

  /** Words of letters and digits, with something else between any two. */
  predicate Spacing(gaps: seq<string>, words: seq<string>)
  {
    && |gaps| == |words| + 1
    && (forall i :: 0 <= i < |words| ==> Word(words[i]))
    && (forall i :: 0 <= i < |gaps| ==> Gap(gaps[i]))
    && (forall i :: 0 < i < |words| ==> gaps[i] != "")
  }

  /** Every name is words and gaps. */
  lemma {:induction false} WordsOf(s: string) returns (gaps: seq<string>, words: seq<string>)
    ensures Spacing(gaps, words) && Spelled(gaps, words) == s
  {
    if |s| == 0 {
      gaps, words := [""], [];
    } else {
      gaps, words := WordsOf(s[1..]);
      if !SlugChar(s[0]) {
        gaps := [[s[0]] + gaps[0]] + gaps[1..];
      } else if gaps[0] == "" && |words| > 0 {
        LongerWord(s[0], gaps, words);
        assert s == [s[0]] + s[1..];
        words := [[s[0]] + words[0]] + words[1..];
      } else {
        ghost var rest := gaps;
        gaps, words := [""] + gaps, [[s[0]]] + words;
        assert gaps[1..] == rest && Word([s[0]]);
        assert s == [s[0]] + s[1..];
      }
    }
  }

  lemma LongerWord(c: char, gaps: seq<string>, words: seq<string>)
    requires Spacing(gaps, words) && |words| > 0 && gaps[0] == "" && SlugChar(c)
    ensures var longer := [[c] + words[0]] + words[1..];
      Spacing(gaps, longer) && Spelled(gaps, longer) == [c] + Spelled(gaps, words)
  {
    var longer := [[c] + words[0]] + words[1..];
    assert longer[1..] == words[1..] && Word(words[0]);
    assert gaps[0] + (longer[0] + Spelled(gaps[1..], words[1..])) ==
        [c] + (gaps[0] + (words[0] + Spelled(gaps[1..], words[1..])));
  }

  lemma {:induction false} DashedWord(word: string, rest: string, pending: bool)
    requires Word(word)
    ensures Dashed(word + rest, pending) == word + Dashed(rest)
  {
    assert (word + rest)[1..] == word[1..] + rest;
    if |word| > 1 {
      DashedWord(word[1..], rest, false);
    } else {
      assert word[1..] + rest == rest && [word[0]] == word;
    }
  }

  lemma {:induction false} DashedGap(gap: string, rest: string, pending: bool)
    requires Gap(gap)
    ensures Dashed(gap + rest, pending) ==
      (if gap == "" || pending then "" else "-") + Dashed(rest, pending || gap != "")
  {
    if |gap| == 0 {
      assert gap + rest == rest;
    } else {
      assert (gap + rest)[1..] == gap[1..] + rest;
      DashedGap(gap[1..], rest, true);
    }
  }

  /** Dashing joins the words; an outer gap leaves one dash. */
  lemma {:induction false} DashedJoins(gaps: seq<string>, words: seq<string>)
    requires Spacing(gaps, words) && |words| > 0
    ensures Dashed(Spelled(gaps, words)) ==
      (if gaps[0] == "" then "" else "-") + Join(words, "-") + if gaps[|words|] == "" then "" else "-"
  {
    hide Dashed, Join, Word, Gap;
    var rest := Spelled(gaps[1..], words[1..]);
    DashedGap(gaps[0], words[0] + rest, false);
    DashedWord(words[0], rest, gaps[0] != "");
    if |words| == 1 {
      assert rest == gaps[1] && gaps[1] + "" == gaps[1];
      DashedGap(gaps[1], "", false);
      NothingDashed(gaps[1] != "");
      JoinGrows([], words[0], "-");
      assert [] + [words[0]] == words;
    } else {
      DashedJoins(gaps[1..], words[1..]);
      JoinFront(words[0], words[1..], "-");
      assert words == [words[0]] + words[1..];
    }
  }

  lemma NothingDashed(pending: bool)
    ensures Dashed("", pending) == ""
  {
  }

  lemma {:induction false} JoinEnds(words: seq<string>)
    requires |words| > 0 && forall i :: 0 <= i < |words| ==> Word(words[i])
    ensures var s := Join(words, "-"); s != "" && SlugChar(s[0]) && SlugChar(s[|s| - 1])
  {
    var n := |words| - 1;
    assert words == words[..n] + [words[n]];
    if n > 0 {
      JoinEnds(words[..n]);
    }
    hide Join;
    JoinGrows(words[..n], words[n], "-");
  }

  lemma TrimmedWords(gaps: seq<string>, words: seq<string>)
    requires Spacing(gaps, words) && |words| > 0
    ensures Trim(Dashed(Spelled(gaps, words)), Dash) == Join(words, "-")
    ensures Spaced(Join(words, "-"))
  {
    hide Dashed, Trim, Join, Word, Gap, Spelled, Spaced;
    var before := if gaps[0] == "" then "" else "-";
    var after := if gaps[|words|] == "" then "" else "-";
    DashedJoins(gaps, words);
    JoinEnds(words);
    TrimBetween(before, Join(words, "-"), after, Dash);
    DashedSpaced(Spelled(gaps, words), false);
    var dashed := before + Join(words, "-") + after;
    SpacedSlice(dashed, |before|, |before| + |Join(words, "-")|);
    assert dashed[|before|..|before| + |Join(words, "-")|] == Join(words, "-");
  }

  /** The slug of a name is its words joined by dashes, cut at 120 characters and not after a dash. */
  lemma SlugOfWords(gaps: seq<string>, words: seq<string>)
    requires Spacing(gaps, words)
    ensures var joined := Join(words, "-");
      Slugify(Spelled(gaps, words)) ==
        if words == [] then "feature"
        else if |joined| <= 120 then joined
        else joined[..if joined[119] == '-' then 119 else 120]
  {
    if |words| == 0 {
      assert forall c :: c in gaps[0] ==> !SlugChar(c);
      SlugFallsBack(Spelled(gaps, words));
    } else {
      hide Dashed, Trim, Join, Word, Gap, Spelled, Spaced, Spacing;
      WordsGiven(gaps, words);
      TrimmedWords(gaps, words);
      JoinEnds(words);
      CutTrimmed(Join(words, "-"));
    }
  }

  lemma WordsGiven(gaps: seq<string>, words: seq<string>)
    requires Spacing(gaps, words)
    ensures |gaps| == |words| + 1 && forall i :: 0 <= i < |words| ==> Word(words[i])
  {
  }

  lemma CutTrimmed(s: string)
    requires s != "" && Spaced(s) && SlugChar(s[0]) && SlugChar(s[|s| - 1])
    ensures Trim(Cut(s, 120), Dash) ==
      if |s| <= 120 then s else s[..if s[119] == '-' then 119 else 120]
    ensures Trim(Cut(s, 120), Dash) != ""
  {
    hide Trim;
    var cut := Cut(s, 120);
    var kept := if |s| <= 120 then s else s[..if s[119] == '-' then 119 else 120];
    var after := cut[|kept|..];
    assert cut == "" + kept + after && kept[0] == s[0];
    TrimBetween("", kept, after, Dash);
  }

  // ----- candidates -----

  function Digit(d: nat): char
    requires d < 10
  {
    ('0' as int + d) as char
  }

  function Decimal(n: nat): string
  {
    if n < 10 then [Digit(n)] else Decimal(n / 10) + [Digit(n % 10)]
  }

  function ValueOf(digits: string): int
  {
    if |digits| == 0 then 0
    else 10 * ValueOf(digits[..|digits| - 1]) + (digits[|digits| - 1] as int - '0' as int)
  }

  lemma {:induction false} DecimalValue(n: nat)
    ensures ValueOf(Decimal(n)) == n
    ensures |Decimal(n)| > 0 && forall i :: 0 <= i < |Decimal(n)| ==> '0' <= Decimal(n)[i] <= '9'
  {
    if n >= 10 {
      DecimalValue(n / 10);
      assert Decimal(n)[..|Decimal(n)| - 1] == Decimal(n / 10);
    } else {
      assert Decimal(n)[..0] == "";
    }
  }

  function Pow10(n: nat): nat
  {
    if n == 0 then 1 else 10 * Pow10(n - 1)
  }

  lemma {:induction false} DecimalLength(n: nat, digits: nat)
    requires digits > 0
    ensures |Decimal(n)| <= digits <==> n < Pow10(digits)
  {
    if n < 10 {
      assert Pow10(digits) >= 10 by {
        Pow10AtLeast(digits);
      }
    } else if digits == 1 {
      assert Pow10(1) == 10;
      DecimalValue(n / 10);
    } else {
      DecimalLength(n / 10, digits - 1);
    }
  }

  lemma {:induction false} Pow10AtLeast(n: nat)
    ensures Pow10(n) >= 1 && (n > 0 ==> Pow10(n) >= 10)
  {
    if n > 0 {
      Pow10AtLeast(n - 1);
    }
  }

  /** Python's `s[:end]`, which counts a negative end from the right. */
  function SliceTo(s: string, end: int): string
  {
    if end >= 0 then Cut(s, end)
    else if |s| + end <= 0 then ""
    else s[..|s| + end]
  }

  function Tail(suffix: nat): string
  {
    "-" + Decimal(suffix)
  }

  function Candidate(base: string, suffix: nat): string
  {
    SliceTo(base, MAX_LENGTH - |Tail(suffix)|) + Tail(suffix)
  }

  /** The last dash of a candidate is the one in front of its suffix. */
  lemma LastDash(base: string, suffix: nat)
    ensures var c, n := Candidate(base, suffix), |Decimal(suffix)|;
      && n < |c| && c[|c| - n..] == Decimal(suffix)
      && c[|c| - n - 1] == '-' && forall i :: |c| - n <= i < |c| ==> c[i] != '-'
  {
    hide SliceTo, Decimal, ValueOf;
    DecimalValue(suffix);
    var c, n := Candidate(base, suffix), |Decimal(suffix)|;
    assert forall i :: |c| - n <= i < |c| ==> c[i] == Decimal(suffix)[i - (|c| - n)];
  }

  /** Different suffixes give different slugs, however the base is cut. */
  lemma CandidatesDistinct(base: string, j: nat, k: nat)
    requires Candidate(base, j) == Candidate(base, k)
    ensures j == k
  {
    hide Candidate, Decimal, ValueOf;
    LastDash(base, j);
    LastDash(base, k);
    assert |Decimal(j)| == |Decimal(k)|;
    DecimalValue(j);
    DecimalValue(k);
  }

  /** A candidate keeps as much of the base as fits into 120 characters with its suffix. */
  lemma CandidateKeeps(base: string, suffix: nat)
    requires |base| <= 120 && suffix < Pow10(119)
    ensures var c, tail := Candidate(base, suffix), "-" + Decimal(suffix);
      if |base| + |tail| <= 120 then c == base + tail
      else |c| == 120 && |tail| <= 120 && c == base[..120 - |tail|] + tail
  {
    hide Decimal, Pow10;
    DecimalLength(suffix, 119);
  }

  /** A candidate fits the column exactly when its suffix has at most 119 digits. */
  lemma CandidateLength(base: string, suffix: nat)
    requires |base| <= MAX_LENGTH
    ensures |Candidate(base, suffix)| <= MAX_LENGTH <==> suffix < Pow10(119)
  {
    hide Decimal, Pow10;
    DecimalLength(suffix, 119);
  }

  /** Candidates are not always well-formed: the cut can leave a dash in front of the tail. */
  lemma CandidateWellFormed(base: string, suffix: nat)
    requires WellFormed(base)
    ensures var room := MAX_LENGTH - |Tail(suffix)|;
      WellFormed(Candidate(base, suffix)) <==> 0 < room && (|base| <= room || base[room - 1] != '-')
  {
    hide Decimal, Pow10, ValueOf;
    DecimalValue(suffix);
    var room := MAX_LENGTH - |Tail(suffix)|;
    var c, tail := Candidate(base, suffix), Tail(suffix);
    var head := SliceTo(base, room);
    assert c[|c| - 1] == tail[|tail| - 1];
    if 0 < room {
      assert head == base[..|head|] && |head| > 0;
      assert c[|head|] == '-' && c[|head| - 1] == head[|head| - 1];
    } else if room == 0 {
      assert c[0] == '-';
    }
  }

  /** The slugs tried in turn: the base itself, then the candidates from suffix 2 on. */
  function Choice(base: string, n: nat): string
    requires n > 0
  {
    if n == 1 then base else Candidate(base, n)
  }

  ghost predicate AllTaken(base: string, n: nat, taken: set<string>)
  {
    forall j: nat :: 0 < j < n ==> Choice(base, j) in taken
  }

  ghost function Tried(base: string, n: nat): set<string>
  {
    set j: nat | 2 <= j < n :: Candidate(base, j)
  }

  lemma TriedStep(base: string, n: nat)
    requires n >= 2
    ensures Tried(base, n + 1) == Tried(base, n) + {Candidate(base, n)}
    ensures Candidate(base, n) !in Tried(base, n)
  {
    hide Candidate;
    forall j: nat | 2 <= j < n ensures Candidate(base, j) != Candidate(base, n) {
      if Candidate(base, j) == Candidate(base, n) {
        CandidatesDistinct(base, j, n);
      }
    }
  }

  /** Pigeonhole: only as many candidates can be taken as there are taken slugs. */
  lemma {:induction false} TriedSize(base: string, n: nat)
    requires n >= 2
    ensures |Tried(base, n)| == n - 2
  {
    hide Candidate;
    if n > 2 {
      TriedSize(base, n - 1);
      TriedStep(base, n - 1);
    }
  }

  lemma TriedWithin(base: string, n: nat, taken: set<string>)
    requires n >= 2 && AllTaken(base, n, taken)
    ensures Tried(base, n) <= taken && n - 2 <= |taken|
  {
    hide Candidate;
    forall j: nat | 2 <= j < n ensures Candidate(base, j) in taken {
      assert Choice(base, j) in taken;
    }
    TriedSize(base, n);
    SubsetSize(Tried(base, n), taken);
  }

  lemma Shrinks(base: string, n: nat, taken: set<string>)
    requires n >= 2 && Candidate(base, n) in taken
    ensures |taken - Tried(base, n + 1)| < |taken - Tried(base, n)|
  {
    hide Candidate, Tried;
    TriedStep(base, n);
    assert taken - Tried(base, n + 1) == (taken - Tried(base, n)) - {Candidate(base, n)};
  }

  lemma ChosenFits(lowered: string, n: nat, taken: set<string>)
    requires n > 0 && AllTaken(Slugify(lowered), n, taken)
    ensures n <= |taken| + 2
    ensures |taken| + 2 < Pow10(119) ==> |Choice(Slugify(lowered), n)| <= MAX_LENGTH
  {
    hide Slugify, Candidate, Pow10;
    SlugifyWellFormed(lowered);
    if n > 1 {
      TriedWithin(Slugify(lowered), n, taken);
      CandidateLength(Slugify(lowered), n);
    }
  }

  /** `taken`: the slugs of the existing features. */
  method UniqueFeatureSlug(lowered: string, taken: set<string>) returns (slug: string)
    ensures slug !in taken
    // the first free choice, found after at most as many candidates as there are taken slugs
    ensures exists n: nat :: 0 < n <= |taken| + 2 &&
              slug == Choice(Slugify(lowered), n) && AllTaken(Slugify(lowered), n, taken)
    ensures Slugify(lowered) !in taken ==> slug == Slugify(lowered)
    ensures Slugify(lowered) in taken && Candidate(Slugify(lowered), 2) !in taken ==>
      slug == Candidate(Slugify(lowered), 2)
    ensures |taken| + 2 < Pow10(119) ==> |slug| <= 120
  {
    hide Slugify, Candidate, Pow10, Tried;
    var base := Slugify(lowered);
    slug := base;
    var suffix := 2;
    while slug in taken
      invariant suffix >= 2 && slug == Choice(base, suffix - 1) && AllTaken(base, suffix - 1, taken)
      decreases |taken - Tried(base, suffix - 1)|, if suffix == 2 then 1 else 0
    {
      if suffix > 2 {
        Shrinks(base, suffix - 1, taken);
      } else {
        NothingTried(base);
      }
      slug := Candidate(base, suffix);
      suffix := suffix + 1;
    }
    assert suffix > 2 ==> Choice(base, 1) in taken;
    assert suffix > 3 ==> Choice(base, 2) in taken;
    ChosenFits(lowered, suffix - 1, taken);
  }

  lemma NothingTried(base: string)
    ensures Tried(base, 1) == Tried(base, 2)
  {
  }

  /** A name whose slug is 117 letters, a dash and two letters. */
  function LongName(): string
  {
    seq(MAX_LENGTH, i => if i == 117 then '-' else 'x')
  }

  /** Such a name, taken once, gets a candidate that is not a slug: its cut falls right after the dash. */
  lemma IllFormedCandidate()
    ensures Slugify(LongName()) == LongName() && !WellFormed(Candidate(Slugify(LongName()), 2))
  {
    hide Slugify;
    var base := LongName();
    SlugifyFixed(base);
    assert Decimal(2) == "2" && |Tail(2)| == 2;
    CandidateWellFormed(base, 2);
  }
}
