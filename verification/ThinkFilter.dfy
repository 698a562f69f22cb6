/**
  The streaming filter that removes leaked think markup from a token stream
  arriving in arbitrary pieces, and the one-pass scanner it refines.

  Lower-casing is a parameter: any function from characters to characters.
 */
module ThinkFilter {
  import opened Text

  const OPEN_TAG := "<think>"
  const CLOSE_TAG := "</think>"

  datatype Event = TextDelta(delta: string) | ReasoningDelta(delta: string)

  /** One emitted character and the side it was emitted on. */
  datatype Labelled = Labelled(c: char, reasoning: bool)

  function Lowered(lower: char -> char, s: string): (r: string)
    ensures |r| == |s| && forall i :: 0 <= i < |s| ==> r[i] == lower(s[i])
  {
    seq(|s|, i requires 0 <= i < |s| => lower(s[i]))
  }

  /** `s` begins with the tag, up to case. */
  predicate Starts(lower: char -> char, s: string, tag: string): (r: bool)
    ensures r ==> |tag| <= |s| && Lowered(lower, s[..|tag|]) == tag
  {
    |tag| <= |s| && forall i :: 0 <= i < |tag| ==> lower(s[i]) == tag[i]
  }

  /** `s` is a proper prefix of the tag, up to case. */
  predicate Partial(lower: char -> char, s: string, tag: string)
  {
    |s| < |tag| && forall i :: 0 <= i < |s| ==> lower(s[i]) == tag[i]
  }

  /** A tag the scanner acts on begins here. Inside a think block only the close tag counts. */
  predicate Marked(lower: char -> char, s: string, inside: bool)
  {
    Starts(lower, s, CLOSE_TAG) || (!inside && Starts(lower, s, OPEN_TAG))
  }

  /** All of `s` may still grow into a tag the scanner acts on. */
  predicate Held(lower: char -> char, s: string, inside: bool)
  {
    Partial(lower, s, CLOSE_TAG) || (!inside && Partial(lower, s, OPEN_TAG))
  }

  // ----- the reference: a scanner that sees the whole text at once -----

  function Scan(lower: char -> char, s: string, inside: bool): seq<Labelled>
  {
    if s == [] then []
    else if Starts(lower, s, CLOSE_TAG) then Scan(lower, s[|CLOSE_TAG|..], false)
    else if !inside && Starts(lower, s, OPEN_TAG) then Scan(lower, s[|OPEN_TAG|..], true)
    else [Labelled(s[0], inside)] + Scan(lower, s[1..], inside)
  }

  function Label(s: string, reasoning: bool): (r: seq<Labelled>)
    ensures |r| == |s|
  {
    seq(|s|, i requires 0 <= i < |s| => Labelled(s[i], reasoning))
  }

  function LabelsOf(e: Event): seq<Labelled>
  {
    Label(e.delta, e.ReasoningDelta?)
  }

  function Labels(events: seq<Event>): seq<Labelled>
  {
    if events == [] then [] else LabelsOf(events[0]) + Labels(events[1..])
  }

  lemma {:induction false} LabelsAppend(a: seq<Event>, b: seq<Event>)
    ensures Labels(a + b) == Labels(a) + Labels(b)
  {
    hide LabelsOf;
    if |a| == 0 {
      assert a + b == b;
    } else {
      assert (a + b)[1..] == a[1..] + b;
      LabelsAppend(a[1..], b);
      Assoc(LabelsOf(a[0]), Labels(a[1..]), Labels(b));
    }
  }

  // ----- the specification of the online filter -----

  /** What became of a stretch of input: kept on one side, or removed as a tag. */
  datatype Token = Kept(c: char, reasoning: bool) | Opened(tag: string) | Closed(tag: string)

  datatype Absorbed = Absorbed(tokens: seq<Token>, rest: string, inside: bool)

  /** Scan as far as the text decides, and hold back what may still become a tag. */
  function Absorb(lower: char -> char, s: string, inside: bool): Absorbed
    decreases |s|
  {
    if Held(lower, s, inside) then Absorbed([], s, inside)
    else if Starts(lower, s, CLOSE_TAG) then
      Prepend(Closed(s[..|CLOSE_TAG|]), Absorb(lower, s[|CLOSE_TAG|..], false))
    else if !inside && Starts(lower, s, OPEN_TAG) then
      Prepend(Opened(s[..|OPEN_TAG|]), Absorb(lower, s[|OPEN_TAG|..], true))
    else
      Prepend(Kept(s[0], inside), Absorb(lower, s[1..], inside))
  }

  function Prepend(t: Token, a: Absorbed): Absorbed
  {
    a.(tokens := [t] + a.tokens)
  }

  function Shown(tokens: seq<Token>): seq<Labelled>
  {
    if tokens == [] then []
    else ShownOne(tokens[0]) + Shown(tokens[1..])
  }

  function ShownOne(t: Token): seq<Labelled>
  {
    if t.Kept? then [Labelled(t.c, t.reasoning)] else []
  }

  lemma {:induction false} ShownAppend(a: seq<Token>, b: seq<Token>)
    ensures Shown(a + b) == Shown(a) + Shown(b)
  {
    hide ShownOne;
    if |a| == 0 {
      assert a + b == b;
    } else {
      assert (a + b)[1..] == a[1..] + b;
      ShownAppend(a[1..], b);
      Assoc(ShownOne(a[0]), Shown(a[1..]), Shown(b));
    }
  }

  function Spelling(tokens: seq<Token>): string
  {
    if tokens == [] then []
    else (match tokens[0]
          case Kept(c, _) => [c]
          case Opened(tag) => tag
          case Closed(tag) => tag) + Spelling(tokens[1..])
  }

  function Removed(tokens: seq<Token>, close: bool): nat
  {
    if tokens == [] then 0
    else (if (if close then tokens[0].Closed? else tokens[0].Opened?) then 1 else 0) + Removed(tokens[1..], close)
  }

  predicate TagsAreTags(lower: char -> char, tokens: seq<Token>)
  {
    forall i :: 0 <= i < |tokens| ==>
      match tokens[i]
      case Kept(_, _) => true
      case Opened(tag) => Lowered(lower, tag) == OPEN_TAG
      case Closed(tag) => Lowered(lower, tag) == CLOSE_TAG
  }

  lemma EmptyIsHeld(lower: char -> char, s: string, inside: bool)
    ensures s == [] ==> Held(lower, s, inside)
    ensures Held(lower, s, inside) ==> |s| <= 7
  {
  }

  /** Kept characters, removed tags and the held-back tail spell the input in order; only genuine tags are
      removed; and the lengths add up. */
  predicate Conserved(lower: char -> char, s: string, a: Absorbed)
  {
    && Spelling(a.tokens) + a.rest == s
    && TagsAreTags(lower, a.tokens)
    && |s| == |Shown(a.tokens)| + |a.rest| + 7 * Removed(a.tokens, false) + 8 * Removed(a.tokens, true)
  }

  lemma PrependConserves(lower: char -> char, s: string, n: nat, t: Token, a: Absorbed)
    requires n <= |s| && Conserved(lower, s[n..], a)
    requires TagsAreTags(lower, [t])
    requires match t
      case Kept(c, _) => n == 1 && c == s[0]
      case Opened(tag) => n == 7 && tag == s[..n]
      case Closed(tag) => n == 8 && tag == s[..n]
    ensures Conserved(lower, s, Prepend(t, a))
  {
    hide TagsAreTags, Spelling, Shown, Removed;
    OneMoreToken(t, a.tokens);
    TagsStayTags(lower, t, a.tokens);
    assert s[..n] + s[n..] == s;
    assert n == 1 ==> s[..1] == [s[0]];
    Assoc(s[..n], Spelling(a.tokens), a.rest);
  }

  lemma OneMoreToken(t: Token, tokens: seq<Token>)
    ensures Spelling([t] + tokens) == (if t.Kept? then [t.c] else t.tag) + Spelling(tokens)
    ensures |Shown([t] + tokens)| == |Shown(tokens)| + if t.Kept? then 1 else 0
    ensures Removed([t] + tokens, false) == Removed(tokens, false) + if t.Opened? then 1 else 0
    ensures Removed([t] + tokens, true) == Removed(tokens, true) + if t.Closed? then 1 else 0
  {
    assert ([t] + tokens)[1..] == tokens;
  }

  lemma TagsStayTags(lower: char -> char, t: Token, tokens: seq<Token>)
    requires TagsAreTags(lower, [t]) && TagsAreTags(lower, tokens)
    ensures TagsAreTags(lower, [t] + tokens)
  {
  }

  /** Nothing is lost or invented. */
  lemma {:induction false} AbsorbConserves(lower: char -> char, s: string, inside: bool)
    ensures var a := Absorb(lower, s, inside);
      Conserved(lower, s, a) && Held(lower, a.rest, a.inside) && |a.rest| <= 7
    decreases |s|
  {
    hide Starts, Partial, Held, Conserved, Absorb, TagsAreTags;
    EmptyIsHeld(lower, s, inside);
    if Held(lower, s, inside) {
      HeldIsAbsorbed(lower, s, inside);
      HeldConserves(lower, s, inside);
    } else if Starts(lower, s, CLOSE_TAG) {
      AbsorbTag(lower, s, inside);
      OneTag(lower, s, CLOSE_TAG);
      AbsorbConserves(lower, s[|CLOSE_TAG|..], false);
      PrependConserves(lower, s, 8, Closed(s[..8]), Absorb(lower, s[8..], false));
    } else if !inside && Starts(lower, s, OPEN_TAG) {
      AbsorbTag(lower, s, inside);
      OneTag(lower, s, OPEN_TAG);
      AbsorbConserves(lower, s[|OPEN_TAG|..], true);
      PrependConserves(lower, s, 7, Opened(s[..7]), Absorb(lower, s[7..], true));
    } else {
      AbsorbOne(lower, s, inside);
      OneKept(lower, s[0], inside);
      AbsorbConserves(lower, s[1..], inside);
      PrependConserves(lower, s, 1, Kept(s[0], inside), Absorb(lower, s[1..], inside));
    }
  }

  lemma HeldConserves(lower: char -> char, s: string, inside: bool)
    ensures Conserved(lower, s, Absorbed([], s, inside))
  {
  }

  lemma OneTag(lower: char -> char, s: string, tag: string)
    requires (tag == OPEN_TAG || tag == CLOSE_TAG) && Starts(lower, s, tag)
    ensures |tag| <= |s|
    ensures TagsAreTags(lower, [if tag == CLOSE_TAG then Closed(s[..|tag|]) else Opened(s[..|tag|])])
  {
    hide Starts;
  }

  lemma OneKept(lower: char -> char, c: char, inside: bool)
    ensures TagsAreTags(lower, [Kept(c, inside)])
  {
  }

  lemma AbsorbTag(lower: char -> char, s: string, inside: bool)
    requires !Held(lower, s, inside) && Marked(lower, s, inside)
    ensures Absorb(lower, s, inside) ==
      if Starts(lower, s, CLOSE_TAG) then
        Prepend(Closed(s[..|CLOSE_TAG|]), Absorb(lower, s[|CLOSE_TAG|..], false))
      else Prepend(Opened(s[..|OPEN_TAG|]), Absorb(lower, s[|OPEN_TAG|..], true))
  {
    hide Starts, Held;
  }

  /** The two tags differ in their second character, and a whole tag is never merely a prefix of one. */
  lemma TagDecides(lower: char -> char, s: string, t: string, inside: bool, tag: string)
    requires tag == CLOSE_TAG || (!inside && tag == OPEN_TAG)
    requires Starts(lower, s, tag)
    ensures Starts(lower, s + t, tag) && !Held(lower, s + t, inside)
    ensures tag == OPEN_TAG ==> !Starts(lower, s + t, CLOSE_TAG)
  {
    assert CLOSE_TAG[1] != OPEN_TAG[1];
    assert forall i :: 0 <= i < |tag| ==> (s + t)[i] == s[i];
    assert lower((s + t)[1]) == tag[1];
  }

  /** Once a character is known not to begin a tag, later input cannot change that. */
  lemma UndecidedStaysSo(lower: char -> char, s: string, t: string, inside: bool)
    requires !Held(lower, s, inside) && !Marked(lower, s, inside)
    ensures !Held(lower, s + t, inside) && !Marked(lower, s + t, inside)
  {
    forall tag | tag == CLOSE_TAG || (!inside && tag == OPEN_TAG)
      ensures !Partial(lower, s + t, tag) && !Starts(lower, s + t, tag)
    {
      var i :| 0 <= i < |s| && i < |tag| && lower(s[i]) != tag[i];
      assert (s + t)[i] == s[i];
    }
  }

  /** Absorbing in two steps is absorbing at once: the held-back tail is all the memory needed. */
  lemma {:induction false} AbsorbAppend(lower: char -> char, s: string, t: string, inside: bool)
    ensures var a := Absorb(lower, s, inside);
      var b := Absorb(lower, a.rest + t, a.inside);
      Absorb(lower, s + t, inside) == Absorbed(a.tokens + b.tokens, b.rest, b.inside)
    decreases |s|, 1
  {
    hide Starts, Partial;
    if Held(lower, s, inside) {
      var b := Absorb(lower, s + t, inside);
      assert [] + b.tokens == b.tokens;
    } else if Starts(lower, s, CLOSE_TAG) {
      TagDecides(lower, s, t, inside, CLOSE_TAG);
      assert (s + t)[..|CLOSE_TAG|] == s[..|CLOSE_TAG|];
      AppendStep(lower, s, t, inside, |CLOSE_TAG|, Closed(s[..|CLOSE_TAG|]), false);
    } else if !inside && Starts(lower, s, OPEN_TAG) {
      TagDecides(lower, s, t, inside, OPEN_TAG);
      assert (s + t)[..|OPEN_TAG|] == s[..|OPEN_TAG|];
      AppendStep(lower, s, t, inside, |OPEN_TAG|, Opened(s[..|OPEN_TAG|]), true);
    } else {
      UndecidedStaysSo(lower, s, t, inside);
      EmptyIsHeld(lower, s, inside);
      AppendStep(lower, s, t, inside, 1, Kept(s[0], inside), inside);
    }
  }

  /** One decided step at the head commutes with appending. */
  lemma {:induction false} AppendStep(lower: char -> char, s: string, t: string, inside: bool,
                                      n: nat, token: Token, inside': bool)
    requires 0 < n <= |s|
    requires Absorb(lower, s, inside) == Prepend(token, Absorb(lower, s[n..], inside'))
    requires Absorb(lower, s + t, inside) == Prepend(token, Absorb(lower, (s + t)[n..], inside'))
    ensures var a := Absorb(lower, s, inside);
      var b := Absorb(lower, a.rest + t, a.inside);
      Absorb(lower, s + t, inside) == Absorbed(a.tokens + b.tokens, b.rest, b.inside)
    decreases |s|, 0
  {
    hide Absorb;
    assert (s + t)[n..] == s[n..] + t;
    AbsorbAppend(lower, s[n..], t, inside');
    var a := Absorb(lower, s[n..], inside');
    var b := Absorb(lower, a.rest + t, a.inside);
    assert [token] + (a.tokens + b.tokens) == ([token] + a.tokens) + b.tokens;
  }

  /** A proper tag prefix contains no tag, so flushing it verbatim is what the scanner would do. */
  lemma {:induction false} HeldScansVerbatim(lower: char -> char, s: string, inside: bool)
    requires Held(lower, s, inside) || (|s| < 7 && forall i :: 0 <= i < |s| ==> lower(s[i]) != '<')
    ensures Scan(lower, s, inside) == Label(s, inside)
    decreases |s|
  {
    if s != [] {
      if Held(lower, s, inside) {
        assert Partial(lower, s, CLOSE_TAG) ==> |s| < 2 || lower(s[1]) == CLOSE_TAG[1] != OPEN_TAG[1];
      }
      assert !Marked(lower, s, inside);
      assert |s[1..]| < 7 && forall i :: 0 <= i < |s[1..]| ==> s[1..][i] == s[i + 1];
      HeldScansVerbatim(lower, s[1..], inside);
      assert Label(s, inside) == [Labelled(s[0], inside)] + Label(s[1..], inside);
    }
  }

  /** Feed then flush computes the reference scanner. */
  lemma {:induction false} AbsorbRefinesScan(lower: char -> char, s: string, inside: bool)
    ensures var a := Absorb(lower, s, inside);
      Shown(a.tokens) + Label(a.rest, a.inside) == Scan(lower, s, inside)
    decreases |s|
  {
    hide Starts, Partial, Label, Shown;
    EmptyIsHeld(lower, s, inside);
    if Held(lower, s, inside) {
      HeldScansVerbatim(lower, s, inside);
      NothingShown(Label(s, inside));
    } else if Starts(lower, s, CLOSE_TAG) {
      AbsorbRefinesScan(lower, s[|CLOSE_TAG|..], false);
      PrependShows(Closed(s[..|CLOSE_TAG|]), Absorb(lower, s[|CLOSE_TAG|..], false));
    } else if !inside && Starts(lower, s, OPEN_TAG) {
      AbsorbRefinesScan(lower, s[|OPEN_TAG|..], true);
      PrependShows(Opened(s[..|OPEN_TAG|]), Absorb(lower, s[|OPEN_TAG|..], true));
    } else {
      AbsorbRefinesScan(lower, s[1..], inside);
      PrependShows(Kept(s[0], inside), Absorb(lower, s[1..], inside));
    }
  }

  lemma NothingShown(tail: seq<Labelled>)
    ensures Shown([]) + tail == tail
  {
  }

  lemma PrependShows(t: Token, a: Absorbed)
    ensures var p := Prepend(t, a);
      Shown(p.tokens) + Label(p.rest, p.inside) ==
        if t.Kept? then [Labelled(t.c, t.reasoning)] + (Shown(a.tokens) + Label(a.rest, a.inside))
        else Shown(a.tokens) + Label(a.rest, a.inside)
  {
    hide Label;
    assert ([t] + a.tokens)[1..] == a.tokens;
    assert [] + Shown(a.tokens) == Shown(a.tokens);
    if t.Kept? {
      Assoc([Labelled(t.c, t.reasoning)], Shown(a.tokens), Label(a.rest, a.inside));
    }
  }

  // ----- what a bulk step of the implementation does -----

  function KeptRun(s: string, reasoning: bool): (r: seq<Token>)
    ensures |r| == |s|
  {
    seq(|s|, i requires 0 <= i < |s| => Kept(s[i], reasoning))
  }

  lemma {:induction false} ShownKeptRun(s: string, reasoning: bool)
    ensures Shown(KeptRun(s, reasoning)) == Label(s, reasoning)
  {
    if s != [] {
      assert KeptRun(s, reasoning)[1..] == KeptRun(s[1..], reasoning);
      assert Label(s, reasoning)[1..] == Label(s[1..], reasoning);
      ShownKeptRun(s[1..], reasoning);
    }
  }

  /** Characters before the first tag or hold-back point are kept. */
  lemma {:induction false} AbsorbRun(lower: char -> char, s: string, inside: bool, k: nat)
    requires k <= |s|
    requires forall j :: 0 <= j < k ==> !Held(lower, s[j..], inside) && !Marked(lower, s[j..], inside)
    ensures var a := Absorb(lower, s[k..], inside);
      Absorb(lower, s, inside) == Absorbed(KeptRun(s[..k], inside) + a.tokens, a.rest, a.inside)
  {
    hide Starts, Partial, Held, Marked, Absorb;
    assert s[0..] == s;
    if k == 0 {
      var a := Absorb(lower, s, inside);
      assert KeptRun(s[..0], inside) + a.tokens == a.tokens;
    } else {
      forall j | 0 <= j < k - 1
        ensures !Held(lower, s[1..][j..], inside) && !Marked(lower, s[1..][j..], inside)
      {
        assert s[1..][j..] == s[j + 1..];
      }
      AbsorbRun(lower, s[1..], inside, k - 1);
      assert s[1..][k - 1..] == s[k..] && s[1..][..k - 1] == s[1..k];
      assert KeptRun(s[..k], inside) == [Kept(s[0], inside)] + KeptRun(s[1..k], inside);
      AbsorbOne(lower, s, inside);
      Assoc([Kept(s[0], inside)], KeptRun(s[1..k], inside), Absorb(lower, s[k..], inside).tokens);
    }
  }

  lemma AbsorbOne(lower: char -> char, s: string, inside: bool)
    requires |s| > 0 && !Held(lower, s, inside) && !Marked(lower, s, inside)
    ensures Absorb(lower, s, inside) == Prepend(Kept(s[0], inside), Absorb(lower, s[1..], inside))
  {
    hide Starts, Held;
  }

  /** A tag found at `j` in the lowered text, and no other way round. */
  lemma FoundIffStarts(lower: char -> char, s: string, tag: string, j: nat)
    requires j <= |s|
    ensures At(Lowered(lower, s), tag, j) <==> Starts(lower, s[j..], tag)
  {
    if j + |tag| <= |s| {
      var w := Lowered(lower, s)[j..j + |tag|];
      assert |w| == |tag| && forall i :: 0 <= i < |tag| ==> w[i] == lower(s[j + i]) == lower(s[j..][i]);
      if Starts(lower, s[j..], tag) {
        assert w == tag;
      }
    }
  }

  /** Tags never overlap: before a tag that begins later in the text, nothing is held back. */
  lemma NotHeldBeforeTag(lower: char -> char, s: string, inside: bool, j: nat, k: nat, tag: string)
    requires j < k <= |s| && (tag == OPEN_TAG || tag == CLOSE_TAG)
    requires Starts(lower, s[k..], tag)
    ensures !Held(lower, s[j..], inside)
  {
    assert s[j..][k - j] == s[k..][0];
    assert lower(s[j..][k - j]) == '<';
  }

  // ----- the class -----

  /** The last `n` characters of the text, and the text when it is shorter. */
  function Last(text: string, n: nat): string
  {
    if n <= |text| then text[|text| - n..] else text
  }

  predicate NoLongerSuffix(lower: char -> char, s: string, tag: string, keep: nat)
  {
    forall n: nat {:trigger Last(s, n)} :: keep < n <= |s| ==> !Partial(lower, Last(s, n), tag)
  }

  /** Longest proper tag prefix that the lowered text ends with. */
  method SuffixLength(text: string, tag: string) returns (keep: nat)
    requires |tag| > 0
    ensures keep <= |text| && keep < |tag|
    ensures Last(text, keep) == tag[..keep]
    ensures forall n: nat :: keep < n <= |text| && n < |tag| ==> Last(text, n) != tag[..n]
  {
    var length := if |text| <= |tag| - 1 then |text| else |tag| - 1;
    while length > 0
      invariant 0 <= length <= |text| && length < |tag|
      invariant forall n: nat :: length < n <= |text| && n < |tag| ==> Last(text, n) != tag[..n]
    {
      if text[|text| - length..] == tag[..length] {
        return length;
      }
      length := length - 1;
    }
    return 0;
  }

  /** The suffix found in the lowered text is the longest tag prefix the text itself ends with. */
  lemma SuffixIsPartial(lower: char -> char, s: string, tag: string, keep: nat)
    requires keep <= |s| && keep < |tag|
    requires Last(Lowered(lower, s), keep) == tag[..keep]
    requires forall n: nat :: keep < n <= |s| && n < |tag| ==> Last(Lowered(lower, s), n) != tag[..n]
    ensures Partial(lower, s[|s| - keep..], tag) && NoLongerSuffix(lower, s, tag, keep)
  {
    LastIffPartial(lower, s, tag, keep);
    forall n: nat | keep < n <= |s|
      ensures !Partial(lower, Last(s, n), tag)
    {
      if n < |tag| {
        LastIffPartial(lower, s, tag, n);
      }
    }
  }

  lemma LastIffPartial(lower: char -> char, s: string, tag: string, n: nat)
    requires n <= |s| && n < |tag|
    ensures Last(Lowered(lower, s), n) == tag[..n] <==> Partial(lower, Last(s, n), tag)
  {
    var w := Last(Lowered(lower, s), n);
    assert |w| == n && forall i :: 0 <= i < n ==> w[i] == lower(Last(s, n)[i]);
    if Partial(lower, Last(s, n), tag) {
      assert w == tag[..n];
    }
  }

  /** A visible event holds no tag at all; a reasoning event holds no close tag. */
  predicate CleanEvent(lower: char -> char, e: Event)
  {
    && e.delta != []
    && forall j :: 0 <= j <= |e.delta| ==> !Marked(lower, e.delta[j..], e.ReasoningDelta?)
  }

  predicate AllClean(lower: char -> char, events: seq<Event>)
  {
    forall e :: e in events ==> CleanEvent(lower, e)
  }

  lemma PrefixIsClean(lower: char -> char, s: string, inside: bool, k: nat)
    requires k <= |s|
    requires forall j :: 0 <= j < k ==> !Marked(lower, s[j..], inside)
    ensures forall j :: 0 <= j <= k ==> !Marked(lower, s[..k][j..], inside)
  {
    forall j | 0 <= j <= k
      ensures !Marked(lower, s[..k][j..], inside)
    {
      hide Marked;
      assert s[..k][j..] + s[k..] == s[j..];
      MarkedLonger(lower, s[..k][j..], s[k..], inside);
      if j == k {
        EmptyIsUnmarked(lower, s[..k][j..], inside);
      }
    }
  }

  lemma MarkedLonger(lower: char -> char, s: string, t: string, inside: bool)
    ensures Marked(lower, s, inside) ==> Marked(lower, s + t, inside)
  {
    assert forall i :: 0 <= i < |s| ==> (s + t)[i] == s[i];
  }

  lemma EmptyIsUnmarked(lower: char -> char, s: string, inside: bool)
    requires |s| == 0
    ensures !Marked(lower, s, inside)
  {
  }

  lemma HeldIsClean(lower: char -> char, s: string, inside: bool)
    requires Held(lower, s, inside)
    ensures forall j :: 0 <= j <= |s| ==> !Marked(lower, s[j..], inside)
  {
    assert Partial(lower, s, CLOSE_TAG) && |s| >= 2 ==> lower(s[1]) == CLOSE_TAG[1] != OPEN_TAG[1];
    assert s[0..] == s;
  }

  /** The part `done` of the whole input's tokens is out; the rest follows from the buffer. */
  ghost predicate Progress(lower: char -> char, whole: Absorbed, done: seq<Token>, buffer: string, inside: bool)
  {
    var a := Absorb(lower, buffer, inside);
    whole == Absorbed(done + a.tokens, a.rest, a.inside)
  }

  lemma ProgressEnds(lower: char -> char, whole: Absorbed, done: seq<Token>, buffer: string, inside: bool)
    requires Progress(lower, whole, done, buffer, inside) && Held(lower, buffer, inside)
    ensures whole == Absorbed(done, buffer, inside)
  {
    assert done + [] == done;
  }

  predicate Plain(lower: char -> char, s: string, inside: bool, k: nat)
    requires k <= |s|
  {
    forall j :: 0 <= j < k ==> !Held(lower, s[j..], inside) && !Marked(lower, s[j..], inside)
  }

  /** Everything before the first tag found is plain text. */
  lemma PlainBeforeTag(lower: char -> char, s: string, inside: bool, k: nat, tag: string)
    requires tag == CLOSE_TAG || (!inside && tag == OPEN_TAG)
    requires At(Lowered(lower, s), tag, k)
    requires forall j :: 0 <= j < k ==> !At(Lowered(lower, s), CLOSE_TAG, j)
    requires !inside ==> forall j :: 0 <= j < k ==> !At(Lowered(lower, s), OPEN_TAG, j)
    ensures Plain(lower, s, inside, k) && Starts(lower, s[k..], tag)
  {
    FoundIffStarts(lower, s, tag, k);
    forall j | 0 <= j < k
      ensures !Held(lower, s[j..], inside) && !Marked(lower, s[j..], inside)
    {
      NotHeldBeforeTag(lower, s, inside, j, k, tag);
      FoundIffStarts(lower, s, CLOSE_TAG, j);
      FoundIffStarts(lower, s, OPEN_TAG, j);
    }
  }

  /** With no tag in sight, everything before the longest tag-prefix suffix is plain, and that suffix is held. */
  lemma PlainBeforeHold(lower: char -> char, s: string, inside: bool, keep: nat)
    requires keep <= |s| && keep <= 7
    requires forall j :: 0 <= j ==> !At(Lowered(lower, s), CLOSE_TAG, j)
    requires !inside ==> forall j :: 0 <= j ==> !At(Lowered(lower, s), OPEN_TAG, j)
    requires Partial(lower, s[|s| - keep..], CLOSE_TAG) || (!inside && Partial(lower, s[|s| - keep..], OPEN_TAG))
    requires NoLongerSuffix(lower, s, CLOSE_TAG, keep)
    requires !inside ==> NoLongerSuffix(lower, s, OPEN_TAG, keep)
    ensures Plain(lower, s, inside, |s| - keep) && Held(lower, s[|s| - keep..], inside)
  {
    forall j | 0 <= j < |s| - keep
      ensures !Held(lower, s[j..], inside) && !Marked(lower, s[j..], inside)
    {
      FoundIffStarts(lower, s, CLOSE_TAG, j);
      FoundIffStarts(lower, s, OPEN_TAG, j);
      assert Last(s, |s| - j) == s[j..];
    }
  }

  /** Emitting a plain run of the buffer makes progress by exactly that run. */
  lemma RunStep(lower: char -> char, whole: Absorbed, done: seq<Token>, buffer: string, inside: bool, k: nat)
    returns (done': seq<Token>)
    requires k <= |buffer| && Plain(lower, buffer, inside, k)
    requires Progress(lower, whole, done, buffer, inside)
    ensures Progress(lower, whole, done', buffer[k..], inside)
    ensures Shown(done') == Shown(done) + Label(buffer[..k], inside)
    ensures forall j :: 0 <= j <= k ==> !Marked(lower, buffer[..k][j..], inside)
  {
    hide Held, Marked, Absorb, Shown, KeptRun, Label;
    var run := KeptRun(buffer[..k], inside);
    var a := Absorb(lower, buffer[k..], inside);
    AbsorbRun(lower, buffer, inside, k);
    done' := done + run;
    Assoc(done, run, a.tokens);
    ShownAppend(done, run);
    ShownKeptRun(buffer[..k], inside);
    PrefixIsClean(lower, buffer, inside, k);
  }

  method AppendDelta(lower: char -> char, events: seq<Event>, text: string, reasoning: bool)
    returns (r: seq<Event>)
    requires AllClean(lower, events)
    requires forall j :: 0 <= j <= |text| ==> !Marked(lower, text[j..], reasoning)
    ensures Labels(r) == Labels(events) + Label(text, reasoning)
    ensures text == "" ==> r == events
    ensures text != "" ==> r == events + [if reasoning then ReasoningDelta(text) else TextDelta(text)]
    ensures AllClean(lower, r)
  {
    r := events;
    if text != "" {
      var e := if reasoning then ReasoningDelta(text) else TextDelta(text);
      LabelsAppend(events, [e]);
      assert Labels([e]) == LabelsOf(e) + Labels([]);
      r := events + [e];
    }
  }

  /** Emit the plain run `buffer[..k]` on the given side. */
  method EmitRun(lower: char -> char, events: seq<Event>, buffer: string, inside: bool, k: nat,
                 ghost whole: Absorbed, ghost done: seq<Token>)
    returns (r: seq<Event>, ghost done': seq<Token>)
    requires k <= |buffer| && Plain(lower, buffer, inside, k)
    requires Progress(lower, whole, done, buffer, inside)
    requires Labels(events) == Shown(done)
    requires AllClean(lower, events)
    ensures Progress(lower, whole, done', buffer[k..], inside)
    ensures Labels(r) == Shown(done')
    ensures AllClean(lower, r)
    ensures buffer[..k] == "" ==> r == events
    ensures buffer[..k] != "" ==> r == events + [if inside then ReasoningDelta(buffer[..k]) else TextDelta(buffer[..k])]
  {
    hide Progress, Plain, Held, Marked, AllClean;
    done' := RunStep(lower, whole, done, buffer, inside, k);
    r := AppendDelta(lower, events, buffer[..k], inside);
  }

  /** Dropping a tag at the head of the buffer flips the side and shows nothing. */
  lemma TagStep(lower: char -> char, whole: Absorbed, done: seq<Token>, buffer: string, inside: bool, tag: string)
    returns (done': seq<Token>)
    requires tag == CLOSE_TAG || (!inside && tag == OPEN_TAG)
    requires Starts(lower, buffer, tag)
    requires Progress(lower, whole, done, buffer, inside)
    ensures Progress(lower, whole, done', buffer[|tag|..], tag == OPEN_TAG)
    ensures Shown(done') == Shown(done)
  {
    var t := if tag == CLOSE_TAG then Closed(buffer[..|tag|]) else Opened(buffer[..|tag|]);
    var a := Absorb(lower, buffer[|tag|..], tag == OPEN_TAG);
    TagDecides(lower, buffer, "", inside, tag);
    assert buffer + "" == buffer;
    done' := done + [t];
    assert done + ([t] + a.tokens) == done' + a.tokens;
    ShownAppend(done, [t]);
    assert Shown([t]) == [];
  }

  /** Emit everything before the tag found at `k`, then drop the tag. */
  method EmitUpToTag(lower: char -> char, events: seq<Event>, buffer: string, inside: bool, k: nat, tag: string,
                     ghost whole: Absorbed, ghost done: seq<Token>)
    returns (r: seq<Event>, rest: string, ghost done': seq<Token>)
    requires tag == CLOSE_TAG || (!inside && tag == OPEN_TAG)
    requires At(Lowered(lower, buffer), tag, k)
    requires forall j :: 0 <= j < k ==> !At(Lowered(lower, buffer), CLOSE_TAG, j)
    requires !inside ==> forall j :: 0 <= j < k ==> !At(Lowered(lower, buffer), OPEN_TAG, j)
    requires Progress(lower, whole, done, buffer, inside)
    requires Labels(events) == Shown(done)
    requires AllClean(lower, events)
    ensures |rest| < |buffer| && Progress(lower, whole, done', rest, tag == OPEN_TAG)
    ensures Labels(r) == Shown(done')
    ensures AllClean(lower, r)
  {
    hide Progress, Absorb, Held, Starts, Shown, Labels, Plain, AllClean;
    PlainBeforeTag(lower, buffer, inside, k, tag);
    r, done' := EmitRun(lower, events, buffer, inside, k, whole, done);
    done' := TagStep(lower, whole, done', buffer[k..], inside, tag);
    assert buffer[k..][|tag|..] == buffer[k + |tag|..];
    rest := buffer[k + |tag|..];
  }

  /** With no tag in the buffer, how much of its end to hold back. */
  method HoldBack(lower: char -> char, buffer: string, inside: bool) returns (keep: nat)
    requires forall j :: 0 <= j ==> !At(Lowered(lower, buffer), CLOSE_TAG, j)
    requires !inside ==> forall j :: 0 <= j ==> !At(Lowered(lower, buffer), OPEN_TAG, j)
    ensures keep <= |buffer| && Plain(lower, buffer, inside, |buffer| - keep)
    ensures Held(lower, buffer[|buffer| - keep..], inside)
  {
    hide Held, Starts, Partial, Plain;
    var lowered := Lowered(lower, buffer);
    keep := SuffixLength(lowered, CLOSE_TAG);
    SuffixIsPartial(lower, buffer, CLOSE_TAG, keep);
    if !inside {
      var keepOpen := SuffixLength(lowered, OPEN_TAG);
      SuffixIsPartial(lower, buffer, OPEN_TAG, keepOpen);
      keep := if keepOpen > keep then keepOpen else keep;
    }
    PlainBeforeHold(lower, buffer, inside, keep);
  }

  /** One pass of the feeding loop: act on the first tag in the buffer, or, with no tag in sight,
      emit all but a possible tag prefix and wait for more input. */
  method NextStep(lower: char -> char, events: seq<Event>, buffer: string, inside: bool,
                  ghost whole: Absorbed, ghost done: seq<Token>)
    returns (r: seq<Event>, rest: string, inside': bool, more: bool, ghost done': seq<Token>)
    requires buffer != ""
    requires Progress(lower, whole, done, buffer, inside)
    requires Labels(events) == Shown(done) && AllClean(lower, events)
    ensures Progress(lower, whole, done', rest, inside')
    ensures Labels(r) == Shown(done') && AllClean(lower, r)
    ensures if more then |rest| < |buffer| else Held(lower, rest, inside')
  {
    hide Progress, Absorb, Held, Starts, Partial, At, Shown, Labels, Plain, AllClean;
    more := true;
    var lowered := Lowered(lower, buffer);
    if inside {
      var closeIndex := Find(lowered, CLOSE_TAG);
      if closeIndex == -1 {
        var keep := HoldBack(lower, buffer, inside);
        r, done' := EmitRun(lower, events, buffer, inside, |buffer| - keep, whole, done);
        return r, buffer[|buffer| - keep..], inside, false, done';
      }
      r, rest, done' := EmitUpToTag(lower, events, buffer, inside, closeIndex, CLOSE_TAG, whole, done);
      inside' := false;
      return;
    }
    var openIndex := Find(lowered, OPEN_TAG);
    var closeIndex := Find(lowered, CLOSE_TAG);
    if closeIndex != -1 && (openIndex == -1 || closeIndex < openIndex) {
      r, rest, done' := EmitUpToTag(lower, events, buffer, inside, closeIndex, CLOSE_TAG, whole, done);
      inside' := false;
      return;
    }
    if openIndex == -1 {
      var keep := HoldBack(lower, buffer, inside);
      r, done' := EmitRun(lower, events, buffer, inside, |buffer| - keep, whole, done);
      return r, buffer[|buffer| - keep..], inside, false, done';
    }
    r, rest, done' := EmitUpToTag(lower, events, buffer, inside, openIndex, OPEN_TAG, whole, done);
    inside' := true;
  }

  class ThinkTagContentFilter {
    const lower: char -> char
    var buffer: string
    var inside: bool

    /** Between calls the buffer is a proper prefix of a tag being looked for: at most 7 characters. */
    predicate Valid()
      reads this
    {
      Held(lower, buffer, inside)
    }

    constructor (lower: char -> char)
      ensures Valid() && this.lower == lower && buffer == "" && !inside
    {
      this.lower := lower;
      buffer := "";
      inside := false;
    }

    method Feed(text: string) returns (events: seq<Event>)
      requires Valid()
      modifies this
      ensures Valid()
      ensures var a := Absorb(lower, old(buffer) + text, old(inside));
        Labels(events) == Shown(a.tokens) && buffer == a.rest && inside == a.inside
      ensures AllClean(lower, events)
    {
      events := [];
      if text == "" {
        assert buffer + text == buffer;
        return;
      }
      buffer := buffer + text;
      ghost var whole := Absorb(lower, buffer, inside);
      ghost var done: seq<Token> := [];
      assert done + whole.tokens == whole.tokens;
      assert Progress(lower, whole, done, buffer, inside) && Labels(events) == Shown(done) && AllClean(lower, events);
      hide Progress, Absorb, Held, Starts, Partial, At, Shown, Labels, Plain, AllClean;
      EmptyIsHeld(lower, "", false);
      EmptyIsHeld(lower, "", true);
      var more := true;
      while buffer != "" && more
        invariant Progress(lower, whole, done, buffer, inside)
        invariant Labels(events) == Shown(done) && AllClean(lower, events)
        invariant !more ==> Held(lower, buffer, inside)
        decreases more, |buffer|
      {
        events, buffer, inside, more, done := NextStep(lower, events, buffer, inside, whole, done);
      }
      if more {
        EmptyIsHeld(lower, buffer, inside);
      }
      ProgressEnds(lower, whole, done, buffer, inside);
    }

    /** An empty buffer leaves the side as it is; otherwise the pending text goes out on its side. */
    method Flush() returns (events: seq<Event>)
      requires Valid()
      modifies this
      ensures Valid() && buffer == ""
      ensures Labels(events) == Label(old(buffer), old(inside))
      ensures inside == (old(inside) && old(buffer) == "")
      ensures AllClean(lower, events)
    {
      if buffer == "" {
        return [];
      }
      var pending := buffer;
      HeldIsClean(lower, pending, inside);
      buffer := "";
      if inside {
        inside := false;
        events := AppendDelta(lower, [], pending, true);
      } else {
        events := AppendDelta(lower, [], pending, false);
      }
    }
  }

  // ----- chunking independence -----

  /** Absorbing pieces one after another, from a given buffer and side. */
  function AbsorbAll(lower: char -> char, pieces: seq<string>, buffer: string, inside: bool): Absorbed
  {
    if pieces == [] then Absorbed([], buffer, inside)
    else
      var a := Absorb(lower, buffer + pieces[0], inside);
      var b := AbsorbAll(lower, pieces[1..], a.rest, a.inside);
      b.(tokens := a.tokens + b.tokens)
  }

  /** Every way of cutting a text leads to the same tokens, the same held-back buffer and the same side. */
  lemma {:induction false} ChunkingIndependence(lower: char -> char, pieces: seq<string>, buffer: string, inside: bool)
    requires Held(lower, buffer, inside)
    ensures AbsorbAll(lower, pieces, buffer, inside) == Absorb(lower, buffer + Concat(pieces), inside)
  {
    hide Starts, Partial, Held, Absorb;
    if pieces == [] {
      assert buffer + Concat(pieces) == buffer;
      HeldIsAbsorbed(lower, buffer, inside);
    } else {
      var a := Absorb(lower, buffer + pieces[0], inside);
      AbsorbConserves(lower, buffer + pieces[0], inside);
      ChunkingIndependence(lower, pieces[1..], a.rest, a.inside);
      AbsorbAppend(lower, buffer + pieces[0], Concat(pieces[1..]), inside);
      assert buffer + Concat(pieces) == buffer + pieces[0] + Concat(pieces[1..]);
    }
  }

  lemma HeldIsAbsorbed(lower: char -> char, s: string, inside: bool)
    requires Held(lower, s, inside)
    ensures Absorb(lower, s, inside) == Absorbed([], s, inside)
  {
    hide Held;
  }

  lemma NothingFed(lower: char -> char, pieces: seq<string>)
    ensures Absorb(lower, Concat(pieces[..0]), false) == Absorbed([], "", false)
    ensures Labels([]) == Shown([]) && AllClean(lower, [])
  {
  }

  lemma CleanAppend(lower: char -> char, a: seq<Event>, b: seq<Event>)
    requires AllClean(lower, a) && AllClean(lower, b)
    ensures AllClean(lower, a + b)
  {
  }

  lemma OneMorePiece(pieces: seq<string>, i: nat)
    requires i < |pieces|
    ensures Concat(pieces[..i + 1]) == Concat(pieces[..i]) + pieces[i]
  {
    assert pieces[..i + 1] == pieces[..i] + [pieces[i]];
    ConcatAppend(pieces[..i], [pieces[i]]);
    assert Concat([pieces[i]]) == pieces[i];
  }

  /** However a text is cut into pieces, feeding them one by one and flushing labels every
      character as the one-pass scanner does. */
  method FilterStream(lower: char -> char, pieces: seq<string>) returns (events: seq<Event>)
    ensures Labels(events) == Scan(lower, Concat(pieces), false)
    ensures AllClean(lower, events)
  {
    hide Absorb, Held, Shown, Labels, Scan, AllClean, Concat;
    var filter := new ThinkTagContentFilter(lower);
    events := [];
    ghost var done: seq<Token> := [];
    NothingFed(lower, pieces);
    for i := 0 to |pieces|
      invariant filter.Valid() && filter.lower == lower && fresh(filter)
      invariant Absorb(lower, Concat(pieces[..i]), false) == Absorbed(done, filter.buffer, filter.inside)
      invariant Labels(events) == Shown(done)
      invariant AllClean(lower, events)
    {
      ghost var fed := Concat(pieces[..i]);
      ghost var a := Absorb(lower, filter.buffer + pieces[i], filter.inside);
      var more := filter.Feed(pieces[i]);
      LabelsAppend(events, more);
      ShownAppend(done, a.tokens);
      CleanAppend(lower, events, more);
      AbsorbAppend(lower, fed, pieces[i], false);
      OneMorePiece(pieces, i);
      events := events + more;
      done := done + a.tokens;
    }
    assert pieces[..|pieces|] == pieces;
    var last := filter.Flush();
    LabelsAppend(events, last);
    CleanAppend(lower, events, last);
    AbsorbRefinesScan(lower, Concat(pieces), false);
    events := events + last;
  }

  // ----- when the visible text as a whole is free of tags -----

  /** The visible characters among labelled ones. */
  function VisibleIn(labels: seq<Labelled>): string
  {
    if |labels| == 0 then ""
    else (if labels[0].reasoning then "" else [labels[0].c]) + VisibleIn(labels[1..])
  }

  /** The visible text in runs: a new run begins wherever the scanner removes a tag. */
  function Runs(lower: char -> char, s: string, inside: bool): (r: seq<string>)
    ensures |r| > 0 && (inside ==> r[0] == "")
    decreases |s|
  {
    if |s| == 0 then [""]
    else if Starts(lower, s, CLOSE_TAG) then [""] + Runs(lower, s[|CLOSE_TAG|..], false)
    else if !inside && Starts(lower, s, OPEN_TAG) then [""] + Runs(lower, s[|OPEN_TAG|..], true)
    else
      var r := Runs(lower, s[1..], inside);
      if inside then r else [[s[0]] + r[0]] + r[1..]
  }

  lemma {:induction false} RunsAreVisible(lower: char -> char, s: string, inside: bool)
    ensures Concat(Runs(lower, s, inside)) == VisibleIn(Scan(lower, s, inside))
    decreases |s|
  {
    hide Starts;
    if |s| == 0 {
      assert Concat([""]) == "";
    } else if Starts(lower, s, CLOSE_TAG) {
      var rest := s[|CLOSE_TAG|..];
      RunsAreVisible(lower, rest, false);
      EmptyRunFirst(Runs(lower, rest, false));
    } else if !inside && Starts(lower, s, OPEN_TAG) {
      var rest := s[|OPEN_TAG|..];
      RunsAreVisible(lower, rest, true);
      EmptyRunFirst(Runs(lower, rest, true));
    } else {
      RunsAreVisible(lower, s[1..], inside);
      ScannedOne(s[0], inside, Scan(lower, s[1..], inside));
      if !inside {
        LongerFirst(s[0], Runs(lower, s[1..], inside));
      }
    }
  }

  lemma EmptyRunFirst(r: seq<string>)
    ensures Concat([""] + r) == Concat(r)
  {
    assert ([""] + r)[1..] == r;
  }

  lemma LongerFirst(c: char, r: seq<string>)
    requires |r| > 0
    ensures Concat([[c] + r[0]] + r[1..]) == [c] + Concat(r)
  {
    assert ([[c] + r[0]] + r[1..])[1..] == r[1..];
  }

  lemma ScannedOne(c: char, inside: bool, rest: seq<Labelled>)
    ensures VisibleIn([Labelled(c, inside)] + rest) == (if inside then "" else [c]) + VisibleIn(rest)
  {
    assert ([Labelled(c, inside)] + rest)[1..] == rest;
  }

  predicate IsTag(tag: string)
  {
    tag == OPEN_TAG || tag == CLOSE_TAG
  }

  /** A tag, up to case, occurs somewhere in the text. */
  ghost predicate ContainsTag(lower: char -> char, s: string)
  {
    exists tag, p: nat :: IsTag(tag) && p <= |s| && Starts(lower, s[p..], tag)
  }

  /** `s` ends in the first `k` characters of the tag. */
  predicate EndsIn(lower: char -> char, s: string, tag: string, k: nat)
    requires k <= |tag|
  {
    k <= |s| && forall i :: |s| - k <= i < |s| ==> lower(s[i]) == tag[i - (|s| - k)]
  }

  /** `s` begins with what the tag has after its first `k` characters. */
  predicate BeginsWith(lower: char -> char, s: string, tag: string, k: nat)
    requires k <= |tag|
  {
    |tag| - k <= |s| && forall j :: 0 <= j < |tag| - k ==> lower(s[j]) == tag[k + j]
  }

  /** Between the two texts a tag has been put together. */
  ghost predicate Joined(lower: char -> char, before: string, after: string)
  {
    exists tag, k: nat :: IsTag(tag) && 0 < k < |tag| && EndsIn(lower, before, tag, k) &&
        BeginsWith(lower, after, tag, k)
  }

  ghost predicate EndsInPartialTag(lower: char -> char, s: string)
  {
    exists tag, k: nat :: IsTag(tag) && 0 < k < |tag| && EndsIn(lower, s, tag, k)
  }

  /** At the removal after run `i`, the visible text before and after puts a tag together. */
  ghost predicate SplicedAt(lower: char -> char, runs: seq<string>, i: nat)
    requires i + 1 < |runs|
  {
    Joined(lower, Concat(runs[..i + 1]), Concat(runs[i + 1..]))
  }

  lemma JoinedIsTag(lower: char -> char, before: string, after: string)
    requires Joined(lower, before, after)
    ensures ContainsTag(lower, before + after)
  {
    var tag, k: nat :| IsTag(tag) && 0 < k < |tag| && EndsIn(lower, before, tag, k) && BeginsWith(lower, after, tag, k);
    hide IsTag;
    var s, p := before + after, |before| - k;
    forall j | 0 <= j < |tag| ensures lower(s[p..][j]) == tag[j]
    {
      if j >= k {
        assert s[p + j] == after[j - k];
        assert tag[k + (j - k)] == tag[j];
      } else {
        assert s[p + j] == before[p + j];
      }
    }
    assert Starts(lower, s[p..], tag);
  }

  /** A tag across the end of the first text is put together there; otherwise it lies in one of the two. */
  lemma TagAcross(lower: char -> char, a: string, b: string, tag: string, p: nat)
    requires IsTag(tag) && p <= |a + b| && Starts(lower, (a + b)[p..], tag)
    ensures p < |a| < p + |tag| ==> Joined(lower, a, b)
    ensures p + |tag| <= |a| ==> ContainsTag(lower, a)
    ensures |a| <= p ==> (a + b)[p..] == b[p - |a|..]
  {
    hide IsTag;
    var s := a + b;
    assert forall j :: 0 <= j < |tag| ==> s[p..][j] == s[p + j];
    if p + |tag| <= |a| {
      assert forall j :: 0 <= j < |tag| ==> a[p..][j] == s[p + j];
      assert Starts(lower, a[p..], tag);
    } else if p < |a| {
      var k := |a| - p;
      assert forall i :: p <= i < |a| ==> a[i] == s[p..][i - p];
      assert forall j :: 0 <= j < |tag| - k ==> b[j] == s[p + (k + j)];
      assert EndsIn(lower, a, tag, k) && BeginsWith(lower, b, tag, k);
    }
  }

  /** A tag in text made of tag-free runs is put together at the end of some run. */
  lemma {:induction false} TagIsJoined(lower: char -> char, runs: seq<string>, tag: string, p: nat) returns (i: nat)
    requires |runs| > 0 && forall r :: r in runs ==> !ContainsTag(lower, r)
    requires IsTag(tag) && p <= |Concat(runs)| && Starts(lower, Concat(runs)[p..], tag)
    ensures i + 1 < |runs| && Joined(lower, runs[i], Concat(runs[i + 1..]))
  {
    hide IsTag, Starts, ContainsTag, Joined;
    var first, rest := runs[0], runs[1..];
    assert Concat(runs) == first + Concat(rest);
    TagAcross(lower, first, Concat(rest), tag, p);
    TagLength(tag);
    TagNeedsRoom(lower, Concat(runs)[p..], tag);
    if |first| <= p {
      var j := TagIsJoined(lower, rest, tag, p - |first|);
      i := j + 1;
      assert runs[i] == rest[j] && runs[i + 1..] == rest[j + 1..];
    } else {
      i := 0;
      if |rest| == 0 {
        NotJoinedToNothing(lower, first, Concat(rest));
      }
    }
  }

  lemma TagLength(tag: string)
    requires IsTag(tag)
    ensures |tag| >= 7
  {
  }

  lemma TagNeedsRoom(lower: char -> char, s: string, tag: string)
    requires Starts(lower, s, tag)
    ensures |tag| <= |s|
  {
  }

  lemma NotJoinedToNothing(lower: char -> char, before: string, after: string)
    requires |after| == 0
    ensures !Joined(lower, before, after)
  {
  }

  /** No run holds a tag: the scanner would have removed it. */
  lemma {:induction false} RunsAreFree(lower: char -> char, s: string, inside: bool)
    ensures forall r :: r in Runs(lower, s, inside) ==> !ContainsTag(lower, r)
    ensures !inside ==> Runs(lower, s, inside)[0] <= s
    decreases |s|
  {
    hide Starts, ContainsTag;
    EmptyIsFree(lower);
    if |s| == 0 {
    } else if Starts(lower, s, CLOSE_TAG) {
      RunsAreFree(lower, s[|CLOSE_TAG|..], false);
    } else if !inside && Starts(lower, s, OPEN_TAG) {
      RunsAreFree(lower, s[|OPEN_TAG|..], true);
    } else {
      RunsAreFree(lower, s[1..], inside);
      if !inside {
        var r := Runs(lower, s[1..], inside);
        assert s == [s[0]] + s[1..];
        FreeLonger(lower, s, s[0], r[0]);
      }
    }
  }

  lemma EmptyIsFree(lower: char -> char)
    ensures !ContainsTag(lower, "")
  {
  }

  lemma FreeLonger(lower: char -> char, s: string, c: char, r: string)
    requires !ContainsTag(lower, r) && [c] + r <= s
    requires !Starts(lower, s, OPEN_TAG) && !Starts(lower, s, CLOSE_TAG)
    ensures !ContainsTag(lower, [c] + r)
  {
    hide Starts;
    forall tag, p: nat | IsTag(tag) && p <= |[c] + r| ensures !Starts(lower, ([c] + r)[p..], tag)
    {
      if p == 0 {
        assert ([c] + r)[0..] == [c] + r;
        StartsLonger(lower, [c] + r, s, tag);
      } else {
        assert ([c] + r)[p..] == r[p - 1..];
        assert p - 1 <= |r|;
      }
    }
  }

  lemma StartsLonger(lower: char -> char, s: string, longer: string, tag: string)
    requires s <= longer
    ensures Starts(lower, s, tag) ==> Starts(lower, longer, tag)
  {
  }

  /** The visible text contains a tag if and only if at some removal the visible text before it ends in a proper
      part of a tag and the visible text after it begins with the rest of that tag; and then this is so for the
      visible characters since the previous removal alone. */
  lemma VisibleTagIsSpliced(lower: char -> char, s: string, inside: bool)
    ensures var visible, runs := VisibleIn(Scan(lower, s, inside)), Runs(lower, s, inside);
      && visible == Concat(runs)
      && (ContainsTag(lower, visible) <==> exists i: nat :: i + 1 < |runs| && SplicedAt(lower, runs, i))
      && (ContainsTag(lower, visible) <==>
          exists i: nat :: i + 1 < |runs| && Joined(lower, runs[i], Concat(runs[i + 1..])))
  {
    hide Scan, VisibleIn, Runs, IsTag, Starts, Joined;
    RunsAreVisible(lower, s, inside);
    RunsAreFree(lower, s, inside);
    var runs := Runs(lower, s, inside);
    if ContainsTag(lower, Concat(runs)) {
      var tag, p: nat :| IsTag(tag) && p <= |Concat(runs)| && Starts(lower, Concat(runs)[p..], tag);
      hide ContainsTag;
      var i := TagIsJoined(lower, runs, tag, p);
      JoinedSinceAll(lower, runs, i);
    }
    hide ContainsTag;
    forall i: nat | i + 1 < |runs| && SplicedAt(lower, runs, i) ensures ContainsTag(lower, Concat(runs))
    {
      JoinedIsTag(lower, Concat(runs[..i + 1]), Concat(runs[i + 1..]));
      assert runs == runs[..i + 1] + runs[i + 1..];
      ConcatAppend(runs[..i + 1], runs[i + 1..]);
    }
    forall i: nat | i + 1 < |runs| && Joined(lower, runs[i], Concat(runs[i + 1..])) ensures SplicedAt(lower, runs, i)
    {
      JoinedSinceAll(lower, runs, i);
    }
  }

  lemma JoinedSinceAll(lower: char -> char, runs: seq<string>, i: nat)
    requires i + 1 < |runs| && Joined(lower, runs[i], Concat(runs[i + 1..]))
    ensures SplicedAt(lower, runs, i)
  {
    hide Joined;
    assert runs[..i + 1] == runs[..i] + [runs[i]];
    ConcatAppend(runs[..i], [runs[i]]);
    assert Concat([runs[i]]) == runs[i];
    JoinedAfterMore(lower, Concat(runs[..i]), runs[i], Concat(runs[i + 1..]));
  }

  lemma JoinedAfterMore(lower: char -> char, more: string, before: string, after: string)
    requires Joined(lower, before, after)
    ensures Joined(lower, more + before, after)
  {
    var tag, k: nat :| IsTag(tag) && 0 < k < |tag| && EndsIn(lower, before, tag, k) && BeginsWith(lower, after, tag, k);
    hide IsTag;
    var s := more + before;
    assert forall i :: |s| - k <= i < |s| ==> s[i] == before[i - |more|];
    assert EndsIn(lower, s, tag, k);
  }

  /** The run stands in the input directly in front of a tag at `q`. */
  ghost predicate StandsBefore(lower: char -> char, s: string, run: string, q: nat)
  {
    && |run| <= q <= |s| && s[q - |run|..q] == run
    && exists tag :: IsTag(tag) && Starts(lower, s[q..], tag)
  }

  lemma StandsFurther(lower: char -> char, s: string, n: nat, run: string, q: nat)
    requires n <= |s| && StandsBefore(lower, s[n..], run, q)
    ensures StandsBefore(lower, s, run, n + q)
  {
    hide Starts, IsTag;
    TailOf(s, n, q);
    SliceOfTail(s, n, q - |run|, q);
  }

  lemma StandsLonger(lower: char -> char, s: string, run: string)
    requires |s| > 0 && StandsBefore(lower, s[1..], run, |run|)
    ensures StandsBefore(lower, s, [s[0]] + run, |run| + 1)
  {
    hide Starts, IsTag;
    TailOf(s, 1, |run|);
    assert s[0..|run| + 1] == [s[0]] + s[1..][0..|run|];
  }

  lemma StandsFirst(lower: char -> char, s: string)
    requires Starts(lower, s, CLOSE_TAG) || Starts(lower, s, OPEN_TAG)
    ensures StandsBefore(lower, s, "", 0)
  {
    hide Starts;
    assert s[0..] == s && IsTag(CLOSE_TAG) && IsTag(OPEN_TAG);
  }

  /** Every run but the last stands in the input, directly in front of a tag. */
  lemma {:induction false} RunBeforeTag(lower: char -> char, s: string, inside: bool, i: nat) returns (q: nat)
    requires i + 1 < |Runs(lower, s, inside)|
    ensures StandsBefore(lower, s, Runs(lower, s, inside)[i], q)
    ensures i == 0 && !inside ==> q == |Runs(lower, s, inside)[0]|
    decreases |s|
  {
    hide Starts, Runs, StandsBefore;
    if Starts(lower, s, CLOSE_TAG) || (!inside && Starts(lower, s, OPEN_TAG)) {
      RunsAtTag(lower, s, inside);
      q := 0;
      if i == 0 {
        StandsFirst(lower, s);
      } else if Starts(lower, s, CLOSE_TAG) {
        q := RunBeforeTag(lower, s[|CLOSE_TAG|..], false, i - 1);
        StandsFurther(lower, s, |CLOSE_TAG|, Runs(lower, s, inside)[i], q);
        q := |CLOSE_TAG| + q;
      } else {
        q := RunBeforeTag(lower, s[|OPEN_TAG|..], true, i - 1);
        StandsFurther(lower, s, |OPEN_TAG|, Runs(lower, s, inside)[i], q);
        q := |OPEN_TAG| + q;
      }
    } else {
      RunsAtChar(lower, s, inside);
      q := RunBeforeTag(lower, s[1..], inside, i);
      if !inside && i == 0 {
        StandsLonger(lower, s, Runs(lower, s[1..], inside)[0]);
      } else {
        StandsFurther(lower, s, 1, Runs(lower, s, inside)[i], q);
      }
      q := q + 1;
    }
  }

  lemma RunsAtTag(lower: char -> char, s: string, inside: bool)
    requires |s| > 0 && (Starts(lower, s, CLOSE_TAG) || (!inside && Starts(lower, s, OPEN_TAG)))
    ensures Runs(lower, s, inside) ==
      [""] + if Starts(lower, s, CLOSE_TAG) then Runs(lower, s[|CLOSE_TAG|..], false)
             else Runs(lower, s[|OPEN_TAG|..], true)
  {
    hide Starts;
  }

  lemma RunsAtChar(lower: char -> char, s: string, inside: bool)
    requires !Starts(lower, s, CLOSE_TAG) && (inside || !Starts(lower, s, OPEN_TAG))
    ensures |s| == 0 ==> Runs(lower, s, inside) == [""]
    ensures |s| > 0 ==>
      (var r := Runs(lower, s[1..], inside);
       Runs(lower, s, inside) == if inside then r else [[s[0]] + r[0]] + r[1..])
  {
    hide Starts;
  }

  lemma TailOf(s: string, n: nat, j: nat)
    requires n <= |s| && j <= |s| - n
    ensures s[n..][j..] == s[n + j..]
  {
  }

  lemma SliceOfTail(s: string, n: nat, i: nat, j: nat)
    requires n <= |s| && i <= j <= |s| - n
    ensures s[n..][i..j] == s[n + i..n + j]
  {
    assert s[n..] == s[n..|s|];
    SliceOfSlice(s, n, |s|, i, j);
  }

  /** A condition on the input alone: if no tag in it directly follows a proper part of a tag, the visible text
      is free of tags. */
  lemma VisibleIsFree(lower: char -> char, s: string, inside: bool)
    requires forall q: nat, tag :: q <= |s| && IsTag(tag) && Starts(lower, s[q..], tag) ==>
        !EndsInPartialTag(lower, s[..q])
    ensures !ContainsTag(lower, VisibleIn(Scan(lower, s, inside)))
  {
    hide Scan, VisibleIn, Runs, IsTag, Starts, ContainsTag;
    VisibleTagIsSpliced(lower, s, inside);
    var runs := Runs(lower, s, inside);
    if i: nat :| i + 1 < |runs| && Joined(lower, runs[i], Concat(runs[i + 1..])) {
      var q := RunBeforeTag(lower, s, inside, i);
      PartialInInput(lower, s, runs[i], q, Concat(runs[i + 1..]));
      assert false;
    }
  }

  lemma PartialInInput(lower: char -> char, s: string, run: string, q: nat, after: string)
    requires Joined(lower, run, after) && |run| <= q <= |s| && s[q - |run|..q] == run
    ensures EndsInPartialTag(lower, s[..q])
  {
    var tag, k: nat :| IsTag(tag) && 0 < k < |tag| && EndsIn(lower, run, tag, k) && BeginsWith(lower, after, tag, k);
    hide IsTag;
    assert forall i :: q - k <= i < q ==> s[..q][i] == run[i - (q - |run|)];
    assert EndsIn(lower, s[..q], tag, k);
  }

  lemma {:induction false} ScanRun(lower: char -> char, s: string, inside: bool, k: nat)
    requires k <= |s| && forall j :: 0 <= j < k ==> !Marked(lower, s[j..], inside)
    ensures Scan(lower, s, inside) == Label(s[..k], inside) + Scan(lower, s[k..], inside)
  {
    hide Starts;
    assert s[0..] == s;
    if k > 0 {
      forall j | 0 <= j < k - 1 ensures !Marked(lower, s[1..][j..], inside)
      {
        assert s[1..][j..] == s[j + 1..];
      }
      ScanRun(lower, s[1..], inside, k - 1);
      assert s[1..][k - 1..] == s[k..] && s[1..][..k - 1] == s[1..k];
      assert Label(s[..k], inside) == [Labelled(s[0], inside)] + Label(s[1..k], inside);
      Assoc([Labelled(s[0], inside)], Label(s[1..k], inside), Scan(lower, s[k..], inside));
    }
  }

  /** Markup in the content, in any case: what stands between the tags is reasoning, what stands around them is
      visible, and the tags are gone. */
  lemma MarkupTakenOut(lower: char -> char, a: string, open: string, b: string, close: string, c: string)
    requires Lowered(lower, open) == "<think>" && Lowered(lower, close) == "</think>"
    requires forall j :: 0 <= j < |a| ==>
      !At(Lowered(lower, a + open), "<think>", j) && !At(Lowered(lower, a + open), "</think>", j)
    requires forall j :: 0 <= j < |b| ==> !At(Lowered(lower, b + close), "</think>", j)
    ensures Scan(lower, a + (open + (b + (close + c))), false) ==
      Label(a, false) + Label(b, true) + Scan(lower, c, false)
  {
    hide Scan, Label;
    var inner := b + (close + c);
    TextBefore(lower, a, open, inner, false);
    TextBefore(lower, b, close, c, true);
    OpenRemoved(lower, open, inner);
    CloseRemoved(lower, close, c);
    Assoc(Label(a, false), Label(b, true), Scan(lower, c, false));
  }

  /** Text in which no tag begins is kept on its side, up to the tag that follows. */
  lemma TextBefore(lower: char -> char, a: string, tag: string, rest: string, inside: bool)
    requires |tag| == 7 || (|tag| == 8 && inside)
    requires forall j :: 0 <= j < |a| ==>
      !At(Lowered(lower, a + tag), CLOSE_TAG, j) && (!inside ==> !At(Lowered(lower, a + tag), OPEN_TAG, j))
    ensures Scan(lower, a + (tag + rest), inside) == Label(a, inside) + Scan(lower, tag + rest, inside)
  {
    var s := a + (tag + rest);
    forall j | 0 <= j < |a| ensures !Marked(lower, s[j..], inside)
    {
      Assoc(a, tag, rest);
      assert s[j..] == (a + tag)[j..] + rest;
      FoundIffStarts(lower, a + tag, CLOSE_TAG, j);
      FoundIffStarts(lower, a + tag, OPEN_TAG, j);
      StartsEarly(lower, (a + tag)[j..], rest, CLOSE_TAG);
      StartsEarly(lower, (a + tag)[j..], rest, OPEN_TAG);
    }
    ScanRun(lower, s, inside, |a|);
    assert s[..|a|] == a && s[|a|..] == tag + rest;
  }

  lemma StartsEarly(lower: char -> char, s: string, rest: string, tag: string)
    requires |s| >= |tag|
    ensures Starts(lower, s + rest, tag) <==> Starts(lower, s, tag)
  {
    assert forall i :: 0 <= i < |tag| ==> (s + rest)[i] == s[i];
  }

  lemma OpenRemoved(lower: char -> char, open: string, rest: string)
    requires Lowered(lower, open) == OPEN_TAG
    ensures Scan(lower, open + rest, false) == Scan(lower, rest, true)
  {
    var s := open + rest;
    assert forall i :: 0 <= i < |OPEN_TAG| ==> lower(s[i]) == Lowered(lower, open)[i];
    assert lower(s[1]) == 't';
    assert s[|OPEN_TAG|..] == rest;
  }

  lemma CloseRemoved(lower: char -> char, close: string, rest: string)
    requires Lowered(lower, close) == CLOSE_TAG
    ensures Scan(lower, close + rest, true) == Scan(lower, rest, false)
  {
    var s := close + rest;
    assert forall i :: 0 <= i < |CLOSE_TAG| ==> lower(s[i]) == Lowered(lower, close)[i];
    assert s[|CLOSE_TAG|..] == rest;
  }

  /** A second `<` less than a tag's length ahead rules out a tag. */
  lemma NoTagAcross(s: string, j: nat, k: nat, inside: bool)
    requires j < k < |s| && k - j < |OPEN_TAG| && s[k] == '<'
    ensures !Marked(c => c, s[j..], inside)
  {
    assert s[j..][k - j] == '<';
  }

  lemma CloseTagDropped(lower: char -> char, rest: string, inside: bool)
    requires Lowered(lower, CLOSE_TAG) == CLOSE_TAG
    ensures Scan(lower, CLOSE_TAG + rest, inside) == Scan(lower, rest, false)
  {
    var s := CLOSE_TAG + rest;
    assert s[|CLOSE_TAG|..] == rest;
    forall i | 0 <= i < |CLOSE_TAG| ensures lower(s[i]) == CLOSE_TAG[i]
    {
      assert s[i] == CLOSE_TAG[i] && Lowered(lower, CLOSE_TAG)[i] == lower(CLOSE_TAG[i]);
    }
  }

  lemma OneAngle(k: nat)
    requires 0 < k < |OPEN_TAG|
    ensures forall i :: 0 <= i < |OPEN_TAG[k..]| ==> OPEN_TAG[k..][i] != '<'
    ensures OPEN_TAG[..k] + OPEN_TAG[k..] == OPEN_TAG
  {
  }

  lemma LabelAppend(a: string, b: string, reasoning: bool)
    ensures Label(a + b, reasoning) == Label(a, reasoning) + Label(b, reasoning)
  {
  }

  /** Where it fails: an open tag cut anywhere by a close tag comes out whole. */
  lemma SplicedTag(k: nat)
    requires 0 < k < |OPEN_TAG|
    ensures Scan(c => c, OPEN_TAG[..k] + CLOSE_TAG + OPEN_TAG[k..], false) == Label(OPEN_TAG, false)
  {
    hide Scan, Marked, Label, Starts, Partial;
    var same: char -> char := c => c;
    var a, b := OPEN_TAG[..k], OPEN_TAG[k..];
    var s := a + CLOSE_TAG + b;
    assert s[k] == '<';
    forall j | 0 <= j < k ensures !Marked(same, s[j..], false)
    {
      NoTagAcross(s, j, k, false);
    }
    ScanRun(same, s, false, k);
    assert s[..k] == a && s[k..] == CLOSE_TAG + b;
    assert Lowered(same, CLOSE_TAG) == CLOSE_TAG;
    CloseTagDropped(same, b, false);
    OneAngle(k);
    HeldScansVerbatim(same, b, false);
    LabelAppend(a, b, false);
  }
}
