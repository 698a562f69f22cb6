/** Splitting documents into bounded chunks without losing text, under their heading paths. */
module Chunker {
  import opened Text

  const MAX_CHUNK_CHARS: nat := 3000

  /** The characters that are not white space, in order. */
  function Ink(s: string): string
  {
    Filter(s, c => !PySpace(c))
  }

  function InkOf(pieces: seq<string>): string
  {
    if pieces == [] then "" else InkOf(pieces[..|pieces| - 1]) + Ink(pieces[|pieces| - 1])
  }

  predicate Blank(s: string)
  {
    Strip(s) == ""
  }

  /** Text between blank lines, as Python's split on two newlines gives it. */
  function Paragraphs(s: string): (r: seq<string>)
    ensures |r| > 0
    decreases |s|
  {
    var i := Find(s, "\n\n");
    if i == -1 then [s] else [s[..i]] + Paragraphs(s[i + 2..])
  }

  // ----- ink -----

  lemma InkAppend(a: string, b: string)
    ensures Ink(a + b) == Ink(a) + Ink(b)
  {
    FilterAppend(a, b, c => !PySpace(c));
  }

  lemma InkOfWhite(s: string)
    requires forall i :: 0 <= i < |s| ==> PySpace(s[i])
    ensures Ink(s) == ""
  {
    FilterAllDropped(s, c => !PySpace(c));
  }

  lemma InkOfStrip(s: string)
    ensures Ink(Strip(s)) == Ink(s)
  {
    var lo, hi := TrimShape(s, PySpace);
    assert s == s[..lo] + s[lo..hi] + s[hi..];
    InkOfWhite(s[..lo]);
    InkOfWhite(s[hi..]);
    InkAppend(s[..lo] + s[lo..hi], s[hi..]);
    InkAppend(s[..lo], s[lo..hi]);
  }

  lemma {:induction false} InkOfAppend(a: seq<string>, b: seq<string>)
    ensures InkOf(a + b) == InkOf(a) + InkOf(b)
  {
    hide Ink;
    if |b| == 0 {
      assert a + b == a;
    } else {
      assert (a + b)[..|a + b| - 1] == a + b[..|b| - 1];
      InkOfAppend(a, b[..|b| - 1]);
      Assoc(InkOf(a), InkOf(b[..|b| - 1]), Ink(b[|b| - 1]));
    }
  }

  lemma InkOfOne(s: string)
    ensures InkOf([s]) == Ink(s)
  {
    assert [s][..0] == [];
  }

  lemma {:induction false} InkOfParagraphs(s: string)
    ensures InkOf(Paragraphs(s)) == Ink(s)
    decreases |s|
  {
    hide Ink;
    var i := Find(s, "\n\n");
    if i == -1 {
      InkOfOne(s);
    } else {
      assert s == s[..i] + "\n\n" + s[i + 2..];
      InkOfWhite("\n\n");
      InkAppend(s[..i] + "\n\n", s[i + 2..]);
      InkAppend(s[..i], "\n\n");
      InkOfParagraphs(s[i + 2..]);
      InkOfOne(s[..i]);
      InkOfAppend([s[..i]], Paragraphs(s[i + 2..]));
    }
  }

  lemma BlankHasNoInk(s: string)
    ensures Blank(s) <==> Ink(s) == ""
  {
    InkOfStrip(s);
    var lo, hi := TrimShape(s, PySpace);
    if lo < hi {
      assert Strip(s) == [s[lo]] + s[lo + 1..hi];
      InkAppend([s[lo]], s[lo + 1..hi]);
      assert Ink([s[lo]]) == [s[lo]];
    }
  }

  // ----- a short paragraph is never cut -----

  ghost predicate Within(part: string, s: string)
  {
    exists i :: At(s, part, i)
  }

  lemma WithinLonger(part: string, s: string, before: string, after: string)
    requires Within(part, s)
    ensures Within(part, before + s + after)
  {
    var i :| At(s, part, i);
    var t := before + s + after;
    assert t[|before| + i..|before| + i + |part|] == s[i..i + |part|];
    assert At(t, part, |before| + i);
  }

  /** Stripping cannot cut into a part that begins and ends with ink. */
  lemma WithinStripped(part: string, s: string)
    requires Within(part, s) && |part| > 0 && !PySpace(part[0]) && !PySpace(part[|part| - 1])
    ensures Within(part, Strip(s))
  {
    var i :| At(s, part, i);
    var lo, hi := TrimShape(s, PySpace);
    assert s[i] == part[0] && s[i + |part| - 1] == part[|part| - 1];
    assert lo <= i && i + |part| <= hi;
    assert Strip(s) == s[lo..hi];
    SliceOfSlice(s, lo, hi, i - lo, i - lo + |part|);
    assert Strip(s)[i - lo..i - lo + |part|] == s[i..i + |part|];
    assert At(Strip(s), part, i - lo);
  }

  lemma StripIsWithin(s: string)
    requires !Blank(s)
    ensures Within(Strip(s), s)
    ensures var t := Strip(s); |t| > 0 && !PySpace(t[0]) && !PySpace(t[|t| - 1])
  {
    var lo, hi := TrimShape(s, PySpace);
    assert At(s, Strip(s), lo);
  }

  /** The paragraph, without surrounding blanks, is whole in one of the pieces. */
  ghost predicate Kept(paragraph: string, pieces: seq<string>)
  {
    exists k :: 0 <= k < |pieces| && Within(Strip(paragraph), pieces[k])
  }

  predicate Bounded(pieces: seq<string>)
  {
    forall p :: p in pieces ==> 0 < |p| <= MAX_CHUNK_CHARS
  }

  /** Where a paragraph already seen may be: in a finished piece, in the buffer, or cut for being too long. */
  ghost predicate Placed(paragraph: string, pieces: seq<string>, buffer: string)
  {
    Blank(paragraph) || |paragraph| > MAX_CHUNK_CHARS || Kept(paragraph, pieces) || Within(Strip(paragraph), buffer)
  }

  ghost predicate Packing(seen: seq<string>, pieces: seq<string>, buffer: string)
  {
    && Bounded(pieces)
    && |buffer| <= MAX_CHUNK_CHARS && (buffer != "" ==> !Blank(buffer))
    && InkOf(pieces) + Ink(buffer) == InkOf(seen)
    && forall p :: p in seen ==> Placed(p, pieces, buffer)
  }

  /** Moving the stripped buffer to the finished pieces keeps everything where it was. */
  lemma FlushBuffer(seen: seq<string>, pieces: seq<string>, buffer: string)
    requires Packing(seen, pieces, buffer) && buffer != ""
    ensures Packing(seen, pieces + [Strip(buffer)], "")
  {
    var pieces' := pieces + [Strip(buffer)];
    InkOfOne(Strip(buffer));
    InkOfAppend(pieces, [Strip(buffer)]);
    InkOfStrip(buffer);
    var lo, hi := TrimShape(buffer, PySpace);
    assert Ink("") == "";
    hide Ink, InkOf;
    forall p | p in seen ensures Placed(p, pieces', "")
    {
      if !Blank(p) && |p| <= MAX_CHUNK_CHARS {
        if Kept(p, pieces) {
          var k :| 0 <= k < |pieces| && Within(Strip(p), pieces[k]);
          assert pieces'[k] == pieces[k];
        } else {
          StripIsWithin(p);
          WithinStripped(Strip(p), buffer);
          assert pieces'[|pieces|] == Strip(buffer);
        }
      }
    }
  }

  lemma SeenOneMore(seen: seq<string>, p: string)
    ensures InkOf(seen + [p]) == InkOf(seen) + Ink(p)
    ensures forall q :: q in seen + [p] <==> q in seen || q == p
  {
    InkOfOne(p);
    InkOfAppend(seen, [p]);
  }

  lemma SkipBlank(seen: seq<string>, pieces: seq<string>, buffer: string, p: string)
    requires Packing(seen, pieces, buffer) && Blank(p)
    ensures Packing(seen + [p], pieces, buffer)
  {
    SeenOneMore(seen, p);
    BlankHasNoInk(p);
  }

  lemma WithinItself(p: string)
    requires !Blank(p)
    ensures Within(Strip(p), p)
  {
    StripIsWithin(p);
  }

  lemma StartBuffer(seen: seq<string>, pieces: seq<string>, p: string)
    requires Packing(seen, pieces, "") && !Blank(p) && |p| <= MAX_CHUNK_CHARS
    ensures Packing(seen + [p], pieces, p)
  {
    SeenOneMore(seen, p);
    WithinItself(p);
    assert Ink("") == "" && InkOf(pieces) + "" == InkOf(pieces);
    hide Ink, InkOf, Blank, Kept, Strip, Within;
    forall q | q in seen ensures Placed(q, pieces, p)
    {
      NotWithinEmpty(q);
    }
  }

  lemma NotWithinEmpty(q: string)
    ensures Within(Strip(q), "") ==> Blank(q)
  {
  }

  lemma ExtendBuffer(seen: seq<string>, pieces: seq<string>, buffer: string, p: string)
    requires Packing(seen, pieces, buffer) && buffer != "" && !Blank(p)
    requires |buffer| + |p| + 2 <= MAX_CHUNK_CHARS
    ensures Packing(seen + [p], pieces, buffer + "\n\n" + p)
  {
    hide Ink, InkOf, Blank, Kept, Strip, Within;
    var buffer' := buffer + "\n\n" + p;
    SeenOneMore(seen, p);
    InkOfJoined(buffer, p);
    BlankHasNoInk(buffer');
    BlankHasNoInk(p);
    assert InkOf(pieces) + (Ink(buffer) + Ink(p)) == InkOf(pieces) + Ink(buffer) + Ink(p);
    forall q | q in seen + [p] ensures Placed(q, pieces, buffer')
    {
      if q == p {
        WithinItself(p);
        WithinJoined(Strip(p), buffer, p);
      } else if Within(Strip(q), buffer) {
        WithinJoined(Strip(q), buffer, p);
      }
    }
  }

  lemma InkOfJoined(buffer: string, p: string)
    ensures Ink(buffer + "\n\n" + p) == Ink(buffer) + Ink(p)
  {
    InkOfWhite("\n\n");
    hide Ink;
    InkAppend(buffer + "\n\n", p);
    InkAppend(buffer, "\n\n");
  }

  lemma WithinJoined(part: string, buffer: string, p: string)
    requires Within(part, buffer) || Within(part, p)
    ensures Within(part, buffer + "\n\n" + p)
  {
    hide Within;
    if Within(part, buffer) {
      WithinLonger(part, buffer, "", "\n\n" + p);
      assert "" + buffer + ("\n\n" + p) == buffer + "\n\n" + p;
    } else {
      WithinLonger(part, p, buffer + "\n\n", "");
      assert buffer + "\n\n" + p + "" == buffer + "\n\n" + p;
    }
  }

  lemma AddSlices(seen: seq<string>, pieces: seq<string>, p: string, slices: seq<string>)
    requires Packing(seen, pieces, "") && |p| > MAX_CHUNK_CHARS
    requires Bounded(slices) && Concat(slices) == p
    ensures Packing(seen + [p], pieces + slices, "")
  {
    SeenOneMore(seen, p);
    InkOfConcat(slices);
    InkOfAppend(pieces, slices);
    assert Ink("") == "" && InkOf(pieces) + "" == InkOf(pieces) &&
        InkOf(pieces + slices) + "" == InkOf(pieces + slices);
    hide Ink, InkOf, Strip, Within;
    forall q | q in seen ensures Placed(q, pieces + slices, "")
    {
      if Kept(q, pieces) {
        var k :| 0 <= k < |pieces| && Within(Strip(q), pieces[k]);
        assert (pieces + slices)[k] == pieces[k];
      }
    }
  }

  lemma {:induction false} InkOfConcat(slices: seq<string>)
    ensures InkOf(slices) == Ink(Concat(slices))
  {
    if slices != [] {
      var n := |slices| - 1;
      InkOfConcat(slices[..n]);
      ConcatAppend(slices[..n], [slices[n]]);
      assert slices == slices[..n] + [slices[n]] && Concat([slices[n]]) == slices[n] + Concat([]);
      assert slices[n] + [] == slices[n];
      hide Ink;
      InkAppend(Concat(slices[..n]), slices[n]);
    }
  }

  // ----- which pieces a text is split into -----

  /** The paragraphs are what stands between blank lines: they and the newlines make up the text, and no pair of
      newlines begins inside one. */
  lemma {:induction false} ParagraphsShape(s: string)
    ensures var ps := Paragraphs(s);
      && Join(ps, "\n\n") == s
      && (forall k, i :: 0 <= k < |ps| - 1 && 0 <= i < |ps[k]| ==> !At(ps[k] + "\n\n", "\n\n", i))
      && var last := ps[|ps| - 1];
         forall i :: !At(last, "\n\n", i)
    decreases |s|
  {
    var i := Find(s, "\n\n");
    if i != -1 {
      var first, rest := s[..i], Paragraphs(s[i + 2..]);
      ParagraphsShape(s[i + 2..]);
      assert s == first + "\n\n" + s[i + 2..];
      JoinFront(first, rest, "\n\n");
      forall j | 0 <= j < i ensures !At(first + "\n\n", "\n\n", j)
      {
        assert (first + "\n\n")[j..j + 2] == s[j..j + 2];
        assert !At(s, "\n\n", j);
      }
      hide Paragraphs, Find, At, Join;
      assert forall k :: 0 < k < |rest| + 1 ==> ([first] + rest)[k] == rest[k - 1];
      ParagraphsOf(s);
    }
  }

  lemma ParagraphsOf(s: string)
    requires Find(s, "\n\n") != -1
    ensures var i := Find(s, "\n\n"); Paragraphs(s) == [s[..i]] + Paragraphs(s[i + 2..])
  {
  }

  function Slices(p: string): seq<string>
    decreases |p|
  {
    if p == "" then []
    else if |p| <= MAX_CHUNK_CHARS then [p]
    else [p[..MAX_CHUNK_CHARS]] + Slices(p[MAX_CHUNK_CHARS..])
  }

  /** Whether a paragraph still goes into the piece that a group of earlier ones makes up. */
  predicate Fits(group: seq<string>, p: string)
  {
    && |group| > 0 && |group[0]| <= MAX_CHUNK_CHARS && |p| <= MAX_CHUNK_CHARS
    && |Join(group, "\n\n")| + |p| + 2 <= MAX_CHUNK_CHARS
  }

  function Grouped(groups: seq<seq<string>>, p: string): seq<seq<string>>
  {
    var n := |groups| - 1;
    if n >= 0 && Fits(groups[n], p) then groups[..n] + [groups[n] + [p]] else groups + [[p]]
  }

  /** Neighbouring paragraphs, grouped as far as they fit into one piece. */
  function Groups(paragraphs: seq<string>): seq<seq<string>>
  {
    if paragraphs == [] then []
    else Grouped(Groups(paragraphs[..|paragraphs| - 1]), paragraphs[|paragraphs| - 1])
  }

  predicate Long(group: seq<string>)
  {
    |group| == 1 && |group[0]| > MAX_CHUNK_CHARS
  }

  function PiecesOf(group: seq<string>): seq<string>
  {
    if Long(group) then Slices(group[0]) else [Strip(Join(group, "\n\n"))]
  }

  function AllPieces(groups: seq<seq<string>>): seq<string>
  {
    Concat(Mapped(groups, PiecesOf))
  }

  function NonBlank(paragraphs: seq<string>): seq<string>
  {
    Filter(paragraphs, p => !Blank(p))
  }

  /** The pieces of a text. */
  function SplitOf(text: string): seq<string>
  {
    if |text| <= MAX_CHUNK_CHARS then [text] else AllPieces(Groups(NonBlank(Paragraphs(text))))
  }

  ghost predicate Group(group: seq<string>)
  {
    && |group| > 0
    && (Long(group) || ((forall p :: p in group ==> |p| <= 3000) && |Join(group, "\n\n")| <= 3000))
  }

  /** The next group could not have gone on in this one. */
  predicate Full(group: seq<string>, next: seq<string>)
  {
    |next| > 0 && !Long(group) && !Long(next) ==> |Join(group, "\n\n")| + 2 + |next[0]| > 3000
  }

  /** The packing is greedy: groups are runs of paragraphs that fit, an over-long paragraph stands alone, and a
      group ends only where the next paragraph does not fit any more. */
  lemma {:induction false} GroupsGreedy(paragraphs: seq<string>)
    ensures var gs := Groups(paragraphs);
      && Concat(gs) == paragraphs
      && (forall k :: 0 <= k < |gs| ==> Group(gs[k]))
      && (forall k :: 0 <= k < |gs| - 1 ==> Full(gs[k], gs[k + 1]))
  {
    if |paragraphs| > 0 {
      hide Groups, Grouped, Group, Full, Concat, Join, Long;
      var n := |paragraphs| - 1;
      assert paragraphs == paragraphs[..n] + [paragraphs[n]];
      GroupsGreedy(paragraphs[..n]);
      GroupsStep(paragraphs[..n], paragraphs[n]);
      GroupMore(Groups(paragraphs[..n]), paragraphs[n]);
    }
  }

  lemma GroupMore(groups: seq<seq<string>>, p: string)
    requires forall k :: 0 <= k < |groups| ==> Group(groups[k])
    requires forall k :: 0 <= k < |groups| - 1 ==> Full(groups[k], groups[k + 1])
    ensures var gs := Grouped(groups, p);
      && Concat(gs) == Concat(groups) + [p]
      && (forall k :: 0 <= k < |gs| ==> Group(gs[k]))
      && (forall k :: 0 <= k < |gs| - 1 ==> Full(gs[k], gs[k + 1]))
  {
    hide Join, Group, Full, Fits, Concat;
    var n := |groups| - 1;
    if n >= 0 && Fits(groups[n], p) {
      GroupLonger(groups, p);
    } else {
      GroupAlone(p);
      ConcatOne(groups, [p]);
      if n >= 0 {
        FullBefore(groups[n], p);
      }
    }
  }

  lemma FullBefore(group: seq<string>, p: string)
    requires Group(group) && !Fits(group, p)
    ensures Full(group, [p])
  {
    hide Join;
    assert group[0] in group;
  }

  lemma GroupAlone(p: string)
    ensures Group([p])
  {
    JoinGrows([], p, "\n\n");
    assert [] + [p] == [p];
  }

  lemma GroupLonger(groups: seq<seq<string>>, p: string)
    requires |groups| > 0 && Fits(groups[|groups| - 1], p)
    requires forall k :: 0 <= k < |groups| ==> Group(groups[k])
    requires forall k :: 0 <= k < |groups| - 1 ==> Full(groups[k], groups[k + 1])
    ensures var n := |groups| - 1;
      var gs := groups[..n] + [groups[n] + [p]];
      && Concat(gs) == Concat(groups) + [p]
      && (forall k :: 0 <= k < |gs| ==> Group(gs[k]))
      && (forall k :: 0 <= k < |gs| - 1 ==> Full(gs[k], gs[k + 1]))
  {
    hide Join, Concat;
    var n := |groups| - 1;
    var longer := groups[n] + [p];
    JoinGrows(groups[n], p, "\n\n");
    assert groups[n][0] in groups[n] && Group(longer);
    assert n > 0 ==> Full(groups[n - 1], groups[n]) && Full(groups[n - 1], longer);
    hide Group, Full;
    assert groups == groups[..n] + [groups[n]];
    ConcatOne(groups[..n], groups[n]);
    ConcatOne(groups[..n], longer);
    Assoc(Concat(groups[..n]), groups[n], [p]);
  }

  lemma PiecesMore(groups: seq<seq<string>>, group: seq<string>)
    ensures AllPieces(groups + [group]) == AllPieces(groups) + PiecesOf(group)
  {
    hide PiecesOf;
    MappedAppend(groups, [group], PiecesOf);
    ConcatOne(Mapped(groups, PiecesOf), PiecesOf(group));
    assert Mapped([group], PiecesOf) == [PiecesOf(group)];
  }

  /** The state of the splitting loop: the last group is still in the buffer, unless it is over-long. */
  ghost predicate Filling(seen: seq<string>, pieces: seq<string>, buffer: string)
  {
    var gs := Groups(seen);
    var n := |gs| - 1;
    if buffer == "" then pieces == AllPieces(gs) && (n >= 0 ==> Long(gs[n]))
    else
      && n >= 0 && Group(gs[n]) && !Long(gs[n])
      && buffer == Join(gs[n], "\n\n") && pieces == AllPieces(gs[..n])
  }

  lemma GroupsStep(seen: seq<string>, p: string)
    ensures Groups(seen + [p]) == Grouped(Groups(seen), p)
  {
    assert (seen + [p])[..|seen|] == seen;
  }

  /** A finished buffer is the piece of its group. */
  lemma Flushed(seen: seq<string>, pieces: seq<string>, buffer: string)
    requires Filling(seen, pieces, buffer) && buffer != ""
    ensures pieces + [Strip(buffer)] == AllPieces(Groups(seen))
  {
    hide Groups, AllPieces, Join, Strip;
    var gs := Groups(seen);
    var n := |gs| - 1;
    assert gs == gs[..n] + [gs[n]];
    PiecesMore(gs[..n], gs[n]);
  }

  /** A short paragraph that does not fit any more begins a new group. */
  lemma NewGroup(seen: seq<string>, pieces: seq<string>, p: string)
    requires pieces == AllPieces(Groups(seen)) && 0 < |p| <= MAX_CHUNK_CHARS
    requires var gs := Groups(seen); gs == [] || !Fits(gs[|gs| - 1], p)
    ensures Filling(seen + [p], pieces, p)
  {
    hide Groups, AllPieces, Join;
    GroupsStep(seen, p);
    var gs := Groups(seen);
    assert Grouped(gs, p) == gs + [[p]] && (gs + [[p]])[..|gs|] == gs;
    JoinGrows([], p, "\n\n");
    assert [] + [p] == [p];
  }

  lemma GroupAfterLong(seen: seq<string>, pieces: seq<string>, p: string)
    requires Filling(seen, pieces, "") && 0 < |p| <= MAX_CHUNK_CHARS
    ensures Filling(seen + [p], pieces, p)
  {
    hide Groups, AllPieces, Join;
    NewGroup(seen, pieces, p);
  }

  lemma GroupAfterFull(seen: seq<string>, pieces: seq<string>, buffer: string, p: string)
    requires Filling(seen, pieces, buffer) && buffer != ""
    requires 0 < |p| <= MAX_CHUNK_CHARS && |buffer| + |p| + 2 > MAX_CHUNK_CHARS
    ensures Filling(seen + [p], pieces + [Strip(buffer)], p)
  {
    hide Groups, AllPieces, Join, Strip;
    Flushed(seen, pieces, buffer);
    NewGroup(seen, pieces + [Strip(buffer)], p);
  }

  lemma GroupGoesOn(seen: seq<string>, pieces: seq<string>, buffer: string, p: string)
    requires Filling(seen, pieces, buffer) && buffer != ""
    requires |p| <= MAX_CHUNK_CHARS && |buffer| + |p| + 2 <= MAX_CHUNK_CHARS
    ensures Filling(seen + [p], pieces, buffer + "\n\n" + p)
  {
    hide Groups, AllPieces, Join;
    GroupsStep(seen, p);
    var gs := Groups(seen);
    var n := |gs| - 1;
    JoinGrows(gs[n], p, "\n\n");
    assert gs[n][0] in gs[n];
    assert (gs[..n] + [gs[n] + [p]])[..n] == gs[..n];
  }

  lemma GroupTooLong(seen: seq<string>, pieces: seq<string>, p: string)
    requires pieces == AllPieces(Groups(seen)) && |p| > MAX_CHUNK_CHARS
    ensures Filling(seen + [p], pieces + Slices(p), "")
  {
    hide Groups, AllPieces, Join, Slices;
    GroupsStep(seen, p);
    PiecesMore(Groups(seen), [p]);
  }

  lemma NothingGrouped()
    ensures NonBlank([]) == [] && Filling([], [], "")
  {
  }

  lemma AllFilled(seen: seq<string>, pieces: seq<string>)
    requires Filling(seen, pieces, "")
    ensures pieces == AllPieces(Groups(seen))
  {
  }

  lemma NonBlankMore(paragraphs: seq<string>, p: string)
    ensures NonBlank(paragraphs + [p]) == if Blank(p) then NonBlank(paragraphs) else NonBlank(paragraphs) + [p]
  {
    hide Filter, Blank;
    FilterAppend(paragraphs, [p], q => !Blank(q));
    if Blank(p) {
      FilterAllDropped([p], q => !Blank(q));
    } else {
      FilterAllKept([p], q => !Blank(q));
    }
  }

  lemma SliceOff(p: string, index: nat)
    requires index < |p|
    ensures var end := if index + MAX_CHUNK_CHARS <= |p| then index + MAX_CHUNK_CHARS else |p|;
      Slices(p[index..]) == [p[index..end]] + Slices(p[end..])
  {
    var rest := p[index..];
    if |rest| > MAX_CHUNK_CHARS {
      assert rest[..MAX_CHUNK_CHARS] == p[index..index + MAX_CHUNK_CHARS];
      assert rest[MAX_CHUNK_CHARS..] == p[index + MAX_CHUNK_CHARS..];
    } else {
      var end := if index + MAX_CHUNK_CHARS <= |p| then index + MAX_CHUNK_CHARS else |p|;
      assert p[index..end] == rest && p[end..] == "";
    }
  }

  // ----- the loops -----

  /** Cut an over-long paragraph every MAX_CHUNK_CHARS characters. */
  method HardSlices(p: string) returns (slices: seq<string>)
    ensures Concat(slices) == p && Bounded(slices) && slices == Slices(p)
    ensures forall k :: 0 <= k < |slices| - 1 ==> |slices[k]| == 3000
  {
    hide Slices;
    slices := [];
    assert p[0..] == p && [] + Slices(p) == Slices(p);
    var index := 0;
    while index < |p|
      invariant 0 <= index && Bounded(slices)
      invariant Concat(slices) == p[..if index <= |p| then index else |p|]
      invariant forall k :: 0 <= k < |slices| ==> index <= |p| ==> |slices[k]| == MAX_CHUNK_CHARS
      invariant forall k :: 0 <= k < |slices| - 1 ==> |slices[k]| == MAX_CHUNK_CHARS
      invariant slices + Slices(if index <= |p| then p[index..] else "") == Slices(p)
    {
      SliceOff(p, index);
      var end := if index + MAX_CHUNK_CHARS <= |p| then index + MAX_CHUNK_CHARS else |p|;
      ConcatAppend(slices, [p[index..end]]);
      assert Concat([p[index..end]]) == p[index..end] + Concat([]) == p[index..end];
      assert p[..index] + p[index..end] == p[..end];
      Assoc(slices, [p[index..end]], Slices(p[end..]));
      slices := slices + [p[index..end]];
      index := index + MAX_CHUNK_CHARS;
      assert index > |p| ==> p[end..] == "";
    }
    assert p[..|p|] == p;
    NothingToSlice(p, index);
    assert slices + [] == slices;
  }

  lemma NothingToSlice(p: string, index: nat)
    requires index >= |p|
    ensures Slices(if index <= |p| then p[index..] else "") == []
  {
  }

  /** Split a text at blank lines into pieces of bounded size. Nothing but white space is lost, and a
      paragraph that fits is never cut. */
  method SplitOversize(text: string) returns (parts: seq<string>)
    ensures parts == SplitOf(text)
    ensures InkOf(parts) == Ink(text)
    ensures |text| <= MAX_CHUNK_CHARS ==> parts == [text]
    ensures !Blank(text) || |text| > MAX_CHUNK_CHARS ==> forall p :: p in parts ==> 0 < |p| <= 3000
    ensures |text| > MAX_CHUNK_CHARS ==>
      forall p :: p in Paragraphs(text) && !Blank(p) && |p| <= MAX_CHUNK_CHARS ==> Kept(p, parts)
  {
    hide Ink, InkOf, Paragraphs, Within, Strip, NonBlank, Packing, Filling, Slices, Groups, AllPieces;
    if |text| <= MAX_CHUNK_CHARS {
      InkOfOne(text);
      NonBlankIsNonEmpty(text);
      return [text];
    }
    InkOfParagraphs(text);
    var paragraphs := Paragraphs(text);
    parts := [];
    var buffer := "";
    NothingPacked();
    NothingGrouped();
    assert paragraphs[..0] == [];
    for i := 0 to |paragraphs|
      invariant Packing(paragraphs[..i], parts, buffer) && Filling(NonBlank(paragraphs[..i]), parts, buffer)
    {
      var paragraph := paragraphs[i];
      ghost var seen := NonBlank(paragraphs[..i]);
      NonBlankMore(paragraphs[..i], paragraph);
      NonBlankIsNonEmpty(paragraph);
      BufferFits(paragraphs[..i], parts, buffer);
      assert paragraphs[..i + 1] == paragraphs[..i] + [paragraph];
      if Blank(paragraph) {
        SkipBlank(paragraphs[..i], parts, buffer, paragraph);
        continue;
      }
      if |paragraph| > MAX_CHUNK_CHARS {
        if !Blank(buffer) {
          NonBlankIsNonEmpty(buffer);
          FlushBuffer(paragraphs[..i], parts, buffer);
          Flushed(seen, parts, buffer);
          parts := parts + [Strip(buffer)];
          buffer := "";
        } else {
          AllFilled(seen, parts);
        }
        GroupTooLong(seen, parts, paragraph);
        var slices := HardSlices(paragraph);
        AddSlices(paragraphs[..i], parts, paragraph, slices);
        parts := parts + slices;
        continue;
      }
      if |buffer| + |paragraph| + 2 > MAX_CHUNK_CHARS && buffer != "" {
        FlushBuffer(paragraphs[..i], parts, buffer);
        GroupAfterFull(seen, parts, buffer, paragraph);
        parts := parts + [Strip(buffer)];
        StartBuffer(paragraphs[..i], parts, paragraph);
        buffer := paragraph;
      } else if buffer != "" {
        ExtendBuffer(paragraphs[..i], parts, buffer, paragraph);
        GroupGoesOn(seen, parts, buffer, paragraph);
        buffer := buffer + "\n\n" + paragraph;
      } else {
        StartBuffer(paragraphs[..i], parts, paragraph);
        GroupAfterLong(seen, parts, paragraph);
        buffer := paragraph;
      }
    }
    assert paragraphs[..|paragraphs|] == paragraphs;
    BufferFits(paragraphs, parts, buffer);
    if !Blank(buffer) {
      NonBlankIsNonEmpty(buffer);
      FlushBuffer(paragraphs, parts, buffer);
      Flushed(NonBlank(paragraphs), parts, buffer);
      parts := parts + [Strip(buffer)];
      buffer := "";
    } else {
      AllFilled(NonBlank(paragraphs), parts);
    }
    AllPlaced(paragraphs, parts);
  }

  lemma BufferFits(seen: seq<string>, pieces: seq<string>, buffer: string)
    requires Packing(seen, pieces, buffer)
    ensures Blank(buffer) ==> buffer == ""
  {
  }

  lemma NonBlankIsNonEmpty(s: string)
    ensures !Blank(s) ==> s != ""
  {
  }

  lemma NothingPacked()
    ensures Packing([], [], "")
  {
  }

  lemma AllPlaced(seen: seq<string>, pieces: seq<string>)
    requires Packing(seen, pieces, "")
    ensures InkOf(pieces) == InkOf(seen) && Bounded(pieces)
    ensures forall p :: p in seen && !Blank(p) && |p| <= MAX_CHUNK_CHARS ==> Kept(p, pieces)
  {
    assert Ink("") == "" && InkOf(pieces) + "" == InkOf(pieces);
    hide Ink, InkOf, Kept, Within, Blank;
    forall p | p in seen && !Blank(p) && |p| <= MAX_CHUNK_CHARS ensures Kept(p, pieces)
    {
      NotWithinEmpty(p);
      assert Placed(p, pieces, "");
    }
  }

  // ----- chunks -----

  datatype ParsedChunk = ParsedChunk(index: nat, headingPath: string, raw: string, start: nat, end: nat)

  /** Numbered from zero, each as long as its range, ranges in order and at least two apart. */
  ghost predicate Laid(chunks: seq<ParsedChunk>)
  {
    && (forall k :: 0 <= k < |chunks| ==>
          chunks[k].index == k && chunks[k].end == chunks[k].start + |chunks[k].raw| &&
              0 < |chunks[k].raw| <= MAX_CHUNK_CHARS)
    && (forall k :: 0 <= k < |chunks| - 1 ==> chunks[k].end + 2 <= chunks[k + 1].start)
  }

  function InkOfChunks(chunks: seq<ParsedChunk>): string
  {
    if chunks == [] then "" else InkOfChunks(chunks[..|chunks| - 1]) + Ink(chunks[|chunks| - 1].raw)
  }

  ghost predicate LaidUpTo(chunks: seq<ParsedChunk>, offset: nat)
  {
    Laid(chunks) && (chunks != [] ==> chunks[|chunks| - 1].end + 2 <= offset)
  }

  lemma AddChunk(chunks: seq<ParsedChunk>, path: string, piece: string, offset: nat)
    requires LaidUpTo(chunks, offset) && 0 < |piece| <= MAX_CHUNK_CHARS
    ensures var c := ParsedChunk(|chunks|, path, piece, offset, offset + |piece|);
      && LaidUpTo(chunks + [c], offset + |piece| + 2)
      && InkOfChunks(chunks + [c]) == InkOfChunks(chunks) + Ink(piece)
  {
    hide Ink, Laid;
    var c := ParsedChunk(|chunks|, path, piece, offset, offset + |piece|);
    assert (chunks + [c])[..|chunks|] == chunks;
    StaysLaid(chunks, c);
  }

  lemma InkOneMore(chunks: seq<ParsedChunk>, c: ParsedChunk)
    ensures InkOfChunks(chunks + [c]) == InkOfChunks(chunks) + Ink(c.raw)
  {
    hide Ink;
    assert (chunks + [c])[..|chunks|] == chunks;
  }

  lemma StaysLaid(chunks: seq<ParsedChunk>, c: ParsedChunk)
    requires Laid(chunks) && (|chunks| > 0 ==> chunks[|chunks| - 1].end + 2 <= c.start)
    requires c.index == |chunks| && c.end == c.start + |c.raw| && 0 < |c.raw| <= MAX_CHUNK_CHARS
    ensures Laid(chunks + [c])
  {
  }

  function Raws(chunks: seq<ParsedChunk>): seq<string>
  {
    Mapped(chunks, (c: ParsedChunk) => c.raw)
  }

  /** The length of the chunks with the two characters after each. */
  function Span(chunks: seq<ParsedChunk>): nat
  {
    if chunks == [] then 0 else Span(chunks[..|chunks| - 1]) + |chunks[|chunks| - 1].raw| + 2
  }

  /** From chunk `first` on, each begins where the ones before it end, `gap` characters further on. */
  ghost predicate Placing(chunks: seq<ParsedChunk>, first: nat, gap: nat)
  {
    forall k :: first <= k < |chunks| ==> chunks[k].start == Span(chunks[..k]) + gap
  }

  lemma PlaceNext(chunks: seq<ParsedChunk>, first: nat, gap: nat, c: ParsedChunk)
    requires Placing(chunks, first, gap) && c.start == Span(chunks) + gap
    ensures Placing(chunks + [c], first, gap) && Span(chunks + [c]) == Span(chunks) + |c.raw| + 2
  {
    hide Span;
    var more := chunks + [c];
    SpanMore(chunks, c);
    assert more[..|chunks|] == chunks;
    assert forall k :: 0 <= k < |chunks| ==> more[..k] == chunks[..k];
  }

  lemma SpanMore(chunks: seq<ParsedChunk>, c: ParsedChunk)
    ensures Span(chunks + [c]) == Span(chunks) + |c.raw| + 2
  {
    assert (chunks + [c])[..|chunks|] == chunks;
  }

  /** New chunks that hold exactly the pieces of a body, under its path, starting at an offset. */
  ghost predicate Added(chunks: seq<ParsedChunk>, added: seq<ParsedChunk>, path: string, pieces: seq<string>, gap: nat)
  {
    && Raws(added) == pieces && (forall c :: c in added ==> c.headingPath == path)
    && Placing(chunks + added, |chunks|, gap)
  }

  lemma NothingAdded(chunks: seq<ParsedChunk>, path: string, gap: nat)
    ensures Added(chunks, [], path, [], gap)
  {
    assert chunks + [] == chunks;
  }

  lemma AddedMore(chunks: seq<ParsedChunk>, added: seq<ParsedChunk>, path: string, pieces: seq<string>, gap: nat,
                  c: ParsedChunk)
    requires Added(chunks, added, path, pieces, gap)
    requires c.headingPath == path && c.start == Span(chunks + added) + gap
    ensures Added(chunks, added + [c], path, pieces + [c.raw], gap)
    ensures Span(chunks + (added + [c])) == Span(chunks + added) + |c.raw| + 2
  {
    hide Span;
    MappedAppend(added, [c], (c: ParsedChunk) => c.raw);
    Assoc(chunks, added, [c]);
    PlaceNext(chunks + added, |chunks|, gap, c);
  }

  /** Append the pieces of one body, two characters apart. */
  method AddPieces(chunks: seq<ParsedChunk>, path: string, body: string, offset: nat, ghost gap: nat)
    returns (chunks': seq<ParsedChunk>, offset': nat)
    requires LaidUpTo(chunks, offset) && !Blank(body) && offset == Span(chunks) + gap
    ensures LaidUpTo(chunks', offset') && chunks <= chunks' && offset' == Span(chunks') + gap
    ensures Added(chunks, chunks'[|chunks|..], path, SplitOf(body), gap)
    ensures InkOfChunks(chunks') == InkOfChunks(chunks) + Ink(body)
    ensures InkOfChunks(chunks'[|chunks|..]) == Ink(body)
    ensures |chunks| < |chunks'|
  {
    hide Ink, InkOf, InkOfChunks, LaidUpTo, SplitOf, Span, Added, Blank;
    var pieces := SplitOversize(body);
    chunks', offset' := chunks, offset;
    BlankHasNoInk(body);
    NoPiecesNoInk();
    ghost var added: seq<ParsedChunk> := [];
    assert pieces[..0] == [];
    NothingAdded(chunks, path, gap);
    for i := 0 to |pieces|
      invariant LaidUpTo(chunks', offset') && chunks' == chunks + added && |added| == i
      invariant InkOfChunks(added) == InkOf(pieces[..i])
      invariant offset' == Span(chunks') + gap && Added(chunks, added, path, pieces[..i], gap)
    {
      var piece := pieces[i];
      assert pieces[..i + 1] == pieces[..i] + [piece] && piece in pieces;
      SeenOneMore(pieces[..i], piece);
      AddChunk(chunks', path, piece, offset');
      var chunk := ParsedChunk(|chunks'|, path, piece, offset', offset' + |piece|);
      InkOneMore(added, chunk);
      AddedMore(chunks, added, path, pieces[..i], gap, chunk);
      Assoc(chunks, added, [chunk]);
      chunks', added := chunks' + [chunk], added + [chunk];
      offset' := offset' + |piece| + 2;
    }
    assert pieces[..|pieces|] == pieces;
    assert chunks'[|chunks|..] == added;
    InkOfChunksAppend(chunks, added);
  }

  lemma {:induction false} InkOfChunksAppend(a: seq<ParsedChunk>, b: seq<ParsedChunk>)
    ensures InkOfChunks(a + b) == InkOfChunks(a) + InkOfChunks(b)
  {
    hide Ink;
    if |b| == 0 {
      assert a + b == a;
    } else {
      var n := |b| - 1;
      assert (a + b)[..|a + b| - 1] == a + b[..n];
      InkOfChunksAppend(a, b[..n]);
      Assoc(InkOfChunks(a), InkOfChunks(b[..n]), Ink(b[n].raw));
    }
  }

  lemma NoPiecesNoInk()
    ensures InkOf([]) == "" && InkOfChunks([]) == "" && LaidUpTo([], 0)
    ensures forall s: string :: s + "" == s
  {
  }

  function TextSections(paragraphs: seq<string>): seq<Section>
  {
    Mapped(paragraphs, (p: string) => Section("", Strip(p)))
  }

  /** What blank paragraphs add to the offsets of what follows. */
  function BlankSpan(paragraphs: seq<string>): nat
  {
    if paragraphs == [] then 0
    else
      var last := paragraphs[|paragraphs| - 1];
      BlankSpan(paragraphs[..|paragraphs| - 1]) + if Blank(last) then |last| + 2 else 0
  }

  /** Each chunk begins after the chunks and the blank paragraphs before it. */
  ghost predicate PlacedInText(chunks: seq<ParsedChunk>, cuts: seq<nat>, paragraphs: seq<string>)
  {
    && |cuts| == |paragraphs| + 1 && cuts[|paragraphs|] == |chunks|
    && forall i :: 0 <= i < |paragraphs| ==> PlacedAfter(chunks, cuts, i, BlankSpan(paragraphs[..i]))
  }

  ghost predicate PlacedAfter(chunks: seq<ParsedChunk>, cuts: seq<nat>, i: nat, gap: nat)
    requires i + 1 < |cuts|
  {
    cuts[i] <= cuts[i + 1] <= |chunks| && Placing(chunks[..cuts[i + 1]], cuts[i], gap)
  }

  lemma TextMore(chunks: seq<ParsedChunk>, cuts: seq<nat>, paragraphs: seq<string>, chunks': seq<ParsedChunk>,
                 p: string)
    requires PlacedInText(chunks, cuts, paragraphs) && chunks <= chunks'
    requires Placing(chunks', |chunks|, BlankSpan(paragraphs))
    ensures PlacedInText(chunks', cuts + [|chunks'|], paragraphs + [p])
    ensures BlankSpan(paragraphs + [p]) == BlankSpan(paragraphs) + if Blank(p) then |p| + 2 else 0
  {
    var cuts', all := cuts + [|chunks'|], paragraphs + [p];
    assert all[..|paragraphs|] == paragraphs;
    hide Placing, BlankSpan;
    forall i | 0 <= i < |all| ensures PlacedAfter(chunks', cuts', i, BlankSpan(all[..i]))
    {
      if i < |paragraphs| {
        assert PlacedAfter(chunks, cuts, i, BlankSpan(paragraphs[..i]));
        assert all[..i] == paragraphs[..i] && chunks'[..cuts[i + 1]] == chunks[..cuts[i + 1]];
      } else {
        assert all[..i] == paragraphs && chunks'[..|chunks'|] == chunks';
      }
    }
  }

  lemma TextSectionsMore(paragraphs: seq<string>, p: string)
    ensures TextSections(paragraphs + [p]) == TextSections(paragraphs) + [Section("", Strip(p))]
  {
    hide Strip;
  }

  lemma PlacedNowhere(chunks: seq<ParsedChunk>, gap: nat)
    ensures Placing(chunks, |chunks|, gap) && PlacedInText([], [0], []) && BlankSpan([]) == 0 && Span([]) == 0
    ensures TextSections([]) == []
  {
  }

  method ChunkText(source: string) returns (chunks: seq<ParsedChunk>, ghost cuts: seq<nat>)
    ensures Laid(chunks) && InkOfChunks(chunks) == Ink(source)
    // one run of chunks per paragraph, with exactly its pieces
    ensures CutBySection(chunks, cuts, TextSections(Paragraphs(source)))
    ensures PlacedInText(chunks, cuts, Paragraphs(source))
  {
    hide Ink, InkOf, InkOfChunks, Strip, Blank, SplitOf, Span, BlankSpan, Paragraphs, CutBySection, PlacedInText, Laid,
         LaidUpTo, Added, Placing;
    var paragraphs := Paragraphs(source);
    InkOfParagraphs(source);
    chunks, cuts := [], [0];
    var offset: nat := 0;
    NoPiecesNoInk();
    NothingCut();
    PlacedNowhere([], 0);
    assert paragraphs[..0] == [];
    for i := 0 to |paragraphs|
      invariant LaidUpTo(chunks, offset) && InkOfChunks(chunks) == InkOf(paragraphs[..i])
      invariant offset == Span(chunks) + BlankSpan(paragraphs[..i])
      invariant |cuts| == i + 1 && cuts[i] == |chunks| && PlacedInText(chunks, cuts, paragraphs[..i])
      invariant CutBySection(chunks, cuts, TextSections(paragraphs[..i]))
    {
      var paragraph := paragraphs[i];
      assert paragraphs[..i + 1] == paragraphs[..i] + [paragraph];
      TextSectionsMore(paragraphs[..i], paragraph);
      SeenOneMore(paragraphs[..i], paragraph);
      var body := Strip(paragraph);
      InkOfStrip(paragraph);
      BlankHasNoInk(paragraph);
      BlankHasNoInk(body);
      StripIsBlank(paragraph);
      ghost var before, gap := chunks, BlankSpan(paragraphs[..i]);
      assert chunks + [] == chunks && chunks[|chunks|..] == [];
      if body == "" {
        PlacedNowhere(chunks, gap);
        NothingAdded(chunks, "", gap);
        LaidLater(chunks, offset, offset + |paragraph| + 2);
        offset := offset + |paragraph| + 2;
      } else {
        chunks, offset := AddPieces(chunks, "", body, offset, gap);
      }
      RunAdded(before, cuts, TextSections(paragraphs[..i]), chunks, Section("", body), gap);
      TextMore(before, cuts, paragraphs[..i], chunks, paragraph);
      cuts := cuts + [|chunks|];
    }
    assert paragraphs[..|paragraphs|] == paragraphs;
    OffsetsLaid(chunks, offset);
  }

  lemma LaidLater(chunks: seq<ParsedChunk>, offset: nat, later: nat)
    requires LaidUpTo(chunks, offset) && offset <= later
    ensures LaidUpTo(chunks, later)
  {
  }

  lemma StripIsBlank(s: string)
    ensures Strip(s) == "" <==> Blank(s)
  {
  }

  // ----- headings -----

  datatype Heading = Heading(level: nat, text: string)

  /** The headings every later one is strictly below: the ancestors in force, and the last heading itself. */
  function Chain(headings: seq<Heading>): seq<Heading>
  {
    if headings == [] then []
    else (if forall k :: 1 <= k < |headings| ==> headings[k].level > headings[0].level then [headings[0]] else [])
         + Chain(headings[1..])
  }

  /** Pop every heading that is not above the new level. */
  function PopTo(stack: seq<Heading>, level: nat): seq<Heading>
  {
    if stack != [] && stack[|stack| - 1].level >= level then PopTo(stack[..|stack| - 1], level) else stack
  }

  predicate Increasing(stack: seq<Heading>)
  {
    forall i, j :: 0 <= i < j < |stack| ==> stack[i].level < stack[j].level
  }

  predicate AllDeeper(first: Heading, later: seq<Heading>)
  {
    forall h :: h in later ==> h.level > first.level
  }

  lemma ChainStep(first: Heading, rest: seq<Heading>)
    ensures Chain([first] + rest) == if AllDeeper(first, rest) then [first] + Chain(rest) else Chain(rest)
  {
    var headings := [first] + rest;
    assert headings[1..] == rest && headings[0] == first;
    if forall k :: 1 <= k < |headings| ==> headings[k].level > first.level {
      forall h | h in rest ensures h.level > first.level
      {
        var k :| 0 <= k < |rest| && rest[k] == h;
        assert headings[k + 1] == h;
      }
    } else {
      var k :| 1 <= k < |headings| && headings[k].level <= first.level;
      assert headings[k] == rest[k - 1] && rest[k - 1] in rest;
      assert [] + Chain(rest) == Chain(rest);
    }
  }

  /** Levels strictly increase along a chain. */
  lemma {:induction false} ChainIncreases(headings: seq<Heading>)
    ensures Increasing(Chain(headings))
    ensures forall h :: h in Chain(headings) ==> h in headings
  {
    if headings != [] {
      var first, rest := headings[0], headings[1..];
      ChainIncreases(rest);
      ChainStep(first, rest);
      assert headings == [first] + rest;
      hide Chain;
      assert forall h :: h in rest ==> h in headings;
    }
  }

  /** Popping then pushing keeps the stack equal to the chain of all headings so far. */
  lemma {:induction false} PushIsChain(headings: seq<Heading>, h: Heading)
    ensures PopTo(Chain(headings), h.level) + [h] == Chain(headings + [h])
  {
    if |headings| == 0 {
      assert [] + [h] == [h];
      assert Chain([h]) == [h] + Chain([]);
    } else {
      hide Chain, PopTo, AllDeeper, Increasing;
      var first, rest := headings[0], headings[1..];
      assert headings == [first] + rest && headings + [h] == [first] + (rest + [h]);
      PushIsChain(rest, h);
      ChainStep(first, rest);
      ChainStep(first, rest + [h]);
      ChainIncreases(headings);
      AllDeeperStep(first, rest, h);
      if AllDeeper(first, rest) {
        PopBelow(first, Chain(rest), h.level);
        Assoc([first], PopTo(Chain(rest), h.level), [h]);
        assert [] + PopTo(Chain(rest), h.level) == PopTo(Chain(rest), h.level);
      }
    }
  }

  lemma AllDeeperStep(first: Heading, rest: seq<Heading>, h: Heading)
    ensures AllDeeper(first, rest + [h]) <==> AllDeeper(first, rest) && h.level > first.level
  {
    assert (rest + [h])[|rest|] == h;
    assert forall g :: g in rest + [h] <==> g in rest || g == h;
  }

  lemma {:induction false} PopBelow(first: Heading, stack: seq<Heading>, level: nat)
    requires Increasing([first] + stack)
    ensures PopTo([first] + stack, level) == (if first.level < level then [first] else []) + PopTo(stack, level)
  {
    if stack == [] {
      assert [first][..0] == [];
    } else {
      var n := |stack| - 1;
      assert ([first] + stack)[..n + 1] == [first] + stack[..n];
      assert ([first] + stack)[n + 1] == stack[n] && ([first] + stack)[0] == first;
      if stack[n].level >= level {
        assert Increasing([first] + stack[..n]) by {
          assert forall i :: 0 <= i < n + 1 ==> ([first] + stack[..n])[i] == ([first] + stack)[i];
        }
        PopBelow(first, stack[..n], level);
      }
    }
  }

  // ----- markdown -----

  datatype Kind = Paragraph | BulletList | OrderedList

  /** Markdown tokens, as far as the chunker looks at them. A block carries the source lines it spans. */
  datatype Token =
    | HeadingOpen(level: nat)
    | Inline(content: string)
    | HeadingClose
    | BlockOpen(kind: Kind, snippet: Option<string>)
    | BlockClose(kind: Kind)
    | Fence(info: string, content: string)
    | CodeBlock(content: string)
    | Rule
    | Other

  /** The markdown library puts the heading's text right after its opening, and then its closing. */
  predicate WellFormed(tokens: seq<Token>)
  {
    forall i :: 0 <= i < |tokens| && tokens[i].HeadingOpen? ==> i + 2 < |tokens| && tokens[i + 1].Inline?
  }

  /** A document as the chunker reads it: headings and body snippets in order. */
  datatype Item = Head(heading: Heading) | Body(snippet: string)

  datatype Section = Section(path: string, body: string)

  function Texts(headings: seq<Heading>): seq<string>
  {
    seq(|headings|, i requires 0 <= i < |headings| => headings[i].text)
  }

  function PathOf(stack: seq<Heading>): string
  {
    Join(Texts(stack), " > ")
  }

  /** A path names the headings from the outermost in, with arrows between. */
  lemma PathGrows(stack: seq<Heading>, h: Heading)
    ensures PathOf([]) == "" && PathOf([h]) == h.text
    ensures |stack| > 0 ==> PathOf(stack + [h]) == PathOf(stack) + " > " + h.text
  {
    assert Texts(stack + [h]) == Texts(stack) + [h.text];
    JoinGrows(Texts(stack), h.text, " > ");
  }

  function Headings(items: seq<Item>): seq<Heading>
  {
    if items == [] then []
    else
      var last := items[|items| - 1];
      Headings(items[..|items| - 1]) + if last.Head? then [last.heading] else []
  }

  /** Body snippets since the last heading. */
  function Pending(items: seq<Item>): seq<string>
  {
    if items == [] || items[|items| - 1].Head? then []
    else Pending(items[..|items| - 1]) + [items[|items| - 1].snippet]
  }

  /** The section formed by the pending snippets, under the ancestors of that place. */
  function Closing(items: seq<Item>): seq<Section>
  {
    if Pending(items) == [] then []
    else [Section(PathOf(Chain(Headings(items))), Strip(Join(Pending(items), "\n")))]
  }

  /** Sections that a later heading has closed. */
  function Closed(items: seq<Item>): seq<Section>
  {
    if items == [] then []
    else
      var before := items[..|items| - 1];
      Closed(before) + if items[|items| - 1].Head? then Closing(before) else []
  }

  function Sections(items: seq<Item>): seq<Section>
  {
    Closed(items) + Closing(items)
  }

  /** Index after the matching close of a block whose opening is just before `i`. */
  function AfterBlock(tokens: seq<Token>, i: nat, kind: Kind, depth: nat): (r: nat)
    requires i <= |tokens|
    ensures i <= r <= |tokens|
    decreases |tokens| - i
  {
    if depth == 0 || i == |tokens| then i
    else
      var t := tokens[i];
      AfterBlock(tokens, i + 1, kind,
                 if t.BlockOpen? && t.kind == kind then depth + 1
                 else if t == BlockClose(kind) then depth - 1
                 else depth)
  }

  function Rendered(t: Token): Option<string>
  {
    match t
    case Fence(info, content) =>
      Some("```" + Strip(info) + "\n" + TrimEnd(content, c => c == '\n') + "\n```")
    case CodeBlock(content) => Some(TrimEnd(content, c => c == '\n'))
    case Rule => Some("---")
    case BlockOpen(_, snippet) => if snippet.Some? && !Blank(snippet.value) then snippet else None
    case _ => None
  }

  /** What the tokens from `i` on say. */
  function ItemsFrom(tokens: seq<Token>, i: nat): seq<Item>
    requires i <= |tokens| && WellFormed(tokens)
    decreases |tokens| - i
  {
    if i == |tokens| then []
    else if tokens[i].HeadingOpen? then
      [Head(Heading(tokens[i].level, Strip(tokens[i + 1].content)))] + ItemsFrom(tokens, i + 3)
    else
      var body := Rendered(tokens[i]);
      (if body.Some? then [Body(body.value)] else []) +
      ItemsFrom(tokens, if tokens[i].BlockOpen? then AfterBlock(tokens, i + 1, tokens[i].kind, 1) else i + 1)
  }

  // ----- which tokens are read -----

  /** Where reading goes on after token `i`. */
  function NextOuter(tokens: seq<Token>, i: nat): (r: nat)
    requires i < |tokens| && WellFormed(tokens)
    ensures i < r <= |tokens|
  {
    if tokens[i].HeadingOpen? then i + 3 else NextIndex(tokens, i)
  }

  /** The places of the tokens that stand outside other blocks and headings. */
  function Outer(tokens: seq<Token>, i: nat): (r: seq<nat>)
    requires i <= |tokens| && WellFormed(tokens)
    ensures forall k :: 0 <= k < |r| ==> i <= r[k] < |tokens|
    decreases |tokens| - i
  {
    if i == |tokens| then [] else [i] + Outer(tokens, NextOuter(tokens, i))
  }

  /** More openings than closings of a kind, among the tokens from `i` to before `j`. */
  function Balance(tokens: seq<Token>, kind: Kind, i: nat, j: nat): int
    requires i <= j <= |tokens|
  {
    |Filter(tokens[i..j], (t: Token) => t.BlockOpen? && t.kind == kind)| -
    |Filter(tokens[i..j], (t: Token) => t.BlockClose? && t.kind == kind)|
  }

  lemma BalanceFront(tokens: seq<Token>, kind: Kind, i: nat, j: nat)
    requires i < j <= |tokens|
    ensures Balance(tokens, kind, i, j) == Balance(tokens, kind, i + 1, j) +
      if tokens[i].BlockOpen? && tokens[i].kind == kind then 1
      else if tokens[i].BlockClose? && tokens[i].kind == kind then -1
      else 0
  {
    assert tokens[i..j][1..] == tokens[i + 1..j];
    FilterCons(tokens[i..j], (t: Token) => t.BlockOpen? && t.kind == kind);
    FilterCons(tokens[i..j], (t: Token) => t.BlockClose? && t.kind == kind);
  }

  /** A block extends to the first token that balances its opening, or to the end if none does. */
  lemma {:induction false} BlockExtends(tokens: seq<Token>, i: nat, kind: Kind, depth: nat)
    requires i <= |tokens|
    ensures var r := AfterBlock(tokens, i, kind, depth);
      && (forall j :: i <= j < r ==> depth + Balance(tokens, kind, i, j) > 0)
      && (r < |tokens| ==> depth + Balance(tokens, kind, i, r) == 0)
    decreases |tokens| - i
  {
    assert tokens[i..i] == [] && Balance(tokens, kind, i, i) == 0;
    if depth > 0 && i < |tokens| {
      hide Balance;
      var t := tokens[i];
      var depth' := if t.BlockOpen? && t.kind == kind then depth + 1
                    else if t == BlockClose(kind) then depth - 1
                    else depth;
      BlockExtends(tokens, i + 1, kind, depth');
      var r := AfterBlock(tokens, i, kind, depth);
      forall j | i < j <= r
        ensures depth + Balance(tokens, kind, i, j) == depth' + Balance(tokens, kind, i + 1, j)
      {
        BalanceFront(tokens, kind, i, j);
      }
    }
  }

  /** Token `k` is read with the one at `p`: it is that token, belongs to its heading, or is in its block, which
      nothing before `k` has closed. */
  ghost predicate ReadWith(tokens: seq<Token>, p: nat, k: nat)
    requires p <= k < |tokens|
  {
    || k == p
    || (tokens[p].HeadingOpen? && k <= p + 2)
    || (tokens[p].BlockOpen? &&
        forall j :: p < j <= k ==> StillOpen(tokens, p, j))
  }

  predicate StillOpen(tokens: seq<Token>, p: nat, j: nat)
    requires p < j <= |tokens| && tokens[p].BlockOpen?
  {
    1 + Balance(tokens, tokens[p].kind, p + 1, j) > 0
  }

  /** No token is skipped: each is read with one that stands outside. */
  lemma {:induction false} NothingSkipped(tokens: seq<Token>, i: nat, k: nat)
    requires WellFormed(tokens) && i <= k < |tokens|
    ensures exists p :: p in Outer(tokens, i) && p <= k && ReadWith(tokens, p, k)
    decreases |tokens| - i
  {
    hide Balance, AfterBlock;
    var next := NextOuter(tokens, i);
    assert i in Outer(tokens, i);
    if next <= k {
      NothingSkipped(tokens, next, k);
      var p :| p in Outer(tokens, next) && p <= k && ReadWith(tokens, p, k);
      assert p in Outer(tokens, i);
    } else {
      if tokens[i].BlockOpen? {
        BlockExtends(tokens, i + 1, tokens[i].kind, 1);
      }
      assert ReadWith(tokens, i, k);
    }
  }

  /** What a token carries: a fence its marks, info and code, a block the source lines it spans. */
  function Carried(t: Token): string
  {
    match t
    case Fence(info, content) => "```" + info + content + "```"
    case CodeBlock(content) => content
    case Rule => "---"
    case BlockOpen(_, Some(snippet)) => snippet
    case _ => ""
  }

  function InkAt(tokens: seq<Token>, places: seq<nat>): string
    requires forall k :: 0 <= k < |places| ==> places[k] < |tokens|
  {
    if places == [] then "" else Ink(Carried(tokens[places[0]])) + InkAt(tokens, places[1..])
  }

  /** The text that tokens carry reaches the body snippets: only white space can go. */
  lemma {:induction false} TokensKeepInk(tokens: seq<Token>, i: nat)
    requires WellFormed(tokens) && i <= |tokens|
    ensures InkOf(BodiesIn(ItemsFrom(tokens, i))) == InkAt(tokens, Outer(tokens, i))
    decreases |tokens| - i
  {
    hide Ink, InkOf, Carried, Rendered, BodiesIn, AfterBlock;
    NoPiecesNoInk();
    if i == |tokens| {
      NoBodies();
    } else {
      var next := NextOuter(tokens, i);
      TokensKeepInk(tokens, next);
      OuterCons(tokens, i);
      var items := ItemsAt(tokens, i);
      BodiesAppend(items, ItemsFrom(tokens, next));
      InkOfAppend(BodiesIn(items), BodiesIn(ItemsFrom(tokens, next)));
      InkCarried(tokens, i);
    }
  }

  /** What one outer token says. */
  function ItemsAt(tokens: seq<Token>, i: nat): seq<Item>
    requires i < |tokens| && WellFormed(tokens)
  {
    if tokens[i].HeadingOpen? then [Head(Heading(tokens[i].level, Strip(tokens[i + 1].content)))]
    else if Rendered(tokens[i]).Some? then [Body(Rendered(tokens[i]).value)]
    else []
  }

  lemma OuterCons(tokens: seq<Token>, i: nat)
    requires i < |tokens| && WellFormed(tokens)
    ensures var next := NextOuter(tokens, i);
      && ItemsFrom(tokens, i) == ItemsAt(tokens, i) + ItemsFrom(tokens, next)
      && InkAt(tokens, Outer(tokens, i)) == Ink(Carried(tokens[i])) + InkAt(tokens, Outer(tokens, next))
  {
    hide Ink, Carried, Rendered, AfterBlock;
  }

  lemma NoBodies()
    ensures BodiesIn([]) == []
  {
  }

  lemma {:induction false} BodiesAppend(a: seq<Item>, b: seq<Item>)
    ensures BodiesIn(a + b) == BodiesIn(a) + BodiesIn(b)
  {
    if |b| == 0 {
      assert a + b == a;
    } else {
      assert (a + b)[..|a + b| - 1] == a + b[..|b| - 1];
      BodiesAppend(a, b[..|b| - 1]);
    }
  }

  lemma InkCarried(tokens: seq<Token>, i: nat)
    requires i < |tokens| && WellFormed(tokens)
    ensures InkOf(BodiesIn(ItemsAt(tokens, i))) == Ink(Carried(tokens[i]))
  {
    var t := tokens[i];
    InkRendered(t);
    NoPiecesNoInk();
    hide Ink, InkOf, Carried, Rendered;
    if Rendered(t).Some? && !t.HeadingOpen? {
      InkOfOne(Rendered(t).value);
      assert [Body(Rendered(t).value)][..0] == [];
    }
  }

  /** How code is written into a section: between fence lines, without the newlines that end it. */
  lemma CodeWritten(before: string, language: string, after: string, code: string, newlines: string)
    requires forall c :: c in before + after ==> PySpace(c)
    requires |language| > 0 ==> !PySpace(language[0]) && !PySpace(language[|language| - 1])
    requires |code| > 0 ==> code[|code| - 1] != '\n'
    requires forall c :: c in newlines ==> c == '\n'
    ensures Rendered(Fence(before + language + after, code + newlines)) ==
      Some("```" + language + "\n" + code + "\n```")
    ensures Rendered(CodeBlock(code + newlines)) == Some(code)
  {
    forall i | 0 <= i < |before| ensures PySpace(before[i])
    {
      assert (before + after)[i] == before[i];
    }
    forall i | 0 <= i < |after| ensures PySpace(after[i])
    {
      assert (before + after)[|before| + i] == after[i];
    }
    TrimBetween(before, language, after, PySpace);
    var content := code + newlines;
    assert forall i :: 0 <= i < |code| ==> content[i] == code[i];
    assert forall i :: |code| <= i < |content| ==> content[i] == newlines[i - |code|] && content[i] in newlines;
    assert content[..|code|] == code;
    var k := TrimEndIsPrefix(content, c => c == '\n');
  }

  /** Rendering a token neither loses nor adds ink. */
  lemma InkRendered(t: Token)
    ensures Ink(Carried(t)) == if Rendered(t).Some? then Ink(Rendered(t).value) else ""
  {
    InkOfWhite("");
    hide Ink, Strip, TrimEnd;
    match t
    case Fence(info, content) =>
      var code := TrimEnd(content, c => c == '\n');
      InkOfStrip(info);
      InkOfTrimmed(content);
      InkOfFence(Strip(info), code);
      InkAppend("```" + info + content, "```");
      InkAppend("```" + info, content);
      InkAppend("```", info);
    case CodeBlock(content) => InkOfTrimmed(content);
    case BlockOpen(_, snippet) =>
      if snippet.Some? {
        BlankHasNoInk(snippet.value);
      }
    case _ =>
  }

  lemma InkOfTrimmed(content: string)
    ensures Ink(TrimEnd(content, c => c == '\n')) == Ink(content)
  {
    var k := TrimEndIsPrefix(content, c => c == '\n');
    assert content == content[..k] + content[k..];
    InkOfWhite(content[k..]);
    InkAppend(content[..k], content[k..]);
  }

  lemma InkOfFence(lang: string, code: string)
    ensures Ink("```" + lang + "\n" + code + "\n```") == Ink("```") + Ink(lang) + Ink(code) + Ink("```")
  {
    var mark := "```";
    InkOfWhite("\n");
    assert "\n```" == "\n" + mark;
    InkOfLines(mark, lang, "\n", code);
    Assoc(mark + lang + "\n" + code, "\n", mark);
  }

  lemma InkOfLines(mark: string, lang: string, newline: string, code: string)
    requires Ink(newline) == ""
    ensures Ink(mark + lang + newline + code + newline + mark) == Ink(mark) + Ink(lang) + Ink(code) + Ink(mark)
  {
    hide Ink;
    InkAppend(mark + lang + newline + code + newline, mark);
    InkAppend(mark + lang + newline + code, newline);
    InkAppend(mark + lang + newline, code);
    InkAppend(mark + lang, newline);
    InkAppend(mark, lang);
  }

  lemma ItemStep(items: seq<Item>, item: Item)
    ensures Headings(items + [item]) == Headings(items) + (if item.Head? then [item.heading] else [])
    ensures Pending(items + [item]) == if item.Head? then [] else Pending(items) + [item.snippet]
    ensures Closed(items + [item]) == Closed(items) + (if item.Head? then Closing(items) else [])
  {
    assert (items + [item])[..|items|] == items;
  }

  /** The loop's state after some items. */
  ghost predicate Reading(items: seq<Item>, stack: seq<Heading>, path: string, body: seq<string>,
                          sections: seq<Section>)
  {
    && stack == Chain(Headings(items)) && path == PathOf(stack)
    && body == Pending(items) && sections == Closed(items)
  }

  lemma ReadHeading(items: seq<Item>, stack: seq<Heading>, path: string, body: seq<string>, sections: seq<Section>,
                    h: Heading)
    requires Reading(items, stack, path, body, sections)
    ensures var stack' := PopTo(stack, h.level) + [h];
      var closing := if body == [] then [] else [Section(path, Strip(Join(body, "\n")))];
      Reading(items + [Head(h)], stack', PathOf(stack'), [], sections + closing)
  {
    hide Chain, Headings, Pending, Closed, PopTo, PathOf, Join, Strip;
    ItemStep(items, Head(h));
    PushIsChain(Headings(items), h);
  }

  lemma ReadBody(items: seq<Item>, stack: seq<Heading>, path: string, body: seq<string>, sections: seq<Section>,
                 snippet: string)
    requires Reading(items, stack, path, body, sections)
    ensures Reading(items + [Body(snippet)], stack, path, body + [snippet], sections)
  {
    hide Chain, Headings, Pending, Closed, PathOf;
    ItemStep(items, Body(snippet));
    assert Headings(items) + [] == Headings(items) && Closed(items) + [] == Closed(items);
  }

  /** The items read so far and those the remaining tokens will give make up the document. */
  ghost predicate SoFar(tokens: seq<Token>, items: seq<Item>, index: nat)
    requires WellFormed(tokens) && index <= |tokens|
  {
    items + ItemsFrom(tokens, index) == ItemsFrom(tokens, 0)
  }

  lemma StepHeading(tokens: seq<Token>, items: seq<Item>, index: nat)
    requires WellFormed(tokens) && index < |tokens| && tokens[index].HeadingOpen? && SoFar(tokens, items, index)
    ensures SoFar(tokens, items + [Head(Heading(tokens[index].level, Strip(tokens[index + 1].content)))], index + 3)
  {
    hide Strip, Rendered;
    var head := Head(Heading(tokens[index].level, Strip(tokens[index + 1].content)));
    Assoc(items, [head], ItemsFrom(tokens, index + 3));
  }

  function NextIndex(tokens: seq<Token>, index: nat): (r: nat)
    requires index < |tokens|
    ensures index < r <= |tokens|
  {
    if tokens[index].BlockOpen? then AfterBlock(tokens, index + 1, tokens[index].kind, 1) else index + 1
  }

  lemma StepBody(tokens: seq<Token>, items: seq<Item>, index: nat)
    requires WellFormed(tokens) && index < |tokens| && !tokens[index].HeadingOpen? && SoFar(tokens, items, index)
    ensures var body := Rendered(tokens[index]);
      SoFar(tokens, items + (if body.Some? then [Body(body.value)] else []), NextIndex(tokens, index))
  {
    hide Rendered, AfterBlock, ItemsFrom;
    var next := NextIndex(tokens, index);
    var body := Rendered(tokens[index]);
    var more := if body.Some? then [Body(body.value)] else [];
    ItemsFromBody(tokens, index);
    Assoc(items, more, ItemsFrom(tokens, next));
  }

  lemma ItemsFromBody(tokens: seq<Token>, index: nat)
    requires WellFormed(tokens) && index < |tokens| && !tokens[index].HeadingOpen?
    ensures var body := Rendered(tokens[index]);
      ItemsFrom(tokens, index) ==
        (if body.Some? then [Body(body.value)] else []) + ItemsFrom(tokens, NextIndex(tokens, index))
  {
    hide Rendered, AfterBlock;
  }

  lemma ReadingStarts(tokens: seq<Token>)
    requires WellFormed(tokens)
    ensures Reading([], [], "", [], []) && SoFar(tokens, [], 0)
  {
  }

  lemma ReadingEnds(tokens: seq<Token>, items: seq<Item>)
    requires WellFormed(tokens) && SoFar(tokens, items, |tokens|)
    ensures items == ItemsFrom(tokens, 0)
  {
    assert items + [] == items;
  }

  method ReadSections(tokens: seq<Token>) returns (sections: seq<Section>)
    requires WellFormed(tokens)
    ensures sections == Sections(ItemsFrom(tokens, 0))
  {
    hide Reading, SoFar, ItemsFrom, Sections, Rendered, Strip, Join, PathOf, PopTo, AfterBlock, WellFormed;
    var stack: seq<Heading>, path, body: seq<string>, index: nat := [], "", [], 0;
    sections := [];
    ghost var items: seq<Item> := [];
    ReadingStarts(tokens);
    while index < |tokens|
      invariant index <= |tokens| && Reading(items, stack, path, body, sections) && SoFar(tokens, items, index)
      decreases |tokens| - index
    {
      var token := tokens[index];
      if token.HeadingOpen? {
        HeadingTokens(tokens, index);
        var h := Heading(token.level, Strip(tokens[index + 1].content));
        ReadHeading(items, stack, path, body, sections, h);
        StepHeading(tokens, items, index);
        sections := CloseSection(sections, path, body);
        body := [];
        stack := PopStack(stack, h.level);
        stack := stack + [h];
        path := PathOf(stack);
        items := items + [Head(h)];
        index := index + 3;
      } else {
        var snippet := Rendered(token);
        StepBody(tokens, items, index);
        if snippet.Some? {
          ReadBody(items, stack, path, body, sections, snippet.value);
          body := body + [snippet.value];
          items := items + [Body(snippet.value)];
        } else {
          assert items + [] == items;
        }
        index := SkipToken(tokens, index);
      }
    }
    LastSection(items, stack, path, body, sections);
    ReadingEnds(tokens, items);
    sections := CloseSection(sections, path, body);
  }

  lemma HeadingTokens(tokens: seq<Token>, i: nat)
    requires WellFormed(tokens) && i < |tokens| && tokens[i].HeadingOpen?
    ensures i + 3 <= |tokens| && tokens[i + 1].Inline?
  {
  }

  method CloseSection(sections: seq<Section>, path: string, body: seq<string>) returns (r: seq<Section>)
    ensures r == sections + if body == [] then [] else [Section(path, Strip(Join(body, "\n")))]
  {
    r := sections;
    if body != [] {
      r := r + [Section(path, Strip(Join(body, "\n")))];
    }
  }

  method SkipToken(tokens: seq<Token>, index: nat) returns (next: nat)
    requires index < |tokens|
    ensures next == NextIndex(tokens, index)
  {
    next := index + 1;
    if tokens[index].BlockOpen? {
      next := SkipBlock(tokens, index + 1, tokens[index].kind);
    }
  }

  lemma LastSection(items: seq<Item>, stack: seq<Heading>, path: string, body: seq<string>, sections: seq<Section>)
    requires Reading(items, stack, path, body, sections)
    ensures Sections(items) == sections + if body == [] then [] else [Section(path, Strip(Join(body, "\n")))]
  {
  }

  method PopStack(stack: seq<Heading>, level: nat) returns (r: seq<Heading>)
    ensures r == PopTo(stack, level)
  {
    r := stack;
    while r != [] && r[|r| - 1].level >= level
      invariant PopTo(r, level) == PopTo(stack, level)
      decreases |r|
    {
      r := r[..|r| - 1];
    }
  }

  method SkipBlock(tokens: seq<Token>, start: nat, kind: Kind) returns (index: nat)
    requires start <= |tokens|
    ensures index == AfterBlock(tokens, start, kind, 1)
  {
    index := start;
    var depth: nat := 1;
    while index < |tokens| && depth > 0
      invariant index <= |tokens|
      invariant AfterBlock(tokens, index, kind, depth) == AfterBlock(tokens, start, kind, 1)
      decreases |tokens| - index
    {
      if tokens[index].BlockOpen? && tokens[index].kind == kind {
        depth := depth + 1;
      } else if tokens[index] == BlockClose(kind) {
        depth := depth - 1;
      }
      index := index + 1;
    }
  }

  function InkOfSections(sections: seq<Section>): string
  {
    if sections == [] then "" else InkOfSections(sections[..|sections| - 1]) + Ink(sections[|sections| - 1].body)
  }

  /** Chunks of a markdown document: every section's text is there, in order, under the section's path. */
  method ChunkMarkdown(tokens: seq<Token>) returns (chunks: seq<ParsedChunk>, ghost cuts: seq<nat>)
    requires WellFormed(tokens)
    // nothing of what the tokens carry is lost
    ensures Laid(chunks) && InkOfChunks(chunks) == InkAt(tokens, Outer(tokens, 0))
    // one run of chunks per section, with exactly its pieces
    ensures var sections := Sections(ItemsFrom(tokens, 0));
      CutBySection(chunks, cuts, sections) && cuts[|sections|] == |chunks|
    ensures Placing(chunks, 0, 0)
  {
    hide Ink, InkOf, InkOfChunks, Sections, ItemsFrom, WellFormed, Strip, CutBySection, Laid, LaidUpTo, Blank, SplitOf,
         Span, Added, Placing, Outer, InkAt, BodiesIn;
    var sections := ReadSections(tokens);
    SectionBodiesStripped(ItemsFrom(tokens, 0));
    chunks, cuts := [], [0];
    NothingCut();
    var offset: nat := 0;
    NoPiecesNoInk();
    PlacedNowhere([], 0);
    assert sections[..0] == [];
    for i := 0 to |sections|
      invariant LaidUpTo(chunks, offset) && InkOfChunks(chunks) == InkOfSections(sections[..i])
      invariant CutBySection(chunks, cuts, sections[..i]) && |cuts| == i + 1 && cuts[i] == |chunks|
      invariant offset == Span(chunks) && Placing(chunks, 0, 0)
    {
      assert sections[..i + 1] == sections[..i] + [sections[i]];
      InkOfSectionsMore(sections[..i], sections[i]);
      assert sections[i] in sections;
      ghost var before := chunks;
      chunks, offset := AddSection(chunks, sections[i], offset);
      RunAdded(before, cuts, sections[..i], chunks, sections[i], 0);
      PlacedOn(before, chunks, 0);
      cuts := cuts + [|chunks|];
    }
    assert sections[..|sections|] == sections;
    OffsetsLaid(chunks, offset);
    SectionsKeepInk(ItemsFrom(tokens, 0));
    TokensKeepInk(tokens, 0);
  }

  /** A section without a body adds nothing. */
  method AddSection(chunks: seq<ParsedChunk>, section: Section, offset: nat)
    returns (chunks': seq<ParsedChunk>, offset': nat)
    requires LaidUpTo(chunks, offset) && offset == Span(chunks)
    requires section.body == "" || !Blank(section.body)
    ensures LaidUpTo(chunks', offset') && offset' == Span(chunks') && chunks <= chunks'
    ensures Added(chunks, chunks'[|chunks|..], section.path,
                  if section.body == "" then [] else SplitOf(section.body), 0)
    ensures InkOfChunks(chunks') == InkOfChunks(chunks) + Ink(section.body)
    ensures InkOfChunks(chunks'[|chunks|..]) == Ink(section.body)
  {
    hide Ink, InkOf, InkOfChunks, LaidUpTo, SplitOf, Span, Added, Blank;
    chunks', offset' := chunks, offset;
    if section.body == "" {
      assert chunks + [] == chunks && chunks[|chunks|..] == [];
      EmptyIsBlank();
      BlankHasNoInk("");
      NothingAdded(chunks, section.path, 0);
      NoPiecesNoInk();
    } else {
      chunks', offset' := AddPieces(chunks, section.path, section.body, offset, 0);
    }
  }

  lemma PlacedOn(chunks: seq<ParsedChunk>, chunks': seq<ParsedChunk>, gap: nat)
    requires chunks <= chunks' && Placing(chunks, 0, gap) && Placing(chunks', |chunks|, gap)
    ensures Placing(chunks', 0, gap)
  {
    hide Span;
    assert forall k :: 0 <= k < |chunks| ==> chunks'[..k] == chunks[..k];
  }

  /** What was added for a section makes up its run, whether or not that is empty. */
  lemma RunAdded(chunks: seq<ParsedChunk>, cuts: seq<nat>, sections: seq<Section>, chunks': seq<ParsedChunk>,
                 s: Section, gap: nat)
    requires CutBySection(chunks, cuts, sections) && cuts[|sections|] == |chunks|
    requires chunks <= chunks' && InkOfChunks(chunks'[|chunks|..]) == Ink(s.body)
    requires Added(chunks, chunks'[|chunks|..], s.path, if s.body == "" then [] else SplitOf(s.body), gap)
    ensures CutBySection(chunks', cuts + [|chunks'|], sections + [s])
    ensures Placing(chunks', |chunks|, gap)
  {
    hide Ink, InkOfChunks, OfSection, SplitOf, Span;
    assert chunks + chunks'[|chunks|..] == chunks';
    OfSectionWhen(chunks'[|chunks|..], s);
    CutMore(chunks, cuts, sections, chunks', s);
  }

  lemma OfSectionWhen(part: seq<ParsedChunk>, s: Section)
    requires InkOfChunks(part) == Ink(s.body) && forall c :: c in part ==> c.headingPath == s.path
    requires Raws(part) == if s.body == "" then [] else SplitOf(s.body)
    ensures OfSection(part, s)
  {
  }

  /** The chunks fall into consecutive runs, one per section, each with its section's text and path. */
  ghost predicate CutBySection(chunks: seq<ParsedChunk>, cuts: seq<nat>, sections: seq<Section>)
  {
    && |cuts| == |sections| + 1 && cuts[0] == 0
    && forall i :: 0 <= i < |sections| ==> RunOf(chunks, cuts, i, sections[i])
  }

  ghost predicate RunOf(chunks: seq<ParsedChunk>, cuts: seq<nat>, i: nat, section: Section)
    requires i + 1 < |cuts|
  {
    cuts[i] <= cuts[i + 1] <= |chunks| && OfSection(chunks[cuts[i]..cuts[i + 1]], section)
  }

  ghost predicate OfSection(part: seq<ParsedChunk>, section: Section)
  {
    && Raws(part) == (if section.body == "" then [] else SplitOf(section.body))
    && InkOfChunks(part) == Ink(section.body) && forall c :: c in part ==> c.headingPath == section.path
  }

  lemma NothingCut()
    ensures CutBySection([], [0], [])
  {
  }

  lemma OffsetsLaid(chunks: seq<ParsedChunk>, offset: nat)
    requires LaidUpTo(chunks, offset)
    ensures Laid(chunks)
  {
  }

  lemma InkOfSectionsMore(sections: seq<Section>, s: Section)
    ensures InkOfSections(sections + [s]) == InkOfSections(sections) + Ink(s.body)
  {
    assert (sections + [s])[..|sections|] == sections;
  }

  lemma CutMore(chunks: seq<ParsedChunk>, cuts: seq<nat>, sections: seq<Section>, chunks': seq<ParsedChunk>, s: Section)
    requires CutBySection(chunks, cuts, sections) && cuts[|sections|] == |chunks|
    requires chunks <= chunks' && OfSection(chunks'[|chunks|..], s)
    ensures CutBySection(chunks', cuts + [|chunks'|], sections + [s])
  {
    hide OfSection;
    var cuts', sections' := cuts + [|chunks'|], sections + [s];
    forall i | 0 <= i < |sections'| ensures RunOf(chunks', cuts', i, sections'[i])
    {
      if i < |sections| {
        assert RunOf(chunks, cuts, i, sections[i]);
        assert chunks'[cuts[i]..cuts[i + 1]] == chunks[cuts[i]..cuts[i + 1]];
      } else {
        assert chunks'[|chunks|..|chunks'|] == chunks'[|chunks|..];
      }
    }
  }

  lemma EmptyIsBlank()
    ensures Blank("")
  {
  }

  lemma StripTwice(s: string)
    ensures Strip(s) != "" ==> !Blank(Strip(s))
  {
    BlankHasNoInk(s);
    BlankHasNoInk(Strip(s));
    InkOfStrip(s);
  }

  lemma {:induction false} SectionBodiesStripped(items: seq<Item>)
    ensures forall s :: s in Sections(items) ==> s.body == "" || !Blank(s.body)
    ensures forall s :: s in Closed(items) ==> s.body == "" || !Blank(s.body)
  {
    hide Strip, Blank, Join, Chain;
    StripTwice(Join(Pending(items), "\n"));
    if items != [] {
      SectionBodiesStripped(items[..|items| - 1]);
    }
  }

  /** Body snippets between two headings make up one section, one line after the other, under the path of the
      headings in force. */
  lemma SectionFormed(before: seq<Item>, snippets: seq<string>, after: seq<Item>)
    requires |before| > 0 ==> before[|before| - 1].Head?
    requires |snippets| > 0 && (|after| > 0 ==> after[0].Head?)
    ensures Section(PathOf(Chain(Headings(before))), Strip(Join(snippets, "\n")))
      in Sections(before + Mapped(snippets, (s: string) => Body(s)) + after)
  {
    hide Chain, Strip, Join, PathOf, Headings, Pending, Closed, Mapped;
    var read := before + Mapped(snippets, (s: string) => Body(s));
    BodiesPending(before, snippets);
    if |after| == 0 {
      assert read + after == read;
    } else {
      assert after == [after[0]] + after[1..];
      Assoc(read, [after[0]], after[1..]);
      ItemStep(read, after[0]);
      ClosedStays(read + [after[0]], after[1..]);
    }
  }

  lemma {:induction false} BodiesPending(before: seq<Item>, snippets: seq<string>)
    requires |before| > 0 ==> before[|before| - 1].Head?
    ensures var items := before + Mapped(snippets, (s: string) => Body(s));
      Pending(items) == snippets && Headings(items) == Headings(before)
  {
    var body := (s: string) => Body(s);
    if |snippets| == 0 {
      assert before + Mapped(snippets, body) == before;
    } else {
      hide Headings, Pending, Closed;
      var n := |snippets| - 1;
      BodiesPending(before, snippets[..n]);
      assert snippets == snippets[..n] + [snippets[n]];
      MappedAppend(snippets[..n], [snippets[n]], body);
      assert Mapped([snippets[n]], body) == [Body(snippets[n])];
      Assoc(before, Mapped(snippets[..n], body), [Body(snippets[n])]);
      ItemStep(before + Mapped(snippets[..n], body), Body(snippets[n]));
      assert Headings(before) + [] == Headings(before);
    }
  }

  lemma {:induction false} ClosedStays(items: seq<Item>, more: seq<Item>)
    ensures forall s :: s in Closed(items) ==> s in Closed(items + more)
  {
    if |more| == 0 {
      assert items + more == items;
    } else {
      hide Closed;
      var n := |more| - 1;
      ClosedStays(items, more[..n]);
      assert items + more == (items + more[..n]) + [more[n]];
      ItemStep(items + more[..n], more[n]);
    }
  }

  /** The headings of a document are those that stand outside blocks, with their levels and stripped texts. */
  lemma {:induction false} HeadingsRead(tokens: seq<Token>, i: nat)
    requires WellFormed(tokens) && i <= |tokens|
    ensures Headings(ItemsFrom(tokens, i)) == HeadingsAt(tokens, Outer(tokens, i))
    decreases |tokens| - i
  {
    hide Rendered, AfterBlock, Headings, Strip;
    if i == |tokens| {
      NoHeadings();
    } else {
      var next := NextOuter(tokens, i);
      HeadingsRead(tokens, next);
      OuterCons(tokens, i);
      HeadingsAppend(ItemsAt(tokens, i), ItemsFrom(tokens, next));
      NoHeadings();
      var items := ItemsAt(tokens, i);
      if |items| > 0 {
        assert items == [] + [items[0]];
        ItemStep([], items[0]);
      }
    }
  }

  lemma NoHeadings()
    ensures Headings([]) == []
  {
  }

  lemma {:induction false} HeadingsAppend(a: seq<Item>, b: seq<Item>)
    ensures Headings(a + b) == Headings(a) + Headings(b)
  {
    if |b| == 0 {
      assert a + b == a;
    } else {
      assert (a + b)[..|a + b| - 1] == a + b[..|b| - 1];
      HeadingsAppend(a, b[..|b| - 1]);
    }
  }

  function HeadingsAt(tokens: seq<Token>, places: seq<nat>): seq<Heading>
    requires WellFormed(tokens) && forall k :: 0 <= k < |places| ==> places[k] < |tokens|
  {
    if places == [] then []
    else
      var t := tokens[places[0]];
      (if t.HeadingOpen? then [Heading(t.level, Strip(tokens[places[0] + 1].content))] else []) +
      HeadingsAt(tokens, places[1..])
  }

  function BodiesIn(items: seq<Item>): seq<string>
  {
    if items == [] then []
    else
      var last := items[|items| - 1];
      BodiesIn(items[..|items| - 1]) + if last.Body? then [last.snippet] else []
  }

  lemma {:induction false} InkOfJoin(parts: seq<string>)
    ensures Ink(Join(parts, "\n")) == InkOf(parts)
  {
    hide Ink, InkOf;
    InkOfWhite("");
    InkOfWhite("\n");
    NoPiecesNoInk();
    if parts == [] {
    } else if |parts| == 1 {
      InkOfOne(parts[0]);
      assert parts == [parts[0]];
    } else {
      var n := |parts| - 1;
      InkOfJoin(parts[..n]);
      var front := Join(parts[..n], "\n");
      hide Join;
      JoinStep(parts);
      InkAppend(front, "\n");
      InkAppend(front + "\n", parts[n]);
      SeenOneMore(parts[..n], parts[n]);
      assert parts == parts[..n] + [parts[n]];
    }
  }

  lemma JoinStep(parts: seq<string>)
    requires |parts| > 1
    ensures Join(parts, "\n") == Join(parts[..|parts| - 1], "\n") + "\n" + parts[|parts| - 1]
  {
  }

  lemma {:induction false} InkOfSectionsAppend(a: seq<Section>, b: seq<Section>)
    ensures InkOfSections(a + b) == InkOfSections(a) + InkOfSections(b)
  {
    hide Ink;
    if b == [] {
      assert a + b == a;
    } else {
      assert (a + b)[..|a + b| - 1] == a + b[..|b| - 1];
      assert (a + b)[|a + b| - 1] == b[|b| - 1];
      InkOfSectionsAppend(a, b[..|b| - 1]);
      Assoc(InkOfSections(a), InkOfSections(b[..|b| - 1]), Ink(b[|b| - 1].body));
    }
  }

  lemma InkOfClosing(items: seq<Item>)
    ensures InkOfSections(Closing(items)) == InkOf(Pending(items))
  {
    hide Ink, InkOf, Join, Chain, Strip;
    var body := Join(Pending(items), "\n");
    InkOfStrip(body);
    InkOfJoin(Pending(items));
    NoPiecesNoInk();
    if Pending(items) != [] {
      assert Closing(items)[..0] == [];
    }
  }

  /** Every body snippet of the document is in a section, in order: only white space can go. */
  lemma SectionsKeepInk(items: seq<Item>)
    ensures InkOfSections(Sections(items)) == InkOf(BodiesIn(items))
  {
    hide Ink, InkOf, InkOfSections, Closed, Closing, Pending, BodiesIn;
    InkSoFar(items);
    InkOfClosing(items);
    InkOfSectionsAppend(Closed(items), Closing(items));
  }

  lemma {:induction false} InkSoFar(items: seq<Item>)
    ensures InkOfSections(Closed(items)) + InkOf(Pending(items)) == InkOf(BodiesIn(items))
  {
    if |items| == 0 {
      NoPiecesNoInk();
    } else {
      hide Ink, InkOf, InkOfSections, Closing, Closed, Pending, BodiesIn;
      var before, last := items[..|items| - 1], items[|items| - 1];
      InkSoFar(before);
      ReadOneMore(items);
      if last.Body? {
        SeenOneMore(Pending(before), last.snippet);
        SeenOneMore(BodiesIn(before), last.snippet);
        Assoc(InkOfSections(Closed(before)), InkOf(Pending(before)), Ink(last.snippet));
      } else {
        NoPiecesNoInk();
        InkOfClosing(before);
        InkOfSectionsAppend(Closed(before), Closing(before));
      }
    }
  }

  lemma ReadOneMore(items: seq<Item>)
    requires |items| > 0
    ensures var before, last := items[..|items| - 1], items[|items| - 1];
      && (last.Body? ==> Closed(items) == Closed(before) && Pending(items) == Pending(before) + [last.snippet]
                         && BodiesIn(items) == BodiesIn(before) + [last.snippet])
      && (last.Head? ==> Closed(items) == Closed(before) + Closing(before) && Pending(items) == []
                         && BodiesIn(items) == BodiesIn(before))
  {
    hide Closing;
    var before := items[..|items| - 1];
    assert Closed(before) + [] == Closed(before);
    assert BodiesIn(before) + [] == BodiesIn(before);
  }
}
