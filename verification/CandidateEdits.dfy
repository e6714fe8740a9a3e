/**
  What the candidate operations mean, section by section and line by line: which sections a
  candidate selects, what appending adds, what stripping drops, what extracting finds.
 */
module CandidateEdits {
  import opened Wrappers
  import opened Subsequences
  import opened Sdp
  import opened SdpCandidates

  // ---- which sections a candidate selects -----------------------------------

  /** By mid the first section that has it; else by index; else all, or those of the fragment. */
  ghost predicate Named(sections: seq<Section>, c: Candidate, i: nat) {
    && i < |sections|
    && if c.sdpMid.Some? then
         sections[i].mid == c.sdpMid && forall k :: 0 <= k < i ==> sections[k].mid != c.sdpMid
       else if c.sdpMLineIndex.Some? then c.sdpMLineIndex.value == i
       else c.usernameFragment.Some? ==> sections[i].iceUfrag == c.usernameFragment
  }

  ghost predicate SomeNamed(sections: seq<Section>, c: Candidate) {
    exists i: nat :: Named(sections, c, i)
  }

  /** One of the sections named belongs to the ICE generation of the fragment, if there is one. */
  ghost predicate FragmentFits(sections: seq<Section>, c: Candidate) {
    c.usernameFragment.Some? ==>
      exists i: nat :: Named(sections, c, i) && sections[i].iceUfrag == c.usernameFragment
  }

  lemma {:induction false} FragmentSections(sections: seq<Section>, ufrag: string, i: nat)
    ensures i in WithFragment(sections, ufrag) <==> i < |sections| && sections[i].iceUfrag == Some(ufrag)
  {
    if sections != [] {
      FragmentSections(sections[..|sections| - 1], ufrag, i);
    }
  }

  lemma PlaceIsExact(sections: seq<Section>, c: Candidate)
    requires sections != []
    ensures var r := ByPlace(sections, c);
            && (r.Success? <==> SomeNamed(sections, c))
            && (r.Success? ==> forall i: nat :: i in r.value <==> Named(sections, c, i))
            && (r.Failure? ==> r.error == if c.sdpMid.Some? then NoSuchMid
                                          else if c.sdpMLineIndex.Some? then NoSuchIndex else NoSuchFragment)
  {
    var r := ByPlace(sections, c);
    if c.sdpMid.Some? {
      PlaceByMid(sections, c);
    } else if c.sdpMLineIndex.Some? {
      PlaceByIndex(sections, c);
    } else if c.usernameFragment.Some? {
      PlaceByFragment(sections, c);
    } else {
      forall i: nat ensures i in r.value <==> Named(sections, c, i) {
        if i < |sections| {
          assert r.value[i] == i;
        }
      }
      assert Named(sections, c, 0);
    }
  }

  lemma PlaceByMid(sections: seq<Section>, c: Candidate)
    requires c.sdpMid.Some?
    ensures var r := ByPlace(sections, c);
            && (r.Success? <==> SomeNamed(sections, c)) && (r.Failure? ==> r.error == NoSuchMid)
            && (r.Success? ==> forall i: nat :: i in r.value <==> Named(sections, c, i))
  {
    var first := FirstWithMid(sections, c.sdpMid.value);
    if first.Some? {
      assert Named(sections, c, first.value);
      forall i: nat | Named(sections, c, i) ensures i == first.value {
      }
    }
  }

  lemma PlaceByIndex(sections: seq<Section>, c: Candidate)
    requires c.sdpMid.None? && c.sdpMLineIndex.Some?
    ensures var r := ByPlace(sections, c);
            && (r.Success? <==> SomeNamed(sections, c)) && (r.Failure? ==> r.error == NoSuchIndex)
            && (r.Success? ==> forall i: nat :: i in r.value <==> Named(sections, c, i))
  {
    if 0 <= c.sdpMLineIndex.value < |sections| {
      assert Named(sections, c, c.sdpMLineIndex.value);
    }
  }

  lemma PlaceByFragment(sections: seq<Section>, c: Candidate)
    requires c.sdpMid.None? && c.sdpMLineIndex.None? && c.usernameFragment.Some?
    ensures var r := ByPlace(sections, c);
            && (r.Success? <==> SomeNamed(sections, c)) && (r.Failure? ==> r.error == NoSuchFragment)
            && (r.Success? ==> forall i: nat :: i in r.value <==> Named(sections, c, i))
  {
    var targets := WithFragment(sections, c.usernameFragment.value);
    forall i: nat ensures i in targets <==> Named(sections, c, i) {
      FragmentSections(sections, c.usernameFragment.value, i);
    }
    if targets != [] {
      assert targets[0] in targets;
    }
  }

  /** Selection succeeds exactly when some section is named and the fragment fits, and then takes all that are named. */
  lemma SelectionIsExact(sections: seq<Section>, c: Candidate)
    requires sections != []
    ensures var r := Targets(sections, c);
            && (r.Success? <==> SomeNamed(sections, c) && FragmentFits(sections, c))
            && (r.Success? ==> forall i: nat :: i in r.value <==> Named(sections, c, i))
            && (r.Failure? ==> r.error == if SomeNamed(sections, c) then FragmentMismatch
                                          else if c.sdpMid.Some? then NoSuchMid
                                          else if c.sdpMLineIndex.Some? then NoSuchIndex else NoSuchFragment)
  {
    PlaceIsExact(sections, c);
    var r := ByPlace(sections, c);
    if r.Success? && c.usernameFragment.Some? {
      FragmentAmong(sections, c, r.value);
    }
  }

  lemma FragmentAmong(sections: seq<Section>, c: Candidate, targets: seq<nat>)
    requires c.usernameFragment.Some?
    requires forall k :: 0 <= k < |targets| ==> targets[k] < |sections|
    requires forall i: nat :: i in targets <==> Named(sections, c, i)
    ensures (exists k :: 0 <= k < |targets| && sections[targets[k]].iceUfrag == c.usernameFragment)
            <==> FragmentFits(sections, c)
  {
    if k :| 0 <= k < |targets| && sections[targets[k]].iceUfrag == c.usernameFragment {
      assert targets[k] in targets;
      assert Named(sections, c, targets[k]);
    }
    if FragmentFits(sections, c) {
      var i: nat :| Named(sections, c, i) && sections[i].iceUfrag == c.usernameFragment;
      var k :| 0 <= k < |targets| && targets[k] == i;
    }
  }

  // ---- what appending adds --------------------------------------------------

  /** The line a candidate stands for. */
  ghost function LineFor(c: Candidate): string {
    if c.candidate == "" then "a=end-of-candidates" else "a=" + c.candidate
  }

  /** The sections named end with the line if they did not have it; everything else stays. */
  ghost predicate Appended(before: Parsed, after: Parsed, c: Candidate) {
    && after.sessionLines == before.sessionLines && |after.mediaSections| == |before.mediaSections|
    && forall i :: 0 <= i < |before.mediaSections| ==>
         after.mediaSections[i].lines ==
           before.mediaSections[i].lines
           + if Named(before.mediaSections, c, i) && LineFor(c) !in before.mediaSections[i].lines
             then [LineFor(c)] else []
  }

  lemma AppendSucceedsExactly(sdp: string, c: Candidate)
    requires !LeftAlone(sdp) && Parse(sdp).mediaSections != []
    ensures var r, sections := Append(sdp, c), Parse(sdp).mediaSections;
            && (r.Success? <==> ValidSyntax(c.candidate) && SomeNamed(sections, c) && FragmentFits(sections, c))
            && (r.Failure? ==> (r.error == InvalidSyntax <==> !ValidSyntax(c.candidate)))
  {
    SelectionIsExact(Parse(sdp).mediaSections, c);
  }

  /** What a section comes to be is decided by whether it is among the targets. */
  lemma AppendedLines(b: Blocks, targets: seq<nat>, c: Candidate, i: nat)
    requires i < |b.media| && forall k :: 0 <= k < |targets| ==> targets[k] < |b.media|
    ensures AddTo(b.media, targets, LineOf(c))[i] ==
              b.media[i] + if i in targets && LineFor(c) !in b.media[i] then [LineFor(c)] else []
  {
    AddToAt(b.media, targets, LineOf(c));
    assert LineOf(c) == LineFor(c);
    assert b.media[i] + [] == b.media[i];
  }

  lemma ParseIsBlocks(sdp: string)
    ensures var p, b := Parse(sdp), BlocksOf(sdp);
            && p.sessionLines == b.session && |p.mediaSections| == |b.media|
            && forall i :: 0 <= i < |b.media| ==> p.mediaSections[i].lines == b.media[i]
  {
    CutIsWellCut(SplitLines(sdp));
  }

  /**
    In a description with media, appending succeeds exactly for a valid candidate that selects
    a section of its own generation, and then adds its line, once, to every section it names.
   */
  lemma AppendMeans(sdp: string, c: Candidate)
    requires !LeftAlone(sdp) && Parse(sdp).mediaSections != [] && '\n' !in c.candidate
    ensures var r, sections := Append(sdp, c), Parse(sdp).mediaSections;
            && (r.Success? <==> ValidSyntax(c.candidate) && SomeNamed(sections, c) && FragmentFits(sections, c))
            && (r.Failure? ==> (r.error == InvalidSyntax <==> !ValidSyntax(c.candidate)))
            && (r.Success? ==> Appended(Parse(sdp), Parse(r.value), c))
  {
    AppendSucceedsExactly(sdp, c);
    if Append(sdp, c).Success? {
      var targets := AppendEffect(sdp, c);
      var b, sections := BlocksOf(sdp), Parse(sdp).mediaSections;
      SelectionIsExact(sections, c);
      ParseIsBlocks(sdp);
      ParseIsBlocks(Append(sdp, c).value);
      forall i: nat | i < |b.media|
        ensures AddTo(b.media, targets, LineOf(c))[i] ==
                  b.media[i] + if Named(sections, c, i) && LineFor(c) !in b.media[i] then [LineFor(c)] else []
      {
        AppendedLines(b, targets, c, i);
      }
    }
  }

  // ---- what stripping drops, what extracting finds ----------------------------

  ghost predicate IsCandidate(line: string) { "a=candidate:" <= line }

  ghost predicate IsDropped(line: string) { IsCandidate(line) || line == "a=end-of-candidates" }

  /** kept is the lines without candidates and without their end marks, in order. */
  ghost predicate WithoutCandidates(lines: seq<string>, kept: seq<string>) {
    && Subsequence(kept, lines)
    && forall x :: multiset(kept)[x] ==
         if IsDropped(x) then 0 else multiset(lines)[x]
  }

  lemma OneMoreKept(lines: seq<string>, kept: seq<string>, line: string)
    requires WithoutCandidates(lines, kept)
    ensures WithoutCandidates(lines + [line], kept + if IsDropped(line) then [] else [line])
  {
    SubsequenceAppend(kept, lines, line);
    assert kept + [] == kept;
  }

  lemma {:induction false} StrippedLines(lines: seq<string>)
    ensures WithoutCandidates(lines, WithoutIce(lines))
  {
    if lines != [] {
      var n := |lines| - 1;
      StrippedLines(lines[..n]);
      OneMoreKept(lines[..n], WithoutIce(lines[..n]), lines[n]);
      assert lines == lines[..n] + [lines[n]];
      assert IsIceLine(lines[n]) == IsDropped(lines[n]);
    }
  }

  /** Stripping keeps the session part and, of every section, all lines but candidates and end marks. */
  lemma StripMeans(sdp: string)
    ensures var before, after := Parse(sdp), Parse(Strip(sdp));
            && after.sessionLines == before.sessionLines && |after.mediaSections| == |before.mediaSections|
            && forall i :: 0 <= i < |before.mediaSections| ==>
                 WithoutCandidates(before.mediaSections[i].lines, after.mediaSections[i].lines)
  {
    StripEffect(sdp);
    CutIsWellCut(SplitLines(sdp));
    CutIsWellCut(SplitLines(Strip(sdp)));
    var b := BlocksOf(sdp);
    forall i | 0 <= i < |b.media| ensures WithoutCandidates(b.media[i], WithoutIce(b.media[i])) {
      StrippedLines(b.media[i]);
    }
  }

  ghost function LinesFor(candidates: seq<Candidate>): (r: seq<string>)
    ensures |r| == |candidates|
  {
    seq(|candidates|, k requires 0 <= k < |candidates| => "a=" + candidates[k].candidate)
  }

  /** found are the candidate lines, in order. */
  ghost predicate OnlyCandidates(lines: seq<string>, found: seq<string>) {
    && Subsequence(found, lines)
    && forall x :: multiset(found)[x] == if IsCandidate(x) then multiset(lines)[x] else 0
  }

  /** A candidate that says where it comes from. */
  ghost predicate FromItsSection(sections: seq<Section>, c: Candidate) {
    && c.sdpMLineIndex.Some? && 0 <= c.sdpMLineIndex.value < |sections|
    && var s := sections[c.sdpMLineIndex.value];
       c.sdpMid == s.mid && c.usernameFragment == s.iceUfrag && "a=" + c.candidate in s.lines
  }

  lemma LinesForMore(candidates: seq<Candidate>, c: Candidate)
    ensures LinesFor(candidates + [c]) == LinesFor(candidates) + ["a=" + c.candidate]
  {
  }

  lemma LinesForAppend(a: seq<Candidate>, b: seq<Candidate>)
    ensures LinesFor(a + b) == LinesFor(a) + LinesFor(b)
  {
  }

  lemma TakenHasItsLine(s: Section, index: nat, line: string)
    requires IsCandidateLine(line)
    ensures "a=" + TakenFrom(s, index, line).candidate == line
  {
    assert line[..|CANDIDATE_LINE|][..2] == line[..2] && CANDIDATE_LINE[..2] == "a=";
    assert line == line[..2] + line[2..];
  }

  lemma OneMoreLine(lines: seq<string>, found: seq<string>, line: string)
    requires OnlyCandidates(lines, found)
    ensures OnlyCandidates(lines + [line], found + if IsCandidate(line) then [line] else [])
  {
    SubsequenceAppend(found, lines, line);
    assert found + [] == found;
  }

  lemma {:induction false} FoundInSection(s: Section, index: nat, n: nat)
    requires n <= |s.lines|
    ensures OnlyCandidates(s.lines[..n], LinesFor(CandidatesIn(s, index, n)))
  {
    if n > 0 {
      var line := s.lines[n - 1];
      FoundInSection(s, index, n - 1);
      OneMoreLine(s.lines[..n - 1], LinesFor(CandidatesIn(s, index, n - 1)), line);
      assert s.lines[..n] == s.lines[..n - 1] + [line];
      LinesOfNext(s, index, n);
    }
  }

  lemma LinesOfNext(s: Section, index: nat, n: nat)
    requires 0 < n <= |s.lines|
    ensures LinesFor(CandidatesIn(s, index, n)) ==
              LinesFor(CandidatesIn(s, index, n - 1)) + if IsCandidate(s.lines[n - 1]) then [s.lines[n - 1]] else []
  {
    var line, soFar := s.lines[n - 1], CandidatesIn(s, index, n - 1);
    if IsCandidateLine(line) {
      TakenHasItsLine(s, index, line);
      LinesForMore(soFar, TakenFrom(s, index, line));
    } else {
      assert soFar + [] == soFar;
    }
  }

  lemma {:induction false} FoundInSections(sections: seq<Section>)
    ensures OnlyCandidates(Concat(LinesOf(sections)), LinesFor(CandidatesOf(sections)))
  {
    if sections != [] {
      var n := |sections| - 1;
      var s := sections[n];
      FoundInSections(sections[..n]);
      FoundInSection(s, n, |s.lines|);
      assert s.lines[..|s.lines|] == s.lines;
      assert LinesOf(sections) == LinesOf(sections[..n]) + [s.lines];
      ConcatMore(LinesOf(sections[..n]), s.lines);
      LinesForAppend(CandidatesOf(sections[..n]), CandidatesIn(s, n, |s.lines|));
      BothFound(Concat(LinesOf(sections[..n])), LinesFor(CandidatesOf(sections[..n])),
                s.lines, LinesFor(CandidatesIn(s, n, |s.lines|)));
    }
  }

  lemma BothFound(a: seq<string>, f: seq<string>, b: seq<string>, g: seq<string>)
    requires OnlyCandidates(a, f) && OnlyCandidates(b, g)
    ensures OnlyCandidates(a + b, f + g)
  {
    SubsequenceBoth(f, a, g, b);
  }

  lemma {:induction false} ItsSectionIn(sections: seq<Section>, index: nat, n: nat, m: nat)
    requires index < |sections| && n <= |sections[index].lines| && m < |CandidatesIn(sections[index], index, n)|
    ensures FromItsSection(sections, CandidatesIn(sections[index], index, n)[m])
  {
    var s := sections[index];
    if m < |CandidatesIn(s, index, n - 1)| {
      ItsSectionIn(sections, index, n - 1, m);
    } else {
      TakenHasItsLine(s, index, s.lines[n - 1]);
    }
  }

  lemma {:induction false} ItsSection(sections: seq<Section>, n: nat, m: nat)
    requires n <= |sections| && m < |CandidatesOf(sections[..n])|
    ensures FromItsSection(sections, CandidatesOf(sections[..n])[m])
  {
    assert sections[..n][..n - 1] == sections[..n - 1];
    var before := |CandidatesOf(sections[..n - 1])|;
    if m < before {
      ItsSection(sections, n - 1, m);
    } else {
      ItsSectionIn(sections, n - 1, |sections[n - 1].lines|, m - before);
    }
  }

  /**
    Extracting finds every candidate line of every section, in order and as often as it occurs,
    and each candidate names the mid, the index and the ICE generation of its own section.
   */
  lemma ExtractMeans(sdp: string)
    requires !LeftAlone(sdp)
    ensures var sections, found := Parse(sdp).mediaSections, Extract(sdp);
            && OnlyCandidates(Concat(LinesOf(sections)), LinesFor(found))
            && forall m :: 0 <= m < |found| ==> FromItsSection(sections, found[m])
  {
    var sections, found := Parse(sdp).mediaSections, Extract(sdp);
    FoundInSections(sections);
    assert sections[..|sections|] == sections;
    forall m | 0 <= m < |found| ensures FromItsSection(sections, found[m]) {
      ItsSection(sections, |sections|, m);
    }
  }

  // ---- texts without media --------------------------------------------------

  lemma {:induction false} FirstPiece(s: string, i: nat)
    requires FeedAt(s, i) && '\n' !in s[..i]
    ensures |Pieces(s)| > 1 && Pieces(s)[0] == Chomp(s[..i])
  {
    var t, c := s[..|s| - 1], s[|s| - 1];
    assert s == t + [c];
    PiecesMore(t, c);
    if i == |t| {
      NoFeed(t);
    } else {
      assert t[..i] == s[..i];
      FirstPiece(t, i);
    }
  }

  lemma NoFeed(s: string)
    requires '\n' !in s
    ensures Pieces(s) == [s]
  {
    PiecesOfLine("", s);
    assert "" + s == s;
  }

  lemma {:induction false} FirstFeed(s: string) returns (i: nat)
    requires '\n' in s
    ensures FeedAt(s, i) && '\n' !in s[..i]
  {
    var t := s[..|s| - 1];
    if '\n' in t {
      i := FirstFeed(t);
      assert t[..i] == s[..i];
    } else {
      i := |t|;
    }
  }

  lemma FirstLineIsVersion(s: string)
    ensures Pieces(s)[0] == "v=0" <==> s == "v=0" || "v=0\n" <= s || "v=0\r\n" <= s
  {
    if '\n' in s {
      var i := FirstFeed(s);
      FirstPiece(s, i);
      VersionBefore(s, i);
    } else {
      NoFeed(s);
    }
  }

  lemma VersionBefore(s: string, i: nat)
    requires FeedAt(s, i) && '\n' !in s[..i]
    ensures Chomp(s[..i]) == "v=0" <==> "v=0\n" <= s || "v=0\r\n" <= s
  {
    var head := s[..i];
    if Chomp(head) == "v=0" {
      if i == 3 {
        assert s[..4] == "v=0\n";
      } else {
        assert head == "v=0" + ['\r'];
        assert s[..5] == "v=0\r\n";
      }
    }
    if "v=0\n" <= s {
      assert s[3] == '\n' && forall k :: 0 <= k < 3 ==> s[k] != '\n';
      assert i == 3 && head == "v=0";
    } else if "v=0\r\n" <= s {
      assert s[4] == '\n' && forall k :: 0 <= k < 4 ==> s[k] != '\n';
      assert i == 4 && head == "v=0\r";
    }
  }

  ghost predicate StartsMedia(line: string) { "m=" <= line }

  ghost predicate LaterMediaLine(s: string) {
    exists k :: 0 < k < |Pieces(s)| && StartsMedia(Pieces(s)[k])
  }

  lemma GrownMediaLine(piece: string, c: char)
    requires StartsMedia(piece)
    ensures StartsMedia(Chomp(piece)) && StartsMedia(piece + [c])
  {
    assert piece[1] == '=';
  }

  lemma PieceGrows(t: string, c: char, k: nat)
    requires k < |Pieces(t)|
    ensures var p, q := Pieces(t), Pieces(t + [c]);
            k < |q| && (q[k] == p[k] || q[k] == Chomp(p[k]) || q[k] == p[k] + [c])
  {
    PiecesMore(t, c);
  }

  /** A line that starts with m= keeps doing so while the text grows. */
  lemma MediaLineStays(t: string, c: char)
    requires LaterMediaLine(t)
    ensures LaterMediaLine(t + [c])
  {
    var k :| 0 < k < |Pieces(t)| && StartsMedia(Pieces(t)[k]);
    PieceGrows(t, c, k);
    GrownMediaLine(Pieces(t)[k], c);
    assert StartsMedia(Pieces(t + [c])[k]);
  }

  /** A text that ends with a line just begun. */
  lemma MediaLineBegins(u: string)
    ensures LaterMediaLine(u + ['\n'] + "m=")
  {
    PiecesMore(u, '\n');
    var p := Pieces(u + ['\n']);
    PiecesOfLine(u + ['\n'], "m=");
    assert "" + "m=" == "m=";
    assert Pieces(u + ['\n'] + "m=")[|p| - 1] == "m=";
  }

  lemma {:induction false} MediaLineAfterFeed(s: string, i: nat)
    requires FeedAt(s, i) && i + 3 <= |s| && s[i + 1] == 'm' && s[i + 2] == '='
    ensures LaterMediaLine(s)
  {
    if |s| > i + 3 {
      var t, c := s[..|s| - 1], s[|s| - 1];
      assert s == t + [c];
      MediaLineAfterFeed(t, i);
      MediaLineStays(t, c);
    } else {
      MediaLineBegins(s[..i]);
      assert s == s[..i] + ['\n'] + "m=";
    }
  }

  /** A text without media: its first line is v=0, and no later line starts with m=. */
  lemma NoMediaByLines(sdp: string)
    ensures NoMedia(sdp) <==> Pieces(sdp)[0] == "v=0" && !LaterMediaLine(sdp)
  {
    FirstLineIsVersion(sdp);
    if Contains(sdp, "\nm=") {
      var i :| 0 <= i <= |sdp| && StartsWith(sdp[i..], "\nm=");
      FeedThenMedia(sdp, i);
    }
    if LaterMediaLine(sdp) {
      PieceOrigin(sdp);
      var k :| 0 < k < |Pieces(sdp)| && StartsMedia(Pieces(sdp)[k]);
      var p: nat :| FeedAt(sdp, p) && Pieces(sdp)[k] <= sdp[p + 1..];
      MediaAfterFeed(sdp, p);
    }
    VersionStarts(sdp);
  }

  lemma FeedThenMedia(s: string, i: nat)
    requires i <= |s| && StartsWith(s[i..], "\nm=")
    ensures LaterMediaLine(s)
  {
    assert s[i..][0] == '\n' && s[i..][1] == 'm' && s[i..][2] == '=';
    MediaLineAfterFeed(s, i);
  }

  lemma MediaAfterFeed(s: string, p: nat)
    requires FeedAt(s, p) && "m=" <= s[p + 1..]
    ensures Contains(s, "\nm=")
  {
    assert s[p + 1] == 'm' && s[p + 2] == '=';
    assert s[p..][..3] == "\nm=";
    assert StartsWith(s[p..], "\nm=");
  }

  lemma VersionStarts(s: string)
    ensures (StartsWith(s, "v=0") && (|s| == 3 || StartsWith(s[3..], "\n") || StartsWith(s[3..], "\r\n")))
            <==> s == "v=0" || "v=0\n" <= s || "v=0\r\n" <= s
  {
    if |s| >= 4 {
      assert s[..4] == s[..3] + [s[3]] && s[3..][..1] == [s[3]];
    }
    if |s| >= 5 {
      assert s[..5] == s[..3] + [s[3], s[4]] && s[3..][..2] == [s[3], s[4]];
    }
    assert |s| == 3 ==> s == s[..3];
    assert "v=0\n"[..3] == "v=0" && "v=0\r\n"[..3] == "v=0";
  }

  /** The empty text and texts without media pass through every edit, whatever the candidate. */
  lemma TextsWithoutMediaStay(sdp: string, c: Candidate)
    requires sdp == "" || (Pieces(sdp)[0] == "v=0" && !LaterMediaLine(sdp))
    ensures Append(sdp, c) == Success(sdp) && Strip(sdp) == sdp && Extract(sdp) == []
  {
    NoMediaByLines(sdp);
  }

  // ---- the smallest inputs --------------------------------------------------

  /** The empty candidate, which stands for the end of candidates, is valid; other texts need the prefix. */
  lemma EmptyCandidateIsValid(candidate: string)
    ensures ValidSyntax("")
    ensures candidate != "" && !("candidate:" <= candidate) ==> !ValidSyntax(candidate)
  {
  }

  /** Among the ASCII characters, tab to carriage return and the space are white space. */
  lemma AsciiSpaces(c: char)
    requires c as int < 128
    ensures IsSpace(c) <==> 9 <= c as int <= 13 || c as int == 32
  {
  }
}
