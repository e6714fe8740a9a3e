/**
  ICE candidates in session descriptions: appending, stripping and extracting candidate lines.
 */
module SdpCandidates {
  import opened Wrappers
  import opened Sdp

  datatype Candidate = Candidate(
    candidate: string, sdpMid: Option<string>, sdpMLineIndex: Option<int>, usernameFragment: Option<string>)

  datatype Error = InvalidSyntax | NoSuchMid | NoSuchIndex | NoSuchFragment | FragmentMismatch

  // ---- descriptions without media -------------------------------------------

  predicate Contains(s: string, t: string) {
    exists i :: 0 <= i <= |s| && StartsWith(s[i..], t)
  }

  /** A v=0 text in which no line but the first can start with m=. */
  predicate NoMedia(sdp: string) {
    && StartsWith(sdp, "v=0")
    && (|sdp| == 3 || StartsWith(sdp[3..], "\n") || StartsWith(sdp[3..], "\r\n"))
    && !Contains(sdp, "\nm=")
  }

  // ---- candidate syntax -----------------------------------------------------

  predicate IsSpace(c: char) {
    || '\t' <= c <= '\r' || c == ' ' || c == '\U{00a0}' || c == '\U{1680}' || '\U{2000}' <= c <= '\U{200a}'
    || c == '\U{2028}' || c == '\U{2029}' || c == '\U{202f}' || c == '\U{205f}' || c == '\U{3000}' || c == '\U{feff}'
  }

  /** The runs of characters between white space. */
  function Tokens(s: string): seq<string> {
    if s == [] then []
    else
      var t, c := Tokens(s[..|s| - 1]), s[|s| - 1];
      if IsSpace(c) then t
      else if |s| > 1 && !IsSpace(s[|s| - 2]) && t != [] then t[|t| - 1 := t[|t| - 1] + [c]]
      else t + [[c]]
  }

  function IndexOf(parts: seq<string>, part: string): (i: int)
    ensures -1 <= i < |parts|
    ensures i >= 0 ==> parts[i] == part
    ensures forall k :: 0 <= k < (if i < 0 then |parts| else i) ==> parts[k] != part
  {
    if parts == [] then -1
    else
      var i := IndexOf(parts[..|parts| - 1], part);
      if i >= 0 then i else if parts[|parts| - 1] == part then |parts| - 1 else -1
  }

  const CANDIDATE := "candidate:"
  const CANDIDATE_LINE := "a=candidate:"
  const END_LINE := "a=end-of-candidates"

  predicate ValidSyntax(candidate: string) {
    || candidate == ""
    || (&& StartsWith(candidate, CANDIDATE)
        && var parts := Tokens(candidate[|CANDIDATE|..]);
           var typ := IndexOf(parts, "typ");
           |parts| >= 8 && typ >= 6 && typ + 1 < |parts|)
  }

  // ---- which candidates are valid -------------------------------------------

  ghost predicate IsWord(w: string) { w != "" && forall i :: 0 <= i < |w| ==> !IsSpace(w[i]) }

  ghost function Spaced(words: seq<string>): string {
    if words == [] then ""
    else if |words| == 1 then words[0]
    else Spaced(words[..|words| - 1]) + " " + words[|words| - 1]
  }

  /** What comes after a space leaves the tokens before it as they are. */
  lemma {:induction false} TokensExtend(s: string, rest: string)
    requires rest != "" ==> IsSpace(rest[0])
    ensures Tokens(s) <= Tokens(s + rest)
    ensures rest != "" && !IsSpace(rest[|rest| - 1]) ==> |Tokens(s)| < |Tokens(s + rest)|
    decreases |rest|
  {
    if rest == "" {
      assert s + rest == s;
    } else {
      var n := |rest| - 1;
      assert (s + rest)[..|s + rest| - 1] == s + rest[..n];
      TokensExtend(s, rest[..n]);
    }
  }

  lemma {:induction false} TokensOfWord(s: string, w: string)
    requires IsWord(w) && (s == "" || IsSpace(s[|s| - 1]))
    ensures Tokens(s + w) == Tokens(s) + [w]
    decreases |w|
  {
    var n := |w| - 1;
    assert (s + w)[..|s + w| - 1] == s + w[..n];
    if n == 0 {
      assert s + w[..n] == s && [w[0]] == w;
    } else {
      TokensOfWord(s, w[..n]);
      var t := Tokens(s + w[..n]);
      assert (s + w)[|s + w| - 2] == w[n - 1] && (s + w)[|s + w| - 1] == w[n];
      assert w[..n] + [w[n]] == w;
      assert t[|t| - 1 := t[|t| - 1] + [w[n]]] == Tokens(s) + [w];
    }
  }

  ghost predicate AreWords(words: seq<string>) { forall i :: 0 <= i < |words| ==> IsWord(words[i]) }

  /** A word after a space is a token of its own. */
  lemma TokensOfNextWord(s: string, w: string)
    requires IsWord(w)
    ensures Tokens(s + " " + w) == Tokens(s) + [w]
  {
    assert (s + " ")[..|s|] == s;
    TokensOfWord(s + " ", w);
  }

  lemma {:induction false} TokensOfSpaced(words: seq<string>)
    requires AreWords(words)
    ensures Tokens(Spaced(words)) == words
  {
    if |words| == 1 {
      TokensOfWord("", words[0]);
      assert "" + words[0] == words[0];
    } else if |words| > 1 {
      var n := |words| - 1;
      var before, w := words[..n], words[n];
      TokensOfSpaced(before);
      TokensOfNextWord(Spaced(before), w);
      assert before + [w] == words && Spaced(words) == Spaced(before) + " " + w;
    }
  }

  ghost predicate AreFields(fields: seq<string>) { AreWords(fields) && "typ" !in fields }

  lemma TypedAreWords(fields: seq<string>, tail: seq<string>)
    requires AreWords(fields) && AreWords(tail)
    ensures AreWords(fields + ["typ"] + tail)
  {
    TypIsAWord();
  }

  lemma TypIsAt(fields: seq<string>, parts: seq<string>)
    requires "typ" !in fields && fields + ["typ"] <= parts
    ensures IndexOf(parts, "typ") == |fields|
  {
    assert parts[|fields|] == "typ";
    assert forall k :: 0 <= k < |fields| ==> parts[k] == fields[k];
  }

  /**
    A candidate whose words up to the type are fields that do not read typ is valid exactly
    when there are at least six of them, whatever follows the type.
   */
  lemma CandidateIsValidExactly(fields: seq<string>, kind: string, rest: string)
    requires AreFields(fields) && IsWord(kind) && (rest != "" ==> IsSpace(rest[0]))
    ensures ValidSyntax("candidate:" + (Spaced(fields + ["typ"] + [kind]) + rest)) <==> |fields| >= 6
  {
    var words := fields + ["typ"] + [kind];
    TypedAreWords(fields, [kind]);
    TokensOfSpaced(words);
    TokensExtend(Spaced(words), rest);
    TypIsAt(fields, Tokens(Spaced(words) + rest));
    ValidByTokens(Spaced(words) + rest);
  }

  lemma CandidateNeedsType(fields: seq<string>)
    requires AreFields(fields)
    ensures !ValidSyntax("candidate:" + Spaced(fields + ["typ"]))
  {
    var words := fields + ["typ"];
    TypedAreWords(fields, []);
    assert words + [] == words;
    TokensOfSpaced(words);
    TypIsAt(fields, words);
    ValidByTokens(Spaced(words));
  }

  lemma TypIsAWord()
    ensures IsWord("typ")
  {
  }

  lemma ValidByTokens(text: string)
    ensures var parts := Tokens(text);
            ValidSyntax("candidate:" + text) <==> |parts| >= 8 && 6 <= IndexOf(parts, "typ") < |parts| - 1
  {
    assert ("candidate:" + text)[|CANDIDATE|..] == text;
  }

  // ---- choosing sections ----------------------------------------------------

  function FirstWithMid(sections: seq<Section>, mid: string): (r: Option<nat>)
    ensures r.Some? ==> r.value < |sections| && sections[r.value].mid == Some(mid)
    ensures forall k :: 0 <= k < (if r.Some? then r.value else |sections|) ==> sections[k].mid != Some(mid)
  {
    if sections == [] then None
    else
      var n := |sections| - 1;
      var r := FirstWithMid(sections[..n], mid);
      if r.Some? then r else if sections[n].mid == Some(mid) then Some(n) else None
  }

  function WithFragment(sections: seq<Section>, ufrag: string): (r: seq<nat>)
    ensures forall k :: 0 <= k < |r| ==> r[k] < |sections| && sections[r[k]].iceUfrag == Some(ufrag)
  {
    if sections == [] then []
    else
      var n := |sections| - 1;
      WithFragment(sections[..n], ufrag) + if sections[n].iceUfrag == Some(ufrag) then [n] else []
  }

  function ByPlace(sections: seq<Section>, c: Candidate): (r: Result<seq<nat>, Error>)
    ensures r.Success? ==> forall k :: 0 <= k < |r.value| ==> r.value[k] < |sections|
  {
    if c.sdpMid.Some? then
      var i := FirstWithMid(sections, c.sdpMid.value);
      if i.Some? then Success([i.value]) else Failure(NoSuchMid)
    else if c.sdpMLineIndex.Some? then
      if 0 <= c.sdpMLineIndex.value < |sections| then Success([c.sdpMLineIndex.value]) else Failure(NoSuchIndex)
    else if c.usernameFragment.Some? then
      var targets := WithFragment(sections, c.usernameFragment.value);
      if targets == [] then Failure(NoSuchFragment) else Success(targets)
    else Success(seq(|sections|, i => i))
  }

  /** selectCandidateSections: the sections a candidate belongs to. */
  function Targets(sections: seq<Section>, c: Candidate): (r: Result<seq<nat>, Error>)
    ensures r.Success? ==> forall k :: 0 <= k < |r.value| ==> r.value[k] < |sections|
  {
    if sections == [] then Success([])
    else
      var r := ByPlace(sections, c);
      if r.Success? && c.usernameFragment.Some?
         && !(exists k :: 0 <= k < |r.value| && sections[r.value[k]].iceUfrag == c.usernameFragment)
      then Failure(FragmentMismatch) else r
  }

  // ---- the three operations -------------------------------------------------

  function LineOf(c: Candidate): string { if c.candidate == "" then END_LINE else "a=" + c.candidate }

  function AddOnce(block: seq<string>, line: string): seq<string> {
    if line in block then block else block + [line]
  }

  function AddTo(media: seq<seq<string>>, targets: seq<nat>, line: string): (r: seq<seq<string>>)
    requires forall k :: 0 <= k < |targets| ==> targets[k] < |media|
    ensures |r| == |media|
  {
    if targets == [] then media
    else
      var n := |targets| - 1;
      var r := AddTo(media, targets[..n], line);
      r[targets[n] := AddOnce(r[targets[n]], line)]
  }

  function BlocksOf(sdp: string): Blocks { Cut(SplitLines(sdp)) }

  /** A description that the three operations leave alone. */
  predicate LeftAlone(sdp: string) { sdp == "" || NoMedia(sdp) }

  function Append(sdp: string, c: Candidate): Result<string, Error> {
    if LeftAlone(sdp) then Success(sdp)
    else if !ValidSyntax(c.candidate) then Failure(InvalidSyntax)
    else
      var targets := Targets(Parse(sdp).mediaSections, c);
      if targets.Failure? then Failure(targets.error)
      else if targets.value == [] then Success(sdp)
      else
        var b := BlocksOf(sdp);
        Success(Text(Flatten(b.(media := AddTo(b.media, targets.value, LineOf(c))))))
  }

  predicate IsIceLine(line: string) { StartsWith(line, CANDIDATE_LINE) || line == END_LINE }

  function WithoutIce(lines: seq<string>): seq<string> {
    if lines == [] then []
    else
      var n := |lines| - 1;
      WithoutIce(lines[..n]) + if IsIceLine(lines[n]) then [] else [lines[n]]
  }

  function StripAll(media: seq<seq<string>>): (r: seq<seq<string>>)
    ensures |r| == |media|
  {
    seq(|media|, i requires 0 <= i < |media| => WithoutIce(media[i]))
  }

  function Strip(sdp: string): string {
    var b := BlocksOf(sdp);
    if LeftAlone(sdp) || StripAll(b.media) == b.media then sdp
    else Text(Flatten(b.(media := StripAll(b.media))))
  }

  predicate IsCandidateLine(line: string) { StartsWith(line, CANDIDATE_LINE) }

  function TakenFrom(s: Section, index: nat, line: string): Candidate
    requires IsCandidateLine(line)
  {
    Candidate(line[2..], s.mid, Some(index), s.iceUfrag)
  }

  function CandidatesIn(s: Section, index: nat, n: nat): seq<Candidate>
    requires n <= |s.lines|
  {
    if n == 0 then []
    else
      var line := s.lines[n - 1];
      CandidatesIn(s, index, n - 1)
      + if IsCandidateLine(line) then [TakenFrom(s, index, line)] else []
  }

  function CandidatesOf(sections: seq<Section>): seq<Candidate> {
    if sections == [] then []
    else
      var n := |sections| - 1;
      CandidatesOf(sections[..n]) + CandidatesIn(sections[n], n, |sections[n].lines|)
  }

  function Extract(sdp: string): seq<Candidate> {
    if LeftAlone(sdp) then [] else CandidatesOf(Parse(sdp).mediaSections)
  }

  function AppendAll(sdp: string, candidates: seq<Candidate>): Result<string, Error> {
    if candidates == [] then Success(sdp)
    else
      var n := |candidates| - 1;
      var r := AppendAll(sdp, candidates[..n]);
      if r.Failure? then r else Append(r.value, candidates[n])
  }

  // ---- texts with media -----------------------------------------------------

  ghost predicate FeedAt(s: string, p: nat) { p < |s| && s[p] == '\n' }

  /** Where a piece comes from: the start of the text, or just after a line feed. */
  ghost predicate FromLineStart(s: string, piece: string, first: bool) {
    if first then piece <= s else exists p: nat :: FeedAt(s, p) && piece <= s[p + 1..]
  }

  /** The last piece reaches to the end of the text. */
  ghost predicate ToTheEnd(s: string, piece: string, first: bool) {
    if first then piece == s else exists p: nat :: FeedAt(s, p) && piece == s[p + 1..]
  }

  /** Every piece comes from a line start, and the last one reaches to the end. */
  ghost predicate Origins(s: string) {
    var p := Pieces(s);
    && (forall k :: 0 <= k < |p| ==> FromLineStart(s, p[k], k == 0))
    && ToTheEnd(s, p[|p| - 1], |p| == 1)
  }

  lemma {:induction false} PieceOrigin(s: string)
    ensures Origins(s)
  {
    if s != [] {
      PieceOrigin(s[..|s| - 1]);
      assert s == s[..|s| - 1] + [s[|s| - 1]];
      OriginsMore(s[..|s| - 1], s[|s| - 1]);
    }
  }

  lemma OriginsMore(t: string, c: char)
    requires Origins(t)
    ensures Origins(t + [c])
  {
    forall k | 0 <= k < |Pieces(t + [c])| ensures FromLineStart(t + [c], Pieces(t + [c])[k], k == 0) {
      PieceStep(t, c, k);
    }
    EndOfPieces(t, c);
  }

  lemma PieceStep(t: string, c: char, k: nat)
    requires k < |Pieces(t + [c])|
    requires k < |Pieces(t)| ==> FromLineStart(t, Pieces(t)[k], k == 0)
    requires ToTheEnd(t, Pieces(t)[|Pieces(t)| - 1], |Pieces(t)| == 1)
    ensures FromLineStart(t + [c], Pieces(t + [c])[k], k == 0)
  {
    var p, q := Pieces(t), Pieces(t + [c]);
    var n := |p| - 1;
    PiecesMore(t, c);
    if k < n {
      LongerText(t, c, p[k], k == 0);
    } else if k == n {
      LastPiece(t, c, p[n], n == 0);
    } else {
      assert FeedAt(t + [c], |t|) && q[k] == "";
      assert q[k] <= (t + [c])[|t| + 1..];
    }
  }

  /** One more character changes the last piece only, and may begin a new one. */
  lemma PiecesMore(t: string, c: char)
    ensures var p, q := Pieces(t), Pieces(t + [c]);
            var n := |p| - 1;
            && |q| == (if c == '\n' then n + 2 else n + 1)
            && (forall k :: 0 <= k < n ==> q[k] == p[k])
            && q[n] == (if c == '\n' then Chomp(p[n]) else p[n] + [c])
            && (c == '\n' ==> q[n + 1] == "")
  {
    assert (t + [c])[..|t|] == t;
  }

  lemma EndOfPieces(t: string, c: char)
    requires ToTheEnd(t, Pieces(t)[|Pieces(t)| - 1], |Pieces(t)| == 1)
    ensures var q := Pieces(t + [c]); ToTheEnd(t + [c], q[|q| - 1], |q| == 1)
  {
    var p := Pieces(t);
    var n := |p| - 1;
    assert (t + [c])[..|t|] == t;
    if c == '\n' {
      assert FeedAt(t + [c], |t|) && (t + [c])[|t| + 1..] == "";
      assert Pieces(t + [c]) == p[..n] + [Chomp(p[n])] + [""];
    } else {
      LastPiece(t, c, p[n], n == 0);
      assert Pieces(t + [c]) == p[..n] + [p[n] + [c]];
    }
  }

  lemma LongerText(t: string, c: char, piece: string, first: bool)
    requires FromLineStart(t, piece, first)
    ensures FromLineStart(t + [c], piece, first)
  {
    if !first {
      var i: nat :| FeedAt(t, i) && piece <= t[i + 1..];
      assert FeedAt(t + [c], i) && (t + [c])[i + 1..] == t[i + 1..] + [c];
    }
  }

  lemma LastPiece(t: string, c: char, piece: string, first: bool)
    requires ToTheEnd(t, piece, first)
    ensures ToTheEnd(t + [c], piece + [c], first)
    ensures FromLineStart(t + [c], Chomp(piece), first) && FromLineStart(t + [c], piece + [c], first)
  {
    if !first {
      var i: nat :| FeedAt(t, i) && piece == t[i + 1..];
      assert FeedAt(t + [c], i) && (t + [c])[i + 1..] == piece + [c];
    }
  }

  lemma {:induction false} NonEmptyMember(lines: seq<string>, k: nat)
    requires k < |NonEmpty(lines)|
    ensures NonEmpty(lines)[k] in lines
  {
    var n := |lines| - 1;
    if k < |NonEmpty(lines[..n])| {
      NonEmptyMember(lines[..n], k);
    }
  }

  /** A description with a media section is not one without media. */
  lemma MediaMeansMedia(sdp: string)
    requires BlocksOf(sdp).media != []
    ensures !LeftAlone(sdp)
  {
    var lines := SplitLines(sdp);
    var b := Cut(lines);
    CutIsWellCut(lines);
    FirstOfConcat(b.media);
    assert lines[|b.session|] == b.media[0][0];
    NonEmptyMember(Pieces(sdp), |b.session|);
    PieceOrigin(sdp);
    var k :| 0 <= k < |Pieces(sdp)| && Pieces(sdp)[k] == b.media[0][0];
    assert FromLineStart(sdp, Pieces(sdp)[k], k == 0);
    MediaLineInText(sdp, Pieces(sdp)[k], k == 0);
  }

  lemma MediaLineInText(sdp: string, line: string, first: bool)
    requires FromLineStart(sdp, line, first) && IsMedia(line)
    ensures !LeftAlone(sdp)
  {
    assert line[0] == 'm' && line[1] == '=';
    if first {
      assert sdp[0] == 'm';
    } else {
      var i: nat :| FeedAt(sdp, i) && line <= sdp[i + 1..];
      assert sdp[i..][..3] == "\nm=";
      assert StartsWith(sdp[i..], "\nm=");
    }
  }

  lemma {:induction false} FirstOfConcat(media: seq<seq<string>>)
    requires media != [] && media[0] != []
    ensures |Concat(media)| > 0 && Concat(media)[0] == media[0][0]
  {
    if |media| == 1 {
      assert media[..0] == [];
      assert Concat(media) == media[0];
    } else {
      FirstOfConcat(media[..|media| - 1]);
    }
  }

  // ---- candidate lines ------------------------------------------------------

  lemma IceLineIsNothingElse(line: string)
    requires IsIceLine(line)
    ensures !IsMedia(line) && !StartsWith(line, MID) && !StartsWith(line, UFRAG) && !StartsWith(line, PWD)
  {
    assert line[0] == 'a' && (line[2] == 'c' || line[2] == 'e');
    assert line[..2][0] == 'a' && "m="[0] == 'm';
    assert MID[2] == 'm' && UFRAG[2] == 'i' && PWD[2] == 'i';
  }

  lemma CandidateLineIsIce(c: Candidate)
    requires ValidSyntax(c.candidate)
    ensures IsIceLine(LineOf(c)) && LineOf(c) != ""
    ensures '\n' !in c.candidate ==> '\n' !in LineOf(c)
  {
    if c.candidate != "" {
      assert CANDIDATE_LINE == "a=" + CANDIDATE;
      assert LineOf(c)[..|CANDIDATE_LINE|] == "a=" + c.candidate[..|CANDIDATE|];
    }
  }

  /** What section selection looks at, and what the edits must not touch. */
  ghost predicate SameHeads(a: seq<string>, b: seq<string>) {
    && LastValue(a, MID) == LastValue(b, MID)
    && LastValue(a, UFRAG) == LastValue(b, UFRAG)
    && LastValue(a, PWD) == LastValue(b, PWD)
  }

  ghost predicate SameSections(a: Blocks, b: Blocks) {
    && a.session == b.session && |a.media| == |b.media|
    && (forall i :: 0 <= i < |a.media| ==> SameHeads(a.media[i], b.media[i]))
  }

  lemma AddOnceKeeps(block: seq<string>, line: string)
    requires IsBlock(block) && IsIceLine(line)
    ensures var r := AddOnce(block, line);
            IsBlock(r) && SameHeads(r, block) && WithoutIce(r) == WithoutIce(block)
  {
    if line !in block {
      LastValueMore(block, line);
      IceLineIsNothingElse(line);
      assert (block + [line])[..|block|] == block;
    }
  }

  lemma {:induction false} AddToAt(media: seq<seq<string>>, targets: seq<nat>, line: string)
    requires forall k :: 0 <= k < |targets| ==> targets[k] < |media|
    ensures var r := AddTo(media, targets, line);
            forall i :: 0 <= i < |media| ==> r[i] == if i in targets then AddOnce(media[i], line) else media[i]
  {
    if targets != [] {
      AddToAt(media, targets[..|targets| - 1], line);
    }
  }

  lemma SameHeadsMore(a: seq<string>, b: seq<string>, line: string)
    requires SameHeads(a, b)
    ensures SameHeads(a + [line], b + [line])
  {
    LastValueMore(a, line);
    LastValueMore(b, line);
  }

  lemma IceLineKeepsHeads(a: seq<string>, b: seq<string>, line: string)
    requires SameHeads(a, b) && IsIceLine(line)
    ensures SameHeads(a, b + [line])
  {
    LastValueMore(b, line);
    IceLineIsNothingElse(line);
  }

  lemma {:induction false} WithoutIceKeeps(lines: seq<string>)
    ensures SameHeads(WithoutIce(lines), lines)
  {
    if lines != [] {
      var n := |lines| - 1;
      WithoutIceKeeps(lines[..n]);
      assert lines[..n] + [lines[n]] == lines;
      if IsIceLine(lines[n]) {
        IceLineKeepsHeads(WithoutIce(lines[..n]), lines[..n], lines[n]);
        assert WithoutIce(lines) == WithoutIce(lines[..n]);
      } else {
        SameHeadsMore(WithoutIce(lines[..n]), lines[..n], lines[n]);
      }
    }
  }

  lemma {:induction false} WithoutIceIsBlock(block: seq<string>)
    requires IsBlock(block)
    ensures IsBlock(WithoutIce(block)) && WithoutIce(block)[0] == block[0]
  {
    var n := |block| - 1;
    if n == 0 {
      assert block[0][0] == 'm';
      assert block[..0] == [];
    } else {
      WithoutIceIsBlock(block[..n]);
    }
  }

  // ---- descriptions printed from blocks -------------------------------------

  ghost predicate Printable(b: Blocks) { WellCut(b) && Clean(Flatten(b)) }

  lemma BlocksOfText(b: Blocks)
    requires Printable(b)
    ensures BlocksOf(Text(Flatten(b))) == b && SplitLines(Text(Flatten(b))) == Flatten(b)
  {
    SplitText(Flatten(b));
    CutFlatten(b);
  }

  lemma BlocksArePrintable(sdp: string)
    ensures Printable(BlocksOf(sdp)) && Flatten(BlocksOf(sdp)) == SplitLines(sdp)
  {
    SplitLinesIsClean(sdp);
    CutIsWellCut(SplitLines(sdp));
  }

  lemma {:induction false} ConcatMember(media: seq<seq<string>>, i: nat, k: nat)
    requires i < |media| && k < |media[i]|
    ensures media[i][k] in Concat(media)
  {
    if i < |media| - 1 {
      ConcatMember(media[..|media| - 1], i, k);
    }
  }

  lemma {:induction false} ConcatOrigin(media: seq<seq<string>>, n: nat) returns (i: nat, k: nat)
    requires n < |Concat(media)|
    ensures i < |media| && k < |media[i]| && Concat(media)[n] == media[i][k]
  {
    var last := |media| - 1;
    if n < |Concat(media[..last])| {
      i, k := ConcatOrigin(media[..last], n);
    } else {
      i, k := last, n - |Concat(media[..last])|;
    }
  }

  /** Clean, block by block. */
  lemma CleanByBlock(b: Blocks)
    ensures Clean(Flatten(b)) <==> Clean(b.session) && forall i :: 0 <= i < |b.media| ==> Clean(b.media[i])
  {
    if Clean(Flatten(b)) {
      forall k | 0 <= k < |b.session| ensures b.session[k] != "" && '\n' !in b.session[k] {
        assert Flatten(b)[k] == b.session[k];
      }
      forall i | 0 <= i < |b.media| ensures Clean(b.media[i]) {
        forall k | 0 <= k < |b.media[i]| ensures b.media[i][k] != "" && '\n' !in b.media[i][k] {
          ConcatMember(b.media, i, k);
          var n :| 0 <= n < |Concat(b.media)| && Concat(b.media)[n] == b.media[i][k];
          assert Flatten(b)[|b.session| + n] == b.media[i][k];
        }
      }
    }
    if Clean(b.session) && forall i :: 0 <= i < |b.media| ==> Clean(b.media[i]) {
      forall n | 0 <= n < |Flatten(b)| ensures Flatten(b)[n] != "" && '\n' !in Flatten(b)[n] {
        if n >= |b.session| {
          var i, k := ConcatOrigin(b.media, n - |b.session|);
          assert Clean(b.media[i]);
        }
      }
    }
  }

  lemma AddToIsPrintable(b: Blocks, targets: seq<nat>, line: string)
    requires Printable(b) && IsIceLine(line) && '\n' !in line
    requires forall k :: 0 <= k < |targets| ==> targets[k] < |b.media|
    ensures var c := b.(media := AddTo(b.media, targets, line)); Printable(c) && SameSections(b, c)
  {
    var c := b.(media := AddTo(b.media, targets, line));
    AddToAt(b.media, targets, line);
    CleanByBlock(b);
    forall i | 0 <= i < |b.media|
      ensures IsBlock(c.media[i]) && Clean(c.media[i]) && SameHeads(b.media[i], c.media[i])
    {
      AddOnceKeeps(b.media[i], line);
    }
    CleanByBlock(c);
  }

  lemma {:induction false} WithoutIceIsClean(lines: seq<string>)
    requires Clean(lines)
    ensures Clean(WithoutIce(lines))
  {
    if lines != [] {
      WithoutIceIsClean(lines[..|lines| - 1]);
    }
  }

  ghost function Stripped(b: Blocks): Blocks { b.(media := StripAll(b.media)) }

  lemma StrippedIsPrintable(b: Blocks)
    requires Printable(b)
    ensures Printable(Stripped(b)) && SameSections(b, Stripped(b))
  {
    CleanByBlock(b);
    var c := Stripped(b);
    forall i | 0 <= i < |b.media|
      ensures IsBlock(c.media[i]) && Clean(c.media[i]) && SameHeads(b.media[i], c.media[i])
    {
      WithoutIceIsBlock(b.media[i]);
      WithoutIceIsClean(b.media[i]);
      WithoutIceKeeps(b.media[i]);
    }
    CleanByBlock(c);
  }

  // ---- selection sees only the heads ----------------------------------------

  ghost predicate SameSelection(a: seq<Section>, b: seq<Section>) {
    && |a| == |b|
    && (forall i :: 0 <= i < |a| ==> a[i].mid == b[i].mid && a[i].iceUfrag == b[i].iceUfrag && a[i].icePwd == b[i].icePwd)
  }

  lemma SectionsMatch(s: string, t: string)
    requires SameSections(BlocksOf(s), BlocksOf(t))
    ensures SameSelection(Parse(s).mediaSections, Parse(t).mediaSections)
    ensures Parse(s).sessionLines == Parse(t).sessionLines
  {
    CutIsWellCut(SplitLines(s));
    CutIsWellCut(SplitLines(t));
  }

  lemma {:induction false} SameFirst(a: seq<Section>, b: seq<Section>, mid: string)
    requires SameSelection(a, b)
    ensures FirstWithMid(a, mid) == FirstWithMid(b, mid)
  {
    if a != [] {
      SameFirst(a[..|a| - 1], b[..|b| - 1], mid);
    }
  }

  lemma {:induction false} SameFragments(a: seq<Section>, b: seq<Section>, ufrag: string)
    requires SameSelection(a, b)
    ensures WithFragment(a, ufrag) == WithFragment(b, ufrag)
  {
    if a != [] {
      SameFragments(a[..|a| - 1], b[..|b| - 1], ufrag);
    }
  }

  lemma SameTargets(a: seq<Section>, b: seq<Section>, c: Candidate)
    requires SameSelection(a, b)
    ensures Targets(a, c) == Targets(b, c)
  {
    if c.sdpMid.Some? {
      SameFirst(a, b, c.sdpMid.value);
    }
    if c.usernameFragment.Some? {
      SameFragments(a, b, c.usernameFragment.value);
    }
    assert ByPlace(a, c) == ByPlace(b, c);
    var r := ByPlace(a, c);
    if a != [] && r.Success? {
      assert forall k :: 0 <= k < |r.value| ==> a[r.value[k]].iceUfrag == b[r.value[k]].iceUfrag;
    }
  }

  // ---- appending and stripping ----------------------------------------------

  /** An append either leaves the text alone or prints the blocks with the line added. */
  lemma AppendEffect(sdp: string, c: Candidate) returns (targets: seq<nat>)
    requires Append(sdp, c).Success? && '\n' !in c.candidate
    ensures forall k :: 0 <= k < |targets| ==> targets[k] < |BlocksOf(sdp).media|
    ensures var t, b := Append(sdp, c).value, BlocksOf(sdp);
            var d := b.(media := AddTo(b.media, targets, LineOf(c)));
            && BlocksOf(t) == d && SameSections(b, d)
            && (t == sdp || (!LeftAlone(sdp) && b.media != [] && t == Text(Flatten(d))))
            && (targets != [] ==> IsIceLine(LineOf(c)))
            && (!LeftAlone(sdp) ==> Targets(Parse(sdp).mediaSections, c) == Success(targets))
            && (targets == [] ==> t == sdp)
  {
    var b := BlocksOf(sdp);
    if LeftAlone(sdp) {
      targets := [];
    } else {
      targets := Targets(Parse(sdp).mediaSections, c).value;
      if targets != [] {
        BlocksArePrintable(sdp);
        CandidateLineIsIce(c);
        AddToIsPrintable(b, targets, LineOf(c));
        BlocksOfText(b.(media := AddTo(b.media, targets, LineOf(c))));
      }
    }
  }

  lemma StripEffect(sdp: string)
    ensures BlocksOf(Strip(sdp)) == Stripped(BlocksOf(sdp)) && SameSections(BlocksOf(sdp), Stripped(BlocksOf(sdp)))
    ensures SplitLines(Strip(sdp)) == Flatten(Stripped(BlocksOf(sdp)))
  {
    var b := BlocksOf(sdp);
    BlocksArePrintable(sdp);
    StrippedIsPrintable(b);
    if LeftAlone(sdp) {
      if b.media != [] {
        MediaMeansMedia(sdp);
      }
      assert Stripped(b) == b;
    } else if StripAll(b.media) == b.media {
      assert Stripped(b) == b;
    } else {
      BlocksOfText(Stripped(b));
    }
  }

  /** Neither appending nor stripping changes a mid, an ICE credential or the session part. */
  lemma EditsKeepSections(sdp: string, c: Candidate)
    requires '\n' !in c.candidate
    ensures Append(sdp, c).Success? ==>
              && SameSelection(Parse(sdp).mediaSections, Parse(Append(sdp, c).value).mediaSections)
              && Parse(sdp).sessionLines == Parse(Append(sdp, c).value).sessionLines
    ensures SameSelection(Parse(sdp).mediaSections, Parse(Strip(sdp)).mediaSections)
    ensures Parse(sdp).sessionLines == Parse(Strip(sdp)).sessionLines
  {
    if Append(sdp, c).Success? {
      var _ := AppendEffect(sdp, c);
      SectionsMatch(sdp, Append(sdp, c).value);
    }
    StripEffect(sdp);
    SectionsMatch(sdp, Strip(sdp));
  }

  lemma AddToTwice(media: seq<seq<string>>, targets: seq<nat>, line: string)
    requires forall k :: 0 <= k < |targets| ==> targets[k] < |media|
    ensures var r := AddTo(media, targets, line); AddTo(r, targets, line) == r
  {
    AddToAt(media, targets, line);
    AddToAt(AddTo(media, targets, line), targets, line);
  }

  /** Appending a candidate again changes not a character. */
  lemma AppendIsIdempotent(sdp: string, c: Candidate)
    requires Append(sdp, c).Success? && '\n' !in c.candidate
    ensures Append(Append(sdp, c).value, c) == Append(sdp, c)
  {
    var t := Append(sdp, c).value;
    var targets := AppendEffect(sdp, c);
    if t != sdp && !LeftAlone(t) {
      SectionsMatch(sdp, t);
      SameTargets(Parse(sdp).mediaSections, Parse(t).mediaSections, c);
      AddToTwice(BlocksOf(sdp).media, targets, LineOf(c));
    }
  }

  lemma StripAllAfterAdd(b: Blocks, targets: seq<nat>, line: string)
    requires WellCut(b) && forall k :: 0 <= k < |targets| ==> targets[k] < |b.media|
    requires targets != [] ==> IsIceLine(line)
    ensures StripAll(AddTo(b.media, targets, line)) == StripAll(b.media)
  {
    AddToAt(b.media, targets, line);
    if targets != [] {
      forall i | 0 <= i < |b.media| ensures WithoutIce(AddTo(b.media, targets, line)[i]) == WithoutIce(b.media[i]) {
        AddOnceKeeps(b.media[i], line);
      }
    }
  }

  /** Stripping after an append gives the lines stripping alone gives. */
  lemma StripForgetsAppend(sdp: string, c: Candidate)
    requires Append(sdp, c).Success? && '\n' !in c.candidate
    ensures SplitLines(Strip(Append(sdp, c).value)) == SplitLines(Strip(sdp))
  {
    var t, b := Append(sdp, c).value, BlocksOf(sdp);
    var targets := AppendEffect(sdp, c);
    CutIsWellCut(SplitLines(sdp));
    StripAllAfterAdd(b, targets, LineOf(c));
    assert Stripped(BlocksOf(t)) == Stripped(b);
    StripEffect(sdp);
    StripEffect(t);
  }

  // ---- stripping and appending again ----------------------------------------

  /** The stripped block after the candidates of its first k lines have been appended. */
  ghost function Refill(block: seq<string>, k: nat): seq<string>
    requires k <= |block|
  {
    if k == 0 then WithoutIce(block)
    else if IsCandidateLine(block[k - 1]) then AddOnce(Refill(block, k - 1), block[k - 1])
    else Refill(block, k - 1)
  }

  /** What a refilled block consists of. */
  ghost predicate RefillOf(block: seq<string>, r: seq<string>, k: nat)
    requires k <= |block|
  {
    && WithoutIce(r) == WithoutIce(block)
    && forall line :: line in r <==>
         (line in block && !IsIceLine(line)) || (IsCandidateLine(line) && line in block[..k])
  }

  lemma {:induction false} RefillMeans(block: seq<string>, k: nat)
    requires IsBlock(block) && Clean(block) && k <= |block|
    ensures var r := Refill(block, k); IsBlock(r) && Clean(r) && SameHeads(block, r) && RefillOf(block, r, k)
  {
    if k == 0 {
      WithoutIceIsBlock(block);
      WithoutIceIsClean(block);
      WithoutIceKeeps(block);
      WithoutIceTwice(block);
      WithoutIceMembers(block);
    } else {
      RefillMeans(block, k - 1);
      RefillMore(block, Refill(block, k - 1), k - 1);
      if IsCandidateLine(block[k - 1]) {
        AddOnceKeeps(Refill(block, k - 1), block[k - 1]);
      }
    }
  }

  lemma RefillMore(block: seq<string>, r: seq<string>, k: nat)
    requires k < |block| && IsBlock(r) && RefillOf(block, r, k)
    ensures RefillOf(block, if IsCandidateLine(block[k]) then AddOnce(r, block[k]) else r, k + 1)
  {
    assert block[..k + 1] == block[..k] + [block[k]];
    if IsCandidateLine(block[k]) {
      AddOnceKeeps(r, block[k]);
    }
  }

  lemma {:induction false} WithoutIceMembers(lines: seq<string>)
    ensures forall line :: line in WithoutIce(lines) <==> line in lines && !IsIceLine(line)
  {
    if lines != [] {
      var n := |lines| - 1;
      WithoutIceMembers(lines[..n]);
      assert lines == lines[..n] + [lines[n]];
    }
  }

  lemma {:induction false} WithoutIceTwice(lines: seq<string>)
    ensures WithoutIce(WithoutIce(lines)) == WithoutIce(lines)
  {
    if lines != [] {
      var n := |lines| - 1;
      WithoutIceTwice(lines[..n]);
      var w := WithoutIce(lines[..n]);
      if IsIceLine(lines[n]) {
        assert WithoutIce(lines) == w;
      } else {
        assert (w + [lines[n]])[..|w|] == w;
      }
    }
  }

  /** The blocks once the first n sections and k lines of the next one have been gone through. */
  ghost function Refilled(b: Blocks, n: nat, k: nat): Blocks
    requires n <= |b.media| && (n < |b.media| ==> k <= |b.media[n]|)
  {
    b.(media := seq(|b.media|, i requires 0 <= i < |b.media| =>
                  Refill(b.media[i], if i < n then |b.media[i]| else if i == n then k else 0)))
  }

  lemma RefilledIsPrintable(b: Blocks, n: nat, k: nat)
    requires Printable(b) && n <= |b.media| && (n < |b.media| ==> k <= |b.media[n]|)
    ensures Printable(Refilled(b, n, k)) && SameSections(b, Refilled(b, n, k))
  {
    var c := Refilled(b, n, k);
    CleanByBlock(b);
    forall i | 0 <= i < |b.media|
      ensures IsBlock(c.media[i]) && Clean(c.media[i]) && SameHeads(b.media[i], c.media[i])
    {
      RefillMeans(b.media[i], if i < n then |b.media[i]| else if i == n then k else 0);
    }
    CleanByBlock(c);
  }

  ghost predicate DistinctMids(sections: seq<Section>) {
    forall i, j :: 0 <= i < j < |sections| && sections[i].mid.Some? ==> sections[i].mid != sections[j].mid
  }

  /** A section that its mid, or else its index, leads to. */
  ghost predicate Addressable(sections: seq<Section>, n: nat)
    requires n < |sections|
  {
    sections[n].mid.None? || FirstWithMid(sections, sections[n].mid.value) == Some(n)
  }

  /** Every section with a candidate line is the first one with its mid, or has no mid. */
  ghost predicate AllAddressable(b: Blocks)
    requires WellCut(b)
  {
    forall i, k :: 0 <= i < |b.media| && 0 <= k < |b.media[i]| && IsCandidateLine(b.media[i][k]) ==>
      Addressable(SectionsOf(b), i)
  }

  lemma DistinctMidsAreAddressable(b: Blocks)
    requires WellCut(b) && DistinctMids(SectionsOf(b))
    ensures AllAddressable(b)
  {
    var sections := SectionsOf(b);
    forall i | 0 <= i < |sections| && sections[i].mid.Some? ensures Addressable(sections, i) {
      assert FirstWithMid(sections, sections[i].mid.value) == Some(i);
    }
  }

  /** A candidate goes back to the section it was taken from. */
  lemma OwnSection(sections: seq<Section>, n: nat, line: string)
    requires n < |sections| && Addressable(sections, n) && IsCandidateLine(line)
    ensures Targets(sections, TakenFrom(sections[n], n, line)) == Success([n])
  {
    var c := TakenFrom(sections[n], n, line);
    assert ByPlace(sections, c) == Success([n]);
    assert [n][0] == n && sections[[n][0]].iceUfrag == c.usernameFragment;
  }

  ghost function SectionsOf(b: Blocks): seq<Section>
    requires WellCut(b)
  {
    DescribeAll(b.session, b.media)
  }

  lemma ParseIsSectionsOf(sdp: string)
    ensures WellCut(BlocksOf(sdp)) && Parse(sdp).mediaSections == SectionsOf(BlocksOf(sdp))
  {
    CutIsWellCut(SplitLines(sdp));
  }

  lemma SectionsOfMatch(b: Blocks, c: Blocks)
    requires WellCut(b) && WellCut(c) && SameSections(b, c)
    ensures SameSelection(SectionsOf(b), SectionsOf(c))
  {
  }

  /** A valid candidate that belongs to section n is added to its block. */
  lemma AppendOne(t: string, c: Candidate, n: nat)
    requires n < |BlocksOf(t).media| && Targets(Parse(t).mediaSections, c) == Success([n])
    requires ValidSyntax(c.candidate) && '\n' !in c.candidate
    ensures Append(t, c).Success?
    ensures BlocksOf(Append(t, c).value) == BlocksOf(t).(media := AddTo(BlocksOf(t).media, [n], LineOf(c)))
  {
    MediaMeansMedia(t);
    var targets := AppendEffect(t, c);
  }

  lemma AppendAllMore(sdp: string, candidates: seq<Candidate>, c: Candidate)
    ensures AppendAll(sdp, candidates + [c]) ==
              var r := AppendAll(sdp, candidates); if r.Failure? then r else Append(r.value, c)
  {
    assert (candidates + [c])[..|candidates|] == candidates;
  }

  ghost predicate AllValid(b: Blocks) {
    forall i, k :: 0 <= i < |b.media| && 0 <= k < |b.media[i]| && IsCandidateLine(b.media[i][k]) ==>
      ValidSyntax(b.media[i][k][2..])
  }

  lemma RefilledMore(b: Blocks, n: nat, k: nat)
    requires n < |b.media| && k < |b.media[n]|
    ensures Refilled(b, n, k + 1) ==
              if IsCandidateLine(b.media[n][k])
              then b.(media := AddTo(Refilled(b, n, k).media, [n], b.media[n][k])) else Refilled(b, n, k)
  {
    AddToAt(Refilled(b, n, k).media, [n], b.media[n][k]);
  }

  ghost predicate Splittable(b: Blocks) {
    Printable(b) && AllValid(b) && AllAddressable(b)
  }

  /** One candidate line of section n is appended to what has been restored so far. */
  lemma RestoreLine(b: Blocks, t: string, n: nat, k: nat)
    requires Splittable(b) && n < |b.media| && k < |b.media[n]| && IsCandidateLine(b.media[n][k])
    requires BlocksOf(t) == Refilled(b, n, k)
    ensures var r := Append(t, TakenFrom(SectionsOf(b)[n], n, b.media[n][k]));
            r.Success? && BlocksOf(r.value) == Refilled(b, n, k + 1)
  {
    var line := b.media[n][k];
    var c := TakenFrom(SectionsOf(b)[n], n, line);
    RefilledIsPrintable(b, n, k);
    OwnSection(SectionsOf(b), n, line);
    SectionsOfMatch(b, Refilled(b, n, k));
    ParseIsSectionsOf(t);
    SameTargets(SectionsOf(b), Parse(t).mediaSections, c);
    CandidateLineText(line);
    CleanByBlock(b);
    assert '\n' !in line;
    AppendOne(t, c, n);
    RefilledMore(b, n, k);
  }

  lemma CandidateLineText(line: string)
    requires IsCandidateLine(line)
    ensures LineOf(Candidate(line[2..], None, None, None)) == line && line[2..] != ""
  {
    assert line[..2] == CANDIDATE_LINE[..2] == "a=";
    assert line == line[..2] + line[2..];
  }

  /** Appending these candidates one after the other leads to these blocks. */
  ghost predicate Reaches(start: string, candidates: seq<Candidate>, b: Blocks) {
    var r := AppendAll(start, candidates);
    r.Success? && BlocksOf(r.value) == b
  }

  lemma {:induction false} AppendAllConcat(start: string, first: seq<Candidate>, second: seq<Candidate>)
    ensures AppendAll(start, first + second) ==
              var r := AppendAll(start, first); if r.Failure? then r else AppendAll(r.value, second)
    decreases |second|
  {
    if second == [] {
      assert first + second == first;
    } else {
      var n := |second| - 1;
      AppendAllConcat(start, first, second[..n]);
      assert (first + second)[..|first + second| - 1] == first + second[..n];
    }
  }

  lemma RestoreNextLine(b: Blocks, start: string, n: nat, k: nat)
    requires Splittable(b) && n < |b.media| && k < |b.media[n]|
    requires Reaches(start, CandidatesIn(SectionsOf(b)[n], n, k), Refilled(b, n, k))
    ensures Reaches(start, CandidatesIn(SectionsOf(b)[n], n, k + 1), Refilled(b, n, k + 1))
  {
    var line, soFar := b.media[n][k], CandidatesIn(SectionsOf(b)[n], n, k);
    if IsCandidateLine(line) {
      RestoreLine(b, AppendAll(start, soFar).value, n, k);
      AppendAllMore(start, soFar, TakenFrom(SectionsOf(b)[n], n, line));
    } else {
      RefilledMore(b, n, k);
      assert soFar + [] == soFar;
    }
  }

  lemma RestoreSection(b: Blocks, start: string, n: nat)
    requires Splittable(b) && n < |b.media|
    requires BlocksOf(start) == Refilled(b, n, 0)
    ensures Reaches(start, CandidatesIn(SectionsOf(b)[n], n, |b.media[n]|), Refilled(b, n, |b.media[n]|))
  {
    RestoreNothing(b, start, n);
    for k := 0 to |b.media[n]|
      invariant Reaches(start, CandidatesIn(SectionsOf(b)[n], n, k), Refilled(b, n, k))
    {
      RestoreNextLine(b, start, n, k);
    }
  }

  lemma RestoreNothing(b: Blocks, start: string, n: nat)
    requires WellCut(b) && n < |b.media| && BlocksOf(start) == Refilled(b, n, 0)
    ensures Reaches(start, CandidatesIn(SectionsOf(b)[n], n, 0), Refilled(b, n, 0))
  {
    ReachesNothing(start);
    assert CandidatesIn(SectionsOf(b)[n], n, 0) == [];
  }

  lemma ReachesNothing(start: string)
    ensures Reaches(start, [], BlocksOf(start))
  {
  }

  lemma RestoreSections(b: Blocks, start: string)
    requires Splittable(b) && BlocksOf(start) == Stripped(b)
    ensures Reaches(start, CandidatesOf(SectionsOf(b)), Refilled(b, |b.media|, 0))
  {
    var sections := SectionsOf(b);
    assert Refilled(b, 0, 0) == Stripped(b);
    ReachesNothing(start);
    for n := 0 to |b.media|
      invariant Reaches(start, CandidatesOf(sections[..n]), Refilled(b, n, 0))
    {
      RestoreNextSection(b, start, n);
    }
    assert sections[..|b.media|] == sections;
  }

  lemma RestoreNextSection(b: Blocks, start: string, n: nat)
    requires Splittable(b) && n < |b.media|
    requires Reaches(start, CandidatesOf(SectionsOf(b)[..n]), Refilled(b, n, 0))
    ensures Reaches(start, CandidatesOf(SectionsOf(b)[..n + 1]), Refilled(b, n + 1, 0))
  {
    var before := CandidatesOf(SectionsOf(b)[..n]);
    RestoreSection(b, AppendAll(start, before).value, n);
    ReachesFurther(start, before, CandidatesIn(SectionsOf(b)[n], n, |b.media[n]|), Refilled(b, n, |b.media[n]|));
    CandidatesOfMore(SectionsOf(b), n);
    assert Refilled(b, n, |b.media[n]|) == Refilled(b, n + 1, 0);
  }

  lemma ReachesFurther(start: string, first: seq<Candidate>, second: seq<Candidate>, b: Blocks)
    requires AppendAll(start, first).Success? && Reaches(AppendAll(start, first).value, second, b)
    ensures Reaches(start, first + second, b)
  {
    AppendAllConcat(start, first, second);
  }

  lemma CandidatesOfMore(sections: seq<Section>, n: nat)
    requires n < |sections|
    ensures CandidatesOf(sections[..n + 1])
         == CandidatesOf(sections[..n]) + CandidatesIn(sections[n], n, |sections[n].lines|)
  {
    assert sections[..n + 1][..n] == sections[..n];
  }

  /** What appending the extracted candidates to the stripped text makes of a description. */
  ghost predicate Restores(b: Blocks, r: Blocks) {
    && r.session == b.session && |r.media| == |b.media|
    && (forall i :: 0 <= i < |b.media| ==> RestoresBlock(b.media[i], r.media[i]))
  }

  /** The same other lines in order, the same candidate lines, no end-of-candidates. */
  ghost predicate RestoresBlock(block: seq<string>, r: seq<string>) {
    && WithoutIce(r) == WithoutIce(block)
    && (forall line :: IsCandidateLine(line) ==> (line in r <==> line in block))
    && END_LINE !in r
  }

  lemma RefilledRestores(b: Blocks)
    requires Printable(b)
    ensures Restores(b, Refilled(b, |b.media|, 0))
  {
    CleanByBlock(b);
    var r := Refilled(b, |b.media|, 0);
    forall i | 0 <= i < |b.media| ensures RestoresBlock(b.media[i], r.media[i]) {
      RefillMeans(b.media[i], |b.media[i]|);
      assert b.media[i][..|b.media[i]|] == b.media[i];
      assert END_LINE[2] == 'e' && CANDIDATE_LINE[2] == 'c';
    }
  }

  lemma ExtractFromSections(sdp: string)
    ensures WellCut(BlocksOf(sdp)) && Extract(sdp) == CandidatesOf(SectionsOf(BlocksOf(sdp)))
  {
    ParseIsSectionsOf(sdp);
    if BlocksOf(sdp).media != [] {
      MediaMeansMedia(sdp);
    }
  }

  lemma ValidCandidatesAreRestored(sdp: string)
    requires Splittable(BlocksOf(sdp))
    ensures var r := AppendAll(Strip(sdp), Extract(sdp)); r.Success? && Restores(BlocksOf(sdp), BlocksOf(r.value))
  {
    var b := BlocksOf(sdp);
    ExtractFromSections(sdp);
    StripEffect(sdp);
    RestoreSections(b, Strip(sdp));
    assert Reaches(Strip(sdp), Extract(sdp), Refilled(b, |b.media|, 0));
    RefilledRestores(b);
  }

  // ---- and no further -------------------------------------------------------

  ghost predicate SingleLine(candidates: seq<Candidate>) {
    forall n :: 0 <= n < |candidates| ==> '\n' !in candidates[n].candidate
  }

  lemma AppendNeedsValid(t: string, c: Candidate)
    requires BlocksOf(t).media != [] && '\n' !in c.candidate && Append(t, c).Success?
    ensures BlocksOf(Append(t, c).value).media != [] && ValidSyntax(c.candidate)
  {
    MediaMeansMedia(t);
    var _ := AppendEffect(t, c);
  }

  lemma AppendAllFront(sdp: string, candidates: seq<Candidate>)
    requires candidates != [] && AppendAll(sdp, candidates).Success?
    ensures var n := |candidates| - 1;
            var r := AppendAll(sdp, candidates[..n]);
            && r.Success? && Append(r.value, candidates[n]) == AppendAll(sdp, candidates)
  {
  }

  lemma {:induction false} AppendAllKeepsMedia(sdp: string, candidates: seq<Candidate>)
    requires BlocksOf(sdp).media != [] && SingleLine(candidates) && AppendAll(sdp, candidates).Success?
    ensures BlocksOf(AppendAll(sdp, candidates).value).media != []
  {
    if candidates != [] {
      var n := |candidates| - 1;
      AppendAllFront(sdp, candidates);
      AppendAllKeepsMedia(sdp, candidates[..n]);
      AppendNeedsValid(AppendAll(sdp, candidates[..n]).value, candidates[n]);
    }
  }

  lemma LastNeedsValid(sdp: string, candidates: seq<Candidate>)
    requires BlocksOf(sdp).media != [] && SingleLine(candidates) && AppendAll(sdp, candidates).Success?
    requires candidates != []
    ensures ValidSyntax(candidates[|candidates| - 1].candidate)
  {
    var n := |candidates| - 1;
    AppendAllFront(sdp, candidates);
    AppendAllKeepsMedia(sdp, candidates[..n]);
    AppendNeedsValid(AppendAll(sdp, candidates[..n]).value, candidates[n]);
  }

  lemma {:induction false} AppendAllNeedsValid(sdp: string, candidates: seq<Candidate>, m: nat)
    requires BlocksOf(sdp).media != [] && SingleLine(candidates) && AppendAll(sdp, candidates).Success?
    requires m < |candidates|
    ensures ValidSyntax(candidates[m].candidate)
  {
    if m < |candidates| - 1 {
      AppendAllFront(sdp, candidates);
      AppendAllNeedsValid(sdp, candidates[..|candidates| - 1], m);
    } else {
      LastNeedsValid(sdp, candidates);
    }
  }

  lemma {:induction false} ExtractedIn(s: Section, index: nat, n: nat, k: nat)
    requires k < n <= |s.lines| && IsCandidateLine(s.lines[k])
    ensures TakenFrom(s, index, s.lines[k]) in CandidatesIn(s, index, n)
  {
    if k < n - 1 {
      ExtractedIn(s, index, n - 1, k);
    }
  }

  lemma {:induction false} Extracted(sections: seq<Section>, i: nat, k: nat)
    requires i < |sections| && k < |sections[i].lines| && IsCandidateLine(sections[i].lines[k])
    ensures TakenFrom(sections[i], i, sections[i].lines[k]) in CandidatesOf(sections)
  {
    if i < |sections| - 1 {
      Extracted(sections[..|sections| - 1], i, k);
    } else {
      ExtractedIn(sections[i], i, |sections[i].lines|, k);
    }
  }

  lemma {:induction false} ExtractedInIsSingleLine(s: Section, index: nat, n: nat)
    requires n <= |s.lines| && Clean(s.lines)
    ensures SingleLine(CandidatesIn(s, index, n))
  {
    if n > 0 {
      ExtractedInIsSingleLine(s, index, n - 1);
    }
  }

  lemma {:induction false} ExtractedIsSingleLine(sections: seq<Section>)
    requires forall i :: 0 <= i < |sections| ==> Clean(sections[i].lines)
    ensures SingleLine(CandidatesOf(sections))
  {
    if sections != [] {
      var n := |sections| - 1;
      ExtractedIsSingleLine(sections[..n]);
      ExtractedInIsSingleLine(sections[n], n, |sections[n].lines|);
    }
  }

  /** A candidate taken from some section: it names a mid, or the index of a section without one. */
  ghost predicate FromSections(sections: seq<Section>, c: Candidate) {
    && '\n' !in c.candidate
    && (c.sdpMid.Some? || exists n :: 0 <= n < |sections| && sections[n].mid.None? && c.sdpMLineIndex == Some(n))
  }

  lemma MissesSection(b: Blocks, t: string, c: Candidate, i: nat)
    requires Printable(b) && SameSections(b, BlocksOf(t)) && FromSections(SectionsOf(b), c)
    requires i < |b.media| && !Addressable(SectionsOf(b), i) && Append(t, c).Success?
    ensures SameSections(b, BlocksOf(Append(t, c).value))
    ensures BlocksOf(Append(t, c).value).media[i] == BlocksOf(t).media[i]
  {
    var targets := AppendEffect(t, c);
    ParseIsSectionsOf(t);
    SectionsOfMatch(b, BlocksOf(t));
    SameTargets(SectionsOf(b), Parse(t).mediaSections, c);
    AddToAt(BlocksOf(t).media, targets, LineOf(c));
    if targets != [] {
      NotTheTarget(SectionsOf(b), c, i);
    }
  }

  lemma NotTheTarget(sections: seq<Section>, c: Candidate, i: nat)
    requires i < |sections| && !Addressable(sections, i) && FromSections(sections, c)
    ensures Targets(sections, c).Success? ==> i !in Targets(sections, c).value
  {
  }

  ghost predicate AllFrom(sections: seq<Section>, candidates: seq<Candidate>) {
    forall m :: 0 <= m < |candidates| ==> FromSections(sections, candidates[m])
  }

  lemma {:induction false} AllMissSection(b: Blocks, start: string, candidates: seq<Candidate>, i: nat)
    requires Printable(b) && SameSections(b, BlocksOf(start)) && AllFrom(SectionsOf(b), candidates)
    requires i < |b.media| && !Addressable(SectionsOf(b), i) && AppendAll(start, candidates).Success?
    ensures SameSections(b, BlocksOf(AppendAll(start, candidates).value))
    ensures BlocksOf(AppendAll(start, candidates).value).media[i] == BlocksOf(start).media[i]
  {
    if candidates != [] {
      var n := |candidates| - 1;
      AppendAllFront(start, candidates);
      AllMissSection(b, start, candidates[..n], i);
      MissesSection(b, AppendAll(start, candidates[..n]).value, candidates[n], i);
    }
  }

  lemma {:induction false} ExtractedInAreFrom(sections: seq<Section>, index: nat, n: nat)
    requires index < |sections| && n <= |sections[index].lines| && Clean(sections[index].lines)
    ensures AllFrom(sections, CandidatesIn(sections[index], index, n))
  {
    if n > 0 {
      ExtractedInAreFrom(sections, index, n - 1);
    }
  }

  lemma {:induction false} ExtractedAreFrom(sections: seq<Section>, n: nat)
    requires n <= |sections| && forall i :: 0 <= i < |sections| ==> Clean(sections[i].lines)
    ensures AllFrom(sections, CandidatesOf(sections[..n]))
  {
    if n > 0 {
      ExtractedAreFrom(sections, n - 1);
      assert sections[..n][..n - 1] == sections[..n - 1];
      ExtractedInAreFrom(sections, n - 1, |sections[n - 1].lines|);
    }
  }

  lemma ExtractIsFrom(sdp: string)
    ensures WellCut(BlocksOf(sdp)) && AllFrom(SectionsOf(BlocksOf(sdp)), Extract(sdp))
  {
    ExtractFromSections(sdp);
    BlocksArePrintable(sdp);
    CleanByBlock(BlocksOf(sdp));
    var sections := SectionsOf(BlocksOf(sdp));
    ExtractedAreFrom(sections, |sections|);
    assert sections[..|sections|] == sections;
  }

  lemma StrippedBlockIsNotRestored(block: seq<string>, k: nat)
    requires k < |block| && IsCandidateLine(block[k])
    ensures !RestoresBlock(block, WithoutIce(block))
  {
    WithoutIceMembers(block);
    assert block[k] in block && block[k] !in WithoutIce(block);
  }

  /** The candidates of a section that another one hides are not put back. */
  lemma HiddenSectionIsNotRestored(sdp: string, i: nat, k: nat)
    requires var b := BlocksOf(sdp);
             && i < |b.media| && k < |b.media[i]| && IsCandidateLine(b.media[i][k])
             && Printable(b) && !Addressable(SectionsOf(b), i)
    ensures var r := AppendAll(Strip(sdp), Extract(sdp));
            r.Success? ==> !Restores(BlocksOf(sdp), BlocksOf(r.value))
  {
    var b := BlocksOf(sdp);
    if AppendAll(Strip(sdp), Extract(sdp)).Success? {
      ExtractIsFrom(sdp);
      StripEffect(sdp);
      AllMissSection(b, Strip(sdp), Extract(sdp), i);
      assert BlocksOf(Strip(sdp)).media[i] == WithoutIce(b.media[i]);
      StrippedBlockIsNotRestored(b.media[i], k);
    }
  }

  /**
    Stripping the candidates and appending them again restores each section's other lines in
    order and its set of candidate lines, all but the end-of-candidates marks, exactly when
    every candidate line is valid and every section with one is the first with its mid.
   */
  lemma CandidateSplitIsLossless(sdp: string)
    ensures WellCut(BlocksOf(sdp))
    ensures var b, r := BlocksOf(sdp), AppendAll(Strip(sdp), Extract(sdp));
            r.Success? && Restores(b, BlocksOf(r.value)) <==> AllValid(b) && AllAddressable(b)
  {
    var b := BlocksOf(sdp);
    BlocksArePrintable(sdp);
    if !AllValid(b) {
      InvalidCandidateFails(sdp);
    } else if AllAddressable(b) {
      ValidCandidatesAreRestored(sdp);
    } else {
      var i, k :| 0 <= i < |b.media| && 0 <= k < |b.media[i]| && IsCandidateLine(b.media[i][k])
                  && !Addressable(SectionsOf(b), i);
      HiddenSectionIsNotRestored(sdp, i, k);
    }
  }

  /** With distinct mids, valid candidate lines are all it takes, and an invalid one is an error. */
  lemma DistinctMidsLoseNothing(sdp: string)
    requires DistinctMids(Parse(sdp).mediaSections)
    ensures var r := AppendAll(Strip(sdp), Extract(sdp));
            && (r.Success? <==> AllValid(BlocksOf(sdp)))
            && (r.Success? ==> Restores(BlocksOf(sdp), BlocksOf(r.value)))
  {
    ParseIsSectionsOf(sdp);
    DistinctMidsAreAddressable(BlocksOf(sdp));
    CandidateSplitIsLossless(sdp);
    if !AllValid(BlocksOf(sdp)) {
      InvalidCandidateFails(sdp);
    }
  }

  lemma InvalidCandidateFails(sdp: string)
    requires !AllValid(BlocksOf(sdp))
    ensures AppendAll(Strip(sdp), Extract(sdp)).Failure?
  {
    var b := BlocksOf(sdp);
    var i, k :| 0 <= i < |b.media| && 0 <= k < |b.media[i]| && IsCandidateLine(b.media[i][k])
                && !ValidSyntax(b.media[i][k][2..]);
    ExtractFromSections(sdp);
    Extracted(SectionsOf(b), i, k);
    var m :| 0 <= m < |Extract(sdp)| && Extract(sdp)[m] == TakenFrom(SectionsOf(b)[i], i, b.media[i][k]);
    ExtractIsSingleLine(sdp);
    StripKeepsMedia(sdp);
    if AppendAll(Strip(sdp), Extract(sdp)).Success? {
      AppendAllNeedsValid(Strip(sdp), Extract(sdp), m);
    }
  }

  lemma StripKeepsMedia(sdp: string)
    ensures |BlocksOf(Strip(sdp)).media| == |BlocksOf(sdp).media|
  {
    StripEffect(sdp);
  }

  lemma ExtractIsSingleLine(sdp: string)
    ensures SingleLine(Extract(sdp))
  {
    ExtractFromSections(sdp);
    BlocksArePrintable(sdp);
    CleanByBlock(BlocksOf(sdp));
    ExtractedIsSingleLine(SectionsOf(BlocksOf(sdp)));
  }

  // ---- the loops ------------------------------------------------------------

  lemma LinesOfParse(sdp: string)
    ensures Parse(sdp).sessionLines == BlocksOf(sdp).session && LinesOf(Parse(sdp).mediaSections) == BlocksOf(sdp).media
  {
    CutIsWellCut(SplitLines(sdp));
  }

  /** Adds the candidate's line to every section it belongs to, once. */
  method AppendRemoteCandidate(sdp: string, c: Candidate) returns (r: Result<string, Error>)
    ensures r == Append(sdp, c)
  {
    if sdp == "" || NoMedia(sdp) {
      return Success(sdp);
    }
    if !ValidSyntax(c.candidate) {
      return Failure(InvalidSyntax);
    }
    var parsed := ParseSdpMediaSections(sdp);
    var selected := Targets(parsed.mediaSections, c);
    if selected.Failure? {
      return Failure(selected.error);
    }
    var targets := selected.value;
    if targets == [] {
      return Success(sdp);
    }
    LinesOfParse(sdp);
    var sections := AddLineTo(parsed.mediaSections, targets, LineOf(c));
    return Success(Serialize(Parsed(parsed.sessionLines, sections)));
  }

  method AddLineTo(given: seq<Section>, targets: seq<nat>, line: string) returns (sections: seq<Section>)
    requires forall k :: 0 <= k < |targets| ==> targets[k] < |given|
    ensures LinesOf(sections) == AddTo(LinesOf(given), targets, line)
  {
    sections := given;
    for k := 0 to |targets|
      invariant LinesOf(sections) == AddTo(LinesOf(given), targets[..k], line)
    {
      var i := targets[k];
      assert targets[..k + 1][..k] == targets[..k];
      if line !in sections[i].lines {
        LinesOfUpdate(sections, i, sections[i].(lines := sections[i].lines + [line]));
        sections := sections[i := sections[i].(lines := sections[i].lines + [line])];
      }
    }
    assert targets[..|targets|] == targets;
  }

  lemma {:induction false} WithoutIceLength(lines: seq<string>)
    ensures |WithoutIce(lines)| <= |lines|
    ensures |WithoutIce(lines)| == |lines| <==> WithoutIce(lines) == lines
  {
    if lines != [] {
      var n := |lines| - 1;
      WithoutIceLength(lines[..n]);
      assert lines[..n] + [lines[n]] == lines;
    }
  }

  /** Drops the candidate lines of every section; a text that has none stays as it is. */
  method StripIceCandidateLines(sdp: string) returns (r: string)
    ensures r == Strip(sdp)
  {
    if sdp == "" || NoMedia(sdp) {
      return sdp;
    }
    var parsed := ParseSdpMediaSections(sdp);
    LinesOfParse(sdp);
    var sections, stripped := parsed.mediaSections, false;
    for i := 0 to |sections|
      invariant |sections| == |parsed.mediaSections|
      invariant forall k :: i <= k < |sections| ==> sections[k].lines == parsed.mediaSections[k].lines
      invariant forall k :: 0 <= k < i ==> sections[k].lines == WithoutIce(parsed.mediaSections[k].lines)
      invariant stripped <==> exists k :: 0 <= k < i && sections[k].lines != parsed.mediaSections[k].lines
    {
      var kept := WithoutIce(sections[i].lines);
      WithoutIceLength(sections[i].lines);
      if |kept| < |sections[i].lines| {
        stripped := true;
      }
      sections := sections[i := sections[i].(lines := kept)];
    }
    ghost var media := BlocksOf(sdp).media;
    assert LinesOf(sections) == StripAll(media);
    if !stripped {
      assert StripAll(media) == media;
      return sdp;
    }
    var k :| 0 <= k < |sections| && sections[k].lines != parsed.mediaSections[k].lines;
    assert StripAll(media)[k] != media[k];
    return Serialize(Parsed(parsed.sessionLines, sections));
  }

  /** The candidates of every section, in order, with the section's mid, index and fragment. */
  method ExtractIceCandidates(sdp: string) returns (candidates: seq<Candidate>)
    ensures candidates == Extract(sdp)
  {
    candidates := [];
    if sdp == "" || NoMedia(sdp) {
      return;
    }
    var parsed := ParseSdpMediaSections(sdp);
    var sections := parsed.mediaSections;
    for index := 0 to |sections|
      invariant candidates == CandidatesOf(sections[..index])
    {
      var more := ExtractFromSection(sections[index], index);
      candidates := candidates + more;
      assert sections[..index + 1][..index] == sections[..index];
    }
    assert sections[..|sections|] == sections;
  }

  method ExtractFromSection(section: Section, index: nat) returns (candidates: seq<Candidate>)
    ensures candidates == CandidatesIn(section, index, |section.lines|)
  {
    candidates := [];
    for n := 0 to |section.lines|
      invariant candidates == CandidatesIn(section, index, n)
    {
      var line := section.lines[n];
      if IsCandidateLine(line) {
        candidates := candidates + [TakenFrom(section, index, line)];
      }
    }
  }
}
