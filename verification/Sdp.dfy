/**
  Session descriptions as lines: splitting, cutting into media sections, and printing.
 */
module Sdp {
  import opened Wrappers

  const EOL: string := "\r\n"

  predicate StartsWith(line: string, prefix: string) {
    |prefix| <= |line| && line[..|prefix|] == prefix
  }

  // ---- lines ----------------------------------------------------------------

  /** Drops the one carriage return that belongs to the line end. */
  function Chomp(line: string): string {
    if line != [] && line[|line| - 1] == '\r' then line[..|line| - 1] else line
  }

  /** The pieces between the line ends, the empty ones included. */
  function Pieces(s: string): (r: seq<string>)
    ensures |r| > 0
  {
    if s == [] then [""]
    else
      var p, c := Pieces(s[..|s| - 1]), s[|s| - 1];
      var n := |p| - 1;
      if c == '\n' then p[..n] + [Chomp(p[n])] + [""] else p[..n] + [p[n] + [c]]
  }

  function NonEmpty(lines: seq<string>): seq<string> {
    if lines == [] then []
    else
      var n := |lines| - 1;
      NonEmpty(lines[..n]) + if lines[n] == "" then [] else [lines[n]]
  }

  function SplitLines(s: string): seq<string> { NonEmpty(Pieces(s)) }

  ghost predicate Clean(lines: seq<string>) {
    forall i :: 0 <= i < |lines| ==> lines[i] != "" && '\n' !in lines[i]
  }

  /** Every line followed by a line end. */
  function Ended(lines: seq<string>): string {
    if lines == [] then "" else Ended(lines[..|lines| - 1]) + lines[|lines| - 1] + EOL
  }

  function Join(lines: seq<string>): string {
    if lines == [] then ""
    else if |lines| == 1 then lines[0]
    else Join(lines[..|lines| - 1]) + EOL + lines[|lines| - 1]
  }

  function Text(lines: seq<string>): string { Join(lines) + EOL }

  // ---- sections -------------------------------------------------------------

  /** The session part and the media sections, each with its own m= line first. */
  datatype Blocks = Blocks(session: seq<string>, media: seq<seq<string>>)

  predicate IsMedia(line: string) { StartsWith(line, "m=") }

  function CutMore(b: Blocks, line: string): Blocks {
    if IsMedia(line) then b.(media := b.media + [[line]])
    else if b.media == [] then b.(session := b.session + [line])
    else b.(media := b.media[|b.media| - 1 := b.media[|b.media| - 1] + [line]])
  }

  function Cut(lines: seq<string>): Blocks {
    if lines == [] then Blocks([], []) else CutMore(Cut(lines[..|lines| - 1]), lines[|lines| - 1])
  }

  function Concat(media: seq<seq<string>>): seq<string> {
    if media == [] then [] else Concat(media[..|media| - 1]) + media[|media| - 1]
  }

  function Flatten(b: Blocks): seq<string> { b.session + Concat(b.media) }

  datatype Section = Section(
    startLine: string, lines: seq<string>, mid: Option<string>, iceUfrag: Option<string>, icePwd: Option<string>)

  datatype Parsed = Parsed(sessionLines: seq<string>, mediaSections: seq<Section>)

  const MID := "a=mid:"
  const UFRAG := "a=ice-ufrag:"
  const PWD := "a=ice-pwd:"

  function Or(a: Option<string>, b: Option<string>): Option<string> { if a.Some? then a else b }

  function Value(line: string, prefix: string): Option<string> {
    if StartsWith(line, prefix) then Some(line[|prefix|..]) else None
  }

  /** The last value a prefix is given. */
  function LastValue(lines: seq<string>, prefix: string): Option<string> {
    if lines == [] then None
    else Or(Value(lines[|lines| - 1], prefix), LastValue(lines[..|lines| - 1], prefix))
  }

  /** What the lines of a section and the session part say about it. */
  function Describe(session: seq<string>, block: seq<string>): Section
    requires block != []
  {
    Section(block[0], block, LastValue(block, MID),
            Or(LastValue(block, UFRAG), LastValue(session, UFRAG)),
            Or(LastValue(block, PWD), LastValue(session, PWD)))
  }

  ghost predicate WellCut(b: Blocks) {
    && (forall k :: 0 <= k < |b.session| ==> !IsMedia(b.session[k]))
    && (forall i :: 0 <= i < |b.media| ==> IsBlock(b.media[i]))
  }

  ghost predicate IsBlock(block: seq<string>) {
    && block != [] && IsMedia(block[0])
    && (forall k :: 0 < k < |block| ==> !IsMedia(block[k]))
  }

  lemma {:induction false} CutIsWellCut(lines: seq<string>)
    ensures WellCut(Cut(lines)) && Flatten(Cut(lines)) == lines
  {
    if lines != [] {
      var n := |lines| - 1;
      CutIsWellCut(lines[..n]);
      var b, c := Cut(lines[..n]), Cut(lines);
      MoreIsWellCut(b, lines[n]);
    }
  }

  lemma MoreIsWellCut(b: Blocks, line: string)
    requires WellCut(b)
    ensures WellCut(CutMore(b, line)) && Flatten(CutMore(b, line)) == Flatten(b) + [line]
  {
    if IsMedia(line) {
      ConcatMore(b.media, [line]);
    } else if b.media == [] {
      assert Concat(b.media) == [];
    } else {
      ConcatGrows(b.media, line);
    }
  }

  /** b without its last line. */
  ghost function Shorter(b: Blocks): Blocks
    requires WellCut(b) && Flatten(b) != []
  {
    if b.media == [] then b.(session := b.session[..|b.session| - 1])
    else
      var n := |b.media| - 1;
      var m := |b.media[n]| - 1;
      if m == 0 then b.(media := b.media[..n]) else b.(media := b.media[n := b.media[n][..m]])
  }

  lemma ShorterThenMore(b: Blocks)
    requires WellCut(b) && Flatten(b) != []
    ensures var c, line := Shorter(b), Flatten(b)[|Flatten(b)| - 1];
            WellCut(c) && Flatten(b) == Flatten(c) + [line] && CutMore(c, line) == b
  {
    var n := |b.media| - 1;
    if b.media == [] {
      assert b.session == b.session[..|b.session| - 1] + [b.session[|b.session| - 1]];
    } else if |b.media[n]| == 1 {
      ShorterByMedia(b);
    } else {
      ShorterByAttribute(b);
    }
  }

  lemma ShorterByMedia(b: Blocks)
    requires WellCut(b) && b.media != [] && |b.media[|b.media| - 1]| == 1
    ensures var c, line := Shorter(b), b.media[|b.media| - 1][0];
            WellCut(c) && Flatten(b) == Flatten(c) + [line] && CutMore(c, line) == b
  {
    var c, line := Shorter(b), b.media[|b.media| - 1][0];
    assert b.media[|b.media| - 1] == [line];
    assert b.media == c.media + [[line]];
    ConcatMore(c.media, [line]);
  }

  lemma ShorterByAttribute(b: Blocks)
    requires WellCut(b) && b.media != [] && |b.media[|b.media| - 1]| > 1
    ensures var block := b.media[|b.media| - 1];
            var c, line := Shorter(b), block[|block| - 1];
            WellCut(c) && Flatten(b) == Flatten(c) + [line] && CutMore(c, line) == b
  {
    var n := |b.media| - 1;
    var block, c := b.media[n], Shorter(b);
    var m := |block| - 1;
    assert block == block[..m] + [block[m]];
    assert IsBlock(c.media[n]);
    ConcatGrows(c.media, block[m]);
    assert c.media[n := c.media[n] + [block[m]]] == b.media;
  }

  lemma ConcatMore(media: seq<seq<string>>, block: seq<string>)
    ensures Concat(media + [block]) == Concat(media) + block
  {
    assert (media + [block])[..|media|] == media;
  }

  lemma ConcatGrows(media: seq<seq<string>>, line: string)
    requires media != []
    ensures var n := |media| - 1; Concat(media[n := media[n] + [line]]) == Concat(media) + [line]
  {
    var n := |media| - 1;
    assert media[n := media[n] + [line]][..n] == media[..n];
  }

  /** Cutting undoes flattening: the sections of a description are determined by its lines. */
  lemma {:induction false} CutFlatten(b: Blocks)
    requires WellCut(b)
    ensures Cut(Flatten(b)) == b
    decreases |Flatten(b)|
  {
    if Flatten(b) != [] {
      ShorterThenMore(b);
      var c, line := Shorter(b), Flatten(b)[|Flatten(b)| - 1];
      CutFlatten(c);
      assert (Flatten(c) + [line])[..|Flatten(c)|] == Flatten(c);
    }
  }

  function DescribeAll(session: seq<string>, media: seq<seq<string>>): (r: seq<Section>)
    requires forall i :: 0 <= i < |media| ==> media[i] != []
    ensures |r| == |media|
    ensures forall i :: 0 <= i < |media| ==> r[i].lines == media[i]
  {
    seq(|media|, i requires 0 <= i < |media| => Describe(session, media[i]))
  }

  function Parse(sdp: string): Parsed {
    var b := Cut(SplitLines(sdp));
    CutIsWellCut(SplitLines(sdp));
    Parsed(b.session, DescribeAll(b.session, b.media))
  }

  // ---- what a section says, line by line -------------------------------------

  ghost predicate Mentions(lines: seq<string>, prefix: string) {
    exists k :: 0 <= k < |lines| && prefix <= lines[k]
  }

  /** value is what follows the prefix in the last line that starts with it, or None without such a line. */
  ghost predicate SaysLast(lines: seq<string>, prefix: string, value: Option<string>) {
    if Mentions(lines, prefix) then
      exists k :: 0 <= k < |lines| && value.Some? && lines[k] == prefix + value.value
                  && forall j :: k < j < |lines| ==> !(prefix <= lines[j])
    else value.None?
  }

  lemma {:induction false} LastValueIsLast(lines: seq<string>, prefix: string)
    ensures SaysLast(lines, prefix, LastValue(lines, prefix))
  {
    if lines != [] {
      var n := |lines| - 1;
      LastValueIsLast(lines[..n], prefix);
      if prefix <= lines[n] {
        assert lines[n] == prefix + lines[n][|prefix|..];
      } else {
        OtherLineSaysNothing(lines[..n], lines[n], prefix, LastValue(lines, prefix));
        assert lines[..n] + [lines[n]] == lines;
      }
    }
  }

  lemma OtherLineSaysNothing(lines: seq<string>, line: string, prefix: string, value: Option<string>)
    requires SaysLast(lines, prefix, value) && !(prefix <= line)
    ensures SaysLast(lines + [line], prefix, value)
  {
    var more := lines + [line];
    if Mentions(lines, prefix) {
      var k :| 0 <= k < |lines| && value.Some? && lines[k] == prefix + value.value
               && forall j :: k < j < |lines| ==> !(prefix <= lines[j]);
      assert more[k] == prefix + value.value;
      assert forall j :: k < j < |more| ==> !(prefix <= more[j]);
    }
  }

  /**
    A section's mid is what its own last mid line says; its ICE credentials are what its own
    last line for them says, and only without one what the last such line of the session part says.
   */
  ghost predicate MeansItsLines(session: seq<string>, s: Section) {
    && SaysLast(s.lines, "a=mid:", s.mid)
    && SaysLast(if Mentions(s.lines, "a=ice-ufrag:") then s.lines else session, "a=ice-ufrag:", s.iceUfrag)
    && SaysLast(if Mentions(s.lines, "a=ice-pwd:") then s.lines else session, "a=ice-pwd:", s.icePwd)
  }

  lemma SectionMeansItsLines(sdp: string, i: nat)
    requires i < |Parse(sdp).mediaSections|
    ensures MeansItsLines(Parse(sdp).sessionLines, Parse(sdp).mediaSections[i])
  {
    var p := Parse(sdp);
    var s := p.mediaSections[i];
    CutIsWellCut(SplitLines(sdp));
    assert s == Describe(p.sessionLines, s.lines);
    LastValueIsLast(s.lines, MID);
    LastValueIsLast(s.lines, UFRAG);
    LastValueIsLast(p.sessionLines, UFRAG);
    LastValueIsLast(s.lines, PWD);
    LastValueIsLast(p.sessionLines, PWD);
  }

  /** The lines of a text, in order: up to the first m= line the session part, from each m= line on a section. */
  lemma SectionsStartAtMediaLines(sdp: string)
    ensures var p := Parse(sdp);
            && p.sessionLines + Concat(LinesOf(p.mediaSections)) == SplitLines(sdp)
            && !Mentions(p.sessionLines, "m=")
            && forall i :: 0 <= i < |p.mediaSections| ==>
                 var s := p.mediaSections[i]; StartsAtMediaLine(s.lines) && s.startLine == s.lines[0]
  {
    var b := Cut(SplitLines(sdp));
    CutIsWellCut(SplitLines(sdp));
    LinesOfDescribeAll(b.session, b.media);
    WellCutMeans(b);
  }

  lemma WellCutMeans(b: Blocks)
    requires WellCut(b)
    ensures !Mentions(b.session, "m=") && forall i :: 0 <= i < |b.media| ==> StartsAtMediaLine(b.media[i])
  {
    assert forall k :: 0 <= k < |b.session| ==> !IsMedia(b.session[k]);
    forall i | 0 <= i < |b.media| ensures StartsAtMediaLine(b.media[i]) {
      BlockStartsAtMediaLine(b.media[i]);
    }
  }

  ghost predicate StartsAtMediaLine(lines: seq<string>) {
    lines != [] && "m=" <= lines[0] && !Mentions(lines[1..], "m=")
  }

  lemma BlockStartsAtMediaLine(block: seq<string>)
    requires IsBlock(block)
    ensures StartsAtMediaLine(block)
  {
    assert forall k :: 0 <= k < |block| - 1 ==> !IsMedia(block[1..][k]);
  }

  function LinesOf(sections: seq<Section>): (r: seq<seq<string>>)
    ensures |r| == |sections|
  {
    seq(|sections|, i requires 0 <= i < |sections| => sections[i].lines)
  }

  function Serialize(p: Parsed): string {
    Text(p.sessionLines + Concat(LinesOf(p.mediaSections)))
  }

  // ---- printing and reading -------------------------------------------------

  lemma {:induction false} PiecesHaveNoNewline(s: string)
    ensures forall i :: 0 <= i < |Pieces(s)| ==> '\n' !in Pieces(s)[i]
  {
    if s != [] {
      PiecesHaveNoNewline(s[..|s| - 1]);
    }
  }

  lemma {:induction false} NonEmptyIsClean(lines: seq<string>)
    requires forall i :: 0 <= i < |lines| ==> '\n' !in lines[i]
    ensures Clean(NonEmpty(lines))
  {
    if lines != [] {
      NonEmptyIsClean(lines[..|lines| - 1]);
    }
  }

  lemma SplitLinesIsClean(s: string)
    ensures Clean(SplitLines(s))
  {
    PiecesHaveNoNewline(s);
    NonEmptyIsClean(Pieces(s));
  }

  lemma {:induction false} PiecesOfLine(s: string, line: string)
    requires '\n' !in line
    ensures Pieces(s + line) == Pieces(s)[..|Pieces(s)| - 1] + [Pieces(s)[|Pieces(s)| - 1] + line]
    decreases |line|
  {
    var p := Pieces(s);
    if line == [] {
      assert s + line == s;
      assert p[|p| - 1] + line == p[|p| - 1];
    } else {
      var n := |line| - 1;
      assert (s + line)[..|s + line| - 1] == s + line[..n];
      PiecesOfLine(s, line[..n]);
      assert p[|p| - 1] + line[..n] + [line[n]] == p[|p| - 1] + line;
    }
  }

  lemma PiecesOfEol(s: string)
    ensures Pieces(s + EOL) == Pieces(s) + [""]
  {
    var p := Pieces(s);
    var n := |p| - 1;
    assert (s + EOL)[..|s| + 1] == s + ['\r'];
    assert (s + ['\r'])[..|s|] == s;
    assert Pieces(s + ['\r']) == p[..n] + [p[n] + ['\r']];
    assert Chomp(p[n] + ['\r']) == p[n];
  }

  lemma PiecesOfEndedLine(s: string, lines: seq<string>, line: string)
    requires Pieces(s) == lines + [""] && '\n' !in line
    ensures Pieces(s + line + EOL) == lines + [line] + [""]
  {
    PiecesOfLine(s, line);
    assert (lines + [""])[..|lines|] == lines;
    assert "" + line == line;
    PiecesOfEol(s + line);
  }

  lemma {:induction false} PiecesOfEnded(lines: seq<string>)
    requires Clean(lines)
    ensures Pieces(Ended(lines)) == lines + [""]
  {
    if lines == [] {
      assert Pieces("") == [""];
    } else {
      var n := |lines| - 1;
      PiecesOfEnded(lines[..n]);
      PiecesOfEndedLine(Ended(lines[..n]), lines[..n], lines[n]);
      assert lines[..n] + [lines[n]] == lines;
    }
  }

  lemma {:induction false} NonEmptyOfClean(lines: seq<string>)
    requires Clean(lines)
    ensures NonEmpty(lines) == lines
  {
    if lines != [] {
      NonEmptyOfClean(lines[..|lines| - 1]);
    }
  }

  lemma {:induction false} TextIsEnded(lines: seq<string>)
    ensures Text(lines) == if lines == [] then EOL else Ended(lines)
  {
    if |lines| > 1 {
      var n := |lines| - 1;
      TextIsEnded(lines[..n]);
      assert Text(lines) == Join(lines[..n]) + EOL + lines[n] + EOL;
    } else if |lines| == 1 {
      assert lines[..0] == [];
      assert Ended(lines) == "" + lines[0] + EOL;
      assert "" + lines[0] == lines[0];
    }
  }

  lemma NoLines()
    ensures SplitLines(EOL) == []
  {
    PiecesOfEol("");
    assert "" + EOL == EOL;
    var p := Pieces(EOL);
    assert p == ["", ""];
    assert p[..1] == [""] && [""][..0] == [];
    assert NonEmpty([""]) == [];
  }

  /** Printed lines are read back unchanged. */
  lemma SplitText(lines: seq<string>)
    requires Clean(lines)
    ensures SplitLines(Text(lines)) == lines
  {
    TextIsEnded(lines);
    if lines == [] {
      NoLines();
    } else {
      PiecesOfEnded(lines);
      assert (lines + [""])[..|lines|] == lines;
      NonEmptyOfClean(lines);
    }
  }

  lemma LinesOfDescribeAll(session: seq<string>, media: seq<seq<string>>)
    requires forall i :: 0 <= i < |media| ==> media[i] != []
    ensures LinesOf(DescribeAll(session, media)) == media
  {
  }

  lemma SerializeParse(sdp: string)
    ensures Serialize(Parse(sdp)) == Text(SplitLines(sdp))
  {
    var b := Cut(SplitLines(sdp));
    CutIsWellCut(SplitLines(sdp));
    LinesOfDescribeAll(b.session, b.media);
  }

  /**
    For every text: parsing and printing keeps the lines, and parsing what was printed gives
    the same sections, inherited ICE credentials included.
   */
  lemma ParsePrintRoundTrip(sdp: string)
    ensures SplitLines(Serialize(Parse(sdp))) == SplitLines(sdp)
    ensures Parse(Serialize(Parse(sdp))) == Parse(sdp)
  {
    SerializeParse(sdp);
    SplitLinesIsClean(sdp);
    SplitText(SplitLines(sdp));
  }

  // ---- the loops ------------------------------------------------------------

  /** parseSdpMediaSections: one pass over the lines, then the inheritance. */
  method ParseSdpMediaSections(sdp: string) returns (parsed: Parsed)
    ensures parsed == Parse(sdp)
    ensures forall i :: 0 <= i < |parsed.mediaSections| ==> MeansItsLines(parsed.sessionLines, parsed.mediaSections[i])
  {
    var sessionLines, sections, ufrag, pwd := CollectSections(SplitLines(sdp));
    CutIsWellCut(SplitLines(sdp));
    sections := InheritCredentials(sessionLines, sections, ufrag, pwd);
    parsed := Parsed(sessionLines, sections);
    forall i | 0 <= i < |sections| ensures MeansItsLines(sessionLines, sections[i]) {
      SectionMeansItsLines(sdp, i);
    }
  }

  method CollectSections(lines: seq<string>)
    returns (sessionLines: seq<string>, sections: seq<Section>, sessionUfrag: Option<string>, sessionPwd: Option<string>)
    ensures sessionLines == Cut(lines).session && LinesOf(sections) == Cut(lines).media
    ensures sessionUfrag == LastValue(sessionLines, UFRAG) && sessionPwd == LastValue(sessionLines, PWD)
    ensures AllOwn(sections)
  {
    sessionLines, sections, sessionUfrag, sessionPwd := [], [], None, None;
    for n := 0 to |lines|
      invariant Collected(lines[..n], sessionLines, sections)
      invariant SessionSays(sessionLines, sessionUfrag, sessionPwd)
    {
      var line := lines[n];
      assert lines[..n + 1] == lines[..n] + [line];
      if StartsWith(line, "m=") {
        CollectedMedia(lines[..n], sessionLines, sections, line);
        sections := sections + [Section(line, [line], None, None, None)];
      } else if sections != [] {
        var last := |sections| - 1;
        CollectedAttribute(lines[..n], sessionLines, sections, line);
        sections := sections[last := AddLine(sections[last], line)];
      } else {
        CollectedSession(lines[..n], sessionLines, line);
        SessionSaysMore(sessionLines, line, sessionUfrag, sessionPwd);
        sessionLines := sessionLines + [line];
        if StartsWith(line, UFRAG) {
          sessionUfrag := Some(line[|UFRAG|..]);
        }
        if StartsWith(line, PWD) {
          sessionPwd := Some(line[|PWD|..]);
        }
      }
    }
    assert lines[..|lines|] == lines;
  }

  ghost predicate AllOwn(sections: seq<Section>) {
    forall i :: 0 <= i < |sections| ==> Own(sections[i])
  }

  /** These lines have been sorted into the session part and the sections. */
  ghost predicate Collected(lines: seq<string>, sessionLines: seq<string>, sections: seq<Section>) {
    sessionLines == Cut(lines).session && LinesOf(sections) == Cut(lines).media && AllOwn(sections)
  }

  lemma CutOneMore(lines: seq<string>, line: string)
    ensures Cut(lines + [line]) == CutMore(Cut(lines), line)
  {
    assert (lines + [line])[..|lines|] == lines;
  }

  lemma CollectedMedia(lines: seq<string>, sessionLines: seq<string>, sections: seq<Section>, line: string)
    requires Collected(lines, sessionLines, sections) && IsMedia(line)
    ensures Collected(lines + [line], sessionLines, sections + [Section(line, [line], None, None, None)])
  {
    CutOneMore(lines, line);
    NewSectionIsOwn(line);
    LinesOfMore(sections, Section(line, [line], None, None, None));
  }

  lemma CollectedAttribute(lines: seq<string>, sessionLines: seq<string>, sections: seq<Section>, line: string)
    requires Collected(lines, sessionLines, sections) && !IsMedia(line) && sections != []
    ensures var last := |sections| - 1;
            Collected(lines + [line], sessionLines, sections[last := AddLine(sections[last], line)])
  {
    var last := |sections| - 1;
    CutOneMore(lines, line);
    AddLineKeepsOwn(sections[last], line);
    LinesOfUpdate(sections, last, AddLine(sections[last], line));
  }

  lemma CollectedSession(lines: seq<string>, sessionLines: seq<string>, line: string)
    requires Collected(lines, sessionLines, []) && !IsMedia(line)
    ensures Collected(lines + [line], sessionLines + [line], [])
  {
    CutOneMore(lines, line);
  }

  ghost predicate SessionSays(lines: seq<string>, ufrag: Option<string>, pwd: Option<string>) {
    ufrag == LastValue(lines, UFRAG) && pwd == LastValue(lines, PWD)
  }

  lemma SessionSaysMore(lines: seq<string>, line: string, ufrag: Option<string>, pwd: Option<string>)
    requires SessionSays(lines, ufrag, pwd)
    ensures SessionSays(lines + [line], if StartsWith(line, UFRAG) then Some(line[|UFRAG|..]) else ufrag,
                        if StartsWith(line, PWD) then Some(line[|PWD|..]) else pwd)
  {
    LastValueMore(lines, line);
  }

  method InheritCredentials(session: seq<string>, own: seq<Section>, ufrag: Option<string>, pwd: Option<string>)
    returns (sections: seq<Section>)
    requires AllOwn(own)
    requires ufrag == LastValue(session, UFRAG) && pwd == LastValue(session, PWD)
    ensures |sections| == |own|
    ensures forall k :: 0 <= k < |own| ==> own[k].lines != [] && sections[k] == Describe(session, own[k].lines)
  {
    sections := own;
    for i := 0 to |sections|
      invariant |sections| == |own|
      invariant forall k :: i <= k < |own| ==> sections[k] == own[k]
      invariant forall k :: 0 <= k < i ==> sections[k] == Describe(session, own[k].lines)
    {
      var section := sections[i];
      if section.iceUfrag.None? {
        section := section.(iceUfrag := ufrag);
      }
      if section.icePwd.None? {
        section := section.(icePwd := pwd);
      }
      sections := sections[i := section];
    }
  }

  /** A section before it inherits anything. */
  ghost predicate Own(s: Section) {
    && s.lines != [] && s.startLine == s.lines[0] && s.mid == LastValue(s.lines, MID)
    && s.iceUfrag == LastValue(s.lines, UFRAG) && s.icePwd == LastValue(s.lines, PWD)
  }

  lemma LinesOfMore(sections: seq<Section>, s: Section)
    ensures LinesOf(sections + [s]) == LinesOf(sections) + [s.lines]
  {
  }

  lemma LinesOfUpdate(sections: seq<Section>, i: nat, s: Section)
    requires i < |sections|
    ensures LinesOf(sections[i := s]) == LinesOf(sections)[i := s.lines]
  {
  }

  lemma LastValueMore(lines: seq<string>, line: string)
    ensures LastValue(lines + [line], UFRAG) == Or(Value(line, UFRAG), LastValue(lines, UFRAG))
    ensures LastValue(lines + [line], PWD) == Or(Value(line, PWD), LastValue(lines, PWD))
    ensures LastValue(lines + [line], MID) == Or(Value(line, MID), LastValue(lines, MID))
  {
    assert (lines + [line])[..|lines|] == lines;
  }

  function AddLine(s: Section, line: string): Section {
    var t := s.(lines := s.lines + [line]);
    var u := if StartsWith(line, MID) then t.(mid := Some(line[|MID|..])) else t;
    var v := if StartsWith(line, UFRAG) then u.(iceUfrag := Some(line[|UFRAG|..])) else u;
    if StartsWith(line, PWD) then v.(icePwd := Some(line[|PWD|..])) else v
  }

  lemma NewSectionIsOwn(line: string)
    requires IsMedia(line)
    ensures Own(Section(line, [line], None, None, None))
  {
    assert line[0] == 'm';
    assert [line][..0] == [];
  }

  lemma AddLineKeepsOwn(s: Section, line: string)
    requires Own(s)
    ensures Own(AddLine(s, line))
  {
    LastValueMore(s.lines, line);
  }
}
