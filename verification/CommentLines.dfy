/** What taking out comments and empty lines comes to, line by line and character for character. */
module CommentLines {
  import opened Sections
  import opened EmptyLines

  function Lines(s: string): seq<string> {
    LinesFrom(s, 0)
  }

  /** After its indentation, one '#' and then a character that is not one. */
  predicate IsComment(line: string) {
    var j := SpaceRun(line, 0);
    j + 1 < |line| && line[j] == '#' && line[j + 1] != '#'
  }

  /** The first line that is not blank is a comment. */
  predicate CommentNext(lines: seq<string>) {
    lines != [] && if Blank(lines[0]) then CommentNext(lines[1..]) else IsComment(lines[0])
  }

  /** The lines after the first one that is not blank. */
  function AfterNext(lines: seq<string>): (r: seq<string>)
    ensures lines != [] ==> |r| < |lines|
  {
    if lines == [] then [] else if Blank(lines[0]) then AfterNext(lines[1..]) else lines[1..]
  }

  /** A comment line, with the blank lines right before it, leaves one empty line. Every other line stays
      as it is. */
  function CommentFree(lines: seq<string>): (r: seq<string>)
    ensures lines != [] ==> r != []
    decreases |lines|
  {
    if lines == [] then []
    else if CommentNext(lines) then [""] + CommentFree(AfterNext(lines))
    else [lines[0]] + CommentFree(lines[1..])
  }

  lemma {:induction false} SpaceRunInLine(s: string, i: nat, e: nat)
    requires i <= e <= |s| && e <= LineEnd(s, i)
    ensures SpaceRun(s[i..e], 0) == (if SpaceRun(s, i) < e then SpaceRun(s, i) else e) - i
  {
    var j := SpaceRun(s, i);
    var r := if j < e then j else e;
    SpaceRunIs(s, i, j);
    SpaceRunIs(s[i..e], 0, r - i);
  }

  /** The line from i is a comment exactly if the pattern's '#' is on it. */
  lemma CommentOnLine(s: string, i: nat)
    requires i <= |s|
    ensures IsComment(s[i..LineEnd(s, i)]) <==> SpaceRun(s, i) < LineEnd(s, i) && LoneHash(s, SpaceRun(s, i))
  {
    var e, j := LineEnd(s, i), SpaceRun(s, i);
    SpaceRunInLine(s, i, e);
    LineEndIs(s, i, e);
    if j < e && j + 1 < |s| {
      assert s[i..e][j - i] == s[j];
      assert j + 1 < e ==> s[i..e][j - i + 1] == s[j + 1];
    }
  }

  /** The lines after one that ends at e. */
  function LinesAfter(s: string, e: nat): seq<string>
    requires e <= |s|
  {
    if e < |s| then LinesFrom(s, e + 1) else []
  }

  lemma LinesStart(s: string, i: nat)
    requires i <= |s|
    ensures LinesFrom(s, i) == [s[i..LineEnd(s, i)]] + LinesAfter(s, LineEnd(s, i))
  {
  }

  lemma NextCons(line: string, rest: seq<string>)
    ensures CommentNext([line] + rest) <==> if Blank(line) then CommentNext(rest) else IsComment(line)
    ensures AfterNext([line] + rest) == if Blank(line) then AfterNext(rest) else rest
  {
    assert ([line] + rest)[1..] == rest;
  }

  /** The first of these lines that is not blank is a comment exactly if the '#' at j is the pattern's, and
      then the lines after it are those after the match. */
  ghost predicate NextIs(lines: seq<string>, s: string, j: nat) {
    && (CommentNext(lines) <==> LoneHash(s, j))
    && (LoneHash(s, j) ==> AfterNext(lines) == LinesAfter(s, LineEnd(s, j + 2)))
  }

  lemma {:induction false} LineEndLater(s: string, i: nat, k: nat)
    requires i <= k <= |s| && k <= LineEnd(s, i)
    ensures LineEnd(s, k) == LineEnd(s, i)
    decreases k - i
  {
    if i < k {
      LineEndLater(s, i + 1, k);
    }
  }

  lemma NextOnThisLine(s: string, i: nat)
    requires i <= |s| && SpaceRun(s, i) < LineEnd(s, i)
    ensures NextIs(LinesFrom(s, i), s, SpaceRun(s, i))
  {
    var e, j := LineEnd(s, i), SpaceRun(s, i);
    LinesStart(s, i);
    NextCons(s[i..e], LinesAfter(s, e));
    BlankLine(s, i);
    CommentOnLine(s, i);
    if LoneHash(s, j) {
      LineEndLater(s, i, j + 1);
      LineEndLater(s, i, j + 2);
    }
  }

  lemma NextOnLaterLine(lines: seq<string>, rest: seq<string>, s: string, j: nat)
    requires CommentNext(lines) == CommentNext(rest) && AfterNext(lines) == AfterNext(rest) && NextIs(rest, s, j)
    ensures NextIs(lines, s, j)
  {
  }

  lemma SameNext(s: string, i: nat, e: nat)
    requires i <= e < |s| && LineEnd(s, i) == e && SpaceRun(s, i) >= e
    ensures CommentNext(LinesFrom(s, i)) == CommentNext(LinesFrom(s, e + 1))
    ensures AfterNext(LinesFrom(s, i)) == AfterNext(LinesFrom(s, e + 1))
  {
    LinesStart(s, i);
    NextCons(s[i..e], LinesAfter(s, e));
    BlankLine(s, i);
  }

  lemma NothingNext(s: string, i: nat)
    requires i <= |s| && LineEnd(s, i) == |s| && SpaceRun(s, i) >= |s|
    ensures NextIs(LinesFrom(s, i), s, SpaceRun(s, i))
  {
    LinesStart(s, i);
    NextCons(s[i..|s|], []);
    BlankLine(s, i);
  }

  lemma {:induction false} NextMatches(s: string, i: nat)
    requires i <= |s|
    ensures NextIs(LinesFrom(s, i), s, SpaceRun(s, i))
    decreases |s| - i
  {
    var e := LineEnd(s, i);
    if SpaceRun(s, i) < e {
      NextOnThisLine(s, i);
    } else if e < |s| {
      NextMatches(s, e + 1);
      RunCrossesLine(s, i);
      SameNext(s, i, e);
      NextOnLaterLine(LinesFrom(s, i), LinesFrom(s, e + 1), s, SpaceRun(s, i));
    } else {
      NothingNext(s, i);
    }
  }

  /** What comes after a line that ends at e and is copied. */
  function RestOfText(s: string, e: nat): string
    requires e <= |s|
  {
    if e < |s| then ['\n'] + StripComments(s, e + 1) else ""
  }

  lemma CopyCharacter(s: string, k: nat, e: nat, rest: string)
    requires k < e <= |s| && MatchComment(s, k) == NoMatch && StripComments(s, k + 1) == s[k + 1..e] + rest
    ensures StripComments(s, k) == s[k..e] + rest
  {
    assert s[k..e] == [s[k]] + s[k + 1..e];
    assert StripComments(s, k) == [s[k]] + (s[k + 1..e] + rest);
  }

  /** The rest of a line is copied, and so is the newline after it. */
  lemma {:induction false} CopyRest(s: string, k: nat)
    requires k <= |s| && !LineStart(s, k)
    ensures StripComments(s, k) == s[k..LineEnd(s, k)] + RestOfText(s, LineEnd(s, k))
    decreases |s| - k
  {
    var e := LineEnd(s, k);
    if k < e {
      CopyRest(s, k + 1);
      CopyCharacter(s, k, e, RestOfText(s, e));
    } else {
      assert s[k..e] == "";
    }
  }

  lemma CopyWholeLine(s: string, i: nat)
    requires i < |s| && MatchComment(s, i) == NoMatch
    ensures StripComments(s, i) == s[i..LineEnd(s, i)] + RestOfText(s, LineEnd(s, i))
  {
    var e := LineEnd(s, i);
    if i < e {
      CopyRest(s, i + 1);
      CopyCharacter(s, i, e, RestOfText(s, e));
    } else {
      assert s[i..e] == "";
    }
  }

  /** From the line that ends at e on, taking out comments frees the lines of comments. */
  ghost predicate FreedAfter(s: string, e: nat)
    requires e <= |s|
  {
    e < |s| ==> StripComments(s, e + 1) == JoinLines(CommentFree(LinesFrom(s, e + 1)))
  }

  lemma JoinAgain(line: string, s: string, e: nat)
    requires e <= |s| && FreedAfter(s, e)
    ensures line + RestOfText(s, e) == JoinLines([line] + CommentFree(LinesAfter(s, e)))
  {
    if e < |s| {
      JoinCons(line, CommentFree(LinesFrom(s, e + 1)));
    } else {
      assert [line] + CommentFree([]) == [line];
    }
  }

  lemma FreedAtComment(s: string, i: nat, end: nat)
    requires i < |s| && LineStart(s, i) && LoneHash(s, SpaceRun(s, i)) && end == LineEnd(s, SpaceRun(s, i) + 2)
    requires FreedAfter(s, end)
    ensures StripComments(s, i) == JoinLines(CommentFree(LinesFrom(s, i)))
  {
    NextMatches(s, i);
    FreeOfComment(LinesFrom(s, i));
    EndOfComment(s, SpaceRun(s, i));
    assert StripComments(s, i) == StripComments(s, end);
    CopyAtEnd(s, end);
    JoinAgain("", s, end);
  }

  lemma FreeOfComment(lines: seq<string>)
    requires CommentNext(lines)
    ensures CommentFree(lines) == [""] + CommentFree(AfterNext(lines))
  {
  }

  lemma EndOfComment(s: string, j: nat)
    requires LoneHash(s, j)
    ensures var end := LineEnd(s, j + 2); !LineStart(s, end) && LineEnd(s, end) == end
  {
    var end := LineEnd(s, j + 2);
    LineEndIs(s, j + 2, end);
    LineEndLater(s, j + 2, end);
  }

  lemma CopyAtEnd(s: string, e: nat)
    requires e <= |s| && !LineStart(s, e) && LineEnd(s, e) == e
    ensures StripComments(s, e) == "" + RestOfText(s, e)
  {
    CopyRest(s, e);
    assert s[e..e] == "";
  }

  lemma FreedAtLine(s: string, i: nat)
    requires i < |s| && MatchComment(s, i) == NoMatch && !LoneHash(s, SpaceRun(s, i)) && FreedAfter(s, LineEnd(s, i))
    ensures StripComments(s, i) == JoinLines(CommentFree(LinesFrom(s, i)))
  {
    NextMatches(s, i);
    CopyWholeLine(s, i);
    JoinAgain(s[i..LineEnd(s, i)], s, LineEnd(s, i));
    FreeOfLine(s, i);
  }

  lemma FreeOfLine(s: string, i: nat)
    requires i <= |s| && !CommentNext(LinesFrom(s, i))
    ensures CommentFree(LinesFrom(s, i)) == [s[i..LineEnd(s, i)]] + CommentFree(LinesAfter(s, LineEnd(s, i)))
  {
    LinesStart(s, i);
    assert LinesFrom(s, i)[1..] == LinesAfter(s, LineEnd(s, i));
  }

  lemma FreedAtEnd(s: string)
    ensures StripComments(s, |s|) == JoinLines(CommentFree(LinesFrom(s, |s|)))
  {
    NextMatches(s, |s|);
    FreeOfLine(s, |s|);
    JoinAgain("", s, |s|);
    assert s[|s|..LineEnd(s, |s|)] == "";
  }

  ghost predicate FreedFrom(s: string, i: nat)
    requires i <= |s|
  {
    StripComments(s, i) == JoinLines(CommentFree(LinesFrom(s, i)))
  }

  lemma {:induction false} Freed(s: string, i: nat)
    requires i <= |s| && LineStart(s, i) && !BareHashFrom(s, i)
    ensures FreedFrom(s, i)
    decreases |s| - i
  {
    if i == |s| {
      FreedAtEnd(s);
    } else {
      var e := EndOfStep(s, i);
      if e < |s| {
        NoneLater(s, i, e + 1);
        Freed(s, e + 1);
      }
      NoneHere(s, i);
      FreedStep(s, i);
    }
  }

  lemma NoneLater(s: string, i: nat, k: nat)
    requires !BareHashFrom(s, i) && i <= k
    ensures !BareHashFrom(s, k)
  {
  }

  lemma NoneHere(s: string, i: nat)
    requires !BareHashFrom(s, i)
    ensures !BareHash(s, i)
  {
  }

  /** Where the line or the match from i ends. */
  function EndOfStep(s: string, i: nat): (e: nat)
    requires i < |s|
    ensures i <= e <= |s| && (e < |s| ==> s[e] == '\n')
  {
    if MatchComment(s, i).Match? then MatchComment(s, i).end else LineEnd(s, i)
  }

  lemma FreedStep(s: string, i: nat)
    requires i < |s| && LineStart(s, i) && !BareHash(s, i) && FreedAfter(s, EndOfStep(s, i))
    ensures FreedFrom(s, i)
  {
    if MatchComment(s, i).Match? {
      FreedAtComment(s, i, EndOfStep(s, i));
    } else {
      FreedAtLine(s, i);
    }
  }

  /** The lines that are not blank. */
  function Inky(lines: seq<string>): seq<string> {
    if lines == [] then [] else (if Blank(lines[0]) then [] else [lines[0]]) + Inky(lines[1..])
  }

  /** The lines that are neither blank nor comments. */
  function Kept(lines: seq<string>): seq<string> {
    if lines == [] then []
    else (if Blank(lines[0]) || IsComment(lines[0]) then [] else [lines[0]]) + Kept(lines[1..])
  }

  lemma InkyCons(line: string, rest: seq<string>)
    ensures Inky([line] + rest) == (if Blank(line) then [] else [line]) + Inky(rest)
  {
    assert ([line] + rest)[1..] == rest;
  }

  lemma {:induction false} KeptAfterComment(lines: seq<string>)
    requires CommentNext(lines)
    ensures Kept(lines) == Kept(AfterNext(lines))
    decreases |lines|
  {
    if Blank(lines[0]) {
      KeptAfterComment(lines[1..]);
    }
  }

  /** Freeing the lines of comments leaves the lines to be kept, in order, and blank ones. */
  lemma {:induction false} InkyFreed(lines: seq<string>)
    ensures Inky(CommentFree(lines)) == Kept(lines)
    decreases |lines|
  {
    if lines != [] {
      if CommentNext(lines) {
        InkyFreed(AfterNext(lines));
        KeptAfterComment(lines);
        InkyCons("", CommentFree(AfterNext(lines)));
      } else {
        InkyFreed(lines[1..]);
        InkyCons(lines[0], CommentFree(lines[1..]));
      }
    }
  }

  lemma {:induction false} InkyOfBlank(lines: seq<string>)
    requires AllBlank(lines)
    ensures Inky(lines) == []
  {
    if lines != [] {
      assert lines == [lines[0]] + lines[1..];
      AllBlankCons(lines[0], lines[1..]);
      InkyOfBlank(lines[1..]);
    }
  }

  /** Squeezing takes out blank lines only. */
  lemma {:induction false} InkySqueezed(lines: seq<string>)
    requires lines != []
    ensures Inky(Squeezed(lines)) == Inky(lines)
    decreases |lines|
  {
    var line, rest := lines[0], lines[1..];
    assert lines == [line] + rest;
    InkyCons(line, rest);
    if AllBlank(lines) {
      InkyOfBlank(lines);
      InkyCons("", []);
      assert [""] + [] == [""];
    } else if |lines| > 1 {
      AllBlankCons(line, rest);
      SqueezedCons(line, rest);
      InkySqueezed(rest);
      InkyCons(line, Squeezed(rest));
      InkyCons("", Squeezed(rest));
    }
  }

  predicate NoNewline(lines: seq<string>) {
    forall i :: 0 <= i < |lines| ==> '\n' !in lines[i]
  }

  lemma NoNewlineCons(line: string, rest: seq<string>)
    ensures NoNewline([line] + rest) <==> '\n' !in line && NoNewline(rest)
  {
    assert forall i :: 0 <= i < |rest| ==> ([line] + rest)[i + 1] == rest[i];
    assert ([line] + rest)[0] == line;
    if '\n' !in line && NoNewline(rest) {
      forall i | 0 <= i < |[line] + rest| ensures '\n' !in ([line] + rest)[i] {
        assert i > 0 ==> ([line] + rest)[i] == rest[i - 1];
      }
    }
  }

  /** r is what s says from n on. */
  ghost predicate Suffix(s: string, n: nat, r: string) {
    |s| == n + |r| && forall k :: 0 <= k < |r| ==> s[n + k] == r[k]
  }

  lemma {:induction false} LineEndOfSuffix(s: string, n: nat, r: string, i: nat)
    requires Suffix(s, n, r) && i <= |r|
    ensures LineEnd(s, n + i) == n + LineEnd(r, i)
    decreases |r| - i
  {
    if i < |r| && r[i] != '\n' {
      LineEndOfSuffix(s, n, r, i + 1);
    }
  }

  lemma SameLine(s: string, n: nat, r: string, i: nat, e: nat)
    requires Suffix(s, n, r) && i <= e <= |r|
    ensures s[n + i..n + e] == r[i..e]
  {
    forall k | 0 <= k < e - i ensures s[n + i..n + e][k] == r[i..e][k] {
      assert s[n + (i + k)] == r[i + k];
    }
  }

  lemma FirstLineOfSuffix(s: string, n: nat, r: string, i: nat, e: nat)
    requires Suffix(s, n, r) && i <= |r| && e == LineEnd(r, i)
    ensures LinesFrom(s, n + i) == [r[i..e]] + LinesAfter(s, n + e)
  {
    LineEndOfSuffix(s, n, r, i);
    SameLine(s, n, r, i, e);
    LinesStart(s, n + i);
  }

  /** From i on, r has the lines that s has n characters later. */
  ghost predicate SameLines(s: string, n: nat, r: string, i: nat)
    requires |s| == n + |r| && i <= |r|
  {
    LinesFrom(s, n + i) == LinesFrom(r, i)
  }

  lemma SameLinesStep(s: string, n: nat, r: string, i: nat, e: nat)
    requires |s| == n + |r| && i <= e <= |r| && e == LineEnd(r, i)
    requires LinesFrom(s, n + i) == [r[i..e]] + LinesAfter(s, n + e)
    requires e < |r| ==> SameLines(s, n, r, e + 1)
    ensures SameLines(s, n, r, i)
  {
    assert LinesAfter(s, n + e) == LinesAfter(r, e);
    LinesStart(r, i);
  }

  /** Lines do not depend on what comes before them. */
  lemma {:induction false} LinesOfSuffix(s: string, n: nat, r: string, i: nat)
    requires Suffix(s, n, r) && i <= |r|
    ensures SameLines(s, n, r, i)
    decreases |r| - i
  {
    var e := LineEnd(r, i);
    if e < |r| {
      LinesOfSuffix(s, n, r, e + 1);
    }
    FirstLineOfSuffix(s, n, r, i, e);
    SameLinesStep(s, n, r, i, e);
  }

  lemma LineEndOfLine(line: string, rest: string)
    requires '\n' !in line
    ensures LineEnd(line, 0) == |line| && LineEnd(line + ['\n'] + rest, 0) == |line|
  {
    var s := line + ['\n'] + rest;
    LineEndIs(line, 0, |line|);
    LineEndIs(s, 0, |line|);
    assert forall k :: 0 <= k < |line| ==> s[k] == line[k];
  }

  /** Lines that are joined come apart again. */
  lemma {:induction false} LinesOfJoin(lines: seq<string>)
    requires lines != [] && NoNewline(lines)
    ensures Lines(JoinLines(lines)) == lines
    decreases |lines|
  {
    var line, rest := lines[0], lines[1..];
    assert lines == [line] + rest;
    NoNewlineCons(line, rest);
    if rest == [] {
      LineEndOfLine(line, "");
      LinesStart(line, 0);
      assert line[0..|line|] == line;
    } else {
      var tail := JoinLines(rest);
      LinesOfJoin(rest);
      JoinCons(line, rest);
      LineEndOfLine(line, tail);
      var s := line + ['\n'] + tail;
      assert Suffix(s, |line| + 1, tail);
      LinesOfSuffix(s, |line| + 1, tail, 0);
      LinesStart(s, 0);
      assert s[0..|line|] == line;
    }
  }

  lemma {:induction false} LinesHaveNoNewline(s: string, i: nat)
    requires i <= |s|
    ensures NoNewline(LinesFrom(s, i))
    decreases |s| - i
  {
    var e := LineEnd(s, i);
    LineEndIs(s, i, e);
    LinesStart(s, i);
    NoNewlineCons(s[i..e], LinesAfter(s, e));
    if e < |s| {
      LinesHaveNoNewline(s, e + 1);
    }
  }

  lemma {:induction false} NextHasNoNewline(lines: seq<string>)
    requires NoNewline(lines)
    ensures NoNewline(AfterNext(lines))
    decreases |lines|
  {
    if lines != [] && Blank(lines[0]) {
      NextHasNoNewline(lines[1..]);
    }
  }

  lemma {:induction false} FreedHasNoNewline(lines: seq<string>)
    requires NoNewline(lines)
    ensures NoNewline(CommentFree(lines))
    decreases |lines|
  {
    if lines != [] {
      if CommentNext(lines) {
        NextHasNoNewline(lines);
        FreedHasNoNewline(AfterNext(lines));
        NoNewlineCons("", CommentFree(AfterNext(lines)));
      } else {
        FreedHasNoNewline(lines[1..]);
        NoNewlineCons(lines[0], CommentFree(lines[1..]));
      }
    }
  }

  lemma {:induction false} SqueezedHasNoNewline(lines: seq<string>)
    requires lines != [] && NoNewline(lines)
    ensures NoNewline(Squeezed(lines))
    decreases |lines|
  {
    var line, rest := lines[0], lines[1..];
    assert lines == [line] + rest;
    AllBlankCons(line, rest);
    if !AllBlank(lines) && |lines| > 1 {
      SqueezedCons(line, rest);
      SqueezedHasNoNewline(rest);
      NoNewlineCons(line, Squeezed(rest));
      NoNewlineCons("", Squeezed(rest));
    }
  }

  /** Where no line but the last is a bare '#', what is left of a text is, character for character: its
      lines, with each comment and the blank lines before it made one empty line, and these squeezed. */
  lemma RemoveIsLineByLine(text: string)
    requires forall l: nat :: !BareHash(text, l)
    ensures RemoveCommentsAndEmptyLines(text) == JoinLines(Squeezed(CommentFree(Lines(text))))
    ensures Lines(RemoveCommentsAndEmptyLines(text)) == Squeezed(CommentFree(Lines(text)))
  {
    var freed := CommentFree(Lines(text));
    Freed(text, 0);
    StripIsSqueeze(StripComments(text, 0), 0);
    LinesHaveNoNewline(text, 0);
    FreedHasNoNewline(Lines(text));
    LinesOfJoin(freed);
    SqueezedHasNoNewline(freed);
    LinesOfJoin(Squeezed(freed));
  }

  /** Everything but whitespace of these lines. */
  function InkOf(lines: seq<string>): string {
    if lines == [] then "" else Ink(lines[0]) + InkOf(lines[1..])
  }

  lemma InkOfCons(line: string, rest: seq<string>)
    ensures InkOf([line] + rest) == Ink(line) + InkOf(rest)
  {
    assert ([line] + rest)[1..] == rest;
  }

  lemma {:induction false} InkOfInky(lines: seq<string>)
    ensures InkOf(Inky(lines)) == InkOf(lines)
  {
    if lines != [] {
      InkOfInky(lines[1..]);
      if Blank(lines[0]) {
        InkOfSpace(lines[0]);
        assert Inky(lines) == Inky(lines[1..]);
      } else {
        InkOfCons(lines[0], Inky(lines[1..]));
      }
    }
  }

  ghost predicate SameInk(s: string, i: nat)
    requires i <= |s|
  {
    InkOf(LinesFrom(s, i)) == Ink(s[i..])
  }

  lemma InkOfCut(s: string, i: nat, e: nat)
    requires i <= e <= |s|
    ensures Ink(s[i..]) == Ink(s[i..e]) + Ink(s[e..])
  {
    InkConcat(s[i..e], s[e..]);
    CutAt(s, i, e);
  }

  lemma InkAfterNewline(s: string, e: nat)
    requires e < |s| && s[e] == '\n'
    ensures Ink(s[e..]) == Ink(s[e + 1..])
  {
    assert s[e..][0] == s[e] && s[e..][1..] == s[e + 1..];
  }

  lemma SameInkStep(s: string, i: nat)
    requires i <= |s| && (LineEnd(s, i) < |s| ==> SameInk(s, LineEnd(s, i) + 1))
    ensures SameInk(s, i)
  {
    var e := LineEnd(s, i);
    LinesStart(s, i);
    InkOfCons(s[i..e], LinesAfter(s, e));
    InkOfCut(s, i, e);
    if e < |s| {
      InkAfterNewline(s, e);
    }
  }

  lemma {:induction false} InkOfLines(s: string, i: nat)
    requires i <= |s|
    ensures SameInk(s, i)
    decreases |s| - i
  {
    if LineEnd(s, i) < |s| {
      InkOfLines(s, LineEnd(s, i) + 1);
    }
    SameInkStep(s, i);
  }

  lemma KeptCons(line: string, rest: seq<string>)
    ensures Kept([line] + rest) == (if Blank(line) || IsComment(line) then [] else [line]) + Kept(rest)
  {
    assert ([line] + rest)[1..] == rest;
  }

  lemma InkOfCharacter(s: string, i: nat, e: nat, rest: string)
    requires i < e <= |s| && !InCommentLine(s, i) && KeptInk(s, i + 1) == Ink(s[i + 1..e]) + rest
    ensures KeptInk(s, i) == Ink(s[i..e]) + rest
  {
    InkConcat([s[i]], s[i + 1..e]);
    assert s[i..e] == [s[i]] + s[i + 1..e];
    assert Ink([s[i]]) == if IsSpace(s[i]) then "" else [s[i]];
    assert KeptInk(s, i) == Ink([s[i]]) + (Ink(s[i + 1..e]) + rest);
  }

  lemma {:induction false} InkOutsideComment(s: string, i: nat, e: nat)
    requires i <= e <= |s| && e == LineEnd(s, i) && !InCommentLine(s, i)
    ensures KeptInk(s, i) == Ink(s[i..e]) + KeptInk(s, e)
    decreases e - i
  {
    if i < e {
      assert !InCommentLine(s, i + 1);
      InkOutsideComment(s, i + 1, e);
      InkOfCharacter(s, i, e, KeptInk(s, e));
    } else {
      assert s[i..e] == "";
    }
  }

  lemma InkOfKeptLine(s: string, i: nat)
    requires i <= |s| && LineStart(s, i)
    ensures var e := LineEnd(s, i);
            KeptInk(s, i) == (if IsComment(s[i..e]) then "" else Ink(s[i..e])) + KeptInk(s, e)
  {
    CommentOnLine(s, i);
    if InCommentLine(s, i) {
      NothingKeptOfComment(s, i);
    } else {
      InkOutsideComment(s, i, LineEnd(s, i));
    }
  }

  ghost predicate SameKeptInk(s: string, i: nat)
    requires i <= |s|
  {
    KeptInk(s, i) == InkOf(Kept(LinesFrom(s, i)))
  }

  lemma InkOfKeptLines(line: string, rest: seq<string>)
    ensures InkOf(Kept([line] + rest)) == (if IsComment(line) then "" else Ink(line)) + InkOf(Kept(rest))
  {
    KeptCons(line, rest);
    InkOfSpace(line);
    if !Blank(line) && !IsComment(line) {
      InkOfCons(line, Kept(rest));
    } else {
      assert Kept([line] + rest) == Kept(rest);
    }
  }

  lemma SameKeptInkStep(s: string, i: nat)
    requires i <= |s| && LineStart(s, i) && (LineEnd(s, i) < |s| ==> SameKeptInk(s, LineEnd(s, i) + 1))
    ensures SameKeptInk(s, i)
  {
    var e := LineEnd(s, i);
    var line, rest := s[i..e], LinesAfter(s, e);
    var left := if IsComment(line) then "" else Ink(line);
    LinesStart(s, i);
    InkOfKeptLines(line, rest);
    assert InkOf(Kept(LinesFrom(s, i))) == left + InkOf(Kept(rest));
    InkOfKeptLine(s, i);
    KeptInkAtEnd(s, e);
    assert KeptInk(s, i) == left + KeptInk(s, e);
  }

  lemma KeptInkAtEnd(s: string, e: nat)
    requires e <= |s| && (e < |s| ==> s[e] == '\n')
    ensures KeptInk(s, e) == if e < |s| then KeptInk(s, e + 1) else ""
  {
  }

  lemma {:induction false} InkOfKept(s: string, i: nat)
    requires i <= |s| && LineStart(s, i)
    ensures SameKeptInk(s, i)
    decreases |s| - i
  {
    if LineEnd(s, i) < |s| {
      InkOfKept(s, LineEnd(s, i) + 1);
    }
    SameKeptInkStep(s, i);
  }

  /** The lines that are left and not blank are, in order and character for character, the lines of the text
      that are neither blank nor comments, if and only if no line but the last is a bare '#'. */
  lemma KeptLinesIff(text: string)
    ensures Inky(Lines(RemoveCommentsAndEmptyLines(text))) == Kept(Lines(text)) <==> forall l: nat :: !BareHash(text, l)
  {
    var r := RemoveCommentsAndEmptyLines(text);
    if forall l: nat :: !BareHash(text, l) {
      RemoveIsLineByLine(text);
      InkySqueezed(CommentFree(Lines(text)));
      InkyFreed(Lines(text));
    }
    if Inky(Lines(r)) == Kept(Lines(text)) {
      InkOfInky(Lines(r));
      InkOfLines(r, 0);
      InkOfKept(text, 0);
      assert r[0..] == r;
      KeepsWhatIsNotComment(text);
    }
  }

  /** What counts as whitespace: only a tab, a newline, a form feed, a carriage return or a space is taken
      out when it stands alone. */
  lemma WhitespaceIs(c: char)
    ensures RemoveCommentsAndEmptyLines([c]) == "" <==> c == '\t' || c == '\n' || c == '\U{0C}' || c == '\r' || c == ' '
  {
    var s := [c];
    assert SpaceRun(s, 0) == if IsSpace(c) then 1 else 0;
    assert StripComments(s, 0) == s by {
      assert StripComments(s, 0) == [s[0]] + StripComments(s, 1);
    }
    DroppedIffOnlyComments(s);
    assert AllSpace(s) <==> IsSpace(s[0]);
  }

  /** Taking out comments leaves a text without '#' as it is. */
  lemma {:induction false} NoHashUnchanged(s: string, i: nat)
    requires i <= |s| && '#' !in s
    ensures StripComments(s, i) == s[i..]
    decreases |s| - i
  {
    if i < |s| {
      NoHashUnchanged(s, i + 1);
      assert s[i..] == [s[i]] + s[i + 1..];
    }
  }
}
