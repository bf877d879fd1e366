/** What taking out empty lines comes to, line by line. A run of whitespace may cross lines, but has to
    end where a line ends, so of the blank lines before a line that is not blank one always stays. */
module EmptyLines {
  import opened Sections

  predicate Blank(line: string) {
    AllSpace(line)
  }

  /** The lines of the text from i on, without their newlines; after a last newline, an empty one. */
  function LinesFrom(s: string, i: nat): (lines: seq<string>)
    requires i <= |s|
    ensures lines != []
    decreases |s| - i
  {
    var e := LineEnd(s, i);
    [s[i..e]] + if e < |s| then LinesFrom(s, e + 1) else []
  }

  function JoinLines(lines: seq<string>): string
    requires lines != []
  {
    if |lines| == 1 then lines[0] else lines[0] + ['\n'] + JoinLines(lines[1..])
  }

  ghost predicate AllBlank(lines: seq<string>) {
    forall i :: 0 <= i < |lines| ==> Blank(lines[i])
  }

  /** Blank lines at the end go. Of other blank lines in a row one stays, and it is made empty. */
  ghost function Squeezed(lines: seq<string>): (r: seq<string>)
    requires lines != []
    ensures r != []
  {
    if AllBlank(lines) then [""]
    else if |lines| == 1 then lines
    else if !Blank(lines[0]) then [lines[0]] + Squeezed(lines[1..])
    else if Blank(lines[1]) then Squeezed(lines[1..])
    else [""] + Squeezed(lines[1..])
  }

  /** A line is blank exactly if the whitespace from its start reaches its end. */
  lemma BlankLine(s: string, i: nat)
    requires i <= |s|
    ensures Blank(s[i..LineEnd(s, i)]) <==> SpaceRun(s, i) >= LineEnd(s, i)
  {
    var e, j := LineEnd(s, i), SpaceRun(s, i);
    SpaceRunIs(s, i, j);
    if j < e {
      assert s[i..e][j - i] == s[j];
    }
  }

  lemma {:induction false} RunCrossesLine(s: string, i: nat)
    requires i <= |s| && SpaceRun(s, i) >= LineEnd(s, i) && LineEnd(s, i) < |s|
    ensures SpaceRun(s, i) == SpaceRun(s, LineEnd(s, i) + 1)
    decreases |s| - i
  {
    if s[i] != '\n' {
      RunCrossesLine(s, i + 1);
    }
  }

  lemma JoinCons(line: string, rest: seq<string>)
    requires rest != []
    ensures JoinLines([line] + rest) == line + ['\n'] + JoinLines(rest)
  {
    assert ([line] + rest)[1..] == rest;
  }

  lemma CutAtNewline(s: string, i: nat, e: nat)
    requires i <= e < |s| && s[e] == '\n'
    ensures s[i..] == s[i..e] + ['\n'] + s[e + 1..]
  {
  }

  ghost predicate JoinsBack(s: string, i: nat)
    requires i <= |s|
  {
    JoinLines(LinesFrom(s, i)) == s[i..]
  }

  lemma JoinLastLine(s: string, i: nat)
    requires i <= |s| && LineEnd(s, i) == |s|
    ensures JoinsBack(s, i)
  {
    assert s[i..|s|] == s[i..];
    assert LinesFrom(s, i) == [s[i..]];
  }

  lemma JoinOneMoreLine(s: string, i: nat, e: nat)
    requires i <= e < |s| && LineEnd(s, i) == e && JoinsBack(s, e + 1)
    ensures JoinsBack(s, i)
  {
    LinesCons(s, i);
    JoinCons(s[i..e], LinesFrom(s, e + 1));
    CutAtNewline(s, i, e);
  }

  /** Joining the lines gives back the text. */
  lemma {:induction false} JoinOfLines(s: string, i: nat)
    requires i <= |s|
    ensures JoinsBack(s, i)
    decreases |s| - i
  {
    var e := LineEnd(s, i);
    if e == |s| {
      JoinLastLine(s, i);
    } else {
      JoinOfLines(s, e + 1);
      JoinOneMoreLine(s, i, e);
    }
  }

  lemma AllBlankCons(line: string, rest: seq<string>)
    ensures AllBlank([line] + rest) <==> Blank(line) && AllBlank(rest)
  {
    var lines := [line] + rest;
    assert lines[0] == line && forall i :: 0 <= i < |rest| ==> lines[i + 1] == rest[i];
    if Blank(line) && AllBlank(rest) {
      forall i | 0 <= i < |lines| ensures Blank(lines[i]) {
        assert i > 0 ==> lines[i] == rest[i - 1];
      }
    }
  }

  lemma LinesCons(s: string, i: nat)
    requires i <= |s| && LineEnd(s, i) < |s|
    ensures LinesFrom(s, i) == [s[i..LineEnd(s, i)]] + LinesFrom(s, LineEnd(s, i) + 1)
    ensures LinesFrom(s, LineEnd(s, i) + 1)[0] == s[LineEnd(s, i) + 1..LineEnd(s, LineEnd(s, i) + 1)]
  {
  }

  lemma {:induction false} AllBlankFrom(s: string, i: nat)
    requires i <= |s|
    ensures AllBlank(LinesFrom(s, i)) <==> SpaceRun(s, i) == |s|
    decreases |s| - i
  {
    var e := LineEnd(s, i);
    BlankLine(s, i);
    if e < |s| {
      AllBlankFrom(s, e + 1);
      LinesCons(s, i);
      AllBlankCons(s[i..e], LinesFrom(s, e + 1));
      if SpaceRun(s, i) >= e {
        RunCrossesLine(s, i);
      }
    } else {
      AllBlankCons(s[i..e], []);
      assert LinesFrom(s, i) == [s[i..e]] + [];
    }
  }

  /** What comes after a line that ends at e and is copied. */
  function AfterLine(s: string, e: nat): string
    requires e <= |s|
  {
    if e < |s| then ['\n'] + StripBlank(s, e + 1) else ""
  }

  lemma CopyOne(s: string, k: nat, e: nat, rest: string)
    requires k < e <= |s| && MatchBlank(s, k) == NoMatch && StripBlank(s, k + 1) == s[k + 1..e] + rest
    ensures StripBlank(s, k) == s[k..e] + rest
  {
    assert s[k..e] == [s[k]] + s[k + 1..e];
    assert StripBlank(s, k) == [s[k]] + (s[k + 1..e] + rest);
  }

  /** The rest of a line is copied, and so is the newline after it. */
  lemma {:induction false} CopyLine(s: string, k: nat)
    requires k <= |s| && !LineStart(s, k)
    ensures StripBlank(s, k) == s[k..LineEnd(s, k)] + AfterLine(s, LineEnd(s, k))
    decreases |s| - k
  {
    var e := LineEnd(s, k);
    if k < e {
      CopyLine(s, k + 1);
      CopyOne(s, k, e, AfterLine(s, e));
    } else {
      assert s[k..e] == "";
    }
  }

  lemma {:induction false} LastNewlineIs(s: string, i: nat, j: nat, q: nat)
    requires i <= q < j <= |s| && s[q] == '\n'
    requires forall k :: q < k < j ==> s[k] != '\n'
    ensures LastNewline(s, i, j) == q
    decreases j
  {
    if q < j - 1 {
      LastNewlineIs(s, i, j - 1, q);
    }
  }

  lemma {:induction false} LastNewlineSame(s: string, i: nat, i': nat, j: nat)
    requires i <= i' <= j <= |s| && LastNewline(s, i', j) < j
    ensures LastNewline(s, i, j) == LastNewline(s, i', j)
    decreases j
  {
    if s[j - 1] != '\n' {
      LastNewlineSame(s, i, i', j - 1);
    }
  }

  lemma {:induction false} LineEndIsFirstNewline(s: string, i: nat, j: nat)
    requires i <= j <= |s|
    ensures LastNewline(s, i, j) == j <==> j <= LineEnd(s, i)
    decreases j - i
  {
    LineEndIs(s, i, LineEnd(s, i));
    if i < j {
      LineEndIsFirstNewline(s, i, j - 1);
    }
  }

  /** A line that is not blank is copied. */
  lemma KeepLine(s: string, i: nat)
    requires i < |s| && LineStart(s, i) && SpaceRun(s, i) < LineEnd(s, i)
    ensures StripBlank(s, i) == s[i..LineEnd(s, i)] + AfterLine(s, LineEnd(s, i))
  {
    var e := LineEnd(s, i);
    LineEndIsFirstNewline(s, i, SpaceRun(s, i));
    CopyLine(s, i + 1);
    CopyOne(s, i, e, AfterLine(s, e));
  }

  /** A blank line ends at e, and a line that is not blank is to follow, at once or later. */
  ghost predicate BlankAndMore(s: string, i: nat, e: nat) {
    i <= e < |s| && LineStart(s, i) && LineEnd(s, i) == e && e <= SpaceRun(s, i) < |s|
  }

  lemma SameMatch(s: string, i: nat, e: nat)
    requires BlankAndMore(s, i, e) && SpaceRun(s, e + 1) >= LineEnd(s, e + 1)
    ensures MatchBlank(s, i).Match? && MatchBlank(s, i) == MatchBlank(s, e + 1)
  {
    var j := SpaceRun(s, i);
    RunCrossesLine(s, i);
    LineEndIsFirstNewline(s, e + 1, j);
    LastNewlineSame(s, i, e + 1, j);
  }

  /** A blank line before another one goes, if a line that is not blank is to follow. */
  lemma DropLine(s: string, i: nat, e: nat)
    requires BlankAndMore(s, i, e) && SpaceRun(s, e + 1) >= LineEnd(s, e + 1)
    ensures StripBlank(s, i) == StripBlank(s, e + 1)
  {
    SameMatch(s, i, e);
    var q := MatchBlank(s, i).end;
    assert StripBlank(s, i) == StripBlank(s, q);
    assert q > e + 1 ==> StripBlank(s, e + 1) == StripBlank(s, q);
  }

  lemma BlankMatch(s: string, i: nat, e: nat)
    requires BlankAndMore(s, i, e) && SpaceRun(s, e + 1) < LineEnd(s, e + 1)
    ensures MatchBlank(s, i) == Match(e)
  {
    RunCrossesLine(s, i);
    LineEndIs(s, e + 1, LineEnd(s, e + 1));
    LastNewlineIs(s, i, SpaceRun(s, i), e);
  }

  /** A blank line before one that is not blank leaves its newline. */
  lemma EmptyLine(s: string, i: nat, e: nat)
    requires BlankAndMore(s, i, e) && SpaceRun(s, e + 1) < LineEnd(s, e + 1)
    ensures StripBlank(s, i) == ['\n'] + StripBlank(s, e + 1)
  {
    BlankMatch(s, i, e);
    if i < e {
      LineEndIs(s, i, e);
      assert !LineStart(s, e);
    }
  }

  lemma SqueezedCons(line: string, rest: seq<string>)
    requires rest != [] && !(Blank(line) && AllBlank(rest))
    ensures Squeezed([line] + rest)
      == if !Blank(line) then [line] + Squeezed(rest) else if Blank(rest[0]) then Squeezed(rest)
          else [""] + Squeezed(rest)
  {
    AllBlankCons(line, rest);
    assert ([line] + rest)[1..] == rest;
  }

  lemma SqueezeBlank(s: string, i: nat, e: nat, rest: seq<string>)
    requires BlankAndMore(s, i, e) && rest != [] && (Blank(rest[0]) <==> SpaceRun(s, e + 1) >= LineEnd(s, e + 1))
    requires StripBlank(s, e + 1) == JoinLines(Squeezed(rest))
    ensures StripBlank(s, i) == JoinLines(if Blank(rest[0]) then Squeezed(rest) else [""] + Squeezed(rest))
  {
    if Blank(rest[0]) {
      DropLine(s, i, e);
    } else {
      EmptyLine(s, i, e);
      JoinCons("", Squeezed(rest));
    }
  }

  lemma SqueezeText(s: string, i: nat, e: nat, rest: seq<string>)
    requires i <= e < |s| && LineStart(s, i) && LineEnd(s, i) == e && SpaceRun(s, i) < e && rest != []
    requires StripBlank(s, e + 1) == JoinLines(Squeezed(rest))
    ensures StripBlank(s, i) == JoinLines([s[i..e]] + Squeezed(rest))
  {
    KeepLine(s, i);
    JoinCons(s[i..e], Squeezed(rest));
  }

  lemma SqueezeStep(s: string, i: nat, e: nat, rest: seq<string>, left: seq<string>)
    requires i <= e < |s| && LineStart(s, i) && LineEnd(s, i) == e && SpaceRun(s, i) < |s| && rest != []
    requires Blank(rest[0]) <==> SpaceRun(s, e + 1) >= LineEnd(s, e + 1)
    requires StripBlank(s, e + 1) == JoinLines(Squeezed(rest))
    requires left == if SpaceRun(s, i) < e then [s[i..e]] + Squeezed(rest)
                     else if Blank(rest[0]) then Squeezed(rest) else [""] + Squeezed(rest)
    ensures StripBlank(s, i) == JoinLines(left)
  {
    if SpaceRun(s, i) < e {
      SqueezeText(s, i, e, rest);
    } else {
      SqueezeBlank(s, i, e, rest);
    }
  }

  ghost predicate SqueezedFrom(s: string, i: nat)
    requires i <= |s|
  {
    StripBlank(s, i) == JoinLines(Squeezed(LinesFrom(s, i)))
  }

  lemma SqueezeLast(s: string, i: nat)
    requires i <= |s| && LineStart(s, i) && (SpaceRun(s, i) == |s| || LineEnd(s, i) == |s|)
    ensures SqueezedFrom(s, i)
  {
    AllBlankFrom(s, i);
    if SpaceRun(s, i) == |s| {
      assert i < |s| ==> MatchBlank(s, i) == Match(|s|);
      assert StripBlank(s, i) == "";
    } else {
      KeepLine(s, i);
      assert LinesFrom(s, i) == [s[i..|s|]];
    }
  }

  lemma FirstLineBlank(s: string, i: nat)
    requires i <= |s|
    ensures Blank(LinesFrom(s, i)[0]) <==> SpaceRun(s, i) >= LineEnd(s, i)
  {
    BlankLine(s, i);
  }

  lemma SqueezedLines(s: string, i: nat, e: nat, rest: seq<string>)
    requires i <= e < |s| && LineEnd(s, i) == e && rest != [] && !AllBlank([s[i..e]] + rest)
    ensures Squeezed([s[i..e]] + rest)
      == if SpaceRun(s, i) < e then [s[i..e]] + Squeezed(rest)
         else if Blank(rest[0]) then Squeezed(rest) else [""] + Squeezed(rest)
  {
    AllBlankCons(s[i..e], rest);
    BlankLine(s, i);
    SqueezedCons(s[i..e], rest);
  }

  lemma StripLine(s: string, i: nat, e: nat)
    requires i <= e < |s| && LineStart(s, i) && LineEnd(s, i) == e && SpaceRun(s, i) < |s|
    requires SqueezedFrom(s, e + 1)
    ensures SqueezedFrom(s, i)
  {
    var rest := LinesFrom(s, e + 1);
    LinesCons(s, i);
    AllBlankFrom(s, i);
    FirstLineBlank(s, e + 1);
    SqueezedLines(s, i, e, rest);
    SqueezeStep(s, i, e, rest, Squeezed([s[i..e]] + rest));
  }

  /** From the start of a line on, taking out empty lines squeezes the lines. */
  lemma {:induction false} StripIsSqueeze(s: string, i: nat)
    requires i <= |s| && LineStart(s, i)
    ensures SqueezedFrom(s, i)
    decreases |s| - i
  {
    var e := LineEnd(s, i);
    if SpaceRun(s, i) == |s| || e == |s| {
      SqueezeLast(s, i);
    } else {
      StripIsSqueeze(s, e + 1);
      StripLine(s, i, e);
    }
  }

  /** A blank line with a line after it. */
  ghost predicate BlankAt(lines: seq<string>, i: nat) {
    i < |lines| - 1 && Blank(lines[i])
  }

  /** A blank line with one after it, at once or later, that is not blank. */
  ghost predicate BlankBefore(lines: seq<string>, i: nat, k: nat) {
    i < k < |lines| && Blank(lines[i]) && !Blank(lines[k])
  }

  lemma {:induction false} FirstSqueezed(lines: seq<string>)
    requires lines != [] && !AllBlank(lines)
    ensures Blank(Squeezed(lines)[0]) <==> Blank(lines[0])
    ensures Blank(lines[0]) ==> |Squeezed(lines)| > 1
  {
    if |lines| > 1 {
      var line, rest := lines[0], lines[1..];
      assert lines == [line] + rest;
      AllBlankCons(line, rest);
      SqueezedCons(line, rest);
      if Blank(line) && Blank(rest[0]) {
        FirstSqueezed(rest);
      }
    }
  }

  /** No two blank lines in a row are left. */
  lemma {:induction false} NoTwoBlankLines(lines: seq<string>, i: nat)
    requires lines != [] && BlankAt(Squeezed(lines), i)
    ensures !Blank(Squeezed(lines)[i + 1])
  {
    if |lines| > 1 && !AllBlank(lines) {
      var line, rest := lines[0], lines[1..];
      assert lines == [line] + rest;
      AllBlankCons(line, rest);
      SqueezedCons(line, rest);
      if Blank(line) && Blank(rest[0]) {
        NoTwoBlankLines(rest, i);
      } else if i == 0 {
        FirstSqueezed(rest);
      } else {
        NoTwoBlankLines(rest, i - 1);
      }
    }
  }

  /** A blank line is left only if the text has one with a line after it that is not blank. */
  lemma {:induction false} BlankLineFrom(lines: seq<string>, i: nat) returns (j: nat, k: nat)
    requires lines != [] && BlankAt(Squeezed(lines), i)
    ensures BlankBefore(lines, j, k)
  {
    var line, rest := lines[0], lines[1..];
    assert lines == [line] + rest;
    AllBlankCons(line, rest);
    SqueezedCons(line, rest);
    if Blank(line) {
      k :| 0 <= k < |lines| && !Blank(lines[k]);
      j := 0;
    } else {
      j, k := BlankLineFrom(rest, i - 1);
      j, k := j + 1, k + 1;
    }
  }

  /** And then one is left. */
  lemma {:induction false} BlankLineLeft(lines: seq<string>, j: nat, k: nat) returns (i: nat)
    requires lines != [] && BlankBefore(lines, j, k)
    ensures BlankAt(Squeezed(lines), i)
  {
    var line, rest := lines[0], lines[1..];
    assert lines == [line] + rest;
    AllBlankCons(line, rest);
    SqueezedCons(line, rest);
    if Blank(line) {
      FirstSqueezed(lines);
      i := 0;
    } else {
      i := BlankLineLeft(rest, j - 1, k - 1);
      i := i + 1;
    }
  }

  /** Taking out empty lines squeezes the lines of the text: no two blank ones in a row are left, and
      every blank one is taken out if and only if none has a line after it that is not blank. */
  lemma EmptyLinesRemovedIffTrailing(text: string)
    ensures var lines, left := LinesFrom(text, 0), Squeezed(LinesFrom(text, 0));
            && StripBlank(text, 0) == JoinLines(left)
            && (forall i: nat :: BlankAt(left, i) ==> !Blank(left[i + 1]))
            && ((forall i: nat :: !BlankAt(left, i)) <==> forall j: nat, k: nat :: !BlankBefore(lines, j, k))
  {
    var lines, left := LinesFrom(text, 0), Squeezed(LinesFrom(text, 0));
    StripIsSqueeze(text, 0);
    forall i: nat | BlankAt(left, i) ensures !Blank(left[i + 1]) && exists j: nat, k: nat :: BlankBefore(lines, j, k) {
      NoTwoBlankLines(lines, i);
      var j, k := BlankLineFrom(lines, i);
    }
    forall j: nat, k: nat | BlankBefore(lines, j, k) ensures exists i: nat :: BlankAt(left, i) {
      var i := BlankLineLeft(lines, j, k);
    }
  }

  /** An empty line between two others stays. */
  lemma EmptyLineStays(x: char, y: char)
    requires !IsSpace(x) && !IsSpace(y)
    ensures StripBlank([x, '\n', '\n', y], 0) == [x, '\n', '\n', y]
  {
    var s := [x, '\n', '\n', y];
    assert StripBlank(s, 3) == [y] && StripBlank(s, 2) == ['\n', y] && StripBlank(s, 1) == ['\n', '\n', y];
  }
}
