/** Splitting a source into sections, and taking comments and empty lines out of a section. */
module Sections {

  const SEPARATOR := "---\n"

  predicate SeparatorAt(s: string, i: int) {
    0 <= i && i + 4 <= |s| && s[i] == '-' && s[i + 1] == '-' && s[i + 2] == '-' && s[i + 3] == '\n'
  }

  predicate SeparatorFree(s: string) {
    forall i :: 0 <= i < |s| ==> !SeparatorAt(s, i)
  }

  /** The first separator at or after i, or the length if there is none. */
  function NextSeparator(s: string, i: nat): (r: nat)
    requires i <= |s|
    ensures i <= r <= |s|
    ensures r < |s| ==> SeparatorAt(s, r)
    ensures forall k :: i <= k < r ==> !SeparatorAt(s, k)
    decreases |s| - i
  {
    if i == |s| || SeparatorAt(s, i) then i else NextSeparator(s, i + 1)
  }

  function Split(s: string): seq<string>
    decreases |s|
  {
    var k := NextSeparator(s, 0);
    if k == |s| then [s] else [s[..k]] + Split(s[k + 4..])
  }

  function Join(sections: seq<string>): string
    requires sections != []
  {
    if |sections| == 1 then sections[0] else sections[0] + SEPARATOR + Join(sections[1..])
  }

  /** Joining undoes splitting, and no section of a split contains the separator. */
  lemma {:induction false} JoinOfSplit(s: string)
    ensures Split(s) != [] && Join(Split(s)) == s
    ensures forall i :: 0 <= i < |Split(s)| ==> SeparatorFree(Split(s)[i])
    decreases |s|
  {
    var k := NextSeparator(s, 0);
    if k < |s| {
      var first, rest := s[..k], s[k + 4..];
      JoinOfSplit(rest);
      assert Split(s) == [first] + Split(rest);
      assert s == first + SEPARATOR + rest by {
        assert s[k..k + 4] == SEPARATOR;
      }
      assert SeparatorFree(first) by {
        assert forall i :: 0 <= i < k && SeparatorAt(first, i) ==> SeparatorAt(s, i);
      }
    }
  }

  /** A separator cannot begin inside a separator-free section and end in the separator after it. */
  lemma SeparatorAfterSection(x: string, rest: string)
    requires SeparatorFree(x)
    ensures NextSeparator(x + SEPARATOR + rest, 0) == |x|
  {
    var t := x + SEPARATOR + rest;
    assert SeparatorAt(t, |x|);
    forall i | 0 <= i < |x| ensures !SeparatorAt(t, i) {
      assert !SeparatorAt(x, i);
    }
  }

  lemma SplitOfConcat(x: string, rest: string)
    requires SeparatorFree(x)
    ensures Split(x + SEPARATOR + rest) == [x] + Split(rest)
  {
    var t := x + SEPARATOR + rest;
    SeparatorAfterSection(x, rest);
    assert t[..|x|] == x;
    assert t[|x| + 4..] == rest;
  }

  /** Splitting undoes joining, for sections that do not contain the separator. */
  lemma {:induction false} SplitOfJoin(sections: seq<string>)
    requires sections != [] && forall i :: 0 <= i < |sections| ==> SeparatorFree(sections[i])
    ensures Split(Join(sections)) == sections
    decreases |sections|
  {
    var x := sections[0];
    if |sections| == 1 {
      assert NextSeparator(x, 0) == |x|;
      assert sections == [x];
    } else {
      SplitOfJoin(sections[1..]);
      SplitOfConcat(x, Join(sections[1..]));
      assert sections == [x] + sections[1..];
    }
  }

  /** The characters that \s matches. */
  predicate IsSpace(c: char) {
    c == ' ' || c == '\t' || c == '\n' || c == '\r' || c == '\U{0C}'
  }

  predicate AllSpace(s: string) {
    forall i :: 0 <= i < |s| ==> IsSpace(s[i])
  }

  predicate LineStart(s: string, i: nat) {
    i == 0 || (i <= |s| && s[i - 1] == '\n')
  }

  /** Where the run of whitespace from i ends; it may cross lines. */
  function SpaceRun(s: string, i: nat): (r: nat)
    requires i <= |s|
    ensures i <= r <= |s|
    ensures r < |s| ==> !IsSpace(s[r])
    decreases |s| - i
  {
    if i == |s| || !IsSpace(s[i]) then i else SpaceRun(s, i + 1)
  }

  lemma {:induction false} SpaceRunIs(s: string, i: nat, r: nat)
    requires i <= r <= |s| && (r < |s| ==> !IsSpace(s[r]))
    ensures SpaceRun(s, i) == r <==> forall k :: i <= k < r ==> IsSpace(s[k])
    decreases r - i
  {
    if i < r {
      SpaceRunIs(s, i + 1, r);
    }
  }

  function LineEnd(s: string, i: nat): (r: nat)
    requires i <= |s|
    ensures i <= r <= |s|
    ensures r < |s| ==> s[r] == '\n'
    decreases |s| - i
  {
    if i == |s| || s[i] == '\n' then i else LineEnd(s, i + 1)
  }

  lemma {:induction false} LineEndIs(s: string, i: nat, r: nat)
    requires i <= r <= |s| && (r < |s| ==> s[r] == '\n')
    ensures LineEnd(s, i) == r <==> forall k :: i <= k < r ==> s[k] != '\n'
    decreases r - i
  {
    if i < r {
      LineEndIs(s, i + 1, r);
    }
  }

  datatype Found = NoMatch | Match(end: nat)

  /** (?m)^\s*#([^#].*?)$ at i. The whitespace may cross lines, and so may the one character after
      the '#': it is any character but '#'. */
  function MatchComment(s: string, i: nat): (m: Found)
    requires i <= |s|
    ensures m.Match? ==> i + 2 <= m.end <= |s|
  {
    if !LineStart(s, i) then NoMatch
    else
      var j := SpaceRun(s, i);
      if j + 1 < |s| && s[j] == '#' && s[j + 1] != '#' then Match(LineEnd(s, j + 2)) else NoMatch
  }

  /** The text from i on with every comment match taken out, leftmost first. */
  function StripComments(s: string, i: nat): string
    requires i <= |s|
    decreases |s| - i
  {
    if i == |s| then ""
    else
      match MatchComment(s, i)
      case Match(end) => StripComments(s, end)
      case NoMatch => [s[i]] + StripComments(s, i + 1)
  }

  /** The last newline in s[i..j], or j if there is none. */
  function LastNewline(s: string, i: nat, j: nat): (r: nat)
    requires i <= j <= |s|
    ensures i <= r <= j
    ensures r < j ==> s[r] == '\n'
    decreases j - i
  {
    if i == j then j
    else if s[j - 1] == '\n' then j - 1
    else
      var r := LastNewline(s, i, j - 1);
      if r == j - 1 then j else r
  }

  /** (?m)^\s*$ at i: the longest run of whitespace that ends the text or stops before a newline. */
  function MatchBlank(s: string, i: nat): (m: Found)
    requires i <= |s|
    ensures m.Match? ==> i <= m.end <= SpaceRun(s, i)
  {
    if !LineStart(s, i) then NoMatch
    else
      var j := SpaceRun(s, i);
      if j == |s| then Match(j)
      else
        var q := LastNewline(s, i, j);
        if q == j then NoMatch else Match(q)
  }

  /** The text from i on with every blank match taken out; an empty match takes nothing. */
  function StripBlank(s: string, i: nat): string
    requires i <= |s|
    decreases |s| - i
  {
    if i == |s| then ""
    else
      var m := MatchBlank(s, i);
      if m.Match? && m.end > i then StripBlank(s, m.end) else [s[i]] + StripBlank(s, i + 1)
  }

  function RemoveCommentsAndEmptyLines(text: string): string {
    StripBlank(StripComments(text, 0), 0)
  }

  /** The characters of s that are not whitespace, in order. */
  function Ink(s: string): string {
    if s == "" then "" else (if IsSpace(s[0]) then "" else [s[0]]) + Ink(s[1..])
  }

  lemma {:induction false} InkConcat(s: string, t: string)
    ensures Ink(s + t) == Ink(s) + Ink(t)
  {
    if s == "" {
      assert s + t == t;
    } else {
      InkConcat(s[1..], t);
      var first := if IsSpace(s[0]) then "" else [s[0]];
      assert (s + t)[1..] == s[1..] + t;
      assert Ink(s + t) == first + Ink(s[1..] + t);
      assert first + (Ink(s[1..]) + Ink(t)) == (first + Ink(s[1..])) + Ink(t);
    }
  }

  lemma {:induction false} InkOfSpace(s: string)
    ensures Ink(s) == "" <==> AllSpace(s)
  {
    if s != "" {
      InkOfSpace(s[1..]);
      assert s == [s[0]] + s[1..];
    }
  }

  lemma CutAt(s: string, i: nat, e: nat)
    requires i <= e <= |s|
    ensures s[i..] == s[i..e] + s[e..]
  {
  }

  /** Taking out blank lines loses no character that is not whitespace, and moves none. */
  lemma {:induction false} StripBlankKeepsInk(s: string, i: nat)
    requires i <= |s|
    ensures Ink(StripBlank(s, i)) == Ink(s[i..])
    decreases |s| - i
  {
    if i < |s| {
      var m := MatchBlank(s, i);
      var e := if m.Match? && m.end > i then m.end else i + 1;
      StripBlankKeepsInk(s, e);
      CutAt(s, i, e);
      InkConcat(s[i..e], s[e..]);
      if m.Match? && m.end > i {
        SpaceRunIs(s, i, SpaceRun(s, i));
        InkOfSpace(s[i..e]);
      } else {
        assert s[i..e] == [s[i]];
        InkConcat([s[i]], StripBlank(s, e));
      }
    }
  }

  /** A section yields no policy exactly when taking out its comments leaves only whitespace. */
  lemma DroppedIffOnlyComments(text: string)
    ensures RemoveCommentsAndEmptyLines(text) == "" <==> AllSpace(StripComments(text, 0))
  {
    var t := StripComments(text, 0);
    StripBlankKeepsInk(t, 0);
    assert t[0..] == t;
    InkOfSpace(t);
    if AllSpace(t) && t != "" {
      assert SpaceRun(t, 0) == |t|;
      assert MatchBlank(t, 0) == Match(|t|);
    }
  }

  /** A line that is a bare '#' takes the next line with it, whatever that line says. */
  lemma BareHashSwallowsNextLine(line: string)
    requires '\n' !in line
    ensures RemoveCommentsAndEmptyLines("#\n" + line) == ""
  {
    var text := "#\n" + line;
    assert text[0] == '#' && text[1] == '\n';
    assert SpaceRun(text, 0) == 0;
    assert LineEnd(text, 2) == |text| by {
      assert forall k :: 2 <= k < |text| ==> text[k] == line[k - 2];
    }
    assert StripComments(text, 0) == StripComments(text, |text|) == "";
  }

  /** The '#' at j is followed, on its line, by a character that is not one. */
  predicate LoneHash(s: string, j: nat) {
    j + 1 < |s| && s[j] == '#' && s[j + 1] != '#' && s[j + 1] != '\n'
  }

  /** The line that i is in is a comment: what comes first on it, after its indentation, is a lone '#'. */
  predicate InCommentLine(s: string, i: nat)
    requires i <= |s|
  {
    if LineStart(s, i) then SpaceRun(s, i) < LineEnd(s, i) && LoneHash(s, SpaceRun(s, i)) else InCommentLine(s, i - 1)
  }

  /** What is to be kept from i on: all that is neither whitespace nor in a comment line. */
  function KeptInk(s: string, i: nat): string
    requires i <= |s|
    decreases |s| - i
  {
    if i == |s| then "" else (if IsSpace(s[i]) || InCommentLine(s, i) then "" else [s[i]]) + KeptInk(s, i + 1)
  }

  /** From the line start l, the first character that is not whitespace is a '#' that ends its line. */
  predicate BareHash(s: string, l: nat) {
    l <= |s| && LineStart(s, l) && var j := SpaceRun(s, l); j + 1 < |s| && s[j] == '#' && s[j + 1] == '\n'
  }

  lemma {:induction false} FirstOnLine(s: string, i: nat, k: nat, j: nat)
    requires i <= k <= j < |s| && LineStart(s, i) && !IsSpace(s[j])
    requires forall n :: i <= n < j ==> IsSpace(s[n])
    requires forall n :: k <= n < j ==> s[n] != '\n'
    ensures InCommentLine(s, k) == LoneHash(s, j)
    decreases k
  {
    if LineStart(s, k) {
      SpaceRunIs(s, k, j);
      LineEndIs(s, k, LineEnd(s, k));
    } else {
      FirstOnLine(s, i, k - 1, j);
    }
  }

  lemma {:induction false} NoInkInSpace(s: string, i: nat)
    requires i <= |s|
    ensures KeptInk(s, i) == KeptInk(s, SpaceRun(s, i))
    decreases |s| - i
  {
    if i < |s| && IsSpace(s[i]) {
      NoInkInSpace(s, i + 1);
    }
  }

  lemma {:induction false} NothingKeptOfComment(s: string, i: nat)
    requires i <= |s| && InCommentLine(s, i)
    ensures KeptInk(s, i) == KeptInk(s, LineEnd(s, i))
    decreases |s| - i
  {
    if i < |s| && s[i] != '\n' {
      assert InCommentLine(s, i + 1);
      NothingKeptOfComment(s, i + 1);
    }
  }

  lemma {:induction false} KeptInkShrinks(s: string, i: nat, j: nat)
    requires i <= j <= |s|
    ensures |KeptInk(s, j)| <= |KeptInk(s, i)|
    decreases j - i
  {
    if i < j {
      KeptInkShrinks(s, i + 1, j);
    }
  }

  /** A match begins with whitespace, and its '#' is the first on its line. */
  lemma HashIsFirst(s: string, i: nat)
    requires i < |s| && MatchComment(s, i).Match?
    ensures var j := SpaceRun(s, i); InCommentLine(s, j) == LoneHash(s, j) && KeptInk(s, i) == KeptInk(s, j)
  {
    var j := SpaceRun(s, i);
    SpaceRunIs(s, i, j);
    NoInkInSpace(s, i);
    FirstOnLine(s, i, j, j);
  }

  /** A match that does not begin with a bare '#' covers whitespace and then the rest of a comment line. */
  lemma CommentMatch(s: string, i: nat)
    requires i < |s| && MatchComment(s, i).Match? && !BareHash(s, i)
    ensures KeptInk(s, i) == KeptInk(s, MatchComment(s, i).end)
  {
    var j, end := SpaceRun(s, i), MatchComment(s, i).end;
    HashIsFirst(s, i);
    assert end == LineEnd(s, j + 1) == LineEnd(s, j);
    NothingKeptOfComment(s, j);
  }

  /** A match that begins with a bare '#' takes that out, and so keeps less than it should. */
  lemma BareMatch(s: string, i: nat)
    requires i < |s| && MatchComment(s, i).Match? && BareHash(s, i)
    ensures |KeptInk(s, MatchComment(s, i).end)| < |KeptInk(s, i)|
  {
    var j := SpaceRun(s, i);
    HashIsFirst(s, i);
    KeptInkShrinks(s, j + 1, MatchComment(s, i).end);
  }

  ghost predicate BareHashFrom(s: string, i: nat) {
    exists l: nat :: i <= l && BareHash(s, l)
  }

  /** A match that does not begin with a bare '#' steps over none. */
  lemma BareHashAfterMatch(s: string, i: nat)
    requires i < |s| && MatchComment(s, i).Match? && !BareHash(s, i)
    ensures BareHashFrom(s, i) == BareHashFrom(s, MatchComment(s, i).end)
  {
    var j := SpaceRun(s, i);
    SpaceRunIs(s, i, j);
    LineEndIs(s, j + 2, LineEnd(s, j + 2));
    if l: nat :| i <= l && BareHash(s, l) {
      if l <= j {
        SpaceRunIs(s, l, j);
      }
    }
  }

  /** The matcher is never at a place inside a comment line, other than its start and its end. */
  ghost predicate Outside(s: string, i: nat)
    requires i <= |s|
  {
    InCommentLine(s, i) && i < |s| && s[i] != '\n' ==> LineStart(s, i)
  }

  lemma NoMatchStep(s: string, i: nat)
    requires i < |s| && MatchComment(s, i).NoMatch? && Outside(s, i)
    ensures KeptInk(s, i) == Ink([s[i]]) + KeptInk(s, i + 1)
    ensures Outside(s, i + 1)
  {
    assert s[i] != '\n' ==> InCommentLine(s, i + 1) == InCommentLine(s, i);
    assert !IsSpace(s[i]) ==> !InCommentLine(s, i);
    assert Ink([s[i]]) == if IsSpace(s[i]) then "" else [s[i]];
  }

  lemma BareHashAfterNoMatch(s: string, i: nat)
    requires i < |s| && MatchComment(s, i).NoMatch?
    ensures BareHashFrom(s, i) == BareHashFrom(s, i + 1)
  {
    if BareHashFrom(s, i) {
      var l: nat :| i <= l && BareHash(s, l);
      assert l != i;
    }
  }

  /** What is left is what is to be kept, or less if there is a bare '#'. */
  lemma {:induction false} StripAgainstKept(s: string, i: nat)
    requires i <= |s| && Outside(s, i)
    ensures var left, kept := Ink(StripComments(s, i)), KeptInk(s, i);
            if BareHashFrom(s, i) then |left| < |kept| else left == kept
    decreases |s| - i
  {
    if i == |s| {
    } else if MatchComment(s, i).NoMatch? {
      NoMatchStep(s, i);
      BareHashAfterNoMatch(s, i);
      StripAgainstKept(s, i + 1);
      InkConcat([s[i]], StripComments(s, i + 1));
    } else {
      StripAgainstKept(s, MatchComment(s, i).end);
      if BareHash(s, i) {
        BareMatch(s, i);
      } else {
        CommentMatch(s, i);
        BareHashAfterMatch(s, i);
      }
    }
  }

  /** Apart from whitespace, what is left of a section is all that is not in a comment line, if and only
      if no line but the last is a bare '#'. */
  lemma KeepsWhatIsNotComment(text: string)
    ensures Ink(RemoveCommentsAndEmptyLines(text)) == KeptInk(text, 0) <==> forall l: nat :: !BareHash(text, l)
  {
    StripAgainstKept(text, 0);
    var t := StripComments(text, 0);
    assert t[0..] == t;
    StripBlankKeepsInk(t, 0);
    assert BareHashFrom(text, 0) <==> exists l: nat :: BareHash(text, l);
  }

  /** Every line is blank or a comment. */
  ghost predicate CommentsOnly(s: string) {
    forall k :: 0 <= k < |s| ==> IsSpace(s[k]) || InCommentLine(s, k)
  }

  lemma {:induction false} NothingToKeep(s: string, i: nat)
    requires i <= |s|
    ensures KeptInk(s, i) == "" <==> forall k :: i <= k < |s| ==> IsSpace(s[k]) || InCommentLine(s, k)
    decreases |s| - i
  {
    if i < |s| {
      NothingToKeep(s, i + 1);
    }
  }

  /** A section of comment lines and blank lines yields no policy; where no line but the last is a bare
      '#', only such a section yields none. */
  lemma CommentsOnlyDropped(text: string)
    ensures CommentsOnly(text) ==> RemoveCommentsAndEmptyLines(text) == ""
    ensures (forall l: nat :: !BareHash(text, l)) ==> (RemoveCommentsAndEmptyLines(text) == "" <==> CommentsOnly(text))
  {
    NothingToKeep(text, 0);
    StripAgainstKept(text, 0);
    DroppedIffOnlyComments(text);
    InkOfSpace(StripComments(text, 0));
    assert BareHashFrom(text, 0) <==> exists l: nat :: BareHash(text, l);
  }
}
