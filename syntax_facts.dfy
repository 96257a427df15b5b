/** Properties of the C highlighter: what one Handle call does in each of its
    branches, and what handling a run of columns does. */
module SyntaxFacts {
  import opened Syntax

  // ---------------------------------------------------------------------------
  // Space trimming, the reference for syn_include's two index scans
  // ---------------------------------------------------------------------------

  /** s without its leading spaces. */
  function TrimLeft(s: seq<char>): (r: seq<char>)
    decreases |s|
  {
    if |s| > 0 && s[0] == ' ' then TrimLeft(s[1..]) else s
  }

  /** s without its trailing spaces. */
  function TrimRight(s: seq<char>): (r: seq<char>)
    decreases |s|
  {
    if |s| > 0 && s[|s| - 1] == ' ' then TrimRight(s[..|s| - 1]) else s
  }

  /** s without leading and trailing spaces. */
  function Trim(s: seq<char>): (r: seq<char>)
  {
    TrimRight(TrimLeft(s))
  }

  /** The text strictly between the '#' at column pound and column col. */
  function DirectiveText(line: seq<Cell>, pound: int, col: int): (t: seq<char>)
    requires 0 <= pound < col <= |line|
  {
    Chars(line)[pound + 1..col]
  }

  lemma {:induction false} TrimLeftAt(s: seq<char>, k: nat)
    requires k <= |s|
    requires forall m :: 0 <= m < k ==> s[m] == ' '
    requires k < |s| ==> s[k] != ' '
    ensures TrimLeft(s) == s[k..]
  {
    if k > 0 {
      TrimLeftAt(s[1..], k - 1);
      assert s[1..][k - 1..] == s[k..];
    }
  }

  lemma {:induction false} TrimRightAt(s: seq<char>, k: nat)
    requires k <= |s|
    requires forall m :: k <= m < |s| ==> s[m] == ' '
    requires k > 0 ==> s[k - 1] != ' '
    ensures TrimRight(s) == s[..k]
  {
    if k < |s| {
      TrimRightAt(s[..|s| - 1], k);
      assert s[..|s| - 1][..k] == s[..k];
    }
  }

  /** The first scan of syn_include stops where the text after '#' stops
      having leading spaces. */
  lemma FirstScanTrimsLeft(line: seq<Cell>, p: int, col: int)
    requires 0 <= p < col <= |line|
    ensures TrimLeft(DirectiveText(line, p, col)) == Chars(line)[FirstNonSpace(line, p + 1, col)..col]
  {
    var t := DirectiveText(line, p, col);
    var i := FirstNonSpace(line, p + 1, col);
    TrimLeftAt(t, i - (p + 1));
    assert t[i - (p + 1)..] == Chars(line)[i..col];
  }

  /** The second scan of syn_include stops where the word ends. */
  lemma SecondScanTrimsRight(line: seq<Cell>, i: int, j: int, col: int)
    requires 0 <= i <= j < col <= |line|
    requires line[j].ch != ' '
    requires forall k :: j < k < col ==> line[k].ch == ' '
    ensures TrimRight(Chars(line)[i..col]) == Chars(line[i..j + 1])
  {
    var u := Chars(line)[i..col];
    TrimRightAt(u, j + 1 - i);
    assert u[..j + 1 - i] == Chars(line[i..j + 1]);
  }

  /** The two index scans of syn_include find the trimmed text: it is empty
      when the first scan runs to the end, and otherwise spans the columns from
      the first scan's stop to the second's. */
  lemma ScansFindTrimmedText(line: seq<Cell>, p: int, col: int)
    requires 0 <= p < col <= |line|
    ensures var t := DirectiveText(line, p, col);
      var i := FirstNonSpace(line, p + 1, col);
      var j := LastNonSpace(line, p, col - 1);
      && i == p + 1 + |t| - |TrimLeft(t)|
      && (i == col ==> Trim(t) == [])
      && (i < col ==> i <= j && Trim(t) == Chars(line[i..j + 1]))
  {
    var t := DirectiveText(line, p, col);
    var i := FirstNonSpace(line, p + 1, col);
    var j := LastNonSpace(line, p, col - 1);
    FirstScanTrimsLeft(line, p, col);
    if i == col {
      assert TrimLeft(t) == [];
    } else {
      assert line[i].ch != ' ';
      assert i <= j;
      SecondScanTrimsRight(line, i, j, col);
    }
  }

  /** syn_include's seven comparisons at the columns its scans find succeed
      exactly when the trimmed text after the '#' is the word "include". */
  lemma ScansSpellInclude(line: seq<Cell>, p: int, col: int)
    requires 0 <= p < col <= |line|
    ensures SpelledAt(line, FirstNonSpace(line, p + 1, col), LastNonSpace(line, p, col - 1))
        <==> Trim(DirectiveText(line, p, col)) == "include"
  {
    var i := FirstNonSpace(line, p + 1, col);
    var j := LastNonSpace(line, p, col - 1);
    ScansFindTrimmedText(line, p, col);
    if i < col {
      if j - i == 6 {
        SpellsInclude(line, i, j);
      } else {
        assert |Chars(line[i..j + 1])| != 7;
      }
    }
  }

  /** The column where the directive word starts: the first column after the
      '#' that the trimmed text begins at. */
  function WordColumn(line: seq<Cell>, pound: int, col: int): (w: int)
    requires 0 <= pound < col <= |line|
  {
    var t := DirectiveText(line, pound, col);
    pound + 1 + |t| - |TrimLeft(t)|
  }

  /** Column k is one syn_include colours when it recognises the directive
      between the '#' at column pound and column col. */
  predicate DirectiveColumn(line: seq<Cell>, pound: int, col: int, k: int)
    requires 0 <= pound < col <= |line|
  {
    IncludeWord(line, pound, col) && (k == pound || WordColumn(line, pound, col) <= k < WordColumn(line, pound, col) + 7)
  }

  /** When the trimmed text is "include", syn_include sets the include flag
      and colours the '#' and the seven columns of the word as preprocessor
      text, changing nothing else. */
  lemma SynIncludeOnMatch(st: LineState, line: seq<Cell>, col: int)
    requires 0 <= st.poundIdx < col <= |line|
    requires Trim(DirectiveText(line, st.poundIdx, col)) == "include"
    ensures var w := WordColumn(line, st.poundIdx, col);
      var r := SynInclude(st, line, col);
      && r.0 == st.(inInclude := true)
      && |r.1| == |line|
      && w + 7 <= col
      && (forall k :: 0 <= k < |line| ==> r.1[k].ch == line[k].ch)
      && (forall k :: 0 <= k < |line| ==>
           r.1[k].fg == if k == st.poundIdx || w <= k < w + 7 then PreprocFg else line[k].fg)
  {
    var p := st.poundIdx;
    var i := FirstNonSpace(line, p + 1, col);
    ScansSpellInclude(line, p, col);
    ScansFindTrimmedText(line, p, col);
    PaintPoundAndWord(line, p, i);
  }

  lemma PaintPoundAndWord(line: seq<Cell>, p: int, w: int)
    requires 0 <= p < w && w + 7 <= |line|
    ensures var r := Paint(Paint(line, p, p + 1, PreprocFg), w, w + 7, PreprocFg);
      && (forall k :: 0 <= k < |line| ==> r[k].ch == line[k].ch)
      && (forall k :: 0 <= k < |line| ==>
           r[k].fg == if k == p || w <= k < w + 7 then PreprocFg else line[k].fg)
  {
  }

  /** syn_include rewrites no character and recolours, as preprocessor text,
      only the '#' and columns between it and col. */
  lemma SynIncludeTouchesDirective(st: LineState, line: seq<Cell>, col: int)
    requires 0 <= st.poundIdx < col <= |line|
    ensures var r := SynInclude(st, line, col);
      forall i :: 0 <= i < |line| ==>
        && r.1[i].ch == line[i].ch
        && (r.1[i].fg == line[i].fg || (st.poundIdx <= i < col && r.1[i].fg == PreprocFg))
  {
  }

  /** When the trimmed text is anything else, syn_include changes nothing. */
  lemma SynIncludeOnMismatch(st: LineState, line: seq<Cell>, col: int)
    requires 0 <= st.poundIdx < col <= |line|
    requires Trim(DirectiveText(line, st.poundIdx, col)) != "include"
    ensures SynInclude(st, line, col) == (st, line)
  {
    ScansSpellInclude(line, st.poundIdx, col);
  }

  /** Whether syn_include would recognise the directive at column col. */
  predicate IncludeWord(line: seq<Cell>, pound: int, col: int)
    requires 0 <= pound < col <= |line|
  {
    Trim(DirectiveText(line, pound, col)) == "include"
  }

  // ---------------------------------------------------------------------------
  // One column
  // ---------------------------------------------------------------------------

  /** Inside a // comment a column is coloured as comment and nothing else changes. */
  lemma CommentColoursColumn(st: LineState, line: seq<Cell>, col: int)
    requires Inv(st, col) && col < |line| && st.inComment
    ensures Step(st, line, col) == (st, Paint(line, col, col + 1, CommentFg))
  {
  }

  /** A '/' after a '/', outside strings, opens a comment covering both columns. */
  lemma DoubleSlashOpensComment(st: LineState, line: seq<Cell>, col: int)
    requires Inv(st, col) && col < |line| && !st.inComment && !st.inString
    requires col > 0 && line[col - 1].ch == '/' && line[col].ch == '/'
    ensures Step(st, line, col) == (st.(inComment := true), Paint(line, col - 1, col + 1, CommentFg))
  {
  }

  /** Inside a string no comment opens: only the closing quote changes the state,
      and only the current column, or it and the one before, are recoloured, with
      string or special-character colour. */
  lemma StringShieldsComment(st: LineState, line: seq<Cell>, col: int)
    requires Inv(st, col) && col < |line| && st.inString && !st.inComment
    ensures var r := Step(st, line, col);
      && !r.0.inComment
      && r.0 == (if line[col].ch == '"' && (line[col - 1].ch != '\\' || st.inInclude)
                 then st.(inString := false) else st)
      && r.1[col].fg in {StringFg, SpecCharFg}
      && forall i :: 0 <= i < |line| && i != col && i != col - 1 ==> r.1[i] == line[i]
  {
  }

  /** An opening quote sets the string flag and is coloured as string; when a
      '#' was recorded it first lets syn_include recognise an #include. */
  lemma OpeningQuote(st: LineState, line: seq<Cell>, col: int)
    requires Inv(st, col) && col < |line| && !st.inComment && !st.inString && line[col].ch == '"'
    ensures var r := Step(st, line, col);
      && r.0.inString && !r.0.inComment
      && r.0.poundIdx == st.poundIdx && r.0.lessIdx == st.lessIdx
      && r.1[col].fg == StringFg
      && (r.0.inInclude <==> st.inInclude || (st.poundIdx >= 0 && IncludeWord(line, st.poundIdx, col)))
      && (st.poundIdx < 0 || !IncludeWord(line, st.poundIdx, col) ==>
            r == (st.(inString := true), Paint(line, col, col + 1, StringFg)))
      && forall k :: 0 <= k < |line| ==>
           r.1[k].fg == if k == col then StringFg
                        else if st.poundIdx >= 0 && DirectiveColumn(line, st.poundIdx, col, k) then PreprocFg
                        else line[k].fg
  {
    if st.poundIdx >= 0 {
      if IncludeWord(line, st.poundIdx, col) {
        SynIncludeOnMatch(st, line, col);
      } else {
        SynIncludeOnMismatch(st, line, col);
      }
    }
  }

  /** A quote inside a string closes it, unless it follows a backslash in a
      string that is not an include path: then both columns are an escape and
      the string stays open. */
  lemma ClosingQuote(st: LineState, line: seq<Cell>, col: int)
    requires Inv(st, col) && col < |line| && !st.inComment && st.inString && line[col].ch == '"'
    ensures Step(st, line, col) ==
      if line[col - 1].ch == '\\' && !st.inInclude
      then (st, Paint(line, col - 1, col + 1, SpecCharFg))
      else (st.(inString := false), Paint(line, col, col + 1, StringFg))
  {
  }

  /** Any other character in a string: after a backslash, in a string that is
      not an include path, one of \ a b e n r t v makes both columns an escape;
      anything else is string text. The state does not change. */
  lemma StringCharacter(st: LineState, line: seq<Cell>, col: int)
    requires Inv(st, col) && col < |line| && !st.inComment && st.inString && line[col].ch != '"'
    ensures Step(st, line, col) ==
      if !st.inInclude && line[col - 1].ch == '\\' && line[col].ch in {'\\', 'a', 'b', 'e', 'n', 'r', 't', 'v'}
      then (st, Paint(line, col - 1, col + 1, SpecCharFg))
      else (st, Paint(line, col, col + 1, StringFg))
  {
  }

  /** A '#' outside strings and comments is recorded when none was and every
      earlier column is a space; it is not coloured. */
  lemma PoundRecorded(st: LineState, line: seq<Cell>, col: int)
    requires Inv(st, col) && col < |line| && !st.inComment && !st.inString && line[col].ch == '#'
    ensures Step(st, line, col) ==
      if st.poundIdx < 0 && forall k :: 0 <= k < col ==> line[k].ch == ' '
      then (st.(poundIdx := col), line)
      else (st, line)
  {
  }

  /** A '<' after a recorded '#', with no '<' recorded yet, opens an include
      path when the directive is (or already was) #include: the '<' is coloured
      as preprocessor text and its column recorded. Otherwise nothing changes. */
  lemma LessOpensIncludePath(st: LineState, line: seq<Cell>, col: int)
    requires Inv(st, col) && col < |line| && !st.inComment && !st.inString && line[col].ch == '<'
    ensures var r := Step(st, line, col);
      if st.poundIdx >= 0 && st.lessIdx < 0 && (st.inInclude || IncludeWord(line, st.poundIdx, col)) then
        && r.0 == st.(inInclude := true, lessIdx := col)
        && forall k :: 0 <= k < |line| ==>
             r.1[k].fg == if k == col || DirectiveColumn(line, st.poundIdx, col, k) then PreprocFg
                          else line[k].fg
      else
        r == (st, line)
  {
    if st.poundIdx >= 0 && st.lessIdx < 0 {
      if IncludeWord(line, st.poundIdx, col) {
        SynIncludeOnMatch(st, line, col);
      } else {
        SynIncludeOnMismatch(st, line, col);
      }
    }
  }

  /** A '>' after a recorded '<' colours the whole path, '<' through '>', as string. */
  lemma GreaterClosesIncludePath(st: LineState, line: seq<Cell>, col: int)
    requires Inv(st, col) && col < |line| && !st.inComment && !st.inString && line[col].ch == '>'
    requires st.lessIdx >= 0
    ensures Step(st, line, col) == (st, Paint(line, st.lessIdx, col + 1, StringFg))
  {
  }

  /** Outside strings and comments, a character that is none of " # < > / changes nothing. */
  lemma PlainCharacter(st: LineState, line: seq<Cell>, col: int)
    requires Inv(st, col) && col < |line| && !st.inComment && !st.inString
    requires line[col].ch !in {'"', '#', '<', '>', '/'}
    ensures Step(st, line, col) == (st, line)
  {
  }

  /** Outside strings and comments, a '/' that does not follow a '/' changes nothing. */
  lemma LoneSlash(st: LineState, line: seq<Cell>, col: int)
    requires Inv(st, col) && col < |line| && !st.inComment && !st.inString
    requires line[col].ch == '/' && (col == 0 || line[col - 1].ch != '/')
    ensures Step(st, line, col) == (st, line)
  {
  }

  /** Outside strings and comments, a '>' before any #include is recognised
      changes nothing. */
  lemma GreaterOutsideInclude(st: LineState, line: seq<Cell>, col: int)
    requires Inv(st, col) && col < |line| && !st.inComment && !st.inString
    requires line[col].ch == '>' && !st.inInclude
    ensures Step(st, line, col) == (st, line)
  {
  }

  // ---------------------------------------------------------------------------
  // Runs of columns
  // ---------------------------------------------------------------------------

  /** Handling lo..hi-1 is handling lo..mid-1 and then mid..hi-1. */
  lemma {:induction false} RunSplit(st: LineState, line: seq<Cell>, lo: int, mid: int, hi: int)
    requires Inv(st, lo) && lo <= mid <= hi <= |line|
    ensures var first := Run(st, line, lo, mid);
      Run(st, line, lo, hi) == Run(first.0, first.1, mid, hi)
    decreases mid - lo
  {
    if lo < mid {
      var next := Step(st, line, lo);
      RunSplit(next.0, next.1, lo + 1, mid, hi);
    }
  }

  /** Once a // comment is open, every later column of the line is coloured as
      comment and the state no longer changes. */
  lemma {:induction false} CommentRunsToLineEnd(st: LineState, line: seq<Cell>, lo: int, hi: int)
    requires Inv(st, lo) && lo <= hi <= |line| && st.inComment
    ensures Run(st, line, lo, hi) == (st, Paint(line, lo, hi, CommentFg))
    decreases hi - lo
  {
    if lo < hi {
      var next := Step(st, line, lo);
      CommentColoursColumn(st, line, lo);
      CommentRunsToLineEnd(st, next.1, lo + 1, hi);
      assert Paint(next.1, lo + 1, hi, CommentFg) == Paint(line, lo, hi, CommentFg);
    } else {
      assert Paint(line, lo, hi, CommentFg) == line;
    }
  }

  /** A run of characters that are none of " # < > /, outside strings and
      comments, changes nothing. */
  lemma {:induction false} PlainRun(st: LineState, line: seq<Cell>, lo: int, hi: int)
    requires Inv(st, lo) && lo <= hi <= |line| && !st.inComment && !st.inString
    requires forall k :: lo <= k < hi ==> line[k].ch !in {'"', '#', '<', '>', '/'}
    ensures Run(st, line, lo, hi) == (st, line)
    decreases hi - lo
  {
    if lo < hi {
      PlainCharacter(st, line, lo);
      PlainRun(st, line, lo + 1, hi);
    }
  }

  /** The recorded columns name what the source recorded them for: a '#' with
      only spaces before it, and a '<'. */
  predicate MarksHold(st: LineState, line: seq<Cell>)
  {
    && (st.poundIdx >= 0 ==>
          && st.poundIdx < |line| && line[st.poundIdx].ch == '#'
          && forall k :: 0 <= k < st.poundIdx ==> line[k].ch == ' ')
    && (st.lessIdx >= 0 ==> st.lessIdx < |line| && line[st.lessIdx].ch == '<')
  }

  lemma StepKeepsMarks(st: LineState, line: seq<Cell>, col: int)
    requires Inv(st, col) && col < |line| && MarksHold(st, line)
    ensures MarksHold(Step(st, line, col).0, line)
  {
    StepKeepsRecords(st, line, col);
  }

  lemma {:induction false} RunKeepsMarks(st: LineState, line: seq<Cell>, lo: int, hi: int)
    requires Inv(st, lo) && lo <= hi <= |line| && MarksHold(st, line)
    ensures MarksHold(Run(st, line, lo, hi).0, line)
    decreases hi - lo
  {
    if lo < hi {
      var next := Step(st, line, lo);
      StepKeepsMarks(st, line, lo);
      assert MarksHold(next.0, next.1);
      RunKeepsMarks(next.0, next.1, lo + 1, hi);
    }
  }

  /** After a whole line, a recorded '#' column holds a '#' with only spaces
      before it, and a recorded '<' column holds a '<'. */
  lemma HighlightMarks(line: seq<Cell>)
    ensures MarksHold(Highlight(line).0, line)
  {
    RunKeepsMarks(LineStart, line, 0, |line|);
  }

  /** The '>' the source mishandles does nothing here: no '<' opened a path. */
  lemma GreaterWithoutLessIsInert(st: LineState, line: seq<Cell>, col: int)
    requires Inv(st, col) && col < |line| && UnsetLessHazard(st, line, col)
    ensures Step(st, line, col) == (st, line)
  {
  }

  // ---------------------------------------------------------------------------
  // Whole lines
  // ---------------------------------------------------------------------------

  /** The line "//" inside quotes stays a string: no column is a comment. */
  lemma QuotedSlashesStayString(line: seq<Cell>)
    requires Chars(line) == "\"//\""
    ensures var r := Highlight(line);
      && !r.0.inComment && !r.0.inString
      && forall k :: 0 <= k < 4 ==> r.1[k].fg == StringFg
  {
    var s1 := Step(LineStart, line, 0);
    assert s1 == (LineStart.(inString := true), Paint(line, 0, 1, StringFg));
    var s2 := Step(s1.0, s1.1, 1);
    assert s2 == (s1.0, Paint(s1.1, 1, 2, StringFg));
    var s3 := Step(s2.0, s2.1, 2);
    assert s3 == (s2.0, Paint(s2.1, 2, 3, StringFg));
    var s4 := Step(s3.0, s3.1, 3);
    assert s4 == (LineStart, Paint(s3.1, 3, 4, StringFg));
    assert Highlight(line) == s4;
  }

  /** On the line "\\" in quotes the two backslashes form an escape; the
      closing quote then follows a backslash and is taken as escaped as well,
      so the string is still open at the end of the line. */
  lemma EscapedBackslashThenQuote(line: seq<Cell>)
    requires Chars(line) == "\"\\\\\""
    ensures var r := Highlight(line);
      && r.0.inString
      && r.1[0].fg == StringFg
      && forall k :: 1 <= k < 4 ==> r.1[k].fg == SpecCharFg
  {
    var s1 := Step(LineStart, line, 0);
    assert s1 == (LineStart.(inString := true), Paint(line, 0, 1, StringFg));
    var s2 := Step(s1.0, s1.1, 1);
    assert s2 == (s1.0, Paint(s1.1, 1, 2, StringFg));
    var s3 := Step(s2.0, s2.1, 2);
    assert s3 == (s2.0, Paint(s2.1, 1, 3, SpecCharFg));
    var s4 := Step(s3.0, s3.1, 3);
    assert s4 == (s3.0, Paint(s3.1, 2, 4, SpecCharFg));
    assert Highlight(line) == s4;
  }

  /** A line that starts with "#include " records the '#' at column 0 and
      otherwise leaves the first nine columns alone; the directive text up to
      column 9 is the word include. */
  lemma {:induction false} IncludeDirectivePrefix(line: seq<Cell>)
    requires |line| >= 9 && Chars(line)[..9] == "#include "
    ensures Run(LineStart, line, 0, 9) == (LineStart.(poundIdx := 0), line)
    ensures IncludeWord(line, 0, 9)
    ensures TrimLeft(DirectiveText(line, 0, 9)) == DirectiveText(line, 0, 9)
  {
    assert line[0].ch == '#';
    var s1 := Step(LineStart, line, 0);
    assert s1 == (LineStart.(poundIdx := 0), line);
    forall k | 1 <= k < 9 ensures line[k].ch !in {'"', '#', '<', '>', '/'} {
      assert line[k].ch == "#include "[k];
    }
    PlainRun(s1.0, line, 1, 9);
    RunSplit(LineStart, line, 0, 1, 9);
    var t := DirectiveText(line, 0, 9);
    assert t == "include ";
    assert TrimLeft(t) == t;
    assert TrimRight(t) == TrimRight("include");
  }

  /** The line `#include <a>` colours '#' and the word as preprocessor text and
      the path <a> as string; the space between keeps its colour. */
  lemma AnglePathLine(line: seq<Cell>)
    requires Chars(line) == "#include <a>"
    ensures var r := Highlight(line);
      && r.0 == LineState(false, false, true, 0, 9)
      && forall k :: 0 <= k < 12 ==>
           r.1[k].fg == if k < 8 then PreprocFg else if k == 8 then line[8].fg else StringFg
  {
    AnglePathChars(line);
    IncludeDirectivePrefix(line);
    RunSplit(LineStart, line, 0, 9, 12);
    AnglePathRun(LineStart.(poundIdx := 0), line);
  }

  lemma AnglePathChars(line: seq<Cell>)
    requires Chars(line) == "#include <a>"
    ensures |line| == 12 && Chars(line)[..9] == "#include "
    ensures line[9].ch == '<' && line[10].ch == 'a' && line[11].ch == '>'
  {
    var s := Chars(line);
    assert s[9] == '<' && s[10] == 'a' && s[11] == '>';
  }

  /** The columns <a> after a recognised "#include ": the '<' opens the path,
      the '>' colours it. */
  lemma AnglePathRun(st: LineState, line: seq<Cell>)
    requires st == LineStart.(poundIdx := 0) && |line| == 12
    requires IncludeWord(line, 0, 9)
    requires TrimLeft(DirectiveText(line, 0, 9)) == DirectiveText(line, 0, 9)
    requires line[9].ch == '<' && line[10].ch == 'a' && line[11].ch == '>'
    ensures var r := Run(st, line, 9, 12);
      && r.0 == LineState(false, false, true, 0, 9)
      && forall k :: 0 <= k < 12 ==>
           r.1[k].fg == if k < 8 then PreprocFg else if k == 8 then line[8].fg else StringFg
  {
    SynIncludeOnMatch(st, line, 9);
    var s9 := Step(st, line, 9);
    assert s9.0 == LineState(false, false, true, 0, 9);
    PlainCharacter(s9.0, s9.1, 10);
    var s10 := Step(s9.0, s9.1, 10);
    GreaterClosesIncludePath(s10.0, s10.1, 11);
    var s11 := Step(s10.0, s10.1, 11);
    assert Run(s10.0, s10.1, 11, 12) == s11;
    assert Run(s9.0, s9.1, 10, 12) == s11;
  }

  /** On the line `#include "a">` the state before the last column has the
      include flag set and no '<' recorded, with a '>' outside any string:
      the case in which the source colours from column -1. */
  lemma QuotedIncludeThenGreater(line: seq<Cell>)
    requires Chars(line) == "#include \"a\">"
    ensures var r := Run(LineStart, line, 0, 12);
      UnsetLessHazard(r.0, r.1, 12) && r.0.lessIdx == -1
  {
    QuotedPathChars(line);
    IncludeDirectivePrefix(line);
    RunSplit(LineStart, line, 0, 9, 12);
    QuotedPathRun(LineStart.(poundIdx := 0), line);
  }

  lemma QuotedPathChars(line: seq<Cell>)
    requires Chars(line) == "#include \"a\">"
    ensures |line| == 13 && Chars(line)[..9] == "#include "
    ensures line[9].ch == '"' && line[10].ch == 'a' && line[11].ch == '"' && line[12].ch == '>'
  {
    var s := Chars(line);
    assert s[9] == '"' && s[10] == 'a' && s[11] == '"' && s[12] == '>';
  }

  /** The columns "a" after a recognised #include: the string opens with the
      include flag set, and closes again. */
  lemma QuotedPathRun(st: LineState, line: seq<Cell>)
    requires st == LineStart.(poundIdx := 0) && |line| == 13
    requires IncludeWord(line, 0, 9)
    requires line[9].ch == '"' && line[10].ch == 'a' && line[11].ch == '"' && line[12].ch == '>'
    ensures var r := Run(st, line, 9, 12);
      r.0 == LineState(false, false, true, 0, -1) && r.1[12].ch == '>'
  {
    OpeningQuote(st, line, 9);
    var s9 := Step(st, line, 9);
    assert s9.0 == LineState(true, false, true, 0, -1);
    StringCharacter(s9.0, s9.1, 10);
    var s10 := Step(s9.0, s9.1, 10);
    ClosingQuote(s10.0, s10.1, 11);
    var s11 := Step(s10.0, s10.1, 11);
    assert Run(s10.0, s10.1, 11, 12) == s11;
    assert Run(s9.0, s9.1, 10, 12) == s11;
  }
}
