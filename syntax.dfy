/** The per-line C syntax highlighter of syntax.c.

    The host calls LineInit at the start of a line and then Handle once per
    column, in increasing column order; each call reads the character of that
    column (and sometimes the one before) and writes foreground colours into the
    line's cells, possibly recolouring earlier columns. The five hi_* variables of
    the source are the fields of CSyntax; LineState is their value, and Step is
    the value-level reference for one Handle call. */
module Syntax {

  /** One display cell: its character and its foreground colour. */
  datatype Cell = Cell(ch: char, fg: int)

  // Foreground colours, as configured in the source (speckeyfg and preprocfg coincide).
  const SpecKeyFg: int := 0x00D8FF
  const SpecCharFg: int := 0xFFD2D3
  const CommentFg: int := 0x00E8E6
  const StringFg: int := 0xBB75A6
  const PreprocFg: int := 0x00D8FF

  /** The letters that, after a backslash inside a string, form an escape. */
  const EscapeLetters: seq<char> := "\\abenrtv"

  /** The five per-line variables; -1 is the unset index. */
  datatype LineState = LineState(
    inString: bool,   // inside a double-quoted string
    inComment: bool,  // inside a // comment
    inInclude: bool,   // an #include directive was recognised
    poundIdx: int,   // column of a line-leading '#'
    lessIdx: int)    // column of the '<' opening an include path

  /** The state LineInit establishes. */
  const LineStart := LineState(false, false, false, -1, -1)

  /** What holds of the state before column col is handled, when the line was
      started with LineInit and columns 0..col-1 were handled in order. */
  predicate Inv(st: LineState, col: int)
  {
    && -1 <= st.poundIdx < col
    && -1 <= st.lessIdx < col
    && (st.inInclude ==> st.poundIdx >= 0)
    && (st.lessIdx >= 0 ==> st.inInclude && st.poundIdx < st.lessIdx)
    && (st.inString ==> col > 0)
  }

  /** The characters of a run of cells. */
  function Chars(line: seq<Cell>): (s: seq<char>)
    ensures |s| == |line|
    ensures forall i :: 0 <= i < |line| ==> s[i] == line[i].ch
  {
    seq(|line|, i requires 0 <= i < |line| => line[i].ch)
  }

  /** The line with columns lo..hi-1 given the foreground colour c, one column
      at a time as the source's colouring loops do. */
  function Paint(line: seq<Cell>, lo: int, hi: int, c: int): (r: seq<Cell>)
    requires 0 <= lo <= hi <= |line|
    ensures |r| == |line|
    ensures forall i :: 0 <= i < |line| ==> r[i].ch == line[i].ch
    ensures forall i :: 0 <= i < |line| ==> r[i].fg == if lo <= i < hi then c else line[i].fg
    decreases hi - lo
  {
    if lo == hi then line else Paint(line[lo := line[lo].(fg := c)], lo + 1, hi, c)
  }

  /** First column in lo..hi-1 that is not a space, or hi when there is none. */
  function FirstNonSpace(line: seq<Cell>, lo: int, hi: int): (i: int)
    requires 0 <= lo <= hi <= |line|
    ensures lo <= i <= hi
    ensures forall k :: lo <= k < i ==> line[k].ch == ' '
    ensures i < hi ==> line[i].ch != ' '
    decreases hi - lo
  {
    if lo == hi || line[lo].ch != ' ' then lo else FirstNonSpace(line, lo + 1, hi)
  }

  /** Last column in stop+1..start that is not a space, or stop when there is none. */
  function LastNonSpace(line: seq<Cell>, stop: int, start: int): (j: int)
    requires 0 <= stop <= start < |line|
    ensures stop <= j <= start
    ensures forall k :: j < k <= start ==> line[k].ch == ' '
    ensures j > stop ==> line[j].ch != ' '
    decreases start - stop
  {
    if start == stop || line[start].ch != ' ' then start else LastNonSpace(line, stop, start - 1)
  }

  /** The seven character comparisons syn_include makes on columns i..j. */
  predicate SpelledAt(line: seq<Cell>, i: int, j: int)
  {
    && j - i == 6 && 0 <= i && j < |line|
    && line[i].ch == 'i' && line[i + 1].ch == 'n' && line[i + 2].ch == 'c' && line[i + 3].ch == 'l'
    && line[i + 4].ch == 'u' && line[i + 5].ch == 'd' && line[i + 6].ch == 'e'
  }

  /** syn_include: i and j are the first and last non-space columns between the
      '#' at st.poundIdx and column col; when columns i..j spell "include"
      (SpellsInclude), colour the '#' and that word as preprocessor text and set
      include; otherwise change nothing. */
  function SynInclude(st: LineState, line: seq<Cell>, col: int): (r: (LineState, seq<Cell>))
    requires 0 <= st.poundIdx < col <= |line|
    // only the include flag may change, and it is only ever set
    ensures r.0 == st.(inInclude := r.0.inInclude) && (st.inInclude ==> r.0.inInclude)
    // while no directive is recognised, nothing changes
    ensures !r.0.inInclude ==> r == (st, line)
    ensures |r.1| == |line|
  {
    var i := FirstNonSpace(line, st.poundIdx + 1, col);
    var j := LastNonSpace(line, st.poundIdx, col - 1);
    if SpelledAt(line, i, j) then
      (st.(inInclude := true), Paint(Paint(line, st.poundIdx, st.poundIdx + 1, PreprocFg), i, j + 1, PreprocFg))
    else
      (st, line)
  }

  /** The case the source mishandles: a '>' outside any string or comment after
      an #include whose path was opened with '"', so that no '<' was recorded.
      syntax_c_handle then colours from column -1. */
  predicate UnsetLessHazard(st: LineState, line: seq<Cell>, col: int)
    requires 0 <= col < |line|
  {
    !st.inComment && !st.inString && line[col].ch == '>' && st.inInclude && st.lessIdx < 0
  }

  /** The '"' branch of syntax_c_handle on column col, outside a comment: a
      string opens (after trying syn_include when a '#' was seen), closes, or an
      escaped quote gets the special-character colour. */
  function QuoteStep(st: LineState, line: seq<Cell>, col: int): (r: (LineState, seq<Cell>))
    requires Inv(st, col) && col < |line| && line[col].ch == '"'
    ensures Inv(r.0, col + 1) && |r.1| == |line|
    ensures forall i :: 0 <= i < |line| ==> r.1[i].ch == line[i].ch
    ensures forall i :: col < i < |line| ==> r.1[i] == line[i]
  {
    if !st.inString then
      var withInc := if st.poundIdx >= 0 then SynInclude(st, line, col) else (st, line);
      (withInc.0.(inString := true), Paint(withInc.1, col, col + 1, StringFg))
    else if line[col - 1].ch != '\\' || st.inInclude then
      (st.(inString := false), Paint(line, col, col + 1, StringFg))
    else
      (st, Paint(line, col - 1, col + 1, SpecCharFg))
  }

  /** Any other character inside a string: after a backslash outside an
      #include, an escape letter and the backslash get the special-character
      colour; otherwise the column gets the string colour. */
  function StringCharStep(st: LineState, line: seq<Cell>, col: int): (r: (LineState, seq<Cell>))
    requires Inv(st, col) && col < |line| && st.inString
    ensures Inv(r.0, col + 1) && |r.1| == |line|
    ensures forall i :: 0 <= i < |line| ==> r.1[i].ch == line[i].ch
    ensures forall i :: col < i < |line| ==> r.1[i] == line[i]
  {
    if !st.inInclude && line[col - 1].ch == '\\' && line[col].ch in EscapeLetters then
      (st, Paint(line, col - 1, col + 1, SpecCharFg))
    else
      (st, Paint(line, col, col + 1, StringFg))
  }

  /** One syntax_c_handle call on column col: the new state and the new line.
      This is the corrected handler.
      The '>' branch only fires when a '<' was recorded; on every state where
      that makes a difference the source indexes before the line (see
      UnsetLessHazard), and everywhere else this is the source's behaviour. */
  function Step(st: LineState, line: seq<Cell>, col: int): (r: (LineState, seq<Cell>))
    requires Inv(st, col) && col < |line|
    ensures Inv(r.0, col + 1) && |r.1| == |line|
    // characters are never rewritten, and no column after col is touched
    ensures forall i :: 0 <= i < |line| ==> r.1[i].ch == line[i].ch
    ensures forall i :: col < i < |line| ==> r.1[i] == line[i]
  {
    var c := line[col].ch;
    if st.inComment then
      (st, Paint(line, col, col + 1, CommentFg))
    else if c == '"' then
      QuoteStep(st, line, col)
    else if st.inString then
      StringCharStep(st, line, col)
    else if c == '#' && st.poundIdx < 0 then
      if forall k :: 0 <= k < col ==> line[k].ch == ' ' then (st.(poundIdx := col), line) else (st, line)
    else if c == '<' && st.poundIdx >= 0 && st.lessIdx < 0 then
      var tried := SynInclude(st, line, col);
      if tried.0.inInclude then (tried.0.(lessIdx := col), Paint(tried.1, col, col + 1, PreprocFg))
      else tried
    else if c == '>' && st.inInclude && st.lessIdx >= 0 then
      (st, Paint(line, st.lessIdx, col + 1, StringFg))
    else if c == '/' && col > 0 && line[col - 1].ch == '/' then
      (st.(inComment := true), Paint(line, col - 1, col + 1, CommentFg))
    else
      (st, line)
  }

  /** Within a line a recorded index keeps its value, and the comment and
      include flags are never cleared. */
  lemma StepKeepsRecords(st: LineState, line: seq<Cell>, col: int)
    requires Inv(st, col) && col < |line|
    ensures var r := Step(st, line, col);
      && (st.poundIdx >= 0 ==> r.0.poundIdx == st.poundIdx)
      && (st.lessIdx >= 0 ==> r.0.lessIdx == st.lessIdx)
      && (st.inComment ==> r.0.inComment)
      && (st.inInclude ==> r.0.inInclude)
  {
  }

  /** Handling columns lo..hi-1 in order, starting in state st. */
  function Run(st: LineState, line: seq<Cell>, lo: int, hi: int): (r: (LineState, seq<Cell>))
    requires Inv(st, lo) && lo <= hi <= |line|
    ensures Inv(r.0, hi) && |r.1| == |line|
    ensures forall i :: 0 <= i < |line| ==> r.1[i].ch == line[i].ch
    ensures forall i :: hi <= i < |line| ==> r.1[i] == line[i]
    decreases hi - lo
  {
    if lo == hi then (st, line)
    else
      var next := Step(st, line, lo);
      Run(next.0, next.1, lo + 1, hi)
  }

  /** A whole line: the state LineInit sets, then Step on every column. Step
      is the corrected handler, so this is what syntax_c_handle does on every
      line that never reaches UnsetLessHazard. */
  function Highlight(line: seq<Cell>): (r: (LineState, seq<Cell>))
    ensures Inv(r.0, |line|) && |r.1| == |line|
    ensures forall i :: 0 <= i < |line| ==> r.1[i].ch == line[i].ch
  {
    Run(LineStart, line, 0, |line|)
  }

  /** syntax_specialkey: columns start..start+len-1 get the special-key colour. */
  method SpecialKey(a: array<Cell>, start: int, len: int)
    requires len <= 0 || (0 <= start && start + len <= a.Length)
    modifies a
    ensures forall i :: 0 <= i < a.Length ==> a[i].ch == old(a[i].ch)
    ensures forall i :: 0 <= i < a.Length ==>
      a[i].fg == if start <= i < start + len then SpecKeyFg else old(a[i].fg)
  {
    var i := 0;
    while i < len
      invariant 0 <= i <= if len < 0 then 0 else len
      invariant forall k :: 0 <= k < a.Length ==> a[k].ch == old(a[k].ch)
      invariant forall k :: 0 <= k < a.Length ==>
        a[k].fg == if start <= k < start + i then SpecKeyFg else old(a[k].fg)
    {
      a[start + i] := a[start + i].(fg := SpecKeyFg);
      i := i + 1;
    }
  }

  /** A column satisfying FirstNonSpace's contract is the one it returns. */
  lemma {:induction false} FirstNonSpaceIs(line: seq<Cell>, lo: int, hi: int, i: int)
    requires 0 <= lo <= i <= hi <= |line|
    requires forall k :: lo <= k < i ==> line[k].ch == ' '
    requires i < hi ==> line[i].ch != ' '
    ensures FirstNonSpace(line, lo, hi) == i
    decreases i - lo
  {
    if lo < i {
      FirstNonSpaceIs(line, lo + 1, hi, i);
    }
  }

  /** A column satisfying LastNonSpace's contract is the one it returns. */
  lemma {:induction false} LastNonSpaceIs(line: seq<Cell>, stop: int, start: int, j: int)
    requires 0 <= stop <= j <= start < |line|
    requires forall k :: j < k <= start ==> line[k].ch == ' '
    requires j > stop ==> line[j].ch != ' '
    ensures LastNonSpace(line, stop, start) == j
    decreases start - j
  {
    if j < start {
      LastNonSpaceIs(line, stop, start - 1, j);
    }
  }

  /** The seven character comparisons of syn_include test for the word "include". */
  lemma SpellsInclude(line: seq<Cell>, i: int, j: int)
    requires 0 <= i && j < |line| && j - i == 6
    ensures SpelledAt(line, i, j) <==> Chars(line[i..j + 1]) == "include"
  {
    var w := Chars(line[i..j + 1]);
    assert forall k :: 0 <= k < 7 ==> w[k] == line[i + k].ch;
  }

  /** SynInclude in terms of the columns its two scans stop at. */
  lemma SynIncludeAtScans(st: LineState, line: seq<Cell>, col: int, i: int, j: int)
    requires 0 <= st.poundIdx < col <= |line|
    requires i == FirstNonSpace(line, st.poundIdx + 1, col)
    requires j == LastNonSpace(line, st.poundIdx, col - 1)
    ensures SpelledAt(line, i, j) ==> st.poundIdx < i <= j < col
    ensures SynInclude(st, line, col) ==
      if SpelledAt(line, i, j) then
        (st.(inInclude := true), Paint(Paint(line, st.poundIdx, st.poundIdx + 1, PreprocFg), i, j + 1, PreprocFg))
      else
        (st, line)
  {
  }

  /** The first loop of syn_include: the first column in lo..hi-1 that is not a
      space, or hi. */
  method SkipSpaces(a: array<Cell>, lo: int, hi: int) returns (i: int)
    requires 0 <= lo <= hi <= a.Length
    ensures i == FirstNonSpace(a[..], lo, hi)
  {
    i := lo;
    while i < hi
      invariant lo <= i <= hi
      invariant forall k :: lo <= k < i ==> a[k].ch == ' '
    {
      if a[i].ch != ' ' {
        break;
      }
      i := i + 1;
    }
    FirstNonSpaceIs(a[..], lo, hi, i);
  }

  /** The second loop of syn_include: the last column in stop+1..start that is
      not a space, or stop. */
  method SkipSpacesBack(a: array<Cell>, stop: int, start: int) returns (j: int)
    requires 0 <= stop <= start < a.Length
    ensures j == LastNonSpace(a[..], stop, start)
  {
    j := start;
    while j > stop
      invariant stop <= j <= start
      invariant forall k :: j < k <= start ==> a[k].ch == ' '
    {
      if a[j].ch != ' ' {
        break;
      }
      j := j - 1;
    }
    LastNonSpaceIs(a[..], stop, start, j);
  }

  /** A colouring loop of the source: columns lo..hi-1 get colour c. */
  method PaintRange(a: array<Cell>, lo: int, hi: int, c: int)
    requires 0 <= lo <= hi <= a.Length
    modifies a
    ensures a[..] == Paint(old(a[..]), lo, hi, c)
  {
    var k := lo;
    while k < hi
      invariant lo <= k <= hi
      invariant forall m :: 0 <= m < a.Length ==>
        a[m] == if lo <= m < k then old(a[m]).(fg := c) else old(a[m])
    {
      a[k] := a[k].(fg := c);
      k := k + 1;
    }
    ghost var r := Paint(old(a[..]), lo, hi, c);
    assert forall m :: 0 <= m < a.Length ==> a[m] == r[m];
  }

  /** The highlighter's module-level state. */
  class CSyntax {
    var inString: bool
    var inComment: bool
    var inInclude: bool
    var poundIdx: int
    var lessIdx: int

    function State(): LineState
      reads this
    {
      LineState(inString, inComment, inInclude, poundIdx, lessIdx)
    }

    /** The state is one that handling columns 0..col-1 of a line can leave. */
    predicate ValidAt(col: int)
      reads this
    {
      Inv(State(), col)
    }

    /** Static storage starts zeroed: flags false and both indices 0. */
    constructor ()
      ensures State() == LineState(false, false, false, 0, 0)
    {
      inString, inComment, inInclude := false, false, false;
      poundIdx, lessIdx := 0, 0;
    }

    /** syntax_c_line_init. */
    method LineInit()
      modifies this
      ensures State() == LineStart
      ensures ValidAt(0)
    {
      inString := false;
      inComment := false;
      inInclude := false;
      poundIdx := -1;
      lessIdx := -1;
    }

    /** syn_include on the cells of a. */
    method SynIncludeAt(a: array<Cell>, vtcol: int)
      requires 0 <= poundIdx < vtcol <= a.Length
      modifies this`inInclude, a
      ensures (State(), a[..]) == SynInclude(old(State()), old(a[..]), vtcol)
    {
      ghost var st := State();
      ghost var line := a[..];
      var i := SkipSpaces(a, poundIdx + 1, vtcol);
      var j := SkipSpacesBack(a, poundIdx, vtcol - 1);
      assert a[..] == line;
      SynIncludeAtScans(st, line, vtcol, i, j);
      if SpelledAt(a[..], i, j) {
        MarkDirective(a, i, j);
      }
    }

    /** The body of syn_include's test: colour the '#' and columns i..j as
        preprocessor text and set the include flag. */
    method MarkDirective(a: array<Cell>, i: int, j: int)
      requires 0 <= poundIdx < i <= j < a.Length
      modifies this`inInclude, a
      ensures inInclude
      ensures a[..] == Paint(Paint(old(a[..]), poundIdx, poundIdx + 1, PreprocFg), i, j + 1, PreprocFg)
    {
      a[poundIdx] := a[poundIdx].(fg := PreprocFg);
      assert a[..] == Paint(old(a[..]), poundIdx, poundIdx + 1, PreprocFg);
      PaintRange(a, i, j + 1, PreprocFg);
      inInclude := true;
    }

    /** The '"' branch of syntax_c_handle: open a string (trying syn_include
        first after a '#'), close it, or colour an escaped quote. */
    method QuoteAt(a: array<Cell>, vtcol: int)
      requires ValidAt(vtcol) && vtcol < a.Length
      requires !inComment && a[vtcol].ch == '"'
      modifies this, a
      ensures (State(), a[..]) == QuoteStep(old(State()), old(a[..]), vtcol)
    {
      if !inString {
        ghost var withInc := if poundIdx >= 0 then SynInclude(State(), a[..], vtcol) else (State(), a[..]);
        if poundIdx >= 0 {
          SynIncludeAt(a, vtcol);
        }
        assert (State(), a[..]) == withInc;
        inString := true;
        a[vtcol] := a[vtcol].(fg := StringFg);
        assert a[..] == Paint(withInc.1, vtcol, vtcol + 1, StringFg);
      } else if a[vtcol - 1].ch != '\\' || inInclude {
        inString := false;
        a[vtcol] := a[vtcol].(fg := StringFg);
        assert a[..] == Paint(old(a[..]), vtcol, vtcol + 1, StringFg);
      } else {
        a[vtcol] := a[vtcol].(fg := SpecCharFg);
        a[vtcol - 1] := a[vtcol - 1].(fg := SpecCharFg);
        assert a[..] == Paint(old(a[..]), vtcol - 1, vtcol + 1, SpecCharFg);
      }
    }

    /** The in-string branch of syntax_c_handle: an escape sequence gets the
        special-character colour, anything else the string colour. */
    method StringCharAt(a: array<Cell>, vtcol: int)
      requires ValidAt(vtcol) && vtcol < a.Length
      requires !inComment && a[vtcol].ch != '"' && inString
      modifies a
      ensures (State(), a[..]) == StringCharStep(State(), old(a[..]), vtcol)
    {
      if !inInclude && a[vtcol - 1].ch == '\\' && a[vtcol].ch in EscapeLetters {
        a[vtcol] := a[vtcol].(fg := SpecCharFg);
        a[vtcol - 1] := a[vtcol - 1].(fg := SpecCharFg);
        assert a[..] == Paint(old(a[..]), vtcol - 1, vtcol + 1, SpecCharFg);
      } else {
        a[vtcol] := a[vtcol].(fg := StringFg);
        assert a[..] == Paint(old(a[..]), vtcol, vtcol + 1, StringFg);
      }
    }

    /** syntax_c_handle, as the source writes it; callers must not reach the
        UnsetLessHazard case, where the source colours from column -1. */
    method Handle(a: array<Cell>, vtcol: int)
      requires ValidAt(vtcol) && vtcol < a.Length
      requires !UnsetLessHazard(State(), a[..], vtcol)
      modifies this, a
      ensures (State(), a[..]) == Step(old(State()), old(a[..]), vtcol)
      ensures ValidAt(vtcol + 1)
    {
      var c := a[vtcol].ch;
      if inComment {
        a[vtcol] := a[vtcol].(fg := CommentFg);
        assert a[..] == Paint(old(a[..]), vtcol, vtcol + 1, CommentFg);
      } else if c == '"' {
        QuoteAt(a, vtcol);
      } else if inString {
        StringCharAt(a, vtcol);
      } else if c == '#' && poundIdx < 0 {
        var i := SkipSpaces(a, 0, vtcol);
        if i == vtcol {
          poundIdx := vtcol;
        }
      } else if c == '<' && poundIdx >= 0 && lessIdx < 0 {
        ghost var tried := SynInclude(State(), a[..], vtcol);
        SynIncludeAt(a, vtcol);
        if inInclude {
          a[vtcol] := a[vtcol].(fg := PreprocFg);
          assert a[..] == Paint(tried.1, vtcol, vtcol + 1, PreprocFg);
          lessIdx := vtcol;
        }
      } else if c == '>' && inInclude {
        PaintRange(a, lessIdx, vtcol + 1, StringFg);
      } else if c == '/' && vtcol > 0 && a[vtcol - 1].ch == '/' {
        a[vtcol] := a[vtcol].(fg := CommentFg);
        a[vtcol - 1] := a[vtcol - 1].(fg := CommentFg);
        assert a[..] == Paint(old(a[..]), vtcol - 1, vtcol + 1, CommentFg);
        inComment := true;
      }
    }
  }
}
