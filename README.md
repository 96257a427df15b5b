# uemacs C syntax highlighting and string utilities, modelled in Dafny

This project models two small parts of the uemacs editor.

- **syntax.c**: the per-line C syntax highlighter. The editor calls
  `syntax_c_line_init` at the start of a display line. It then calls
  `syntax_c_handle` once per column, from left to right. Each call reads the
  character of that column, and sometimes the one before it. It writes
  foreground colours into the line's cells, and it can recolour an earlier
  column or span. Five module-level variables carry the state along the line:
  - the flags `hi_sstring`, `hi_scomment` and `hi_include`;
  - the column indices `hi_pound_idx` and `hi_less_idx`, where -1 means unset.

  The highlighter recognises `//` comments, double-quoted strings with
  backslash escapes, a line-leading `#`, and `#include` followed by `"…"` or
  `<…>`. `syn_include` decides whether the space-trimmed word after the `#`
  is exactly `include`. `syntax_specialkey` colours a run of columns.
- **util.c**: the character classes `is_octal`, `is_digit` and `is_hex`; the
  numeral recognisers `is_hex_str`, `is_octal_str`, `is_int_str` and
  `is_float_str`; and `mystrscpy`, a size-bounded copy that always
  terminates with NUL.

Files:

- `util.dfy` (module `Util`). The character classes are functions. Each
  numeral grammar is a predicate. Each recogniser is a method with the
  source's index loop and early returns, proved equal to its predicate. The
  grammars are then proved mutually exclusive. `mystrscpy` is a method on an
  `array<char>`, proved against the function `StrSCpy`.
- `syntax.dfy` (module `Syntax`). The five variables are the fields of the
  class `CSyntax`, and a `Cell` is a character with a colour. The methods
  work in place on an `array<Cell>`, using the source's loops. `LineState`
  is the value of the five fields. `Step` is the value-level reference for
  one `syntax_c_handle` call, corrected for the defect under Findings. `Run`
  handles a span of columns and `Highlight` a whole line. Each
  method's postcondition ties the new fields and the new array to these
  functions.
- `syntax_facts.dfy` (module `SyntaxFacts`). It proves what each branch of
  `syntax_c_handle` does and what a run of columns does. It also relates
  `syn_include`'s two index scans to a reference definition of trimming
  spaces, and works through whole example lines.

The colour constants keep the values configured in the source. In the
source, `speckeyfg` and `preprocfg` are the same value. No property here
relies on any two colours being different.

## Model

| member | source | states |
|---|---|---|
| `Util.IsOctal` | util.c:21-24 | true exactly for the characters 0 through 7 |
| `Util.IsDigit` | util.c:26-29 | true exactly for the characters 0 through 9 |
| `Util.IsHex` | util.c:31-36 | true exactly for the decimal digits and A–F, a–f |
| `Util.ClassesNested` | util.c:21-36 | every octal digit is a digit and every digit is a hex digit; the other hex digits are the six letters in either case |
| `Util.HexStr` | util.c:38-54 | the loop answers true exactly when the string has length at least 3, starts with 0x or 0X, and every later character is a hex digit |
| `Util.OctalStr` | util.c:56-72 | the loop answers true exactly when the string has length at least 2, starts with 0, and every later character is an octal digit |
| `Util.IntStr` | util.c:74-87 | the loop answers true exactly when every character is a digit and there is no leading 0 in a string longer than one; the empty string is accepted |
| `Util.FloatStr` | util.c:89-111 | the loop answers true exactly when the string has length at least 2, has only digits and exactly one '.', and does not start with a 0 that is not followed by '.' |
| `Util.OctalNotInt` | util.c:64-65 | no string is both an octal numeral and a decimal integer |
| `Util.IntNotFloat` | util.c:82-85 | no string is both a decimal integer and a float |
| `Util.HexExcludesOthers` | util.c:46-47 | a hex numeral is neither octal, nor a decimal integer, nor a float |
| `Util.AtMostOneNumeral` | util.c:39-111 | at most one of the four grammars accepts any given string |
| `Util.SpotValues` | util.c:57-111 | "09" is no numeral; "017" is octal only; "0.5" is a float only; "0x1F" is hex; "42" and the empty string are decimal integers |
| `Util.CopyCount` | util.c:10-15 | the number of characters copied: all before the first NUL of src; for a positive size at most size-1, and fewer only when a NUL stops the copy; for a negative size, which never counts down to 0, exactly up to the NUL |
| `Util.StrSCpy` | util.c:8-19 | the buffer after the copy: unchanged for size 0; otherwise the copied prefix of src, then a NUL, then the old contents |
| `Util.StrSCpyTruncates` | util.c:8-19 | as a C string, dst holds src, cut to at most size-1 characters when size is positive; with a positive size nothing at or beyond index size is written |
| `Util.MyStrSCpy` | util.c:8-19 | for every size, the pointer loop leaves dst exactly as StrSCpy describes, provided the reads stay in src and the writes in dst |
| `Syntax.Paint` | syntax.c:93-94 | colour c on columns lo..hi-1; all characters and every other colour are unchanged |
| `Syntax.FirstNonSpace` | syntax.c:107-111 | the first column in lo..hi-1 that is not a space, or hi; everything before it is a space |
| `Syntax.LastNonSpace` | syntax.c:113-117 | the last column after stop, up to start, that is not a space, or stop; everything after it is a space |
| `Syntax.SynInclude` | syntax.c:103-132 | only the include flag can change and it is never cleared; when it ends up clear, neither the state nor the line changed |
| `Syntax.QuoteStep` | syntax.c:54-69 | the '"' branch keeps the line invariant, keeps every character, and touches no later column |
| `Syntax.StringCharStep` | syntax.c:70-78 | the in-string branch keeps the line invariant, keeps every character, and touches no later column |
| `Syntax.Step` | syntax.c:47-100 | one call keeps the line invariant (indices below the next column; a recorded '<' implies include and follows the '#'; an open string implies a column was handled), keeps every character, and touches no later column |
| `Syntax.StepKeepsRecords` | syntax.c:52-99 | within a line a recorded '#' or '<' column never changes, and the comment and include flags are never cleared |
| `Syntax.Run` | syntax.c:47-100 | handling columns lo..hi-1 in order keeps the invariant and characters and touches no column from hi on |
| `Syntax.Highlight` | syntax.c:37-100 | a whole line, from the state line init sets: the line invariant holds at the end and no character is rewritten |
| `Syntax.SpecialKey` | syntax.c:29-34 | exactly columns start..start+len-1 get the special-key colour; no character and no other colour changes |
| `Syntax.SpellsInclude` | syntax.c:119-126 | the seven comparisons succeed exactly when columns i..j read "include" |
| `Syntax.SkipSpaces` | syntax.c:107-111 | the loop returns FirstNonSpace of the cells |
| `Syntax.SkipSpacesBack` | syntax.c:113-117 | the loop returns LastNonSpace of the cells |
| `Syntax.PaintRange` | syntax.c:128-129 | the colouring loop leaves the array as Paint describes |
| `Syntax.CSyntax.constructor` | syntax.c:20-24 | the static variables start zeroed: flags false and both indices 0 |
| `Syntax.CSyntax.LineInit` | syntax.c:37-44 | from any state: all three flags false and both indices -1, the state in which a line starts |
| `Syntax.CSyntax.SynIncludeAt` | syntax.c:103-132 | the two scans and the test leave the include flag and the array exactly as SynInclude describes |
| `Syntax.CSyntax.MarkDirective` | syntax.c:127-130 | the '#' and columns i..j get the preprocessor colour and the include flag is set |
| `Syntax.CSyntax.QuoteAt` | syntax.c:54-69 | the '"' branch leaves the fields and the array as QuoteStep describes |
| `Syntax.CSyntax.StringCharAt` | syntax.c:70-78 | the in-string branch leaves the array as StringCharStep describes and no field changes |
| `Syntax.CSyntax.Handle` | syntax.c:47-100 | one call leaves the fields and the array as Step describes, and the line invariant holds for the next column |
| `SyntaxFacts.FirstScanTrimsLeft` | syntax.c:107-111 | the first scan stops where the text after '#' loses its leading spaces |
| `SyntaxFacts.SecondScanTrimsRight` | syntax.c:113-117 | the second scan stops where the trailing spaces begin |
| `SyntaxFacts.ScansFindTrimmedText` | syntax.c:107-117 | the two scans bracket exactly the space-trimmed text between '#' and the current column |
| `SyntaxFacts.ScansSpellInclude` | syntax.c:107-126 | the comparisons at the scanned columns succeed exactly when the trimmed text is "include" |
| `SyntaxFacts.SynIncludeOnMatch` | syntax.c:119-131 | when the trimmed text is "include": the include flag is set and exactly the '#' and the seven letters of the word get the preprocessor colour |
| `SyntaxFacts.SynIncludeTouchesDirective` | syntax.c:119-131 | syn_include rewrites no character and recolours only the '#' and columns between it and the current one, always as preprocessor text |
| `SyntaxFacts.SynIncludeOnMismatch` | syntax.c:119-131 | when the trimmed text is anything else, nothing changes |
| `SyntaxFacts.CommentColoursColumn` | syntax.c:52-53 | inside a comment the column gets the comment colour and the state is unchanged |
| `SyntaxFacts.DoubleSlashOpensComment` | syntax.c:95-98 | a '/' after a '/', outside strings, colours both columns as comment and opens the comment |
| `SyntaxFacts.StringShieldsComment` | syntax.c:54-78 | inside a string no comment opens; only a closing quote changes the state, and only the current column or it and the one before are recoloured, as string or special character |
| `SyntaxFacts.OpeningQuote` | syntax.c:55-59 | an opening quote sets the string flag and gets the string colour; after a '#' the include flag is set exactly when the directive word is "include", and then the '#' and the word get the preprocessor colour; every other column keeps its colour, and with no recognised directive only the quote changes |
| `SyntaxFacts.ClosingQuote` | syntax.c:60-68 | a quote closes the string unless it follows a backslash outside an include; in that case both columns get the special-character colour and the string stays open |
| `SyntaxFacts.StringCharacter` | syntax.c:70-78 | outside an include, a backslash followed by one of \ a b e n r t v gives both columns the special-character colour; any other character gets the string colour; the state does not change |
| `SyntaxFacts.PoundRecorded` | syntax.c:79-85 | a '#' is recorded only when none was and every earlier column is a space; it is not coloured |
| `SyntaxFacts.LessOpensIncludePath` | syntax.c:86-91 | a '<' after a '#' is recorded and gets the preprocessor colour exactly when the directive is #include; the '#' and the word get the preprocessor colour when the word is recognised at this column; every other column keeps its colour; otherwise nothing changes |
| `SyntaxFacts.GreaterClosesIncludePath` | syntax.c:92-94 | a '>' after a recorded '<' gives every column from the '<' through the '>' the string colour |
| `SyntaxFacts.PlainCharacter` | syntax.c:79-99 | outside strings and comments, a character other than " # < > / changes nothing |
| `SyntaxFacts.LoneSlash` | syntax.c:95-99 | outside strings and comments, a '/' that does not follow a '/' changes nothing |
| `SyntaxFacts.GreaterOutsideInclude` | syntax.c:92-99 | outside strings and comments, a '>' before any #include is recognised changes nothing |
| `SyntaxFacts.RunSplit` | syntax.c:47-100 | handling a span of columns is handling its first part and then the rest |
| `SyntaxFacts.CommentRunsToLineEnd` | syntax.c:52-53 | once a comment is open, every later column gets the comment colour and the state never changes again |
| `SyntaxFacts.PlainRun` | syntax.c:79-99 | a span of plain characters outside strings and comments changes nothing |
| `SyntaxFacts.StepKeepsMarks` | syntax.c:79-91 | after any call, a recorded '#' column holds a '#' with only spaces before it, and a recorded '<' column holds a '<' |
| `SyntaxFacts.RunKeepsMarks` | syntax.c:79-91 | the same holds after handling any span of columns |
| `SyntaxFacts.HighlightMarks` | syntax.c:79-91 | after a whole line, the recorded '#' is line-leading and the recorded '<' is a '<' |
| `SyntaxFacts.GreaterWithoutLessIsInert` | syntax.c:92-94 | in the corrected Step, a '>' after an include whose path opened with '"' changes nothing |
| `SyntaxFacts.QuotedSlashesStayString` | syntax.c:54-78 | on the line "//" in quotes, all four columns get the string colour and no comment opens |
| `SyntaxFacts.EscapedBackslashThenQuote` | syntax.c:61-76 | on the line `"\\"` the two backslashes form an escape, and then the closing quote, which follows a backslash, is taken as escaped too: the string is still open at the end of the line |
| `SyntaxFacts.IncludeDirectivePrefix` | syntax.c:79-85 | a line starting "#include " records the '#' at column 0, changes no colour in its first nine columns, and its directive word is include |
| `SyntaxFacts.AnglePathLine` | syntax.c:86-94 | on `#include <a>` the '#' and the word get the preprocessor colour, `<a>` gets the string colour, and the include state records '<' at column 9 |
| `SyntaxFacts.AnglePathRun` | syntax.c:86-94 | after "#include ", the columns `<a>` open and then colour the include path |
| `SyntaxFacts.QuotedIncludeThenGreater` | syntax.c:56-59 | on `#include "a">` the last column is reached with the include flag set, no '<' recorded and a '>' outside any string |
| `SyntaxFacts.QuotedPathRun` | syntax.c:54-69 | after "#include ", the columns `"a"` open and close a string with the include flag set, leaving no '<' recorded |

## Left out

- The display driver that calls these hooks, and the `struct text` layout. A cell is modelled as a character plus a colour, and a display line as an `array<Cell>`.
- The `COLOR` compile guard and `estruct.h`. The colours are constants with the source's configured values.
- `syntax_mcomment_init` and `syntax_c_line_end` are declared in syntax.h but are not part of this model, since syntax.c does not define them.
- The headers util.h and syntax.h hold only declarations.
- The numeral recognisers take the characters before the terminating NUL as a `seq<char>`. `strlen` is not modelled, and NUL handling is kept only for `mystrscpy`.
- MyStrSCpy: takes the source string as a value. Overlap between `src` and `dst` is not modelled.
- MyStrSCpy: requires that its reads stay inside `src` and its writes inside `dst`. The C code has no such check; for other inputs it reads or writes out of bounds. Any size is accepted, including a negative size or one larger than the buffer when the copy still fits.
- MyStrSCpy: with a negative size, `--size` never reaches 0, so the copy runs to the first NUL of `src`. The 32-bit wrap-around of `size` after 2^31 decrements is not modelled.
- Handle: requires `ValidAt(vtcol)`. This says the caller started the line with `LineInit` and handled the earlier columns in order, which is the protocol the display driver follows. The zeroed statics before the first `LineInit` are not a valid line state.
- Handle: also excludes the out-of-bounds case listed under Findings.
- Step: states only the line invariant, kept characters and untouched later columns. What each branch computes is stated by the per-branch lemmas of `SyntaxFacts` and by `StepKeepsRecords`.
- Step: is the corrected handler. In the `UnsetLessHazard` state it treats '>' as inert, where the source colours from `v_text[-1]` (see Findings). Run and Highlight are built on it, so they describe the source only on lines that never reach that state.
- A quote after an escaped backslash, as in `"\\"`, is taken as escaped, because the source looks only at the previous character. The model follows the source, and `EscapedBackslashThenQuote` shows the string staying open.
- SpecialKey: requires columns start..start+len-1 to lie inside the line when len > 0. The C code does not check this and writes out of bounds otherwise.
- Escape letters follow the code's list (`\ a b e n r t v`). Other C escapes, such as `f`, get the string colour.

## Findings

| source | as written | input that shows it | evidently intended | confidence | as-written member | corrected member |
|---|---|---|---|---|---|---|
| syntax.c:92-94 | a '>' outside a string, once `hi_include` is set, colours from `hi_less_idx` to the current column, even when no '<' was recorded and `hi_less_idx` is -1 | the line `#include "a">`: the quoted path sets `hi_include` (syntax.c:56-59), and the '>' at column 12 then writes `v_text[-1]` | the '>' branch fires only when a '<' was recorded (`hi_less_idx >= 0`), the guard `Syntax.Step` adds | not executed | `SyntaxFacts.QuotedIncludeThenGreater` | `SyntaxFacts.GreaterWithoutLessIsInert` |
