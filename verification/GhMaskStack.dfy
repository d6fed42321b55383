/** What quote masking shows of every command, comments and nested substitutions included: one
    pass from left to right with a stack of the command texts it stands in. */
module GhMaskStack {
  import opened Common
  import opened GhMask

  /** A command text: the whole command, or the body of a substitution. */
  datatype Frame = Frame(start: nat, end: nat)

  /** Where the reader stands. `Bare` is text after a quote that never closes. */
  datatype Mode = Code | Escaped | Single | Double | DoubleEscaped | Comment | Bare

  predicate Nested(s: string, f: Frame, outer: seq<Frame>)
    decreases |outer|
  {
    && f.start <= f.end <= |s|
    && (outer != [] ==> outer[0].start <= f.start && f.end <= outer[0].end && Nested(s, outer[0], outer[1..]))
  }

  // ---------------------------------------------------------------- the reading

  /** A substitution starts at `i`. */
  predicate Opens(s: string, i: nat, end: nat)
    requires i < end <= |s|
  {
    s[i] == '`' || (s[i] == '$' && i + 1 < end && s[i + 1] == '(')
  }

  function BodyStart(s: string, i: nat): nat
    requires i < |s|
  {
    if s[i] == '$' then i + 2 else i + 1
  }

  /** Where the body of the substitution at `i` ends, at its closer or with the text around it. */
  function BodyEnd(s: string, i: nat, end: nat): (b: nat)
    requires i < end <= |s| && Opens(s, i, end)
    ensures BodyStart(s, i) <= b <= end
  {
    if s[i] == '$' then SubstEnd(s[..end], i + 1) else FindFrom(s[..end], '`', i + 1)
  }

  /** The closing quote of double-quoted text, its substitutions skipped. */
  function DoubleEnd(s: string, i: nat, end: nat): (j: nat)
    requires i <= end <= |s|
    ensures i <= j <= end
    decreases end - i
  {
    if i == end || s[i] == '"' then i
    else if s[i] == '\\' && i + 1 < end then DoubleEnd(s, i + 2, end)
    else if Opens(s, i, end) then
      var b := BodyEnd(s, i, end);
      if b < end then DoubleEnd(s, b + 1, end) else end
    else DoubleEnd(s, i + 1, end)
  }

  /** The quote at `i` is closed within the text. */
  predicate Closes(s: string, i: nat, end: nat)
    requires i < end <= |s|
  {
    if s[i] == '\'' then FindFrom(s[..end], '\'', i + 1) < end else DoubleEnd(s, i + 1, end) < end
  }

  predicate CommentAt(s: string, f: Frame, i: nat)
    requires f.start <= i < |s|
  {
    s[i] == '#' && (i == f.start || IsSpace(s[i - 1]) || s[i - 1] in {';', '|', '&', '(', ')'})
  }

  /** The mode after the character at `i`. */
  function After(s: string, f: Frame, i: nat, m: Mode, comments: bool): Mode
    requires f.start <= i < f.end <= |s|
  {
    match m
    case Code =>
      if comments && CommentAt(s, f, i) then Comment
      else if s[i] == '\\' && i + 1 < f.end then Escaped
      else if s[i] in {'\'', '"'} then
        if !Closes(s, i, f.end) then Bare else if s[i] == '\'' then Single else Double
      else Code
    case Escaped => Code
    case Single => if s[i] == '\'' then Code else Single
    case Double => if s[i] == '"' then Code else if s[i] == '\\' && i + 1 < f.end then DoubleEscaped else Double
    case DoubleEscaped => Double
    case Comment => if s[i] == '\n' then Code else Comment
    case Bare => Bare
  }

  /** What is shown of the character at `i`. */
  function Shown(s: string, f: Frame, i: nat, m: Mode, comments: bool): char
    requires f.start <= i < f.end <= |s|
  {
    match m
    case Code => if comments && CommentAt(s, f, i) then ' ' else s[i]
    case Escaped => s[i]
    case Single => if s[i] == '\'' then s[i] else Blank(s[i])
    case Double => if s[i] == '"' then s[i] else Blank(s[i])
    case DoubleEscaped => ' '
    case Comment => Blank(s[i])
    case Bare => s[i]
  }

  /** The reading of `s` from `i` on. A substitution inside double quotes is read as a command
      text of its own; its delimiters show, and the quotes go on after it. */
  function Read(s: string, f: Frame, i: nat, m: Mode, outer: seq<Frame>, comments: bool): string
    requires f.start <= i <= f.end && Nested(s, f, outer)
    decreases |s| - i, |outer|
  {
    if i == f.end then
      if outer == [] then ""
      else
        assert Nested(s, outer[0], outer[1..]);
        if i < outer[0].end then [s[i]] + Read(s, outer[0], i + 1, Double, outer[1..], comments)
        else Read(s, outer[0], i, Double, outer[1..], comments)
    else if m == Double && Opens(s, i, f.end) then
      var a := BodyStart(s, i);
      assert ([f] + outer)[1..] == outer;
      s[i..a] + Read(s, Frame(a, BodyEnd(s, i, f.end)), a, Code, [f] + outer, comments)
    else [Shown(s, f, i, m, comments)] + Read(s, f, i + 1, After(s, f, i, m, comments), outer, comments)
  }

  // ---------------------------------------------------------------- scans of a part of the text

  /** `u` is `t` from `a` on. */
  ghost predicate IsTail(t: string, a: nat, u: string) {
    a <= |t| && |u| == |t| - a && forall k :: 0 <= k < |u| ==> u[k] == t[a + k]
  }

  lemma {:induction false} FindShift(t: string, a: nat, u: string, c: char, k: nat)
    requires IsTail(t, a, u) && k <= |u|
    ensures FindFrom(u, c, k) + a == FindFrom(t, c, a + k)
    decreases |u| - k
  {
    if k < |u| && u[k] != c {
      FindShift(t, a, u, c, k + 1);
    }
  }

  lemma {:induction false} SkipShift(t: string, a: nat, u: string, k: nat)
    requires IsTail(t, a, u) && k <= |u|
    ensures SkipDouble(u, k) + a == SkipDouble(t, a + k)
    decreases |u| - k
  {
    if k < |u| && u[k] != '"' {
      if u[k] == '\\' && k + 1 < |u| {
        SkipShift(t, a, u, k + 2);
      } else {
        SkipShift(t, a, u, k + 1);
      }
    }
  }

  /** One turn of the parenthesis scan: where it goes on and how many are open then. */
  function ScanTurn(s: string, i: nat, depth: nat): (r: (nat, nat))
    requires i < |s| && depth >= 1
    ensures i < r.0 <= |s|
  {
    if s[i] == '\\' && i + 1 < |s| then (i + 2, depth)
    else if s[i] == '\'' then
      var j := FindFrom(s, '\'', i + 1);
      (if j == |s| then |s| else j + 1, depth)
    else if s[i] == '"' then (SkipDouble(s, i + 1), depth)
    else (i + 1, if s[i] == '(' then depth + 1 else if s[i] == ')' then depth - 1 else depth)
  }

  lemma ScanUnfolds(s: string, i: nat, depth: nat)
    requires i < |s| && depth >= 1
    ensures var (next, open) := ScanTurn(s, i, depth);
      SubstScan(s, i, depth) == if open == 0 then i else SubstScan(s, next, open)
  {
  }

  lemma ScanTurnShift(t: string, a: nat, u: string, k: nat, depth: nat)
    requires IsTail(t, a, u) && k < |u| && depth >= 1
    ensures ScanTurn(t, a + k, depth) == (ScanTurn(u, k, depth).0 + a, ScanTurn(u, k, depth).1)
  {
    FindShift(t, a, u, '\'', k + 1);
    SkipShift(t, a, u, k + 1);
  }

  lemma {:induction false} ScanShift(t: string, a: nat, u: string, k: nat, depth: nat)
    requires IsTail(t, a, u) && k <= |u| && depth >= 1
    ensures SubstScan(u, k, depth) + a == SubstScan(t, a + k, depth)
    decreases |u| - k
  {
    if k < |u| {
      var (next, open) := ScanTurn(u, k, depth);
      ScanTurnShift(t, a, u, k, depth);
      ScanUnfolds(u, k, depth);
      ScanUnfolds(t, a + k, depth);
      if open > 0 {
        ScanShift(t, a, u, next, open);
      }
    }
  }

  /** The text of a frame. */
  function Text(s: string, f: Frame): string
    requires f.start <= f.end <= |s|
  {
    s[f.start..f.end]
  }

  lemma TextIsTail(s: string, f: Frame)
    requires f.start <= f.end <= |s|
    ensures IsTail(s[..f.end], f.start, Text(s, f))
  {
  }

  lemma FindInText(s: string, f: Frame, c: char, i: nat)
    requires f.start <= i <= f.end <= |s|
    ensures FindFrom(Text(s, f), c, i - f.start) + f.start == FindFrom(s[..f.end], c, i)
  {
    TextIsTail(s, f);
    FindShift(s[..f.end], f.start, Text(s, f), c, i - f.start);
  }

  /** Where a substitution's body ends, as the mask's inner walk finds it in the frame's text. */
  lemma BodyInText(s: string, f: Frame, i: nat)
    requires f.start <= i < f.end <= |s| && Opens(s, i, f.end)
    ensures s[i] == '$' ==> SubstEnd(Text(s, f), i - f.start + 1) + f.start == BodyEnd(s, i, f.end)
    ensures s[i] == '`' ==> FindFrom(Text(s, f), '`', i - f.start + 1) + f.start == BodyEnd(s, i, f.end)
  {
    if s[i] == '$' {
      ScanInText(s, f, i + 1);
    } else {
      FindInText(s, f, '`', i + 1);
    }
  }

  lemma ScanInText(s: string, f: Frame, open: nat)
    requires f.start <= open < f.end <= |s|
    ensures SubstEnd(Text(s, f), open - f.start) + f.start == SubstEnd(s[..f.end], open)
  {
    TextIsTail(s, f);
    SubstEndShift(s[..f.end], f.start, Text(s, f), open - f.start);
  }

  lemma SubstEndShift(t: string, a: nat, u: string, k: nat)
    requires IsTail(t, a, u) && k < |u|
    ensures SubstEnd(u, k) + a == SubstEnd(t, a + k)
  {
    ScanShift(t, a, u, k + 1, 1);
  }

  // ---------------------------------------------------------------- what follows a text

  /** The reading after the text of `f`. */
  function Rest(s: string, f: Frame, outer: seq<Frame>, comments: bool): string
    requires Nested(s, f, outer)
  {
    Read(s, f, f.end, Code, outer, comments)
  }

  lemma {:induction false} BareRun(s: string, f: Frame, i: nat, outer: seq<Frame>, comments: bool)
    requires f.start <= i <= f.end && Nested(s, f, outer)
    ensures Read(s, f, i, Bare, outer, comments) == s[i..f.end] + Rest(s, f, outer, comments)
    decreases f.end - i
  {
    if i < f.end {
      BareRun(s, f, i + 1, outer, comments);
      assert s[i..f.end] == [s[i]] + s[i + 1..f.end];
    }
  }

  /** A run of hidden characters, all read in mode `m`. */
  lemma {:induction false} HiddenRun(s: string, f: Frame, i: nat, j: nat, m: Mode, outer: seq<Frame>, comments: bool)
    requires f.start <= i <= j <= f.end && Nested(s, f, outer) && m in {Single, Comment}
    requires forall k :: i <= k < j ==> s[k] != if m == Single then '\'' else '\n'
    ensures Read(s, f, i, m, outer, comments) == Blanks(s[i..j]) + Read(s, f, j, m, outer, comments)
    decreases j - i
  {
    if i < j {
      HiddenRun(s, f, i + 1, j, m, outer, comments);
      assert s[i..j][1..] == s[i + 1..j];
    } else {
      assert Blanks(s[i..j]) == "";
    }
  }

  // ---------------------------------------------------------------- the mask is the reading

  /** The mask's piece of a frame's text at `i`. */
  function PieceAt(s: string, f: Frame, i: nat, comments: bool): (r: (string, nat))
    requires f.start <= i < f.end <= |s|
    ensures i < r.1 <= f.end
  {
    var (piece, next) := MaskPiece(Text(s, f), i - f.start, comments);
    (piece, next + f.start)
  }

  lemma TextSlice(s: string, f: Frame, i: nat, j: nat)
    requires f.start <= i <= j <= f.end <= |s|
    ensures Text(s, f)[i - f.start..j - f.start] == s[i..j]
  {
    var t := Text(s, f);
    forall k | 0 <= k < j - i ensures t[i - f.start..j - f.start][k] == s[i..j][k] {
      assert t[i - f.start + k] == s[i + k];
    }
  }

  lemma TextAt(s: string, f: Frame, i: nat)
    requires f.start <= i < f.end <= |s|
    ensures Text(s, f)[i - f.start] == s[i]
  {
  }

  lemma CommentInText(s: string, f: Frame, i: nat)
    requires f.start <= i < f.end <= |s|
    ensures CommentStart(Text(s, f), i - f.start) <==> CommentAt(s, f, i)
  {
  }

  // What the mask makes of each kind of piece.

  lemma CommentMask(s: string, f: Frame, i: nat)
    requires f.start <= i < f.end <= |s| && CommentAt(s, f, i)
    ensures var end := FindFrom(s[..f.end], '\n', i); PieceAt(s, f, i, true) == (Blanks(s[i..end]), end)
  {
    CommentInText(s, f, i);
    FindInText(s, f, '\n', i);
    TextSlice(s, f, i, FindFrom(s[..f.end], '\n', i));
  }

  lemma EscapeMask(s: string, f: Frame, i: nat, comments: bool)
    requires f.start <= i < f.end <= |s| && s[i] == '\\' && i + 1 < f.end
    ensures PieceAt(s, f, i, comments) == (s[i..i + 2], i + 2)
  {
    CommentInText(s, f, i);
    TextSlice(s, f, i, i + 2);
  }

  lemma SingleMask(s: string, f: Frame, i: nat, comments: bool)
    requires f.start <= i < f.end <= |s| && s[i] == '\''
    ensures var j := FindFrom(s[..f.end], '\'', i + 1);
      PieceAt(s, f, i, comments) == if j == f.end then (s[i..f.end], f.end) else ("'" + Blanks(s[i + 1..j]) + "'", j + 1)
  {
    TextAt(s, f, i);
    SinglePieceIs(Text(s, f), i - f.start, comments);
    FindInText(s, f, '\'', i + 1);
    TextSlice(s, f, i, f.end);
    TextSlice(s, f, i + 1, FindFrom(s[..f.end], '\'', i + 1));
  }

  lemma SinglePieceIs(t: string, k: nat, comments: bool)
    requires k < |t| && t[k] == '\''
    ensures var j := FindFrom(t, '\'', k + 1);
      MaskPiece(t, k, comments) == if j == |t| then (t[k..|t|], |t|) else ("'" + Blanks(t[k + 1..j]) + "'", j + 1)
  {
    assert t[k..] == t[k..|t|];
  }

  lemma ClosedDoubleIs(t: string, k: nat, j: nat, comments: bool)
    requires j == k + 1 <= |t| && t[k] == '"' && MaskDouble(t, j, comments).1 < |t|
    ensures MaskPiece(t, k, comments) == ("\"" + MaskDouble(t, j, comments).0 + "\"", MaskDouble(t, j, comments).1 + 1)
  {
  }

  lemma OpenDoubleIs(t: string, k: nat, j: nat, comments: bool)
    requires j == k + 1 <= |t| && t[k] == '"' && MaskDouble(t, j, comments).1 == |t|
    ensures MaskPiece(t, k, comments) == (t[k..|t|], |t|)
  {
    assert t[k..] == t[k..|t|];
  }

  lemma PlainMask(s: string, f: Frame, i: nat, comments: bool)
    requires f.start <= i < f.end <= |s| && s[i] !in {'\'', '"'} && !(s[i] == '\\' && i + 1 < f.end)
    requires !(comments && CommentAt(s, f, i))
    ensures PieceAt(s, f, i, comments) == ([s[i]], i + 1)
  {
    CommentInText(s, f, i);
    TextAt(s, f, i);
  }

  // What the reading makes of it.

  lemma CommentRead(s: string, f: Frame, i: nat, end: nat, outer: seq<Frame>)
    requires f.start <= i < end <= f.end && Nested(s, f, outer) && CommentAt(s, f, i)
    requires (forall k :: i <= k < end ==> s[k] != '\n') && (end < f.end ==> s[end] == '\n')
    ensures Read(s, f, i, Code, outer, true) == Blanks(s[i..end]) + Read(s, f, end, Code, outer, true)
  {
    HiddenRun(s, f, i + 1, end, Comment, outer, true);
    LineEnds(s, f, end, outer);
    HashRead(s, f, i, outer);
    HashBlank(s, i, end, Read(s, f, end, Code, outer, true));
  }

  lemma HashRead(s: string, f: Frame, i: nat, outer: seq<Frame>)
    requires f.start <= i < f.end && Nested(s, f, outer) && CommentAt(s, f, i)
    ensures Read(s, f, i, Code, outer, true) == " " + Read(s, f, i + 1, Comment, outer, true)
  {
    assert After(s, f, i, Code, true) == Comment && Shown(s, f, i, Code, true) == ' ';
  }

  lemma HashBlank(s: string, i: nat, end: nat, rest: string)
    requires i < end <= |s| && s[i] == '#'
    ensures " " + (Blanks(s[i + 1..end]) + rest) == Blanks(s[i..end]) + rest
  {
    assert s[i..end][0] == s[i] && s[i..end][1..] == s[i + 1..end];
    assert Blanks(s[i..end]) == " " + Blanks(s[i + 1..end]);
  }

  lemma LineEnds(s: string, f: Frame, end: nat, outer: seq<Frame>)
    requires f.start <= end <= f.end && Nested(s, f, outer) && (end < f.end ==> s[end] == '\n')
    ensures Read(s, f, end, Comment, outer, true) == Read(s, f, end, Code, outer, true)
  {
  }

  lemma EscapeRead(s: string, f: Frame, i: nat, outer: seq<Frame>, comments: bool)
    requires f.start <= i < f.end && Nested(s, f, outer) && s[i] == '\\' && i + 1 < f.end
    ensures Read(s, f, i, Code, outer, comments) == s[i..i + 2] + Read(s, f, i + 2, Code, outer, comments)
  {
    var rest := Read(s, f, i + 2, Code, outer, comments);
    assert After(s, f, i, Code, comments) == Escaped && Shown(s, f, i, Code, comments) == s[i];
    EscapedRead(s, f, i + 1, outer, comments);
    TwoChars(s, i, rest);
  }

  lemma EscapedRead(s: string, f: Frame, i: nat, outer: seq<Frame>, comments: bool)
    requires f.start <= i < f.end && Nested(s, f, outer)
    ensures Read(s, f, i, Escaped, outer, comments) == [s[i]] + Read(s, f, i + 1, Code, outer, comments)
  {
  }

  lemma TwoChars(s: string, i: nat, rest: string)
    requires i + 1 < |s|
    ensures [s[i]] + ([s[i + 1]] + rest) == s[i..i + 2] + rest
  {
  }

  /** A quote that is never closed shows the rest of its text. */
  lemma BareRead(s: string, f: Frame, i: nat, outer: seq<Frame>, comments: bool)
    requires f.start <= i < f.end && Nested(s, f, outer) && s[i] in {'\'', '"'} && !Closes(s, i, f.end)
    ensures Read(s, f, i, Code, outer, comments) == s[i..f.end] + Read(s, f, f.end, Code, outer, comments)
  {
    BareRun(s, f, i + 1, outer, comments);
    assert Read(s, f, i, Code, outer, comments) == [s[i]] + Read(s, f, i + 1, Bare, outer, comments);
    assert s[i..f.end] == [s[i]] + s[i + 1..f.end];
  }

  lemma SingleRead(s: string, f: Frame, i: nat, j: nat, outer: seq<Frame>, comments: bool)
    requires f.start <= i < j < f.end && Nested(s, f, outer) && s[i] == '\'' && s[j] == '\'' && Closes(s, i, f.end)
    requires forall k :: i < k < j ==> s[k] != '\''
    ensures Read(s, f, i, Code, outer, comments)
         == "'" + Blanks(s[i + 1..j]) + "'" + Read(s, f, j + 1, Code, outer, comments)
  {
    HiddenRun(s, f, i + 1, j, Single, outer, comments);
    SingleOpens(s, f, i, outer, comments);
    SingleCloses(s, f, j, outer, comments);
    JoinQuoted("'", Blanks(s[i + 1..j]), "'", Read(s, f, j + 1, Code, outer, comments));
  }

  lemma SingleOpens(s: string, f: Frame, i: nat, outer: seq<Frame>, comments: bool)
    requires f.start <= i < f.end && Nested(s, f, outer) && s[i] == '\'' && Closes(s, i, f.end)
    ensures Read(s, f, i, Code, outer, comments) == "'" + Read(s, f, i + 1, Single, outer, comments)
  {
    assert After(s, f, i, Code, comments) == Single && Shown(s, f, i, Code, comments) == '\'';
  }

  lemma SingleCloses(s: string, f: Frame, j: nat, outer: seq<Frame>, comments: bool)
    requires f.start <= j < f.end && Nested(s, f, outer) && s[j] == '\''
    ensures Read(s, f, j, Single, outer, comments) == "'" + Read(s, f, j + 1, Code, outer, comments)
  {
    assert After(s, f, j, Single, comments) == Code && Shown(s, f, j, Single, comments) == '\'';
  }

  lemma JoinQuoted(a: string, b: string, c: string, d: string)
    ensures a + b + c + d == a + (b + (c + d))
  {
  }

  lemma PlainRead(s: string, f: Frame, i: nat, outer: seq<Frame>, comments: bool)
    requires f.start <= i < f.end && Nested(s, f, outer) && s[i] !in {'\'', '"'} && !(s[i] == '\\' && i + 1 < f.end)
    requires !(comments && CommentAt(s, f, i))
    ensures Read(s, f, i, Code, outer, comments) == [s[i]] + Read(s, f, i + 1, Code, outer, comments)
  {
  }

  // ---------------------------------------------------------------- double quotes

  /** The walk over double-quoted text of a frame. */
  function DoubleAt(s: string, f: Frame, i: nat, comments: bool): (r: (string, nat))
    requires f.start <= i <= f.end <= |s|
    ensures i <= r.1 <= f.end
  {
    var (text, end) := MaskDouble(Text(s, f), i - f.start, comments);
    (text, end + f.start)
  }

  function DoublePieceAt(s: string, f: Frame, i: nat, comments: bool): (r: (string, nat))
    requires f.start <= i < f.end <= |s|
    ensures i < r.1 <= f.end
  {
    var (piece, next) := DoublePiece(Text(s, f), i - f.start, comments);
    (piece, next + f.start)
  }

  predicate IsEscape(s: string, i: nat, end: nat)
    requires i < end <= |s|
  {
    s[i] == '\\' && i + 1 < end
  }

  /** Where the double-quoted walk goes on after the character or substitution at `i`. */
  function Beyond(s: string, i: nat, end: nat): (j: nat)
    requires i < end <= |s|
    ensures i < j <= end
  {
    if IsEscape(s, i, end) then i + 2
    else if Opens(s, i, end) then if BodyEnd(s, i, end) < end then BodyEnd(s, i, end) + 1 else end
    else i + 1
  }

  lemma DoubleAtUnfolds(s: string, f: Frame, i: nat, comments: bool)
    requires f.start <= i < f.end <= |s| && s[i] != '"'
    ensures var (piece, next) := DoublePieceAt(s, f, i, comments);
      DoubleAt(s, f, i, comments) == (piece + DoubleAt(s, f, next, comments).0, DoubleAt(s, f, next, comments).1)
  {
    TextAt(s, f, i);
  }

  lemma DoubleAtStops(s: string, f: Frame, i: nat, comments: bool)
    requires f.start <= i <= f.end <= |s| && (i == f.end || s[i] == '"')
    ensures DoubleAt(s, f, i, comments) == ("", i)
  {
  }

  lemma EscapePiece(s: string, f: Frame, i: nat, comments: bool)
    requires f.start <= i < f.end <= |s| && IsEscape(s, i, f.end)
    ensures DoublePieceAt(s, f, i, comments) == ("  ", i + 2)
  {
  }

  lemma PlainPiece(s: string, f: Frame, i: nat, comments: bool)
    requires f.start <= i < f.end <= |s| && !IsEscape(s, i, f.end) && !Opens(s, i, f.end)
    ensures DoublePieceAt(s, f, i, comments) == ([Blank(s[i])], i + 1)
  {
    TextAt(s, f, i);
  }

  /** A substitution's piece: its delimiters around the mask of its body. */
  lemma BodyPiece(s: string, f: Frame, i: nat, comments: bool)
    requires f.start <= i < f.end <= |s| && !IsEscape(s, i, f.end) && Opens(s, i, f.end)
    ensures var a, b := BodyStart(s, i), BodyEnd(s, i, f.end);
      DoublePieceAt(s, f, i, comments)
      == (s[i..a] + Mask(s[a..b], comments) + (if b < f.end then [s[b]] else ""), Beyond(s, i, f.end))
  {
    BodyInText(s, f, i);
    TextAt(s, f, i);
    if s[i] == '$' {
      DollarPiece(s, f, i, comments);
    } else {
      TickPiece(s, f, i, comments);
    }
  }

  lemma DollarPiece(s: string, f: Frame, i: nat, comments: bool)
    requires f.start <= i && i + 1 < f.end <= |s| && s[i] == '$' && s[i + 1] == '('
    requires SubstEnd(Text(s, f), i - f.start + 1) + f.start == BodyEnd(s, i, f.end)
    ensures var b := BodyEnd(s, i, f.end);
      DoublePieceAt(s, f, i, comments)
      == (s[i..i + 2] + Mask(s[i + 2..b], comments) + (if b < f.end then [s[b]] else ""), if b < f.end then b + 1 else f.end)
  {
    var b := BodyEnd(s, i, f.end);
    TextAt(s, f, i);
    TextAt(s, f, i + 1);
    TextSlice(s, f, i + 2, b);
    assert s[i..i + 2] == "$(";
    if b < f.end {
      CloserIs(s, i, f.end);
      assert [s[b]] == ")";
    } else {
      assert "$(" + Mask(s[i + 2..b], comments) + "" == "$(" + Mask(s[i + 2..b], comments);
    }
  }

  lemma TickPiece(s: string, f: Frame, i: nat, comments: bool)
    requires f.start <= i < f.end <= |s| && s[i] == '`'
    requires FindFrom(Text(s, f), '`', i - f.start + 1) + f.start == BodyEnd(s, i, f.end)
    ensures var b := BodyEnd(s, i, f.end);
      DoublePieceAt(s, f, i, comments)
      == (s[i..i + 1] + Mask(s[i + 1..b], comments) + (if b < f.end then [s[b]] else ""), if b < f.end then b + 1 else f.end)
  {
    var b := BodyEnd(s, i, f.end);
    TextAt(s, f, i);
    TextSlice(s, f, i + 1, b);
    assert s[i..i + 1] == "`";
    if b < f.end {
      CloserIs(s, i, f.end);
      assert [s[b]] == "`";
    } else {
      assert "`" + Mask(s[i + 1..b], comments) + "" == "`" + Mask(s[i + 1..b], comments);
    }
  }

  lemma CloserIs(s: string, i: nat, end: nat)
    requires i < end <= |s| && Opens(s, i, end) && BodyEnd(s, i, end) < end
    ensures s[BodyEnd(s, i, end)] == if s[i] == '$' then ')' else '`'
  {
  }

  lemma EndBeyond(s: string, i: nat, end: nat)
    requires i < end <= |s| && s[i] != '"'
    ensures DoubleEnd(s, i, end) == DoubleEnd(s, Beyond(s, i, end), end)
  {
    assert DoubleEnd(s, end, end) == end;
  }

  lemma NextIsBeyond(s: string, f: Frame, i: nat, comments: bool)
    requires f.start <= i < f.end <= |s| && s[i] != '"'
    ensures DoublePieceAt(s, f, i, comments).1 == Beyond(s, i, f.end)
  {
    if IsEscape(s, i, f.end) {
      EscapePiece(s, f, i, comments);
    } else if Opens(s, i, f.end) {
      BodyPiece(s, f, i, comments);
    } else {
      PlainPiece(s, f, i, comments);
    }
  }

  /** The closing quote the mask finds is the one the reading looks ahead to. */
  lemma {:induction false} DoubleEndIs(s: string, f: Frame, i: nat, comments: bool)
    requires f.start <= i <= f.end <= |s|
    ensures DoubleAt(s, f, i, comments).1 == DoubleEnd(s, i, f.end)
    decreases f.end - i
  {
    if i == f.end || s[i] == '"' {
      DoubleAtStops(s, f, i, comments);
    } else {
      DoubleAtUnfolds(s, f, i, comments);
      NextIsBeyond(s, f, i, comments);
      EndBeyond(s, i, f.end);
      DoubleEndIs(s, f, Beyond(s, i, f.end), comments);
    }
  }

  lemma EscapeReadDouble(s: string, f: Frame, i: nat, outer: seq<Frame>, comments: bool)
    requires f.start <= i < f.end && Nested(s, f, outer) && IsEscape(s, i, f.end)
    ensures Read(s, f, i, Double, outer, comments) == "  " + Read(s, f, i + 2, Double, outer, comments)
  {
    var rest := Read(s, f, i + 2, Double, outer, comments);
    assert Read(s, f, i, Double, outer, comments) == [' '] + Read(s, f, i + 1, DoubleEscaped, outer, comments);
    assert Read(s, f, i + 1, DoubleEscaped, outer, comments) == [' '] + rest;
    assert [' '] + ([' '] + rest) == "  " + rest;
  }

  lemma PlainReadDouble(s: string, f: Frame, i: nat, outer: seq<Frame>, comments: bool)
    requires f.start <= i < f.end && Nested(s, f, outer) && s[i] != '"'
    requires !IsEscape(s, i, f.end) && !Opens(s, i, f.end)
    ensures Read(s, f, i, Double, outer, comments) == [Blank(s[i])] + Read(s, f, i + 1, Double, outer, comments)
  {
  }

  /** The frame of the substitution at `i`. */
  function Body(s: string, f: Frame, i: nat): Frame
    requires f.start <= i < f.end <= |s| && Opens(s, i, f.end)
  {
    Frame(BodyStart(s, i), BodyEnd(s, i, f.end))
  }

  lemma BodyNested(s: string, f: Frame, i: nat, outer: seq<Frame>)
    requires f.start <= i < f.end && Nested(s, f, outer) && Opens(s, i, f.end)
    ensures Nested(s, Body(s, f, i), [f] + outer)
  {
    assert ([f] + outer)[1..] == outer;
  }

  /** A closed substitution's text is read on its own, between its delimiters. */
  lemma BodyReadDouble(s: string, f: Frame, i: nat, outer: seq<Frame>, comments: bool)
    requires f.start <= i < f.end && Nested(s, f, outer) && !IsEscape(s, i, f.end) && Opens(s, i, f.end)
    requires Nested(s, Body(s, f, i), [f] + outer) && BodyEnd(s, i, f.end) < f.end
    requires var g := Body(s, f, i);
      Read(s, g, g.start, Code, [f] + outer, comments) == Mask(Text(s, g), comments) + Rest(s, g, [f] + outer, comments)
    ensures var g := Body(s, f, i);
      Read(s, f, i, Double, outer, comments)
      == s[i..g.start] + Mask(Text(s, g), comments) + [s[g.end]] + Read(s, f, g.end + 1, Double, outer, comments)
  {
    var g := Body(s, f, i);
    assert ([f] + outer)[1..] == outer;
    assert Rest(s, g, [f] + outer, comments) == [s[g.end]] + Read(s, f, g.end + 1, Double, outer, comments);
    JoinQuoted(s[i..g.start], Mask(Text(s, g), comments), [s[g.end]], Read(s, f, g.end + 1, Double, outer, comments));
  }

  // ---------------------------------------------------------------- the theorem

  lemma MaskUnfolds(s: string, f: Frame, i: nat, comments: bool)
    requires f.start <= i < f.end <= |s|
    ensures var (piece, next) := PieceAt(s, f, i, comments);
      MaskFrom(Text(s, f), i - f.start, comments) == piece + MaskFrom(Text(s, f), next - f.start, comments)
  {
  }

  lemma {:induction false} CodeReads(s: string, f: Frame, i: nat, outer: seq<Frame>, comments: bool)
    requires f.start <= i <= f.end && Nested(s, f, outer)
    ensures CodeRead(s, f, i, outer, comments)
    decreases f.end - i, 1
  {
    if i < f.end {
      PieceReads(s, f, i, outer, comments);
      CodeReads(s, f, PieceAt(s, f, i, comments).1, outer, comments);
      CodeStep(s, f, i, outer, comments);
    } else {
      CodeEnd(s, f, outer, comments);
    }
  }

  /** The reading from `i` on is the mask's, then what follows the text. */
  predicate CodeRead(s: string, f: Frame, i: nat, outer: seq<Frame>, comments: bool)
    requires f.start <= i <= f.end && Nested(s, f, outer)
  {
    Read(s, f, i, Code, outer, comments) == MaskFrom(Text(s, f), i - f.start, comments) + Rest(s, f, outer, comments)
  }

  lemma CodeEnd(s: string, f: Frame, outer: seq<Frame>, comments: bool)
    requires Nested(s, f, outer)
    ensures CodeRead(s, f, f.end, outer, comments)
  {
    assert MaskFrom(Text(s, f), f.end - f.start, comments) == "";
  }

  lemma CodeStep(s: string, f: Frame, i: nat, outer: seq<Frame>, comments: bool)
    requires f.start <= i < f.end && Nested(s, f, outer)
    requires var (piece, next) := PieceAt(s, f, i, comments);
      && Read(s, f, i, Code, outer, comments) == piece + Read(s, f, next, Code, outer, comments)
      && CodeRead(s, f, next, outer, comments)
    ensures CodeRead(s, f, i, outer, comments)
  {
    MaskUnfolds(s, f, i, comments);
    var (piece, next) := PieceAt(s, f, i, comments);
    var masked, tail := MaskFrom(Text(s, f), next - f.start, comments), Rest(s, f, outer, comments);
    JoinThree(piece, masked, tail);
  }

  lemma {:induction false} PieceReads(s: string, f: Frame, i: nat, outer: seq<Frame>, comments: bool)
    requires f.start <= i < f.end && Nested(s, f, outer)
    ensures var (piece, next) := PieceAt(s, f, i, comments);
      Read(s, f, i, Code, outer, comments) == piece + Read(s, f, next, Code, outer, comments)
    decreases f.end - i, 0
  {
    if s[i] == '"' && Closes(s, i, f.end) {
      var tail := DoubleReads(s, f, i + 1, outer, comments);
      DoubleEndIs(s, f, i + 1, comments);
      OpeningQuote(s, f, i, outer, comments, tail, DoubleEnd(s, i + 1, f.end));
    } else {
      SimplePieceReads(s, f, i, outer, comments);
    }
  }

  /** Every piece but closed double-quoted text. */
  lemma SimplePieceReads(s: string, f: Frame, i: nat, outer: seq<Frame>, comments: bool)
    requires f.start <= i < f.end && Nested(s, f, outer) && !(s[i] == '"' && Closes(s, i, f.end))
    ensures var (piece, next) := PieceAt(s, f, i, comments);
      Read(s, f, i, Code, outer, comments) == piece + Read(s, f, next, Code, outer, comments)
  {
    if s[i] == '"' {
      UnclosedDoubleReads(s, f, i, outer, comments);
    } else if comments && CommentAt(s, f, i) {
      CommentReads(s, f, i, outer);
    } else if s[i] == '\'' {
      SingleReads(s, f, i, outer, comments);
    } else if s[i] == '\\' && i + 1 < f.end {
      EscapeMask(s, f, i, comments);
      EscapeRead(s, f, i, outer, comments);
    } else {
      PlainMask(s, f, i, comments);
      PlainRead(s, f, i, outer, comments);
    }
  }

  lemma CommentReads(s: string, f: Frame, i: nat, outer: seq<Frame>)
    requires f.start <= i < f.end && Nested(s, f, outer) && CommentAt(s, f, i)
    ensures var (piece, next) := PieceAt(s, f, i, true);
      Read(s, f, i, Code, outer, true) == piece + Read(s, f, next, Code, outer, true)
  {
    CommentMask(s, f, i);
    CommentRead(s, f, i, FindFrom(s[..f.end], '\n', i), outer);
  }

  lemma SingleReads(s: string, f: Frame, i: nat, outer: seq<Frame>, comments: bool)
    requires f.start <= i < f.end && Nested(s, f, outer) && s[i] == '\''
    ensures var (piece, next) := PieceAt(s, f, i, comments);
      Read(s, f, i, Code, outer, comments) == piece + Read(s, f, next, Code, outer, comments)
  {
    SingleMask(s, f, i, comments);
    if Closes(s, i, f.end) {
      SingleRead(s, f, i, FindFrom(s[..f.end], '\'', i + 1), outer, comments);
    } else {
      BareRead(s, f, i, outer, comments);
    }
  }

  lemma UnclosedDoubleReads(s: string, f: Frame, i: nat, outer: seq<Frame>, comments: bool)
    requires f.start <= i < f.end && Nested(s, f, outer) && s[i] == '"' && !Closes(s, i, f.end)
    ensures var (piece, next) := PieceAt(s, f, i, comments);
      Read(s, f, i, Code, outer, comments) == piece + Read(s, f, next, Code, outer, comments)
  {
    OpenPieceIs(s, f, i, comments);
    BareRead(s, f, i, outer, comments);
  }

  lemma OpenPieceIs(s: string, f: Frame, i: nat, comments: bool)
    requires f.start <= i < f.end <= |s| && s[i] == '"' && !Closes(s, i, f.end)
    ensures PieceAt(s, f, i, comments) == (s[i..f.end], f.end)
  {
    OpenInText(s, f, i, comments);
    OpenDoubleIs(Text(s, f), i - f.start, i + 1 - f.start, comments);
    TextSlice(s, f, i, f.end);
  }

  lemma OpenInText(s: string, f: Frame, i: nat, comments: bool)
    requires f.start <= i < f.end <= |s| && s[i] == '"' && !Closes(s, i, f.end)
    ensures Text(s, f)[i - f.start] == '"'
    ensures MaskDouble(Text(s, f), i + 1 - f.start, comments).1 == |Text(s, f)|
  {
    TextAt(s, f, i);
    DoubleEndIs(s, f, i + 1, comments);
  }

  lemma OpeningQuote(s: string, f: Frame, i: nat, outer: seq<Frame>, comments: bool, tail: string, end: nat)
    requires f.start <= i < end < f.end && Nested(s, f, outer) && s[i] == '"' && Closes(s, i, f.end)
    requires DoubleAt(s, f, i + 1, comments).1 == end
    requires tail == "\"" + Read(s, f, end + 1, Code, outer, comments)
    requires Read(s, f, i + 1, Double, outer, comments) == DoubleAt(s, f, i + 1, comments).0 + tail
    ensures var (piece, next) := PieceAt(s, f, i, comments);
      Read(s, f, i, Code, outer, comments) == piece + Read(s, f, next, Code, outer, comments)
  {
    ClosedPieceIs(s, f, i, comments);
    QuoteRead(s, f, i, outer, comments);
    ChainQuoted(Read(s, f, i, Code, outer, comments), Read(s, f, i + 1, Double, outer, comments),
                DoubleAt(s, f, i + 1, comments).0, tail, Read(s, f, end + 1, Code, outer, comments),
                PieceAt(s, f, i, comments).0);
  }

  lemma ChainQuoted(read: string, next: string, text: string, tail: string, rest: string, piece: string)
    requires read == "\"" + next && next == text + tail && tail == "\"" + rest && piece == "\"" + text + "\""
    ensures read == piece + rest
  {
    JoinQuoted("\"", text, "\"", rest);
  }

  lemma ClosedPieceIs(s: string, f: Frame, i: nat, comments: bool)
    requires f.start <= i < f.end <= |s| && s[i] == '"' && DoubleAt(s, f, i + 1, comments).1 < f.end
    ensures PieceAt(s, f, i, comments)
         == ("\"" + DoubleAt(s, f, i + 1, comments).0 + "\"", DoubleAt(s, f, i + 1, comments).1 + 1)
  {
    TextAt(s, f, i);
    ClosedDoubleIs(Text(s, f), i - f.start, i + 1 - f.start, comments);
  }

  lemma QuoteRead(s: string, f: Frame, i: nat, outer: seq<Frame>, comments: bool)
    requires f.start <= i < f.end && Nested(s, f, outer) && s[i] == '"' && Closes(s, i, f.end)
    ensures Read(s, f, i, Code, outer, comments) == "\"" + Read(s, f, i + 1, Double, outer, comments)
  {
    assert After(s, f, i, Code, comments) == Double && Shown(s, f, i, Code, comments) == '"';
  }

  /** Up to its closing quote, double-quoted text reads as the mask's inner walk has it; `tail` is
      the quote and what follows. */
  lemma {:induction false} DoubleReads(s: string, f: Frame, i: nat, outer: seq<Frame>, comments: bool)
    returns (tail: string)
    requires f.start <= i <= f.end && Nested(s, f, outer) && DoubleEnd(s, i, f.end) < f.end
    ensures tail == "\"" + Read(s, f, DoubleEnd(s, i, f.end) + 1, Code, outer, comments)
    ensures Read(s, f, i, Double, outer, comments) == DoubleAt(s, f, i, comments).0 + tail
    decreases f.end - i, 2
  {
    if s[i] == '"' {
      DoubleAtStops(s, f, i, comments);
      ClosingQuote(s, f, i, outer, comments);
      tail := "\"" + Read(s, f, i + 1, Code, outer, comments);
    } else {
      EndBeyond(s, i, f.end);
      tail := DoubleReads(s, f, Beyond(s, i, f.end), outer, comments);
      DoublePieceReads(s, f, i, outer, comments);
      DoubleStep(s, f, i, outer, comments, tail);
    }
  }

  lemma DoubleStep(s: string, f: Frame, i: nat, outer: seq<Frame>, comments: bool, tail: string)
    requires f.start <= i < f.end && Nested(s, f, outer) && s[i] != '"'
    requires var piece, next := DoublePieceAt(s, f, i, comments).0, Beyond(s, i, f.end);
      && Read(s, f, i, Double, outer, comments) == piece + Read(s, f, next, Double, outer, comments)
      && Read(s, f, next, Double, outer, comments) == DoubleAt(s, f, next, comments).0 + tail
    ensures Read(s, f, i, Double, outer, comments) == DoubleAt(s, f, i, comments).0 + tail
  {
    DoubleAtUnfolds(s, f, i, comments);
    NextIsBeyond(s, f, i, comments);
    JoinThree(DoublePieceAt(s, f, i, comments).0, DoubleAt(s, f, Beyond(s, i, f.end), comments).0, tail);
  }

  lemma ClosingQuote(s: string, f: Frame, i: nat, outer: seq<Frame>, comments: bool)
    requires f.start <= i < f.end && Nested(s, f, outer) && s[i] == '"'
    ensures Read(s, f, i, Double, outer, comments) == "" + ("\"" + Read(s, f, i + 1, Code, outer, comments))
  {
  }

  lemma {:induction false} DoublePieceReads(s: string, f: Frame, i: nat, outer: seq<Frame>, comments: bool)
    requires f.start <= i < f.end && Nested(s, f, outer) && s[i] != '"' && DoubleEnd(s, i, f.end) < f.end
    ensures var piece, next := DoublePieceAt(s, f, i, comments).0, Beyond(s, i, f.end);
      Read(s, f, i, Double, outer, comments) == piece + Read(s, f, next, Double, outer, comments)
    decreases f.end - i, 1
  {
    if !IsEscape(s, i, f.end) && Opens(s, i, f.end) {
      BodyCloses(s, i, f.end);
      SubstitutionReadsAlone(s, f, i, outer, comments);
      BodyPiece(s, f, i, comments);
    } else {
      OtherPieceReads(s, f, i, outer, comments);
    }
  }

  /** Inside double quotes a closed substitution shows its delimiters around the mask its body
      has as a command of its own, whatever the text around it; then the quotes go on. */
  lemma {:induction false} SubstitutionReadsAlone(s: string, f: Frame, i: nat, outer: seq<Frame>, comments: bool)
    requires f.start <= i < f.end && Nested(s, f, outer) && !IsEscape(s, i, f.end)
    requires Opens(s, i, f.end) && BodyEnd(s, i, f.end) < f.end
    ensures var a, b := BodyStart(s, i), BodyEnd(s, i, f.end);
      Read(s, f, i, Double, outer, comments)
      == s[i..a] + Mask(s[a..b], comments) + [s[b]] + Read(s, f, b + 1, Double, outer, comments)
    decreases f.end - i, 0
  {
    var g := Body(s, f, i);
    BodyNested(s, f, i, outer);
    CodeReads(s, g, g.start, [f] + outer, comments);
    BodyReadDouble(s, f, i, outer, comments);
  }

  lemma BodyCloses(s: string, i: nat, end: nat)
    requires i < end <= |s| && !IsEscape(s, i, end) && Opens(s, i, end) && DoubleEnd(s, i, end) < end
    ensures BodyEnd(s, i, end) < end
  {
  }

  lemma OtherPieceReads(s: string, f: Frame, i: nat, outer: seq<Frame>, comments: bool)
    requires f.start <= i < f.end && Nested(s, f, outer) && s[i] != '"'
    requires IsEscape(s, i, f.end) || !Opens(s, i, f.end)
    ensures var piece, next := DoublePieceAt(s, f, i, comments).0, Beyond(s, i, f.end);
      Read(s, f, i, Double, outer, comments) == piece + Read(s, f, next, Double, outer, comments)
  {
    if IsEscape(s, i, f.end) {
      EscapePiece(s, f, i, comments);
      EscapeReadDouble(s, f, i, outer, comments);
    } else {
      PlainPiece(s, f, i, comments);
      PlainReadDouble(s, f, i, outer, comments);
    }
  }

  /** On every command, with comments masked or not, the mask is that reading. */
  lemma MaskIsTheReading(s: string, comments: bool)
    ensures Mask(s, comments) == Read(s, Frame(0, |s|), 0, Code, [], comments)
  {
    var f := Frame(0, |s|);
    CodeReads(s, f, 0, [], comments);
    assert Text(s, f) == s;
    assert Rest(s, f, [], comments) == "";
    assert Mask(s, comments) + "" == Mask(s, comments);
  }
}
