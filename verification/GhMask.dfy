/** Quote masking for the `gh` command scanner: the functions its loops compute. */
module GhMask {
  import opened Common

  function Blank(c: char): char {
    if c == '\n' then '\n' else ' '
  }

  function Blanks(s: string): (r: string)
    ensures |r| == |s| && forall k :: 0 <= k < |s| ==> r[k] == Blank(s[k])
  {
    if s == "" then "" else [Blank(s[0])] + Blanks(s[1..])
  }

  /** Position of the first `c` at or after `i`, or the length when there is none. */
  function FindFrom(s: string, c: char, i: nat): (j: nat)
    requires i <= |s|
    ensures i <= j <= |s| && (j < |s| ==> s[j] == c)
    ensures forall k :: i <= k < j ==> s[k] != c
    decreases |s| - i
  {
    if i == |s| || s[i] == c then i else FindFrom(s, c, i + 1)
  }

  /** Just after the double-quoted text whose first character is at `i`. */
  function SkipDouble(s: string, i: nat): (j: nat)
    requires i <= |s|
    ensures i <= j <= |s|
    decreases |s| - i
  {
    if i == |s| then i
    else if s[i] == '"' then i + 1
    else if s[i] == '\\' && i + 1 < |s| then SkipDouble(s, i + 2)
    else SkipDouble(s, i + 1)
  }

  /** The scan of `_subst_end` from `i` with `depth` parentheses open. */
  function SubstScan(s: string, i: nat, depth: nat): (j: nat)
    requires i <= |s| && depth >= 1
    ensures i <= j <= |s| && (j < |s| ==> s[j] == ')')
    decreases |s| - i
  {
    if i == |s| then i
    else if s[i] == '\\' && i + 1 < |s| then SubstScan(s, i + 2, depth)
    else if s[i] == '\'' then
      var j := FindFrom(s, '\'', i + 1);
      SubstScan(s, if j == |s| then |s| else j + 1, depth)
    else if s[i] == '"' then SubstScan(s, SkipDouble(s, i + 1), depth)
    else if s[i] == '(' then SubstScan(s, i + 1, depth + 1)
    else if s[i] == ')' then if depth == 1 then i else SubstScan(s, i + 1, depth - 1)
    else SubstScan(s, i + 1, depth)
  }

  function SubstEnd(s: string, open: nat): (j: nat)
    requires open < |s|
    ensures open < j <= |s| && (j < |s| ==> s[j] == ')')
  {
    SubstScan(s, open + 1, 1)
  }

  predicate CommentStart(s: string, i: nat)
    requires i < |s|
  {
    s[i] == '#' && (i == 0 || IsSpace(s[i - 1]) || s[i - 1] in {';', '|', '&', '(', ')'})
  }

  /** The masked text of `s[i..]`, one piece after another. */
  function MaskFrom(s: string, i: nat, comments: bool): string
    requires i <= |s|
    decreases |s|, |s| - i, 3
  {
    if i == |s| then ""
    else
      var (piece, next) := MaskPiece(s, i, comments);
      piece + MaskFrom(s, next, comments)
  }

  /** One turn of the outer walk: the masked piece at `i` and where the walk goes on. */
  function MaskPiece(s: string, i: nat, comments: bool): (r: (string, nat))
    requires i < |s|
    ensures i < r.1 <= |s|
    decreases |s|, |s| - i, 2
  {
    if comments && CommentStart(s, i) then
      var end := FindFrom(s, '\n', i);
      (Blanks(s[i..end]), end)
    else if s[i] == '\\' && i + 1 < |s| then (s[i..i + 2], i + 2)
    else if s[i] == '\'' then
      var j := FindFrom(s, '\'', i + 1);
      if j == |s| then (s[i..], |s|) else ("'" + Blanks(s[i + 1..j]) + "'", j + 1)
    else if s[i] == '"' then
      var (text, end) := MaskDouble(s, i + 1, comments);
      if end == |s| then (s[i..], |s|) else ("\"" + text + "\"", end + 1)
    else ([s[i]], i + 1)
  }

  /** The masked double-quoted text starting at `i` and the index of its closing quote. */
  function MaskDouble(s: string, i: nat, comments: bool): (r: (string, nat))
    requires i <= |s|
    ensures i <= r.1 <= |s| && (r.1 < |s| ==> s[r.1] == '"')
    decreases |s|, |s| - i, 1
  {
    if i == |s| || s[i] == '"' then ("", i)
    else
      var (piece, next) := DoublePiece(s, i, comments);
      var (rest, end) := MaskDouble(s, next, comments);
      (piece + rest, end)
  }

  /** One turn of the walk inside double quotes. */
  function DoublePiece(s: string, i: nat, comments: bool): (r: (string, nat))
    requires i < |s|
    ensures i < r.1 <= |s|
    decreases |s|, |s| - i, 0
  {
    if s[i] == '\\' && i + 1 < |s| then ("  ", i + 2)
    else if s[i] == '$' && i + 1 < |s| && s[i + 1] == '(' then
      var end := SubstEnd(s, i + 1);
      var inner := MaskFrom(s[i + 2..end], 0, comments);
      if end < |s| then ("$(" + inner + ")", end + 1) else ("$(" + inner, |s|)
    else if s[i] == '`' then
      var j := FindFrom(s, '`', i + 1);
      var inner := MaskFrom(s[i + 1..j], 0, comments);
      if j < |s| then ("`" + inner + "`", j + 1) else ("`" + inner, |s|)
    else ([Blank(s[i])], i + 1)
  }

  /** `_mask_quoted`. */
  function Mask(s: string, comments: bool): string {
    MaskFrom(s, 0, comments)
  }

  // ---------------------------------------------------------------- index alignment

  /** Same length, and each character is kept or turned into a space. */
  ghost predicate Aligned(s: string, r: string) {
    |r| == |s| && forall k :: 0 <= k < |s| ==> r[k] == s[k] || r[k] == ' '
  }

  /** `r` masks the stretch of `s` that starts at `i`. */
  ghost predicate AlignedAt(s: string, i: nat, r: string) {
    i + |r| <= |s| && forall k :: 0 <= k < |r| ==> r[k] == s[i + k] || r[k] == ' '
  }

  lemma AlignedThen(s: string, i: nat, x: string, y: string)
    requires AlignedAt(s, i, x) && AlignedAt(s, i + |x|, y)
    ensures AlignedAt(s, i, x + y)
  {
    forall k | 0 <= k < |x + y| ensures (x + y)[k] == s[i + k] || (x + y)[k] == ' ' {
      if k >= |x| {
        assert (x + y)[k] == y[k - |x|];
      }
    }
  }

  /** A mask of a slice is a mask in place. */
  lemma AlignedSlice(s: string, a: nat, b: nat, r: string)
    requires a <= b <= |s| && AlignedAt(s[a..b], 0, r)
    ensures AlignedAt(s, a, r)
  {
    forall k | 0 <= k < |r| ensures r[k] == s[a + k] || r[k] == ' ' {
      assert s[a..b][0 + k] == s[a + k];
    }
  }

  lemma VerbatimAligned(s: string, a: nat, b: nat)
    requires a <= b <= |s|
    ensures AlignedAt(s, a, s[a..b]) && AlignedAt(s, a, Blanks(s[a..b]))
  {
  }

  /** A bracketed inner mask, as in quotes. */
  lemma AlignedBracket(s: string, i: nat, open: string, inner: string, close: string)
    requires AlignedAt(s, i, open) && AlignedAt(s, i + |open|, inner) && AlignedAt(s, i + |open| + |inner|, close)
    ensures AlignedAt(s, i, open + inner + close)
  {
    AlignedThen(s, i, open, inner);
    AlignedThen(s, i, open + inner, close);
  }

  /** A walk's piece covers exactly the characters it steps over. */
  ghost predicate Covers(s: string, i: nat, piece: (string, nat)) {
    AlignedAt(s, i, piece.0) && i + |piece.0| == piece.1
  }

  lemma {:induction false} MaskFromAligned(s: string, i: nat, comments: bool)
    requires i <= |s|
    ensures Covers(s, i, (MaskFrom(s, i, comments), |s|))
    decreases |s|, |s| - i, 4
  {
    if i < |s| {
      var (piece, next) := MaskPiece(s, i, comments);
      MaskPieceAligned(s, i, comments);
      MaskFromAligned(s, next, comments);
      AlignedThen(s, i, piece, MaskFrom(s, next, comments));
    }
  }

  lemma {:induction false} MaskPieceAligned(s: string, i: nat, comments: bool)
    requires i < |s|
    ensures Covers(s, i, MaskPiece(s, i, comments))
    decreases |s|, |s| - i, 3
  {
    RestAligned(s, i);
    if comments && CommentStart(s, i) {
      VerbatimAligned(s, i, FindFrom(s, '\n', i));
    } else if s[i] == '\\' && i + 1 < |s| {
      VerbatimAligned(s, i, i + 2);
    } else if s[i] == '\'' {
      var j := FindFrom(s, '\'', i + 1);
      if j < |s| {
        QuotedAligned(s, i, j, '\'', Blanks(s[i + 1..j])) by { VerbatimAligned(s, i + 1, j); }
      }
    } else if s[i] == '"' {
      var r := MaskDouble(s, i + 1, comments);
      MaskDoubleAligned(s, i + 1, comments);
      if r.1 < |s| {
        QuotedAligned(s, i, r.1, '"', r.0);
      }
    }
  }

  lemma RestAligned(s: string, i: nat)
    requires i <= |s|
    ensures Covers(s, i, (s[i..], |s|))
  {
  }

  lemma QuotedAligned(s: string, i: nat, j: nat, q: char, inner: string)
    requires i + 1 <= j < |s| && s[i] == q && s[j] == q
    requires Covers(s, i + 1, (inner, j))
    ensures Covers(s, i, ([q] + inner + [q], j + 1))
  {
    AlignedBracket(s, i, [q], inner, [q]);
  }

  lemma {:induction false} MaskDoubleAligned(s: string, i: nat, comments: bool)
    requires i <= |s|
    ensures Covers(s, i, MaskDouble(s, i, comments))
    decreases |s|, |s| - i, 2
  {
    if i < |s| && s[i] != '"' {
      var (piece, next) := DoublePiece(s, i, comments);
      DoublePieceAligned(s, i, comments);
      MaskDoubleAligned(s, next, comments);
      AlignedThen(s, i, piece, MaskDouble(s, next, comments).0);
    }
  }

  lemma {:induction false} DoublePieceAligned(s: string, i: nat, comments: bool)
    requires i < |s|
    ensures Covers(s, i, DoublePiece(s, i, comments))
    decreases |s|, |s| - i, 1
  {
    if s[i] == '$' && i + 1 < |s| && s[i + 1] == '(' {
      InnerAligned(s, i, i + 2, SubstEnd(s, i + 1), "$(", ")", comments);
    } else if s[i] == '`' {
      InnerAligned(s, i, i + 1, FindFrom(s, '`', i + 1), "`", "`", comments);
    }
  }

  /** A masked substitution body between its delimiters, the closing one possibly missing. */
  lemma {:induction false} InnerAligned(s: string, i: nat, a: nat, b: nat, open: string, close: string, comments: bool)
    requires i < a <= b <= |s| && a == i + |open| && s[i..a] == open && |close| == 1 && (b < |s| ==> s[b] == close[0])
    ensures var inner := MaskFrom(s[a..b], 0, comments);
      && Covers(s, i, (open + inner, b))
      && (b < |s| ==> Covers(s, i, (open + inner + close, b + 1)))
    decreases |s|, |s| - i, 0
  {
    var inner := MaskFrom(s[a..b], 0, comments);
    MaskFromAligned(s[a..b], 0, comments);
    AlignedSlice(s, a, b, inner);
    VerbatimAligned(s, i, a);
    AlignedThen(s, i, open, inner);
    if b < |s| {
      AlignedThen(s, i, open + inner, close);
    }
  }

  /** Masking never moves a character: on every input, terminated or not, the result has
      the same length and each position holds the input's character or a space. */
  lemma MaskIsAligned(s: string, comments: bool)
    ensures Aligned(s, Mask(s, comments))
  {
    MaskFromAligned(s, 0, comments);
  }

  // ---------------------------------------------------------------- the loops

  method SkipDoubleLoop(command: string, from: nat) returns (i: nat)
    requires from <= |command|
    ensures i == SkipDouble(command, from)
  {
    i := from;
    while i < |command| && command[i] != '"'
      invariant from <= i <= |command|
      invariant SkipDouble(command, from) == SkipDouble(command, i)
    {
      i := if command[i] == '\\' && i + 1 < |command| then i + 2 else i + 1;
    }
    i := if i < |command| then i + 1 else i;
  }

  method SubstEndLoop(command: string, open: nat) returns (end: nat)
    requires open < |command|
    ensures end == SubstEnd(command, open)
  {
    var depth := 1;
    var i := open + 1;
    var n := |command|;
    while i < n && depth > 0
      invariant open < i <= n && depth >= 1
      invariant SubstEnd(command, open) == SubstScan(command, i, depth)
    {
      var c := command[i];
      if c == '\\' && i + 1 < n {
        i := i + 2;
        continue;
      }
      if c == '\'' {
        var j := FindFrom(command, '\'', i + 1);
        i := if j == n then n else j + 1;
        continue;
      }
      if c == '"' {
        i := SkipDoubleLoop(command, i + 1);
        continue;
      }
      if c == '(' {
        depth := depth + 1;
      } else if c == ')' {
        depth := depth - 1;
        if depth == 0 {
          return i;
        }
      }
      i := i + 1;
    }
    return n;
  }

  lemma JoinThree(a: string, b: string, c: string)
    ensures a + (b + c) == (a + b) + c
  {
  }

  /** One turn of the walk inside double quotes. */
  method DoubleStep(command: string, i: nat, comments: bool) returns (piece: string, next: nat)
    requires i < |command|
    ensures (piece, next) == DoublePiece(command, i, comments)
    decreases |command|, 0
  {
    var n := |command|;
    if command[i] == '\\' && i + 1 < n {
      return "  ", i + 2;
    }
    if command[i] == '$' && i + 1 < n && command[i + 1] == '(' {
      var end := SubstEndLoop(command, i + 1);
      var inner := MaskQuoted(command[i + 2..end], comments);
      if end < n {
        return "$(" + inner + ")", end + 1;
      }
      return "$(" + inner, n;
    }
    if command[i] == '`' {
      var j := FindFrom(command, '`', i + 1);
      var inner := MaskQuoted(command[i + 1..j], comments);
      if j < n {
        return "`" + inner + "`", j + 1;
      }
      return "`" + inner, n;
    }
    return [Blank(command[i])], i + 1;
  }

  /** The inner walk over double-quoted text, which keeps command substitutions visible. */
  method MaskDoubleLoop(command: string, start: nat, comments: bool) returns (text: string, end: nat)
    requires start <= |command|
    ensures (text, end) == MaskDouble(command, start, comments)
    decreases |command|, 1
  {
    text, end := "", start;
    assert "" + MaskDouble(command, start, comments).0 == MaskDouble(command, start, comments).0;
    while end < |command| && command[end] != '"'
      invariant start <= end <= |command|
      invariant MaskDouble(command, start, comments)
                == (text + MaskDouble(command, end, comments).0, MaskDouble(command, end, comments).1)
    {
      var bit, after := DoubleStep(command, end, comments);
      JoinThree(text, bit, MaskDouble(command, after, comments).0);
      text, end := text + bit, after;
    }
    assert text + "" == text;
  }

  /** The body of the outer walk at `i`. */
  method MaskStep(command: string, i: nat, comments: bool) returns (piece: string, next: nat)
    requires i < |command|
    ensures (piece, next) == MaskPiece(command, i, comments)
    decreases |command|, 2
  {
    var n := |command|;
    if comments && CommentStart(command, i) {
      next := FindFrom(command, '\n', i);
      return Blanks(command[i..next]), next;
    }
    if command[i] == '\\' && i + 1 < n {
      return command[i..i + 2], i + 2;
    }
    if command[i] == '\'' {
      var j := FindFrom(command, '\'', i + 1);
      if j == n {
        // An unmatched quote may be comment text; keep later commands visible.
        return command[i..], n;
      }
      return "'" + Blanks(command[i + 1..j]) + "'", j + 1;
    }
    if command[i] == '"' {
      var text, end := MaskDoubleLoop(command, i + 1, comments);
      if end == n {
        return command[i..], n;
      }
      return "\"" + text + "\"", end + 1;
    }
    return [command[i]], i + 1;
  }

  /** `_mask_quoted`: the outer walk over the command. */
  method MaskQuoted(command: string, comments: bool) returns (out: string)
    ensures out == Mask(command, comments)
    decreases |command|, 3
  {
    out := "";
    var i := 0;
    while i < |command|
      invariant i <= |command|
      invariant Mask(command, comments) == out + MaskFrom(command, i, comments)
    {
      var piece, next := MaskStep(command, i, comments);
      JoinThree(out, piece, MaskFrom(command, next, comments));
      out, i := out + piece, next;
    }
  }
}
