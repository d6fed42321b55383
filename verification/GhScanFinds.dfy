/** Words that are quoted or escaped are read back, and so the scanner finds `gh` in the argument
    of a shell form. */
module GhScanFinds {
  import opened Common
  import opened GhMask
  import opened GhScan
  import opened GhScanWords

  // ---------------------------------------------------------------- spelling a word

  datatype Style = Single | Double | Escaped | AsIs

  /** Backslashes before the characters of `marks`. */
  function Marked(w: string, marks: set<char>): string {
    if w == "" then "" else (if w[0] in marks then ['\\', w[0]] else [w[0]]) + Marked(w[1..], marks)
  }

  function Slashed(w: string): string {
    if w == "" then "" else ['\\', w[0]] + Slashed(w[1..])
  }

  function Spelling(style: Style, w: string): string {
    match style
    case Single => "'" + w + "'"
    case Double => "\"" + Marked(w, {'"', '\\'}) + "\""
    case Escaped => Slashed(w)
    case AsIs => w
  }

  ghost predicate CanSpell(style: Style, w: string) {
    match style
    case Single => forall k :: 0 <= k < |w| ==> w[k] != '\''
    case Double => true
    case Escaped => w != ""
    case AsIs => w != "" && forall k :: 0 <= k < |w| ==> w[k] !in {' ', '\t', ';', '\n', '&', '|', '\'', '"', '\\'}
  }

  /** `s` has `text` at `k`. */
  ghost predicate Has(s: string, k: nat, text: string) {
    k + |text| <= |s| && s[k..k + |text|] == text
  }

  lemma HasSplits(s: string, k: nat, a: string, b: string)
    ensures Has(s, k, a + b) <==> Has(s, k, a) && Has(s, k + |a|, b)
  {
    if Has(s, k, a + b) {
      assert s[k..k + |a|] == (a + b)[..|a|] == a;
      assert s[k + |a|..k + |a| + |b|] == (a + b)[|a|..] == b;
    }
    if Has(s, k, a) && Has(s, k + |a|, b) {
      assert s[k..k + |a + b|] == s[k..k + |a|] + s[k + |a|..k + |a| + |b|];
    }
  }

  lemma {:induction false} ReadsQuoted(s: string, j: nat, w: string)
    requires Has(s, j, Marked(w, {'"', '\\'}) + "\"")
    ensures DoubleBody(s, j) == (w, j + |Marked(w, {'"', '\\'})|)
    decreases |w|
  {
    var more := Marked(w, {'"', '\\'});
    if w == "" {
      assert s[j..j + 1] == "\"";
      assert s[j] == s[j..j + 1][0];
    } else {
      var first := if w[0] in {'"', '\\'} then ['\\', w[0]] else [w[0]];
      var rest := Marked(w[1..], {'"', '\\'});
      assert more + "\"" == first + (rest + "\"");
      HasSplits(s, j, first, rest + "\"");
      HasSplits(s, j + |first|, rest, "\"");
      ReadsQuoted(s, j + |first|, w[1..]);
      assert s[j] == s[j..j + |first|][0];
      if |first| == 2 {
        assert s[j + 1] == s[j..j + |first|][1];
      }
      assert w == [w[0]] + w[1..];
    }
  }

  ghost predicate Stops(s: string, end: nat) {
    end <= |s| && (end < |s| ==> s[end] in {' ', '\t', ';', '\n', '&', '|', '\'', '"'})
  }

  lemma {:induction false} ReadsSlashed(s: string, j: nat, w: string)
    requires Has(s, j, Slashed(w)) && Stops(s, j + |Slashed(w)|)
    ensures WordBody(s, j) == (w, j + |Slashed(w)|)
    decreases |w|
  {
    if w != "" {
      HasSplits(s, j, ['\\', w[0]], Slashed(w[1..]));
      assert s[j] == s[j..j + 2][0] && s[j + 1] == s[j..j + 2][1];
      ReadsSlashed(s, j + 2, w[1..]);
      assert w == [w[0]] + w[1..];
    }
  }

  lemma {:induction false} ReadsPlain(s: string, j: nat, w: string)
    requires Has(s, j, w) && Stops(s, j + |w|) && (w == "" || CanSpell(AsIs, w))
    ensures WordBody(s, j) == (w, j + |w|)
    decreases |w|
  {
    if w != "" {
      HasSplits(s, j, [w[0]], w[1..]);
      assert w == [w[0]] + w[1..];
      assert s[j] == s[j..j + 1][0];
      assert forall k :: 0 <= k < |w[1..]| ==> w[1..][k] == w[k + 1];
      ReadsPlain(s, j + 1, w[1..]);
    }
  }

  lemma {:induction false} FindsAt(s: string, c: char, i: nat, k: nat)
    requires i <= k < |s| && s[k] == c && forall m :: i <= m < k ==> s[m] != c
    ensures FindFrom(s, c, i) == k
    decreases k - i
  {
    if i < k {
      FindsAt(s, c, i + 1, k);
    }
  }

  ghost predicate BlankRun(s: string, i: nat, k: nat) {
    i <= k <= |s| && forall m :: i <= m < k ==> s[m] == ' ' || s[m] == '\t'
  }

  lemma {:induction false} SkipsRun(s: string, i: nat, k: nat)
    requires BlankRun(s, i, k) && (k < |s| ==> s[k] != ' ' && s[k] != '\t')
    ensures SkipBlanks(s, i) == k
    decreases k - i
  {
    if i < k {
      SkipsRun(s, i + 1, k);
    }
  }

  /** However a word is spelled, it is read back, and the next token starts after its spelling. */
  lemma SpelledWordReadsBack(s: string, i: nat, k: nat, style: Style, w: string)
    requires BlankRun(s, i, k) && CanSpell(style, w) && Has(s, k, Spelling(style, w))
    requires style in {Escaped, AsIs} ==> Stops(s, k + |Spelling(style, w)|)
    ensures NextToken(s, i) == Some(Word(k, k + |Spelling(style, w)|, w))
  {
    var spelled := Spelling(style, w);
    assert s[k] == spelled[0] by { assert s[k] == s[k..k + |spelled|][0]; }
    match style
    case Single => SingleReadsBack(s, i, k, w);
    case Double => DoubleReadsBack(s, i, k, w);
    case Escaped =>
      SkipsRun(s, i, k);
      ReadsSlashed(s, k, w);
    case AsIs =>
      assert spelled[0] == w[0];
      SkipsRun(s, i, k);
      ReadsPlain(s, k, w);
  }

  lemma DoubleReadsBack(s: string, i: nat, k: nat, w: string)
    requires BlankRun(s, i, k) && Has(s, k, Spelling(Double, w))
    ensures NextToken(s, i) == Some(Word(k, k + |Spelling(Double, w)|, w))
  {
    var body := Marked(w, {'"', '\\'}) + "\"";
    assert Spelling(Double, w) == "\"" + body;
    HasSplits(s, k, "\"", body);
    assert s[k] == s[k..k + 1][0];
    SkipsRun(s, i, k);
    HasSplits(s, k + 1, Marked(w, {'"', '\\'}), "\"");
    ReadsQuoted(s, k + 1, w);
  }

  lemma SingleReadsBack(s: string, i: nat, k: nat, w: string)
    requires BlankRun(s, i, k) && CanSpell(Single, w) && Has(s, k, "'" + w + "'")
    ensures NextToken(s, i) == Some(Word(k, k + |w| + 2, w))
  {
    HasSplits(s, k, "'" + w, "'");
    HasSplits(s, k, "'", w);
    var end := k + 1 + |w|;
    assert s[k] == s[k..k + 1][0] == '\'' && s[end] == s[end..end + 1][0] == '\'';
    SkipsRun(s, i, k);
    forall m | k + 1 <= m < end ensures s[m] != '\'' {
      assert s[m] == s[k + 1..end][m - k - 1];
    }
    FindsAt(s, '\'', k + 1, end);
  }

  /** A separator is a token of its own, and nothing else is one. */
  lemma SeparatorsAre(s: string, i: nat)
    requires i <= |s|
    ensures NextToken(s, i).Some? ==>
      var t := NextToken(s, i).value;
      BlankRun(s, i, t.start) && (t.Sep? <==> s[t.start] in {';', '\n', '&', '|'}) && (t.Sep? ==> t.end == t.start + 1)
  {
  }

  /** A quote that is never closed runs to the end of the command. */
  lemma OpenQuoteRunsOn(s: string, i: nat, k: nat)
    requires BlankRun(s, i, k) && k < |s| && s[k] == '\'' && forall m :: k < m < |s| ==> s[m] != '\''
    ensures NextToken(s, i) == Some(Word(k, |s|, s[k + 1..]))
  {
    SkipsRun(s, i, k);
    assert FindFrom(s, '\'', k + 1) == |s|;
  }

  // ---------------------------------------------------------------- quoted shell commands

  /** The argument of a shell form that runs `inner`. */
  function Argument(form: Form, inner: string): string {
    match form
    case Shell => " -c '" + inner + "'"
    case Eval => " '" + inner + "'"
    case Watch => " '" + inner + "'"
    case Xargs => " sh -c '" + inner + "'"
  }

  /** The command ends at `end`, or a separator does. */
  ghost predicate Over(s: string, end: nat) {
    end == |s| || (end < |s| && s[end] in {';', '\n', '&', '|'})
  }

  lemma OverEnds(s: string, end: nat)
    requires Over(s, end)
    ensures WordsAt(s, end) == []
  {
    SeparatorsAre(s, end);
    SkipsRun(s, end, end);
  }

  /** One blank and then a spelled word. */
  lemma BlankWord(s: string, i: nat, style: Style, w: string)
    requires Has(s, i, " " + Spelling(style, w)) && CanSpell(style, w)
    requires style in {Escaped, AsIs} ==> Stops(s, i + 1 + |Spelling(style, w)|)
    ensures NextToken(s, i) == Some(Word(i + 1, i + 1 + |Spelling(style, w)|, w))
  {
    HasSplits(s, i, " ", Spelling(style, w));
    assert s[i] == s[i..i + 1][0];
    SpelledWordReadsBack(s, i, i + 1, style, w);
  }

  lemma DashC(s: string, i: nat, inner: string)
    requires Has(s, i, " -c '" + inner + "'") && CanSpell(Single, inner)
    ensures CArgument(s, i) == Some(inner)
  {
    assert " -c '" + inner + "'" == " -c" + (" " + Spelling(Single, inner));
    HasSplits(s, i, " -c", " " + Spelling(Single, inner));
    HasSplits(s, i + 3, " ", Spelling(Single, inner));
    assert s[i + 3] == s[i + 3..i + 4][0];
    BlankWord(s, i, AsIs, "-c");
    BlankWord(s, i + 3, Single, inner);
  }

  /** Each shell form yields its quoted argument. */
  lemma FormYieldsArgument(form: Form, s: string, i: nat, inner: string)
    requires Has(s, i, Argument(form, inner)) && CanSpell(Single, inner)
    requires form in {Eval, Watch} ==> Over(s, i + |Argument(form, inner)|)
    requires form == Watch ==> !StartsDash(inner)
    requires form == Eval ==> inner != "--"
    ensures Extract(form, s, i) == Some(inner)
  {
    match form
    case Shell => DashC(s, i, inner);
    case Xargs =>
      assert Argument(form, inner) == " sh" + (" -c '" + inner + "'");
      HasSplits(s, i, " sh", " -c '" + inner + "'");
      assert s[i + 3] == (" -c '" + inner + "'")[0] by { assert s[i + 3] == s[i + 3..i + 3 + |" -c '" + inner + "'"|][0]; }
      BlankWord(s, i, AsIs, "sh");
      ShellIsPlain();
      DashC(s, i + 3, inner);
    case _ => OneWordRuns(form, s, i, inner);
  }

  lemma ShellIsPlain()
    ensures IsShellWord("sh") && !IsOption("sh")
  {
    assert '/' !in "sh";
  }

  lemma OneWordRuns(form: Form, s: string, i: nat, inner: string)
    requires form in {Eval, Watch} && Has(s, i, " '" + inner + "'") && CanSpell(Single, inner)
    requires Over(s, i + 3 + |inner|)
    requires form == Watch ==> !StartsDash(inner)
    requires form == Eval ==> inner != "--"
    ensures Extract(form, s, i) == Some(inner)
  {
    OneWordStands(s, i, inner);
    OneWordJoined(s, i, i + 3 + |inner|, inner);
  }

  lemma OneWordStands(s: string, i: nat, inner: string)
    requires Has(s, i, " '" + inner + "'") && CanSpell(Single, inner) && Over(s, i + 3 + |inner|)
    ensures NextToken(s, i) == Some(Word(i + 1, i + 3 + |inner|, inner))
    ensures WordsFrom(s, i + 3 + |inner|, [inner]) == [inner] == WatchWordsFrom(s, i + 3 + |inner|, [inner])
  {
    QuotedStands(s, i, inner);
    NothingFollows(s, i + 3 + |inner|, inner);
  }

  lemma QuotedStands(s: string, i: nat, inner: string)
    requires Has(s, i, " '" + inner + "'") && CanSpell(Single, inner)
    ensures NextToken(s, i) == Some(Word(i + 1, i + 3 + |inner|, inner))
  {
    assert " '" + inner + "'" == " " + Spelling(Single, inner);
    BlankWord(s, i, Single, inner);
  }

  lemma NothingFollows(s: string, end: nat, word: string)
    requires Over(s, end)
    ensures WordsFrom(s, end, [word]) == [word] == WatchWordsFrom(s, end, [word])
  {
    OverEnds(s, end);
    WordsFromNonEmpty(s, end, [word]);
  }

  lemma OneWordJoined(s: string, i: nat, end: nat, inner: string)
    requires i < end <= |s| && NextToken(s, i) == Some(Word(i + 1, end, inner))
    requires WordsFrom(s, end, [inner]) == [inner] == WatchWordsFrom(s, end, [inner])
    ensures inner != "--" ==> Joined(WordsFrom(s, i, [])) == Some(inner)
    ensures !StartsDash(inner) ==> Joined(WatchWordsFrom(s, i, [])) == Some(inner)
  {
    assert [] + [inner] == [inner] && JoinWords([inner]) == inner;
  }

  ghost predicate Matches(p: Patterns, form: Form, visible: string, i: nat) {
    i in match form
         case Shell => p.shellEnds(visible)
         case Eval => p.evalEnds(visible)
         case Watch => p.watchEnds(visible)
         case Xargs => p.xargsEnds(visible)
  }

  lemma {:induction false} ExtractAllHas(form: Form, s: string, ends: seq<nat>, i: nat, inner: string)
    requires forall k :: 0 <= k < |ends| ==> 1 <= ends[k] <= |s|
    requires i in ends && Extract(form, s, i) == Some(inner) && inner != ""
    ensures inner in ExtractAll(form, s, ends)
    decreases |ends|
  {
    if ends[0] != i {
      ExtractAllHas(form, s, ends[1..], i, inner);
    }
  }

  lemma TextIsFound(p: Patterns, form: Form, s: string, i: nat, inner: string)
    requires WellFormed(p) && Matches(p, form, Mask(s, false), i) && 1 <= i <= |s|
    requires Extract(form, s, i) == Some(inner) && inner != ""
    ensures inner in ShellTexts(p, s)
  {
    MaskIsAligned(s, false);
    var visible := Mask(s, false);
    match form
    case Shell => ExtractAllHas(Shell, s, p.shellEnds(visible), i, inner);
    case Eval => ExtractAllHas(Eval, s, p.evalEnds(visible), i, inner);
    case Watch => ExtractAllHas(Watch, s, p.watchEnds(visible), i, inner);
    case Xargs => ExtractAllHas(Xargs, s, p.xargsEnds(visible), i, inner);
  }

  lemma {:induction false} NestsLess(f: Search, s: string, n: nat)
    requires NestsTo(f, s, n + 1)
    ensures NestsTo(f, s, n)
    decreases n
  {
    if n > 0 {
      var k :| 0 <= k < |f.texts(s)| && NestsTo(f, f.texts(s)[k], n);
      NestsLess(f, f.texts(s)[k], n - 1);
    }
  }

  /** A search finds in a command what it finds in a text nested in it. */
  lemma NestedIsFound(f: Search, s: string, inner: string)
    requires Shortens(f.texts) && inner in f.texts(s) && Targets(f, inner, 0)
    ensures Targets(f, s, 0)
  {
    var k :| 0 <= k < |f.texts(s)| && f.texts(s)[k] == inner;
    CapOnlyAdds(f, inner);
    CapOnlyAdds(f, s);
    if NestsTo(f, inner, 32) {
      assert NestsTo(f, s, 33);
      NestsLess(f, s, 32);
    }
  }

  /** What the scanner finds in a text it finds in that text quoted after a shell form. */
  lemma WrappedIsFound(p: Patterns, form: Form, s: string, i: nat, inner: string)
    requires WellFormed(p) && Matches(p, form, Mask(s, false), i) && inner != ""
    requires Has(s, i, Argument(form, inner)) && CanSpell(Single, inner) && i >= 1
    requires form in {Eval, Watch} ==> Over(s, i + |Argument(form, inner)|)
    requires form == Watch ==> !StartsDash(inner)
    requires form == Eval ==> inner != "--"
    ensures TargetsGh(p, inner) ==> TargetsGh(p, s)
  {
    FormYieldsArgument(form, s, i, inner);
    TextIsFound(p, form, s, i, inner);
    if TargetsGh(p, inner) {
      NestedIsFound(ScannerSearch(p), s, inner);
    }
  }

  // ---------------------------------------------------------------- bash -c '...'

  /** The expressions find `bash` and a blank at the start of a command. */
  ghost predicate FindsBash(p: Patterns) {
    forall visible: string :: Has(visible, 0, "bash ") ==> 4 in p.shellEnds(visible)
  }

  lemma {:induction false} PlainPrefixStays(s: string, i: nat, j: nat)
    requires i <= j <= |s| && forall k :: i <= k < j ==> s[k] !in {'\'', '"', '\\'}
    ensures MaskFrom(s, i, false) == s[i..j] + MaskFrom(s, j, false)
    decreases j - i
  {
    if i < j {
      PlainPrefixStays(s, i + 1, j);
      assert s[i..j] == [s[i]] + s[i + 1..j];
    }
  }

  /** A text that runs `gh` is answered Yes inside `bash -c '...'`. */
  lemma BashCommandIsFound(p: Patterns, inner: string)
    requires WellFormed(p) && FindsBash(p) && CanSpell(Single, inner) && inner != ""
    requires p.invokesGh(Mask(inner, false))
    ensures TargetsGh(p, "bash -c '" + inner + "'")
  {
    var s := "bash" + Argument(Shell, inner);
    assert "bash -c '" + inner + "'" == s;
    assert s[..5] == "bash ";
    assert forall k :: 0 <= k < 5 ==> s[k] == "bash "[k];
    PlainPrefixStays(s, 0, 5);
    assert s[0..5] == "bash ";
    assert Has(Mask(s, false), 0, "bash ");
    assert Has(s, 4, Argument(Shell, inner));
    WrappedIsFound(p, Shell, s, 4, inner);
  }

  // ---------------------------------------------------------------- a quoted command word

  /** Before any other quote, a quoted word that is `gh` once unquoted is answered Yes. */
  lemma QuotedGhIsFound(p: Patterns, s: string, k: nat, style: Style, w: string)
    requires WellFormed(p) && style in {Single, Double} && CanSpell(style, w) && Has(s, k, Spelling(style, w))
    requires forall m :: 0 <= m < k ==> s[m] != '\'' && s[m] != '"'
    requires p.isGhWord(w) && |Mask(s, false)| == |s| && p.endsAtWord(Mask(s, false)[..k])
    ensures TargetsGh(p, s)
  {
    SpelledWordReadsBack(s, k, k, style, w);
    assert s[k] == s[k..k + |Spelling(style, w)|][0] == Spelling(style, w)[0];
    SkipsRun(s, k, k);
    WalksToQuote(p, s, Mask(s, false), 0, k);
  }

  lemma {:induction false} WalksToQuote(p: Patterns, s: string, visible: string, i: nat, k: nat)
    requires |visible| == |s| && i <= k < |s| && forall m :: i <= m < k ==> !IsQuote(s[m])
    ensures QuotedGhWord(p, s, visible, i) == QuotedGhWord(p, s, visible, k)
    decreases k - i
  {
    if i < k {
      WalksToQuote(p, s, visible, i + 1, k);
    }
  }

  /** And only a quoted word that is `gh` is. */
  lemma {:induction false} QuotedGhIsThere(p: Patterns, s: string, visible: string, i: nat) returns (k: nat)
    requires |visible| == |s| && i <= |s| && QuotedGhWord(p, s, visible, i)
    ensures i <= k < |s| && (s[k] == '\'' || s[k] == '"') && p.endsAtWord(visible[..k])
    ensures NextToken(s, k).Some? && NextToken(s, k).value.Word? && p.isGhWord(NextToken(s, k).value.text)
    decreases |s| - i
  {
    if IsQuote(s[i]) && p.isGhWord(QuotedBody(s, i).0) && p.endsAtWord(visible[..i]) {
      k := i;
      SkipsRun(s, k, k);
    } else {
      k := QuotedGhIsThere(p, s, visible, if IsQuote(s[i]) then QuotedBody(s, i).1 else i + 1);
    }
  }
}
