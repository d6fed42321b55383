/** The token walkers of the `gh` command scanner and the recursion that uses them. The
    regular expressions stay uninterpreted: only where their matches end matters. */
module GhScan {
  import opened Common
  import opened GhMask

  datatype Token = Sep(start: nat, end: nat) | Word(start: nat, end: nat, text: string)

  predicate IsSep(c: char) {
    c in {';', '\n', '&', '|'}
  }

  predicate IsBlankChar(c: char) {
    c == ' ' || c == '\t'
  }

  predicate IsQuote(c: char) {
    c == '\'' || c == '"'
  }

  predicate IsPlain(c: char) {
    !IsSep(c) && !IsBlankChar(c) && !IsQuote(c)
  }

  // ---------------------------------------------------------------- one token

  function DoubleBody(s: string, j: nat): (r: (string, nat))
    requires j <= |s|
    ensures j <= r.1 <= |s| && |r.0| <= r.1 - j
    decreases |s| - j
  {
    if j == |s| || s[j] == '"' then ("", j)
    else if s[j] == '\\' && j + 1 < |s| then
      var (rest, end) := DoubleBody(s, j + 2);
      ([s[j + 1]] + rest, end)
    else
      var (rest, end) := DoubleBody(s, j + 1);
      ([s[j]] + rest, end)
  }

  /** Unquoted text of the quote at `i`, and the index just after it. A terminated quote
      always costs two characters more than it yields, an unterminated one at least one. */
  function QuotedBody(s: string, i: nat): (r: (string, nat))
    requires i < |s| && IsQuote(s[i])
    ensures i < r.1 <= |s| && |r.0| + 1 <= r.1 - i
    ensures r.1 < |s| ==> |r.0| + 2 <= r.1 - i
  {
    if s[i] == '\'' then
      var k := FindFrom(s, '\'', i + 1);
      if k == |s| then (s[i + 1..], |s|) else (s[i + 1..k], k + 1)
    else
      var (body, j) := DoubleBody(s, i + 1);
      (body, if j == |s| then |s| else j + 1)
  }

  function SkipBlanks(s: string, i: nat): (j: nat)
    requires i <= |s|
    ensures i <= j <= |s| && (j < |s| ==> !IsBlankChar(s[j]))
    ensures forall k :: i <= k < j ==> IsBlankChar(s[k])
    decreases |s| - i
  {
    if i < |s| && IsBlankChar(s[i]) then SkipBlanks(s, i + 1) else i
  }

  function WordBody(s: string, j: nat): (r: (string, nat))
    requires j <= |s|
    ensures j <= r.1 <= |s| && |r.0| <= r.1 - j
    ensures j < |s| && IsPlain(s[j]) ==> r.1 > j
    ensures r.1 < |s| ==> !IsPlain(s[r.1])
    decreases |s| - j
  {
    if j == |s| || !IsPlain(s[j]) then ("", j)
    else if s[j] == '\\' && j + 1 < |s| then
      var (rest, end) := WordBody(s, j + 2);
      ([s[j + 1]] + rest, end)
    else
      var (rest, end) := WordBody(s, j + 1);
      ([s[j]] + rest, end)
  }

  /** Every token step strictly advances, and no token yields more text than it consumes. */
  function NextToken(s: string, i: nat): (t: Option<Token>)
    requires i <= |s|
    ensures t.Some? ==> i <= t.value.start < t.value.end <= |s|
    ensures t.Some? && t.value.Word? ==> |t.value.text| <= t.value.end - t.value.start
    ensures t.None? <==> SkipBlanks(s, i) == |s|
  {
    var k := SkipBlanks(s, i);
    if k == |s| then None
    else if IsSep(s[k]) then Some(Sep(k, k + 1))
    else if IsQuote(s[k]) then
      var (body, end) := QuotedBody(s, k);
      Some(Word(k, end, body))
    else
      var (text, end) := WordBody(s, k);
      Some(Word(k, end, text))
  }

  method QuotedBodyLoop(command: string, i: nat) returns (body: string, end: nat)
    requires i < |command| && IsQuote(command[i])
    ensures (body, end) == QuotedBody(command, i)
  {
    var n := |command|;
    if command[i] == '\'' {
      var k := FindFrom(command, '\'', i + 1);
      if k == n {
        return command[i + 1..], n;
      }
      return command[i + 1..k], k + 1;
    }
    var j := i + 1;
    body := "";
    assert "" + DoubleBody(command, j).0 == DoubleBody(command, j).0;
    while j < n && command[j] != '"'
      invariant i < j <= n
      invariant DoubleBody(command, i + 1) == (body + DoubleBody(command, j).0, DoubleBody(command, j).1)
    {
      var step := if command[j] == '\\' && j + 1 < n then 2 else 1;
      var c := command[j + step - 1];
      JoinThree(body, [c], DoubleBody(command, j + step).0);
      body, j := body + [c], j + step;
    }
    assert body + "" == body;
    end := if j == n then n else j + 1;
  }

  method NextTokenLoop(command: string, from: nat) returns (t: Option<Token>)
    requires from <= |command|
    ensures t == NextToken(command, from)
  {
    var i, n := from, |command|;
    while i < n && IsBlankChar(command[i])
      invariant from <= i <= n && SkipBlanks(command, from) == SkipBlanks(command, i)
    {
      i := i + 1;
    }
    if i == n {
      return None;
    }
    if IsSep(command[i]) {
      return Some(Sep(i, i + 1));
    }
    if IsQuote(command[i]) {
      var body, end := QuotedBodyLoop(command, i);
      return Some(Word(i, end, body));
    }
    var text, j := "", i;
    assert "" + WordBody(command, j).0 == WordBody(command, j).0;
    while j < n && IsPlain(command[j])
      invariant i <= j <= n
      invariant WordBody(command, i) == (text + WordBody(command, j).0, WordBody(command, j).1)
    {
      var step := if command[j] == '\\' && j + 1 < n then 2 else 1;
      var c := command[j + step - 1];
      JoinThree(text, [c], WordBody(command, j + step).0);
      text, j := text + [c], j + step;
    }
    assert text + "" == text;
    return Some(Word(i, j, text));
  }

  // ---------------------------------------------------------------- the walkers

  const SHELLS: set<string> := {"bash", "sh", "zsh", "dash"}
  const BASH_TAKES_ARG: set<string> := {"-o", "--rcfile", "--init-file"}
  const WATCH_TAKES_ARG: set<string> := {"-n", "--interval", "-e", "--errexit"}
  const XARGS_TAKES_ARG: set<string> := {
    "-I", "-i", "-n", "-P", "-a", "-d", "-E", "-L", "-s", "-J",
    "--replace", "--max-args", "--max-procs", "--arg-file", "--delimiter",
    "--eof", "--max-lines", "--max-chars"}

  predicate IsOption(w: string) {
    w != "" && w[0] == '-'
  }

  predicate IsLongOption(w: string) {
    |w| >= 2 && w[0] == '-' && w[1] == '-'
  }

  /** An option whose argument, if it needs one, is the next word. */
  predicate TakesNext(w: string, taking: set<string>) {
    '=' !in w && w in taking
  }

  function AfterLastSlash(w: string): string
    decreases |w|
  {
    if '/' !in w then w
    else if w[0] == '/' && '/' !in w[1..] then w[1..]
    else AfterLastSlash(w[1..])
  }

  predicate IsShellWord(w: string) {
    AfterLastSlash(w) in SHELLS
  }

  /** Where a walk goes on after an option word: past its argument when it takes one. */
  function AfterOption(s: string, w: string, end: nat, taking: bool): (j: nat)
    requires end <= |s|
    ensures end <= j <= |s|
  {
    if !taking then end
    else match NextToken(s, end)
      case Some(Word(_, e, _)) => e
      case _ => end
  }

  /** The command string of `shell -c`, if there is one. */
  function CArgument(s: string, i: nat): (r: Option<string>)
    requires i <= |s|
    ensures r.Some? ==> |r.value| <= |s| - i
    decreases |s| - i
  {
    match NextToken(s, i)
    case Some(Word(_, end, word)) =>
      if word == "--" then CArgument(s, end)
      else if IsOption(word) then
        if word == "-c" || (!IsLongOption(word) && 'c' in word[1..]) then
          (match NextToken(s, end)
           case Some(Word(_, _, text)) => Some(text)
           case _ => None)
        else CArgument(s, AfterOption(s, word, end, TakesNext(word, BASH_TAKES_ARG)))
      else None
    case _ => None
  }

  function JoinWords(parts: seq<string>): string {
    if parts == [] then "" else if |parts| == 1 then parts[0]
    else JoinWords(parts[..|parts| - 1]) + " " + parts[|parts| - 1]
  }

  function Joined(parts: seq<string>): Option<string> {
    if parts == [] then None else Some(JoinWords(parts))
  }

  /** The words of a simple command from `i` on, leading `--` skipped. */
  function WordsFrom(s: string, i: nat, parts: seq<string>): seq<string>
    requires i <= |s|
    decreases |s| - i
  {
    match NextToken(s, i)
    case Some(Word(_, end, word)) =>
      WordsFrom(s, end, if parts == [] && word == "--" then parts else parts + [word])
    case _ => parts
  }

  /** As above, but leading options of `watch` are skipped with their arguments. */
  function WatchWordsFrom(s: string, i: nat, parts: seq<string>): seq<string>
    requires i <= |s|
    decreases |s| - i
  {
    match NextToken(s, i)
    case Some(Word(_, end, word)) =>
      if parts == [] && IsOption(word) then
        var attached := |word| > 2 && word[..2] == "-n" && !IsLongOption(word);
        WatchWordsFrom(s, AfterOption(s, word, end, TakesNext(word, WATCH_TAKES_ARG) && !attached), parts)
      else WatchWordsFrom(s, end, parts + [word])
    case _ => parts
  }

  function XargsShell(s: string, i: nat): (r: Option<string>)
    requires i <= |s|
    ensures r.Some? ==> |r.value| <= |s| - i
    decreases |s| - i
  {
    match NextToken(s, i)
    case Some(Word(_, end, word)) =>
      if IsOption(word) then XargsShell(s, AfterOption(s, word, end, TakesNext(word, XARGS_TAKES_ARG)))
      else if IsShellWord(word) then CArgument(s, end)
      else None
    case _ => None
  }

  method CArgumentLoop(command: string, from: nat) returns (r: Option<string>)
    requires from <= |command|
    ensures r == CArgument(command, from)
  {
    var i := from;
    while true
      invariant from <= i <= |command| && CArgument(command, from) == CArgument(command, i)
      decreases |command| - i
    {
      var tok := NextTokenLoop(command, i);
      if tok.None? || tok.value.Sep? {
        return None;
      }
      var word := tok.value.text;
      i := tok.value.end;
      if word == "--" {
        continue;
      }
      if IsOption(word) {
        if word == "-c" || (!IsLongOption(word) && 'c' in word[1..]) {
          var arg := NextTokenLoop(command, i);
          return if arg.Some? && arg.value.Word? then Some(arg.value.text) else None;
        }
        if TakesNext(word, BASH_TAKES_ARG) {
          var arg := NextTokenLoop(command, i);
          if arg.Some? && arg.value.Word? {
            i := arg.value.end;
          }
        }
        continue;
      }
      return None;
    }
  }

  method JoinedWordsLoop(command: string, from: nat) returns (r: Option<string>)
    requires from <= |command|
    ensures r == Joined(WordsFrom(command, from, []))
  {
    var i, parts := from, [];
    while true
      invariant from <= i <= |command| && WordsFrom(command, from, []) == WordsFrom(command, i, parts)
      decreases |command| - i
    {
      var tok := NextTokenLoop(command, i);
      if tok.None? || tok.value.Sep? {
        return Joined(parts);
      }
      if parts != [] || tok.value.text != "--" {
        parts := parts + [tok.value.text];
      }
      i := tok.value.end;
    }
  }

  method WatchCommandLoop(command: string, from: nat) returns (r: Option<string>)
    requires from <= |command|
    ensures r == Joined(WatchWordsFrom(command, from, []))
  {
    var i, parts := from, [];
    while true
      invariant from <= i <= |command| && WatchWordsFrom(command, from, []) == WatchWordsFrom(command, i, parts)
      decreases |command| - i
    {
      var tok := NextTokenLoop(command, i);
      if tok.None? || tok.value.Sep? {
        return Joined(parts);
      }
      var word := tok.value.text;
      i := tok.value.end;
      if parts == [] && IsOption(word) {
        var attached := |word| > 2 && word[..2] == "-n" && !IsLongOption(word);
        if TakesNext(word, WATCH_TAKES_ARG) && !attached {
          var arg := NextTokenLoop(command, i);
          if arg.Some? && arg.value.Word? {
            i := arg.value.end;
          }
        }
        continue;
      }
      parts := parts + [word];
    }
  }

  method XargsShellLoop(command: string, from: nat) returns (r: Option<string>)
    requires from <= |command|
    ensures r == XargsShell(command, from)
  {
    var i := from;
    while true
      invariant from <= i <= |command| && XargsShell(command, from) == XargsShell(command, i)
      decreases |command| - i
    {
      var tok := NextTokenLoop(command, i);
      if tok.None? || tok.value.Sep? {
        return None;
      }
      var word := tok.value.text;
      i := tok.value.end;
      if IsOption(word) {
        if TakesNext(word, XARGS_TAKES_ARG) {
          var arg := NextTokenLoop(command, i);
          if arg.Some? && arg.value.Word? {
            i := arg.value.end;
          }
        }
        continue;
      }
      if IsShellWord(word) {
        r := CArgumentLoop(command, i);
        return;
      }
      return None;
    }
  }

  // ---------------------------------------------------------------- joined words never grow

  /** The joined words so far fit in the text consumed, with one character to spare when the
      next word may follow without any separating character. */
  ghost predicate Fits(s: string, start: nat, i: nat, parts: seq<string>) {
    && start <= i <= |s|
    && |JoinWords(parts)| <= i - start
    && (parts != [] && i < |s| && IsPlain(s[i]) ==> |JoinWords(parts)| + 1 <= i - start)
  }

  lemma JoinGrows(parts: seq<string>, word: string)
    ensures |JoinWords(parts + [word])| == |JoinWords(parts)| + |word| + (if parts == [] then 0 else 1)
  {
    assert (parts + [word])[..|parts|] == parts;
  }

  lemma WordFits(s: string, start: nat, i: nat, parts: seq<string>)
    requires Fits(s, start, i, parts)
    requires NextToken(s, i).Some? && NextToken(s, i).value.Word?
    ensures var t := NextToken(s, i).value; Fits(s, start, t.end, parts + [t.text])
  {
    var k := SkipBlanks(s, i);
    JoinGrows(parts, NextToken(s, i).value.text);
    if IsQuote(s[k]) {
      assert NextToken(s, i).value.end == QuotedBody(s, k).1;
    } else {
      assert IsPlain(s[k]);
    }
  }

  lemma {:induction false} WordsFit(s: string, start: nat, i: nat, parts: seq<string>)
    requires Fits(s, start, i, parts)
    ensures |JoinWords(WordsFrom(s, i, parts))| <= |s| - start
    decreases |s| - i
  {
    match NextToken(s, i)
    case Some(Word(_, end, word)) =>
      if parts == [] && word == "--" {
        WordsFit(s, start, end, parts);
      } else {
        WordFits(s, start, i, parts);
        WordsFit(s, start, end, parts + [word]);
      }
    case _ =>
  }

  lemma {:induction false} WatchWordsFit(s: string, start: nat, i: nat, parts: seq<string>)
    requires Fits(s, start, i, parts)
    ensures |JoinWords(WatchWordsFrom(s, i, parts))| <= |s| - start
    decreases |s| - i
  {
    match NextToken(s, i)
    case Some(Word(_, end, word)) =>
      if parts == [] && IsOption(word) {
        var attached := |word| > 2 && word[..2] == "-n" && !IsLongOption(word);
        WatchWordsFit(s, start, AfterOption(s, word, end, TakesNext(word, WATCH_TAKES_ARG) && !attached), parts);
      } else {
        WordFits(s, start, i, parts);
        WatchWordsFit(s, start, end, parts + [word]);
      }
    case _ =>
  }

  // ---------------------------------------------------------------- nested command texts

  /** The regular expressions of the scanner: tests, and the ends of the matches they find. */
  datatype Patterns = Patterns(
    invokesGh: string -> bool,
    isGhWord: string -> bool,
    endsAtWord: string -> bool,
    shellEnds: string -> seq<nat>,
    evalEnds: string -> seq<nat>,
    watchEnds: string -> seq<nat>,
    xargsEnds: string -> seq<nat>)

  /** A match of any of the four shell forms consumes at least the command word. */
  ghost predicate EndsInside(ends: string -> seq<nat>) {
    forall s: string, k :: 0 <= k < |ends(s)| ==> 1 <= ends(s)[k] <= |s|
  }

  ghost predicate WellFormed(p: Patterns) {
    EndsInside(p.shellEnds) && EndsInside(p.evalEnds) && EndsInside(p.watchEnds) && EndsInside(p.xargsEnds)
  }

  datatype Form = Shell | Eval | Watch | Xargs

  function Extract(form: Form, s: string, i: nat): (r: Option<string>)
    requires i <= |s|
    ensures r.Some? ==> |r.value| <= |s| - i
  {
    match form
    case Shell => CArgument(s, i)
    case Eval => WordsFit(s, i, i, []); Joined(WordsFrom(s, i, []))
    case Watch => WatchWordsFit(s, i, i, []); Joined(WatchWordsFrom(s, i, []))
    case Xargs => XargsShell(s, i)
  }

  ghost predicate AllShorter(texts: seq<string>, s: string) {
    forall k :: 0 <= k < |texts| ==> 0 < |texts[k]| < |s|
  }

  lemma AllShorterConcat(a: seq<string>, b: seq<string>, s: string)
    requires AllShorter(a, s) && AllShorter(b, s)
    ensures AllShorter(a + b, s)
  {
  }

  function ExtractAll(form: Form, s: string, ends: seq<nat>): (r: seq<string>)
    requires forall k :: 0 <= k < |ends| ==> 1 <= ends[k] <= |s|
    ensures AllShorter(r, s)
    decreases |ends|
  {
    if ends == [] then []
    else
      var inner := Extract(form, s, ends[0]);
      (if inner.Some? && inner.value != "" then [inner.value] else []) + ExtractAll(form, s, ends[1..])
  }

  /** `_shell_texts`: matches are found in the masked text and used as positions in the
      command itself, which is sound because masking is aligned. */
  function ShellTexts(p: Patterns, s: string): (r: seq<string>)
    requires WellFormed(p)
    ensures AllShorter(r, s)
  {
    MaskIsAligned(s, false);
    var visible := Mask(s, false);
    var shell := ExtractAll(Shell, s, p.shellEnds(visible));
    var eval := ExtractAll(Eval, s, p.evalEnds(visible));
    var watch := ExtractAll(Watch, s, p.watchEnds(visible));
    var xargs := ExtractAll(Xargs, s, p.xargsEnds(visible));
    AllShorterConcat(shell, eval, s);
    AllShorterConcat(watch, xargs, s);
    AllShorterConcat(shell + eval, watch + xargs, s);
    (shell + eval) + (watch + xargs)
  }

  /** Every string the scanner descends into is strictly shorter than the command it came from. */
  lemma NestedTextsAreShorter(p: Patterns, s: string, inner: string)
    requires WellFormed(p) && inner in ShellTexts(p, s)
    ensures inner != "" && |inner| < |s| && inner != s
  {
    var k :| 0 <= k < |ShellTexts(p, s)| && ShellTexts(p, s)[k] == inner;
  }

  /** A quoted command word that is `gh` once unquoted. */
  function QuotedGhWord(p: Patterns, s: string, visible: string, i: nat): bool
    requires |visible| == |s| && i <= |s|
    decreases |s| - i
  {
    if i == |s| then false
    else if !IsQuote(s[i]) then QuotedGhWord(p, s, visible, i + 1)
    else
      var (body, end) := QuotedBody(s, i);
      (p.isGhWord(body) && p.endsAtWord(visible[..i])) || QuotedGhWord(p, s, visible, end)
  }

  /** `_quoted_gh_command_word` of a command and its masked text. */
  function HasQuotedGh(p: Patterns, s: string): bool {
    MaskIsAligned(s, false);
    QuotedGhWord(p, s, Mask(s, false), 0)
  }

  /** What the recursive search looks at in one command text. */
  datatype Search = Search(invokesGh: string -> bool, quotedGh: string -> bool, texts: string -> seq<string>)

  ghost predicate Shortens(texts: string -> seq<string>) {
    forall s: string, k :: 0 <= k < |texts(s)| ==> |texts(s)[k]| < |s|
  }

  /** The scanner's own search. */
  function ScannerSearch(p: Patterns): (r: Search)
    requires WellFormed(p)
    ensures Shortens(r.texts)
  {
    Search(
      (s: string) => p.invokesGh(Mask(s, false)),
      (s: string) => HasQuotedGh(p, s),
      (s: string) => ShellTexts(p, s))
  }

  const MAX_SHELL_DEPTH: nat := 32

  /** `_targets_gh` with its depth cap. */
  function Targets(f: Search, s: string, depth: nat): bool
    requires Shortens(f.texts)
    decreases |s|
  {
    if f.invokesGh(s) then true
    else if depth >= MAX_SHELL_DEPTH then true
    else if f.quotedGh(s) then true
    else exists k :: 0 <= k < |f.texts(s)| && f.texts(s)[k] != s && Targets(f, f.texts(s)[k], depth + 1)
  }

  /** The same search without a cap: it terminates because nested texts only get shorter. */
  function Invokes(f: Search, s: string): bool
    requires Shortens(f.texts)
    decreases |s|
  {
    f.invokesGh(s) || f.quotedGh(s) || exists k :: 0 <= k < |f.texts(s)| && Invokes(f, f.texts(s)[k])
  }

  /** There is a chain of `n` nested command texts below `s`. */
  function NestsTo(f: Search, s: string, n: nat): bool
    decreases n
  {
    n == 0 || exists k :: 0 <= k < |f.texts(s)| && NestsTo(f, f.texts(s)[k], n - 1)
  }

  lemma {:induction false} CapExplained(f: Search, s: string, depth: nat)
    requires Shortens(f.texts) && depth <= MAX_SHELL_DEPTH
    ensures Targets(f, s, depth) <==> Invokes(f, s) || NestsTo(f, s, MAX_SHELL_DEPTH - depth)
    decreases |s|
  {
    if depth < MAX_SHELL_DEPTH {
      forall k | 0 <= k < |f.texts(s)|
        ensures Targets(f, f.texts(s)[k], depth + 1)
                <==> Invokes(f, f.texts(s)[k]) || NestsTo(f, f.texts(s)[k], MAX_SHELL_DEPTH - depth - 1)
      {
        CapExplained(f, f.texts(s)[k], depth + 1);
      }
    }
  }

  lemma {:induction false} NestingNeedsLength(f: Search, s: string, n: nat)
    requires Shortens(f.texts) && NestsTo(f, s, n)
    ensures n <= |s|
    decreases n
  {
    if n > 0 {
      var k :| 0 <= k < |f.texts(s)| && NestsTo(f, f.texts(s)[k], n - 1);
      NestingNeedsLength(f, f.texts(s)[k], n - 1);
    }
  }

  /** The cap changes the answer only for a command that really nests 32 command texts deep,
      which one shorter than 32 characters cannot; there it only turns No into Yes. */
  lemma CapOnlyAdds(f: Search, s: string)
    requires Shortens(f.texts)
    ensures Targets(f, s, 0) <==> Invokes(f, s) || NestsTo(f, s, 32)
    ensures |s| < 32 ==> (Targets(f, s, 0) <==> Invokes(f, s))
  {
    CapExplained(f, s, 0);
    if NestsTo(f, s, MAX_SHELL_DEPTH) {
      NestingNeedsLength(f, s, MAX_SHELL_DEPTH);
    }
  }

  /** `targets_gh`: the scanner's search from the whole command. */
  function TargetsGh(p: Patterns, s: string): bool
    requires WellFormed(p)
  {
    Targets(ScannerSearch(p), s, 0)
  }

  /** So the scanner answers as it would without the cap, save for a command that really nests 32
      texts deep. */
  lemma ScannerCapOnlyAdds(p: Patterns, s: string, f: Search)
    requires WellFormed(p) && f == ScannerSearch(p)
    ensures TargetsGh(p, s) <==> Invokes(f, s) || NestsTo(f, s, 32)
    ensures |s| < 32 ==> (TargetsGh(p, s) <==> Invokes(f, s))
  {
    CapOnlyAdds(f, s);
  }
}
