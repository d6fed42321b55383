/** What the token walkers of the `gh` scanner find, told from the words of the command. */
module GhScanWords {
  import opened Common
  import opened GhMask
  import opened GhScan

  /** The words from `i` to the next separator or the end. */
  function WordsAt(s: string, i: nat): seq<string>
    requires i <= |s|
    decreases |s| - i
  {
    match NextToken(s, i)
    case Some(Word(_, end, text)) => [text] + WordsAt(s, end)
    case _ => []
  }

  /** An option, with the word after it when it takes one. */
  datatype Item = Flag(word: string) | WithArg(word: string, arg: string)

  function Spell(items: seq<Item>): seq<string>
    decreases |items|
  {
    if items == [] then []
    else
      (match items[0]
       case Flag(w) => [w]
       case WithArg(w, a) => [w, a]) + Spell(items[1..])
  }

  ghost predicate StartsDash(w: string) {
    |w| >= 1 && w[0] == '-'
  }

  lemma SpellFirst(item: Item, items: seq<Item>, rest: seq<string>)
    ensures Spell([item] + items) + rest == Spell([item]) + (Spell(items) + rest)
    ensures Spell([item]) == match item
      case Flag(w) => [w]
      case WithArg(w, a) => [w, a]
  {
    assert ([item] + items)[1..] == items;
    assert [item][1..] == [];
    assert Spell([item]) == (match item case Flag(w) => [w] case WithArg(w, a) => [w, a]) + Spell([]);
  }

  lemma SpellStep(items: seq<Item>, rest: seq<string>)
    requires items != []
    ensures Spell(items) + rest == Spell([items[0]]) + (Spell(items[1..]) + rest)
  {
    assert items == [items[0]] + items[1..];
    SpellFirst(items[0], items[1..], rest);
  }

  // ---------------------------------------------------------------- the command of a shell

  /** `-c`, or a group of short options with a `c` in it. */
  ghost predicate AsksCommand(w: string) {
    |w| >= 2 && w[0] == '-' && w[1] != '-' && exists k :: 1 <= k < |w| && w[k] == 'c'
  }

  ghost predicate ShellItem(item: Item) {
    match item
    case Flag(w) => StartsDash(w) && !AsksCommand(w) && w !in {"-o", "--rcfile", "--init-file"}
    case WithArg(w, _) => w in {"-o", "--rcfile", "--init-file"}
  }

  /** Options that take no command, an option that does, and the command. */
  ghost predicate CommandAt(words: seq<string>, items: seq<Item>, c: string, text: string, rest: seq<string>) {
    (forall k :: 0 <= k < |items| ==> ShellItem(items[k])) && AsksCommand(c) && words == Spell(items) + ([c, text] + rest)
  }

  ghost predicate Commands(words: seq<string>, text: string) {
    exists items, c, rest :: CommandAt(words, items, c, text, rest)
  }

  lemma AsksIs(w: string)
    ensures AsksCommand(w) <==> IsOption(w) && (w == "-c" || (!IsLongOption(w) && 'c' in w[1..]))
  {
    if |w| >= 1 && 'c' in w[1..] {
      var k :| 0 <= k < |w[1..]| && w[1..][k] == 'c';
      assert w[k + 1] == 'c';
    }
    if AsksCommand(w) {
      var k :| 1 <= k < |w| && w[k] == 'c';
      assert w[1..][k - 1] == 'c';
    }
  }

  lemma NotAsked(w: string)
    requires w in {"-o", "--rcfile", "--init-file"}
    ensures IsOption(w) && !AsksCommand(w) && w != "--" && TakesNext(w, BASH_TAKES_ARG)
  {
  }

  lemma TakesWhole(w: string)
    ensures TakesNext(w, BASH_TAKES_ARG) <==> w in {"-o", "--rcfile", "--init-file"}
  {
  }

  lemma FlagFound(words: seq<string>, w: string, items: seq<Item>, c: string, text: string, rest: seq<string>)
    requires ShellItem(Flag(w)) && CommandAt(words, items, c, text, rest)
    ensures CommandAt([w] + words, [Flag(w)] + items, c, text, rest)
  {
    SpellFirst(Flag(w), items, [c, text] + rest);
  }

  lemma ArgFound(words: seq<string>, w: string, a: string, items: seq<Item>, c: string, text: string, rest: seq<string>)
    requires ShellItem(WithArg(w, a)) && CommandAt(words, items, c, text, rest)
    ensures CommandAt([w, a] + words, [WithArg(w, a)] + items, c, text, rest)
  {
    SpellFirst(WithArg(w, a), items, [c, text] + rest);
  }

  lemma {:induction false} CommandIsThere(s: string, i: nat) returns (items: seq<Item>, c: string, rest: seq<string>)
    requires i <= |s| && CArgument(s, i).Some?
    ensures CommandAt(WordsAt(s, i), items, c, CArgument(s, i).value, rest)
    decreases |s| - i
  {
    var tok := NextToken(s, i).value;
    var w, end := tok.text, tok.end;
    AsksIs(w);
    TakesWhole(w);
    if AsksCommand(w) {
      var arg := NextToken(s, end).value;
      items, c, rest := [], w, WordsAt(s, arg.end);
      TwoWords(s, i);
      assert Spell([]) + ([c, arg.text] + rest) == [c, arg.text] + rest;
    } else if TakesNext(w, BASH_TAKES_ARG) && w != "--" && NextToken(s, end).Some? && NextToken(s, end).value.Word? {
      var arg := NextToken(s, end).value;
      items, c, rest := CommandIsThere(s, arg.end);
      ArgFound(WordsAt(s, arg.end), w, arg.text, items, c, CArgument(s, i).value, rest);
      TwoWords(s, i);
      items := [WithArg(w, arg.text)] + items;
    } else {
      items, c, rest := CommandIsThere(s, end);
      FlagFound(WordsAt(s, end), w, items, c, CArgument(s, i).value, rest);
      items := [Flag(w)] + items;
    }
  }

  lemma {:induction false} CommandIsFound(s: string, i: nat, items: seq<Item>, c: string, text: string, rest: seq<string>)
    requires i <= |s| && CommandAt(WordsAt(s, i), items, c, text, rest)
    ensures CArgument(s, i) == Some(text)
    decreases |items|
  {
    var tail := [c, text] + rest;
    if items == [] {
      assert Spell([]) + tail == tail;
      FirstTwo(s, i, c, text);
      AsksIs(c);
    } else {
      SpellStep(items, tail);
      SpellFirst(items[0], [], []);
      var w := items[0].word;
      AsksIs(w);
      TakesWhole(w);
      if items[0].WithArg? {
        NotAsked(w);
        FirstTwo(s, i, w, items[0].arg);
        var end := NextToken(s, NextToken(s, i).value.end).value.end;
        assert WordsAt(s, end) == Spell(items[1..]) + tail;
        CommandIsFound(s, end, items[1..], c, text, rest);
      } else {
        FirstOne(s, i, w);
        var end := NextToken(s, i).value.end;
        assert WordsAt(s, end) == Spell(items[1..]) + tail;
        CommandIsFound(s, end, items[1..], c, text, rest);
      }
    }
  }

  lemma TwoWords(s: string, i: nat)
    requires i <= |s| && NextToken(s, i).Some? && NextToken(s, i).value.Word?
    requires var end := NextToken(s, i).value.end; NextToken(s, end).Some? && NextToken(s, end).value.Word?
    ensures var next := NextToken(s, NextToken(s, i).value.end).value;
      WordsAt(s, i) == [NextToken(s, i).value.text, next.text] + WordsAt(s, next.end)
  {
  }

  lemma FirstOne(s: string, i: nat, w: string)
    requires i <= |s| && WordsAt(s, i) != [] && WordsAt(s, i)[0] == w
    ensures NextToken(s, i).Some? && NextToken(s, i).value.Word? && NextToken(s, i).value.text == w
    ensures WordsAt(s, i)[1..] == WordsAt(s, NextToken(s, i).value.end)
  {
  }

  lemma FirstTwo(s: string, i: nat, w: string, a: string)
    requires i <= |s| && |WordsAt(s, i)| >= 2 && WordsAt(s, i)[0] == w && WordsAt(s, i)[1] == a
    ensures NextToken(s, i).Some? && NextToken(s, i).value.Word? && NextToken(s, i).value.text == w
    ensures var end := NextToken(s, i).value.end;
      && NextToken(s, end).Some? && NextToken(s, end).value.Word? && NextToken(s, end).value.text == a
      && WordsAt(s, i)[2..] == WordsAt(s, NextToken(s, end).value.end)
  {
    FirstOne(s, i, w);
    FirstOne(s, NextToken(s, i).value.end, a);
  }

  /** `shell -c` has a command exactly when its words are options that take none, then an option
      that does, then that command. */
  lemma ShellCommandExactlyWhen(s: string, i: nat, text: string)
    requires i <= |s|
    ensures CArgument(s, i) == Some(text) <==> Commands(WordsAt(s, i), text)
  {
    if CArgument(s, i) == Some(text) {
      var items, c, rest := CommandIsThere(s, i);
    }
    if items, c, rest :| CommandAt(WordsAt(s, i), items, c, text, rest) {
      CommandIsFound(s, i, items, c, text, rest);
    }
  }

  // ---------------------------------------------------------------- the shell of xargs

  ghost predicate XargsItem(item: Item) {
    item.WithArg? <==> item.word in {
      "-I", "-i", "-n", "-P", "-a", "-d", "-E", "-L", "-s", "-J", "--replace", "--max-args", "--max-procs", "--arg-file",
      "--delimiter", "--eof", "--max-lines", "--max-chars"}
  }

  /** The last part of a path is a shell's name. */
  ghost predicate NamesShell(w: string) {
    exists k :: 0 <= k <= |w| && (k == 0 || w[k - 1] == '/') && w[k..] in {"bash", "sh", "zsh", "dash"}
  }

  lemma {:induction false} ShellNameIs(w: string)
    ensures IsShellWord(w) <==> NamesShell(w)
  {
    var at := LastPart(w);
    if NamesShell(w) {
      var k :| 0 <= k <= |w| && (k == 0 || w[k - 1] == '/') && w[k..] in {"bash", "sh", "zsh", "dash"};
      ShellHasNoSlash(w[k..]);
      PartIsLast(w, k);
    }
  }

  lemma ShellHasNoSlash(w: string)
    requires w in {"bash", "sh", "zsh", "dash"}
    ensures '/' !in w
  {
  }

  lemma {:induction false} LastPart(w: string) returns (k: nat)
    ensures k <= |w| && (k == 0 || w[k - 1] == '/') && w[k..] == AfterLastSlash(w)
    decreases |w|
  {
    if '/' !in w {
      k := 0;
    } else if w[0] == '/' && '/' !in w[1..] {
      k := 1;
    } else {
      k := LastPart(w[1..]);
      assert w[1..][k..] == w[k + 1..];
      NoSlashAfterLast(w[1..]);
      k := k + 1;
    }
  }

  lemma {:induction false} NoSlashAfterLast(w: string)
    ensures '/' !in AfterLastSlash(w)
    decreases |w|
  {
    if '/' in w && !(w[0] == '/' && '/' !in w[1..]) {
      NoSlashAfterLast(w[1..]);
    }
  }

  lemma {:induction false} PartIsLast(w: string, k: nat)
    requires k <= |w| && (k == 0 || w[k - 1] == '/') && '/' !in w[k..]
    ensures AfterLastSlash(w) == w[k..]
    decreases |w|
  {
    if k > 0 {
      assert '/' in w;
      if k == 1 {
        assert w[1..] == w[k..];
      } else {
        assert w[1..][k - 2] == '/';
        assert w[1..][k - 1..] == w[k..];
        PartIsLast(w[1..], k - 1);
      }
    } else {
      assert w[0..] == w;
    }
  }

  ghost predicate ShellAt(words: seq<string>, items: seq<Item>, sh: string, rest: seq<string>) {
    && (forall k :: 0 <= k < |items| ==> XargsItem(items[k]) && StartsDash(items[k].word))
    && !StartsDash(sh) && NamesShell(sh) && words == Spell(items) + ([sh] + rest)
  }

  ghost predicate RunsShell(words: seq<string>, text: string) {
    exists items, sh, rest :: ShellAt(words, items, sh, rest) && Commands(rest, text)
  }

  lemma XargsTakes(w: string)
    ensures TakesNext(w, XARGS_TAKES_ARG) <==> XargsItem(WithArg(w, ""))
  {
  }

  lemma {:induction false} ShellIsThere(s: string, i: nat) returns (items: seq<Item>, sh: string, rest: seq<string>)
    requires i <= |s| && XargsShell(s, i).Some?
    ensures ShellAt(WordsAt(s, i), items, sh, rest) && Commands(rest, XargsShell(s, i).value)
    decreases |s| - i
  {
    var tok := NextToken(s, i).value;
    var w, end := tok.text, tok.end;
    XargsTakes(w);
    ShellNameIs(w);
    if !IsOption(w) {
      items, sh, rest := [], w, WordsAt(s, end);
      ShellCommandExactlyWhen(s, end, XargsShell(s, i).value);
      assert Spell([]) + ([sh] + rest) == [sh] + rest;
    } else if TakesNext(w, XARGS_TAKES_ARG) && NextToken(s, end).Some? && NextToken(s, end).value.Word? {
      var arg := NextToken(s, end).value;
      TwoWords(s, i);
      items, sh, rest := ShellIsThere(s, arg.end);
      SpellFirst(WithArg(w, arg.text), items, [sh] + rest);
      items := [WithArg(w, arg.text)] + items;
    } else {
      items, sh, rest := ShellIsThere(s, end);
      NoWordNoShell(s, end);
      SpellFirst(Flag(w), items, [sh] + rest);
      items := [Flag(w)] + items;
    }
  }

  lemma NoWordNoShell(s: string, i: nat)
    requires i <= |s| && XargsShell(s, i).Some?
    ensures NextToken(s, i).Some? && NextToken(s, i).value.Word?
  {
  }

  ghost predicate FirstIs(s: string, i: nat, option: bool, takes: bool) {
    && i <= |s| && NextToken(s, i).Some? && NextToken(s, i).value.Word?
    && (IsOption(NextToken(s, i).value.text) <==> option)
    && (TakesNext(NextToken(s, i).value.text, XARGS_TAKES_ARG) <==> takes)
  }

  lemma FlagIsSkipped(s: string, i: nat)
    requires FirstIs(s, i, true, false)
    ensures XargsShell(s, i) == XargsShell(s, NextToken(s, i).value.end)
  {
  }

  lemma ArgIsSkipped(s: string, i: nat)
    requires FirstIs(s, i, true, true)
    requires var end := NextToken(s, i).value.end; NextToken(s, end).Some? && NextToken(s, end).value.Word?
    ensures XargsShell(s, i) == XargsShell(s, NextToken(s, NextToken(s, i).value.end).value.end)
  {
  }

  lemma {:induction false} ShellIsFound(s: string, i: nat, items: seq<Item>, sh: string, rest: seq<string>, text: string)
    requires i <= |s| && ShellAt(WordsAt(s, i), items, sh, rest) && Commands(rest, text)
    ensures XargsShell(s, i) == Some(text)
    decreases |items|
  {
    if items == [] {
      ShellIsFirst(s, i, sh, rest, text);
    } else {
      var end := ItemIsSkipped(s, i, items, sh, rest);
      ShellIsFound(s, end, items[1..], sh, rest, text);
    }
  }

  lemma ShellIsFirst(s: string, i: nat, sh: string, rest: seq<string>, text: string)
    requires i <= |s| && ShellAt(WordsAt(s, i), [], sh, rest) && Commands(rest, text)
    ensures XargsShell(s, i) == Some(text)
  {
    assert Spell([]) + ([sh] + rest) == [sh] + rest;
    FirstOne(s, i, sh);
    ShellNameIs(sh);
    ShellCommandExactlyWhen(s, NextToken(s, i).value.end, text);
  }

  lemma ItemIsSkipped(s: string, i: nat, items: seq<Item>, sh: string, rest: seq<string>) returns (end: nat)
    requires i <= |s| && items != [] && ShellAt(WordsAt(s, i), items, sh, rest)
    ensures end <= |s| && ShellAt(WordsAt(s, end), items[1..], sh, rest) && XargsShell(s, i) == XargsShell(s, end)
  {
    SpellStep(items, [sh] + rest);
    SpellFirst(items[0], [], []);
    XargsTakes(items[0].word);
    if items[0].WithArg? {
      FirstTwo(s, i, items[0].word, items[0].arg);
      end := NextToken(s, NextToken(s, i).value.end).value.end;
      assert WordsAt(s, end) == Spell(items[1..]) + ([sh] + rest);
      ArgIsSkipped(s, i);
    } else {
      FirstOne(s, i, items[0].word);
      end := NextToken(s, i).value.end;
      assert WordsAt(s, end) == Spell(items[1..]) + ([sh] + rest);
      FlagIsSkipped(s, i);
    }
  }

  /** `xargs` runs a shell's command exactly when its words are options with their arguments, then
      a shell's name, then words that give that shell a command. */
  lemma XargsShellExactlyWhen(s: string, i: nat, text: string)
    requires i <= |s|
    ensures XargsShell(s, i) == Some(text) <==> RunsShell(WordsAt(s, i), text)
  {
    if XargsShell(s, i) == Some(text) {
      var items, sh, rest := ShellIsThere(s, i);
    }
    if items, sh, rest :| ShellAt(WordsAt(s, i), items, sh, rest) && Commands(rest, text) {
      ShellIsFound(s, i, items, sh, rest, text);
    }
  }

  // ---------------------------------------------------------------- joined words

  lemma {:induction false} WordsFromNonEmpty(s: string, i: nat, parts: seq<string>)
    requires i <= |s| && parts != []
    ensures WordsFrom(s, i, parts) == parts + WordsAt(s, i) == WatchWordsFrom(s, i, parts)
    decreases |s| - i
  {
    if NextToken(s, i).Some? && NextToken(s, i).value.Word? {
      var word, end := NextToken(s, i).value.text, NextToken(s, i).value.end;
      WordsFromNonEmpty(s, end, parts + [word]);
      AddWord(parts, word, WordsAt(s, end));
    }
  }

  lemma AddWord(parts: seq<string>, word: string, rest: seq<string>)
    ensures parts + [word] + rest == parts + ([word] + rest)
  {
  }

  /** `eval` runs its words, leading `--` left out. */
  lemma {:induction false} EvalWordsAre(s: string, i: nat) returns (n: nat)
    requires i <= |s|
    ensures LeadsWith(WordsAt(s, i), n) && WordsFrom(s, i, []) == WordsAt(s, i)[n..]
    decreases |s| - i
  {
    n := 0;
    if NextToken(s, i).Some? && NextToken(s, i).value.Word? {
      var word, end := NextToken(s, i).value.text, NextToken(s, i).value.end;
      if word == "--" {
        n := EvalWordsAre(s, end);
        DashLeads(WordsAt(s, end), n);
        n := n + 1;
      } else {
        WordsFromNonEmpty(s, end, [word]);
        assert [] + [word] == [word];
      }
    }
  }

  lemma DashLeads(words: seq<string>, n: nat)
    requires LeadsWith(words, n)
    ensures LeadsWith(["--"] + words, n + 1) && (["--"] + words)[n + 1..] == words[n..]
  {
  }

  /** The words begin with exactly `n` times `--`. */
  ghost predicate LeadsWith(words: seq<string>, n: nat) {
    n <= |words| && (forall k :: 0 <= k < n ==> words[k] == "--") && (n < |words| ==> words[n] != "--")
  }

  ghost predicate WatchItem(item: Item) {
    StartsDash(item.word) && (item.WithArg? <==> item.word in {"-n", "--interval", "-e", "--errexit"})
  }

  /** Options of `watch`, an option at the very end that lacks its argument, and the words run. */
  ghost predicate Watched(words: seq<string>, items: seq<Item>, last: seq<string>, run: seq<string>) {
    && (forall k :: 0 <= k < |items| ==> WatchItem(items[k])) && words == Spell(items) + (last + run)
    && (run != [] ==> !StartsDash(run[0]) && last == [])
    && (last != [] ==> |last| == 1 && last[0] in {"-n", "--interval", "-e", "--errexit"})
  }

  lemma WatchTakes(w: string)
    ensures TakesNext(w, WATCH_TAKES_ARG) <==> w in {"-n", "--interval", "-e", "--errexit"}
    ensures w in {"-n", "--interval", "-e", "--errexit"} ==> IsOption(w) && !(|w| > 2 && w[..2] == "-n" && !IsLongOption(w))
  {
  }

  /** `watch` runs the words after its options. */
  lemma {:induction false} WatchWordsAre(s: string, i: nat) returns (items: seq<Item>, last: seq<string>)
    requires i <= |s|
    ensures Watched(WordsAt(s, i), items, last, WatchWordsFrom(s, i, []))
    decreases |s| - i
  {
    var run := WatchWordsFrom(s, i, []);
    items, last := [], [];
    if NextToken(s, i).Some? && NextToken(s, i).value.Word? {
      var w, end := NextToken(s, i).value.text, NextToken(s, i).value.end;
      var taking := NextToken(s, end).Some? && NextToken(s, end).value.Word?;
      WatchStep(s, i);
      if !StartsDash(w) {
        assert WordsAt(s, i) == Spell([]) + ([] + run);
      } else if w !in {"-n", "--interval", "-e", "--errexit"} {
        items, last := WatchWordsAre(s, end);
        ItemRead(WordsAt(s, end), Flag(w), items, last, run);
        items := [Flag(w)] + items;
      } else if taking {
        var arg := NextToken(s, end).value;
        TwoWords(s, i);
        items, last := WatchWordsAre(s, arg.end);
        ItemRead(WordsAt(s, arg.end), WithArg(w, arg.text), items, last, run);
        items := [WithArg(w, arg.text)] + items;
      } else {
        last := [w];
        assert Spell([]) + ([w] + []) == [w];
      }
    } else {
      assert Spell([]) + ([] + []) == [];
    }
  }

  lemma WatchStep(s: string, i: nat)
    requires i <= |s| && NextToken(s, i).Some? && NextToken(s, i).value.Word?
    ensures var w, end, run := NextToken(s, i).value.text, NextToken(s, i).value.end, WatchWordsFrom(s, i, []);
      if !StartsDash(w) then run == WordsAt(s, i)
      else if w !in {"-n", "--interval", "-e", "--errexit"} then run == WatchWordsFrom(s, end, [])
      else if NextToken(s, end).Some? && NextToken(s, end).value.Word?
      then run == WatchWordsFrom(s, NextToken(s, end).value.end, [])
      else run == [] && WordsAt(s, i) == [w]
  {
    var w, end := NextToken(s, i).value.text, NextToken(s, i).value.end;
    WatchTakes(w);
    assert [] + [w] == [w];
    WordsFromNonEmpty(s, end, [w]);
  }

  lemma ItemRead(words: seq<string>, item: Item, items: seq<Item>, last: seq<string>, run: seq<string>)
    requires WatchItem(item) && Watched(words, items, last, run)
    ensures Watched(Spell([item]) + words, [item] + items, last, run)
    ensures Spell([item]) == match item
      case Flag(w) => [w]
      case WithArg(w, a) => [w, a]
  {
    SpellFirst(item, items, last + run);
  }

  /** There is one way to tell its options from the words it runs. */
  lemma {:induction false} WatchedIsUnique(words: seq<string>, a: seq<Item>, la: seq<string>, ra: seq<string>,
                                           b: seq<Item>, lb: seq<string>, rb: seq<string>)
    requires Watched(words, a, la, ra) && Watched(words, b, lb, rb)
    ensures ra == rb
    decreases |a|
  {
    if a != [] && b != [] {
      SpellStep(a, la + ra);
      SpellStep(b, lb + rb);
      SpellFirst(a[0], [], []);
      SpellFirst(b[0], [], []);
      assert words[0] == a[0].word == b[0].word;
      var n := |Spell([a[0]])|;
      assert words[n..] == Spell(a[1..]) + (la + ra);
      assert words[n..] == Spell(b[1..]) + (lb + rb);
      WatchedIsUnique(words[n..], a[1..], la, ra, b[1..], lb, rb);
    } else if a != [] {
      OptionWord(words, a, la + ra);
      NotRun(words, a[0], lb, rb);
    } else if b != [] {
      OptionWord(words, b, lb + rb);
      NotRun(words, b[0], la, ra);
    } else {
      EndsAgree(words, la, ra, lb, rb);
    }
  }

  lemma OptionWord(words: seq<string>, items: seq<Item>, tail: seq<string>)
    requires items != [] && words == Spell(items) + tail
    ensures |words| >= (if items[0].WithArg? then 2 else 1) && words[0] == items[0].word
  {
    SpellStep(items, tail);
    SpellFirst(items[0], [], []);
  }

  /** Words that begin with an option are not run. */
  lemma NotRun(words: seq<string>, item: Item, last: seq<string>, run: seq<string>)
    requires WatchItem(item) && |words| >= (if item.WithArg? then 2 else 1) && words[0] == item.word
    ensures !Watched(words, [], last, run)
  {
    assert Spell([]) + (last + run) == last + run;
    assert last != [] && run == [] ==> last + run == last;
  }

  lemma EndsAgree(words: seq<string>, la: seq<string>, ra: seq<string>, lb: seq<string>, rb: seq<string>)
    requires Watched(words, [], la, ra) && Watched(words, [], lb, rb)
    ensures ra == rb
  {
    assert words == la + ra == lb + rb;
    if la != [] {
      WatchTakes(la[0]);
    }
    if lb != [] {
      WatchTakes(lb[0]);
    }
    assert la == [] ==> words == ra;
    assert lb == [] ==> words == rb;
  }
}
