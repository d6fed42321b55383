/** Where the depth cap of the `gh` scanner changes its answer: `eval` of `eval`, thirty-two deep. */
module GhScanDepth {
  import opened Common
  import opened GhMask
  import opened GhScan

  /** `n` times `eval ` and then a harmless command. */
  function Evals(n: nat): string {
    if n == 0 then "x" else "eval " + Evals(n - 1)
  }

  /** What the scanner's expressions find in these commands: no `gh`, and one `eval` at the start
      of each but the last. */
  ghost predicate FindsEval(p: Patterns) {
    && WellFormed(p)
    && forall n: nat :: !p.invokesGh(Evals(n)) && p.evalEnds(Evals(n)) == (if n == 0 then [] else [4])
         && p.shellEnds(Evals(n)) == [] && p.watchEnds(Evals(n)) == [] && p.xargsEnds(Evals(n)) == []
  }

  // ---------------------------------------------------------------- such a command is plain text

  ghost predicate IsUnquoted(s: string) {
    forall k :: 0 <= k < |s| ==> !IsQuote(s[k]) && s[k] != '\\'
  }

  lemma {:induction false} EvalsAreUnquoted(n: nat)
    ensures IsUnquoted(Evals(n)) && |Evals(n)| == 5 * n + 1
    decreases n
  {
    if n > 0 {
      EvalsAreUnquoted(n - 1);
    }
  }

  lemma {:induction false} UnquotedIsVisible(s: string, i: nat)
    requires IsUnquoted(s) && i <= |s|
    ensures MaskFrom(s, i, false) == s[i..]
    decreases |s| - i
  {
    if i < |s| {
      UnquotedIsVisible(s, i + 1);
    }
  }

  lemma {:induction false} NoQuotedWord(p: Patterns, s: string, visible: string, i: nat)
    requires IsUnquoted(s) && |visible| == |s| && i <= |s|
    ensures !QuotedGhWord(p, s, visible, i)
    decreases |s| - i
  {
    if i < |s| {
      NoQuotedWord(p, s, visible, i + 1);
    }
  }

  // ---------------------------------------------------------------- its words

  function Words(m: nat): seq<string> {
    if m == 0 then ["x"] else ["eval"] + Words(m - 1)
  }

  lemma {:induction false} JoinFirst(word: string, parts: seq<string>)
    requires parts != []
    ensures JoinWords([word] + parts) == word + " " + JoinWords(parts)
    decreases |parts|
  {
    var n := |parts| - 1;
    var last := parts[n];
    assert ([word] + parts)[..|parts|] == [word] + parts[..n];
    if n > 0 {
      JoinFirst(word, parts[..n]);
      var rest := JoinWords(parts[..n]);
      assert word + " " + rest + " " + last == word + " " + (rest + " " + last);
    } else {
      assert [word] + parts[..n] == [word] && parts == [last];
    }
  }

  lemma {:induction false} WordsJoin(m: nat)
    ensures JoinWords(Words(m)) == Evals(m) && Words(m) != []
    decreases m
  {
    if m > 0 {
      WordsJoin(m - 1);
      JoinFirst("eval", Words(m - 1));
      assert "eval" + " " + Evals(m - 1) == "eval " + Evals(m - 1);
    }
  }

  lemma WordEval(s: string, j: nat)
    requires j + 4 < |s| && s[j..j + 5] == "eval "
    ensures WordBody(s, j) == ("eval", j + 4)
  {
    var w := s[j..j + 5];
    assert w[0] == s[j] && w[1] == s[j + 1] && w[2] == s[j + 2] && w[3] == s[j + 3] && w[4] == s[j + 4];
    assert WordBody(s, j + 4) == ("", j + 4);
    WordStep(s, j + 3, "l", "");
    WordStep(s, j + 2, "al", "l");
    WordStep(s, j + 1, "val", "al");
    WordStep(s, j, "eval", "val");
  }

  lemma WordStep(s: string, j: nat, word: string, rest: string)
    requires j < |s| && IsPlain(s[j]) && s[j] != '\\' && WordBody(s, j + 1).0 == rest && word == [s[j]] + rest
    ensures WordBody(s, j) == (word, WordBody(s, j + 1).1)
  {
  }

  /** The tokens after a blank and then `Evals(m)`. */
  lemma {:induction false} WordsOfEvals(s: string, i: nat, m: nat, parts: seq<string>)
    requires i <= |s| && s[i..] == " " + Evals(m)
    ensures WordsFrom(s, i, parts) == parts + Words(m)
    decreases m
  {
    if m == 0 {
      assert " " + Evals(0) == " x";
      LastWord(s, i, parts);
    } else {
      EvalToken(s, i, m);
      WordsStep(s, i, i + 5, "eval", parts);
      WordsOfEvals(s, i + 5, m - 1, parts + ["eval"]);
      AddFirst(parts, "eval", Words(m - 1));
    }
  }

  lemma AddFirst(parts: seq<string>, word: string, rest: seq<string>)
    ensures parts + [word] + rest == parts + ([word] + rest)
  {
  }

  lemma LastWord(s: string, i: nat, parts: seq<string>)
    requires i <= |s| && s[i..] == " x"
    ensures WordsFrom(s, i, parts) == parts + ["x"]
  {
    LastToken(s, i);
    WordsStep(s, i, i + 2, "x", parts);
    assert NextToken(s, i + 2).None?;
  }

  lemma WordsStep(s: string, i: nat, end: nat, word: string, parts: seq<string>)
    requires i < end <= |s| && NextToken(s, i) == Some(Word(i + 1, end, word)) && word != "--"
    ensures WordsFrom(s, i, parts) == WordsFrom(s, end, parts + [word])
  {
  }

  lemma LastToken(s: string, i: nat)
    requires i <= |s| && s[i..] == " x"
    ensures |s| == i + 2 && NextToken(s, i) == Some(Word(i + 1, i + 2, "x"))
  {
    var t := s[i..];
    assert s[i] == t[0] && s[i + 1] == t[1];
    WordStep(s, i + 1, "x", "");
    assert SkipBlanks(s, i + 1) == i + 1;
  }

  lemma EvalToken(s: string, i: nat, m: nat)
    requires i <= |s| && m > 0 && s[i..] == " " + Evals(m)
    ensures NextToken(s, i) == Some(Word(i + 1, i + 5, "eval"))
    ensures i + 5 <= |s| && s[i + 5..] == " " + Evals(m - 1)
  {
    var t, rest := s[i..], Evals(m - 1);
    assert t == " eval " + rest;
    assert s[i + 1..i + 6] == t[1..6] == "eval ";
    assert s[i] == t[0] && s[i + 1] == t[1];
    WordEval(s, i + 1);
    assert SkipBlanks(s, i + 1) == i + 1;
    assert s[i + 5..] == t[5..] == " " + rest;
  }

  // ---------------------------------------------------------------- the cap

  lemma EvalText(s: string, m: nat)
    requires s == Evals(m + 1)
    ensures |s| >= 4 && Extract(Eval, s, 4) == Some(Evals(m))
  {
    assert s == "eval " + Evals(m);
    assert s[4..] == " " + Evals(m);
    WordsOfEvals(s, 4, m, []);
    WordsJoin(m);
    assert [] + Words(m) == Words(m);
  }

  lemma NestedEval(p: Patterns, n: nat)
    requires FindsEval(p)
    ensures ShellTexts(p, Evals(n)) == if n == 0 then [] else [Evals(n - 1)]
  {
    var s := Evals(n);
    MaskIsAligned(s, false);
    EvalsAreUnquoted(n);
    UnquotedIsVisible(s, 0);
    assert Mask(s, false) == s[0..] == s;
    if n > 0 {
      EvalText(s, n - 1);
      EvalsAreUnquoted(n - 1);
      OneText(s, [4], Evals(n - 1));
    }
  }

  lemma OneText(s: string, ends: seq<nat>, inner: string)
    requires |ends| == 1 && 1 <= ends[0] <= |s| && Extract(Eval, s, ends[0]) == Some(inner) && inner != ""
    ensures ExtractAll(Eval, s, ends) == [inner]
  {
    assert ends[1..] == [];
    assert ExtractAll(Eval, s, ends[1..]) == [];
  }

  lemma EvalSearch(p: Patterns, f: Search, n: nat)
    requires FindsEval(p) && f == ScannerSearch(p)
    ensures !f.invokesGh(Evals(n)) && !f.quotedGh(Evals(n))
    ensures f.texts(Evals(n)) == if n == 0 then [] else [Evals(n - 1)]
  {
    var s := Evals(n);
    EvalsAreUnquoted(n);
    UnquotedIsVisible(s, 0);
    assert Mask(s, false) == s[0..] == s;
    NoQuotedWord(p, s, s, 0);
    NestedEval(p, n);
  }

  /** Harmless command texts, each the only one nested in the next. */
  ghost predicate IsChain(f: Search, texts: nat -> string) {
    forall n: nat :: IsLink(f, texts, n)
  }

  ghost predicate IsLink(f: Search, texts: nat -> string, n: nat) {
    && !f.invokesGh(texts(n)) && !f.quotedGh(texts(n))
    && f.texts(texts(n)) == if n == 0 then [] else [texts(n - 1)]
  }

  lemma {:induction false} ChainInvokesNothing(f: Search, texts: nat -> string, n: nat)
    requires Shortens(f.texts) && IsChain(f, texts)
    ensures !Invokes(f, texts(n))
    decreases n
  {
    assert IsLink(f, texts, n);
    if n > 0 {
      ChainInvokesNothing(f, texts, n - 1);
    }
  }

  lemma {:induction false} ChainNests(f: Search, texts: nat -> string, n: nat, k: nat)
    requires IsChain(f, texts)
    ensures NestsTo(f, texts(n), k) <==> k <= n
    decreases n
  {
    assert IsLink(f, texts, n);
    if n > 0 && k > 0 {
      ChainNests(f, texts, n - 1, k - 1);
      assert f.texts(texts(n))[0] == texts(n - 1);
    }
  }

  function AllEvals(): nat -> string {
    (n: nat) => Evals(n)
  }

  lemma EvalsAreAChain(p: Patterns, f: Search)
    requires FindsEval(p) && f == ScannerSearch(p)
    ensures IsChain(f, AllEvals())
  {
    forall n: nat ensures IsLink(f, AllEvals(), n) {
      EvalSearch(p, f, n);
      EvalLink(f, n);
    }
  }

  lemma EvalLink(f: Search, n: nat)
    requires !f.invokesGh(Evals(n)) && !f.quotedGh(Evals(n))
    requires f.texts(Evals(n)) == if n == 0 then [] else [Evals(n - 1)]
    ensures IsLink(f, AllEvals(), n)
  {
  }

  lemma ChainOfEvals(f: Search, n: nat)
    requires Shortens(f.texts) && IsChain(f, AllEvals())
    ensures !Invokes(f, Evals(n)) && (NestsTo(f, Evals(n), 32) <==> 32 <= n)
  {
    assert AllEvals()(n) == Evals(n);
    ChainInvokesNothing(f, AllEvals(), n);
    ChainNests(f, AllEvals(), n, 32);
  }

  /** None of these commands runs `gh`; the scanner says so of the first thirty-two and says yes
      to every deeper one. */
  lemma EvalsAreTakenForGhExactlyWhen(p: Patterns, n: nat)
    requires FindsEval(p)
    ensures !Invokes(ScannerSearch(p), Evals(n))
    ensures TargetsGh(p, Evals(n)) <==> n >= 32
  {
    EvalsAreAChain(p, ScannerSearch(p));
    ChainOfEvals(ScannerSearch(p), n);
    ScannerCapOnlyAdds(p, Evals(n), ScannerSearch(p));
  }

  /** Expressions that find `eval` followed by a blank, and `gh`, at the start of a text. */
  const EVAL_ONLY: Patterns := Patterns(
    (s: string) => |s| >= 2 && s[..2] == "gh", (s: string) => s == "gh", (s: string) => s == "",
    (s: string) => [], (s: string) => if |s| >= 5 && s[..5] == "eval " then [4] else [],
    (s: string) => [], (s: string) => [])

  /** So they take thirty-two harmless `eval`s for `gh`. */
  lemma ThirtyTwoEvalsAreTakenForGh()
    ensures WellFormed(EVAL_ONLY) && TargetsGh(EVAL_ONLY, Evals(32)) && !Invokes(ScannerSearch(EVAL_ONLY), Evals(32))
  {
    forall n: nat ensures !EVAL_ONLY.invokesGh(Evals(n)) && EVAL_ONLY.evalEnds(Evals(n)) == if n == 0 then [] else [4] {
      if n > 0 {
        assert Evals(n)[..5] == "eval " && Evals(n)[0] == 'e';
      }
    }
    EvalsAreTakenForGhExactlyWhen(EVAL_ONLY, 32);
  }
}
