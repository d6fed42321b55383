/** Free-text distance: one minus the Jaccard similarity of two token sets. */
module TextDistance {
  import opened Common

  /** White-space separated words of `s`, given the characters of the word being read. */
  function Words(s: string, word: string): seq<string>
    decreases |s|
  {
    if s == "" then (if word == "" then [] else [word])
    else if IsSpace(s[0]) then (if word == "" then [] else [word]) + Words(s[1..], "")
    else Words(s[1..], word + [s[0]])
  }

  /** The token set of a text; lower-casing is taken as given. */
  function Tokens(lower: string -> string, text: string): set<string> {
    var words := Words(lower(text), "");
    set k | 0 <= k < |words| :: words[k]
  }

  /** The distance of two token sets, with its empty-set cases. */
  function Jaccard<T(==)>(provided: set<T>, expected: set<T>): real {
    if expected == {} then (if provided == {} then 0.0 else 1.0)
    else 1.0 - (|provided * expected| as real / |provided + expected| as real)
  }

  /** `d_text`. */
  function DText(lower: string -> string, provided: string, expected: string): real {
    Jaccard(Tokens(lower, provided), Tokens(lower, expected))
  }

  // ---------------------------------------------------------------- tokens

  /** `w` is the text between two gaps: not empty, free of white space, with white space or an end
      of the text on both sides. */
  ghost predicate IsRun(s: string, w: string, i: nat, j: nat) {
    && i < j <= |s| && s[i..j] == w
    && (forall k :: i <= k < j ==> !IsSpace(s[k]))
    && (i > 0 ==> IsSpace(s[i - 1])) && (j < |s| ==> IsSpace(s[j]))
  }

  ghost predicate HasRun(s: string, w: string) {
    exists i: nat, j: nat :: IsRun(s, w, i, j)
  }

  ghost predicate NoSpace(word: string) {
    forall k :: 0 <= k < |word| ==> !IsSpace(word[k])
  }

  lemma RunOfWord(word: string, w: string)
    requires NoSpace(word)
    ensures HasRun(word, w) <==> w != "" && w == word
  {
    if i: nat, j: nat :| IsRun(word, w, i, j) {
      assert i == 0 && j == |word| && word[0..|word|] == word;
    }
    if w == word && w != "" {
      assert word[0..|word|] == word;
      assert IsRun(word, w, 0, |word|);
    }
  }

  /** Runs on the two sides of a gap. */
  lemma RunOfGap(word: string, c: char, rest: string, w: string)
    requires NoSpace(word) && IsSpace(c)
    ensures HasRun(word + [c] + rest, w) <==> HasRun(word, w) || HasRun(rest, w)
  {
    var s := word + [c] + rest;
    if i: nat, j: nat :| IsRun(s, w, i, j) {
      assert s[|word|] == c;
      if j <= |word| {
        RunInWord(word, c, rest, w, i, j);
      } else {
        RunInRest(word, c, rest, w, i, j);
      }
    }
    if i: nat, j: nat :| IsRun(word, w, i, j) {
      RunInWord(word, c, rest, w, i, j);
    }
    if i: nat, j: nat :| IsRun(rest, w, i, j) {
      RunOfRest(word, c, rest, w, i, j);
    }
  }

  lemma RunInWord(word: string, c: char, rest: string, w: string, i: nat, j: nat)
    requires IsSpace(c) && j <= |word|
    ensures IsRun(word + [c] + rest, w, i, j) <==> IsRun(word, w, i, j)
  {
    var s := word + [c] + rest;
    assert forall k :: 0 <= k < |word| ==> s[k] == word[k];
    if i < j {
      assert s[i..j] == word[i..j];
    }
    assert s[|word|] == c;
  }

  lemma RunOfRest(word: string, c: char, rest: string, w: string, i: nat, j: nat)
    requires IsSpace(c) && IsRun(rest, w, i, j)
    ensures HasRun(word + [c] + rest, w)
  {
    var s, n := word + [c] + rest, |word| + 1;
    assert forall k :: 0 <= k < |rest| ==> s[n + k] == rest[k];
    assert s[n + i..n + j] == rest[i..j];
    assert s[n - 1] == c;
    assert IsRun(s, w, n + i, n + j);
  }

  lemma RunInRest(word: string, c: char, rest: string, w: string, i: nat, j: nat)
    requires IsRun(word + [c] + rest, w, i, j) && i > |word|
    ensures HasRun(rest, w)
  {
    var s, n := word + [c] + rest, |word|;
    assert forall k :: 0 <= k < |rest| ==> s[n + 1 + k] == rest[k];
    assert s[i..j] == rest[i - n - 1..j - n - 1];
    assert IsRun(rest, w, i - n - 1, j - n - 1);
  }

  lemma {:induction false} WordsAreRuns(s: string, word: string, w: string)
    requires NoSpace(word)
    ensures w in Words(s, word) <==> HasRun(word + s, w)
    decreases |s|
  {
    if s == "" {
      RunOfWord(word, w);
      assert word + s == word;
    } else if IsSpace(s[0]) {
      WordsAreRuns(s[1..], "", w);
      RunOfWord(word, w);
      RunOfGap(word, s[0], s[1..], w);
      assert word + [s[0]] + s[1..] == word + s && "" + s[1..] == s[1..];
    } else {
      WordsAreRuns(s[1..], word + [s[0]], w);
      assert word + [s[0]] + s[1..] == word + s;
    }
  }

  /** The tokens are the runs of the lower-cased text between white space. */
  lemma TokensAreRuns(lower: string -> string, text: string, w: string)
    ensures w in Tokens(lower, text) <==> HasRun(lower(text), w)
  {
    WordsAreRuns(lower(text), "", w);
    assert "" + lower(text) == lower(text);
    var words := Words(lower(text), "");
    assert w in words <==> exists k :: 0 <= k < |words| && words[k] == w;
  }

  // ---------------------------------------------------------------- cardinalities

  ghost function Differing<T>(a: set<T>, b: set<T>): set<T> {
    (a - b) + (b - a)
  }

  lemma DifferingCard<T>(a: set<T>, b: set<T>)
    ensures |Differing(a, b)| == |a + b| - |a * b|
  {
    assert a + b == Differing(a, b) + a * b;
    assert Differing(a, b) * (a * b) == {};
  }

  /** Symmetric differences obey the triangle inequality, with room to spare for the elements
      only the middle set has. */
  lemma DifferingTriangle<T>(a: set<T>, b: set<T>, c: set<T>)
    ensures |Differing(a, c)| + 2 * |b - (a + c)| <= |Differing(a, b)| + |Differing(b, c)|
  {
    var only := b - (a + c);
    var ab, bc, ac := Differing(a, b), Differing(b, c), Differing(a, c);
    assert |ab + bc| + |ab * bc| == |ab| + |bc|;
    assert ac !! only;
    SubsetCard(ac + only, ab + bc);
    SubsetCard(only, ab * bc);
  }

  // ---------------------------------------------------------------- the metric

  lemma ComplementQuotient(u: real, n: real)
    requires u > 0.0
    ensures 1.0 - n / u == (u - n) / u
  {
    assert u / u == 1.0;
    assert (u - n) / u == u / u - n / u;
  }

  /** The distance as a quotient of cardinalities. */
  lemma JaccardQuotient<T>(a: set<T>, b: set<T>)
    ensures a + b == {} ==> Jaccard(a, b) == 0.0
    ensures a + b != {} ==> |a + b| > 0 && Jaccard(a, b) == |Differing(a, b)| as real / |a + b| as real
  {
    DifferingCard(a, b);
    if a + b == {} {
      assert a == {} && b == {};
    } else if b == {} {
      assert a + b == a && a * b == {};
    } else {
      ComplementQuotient(|a + b| as real, |a * b| as real);
    }
  }

  lemma QuotientMonotone(x: real, u: real, n: real)
    requires 0.0 <= x && 0.0 < u <= n
    ensures x / n <= x / u
  {
    assert x / u - x / n == x * (n - u) / (u * n);
    assert x * (n - u) >= 0.0;
    assert u * n > 0.0;
  }

  /** Adding the same amount above and below only brings a proper fraction closer to one. */
  lemma QuotientShift(x: real, u: real, b: real)
    requires 0.0 <= x <= u && 0.0 < u && 0.0 <= b
    ensures x / u <= (x + b) / (u + b)
  {
    assert (x + b) * u - x * (u + b) == b * (u - x);
    assert b * (u - x) >= 0.0;
    assert (x + b) / (u + b) - x / u == ((x + b) * u - x * (u + b)) / ((u + b) * u);
    assert (u + b) * u > 0.0;
  }

  /** On all token sets the distance is a metric: within [0, 1], zero exactly for equal sets,
      symmetric, and subject to the triangle inequality. */
  lemma JaccardIsMetric<T>(a: set<T>, b: set<T>, c: set<T>)
    ensures 0.0 <= Jaccard(a, b) <= 1.0
    ensures Jaccard(a, b) == 0.0 <==> a == b
    ensures Jaccard(a, b) == Jaccard(b, a)
    ensures Jaccard(a, c) <= Jaccard(a, b) + Jaccard(b, c)
  {
    JaccardRange(a, b);
    JaccardZero(a, b);
    assert a + b == b + a && a * b == b * a;
    JaccardQuotient(a, b);
    JaccardQuotient(b, a);
    assert Differing(a, b) == Differing(b, a);
    JaccardTriangle(a, b, c);
  }

  lemma NonNegativeQuotient(x: real, u: real)
    requires 0.0 <= x && u > 0.0
    ensures x / u >= 0.0
  {
  }

  lemma ProperFraction(x: real, u: real)
    requires 0.0 <= x <= u && u > 0.0
    ensures 0.0 <= x / u <= 1.0
  {
    ComplementQuotient(u, x);
    NonNegativeQuotient(x, u);
    NonNegativeQuotient(u - x, u);
  }

  lemma JaccardRange<T>(a: set<T>, b: set<T>)
    ensures 0.0 <= Jaccard(a, b) <= 1.0
  {
    JaccardQuotient(a, b);
    if a + b != {} {
      SubsetCard(Differing(a, b), a + b);
      ProperFraction(|Differing(a, b)| as real, |a + b| as real);
    }
  }

  lemma JaccardZero<T>(a: set<T>, b: set<T>)
    ensures Jaccard(a, b) == 0.0 <==> a == b
  {
    JaccardQuotient(a, b);
    if a + b != {} {
      var x, u := |Differing(a, b)| as real, |a + b| as real;
      assert x / u == 0.0 <==> x == 0.0;
      assert Differing(a, b) == {} <==> a == b by {
        if Differing(a, b) == {} {
          assert forall e :: e in a - b ==> e in Differing(a, b);
          assert forall e :: e in b - a ==> e in Differing(a, b);
        }
      }
    } else {
      assert a == {} && b == {};
    }
  }

  lemma JaccardTriangle<T>(a: set<T>, b: set<T>, c: set<T>)
    ensures Jaccard(a, c) <= Jaccard(a, b) + Jaccard(b, c)
  {
    JaccardRange(a, b);
    JaccardRange(b, c);
    JaccardQuotient(a, c);
    JaccardQuotient(a, b);
    JaccardQuotient(b, c);
    if a + c != {} {
      if a + b == {} || b + c == {} {
        assert a + b == {} ==> a == b;
        assert b + c == {} ==> b == c;
      } else {
        TriangleQuotients(a, b, c);
      }
    }
  }

  lemma SumQuotient(p: real, y: real, z: real, n: real)
    requires n > 0.0 && p <= y + z
    ensures p / n <= y / n + z / n
  {
    assert y / n + z / n == (y + z) / n;
    assert (y + z) / n - p / n == (y + z - p) / n;
  }

  lemma TriangleArithmetic(x: real, y: real, z: real, u: real, ab: real, bc: real, k: real)
    requires 0.0 <= x <= u && 0.0 < u && 0.0 <= k && 0.0 <= y && 0.0 <= z
    requires 0.0 < ab <= u + k && 0.0 < bc <= u + k
    requires x + k <= y + z
    ensures x / u <= y / ab + z / bc
  {
    QuotientMonotone(y, ab, u + k);
    QuotientMonotone(z, bc, u + k);
    QuotientShift(x, u, k);
    SumQuotient(x + k, y, z, u + k);
  }

  lemma TriangleQuotients<T>(a: set<T>, b: set<T>, c: set<T>)
    requires |a + c| > 0 && |a + b| > 0 && |b + c| > 0
    ensures |Differing(a, c)| as real / |a + c| as real
            <= |Differing(a, b)| as real / |a + b| as real + |Differing(b, c)| as real / |b + c| as real
  {
    var only, all := b - (a + c), a + b + c;
    assert all == (a + c) + only && (a + c) !! only;
    assert |all| == |a + c| + |only|;
    SubsetCard(a + b, all);
    SubsetCard(b + c, all);
    SubsetCard(Differing(a, c), a + c);
    DifferingTriangle(a, b, c);
    TriangleArithmetic(
      |Differing(a, c)| as real, |Differing(a, b)| as real, |Differing(b, c)| as real,
      |a + c| as real, |a + b| as real, |b + c| as real, |only| as real);
  }

  /** The distance of two texts is the share of their tokens that only one of them has; two texts
      without tokens agree. */
  lemma DTextCounts(lower: string -> string, s: string, t: string)
    ensures var a, b := Tokens(lower, s), Tokens(lower, t);
      && (a + b == {} ==> DText(lower, s, t) == 0.0)
      && (a + b != {} ==>
            |a + b| > 0 && DText(lower, s, t) == |(a - b) + (b - a)| as real / |a + b| as real)
  {
    JaccardQuotient(Tokens(lower, s), Tokens(lower, t));
  }

  /** `d_text` therefore compares texts as a metric on their token sets. */
  lemma DTextIsMetric(lower: string -> string, s: string, t: string, u: string)
    ensures 0.0 <= DText(lower, s, t) <= 1.0
    ensures DText(lower, s, t) == 0.0 <==> Tokens(lower, s) == Tokens(lower, t)
    ensures DText(lower, s, t) == DText(lower, t, s)
    ensures DText(lower, s, u) <= DText(lower, s, t) + DText(lower, t, u)
  {
    JaccardIsMetric(Tokens(lower, s), Tokens(lower, t), Tokens(lower, u));
  }
}
