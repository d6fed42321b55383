/** Artifact URIs in letters: the accepted classes, the refusals, and what a feature record means. */
module ArtifactUriExact {
  import opened Common
  import opened ArtifactUri

  /** The control characters: below space, delete, and three line separators. */
  lemma ControlIs(c: char)
    ensures IsControl(c) <==> c as int <= 31 || c as int == 127 || c as int == 133 || c as int == 8232 || c as int == 8233
  {
  }

  predicate IsClass(klass: string) {
    klass == "hook" || klass == "mcp" || klass == "skill" || klass == "tool" || klass == "lib"
  }

  lemma ClassesAre(klass: string)
    ensures klass in CLASSES <==> IsClass(klass)
  {
    assert CLASSES[0] == "hook" && CLASSES[1] == "mcp" && CLASSES[2] == "skill" && CLASSES[3] == "tool" && CLASSES[4] == "lib";
  }

  /** A reference without version and digest is accepted exactly when its class is one of the five
      and its publisher and name are non-empty and clear of separators. */
  lemma PlainReferenceParsesExactlyWhen(klass: string, publisher: string, name: string)
    ensures ParseUri("swarph://" + klass + "/" + publisher + "/" + name) == Ok(ArtifactRef(klass, publisher, name, None, None))
      <==> IsClass(klass) && publisher != "" && name != "" && Clean(publisher) && Clean(name)
           && '/' !in publisher && '/' !in name && '@' !in name && '#' !in name
  {
    var r := ArtifactRef(klass, publisher, name, None, None);
    assert FormatRest(name, None, None) == name;
    assert FormatUri(r) == "swarph://" + (klass + "/" + (publisher + "/" + name));
    assert FormatUri(r) == "swarph://" + klass + "/" + publisher + "/" + name;
    ClassesAre(klass);
    ParseOfFormatExactlyWhen(r);
    if IsClass(klass) {
      ClassesAreSegments(klass);
    }
  }

  /** Slashes of a text. */
  function Slashes(s: string): nat {
    if s == "" then 0 else (if s[0] == '/' then 1 else 0) + Slashes(s[1..])
  }

  lemma {:induction false} PartsAreSlashes(s: string)
    ensures |Split(s, '/')| == Slashes(s) + 1
    decreases |s|
  {
    if s != "" {
      PartsAreSlashes(s[1..]);
    }
  }

  /** The first refusals: a control character anywhere, then another scheme, then a body that has
      not exactly two slashes. */
  lemma RefusalsAre(s: string, c: char)
    ensures ParseUri(s) == Err(ControlCharacter(c)) <==>
      exists k :: 0 <= k < |s| && s[k] == c && IsControl(c) && Clean(s[..k])
    ensures ParseUri(s) == Err(NotSwarph) <==> Clean(s) && !(|s| >= 9 && s[..9] == "swarph://")
    ensures ParseUri(s) == Err(Segments) <==> Clean(s) && |s| >= 9 && s[..9] == "swarph://" && Slashes(s[9..]) != 2
  {
    if |s| >= 9 {
      PartsAreSlashes(s[9..]);
    }
    assert SCHEME == "swarph://" && |SCHEME| == 9;
    assert SCHEME <= s <==> |s| >= 9 && s[..9] == SCHEME;
    FirstControl(s, c);
  }

  lemma NoneBefore(s: string, i: nat, k: nat)
    requires i < |s| && k <= |s| && IsControl(s[i]) && Clean(s[..k])
    ensures k <= i
  {
    var head := s[..k];
    assert forall j :: 0 <= j < k ==> head[j] == s[j];
  }

  lemma FirstControl(s: string, c: char)
    ensures ControlIn(s) == Some(c) <==> exists k :: 0 <= k < |s| && s[k] == c && IsControl(c) && Clean(s[..k])
  {
    if ControlIn(s).Some? {
      var i :| 0 <= i < |s| && s[i] == ControlIn(s).value && IsControl(s[i]) && Clean(s[..i]);
      if k :| 0 <= k < |s| && s[k] == c && IsControl(c) && Clean(s[..k]) {
        NoneBefore(s, i, k);
        NoneBefore(s, k, i);
      }
    }
  }

  // ---------------------------------------------------------------- feature records

  predicate IsBlankOrAbsent(text: Option<string>) {
    text.None? || text.value == ""
  }

  /** The first text that is there and not empty. */
  ghost predicate FirstOf(texts: seq<Option<string>>, text: string) {
    exists k :: 0 <= k < |texts| && texts[k] == Some(text) && text != ""
      && forall j :: 0 <= j < k ==> IsBlankOrAbsent(texts[j])
  }

  /** The class a record names, or its kind stands for. */
  ghost predicate MeansClass(record: Record, klass: string) {
    if record.artifactClass.Some? && IsClass(record.artifactClass.value) then klass == record.artifactClass.value
    else if record.kind.None? then false
    else
      || (record.kind.value == klass && klass in {"hook", "mcp", "skill", "tool"})
      || (record.kind.value == "mcp_server" && klass == "mcp")
      || (record.kind.value == "adapter" && klass == "tool")
  }

  lemma ClassIsMeant(record: Record, klass: string)
    ensures var chosen := if record.artifactClass.Some? && record.artifactClass.value in CLASSES then record.artifactClass
                          else ClassOfKind(record.kind);
      chosen == Some(klass) <==> MeansClass(record, klass)
  {
    if record.artifactClass.Some? {
      ClassesAre(record.artifactClass.value);
    }
  }

  lemma FirstOfThree(a: Option<string>, b: Option<string>, c: Option<string>, text: string)
    ensures FirstOf([a, b, c], text) <==> Filled(FirstFilled(FirstFilled(a, b), c)) && FirstFilled(FirstFilled(a, b), c) == Some(text)
  {
    var texts := [a, b, c];
    assert texts[0] == a && texts[1] == b && texts[2] == c;
  }

  /** A record means a reference exactly when it has a name, a publisher is found among its own, its
      cell and the default, in that order, and a class is named or meant; the reference takes its
      version as it is and its digest from the first field that is not empty. */
  lemma RecordMeansExactlyWhen(record: Record, defaultPublisher: Option<string>, r: ArtifactRef)
    ensures FeatureRef(record, defaultPublisher) == Ok(r) <==>
      && r.name != "" && record.name == Some(r.name)
      && FirstOf([record.publisher, record.cell, defaultPublisher], r.publisher)
      && MeansClass(record, r.klass) && r.version == record.version
      && r.sha256 == if IsBlankOrAbsent(record.sha256) then record.sha else record.sha256
  {
    FirstOfThree(record.publisher, record.cell, defaultPublisher, r.publisher);
    ClassIsMeant(record, r.klass);
  }
}
