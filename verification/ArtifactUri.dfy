/** `swarph://` artifact URIs: the parser, the printer, and the records printed as URIs. */
module ArtifactUri {
  import opened Common

  const SCHEME: string := "swarph://"
  const CLASSES: seq<string> := ["hook", "mcp", "skill", "tool", "lib"]

  datatype ArtifactRef = ArtifactRef(klass: string, publisher: string, name: string,
                                     version: Option<string>, sha256: Option<string>)

  datatype UriError = ControlCharacter(c: char) | NotSwarph | Segments | UnknownClass | EmptyPublisher
                    | EmptySha | EmptyVersion | EmptyName

  // ---------------------------------------------------------------- text

  predicate IsControl(c: char) {
    c as int < 0x20 || c as int in {0x7F, 0x85, 0x2028, 0x2029}
  }

  predicate Clean(s: string) {
    forall k :: 0 <= k < |s| ==> !IsControl(s[k])
  }

  /** The first control character. */
  function ControlIn(s: string): (r: Option<char>)
    ensures r.None? <==> Clean(s)
    ensures r.Some? ==> exists k :: 0 <= k < |s| && s[k] == r.value && IsControl(s[k]) && Clean(s[..k])
  {
    if s == "" then None
    else if IsControl(s[0]) then
      assert Clean(s[..0]);
      Some(s[0])
    else
      var r := ControlIn(s[1..]);
      assert r.Some? ==> exists k :: 0 <= k < |s| && s[k] == r.value && IsControl(s[k]) && Clean(s[..k]) by {
        if r.Some? {
          var k :| 0 <= k < |s| - 1 && s[1..][k] == r.value && IsControl(s[1..][k]) && Clean(s[1..][..k]);
          assert s[k + 1] == s[1..][k];
          assert forall j :: 0 < j < k + 1 ==> s[j] == s[1..][..k][j - 1];
          assert Clean(s[..k + 1]);
        }
      }
      r
  }

  function Split(s: string, c: char): (parts: seq<string>)
    ensures parts != []
  {
    if s == "" then [""]
    else
      var rest := Split(s[1..], c);
      if s[0] == c then [""] + rest else [[s[0]] + rest[0]] + rest[1..]
  }

  /** `rsplit(c, 1)`: around the last `c`. */
  function SplitLast(s: string, c: char): (r: Option<(string, string)>)
    ensures r.None? <==> c !in s
    ensures r.Some? ==> s == r.value.0 + [c] + r.value.1 && c !in r.value.1
  {
    if s == "" then None
    else
      var n := |s| - 1;
      assert s == s[..n] + [s[n]];
      if s[n] == c then Some((s[..n], ""))
      else
        var r := SplitLast(s[..n], c);
        if r.None? then None else Some((r.value.0, r.value.1 + [s[n]]))
  }

  // ---------------------------------------------------------------- parsing and printing

  /** The last segment: name, then `@version`, then `#sha256`, split from the right. */
  function ParseRest(rest: string): Result<(string, Option<string>, Option<string>), UriError> {
    var hash := SplitLast(rest, '#');
    if hash.Some? && hash.value.1 == "" then Err(EmptySha)
    else
      var left := if hash.Some? then hash.value.0 else rest;
      var at := SplitLast(left, '@');
      if at.Some? && at.value.1 == "" then Err(EmptyVersion)
      else
        var name := if at.Some? then at.value.0 else left;
        if name == "" then Err(EmptyName)
        else Ok((name, if at.Some? then Some(at.value.1) else None, if hash.Some? then Some(hash.value.1) else None))
  }

  function ParseUri(s: string): Result<ArtifactRef, UriError> {
    var control := ControlIn(s);
    if control.Some? then Err(ControlCharacter(control.value))
    else if !(SCHEME <= s) then Err(NotSwarph)
    else
      var parts := Split(s[|SCHEME|..], '/');
      if |parts| != 3 then Err(Segments)
      else if parts[0] !in CLASSES then Err(UnknownClass)
      else if parts[1] == "" then Err(EmptyPublisher)
      else
        var rest := ParseRest(parts[2]);
        if rest.Err? then Err(rest.error)
        else Ok(ArtifactRef(parts[0], parts[1], rest.value.0, rest.value.1, rest.value.2))
  }

  function Part(mark: char, text: Option<string>): string {
    if text.Some? then [mark] + text.value else ""
  }

  function FormatRest(name: string, version: Option<string>, sha256: Option<string>): string {
    name + Part('@', version) + Part('#', sha256)
  }

  function FormatUri(r: ArtifactRef): string {
    SCHEME + (r.klass + "/" + (r.publisher + "/" + FormatRest(r.name, r.version, r.sha256)))
  }

  // ---------------------------------------------------------------- splitting

  function Join(parts: seq<string>, c: char): string
    requires parts != []
  {
    if |parts| == 1 then parts[0] else parts[0] + [c] + Join(parts[1..], c)
  }

  lemma JoinFront(rest: seq<string>, x: char, c: char)
    requires rest != []
    ensures Join([[x] + rest[0]] + rest[1..], c) == [x] + Join(rest, c)
    ensures Join([""] + rest, c) == [c] + Join(rest, c)
  {
    assert ([""] + rest)[1..] == rest;
    assert ([[x] + rest[0]] + rest[1..])[1..] == rest[1..];
  }

  lemma {:induction false} JoinOfSplit(s: string, c: char)
    ensures Join(Split(s, c), c) == s
    decreases |s|
  {
    if s != "" {
      JoinOfSplit(s[1..], c);
      var rest := Split(s[1..], c);
      JoinFront(rest, s[0], c);
      assert s == [s[0]] + s[1..];
    }
  }

  lemma {:induction false} SplitWhole(s: string, c: char)
    ensures |Split(s, c)| == 1 <==> c !in s
    ensures c !in s ==> Split(s, c) == [s]
    decreases |s|
  {
    if s != "" {
      SplitWhole(s[1..], c);
      assert s == [s[0]] + s[1..];
    }
  }

  /** Splitting the text around a separator splits both sides. */
  lemma {:induction false} SplitAppend(a: string, c: char, b: string)
    ensures |Split(a + [c] + b, c)| == |Split(a, c)| + |Split(b, c)|
    ensures c !in a ==> Split(a + [c] + b, c) == [a] + Split(b, c)
    decreases |a|
  {
    var s := a + [c] + b;
    if a == "" {
      assert s[1..] == b;
    } else {
      assert s[1..] == a[1..] + [c] + b;
      SplitAppend(a[1..], c, b);
      if c !in a {
        assert c !in a[1..];
        assert [a[0]] + a[1..] == a;
      }
    }
  }

  /** The last separator is where nothing after it is one. */
  lemma {:induction false} SplitLastAt(a: string, c: char, b: string)
    requires c !in b
    ensures SplitLast(a + [c] + b, c) == Some((a, b))
    decreases |b|
  {
    var s := a + [c] + b;
    var n := |s| - 1;
    if b == "" {
      assert s[..n] == a;
    } else {
      var m := |b| - 1;
      assert s[..n] == a + [c] + b[..m];
      assert b == b[..m] + [b[m]];
      SplitLastAt(a, c, b[..m]);
    }
  }

  // ---------------------------------------------------------------- printing a parsed text

  lemma FormatOfParsedRest(rest: string)
    requires ParseRest(rest).Ok?
    ensures var r := ParseRest(rest).value; FormatRest(r.0, r.1, r.2) == rest
  {
  }

  lemma JoinThree(parts: seq<string>)
    requires |parts| == 3
    ensures Join(parts, '/') == parts[0] + "/" + (parts[1] + "/" + parts[2])
  {
    var t := parts[1..];
    assert t[1..] == [parts[2]];
    assert Join(t, '/') == parts[1] + ['/'] + parts[2];
    assert Join(parts, '/') == parts[0] + ['/'] + Join(t, '/');
    assert parts[0] + ['/'] + Join(t, '/') == parts[0] + "/" + (parts[1] + "/" + parts[2]);
  }

  /** Printing what was parsed gives the text back, for every accepted text. */
  lemma FormatOfParse(s: string)
    requires ParseUri(s).Ok?
    ensures FormatUri(ParseUri(s).value) == s
  {
    var body := s[|SCHEME|..];
    var parts := Split(body, '/');
    JoinOfSplit(body, '/');
    JoinThree(parts);
    FormatOfParsedRest(parts[2]);
    assert s == SCHEME + body;
  }

  // ---------------------------------------------------------------- parsing a printed reference

  predicate NonEmpty(text: Option<string>) {
    text.Some? ==> text.value != ""
  }

  predicate Without(text: Option<string>, c: char) {
    text.Some? ==> c !in text.value
  }

  predicate CleanPart(text: Option<string>) {
    text.Some? ==> Clean(text.value)
  }

  /** Each part is there to be found from the right: the digest holds no `#`, the version no
      `@`, and a part that is absent leaves no mark of its own in what comes before. */
  predicate MarksAreTheirOwn(name: string, version: Option<string>, sha256: Option<string>) {
    && name != "" && NonEmpty(version) && NonEmpty(sha256)
    && (if sha256.Some? then '#' !in sha256.value else '#' !in name && Without(version, '#'))
    && OwnMark(name, '@', version)
  }

  /** Exactly the references that survive printing and parsing. */
  predicate Separable(r: ArtifactRef) {
    && r.klass in CLASSES
    && r.publisher != "" && '/' !in r.publisher && Clean(r.publisher)
    && '/' !in r.name && Clean(r.name)
    && Without(r.version, '/') && CleanPart(r.version)
    && Without(r.sha256, '/') && CleanPart(r.sha256)
    && MarksAreTheirOwn(r.name, r.version, r.sha256)
  }

  /** An optional part is found again from the right exactly when its mark is its own. */
  predicate OwnMark(left: string, mark: char, part: Option<string>) {
    if part.Some? then mark !in part.value else mark !in left
  }

  function Found(split: Option<(string, string)>): Option<string> {
    if split.Some? then Some(split.value.1) else None
  }

  function Before(text: string, split: Option<(string, string)>): string {
    if split.Some? then split.value.0 else text
  }

  lemma PartIsFound(left: string, mark: char, part: Option<string>)
    ensures Found(SplitLast(left + Part(mark, part), mark)) == part <==> OwnMark(left, mark, part)
    ensures OwnMark(left, mark, part) ==> Before(left + Part(mark, part), SplitLast(left + Part(mark, part), mark)) == left
  {
    if part.Some? {
      assert left + Part(mark, part) == left + [mark] + part.value;
      if mark !in part.value {
        SplitLastAt(left, mark, part.value);
      } else {
        FoundHasNoMark(left + Part(mark, part), mark, part.value);
      }
    } else {
      assert left + Part(mark, part) == left;
    }
  }

  lemma FoundHasNoMark(s: string, mark: char, text: string)
    requires mark in text
    ensures Found(SplitLast(s, mark)) != Some(text)
  {
  }

  lemma RestRoundTripsExactlyWhen(name: string, version: Option<string>, sha256: Option<string>)
    ensures ParseRest(FormatRest(name, version, sha256)) == Ok((name, version, sha256))
            <==> MarksAreTheirOwn(name, version, sha256)
  {
    var left := name + Part('@', version);
    PartIsFound(left, '#', sha256);
    PartIsFound(name, '@', version);
    MarkInLeft(name, '@', version, '#');
    ParseRestParts(left + Part('#', sha256));
  }

  lemma MarkInLeft(name: string, mark: char, part: Option<string>, c: char)
    requires c != mark
    ensures c in name + Part(mark, part) <==> c in name || !Without(part, c)
  {
  }

  lemma ParseRestParts(rest: string)
    ensures var hash := SplitLast(rest, '#');
            var left := Before(rest, hash);
            var at := SplitLast(left, '@');
            ParseRest(rest).Ok? ==> ParseRest(rest).value == (Before(left, at), Found(at), Found(hash))
    ensures var hash := SplitLast(rest, '#');
            var left := Before(rest, hash);
            var at := SplitLast(left, '@');
            ParseRest(rest).Ok? <==> NonEmpty(Found(hash)) && NonEmpty(Found(at)) && Before(left, at) != ""
  {
  }

  lemma CleanAppend(a: string, b: string)
    ensures Clean(a + b) <==> Clean(a) && Clean(b)
  {
    if Clean(a + b) {
      assert forall k :: 0 <= k < |a| ==> a[k] == (a + b)[k];
      assert forall k :: 0 <= k < |b| ==> b[k] == (a + b)[|a| + k];
    }
  }

  lemma CleanRest(name: string, version: Option<string>, sha256: Option<string>)
    ensures Clean(FormatRest(name, version, sha256)) <==> Clean(name) && CleanPart(version) && CleanPart(sha256)
    ensures '/' in FormatRest(name, version, sha256) <==> '/' in name || !Without(version, '/') || !Without(sha256, '/')
  {
    CleanAppend(name + Part('@', version), Part('#', sha256));
    CleanAppend(name, Part('@', version));
    if version.Some? {
      CleanAppend(['@'], version.value);
    }
    if sha256.Some? {
      CleanAppend(['#'], sha256.value);
    }
  }

  lemma CleanUri(r: ArtifactRef)
    ensures Clean(FormatUri(r)) <==>
            Clean(r.klass) && Clean(r.publisher) && Clean(FormatRest(r.name, r.version, r.sha256))
  {
    var rest := FormatRest(r.name, r.version, r.sha256);
    CleanAppend(SCHEME, r.klass + "/" + (r.publisher + "/" + rest));
    CleanAppend(r.klass + "/", r.publisher + "/" + rest);
    CleanAppend(r.klass, "/");
    CleanAppend(r.publisher + "/", rest);
    CleanAppend(r.publisher, "/");
  }

  /** The body splits into the three segments exactly when none of them holds a slash. */
  lemma SplitThree(a: string, b: string, c: string)
    ensures var parts := Split(a + "/" + (b + "/" + c), '/');
            && (|parts| == 3 <==> '/' !in a && '/' !in b && '/' !in c)
            && (|parts| == 3 ==> parts == [a, b, c])
  {
    SplitAppend(a, '/', b + "/" + c);
    SplitAppend(b, '/', c);
    SplitWhole(a, '/');
    SplitWhole(b, '/');
    SplitWhole(c, '/');
  }

  lemma ClassesAreSegments(klass: string)
    requires klass in CLASSES
    ensures Clean(klass) && '/' !in klass
  {
  }

  lemma ParseOfFormatted(r: ArtifactRef)
    ensures ParseUri(FormatUri(r)) == Ok(r) <==>
            && Clean(FormatUri(r)) && r.klass in CLASSES && r.publisher != ""
            && '/' !in r.klass && '/' !in r.publisher && '/' !in FormatRest(r.name, r.version, r.sha256)
            && ParseRest(FormatRest(r.name, r.version, r.sha256)) == Ok((r.name, r.version, r.sha256))
  {
    var rest := FormatRest(r.name, r.version, r.sha256);
    var body := r.klass + "/" + (r.publisher + "/" + rest);
    assert FormatUri(r)[|SCHEME|..] == body;
    SplitThree(r.klass, r.publisher, rest);
  }

  /** Parsing what was printed gives the reference back exactly when its fields keep clear of
      the separators. */
  lemma ParseOfFormatExactlyWhen(r: ArtifactRef)
    ensures ParseUri(FormatUri(r)) == Ok(r) <==> Separable(r)
  {
    ParseOfFormatted(r);
    CleanUri(r);
    CleanRest(r.name, r.version, r.sha256);
    RestRoundTripsExactlyWhen(r.name, r.version, r.sha256);
    if r.klass in CLASSES {
      ClassesAreSegments(r.klass);
    }
  }

  /** The accepted texts are exactly the printed forms of separable references. */
  lemma AcceptedExactlyWhenPrinted(s: string)
    ensures ParseUri(s).Ok? <==> exists r :: Separable(r) && FormatUri(r) == s
  {
    if ParseUri(s).Ok? {
      FormatOfParse(s);
      ParseOfFormatExactlyWhen(ParseUri(s).value);
    }
    forall r | Separable(r) && FormatUri(r) == s ensures ParseUri(s) == Ok(r) {
      ParseOfFormatExactlyWhen(r);
    }
  }

  // ---------------------------------------------------------------- registry records

  /** A feature record's text fields; absent and empty fields are told apart only where the
      code does. */
  datatype Record = Record(name: Option<string>, publisher: Option<string>, cell: Option<string>,
                           artifactClass: Option<string>, kind: Option<string>, version: Option<string>,
                           sha256: Option<string>, sha: Option<string>)

  datatype FeatureError = NoName | NoPublisher | NoClass

  predicate Filled(text: Option<string>) {
    text.Some? && text.value != ""
  }

  function FirstFilled(a: Option<string>, b: Option<string>): Option<string> {
    if Filled(a) then a else b
  }

  function ClassOfKind(kind: Option<string>): Option<string> {
    if kind.None? then None
    else if kind.value in ["hook", "mcp", "skill", "tool"] then kind
    else if kind.value == "mcp_server" then Some("mcp")
    else if kind.value == "adapter" then Some("tool")
    else None
  }

  /** The reference a record means. */
  function FeatureRef(record: Record, defaultPublisher: Option<string>): Result<ArtifactRef, FeatureError> {
    var publisher := FirstFilled(FirstFilled(record.publisher, record.cell), defaultPublisher);
    var klass := if record.artifactClass.Some? && record.artifactClass.value in CLASSES then record.artifactClass
                 else ClassOfKind(record.kind);
    if !Filled(record.name) then Err(NoName)
    else if !Filled(publisher) then Err(NoPublisher)
    else if klass.None? then Err(NoClass)
    else Ok(ArtifactRef(klass.value, publisher.value, record.name.value, record.version,
                        FirstFilled(record.sha256, record.sha)))
  }

  function FeatureToUri(record: Record, defaultPublisher: Option<string>): Result<string, FeatureError> {
    var ref := FeatureRef(record, defaultPublisher);
    if ref.Err? then Err(ref.error) else Ok(FormatUri(ref.value))
  }

  /** The texts of a record that may hold a separator. */
  predicate TextsAreSeparable(r: ArtifactRef) {
    && '/' !in r.publisher && Clean(r.publisher)
    && '/' !in r.name && Clean(r.name)
    && Without(r.version, '/') && CleanPart(r.version) && NonEmpty(r.version)
    && Without(r.sha256, '/') && CleanPart(r.sha256) && NonEmpty(r.sha256)
    && (if r.sha256.Some? then '#' !in r.sha256.value else '#' !in r.name && Without(r.version, '#'))
    && (if r.version.Some? then '@' !in r.version.value else '@' !in r.name)
  }

  /** A record's URI parses back to the reference it means exactly when its texts keep clear of
      the separators; class, name and publisher are always usable by then. */
  lemma FeatureRoundTripsExactlyWhen(record: Record, defaultPublisher: Option<string>)
    requires FeatureRef(record, defaultPublisher).Ok?
    ensures var ref := FeatureRef(record, defaultPublisher).value;
            var uri := FeatureToUri(record, defaultPublisher);
            && uri.Ok? && (ParseUri(uri.value) == Ok(ref) <==> TextsAreSeparable(ref))
  {
    var ref := FeatureRef(record, defaultPublisher).value;
    ParseOfFormatExactlyWhen(ref);
    KindsAreClasses(record.kind);
  }

  lemma KindsAreClasses(kind: Option<string>)
    ensures ClassOfKind(kind).Some? ==> ClassOfKind(kind).value in CLASSES
  {
    if kind.Some? {
      assert "hook" == CLASSES[0] && "mcp" == CLASSES[1] && "skill" == CLASSES[2] && "tool" == CLASSES[3];
    }
  }

  /** The printed form of a record is not always parsed back: a name with an `@` and no version
      turns into a name and a version. */
  lemma FeatureDoesNotAlwaysRoundTrip(record: Record)
    requires record == Record(Some("a@b"), Some("p"), None, Some("tool"), None, None, None, None)
    ensures FeatureRef(record, None) == Ok(ArtifactRef("tool", "p", "a@b", None, None))
    ensures FeatureToUri(record, None).Ok?
    ensures ParseUri(FeatureToUri(record, None).value) != Ok(FeatureRef(record, None).value)
  {
    assert "tool" == CLASSES[3];
    FeatureRoundTripsExactlyWhen(record, None);
    assert "a@b"[1] == '@';
  }
}
