/** A session's recorded usage: summing its transcript, and the token total of one usage row. */
module BoardUsage {
  import opened Common

  datatype Field = InputTokens | OutputTokens | CacheRead | Thinking

  /** Cache creation as a response reports it; a value that is no integer is absent. */
  datatype Cache = SplitCache(hour: Option<int>, five: Option<int>) | FlatCache(total: Option<int>) | NoCache

  datatype Usage = Usage(input: Option<int>, output: Option<int>, cacheRead: Option<int>, thinking: Option<int>,
                         cache: Cache)

  /** A transcript record. `model` is empty when it names none. */
  datatype Record = Record(time: Option<real>, id: Option<string>, request: Option<string>, usage: Option<Usage>,
                           model: string)

  /** A line is absent when it is no record. */
  type Line = Option<Record>

  type Key = (string, Option<string>)

  /** A usage row; absent is what the board calls unknown. */
  datatype Report = Report(input: Option<nat>, output: Option<nat>, cacheRead: Option<nat>, thinking: Option<nat>,
                           hour: Option<nat>, five: Option<nat>, unsplit: Option<nat>, model: Option<string>)

  // ---------------------------------------------------------------- one record

  /** A count that can be used: an integer that is not negative. */
  function AsInt(v: Option<int>): Option<nat> {
    if v.Some? && v.value >= 0 then Some(v.value) else None
  }

  function RawField(u: Usage, f: Field): Option<int> {
    match f
    case InputTokens => u.input
    case OutputTokens => u.output
    case CacheRead => u.cacheRead
    case Thinking => u.thinking
  }

  /** (1h, 5m, unsplit). A present split is not also a flat total. */
  function CacheParts(u: Usage): (Option<nat>, Option<nat>, Option<nat>) {
    match u.cache
    case SplitCache(hour, five) => (AsInt(hour), AsInt(five), None)
    case FlatCache(total) => (None, None, AsInt(total))
    case NoCache => (None, None, None)
  }

  /** One response is one message id and request id. */
  function ResponseKey(r: Record): Option<Key> {
    if r.id.None? || r.id.value == "" then None
    else Some((r.id.value, if r.request.Some? && r.request.value != "" then r.request else None))
  }

  /** A record inside the window that carries usage. */
  predicate InWindow(line: Line, start: Option<real>, end: Option<real>) {
    && line.Some? && line.value.usage.Some? && line.value.time.Some? && start.Some? && end.Some?
    && start.value <= line.value.time.value <= end.value
  }

  // ---------------------------------------------------------------- the distinct responses

  /** The records counted: those in the window, each key once. */
  function Responses(lines: seq<Line>, start: Option<real>, end: Option<real>): (r: seq<Record>)
    ensures forall k :: 0 <= k < |r| ==> r[k].usage.Some?
  {
    if lines == [] then []
    else
      var n := |lines| - 1;
      var before := Responses(lines[..n], start, end);
      if !InWindow(lines[n], start, end) then before
      else if ResponseKey(lines[n].value).Some? && HasKey(before, ResponseKey(lines[n].value)) then before
      else before + [lines[n].value]
  }

  predicate HasKey(rs: seq<Record>, key: Option<Key>) {
    exists k :: 0 <= k < |rs| && ResponseKey(rs[k]) == key
  }

  function Count(r: Record, f: Field): Option<nat> {
    if r.usage.Some? then AsInt(RawField(r.usage.value, f)) else None
  }

  predicate AllCarry(rs: seq<Record>, f: Field) {
    forall k :: 0 <= k < |rs| ==> Count(rs[k], f).Some?
  }

  /** Sum of a field over the responses that carry it. */
  function Sum(rs: seq<Record>, f: Field): nat {
    if rs == [] then 0
    else
      var n := |rs| - 1;
      Sum(rs[..n], f) + if Count(rs[n], f).Some? then Count(rs[n], f).value else 0
  }

  function Parts(r: Record): (Option<nat>, Option<nat>, Option<nat>) {
    if r.usage.Some? then CacheParts(r.usage.value) else (None, None, None)
  }

  predicate IsSplit(r: Record) {
    Parts(r).0.Some? || Parts(r).1.Some?
  }

  predicate IsWhole(r: Record) {
    Parts(r).0.Some? && Parts(r).1.Some?
  }

  predicate IsFlat(r: Record) {
    Parts(r).2.Some?
  }

  function SumHour(rs: seq<Record>): nat {
    if rs == [] then 0
    else SumHour(rs[..|rs| - 1]) + if IsWhole(rs[|rs| - 1]) then Parts(rs[|rs| - 1]).0.value else 0
  }

  function SumFive(rs: seq<Record>): nat {
    if rs == [] then 0
    else SumFive(rs[..|rs| - 1]) + if IsWhole(rs[|rs| - 1]) then Parts(rs[|rs| - 1]).1.value else 0
  }

  function SumFlat(rs: seq<Record>): nat {
    if rs == [] then 0
    else SumFlat(rs[..|rs| - 1]) + if IsFlat(rs[|rs| - 1]) then Parts(rs[|rs| - 1]).2.value else 0
  }

  predicate SomeSplit(rs: seq<Record>) {
    exists k :: 0 <= k < |rs| && IsSplit(rs[k])
  }

  predicate SomeFlat(rs: seq<Record>) {
    exists k :: 0 <= k < |rs| && IsFlat(rs[k])
  }

  /** Some response has one half of a split only. */
  predicate SomePart(rs: seq<Record>) {
    exists k :: 0 <= k < |rs| && IsSplit(rs[k]) && !IsWhole(rs[k])
  }

  /** Some response has no cache data. */
  predicate SomeBare(rs: seq<Record>) {
    exists k :: 0 <= k < |rs| && !IsSplit(rs[k]) && !IsFlat(rs[k])
  }

  predicate AllFlat(rs: seq<Record>) {
    forall k :: 0 <= k < |rs| ==> IsFlat(rs[k])
  }

  /** Split cache is known when some response is split, each split one in full, and none is flat;
      a response without cache data counts as none. */
  predicate SplitKnown(rs: seq<Record>) {
    SomeSplit(rs) && !SomeFlat(rs) && forall k :: 0 <= k < |rs| && IsSplit(rs[k]) ==> IsWhole(rs[k])
  }

  /** Flat cache is known when every response is flat, and there is one. */
  predicate FlatKnown(rs: seq<Record>) {
    rs != [] && AllFlat(rs)
  }

  function KnownSum(rs: seq<Record>, f: Field): Option<nat> {
    if rs != [] && AllCarry(rs, f) then Some(Sum(rs, f)) else None
  }

  function Named(rs: seq<Record>): seq<string> {
    if rs == [] then []
    else
      var n := |rs| - 1;
      if rs[n].model != "" then Named(rs[..n]) + [rs[n].model] else Named(rs[..n])
  }

  predicate OneName(names: seq<string>) {
    names != [] && forall k :: 0 <= k < |names| ==> names[k] == names[0]
  }

  /** What the board should show for a set of responses. */
  function Expected(rs: seq<Record>): Report {
    Report(KnownSum(rs, InputTokens), KnownSum(rs, OutputTokens), KnownSum(rs, CacheRead), KnownSum(rs, Thinking),
           if SplitKnown(rs) then Some(SumHour(rs)) else None,
           if SplitKnown(rs) then Some(SumFive(rs)) else None,
           if FlatKnown(rs) then Some(SumFlat(rs)) else None,
           if OneName(Named(rs)) then Some(Named(rs)[0]) else None)
  }

  // ---------------------------------------------------------------- the loop

  const COUNT_FIELDS: seq<Field> := [InputTokens, OutputTokens, CacheRead, Thinking]

  /** Running totals by field, with the fields seen and the fields missing somewhere. */
  datatype Totals = Totals(total: map<Field, nat>, seen: set<Field>, missing: set<Field>)

  ghost predicate FieldCounts(t: Totals, rs: seq<Record>, f: Field) {
    && f in t.total && t.total[f] == Sum(rs, f)
    && (f in t.missing <==> !AllCarry(rs, f)) && (f !in t.missing && rs != [] ==> f in t.seen)
  }

  ghost predicate TotalsCount(t: Totals, rs: seq<Record>) {
    forall f :: FieldCounts(t, rs, f)
  }

  /** Where the loop meets a field. */
  function FieldIndex(f: Field): (i: nat)
    ensures i < |COUNT_FIELDS| && COUNT_FIELDS[i] == f
  {
    match f
    case InputTokens => 0
    case OutputTokens => 1
    case CacheRead => 2
    case Thinking => 3
  }

  method AddFields(t0: Totals, u: Usage, ghost rs: seq<Record>, ghost r: Record) returns (t: Totals)
    requires TotalsCount(t0, rs) && r.usage == Some(u)
    ensures TotalsCount(t, rs + [r])
  {
    t := t0;
    for i := 0 to |COUNT_FIELDS|
      invariant CountedUpTo(t, rs, r, i)
    {
      var value := AsInt(RawField(u, COUNT_FIELDS[i]));
      ghost var before := t;
      assert FieldCounts(t, SoFar(rs, r, COUNT_FIELDS[i], i), COUNT_FIELDS[i]);
      t := AddField(t, COUNT_FIELDS[i], value);
      CountedStep(before, t, rs, r, i);
    }
    forall f ensures FieldCounts(t, rs + [r], f) {
      assert FieldIndex(f) < |COUNT_FIELDS|;
      assert FieldCounts(t, SoFar(rs, r, f, |COUNT_FIELDS|), f);
    }
  }

  /** The responses a field has counted when the loop over the fields is at `i`. */
  ghost function SoFar(rs: seq<Record>, r: Record, f: Field, i: nat): seq<Record> {
    if FieldIndex(f) < i then rs + [r] else rs
  }

  ghost predicate CountedUpTo(t: Totals, rs: seq<Record>, r: Record, i: nat) {
    forall f :: FieldCounts(t, SoFar(rs, r, f, i), f)
  }

  function AddField(t: Totals, f: Field, value: Option<nat>): Totals
    requires f in t.total
  {
    if value.None? then t.(missing := t.missing + {f})
    else t.(seen := t.seen + {f}, total := t.total[f := t.total[f] + value.value])
  }

  lemma CountedStep(before: Totals, t: Totals, rs: seq<Record>, r: Record, i: nat)
    requires CountedUpTo(before, rs, r, i) && i < |COUNT_FIELDS|
    requires COUNT_FIELDS[i] in before.total && t == AddField(before, COUNT_FIELDS[i], Count(r, COUNT_FIELDS[i]))
    ensures CountedUpTo(t, rs, r, i + 1)
  {
    var next := i + 1;
    forall f ensures FieldCounts(t, SoFar(rs, r, f, next), f) {
      assert FieldCounts(before, SoFar(rs, r, f, i), f);
      if FieldIndex(f) == i {
        FieldStep(before, t, rs, r, f, Count(r, f));
      } else {
        FieldIndexIs(i);
        OtherFieldKept(before, COUNT_FIELDS[i], Count(r, COUNT_FIELDS[i]), SoFar(rs, r, f, i), f);
      }
    }
  }

  lemma OtherFieldKept(t: Totals, g: Field, value: Option<nat>, rs: seq<Record>, f: Field)
    requires g in t.total && f != g && FieldCounts(t, rs, f)
    ensures FieldCounts(AddField(t, g, value), rs, f)
  {
  }

  lemma FieldIndexIs(i: nat)
    requires i < |COUNT_FIELDS|
    ensures FieldIndex(COUNT_FIELDS[i]) == i
  {
  }

  lemma FieldStep(before: Totals, t: Totals, rs: seq<Record>, r: Record, f: Field, value: Option<nat>)
    requires FieldCounts(before, rs, f) && value == Count(r, f)
    requires f in t.total && t.total[f] == before.total[f] + (if value.Some? then value.value else 0)
    requires f in t.missing <==> f in before.missing || value.None?
    requires f in t.seen <==> f in before.seen || value.Some?
    ensures FieldCounts(t, rs + [r], f)
  {
    AllCarryGrows(rs, r, f);
  }

  function KnownTotal(t: Totals, f: Field, counted: nat): Option<nat>
    requires f in t.total
  {
    if f in t.missing || f !in t.seen || counted == 0 then None else Some(t.total[f])
  }

  lemma KnownTotalIs(t: Totals, f: Field, rs: seq<Record>)
    requires TotalsCount(t, rs)
    ensures f in t.total && KnownTotal(t, f, |rs|) == KnownSum(rs, f)
  {
    assert FieldCounts(t, rs, f);
  }

  lemma AllCarryGrows(rs: seq<Record>, r: Record, f: Field)
    ensures AllCarry(rs + [r], f) <==> AllCarry(rs, f) && Count(r, f).Some?
    ensures Sum(rs + [r], f) == Sum(rs, f) + if Count(r, f).Some? then Count(r, f).value else 0
  {
    var all := rs + [r];
    assert all[..|rs|] == rs && all[|rs|] == r;
    if AllCarry(all, f) {
      assert forall k :: 0 <= k < |rs| ==> rs[k] == all[k];
    }
  }

  /** Cache totals so far, with what was seen and what was missing. */
  datatype CacheTally = CacheTally(hour: nat, five: nat, flat: nat, sawSplit: bool, sawFlat: bool,
                                   splitGap: bool, flatGap: bool)

  ghost predicate CacheCounts(c: CacheTally, rs: seq<Record>) {
    && c.hour == SumHour(rs) && c.five == SumFive(rs) && c.flat == SumFlat(rs)
    && (c.sawSplit <==> SomeSplit(rs)) && (c.sawFlat <==> SomeFlat(rs))
    && (c.splitGap <==> SomePart(rs)) && (c.flatGap <==> SomeBare(rs))
  }

  method AddCache(c0: CacheTally, u: Usage, ghost rs: seq<Record>, ghost r: Record) returns (c: CacheTally)
    requires CacheCounts(c0, rs) && r.usage == Some(u)
    ensures CacheCounts(c, rs + [r])
  {
    var (hour, minute, flat) := CacheParts(u);
    c := c0;
    if hour.Some? || minute.Some? {
      c := c.(sawSplit := true);
      if hour.None? || minute.None? {
        c := c.(splitGap := true);
      } else {
        c := c.(hour := c.hour + hour.value, five := c.five + minute.value);
      }
    } else if flat.Some? {
      c := c.(sawFlat := true, flat := c.flat + flat.value);
    } else {
      c := c.(flatGap := true);
    }
    CacheGrows(c0, c, rs, r);
  }

  lemma CacheGrows(c0: CacheTally, c: CacheTally, rs: seq<Record>, r: Record)
    requires CacheCounts(c0, rs)
    requires c.hour == c0.hour + (if IsWhole(r) then Parts(r).0.value else 0)
    requires c.five == c0.five + (if IsWhole(r) then Parts(r).1.value else 0)
    requires c.flat == c0.flat + (if IsFlat(r) then Parts(r).2.value else 0)
    requires c.sawSplit == (c0.sawSplit || IsSplit(r)) && c.sawFlat == (c0.sawFlat || IsFlat(r))
    requires c.splitGap == (c0.splitGap || (IsSplit(r) && !IsWhole(r)))
    requires c.flatGap == (c0.flatGap || (!IsSplit(r) && !IsFlat(r)))
    ensures CacheCounts(c, rs + [r])
  {
    assert (rs + [r])[..|rs|] == rs;
    SomeGrow(rs, r);
  }

  lemma SomeGrow(rs: seq<Record>, r: Record)
    ensures SomeSplit(rs + [r]) <==> SomeSplit(rs) || IsSplit(r)
    ensures SomeFlat(rs + [r]) <==> SomeFlat(rs) || IsFlat(r)
    ensures SomePart(rs + [r]) <==> SomePart(rs) || (IsSplit(r) && !IsWhole(r))
    ensures SomeBare(rs + [r]) <==> SomeBare(rs) || (!IsSplit(r) && !IsFlat(r))
  {
    var all := rs + [r];
    assert all[|rs|] == r;
    assert forall k :: 0 <= k < |rs| ==> all[k] == rs[k];
  }

  /** The cache columns: both split ones, the flat one, or none. */
  method CacheColumns(c: CacheTally, counted: nat, ghost rs: seq<Record>)
    returns (hour: Option<nat>, five: Option<nat>, unsplit: Option<nat>)
    requires CacheCounts(c, rs) && counted == |rs|
    ensures hour == Expected(rs).hour && five == Expected(rs).five && unsplit == Expected(rs).unsplit
  {
    hour, five, unsplit := None, None, None;
    SplitIsNotFlat(rs);
    if !(counted == 0 || (c.sawSplit && c.sawFlat) || c.splitGap || (!c.sawSplit && (!c.sawFlat || c.flatGap))) {
      if c.sawSplit {
        hour, five := Some(c.hour), Some(c.five);
      } else {
        unsplit := Some(c.flat);
      }
    }
  }

  lemma SplitIsNotFlat(rs: seq<Record>)
    ensures forall k :: 0 <= k < |rs| ==> !(IsSplit(rs[k]) && IsFlat(rs[k]))
    ensures SomeSplit(rs) ==> !AllFlat(rs)
    ensures AllFlat(rs) && rs != [] ==> SomeFlat(rs)
  {
    forall k | 0 <= k < |rs| ensures !(IsSplit(rs[k]) && IsFlat(rs[k])) {
    }
    if rs != [] && AllFlat(rs) {
      assert IsFlat(rs[0]);
    }
  }

  /** The model's name when the responses agree on one. */
  method OneModel(names: seq<string>) returns (model: Option<string>)
    ensures model == if OneName(names) then Some(names[0]) else None
  {
    for i := 0 to |names|
      invariant forall k :: 0 <= k < i ==> names[k] == names[0]
    {
      if names[i] != names[0] {
        return None;
      }
    }
    model := if names == [] then None else Some(names[0]);
  }

  /** A count is shown exactly when there is a response and every response carries it, and then
      it is their sum. */
  predicate ShownExactly(shown: Option<nat>, rs: seq<Record>, f: Field) {
    && (shown.Some? <==> |rs| > 0 && forall k :: 0 <= k < |rs| ==> Count(rs[k], f).Some?)
    && (shown.Some? ==> shown.value == Sum(rs, f))
  }

  /** Every count is shown exactly, and no column shown misses a response, save where whole split
      cache stands beside a response without cache data. */
  ghost predicate IsExact(report: Report, rs: seq<Record>) {
    && (forall f :: ShownExactly(FieldOf(report, f), rs, f))
    && (MissingIsUnknown(report, rs) <==> !(SplitKnown(rs) && SomeBare(rs)))
  }

  lemma ReportIsExact(rs: seq<Record>)
    ensures IsExact(Expected(rs), rs)
  {
    forall f ensures ShownExactly(FieldOf(Expected(rs), f), rs, f) {
      ExpectedField(rs, f);
    }
    MissingIsUnknownExactlyWhen(rs);
  }

  /** Sums one session's usage inside the window, each response once. */
  method SumTranscript(lines: seq<Line>, start: Option<real>, end: Option<real>) returns (report: Report)
    ensures report == Expected(Responses(lines, start, end))
    ensures IsExact(report, Responses(lines, start, end))
  {
    var totals := Totals(map[InputTokens := 0, OutputTokens := 0, CacheRead := 0, Thinking := 0], {}, {});
    var cache := CacheTally(0, 0, 0, false, false, false, false);
    var models: seq<string>, counted := [], 0;
    var seenKeys: set<Key> := {};
    ghost var rs: seq<Record> := [];
    NothingCounted(totals, cache);
    for i := 0 to |lines|
      invariant rs == Responses(lines[..i], start, end)
      invariant TotalsCount(totals, rs) && CacheCounts(cache, rs)
      invariant models == Named(rs) && counted == |rs|
      invariant forall key :: key in seenKeys <==> HasKey(rs, Some(key))
    {
      var line := lines[i];
      assert lines[..i + 1][..i] == lines[..i];
      if !InWindow(line, start, end) {
        continue;
      }
      var r := line.value;
      var key := ResponseKey(r);
      KeysGrow(rs, r);
      if key.Some? {
        if key.value in seenKeys {
          continue;
        }
        seenKeys := seenKeys + {key.value};
      }
      totals, cache, models := CountResponse(totals, cache, models, r, rs);
      counted := counted + 1;
      rs := rs + [r];
    }
    assert lines[..|lines|] == lines;
    report := Conclude(totals, cache, models, counted, rs);
    ReportIsExact(rs);
  }

  /** Adds one distinct response. */
  method CountResponse(totals0: Totals, cache0: CacheTally, models0: seq<string>, r: Record, ghost rs: seq<Record>)
    returns (totals: Totals, cache: CacheTally, models: seq<string>)
    requires TotalsCount(totals0, rs) && CacheCounts(cache0, rs) && models0 == Named(rs) && r.usage.Some?
    ensures TotalsCount(totals, rs + [r]) && CacheCounts(cache, rs + [r]) && models == Named(rs + [r])
  {
    totals := AddFields(totals0, r.usage.value, rs, r);
    cache := AddCache(cache0, r.usage.value, rs, r);
    NamedGrows(rs, r);
    models := models0;
    if r.model != "" {
      models := models + [r.model];
    }
  }

  method Conclude(totals: Totals, cache: CacheTally, models: seq<string>, counted: nat, ghost rs: seq<Record>)
    returns (report: Report)
    requires TotalsCount(totals, rs) && CacheCounts(cache, rs) && models == Named(rs) && counted == |rs|
    ensures report == Expected(rs)
  {
    KnownTotalIs(totals, InputTokens, rs);
    KnownTotalIs(totals, OutputTokens, rs);
    KnownTotalIs(totals, CacheRead, rs);
    KnownTotalIs(totals, Thinking, rs);
    var hour, five, unsplit := CacheColumns(cache, counted, rs);
    var model := OneModel(models);
    report := Report(KnownTotal(totals, InputTokens, counted), KnownTotal(totals, OutputTokens, counted),
                     KnownTotal(totals, CacheRead, counted), KnownTotal(totals, Thinking, counted),
                     hour, five, unsplit, model);
  }

  lemma NothingCounted(t: Totals, c: CacheTally)
    requires t == Totals(map[InputTokens := 0, OutputTokens := 0, CacheRead := 0, Thinking := 0], {}, {})
    requires c == CacheTally(0, 0, 0, false, false, false, false)
    ensures TotalsCount(t, []) && CacheCounts(c, [])
  {
    forall f ensures FieldCounts(t, [], f) {
      assert f in [InputTokens, OutputTokens, CacheRead, Thinking][FieldIndex(f)..];
    }
  }

  lemma KeysGrow(rs: seq<Record>, r: Record)
    ensures forall key :: HasKey(rs + [r], key) <==> HasKey(rs, key) || ResponseKey(r) == key
  {
    var all := rs + [r];
    forall key ensures HasKey(all, key) <==> HasKey(rs, key) || ResponseKey(r) == key {
      if HasKey(rs, key) {
        var k :| 0 <= k < |rs| && ResponseKey(rs[k]) == key;
        assert ResponseKey(all[k]) == key;
      }
      assert all[|rs|] == r;
    }
  }

  lemma NamedGrows(rs: seq<Record>, r: Record)
    ensures Named(rs + [r]) == Named(rs) + if r.model != "" then [r.model] else []
  {
    assert (rs + [r])[..|rs|] == rs;
  }

  // ---------------------------------------------------------------- what a report says

  function FieldOf(r: Report, f: Field): Option<nat> {
    match f
    case InputTokens => r.input
    case OutputTokens => r.output
    case CacheRead => r.cacheRead
    case Thinking => r.thinking
  }

  /** A column shown is carried by every response. */
  predicate MissingIsUnknown(report: Report, rs: seq<Record>) {
    && (forall f :: FieldOf(report, f).Some? ==> AllCarry(rs, f))
    && (report.hour.Some? || report.five.Some? ==> forall k :: 0 <= k < |rs| ==> IsWhole(rs[k]))
    && (report.unsplit.Some? ==> AllFlat(rs))
  }

  /** No missing figure is read as zero, save where whole split cache stands beside a response
      without cache data. */
  lemma MissingIsUnknownExactlyWhen(rs: seq<Record>)
    ensures MissingIsUnknown(Expected(rs), rs) <==> !(SplitKnown(rs) && SomeBare(rs))
  {
    if SplitKnown(rs) && SomeBare(rs) {
      var k :| 0 <= k < |rs| && !IsSplit(rs[k]) && !IsFlat(rs[k]);
      assert !IsWhole(rs[k]);
    }
    forall f | FieldOf(Expected(rs), f).Some? ensures AllCarry(rs, f) {
      ExpectedField(rs, f);
    }
  }

  const PLAIN: Usage := Usage(Some(1), Some(1), Some(0), Some(0), NoCache)
  const BESIDE: seq<Line> := [
    Some(Record(Some(0.0), Some("a"), None, Some(PLAIN.(cache := SplitCache(Some(5), Some(7)))), "m")),
    Some(Record(Some(0.0), Some("b"), None, Some(PLAIN), "m"))]

  /** The second response has no cache data and its session shows figures. */
  lemma MissingCacheReadAsZero()
    ensures var rs := Responses(BESIDE, Some(0.0), Some(0.0));
      && |rs| == 2 && Parts(rs[1]) == (None, None, None)
      && Expected(rs).hour == Some(5) && Expected(rs).five == Some(7) && !MissingIsUnknown(Expected(rs), rs)
  {
    var first, second := BESIDE[0].value, BESIDE[1].value;
    assert BESIDE[..1] == [Some(first)] && [Some(first)][..0] == [];
    assert Responses([], Some(0.0), Some(0.0)) == [];
    assert Responses([Some(first)], Some(0.0), Some(0.0)) == [first];
    assert !HasKey([first], ResponseKey(second));
    assert Responses(BESIDE, Some(0.0), Some(0.0)) == [first, second];
    TwoSums(first, second);
    assert IsSplit([first, second][0]) && !IsSplit([first, second][1]);
    MissingIsUnknownExactlyWhen([first, second]);
  }

  lemma TwoSums(a: Record, b: Record)
    requires IsWhole(a) && !IsSplit(b)
    ensures SumHour([a, b]) == Parts(a).0.value && SumFive([a, b]) == Parts(a).1.value
  {
    SplitSumsGrow([], a);
    SplitSumsGrow([a], b);
    assert [] + [a] == [a] && [a] + [b] == [a, b];
  }

  lemma SplitSumsGrow(rs: seq<Record>, r: Record)
    ensures SumHour(rs + [r]) == SumHour(rs) + if IsWhole(r) then Parts(r).0.value else 0
    ensures SumFive(rs + [r]) == SumFive(rs) + if IsWhole(r) then Parts(r).1.value else 0
  {
    assert (rs + [r])[..|rs|] == rs;
  }

  ghost predicate IsLineOf(r: Record, lines: seq<Line>, start: Option<real>, end: Option<real>) {
    exists l :: 0 <= l < |lines| && lines[l] == Some(r) && InWindow(lines[l], start, end)
  }

  ghost predicate DistinctKeys(rs: seq<Record>) {
    forall i, j :: 0 <= i < j < |rs| ==> ResponseKey(rs[i]).None? || ResponseKey(rs[i]) != ResponseKey(rs[j])
  }

  /** Each counted response is a line of the window, and no two have one key. */
  lemma {:induction false} ResponsesAreDistinct(lines: seq<Line>, start: Option<real>, end: Option<real>)
    ensures DistinctKeys(Responses(lines, start, end))
    ensures forall k :: 0 <= k < |Responses(lines, start, end)| ==> IsLineOf(Responses(lines, start, end)[k], lines, start, end)
    decreases |lines|
  {
    if lines != [] {
      var n := |lines| - 1;
      ResponsesAreDistinct(lines[..n], start, end);
      var before, rs := Responses(lines[..n], start, end), Responses(lines, start, end);
      forall k | 0 <= k < |rs| ensures IsLineOf(rs[k], lines, start, end) {
        if k < |before| {
          var l :| 0 <= l < n && lines[..n][l] == Some(before[k]) && InWindow(lines[..n][l], start, end);
          assert lines[l] == Some(rs[k]);
        } else {
          assert lines[n] == Some(rs[k]);
        }
      }
    }
  }

  /** A line of the window is counted, or its key is. */
  ghost predicate IsCounted(rs: seq<Record>, r: Record) {
    r in rs || (ResponseKey(r).Some? && HasKey(rs, ResponseKey(r)))
  }

  lemma {:induction false} EveryResponseIsCounted(lines: seq<Line>, start: Option<real>, end: Option<real>, l: nat)
    requires l < |lines| && InWindow(lines[l], start, end)
    ensures IsCounted(Responses(lines, start, end), lines[l].value)
    decreases |lines|
  {
    var n := |lines| - 1;
    if l < n {
      assert lines[..n][l] == lines[l];
      EveryResponseIsCounted(lines[..n], start, end, l);
      if lines[n].Some? {
        KeysGrow(Responses(lines[..n], start, end), lines[n].value);
      }
    }
  }

  /** Appending a line outside the window, or one whose key was counted, changes nothing. */
  lemma RepeatedLineChangesNothing(lines: seq<Line>, line: Line, start: Option<real>, end: Option<real>)
    requires !InWindow(line, start, end) ||
             (ResponseKey(line.value).Some? && HasKey(Responses(lines, start, end), ResponseKey(line.value)))
    ensures Responses(lines + [line], start, end) == Responses(lines, start, end)
  {
    assert (lines + [line])[..|lines|] == lines;
  }

  /** Appending a usage line with a new key adds its counts once: a count stays known exactly when
      the line carries it, and grows by that much. */
  lemma NewResponseAddsOnce(lines: seq<Line>, line: Line, start: Option<real>, end: Option<real>, f: Field)
    requires InWindow(line, start, end)
    requires ResponseKey(line.value).None? || !HasKey(Responses(lines, start, end), ResponseKey(line.value))
    ensures var rs := Responses(lines, start, end);
            var before, after := FieldOf(Expected(rs), f), FieldOf(Expected(Responses(lines + [line], start, end)), f);
            var count := Count(line.value, f);
            && (after.Some? <==> (rs == [] || before.Some?) && count.Some?)
            && (after.Some? ==> after.value == count.value + if rs == [] then 0 else before.value)
  {
    var rs := Responses(lines, start, end);
    NewResponse(lines, line, start, end);
    ExpectedField(rs, f);
    ExpectedField(rs + [line.value], f);
    AllCarryGrows(rs, line.value, f);
  }

  lemma NewResponse(lines: seq<Line>, line: Line, start: Option<real>, end: Option<real>)
    requires InWindow(line, start, end)
    requires ResponseKey(line.value).None? || !HasKey(Responses(lines, start, end), ResponseKey(line.value))
    ensures Responses(lines + [line], start, end) == Responses(lines, start, end) + [line.value]
  {
    assert (lines + [line])[..|lines|] == lines;
  }

  lemma ExpectedField(rs: seq<Record>, f: Field)
    ensures FieldOf(Expected(rs), f) == KnownSum(rs, f)
  {
  }

  /** Split and flat cache totals are never both shown; the split columns come together. */
  lemma CacheColumnsAreExclusive(rs: seq<Record>)
    ensures var r := Expected(rs);
            && (r.hour.Some? <==> r.five.Some?) && !(r.hour.Some? && r.unsplit.Some?)
            && (r.hour.Some? ==> forall k :: 0 <= k < |rs| ==> IsWhole(rs[k]) || Parts(rs[k]) == (None, None, None))
            && (r.unsplit.Some? <==> |rs| > 0 && forall k :: 0 <= k < |rs| ==> IsFlat(rs[k]))
  {
    SplitIsNotFlat(rs);
  }

  // ---------------------------------------------------------------- the token total of a row

  const ALWAYS: seq<Field> := [InputTokens, OutputTokens, CacheRead]

  /** A usage row as the board stores it; a field that is no integer is absent. */
  datatype UsageRow = UsageRow(input: Option<int>, output: Option<int>, cacheRead: Option<int>, thinking: Option<int>,
                               hour: Option<int>, five: Option<int>, unsplit: Option<int>)

  function Stored(v: Option<nat>): Option<int> {
    if v.Some? then Some(v.value) else None
  }

  /** The row a report is stored as. */
  function RowFor(r: Report): UsageRow {
    UsageRow(Stored(r.input), Stored(r.output), Stored(r.cacheRead), Stored(r.thinking),
             Stored(r.hour), Stored(r.five), Stored(r.unsplit))
  }

  function Column(r: UsageRow, f: Field): Option<int> {
    match f
    case InputTokens => r.input
    case OutputTokens => r.output
    case CacheRead => r.cacheRead
    case Thinking => r.thinking
  }

  /** Sums the fields that were read; unknown is not zero. */
  method TokenTotal(usage: Option<UsageRow>) returns (total: Option<int>)
    ensures total == if usage.Some? then ExpectedTotal(usage.value) else None
  {
    if usage.None? {
      return None;
    }
    var r, sum := usage.value, 0;
    for i := 0 to |ALWAYS|
      invariant (i > 0 ==> r.input.Some?) && (i > 1 ==> r.output.Some?) && (i > 2 ==> r.cacheRead.Some?)
      invariant sum == (if i > 0 then r.input.value else 0) + (if i > 1 then r.output.value else 0)
                     + (if i > 2 then r.cacheRead.value else 0)
    {
      var value := Column(r, ALWAYS[i]);
      if value.None? {
        return None;
      }
      sum := sum + value.value;
    }
    if r.hour.Some? && r.five.Some? {
      return Some(sum + r.hour.value + r.five.value);
    }
    if r.unsplit.Some? && r.hour.None? && r.five.None? {
      return Some(sum + r.unsplit.value);
    }
    total := None;
  }

  /** Cache creation as a row shows it: the split added up, or the flat total. */
  function CacheTotal(r: UsageRow): Option<int> {
    if r.hour.Some? && r.five.Some? then Some(r.hour.value + r.five.value)
    else if r.hour.None? && r.five.None? then r.unsplit
    else None
  }

  function ExpectedTotal(r: UsageRow): Option<int> {
    if r.input.Some? && r.output.Some? && r.cacheRead.Some? && CacheTotal(r).Some?
    then Some(r.input.value + r.output.value + r.cacheRead.value + CacheTotal(r).value)
    else None
  }

  /** Tokens of one response, cache creation counted once. */
  function ResponseTokens(r: Record): nat {
    (if Count(r, InputTokens).Some? then Count(r, InputTokens).value else 0)
    + (if Count(r, OutputTokens).Some? then Count(r, OutputTokens).value else 0)
    + (if Count(r, CacheRead).Some? then Count(r, CacheRead).value else 0)
    + (if IsWhole(r) then Parts(r).0.value + Parts(r).1.value else if IsFlat(r) then Parts(r).2.value else 0)
  }

  function SumTokens(rs: seq<Record>): nat {
    if rs == [] then 0 else SumTokens(rs[..|rs| - 1]) + ResponseTokens(rs[|rs| - 1])
  }

  lemma {:induction false} SumsAddUp(rs: seq<Record>)
    ensures SumTokens(rs) == Sum(rs, InputTokens) + Sum(rs, OutputTokens) + Sum(rs, CacheRead)
                           + SumHour(rs) + SumFive(rs) + SumFlat(rs)
    decreases |rs|
  {
    if rs != [] {
      SumsAddUp(rs[..|rs| - 1]);
      SplitIsNotFlat(rs);
    }
  }

  lemma {:induction false} NoFlatSum(rs: seq<Record>)
    requires !SomeFlat(rs)
    ensures SumFlat(rs) == 0
    decreases |rs|
  {
    if rs != [] {
      var n := |rs| - 1;
      assert !IsFlat(rs[n]);
      assert forall k :: 0 <= k < n ==> rs[..n][k] == rs[k];
      NoFlatSum(rs[..n]);
    }
  }

  lemma {:induction false} NoSplitSum(rs: seq<Record>)
    requires AllFlat(rs)
    ensures SumHour(rs) == 0 && SumFive(rs) == 0
    decreases |rs|
  {
    if rs != [] {
      var n := |rs| - 1;
      SplitIsNotFlat(rs);
      assert IsFlat(rs[n]);
      NoSplitSum(rs[..n]);
    }
  }

  predicate AllKnown(rs: seq<Record>) {
    && rs != [] && AllCarry(rs, InputTokens) && AllCarry(rs, OutputTokens) && AllCarry(rs, CacheRead)
    && (SplitKnown(rs) || FlatKnown(rs))
  }

  /** A transcript's token total adds up its distinct responses, each with its cache creation
      once and its thinking never. */
  lemma TotalIsSumOfResponses(lines: seq<Line>, start: Option<real>, end: Option<real>)
    ensures var rs := Responses(lines, start, end);
            var total := ExpectedTotal(RowFor(Expected(rs)));
            && (total.Some? ==> total.value == SumTokens(rs))
            && (total.Some? <==> AllKnown(rs))
  {
    var rs := Responses(lines, start, end);
    SumsAddUp(rs);
    SplitIsNotFlat(rs);
    if SplitKnown(rs) {
      NoFlatSum(rs);
    } else if FlatKnown(rs) {
      NoSplitSum(rs);
    }
  }
}
