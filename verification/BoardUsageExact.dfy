/** The usage report told from the raw fields of the responses. */
module BoardUsageExact {
  import opened Common
  import opened BoardUsage

  /** A count is what the response's own field has, when that is a number from 0 on. */
  lemma CountsAre(r: Record, n: nat)
    ensures Count(r, InputTokens) == Some(n) <==> r.usage.Some? && r.usage.value.input == Some(n as int)
    ensures Count(r, OutputTokens) == Some(n) <==> r.usage.Some? && r.usage.value.output == Some(n as int)
    ensures Count(r, CacheRead) == Some(n) <==> r.usage.Some? && r.usage.value.cacheRead == Some(n as int)
    ensures Count(r, Thinking) == Some(n) <==> r.usage.Some? && r.usage.value.thinking == Some(n as int)
  {
  }

  ghost predicate Is(field: Option<int>, n: nat) {
    field == Some(n as int)
  }

  /** Whole split cache has both figures, from 0 on; a flat total is one figure and no split. */
  lemma CacheIs(r: Record, hour: nat, five: nat, flat: nat)
    ensures IsWhole(r) && Parts(r).0 == Some(hour) && Parts(r).1 == Some(five) <==>
      r.usage.Some? && r.usage.value.cache.SplitCache?
      && Is(r.usage.value.cache.hour, hour) && Is(r.usage.value.cache.five, five)
    ensures IsFlat(r) && Parts(r).2 == Some(flat) <==>
      r.usage.Some? && r.usage.value.cache.FlatCache? && Is(r.usage.value.cache.total, flat)
  {
  }

  /** Each response adds its own figures to the sums, and only whole or flat ones. */
  lemma CacheSumsAre(rs: seq<Record>, r: Record)
    requires r.usage.Some?
    ensures var cache := r.usage.value.cache;
      var whole := cache.SplitCache? && cache.hour.Some? && cache.hour.value >= 0 && cache.five.Some? && cache.five.value >= 0;
      && SumHour(rs + [r]) == SumHour(rs) + (if whole then cache.hour.value else 0)
      && SumFive(rs + [r]) == SumFive(rs) + (if whole then cache.five.value else 0)
      && SumFlat(rs + [r])
         == SumFlat(rs) + (if cache.FlatCache? && cache.total.Some? && cache.total.value >= 0 then cache.total.value else 0)
  {
    SplitSumsGrow(rs, r);
    assert (rs + [r])[..|rs|] == rs;
  }

  ghost predicate SameRequest(a: Option<string>, b: Option<string>) {
    a == b || (a in {None, Some("")} && b in {None, Some("")})
  }

  /** Two records are one response exactly when they have the same message id and the same
      request id, an empty one being none; a record without an id is always its own. */
  lemma SameResponseExactlyWhen(a: Record, b: Record)
    ensures ResponseKey(a).Some? && ResponseKey(a) == ResponseKey(b) <==>
      a.id.Some? && a.id.value != "" && a.id == b.id && SameRequest(a.request, b.request)
  {
  }

  /** A response counts exactly when it carries usage and its time lies in the window, ends
      included; without a window none does. */
  lemma WindowIs(line: Line, start: Option<real>, end: Option<real>)
    ensures InWindow(line, start, end) <==>
      && line.Some? && line.value.usage.Some?
      && exists t, a, b :: line.value.time == Some(t) && start == Some(a) && end == Some(b) && a <= t && t <= b
  {
    if InWindow(line, start, end) {
      var t, a, b := line.value.time.value, start.value, end.value;
      assert line.value.time == Some(t) && start == Some(a) && end == Some(b);
    }
  }

  lemma {:induction false} NamedAre(rs: seq<Record>, m: string)
    ensures m in Named(rs) <==> m != "" && exists k :: 0 <= k < |rs| && rs[k].model == m
    decreases |rs|
  {
    if rs != [] {
      var n := |rs| - 1;
      NamedAre(rs[..n], m);
      if k :| 0 <= k < n && rs[..n][k].model == m {
        assert rs[k].model == m;
      }
      if k :| 0 <= k < |rs| && rs[k].model == m && k < n {
        assert rs[..n][k].model == m;
      }
    }
  }

  /** The model is shown exactly when some response names it and none names another. */
  lemma ModelIsShownExactlyWhen(rs: seq<Record>, m: string)
    ensures Expected(rs).model == Some(m) <==>
      && m != "" && (exists k :: 0 <= k < |rs| && rs[k].model == m)
      && forall k :: 0 <= k < |rs| ==> rs[k].model == "" || rs[k].model == m
  {
    var names := Named(rs);
    NamedAre(rs, m);
    if OneName(names) {
      forall k | 0 <= k < |rs| && rs[k].model != "" ensures rs[k].model == names[0] {
        NamedAre(rs, rs[k].model);
        var i :| 0 <= i < |names| && names[i] == rs[k].model;
      }
    }
    if m in names && forall k :: 0 <= k < |rs| ==> rs[k].model == "" || rs[k].model == m {
      forall i | 0 <= i < |names| ensures names[i] == m {
        NamedAre(rs, names[i]);
      }
    }
  }

  /** A row's total is known exactly with its three counts and either both split figures or, with
      neither of them, the flat one; then it is their sum. */
  lemma TotalIs(r: UsageRow, n: int)
    ensures ExpectedTotal(r) == Some(n) <==>
      && r.input.Some? && r.output.Some? && r.cacheRead.Some?
      && ((r.hour.Some? && r.five.Some?
           && n == r.input.value + r.output.value + r.cacheRead.value + r.hour.value + r.five.value)
          || (r.hour.None? && r.five.None? && r.unsplit.Some?
              && n == r.input.value + r.output.value + r.cacheRead.value + r.unsplit.value))
  {
  }
}
