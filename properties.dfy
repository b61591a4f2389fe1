/** What the reformatter promises: first-match-wins classification without
  * overflow, soundness of the length pre-filter, verbatim pass-through of
  * everything that is not replaced, and independence of the pieces of a
  * line split at a non-digit. */
module EpochProperties {
  import opened Decimal
  import opened Scanner
  import opened Epoch

  /** The classification of a value is first-match-wins: the resolution is
    * that of the first window, in the order seconds, millis, nanos, that
    * holds the value, and the instant is the value in that resolution's
    * unit; a value that classifies as nothing lies in no window. */
  lemma ClassifyValueFirstMatch(r: Reformatter, n: int)
    ensures var c := r.ClassifyValue(n);
      && (c.Some? ==> c.value.timeNs == n * UnitNanos(c.value.format))
      && (c.Some? ==> r.Window(c.value.format).Contains(n))
      && (c.Some? ==> forall g :: Rank(g) < Rank(c.value.format) ==> !r.Window(g).Contains(n))
      && (c.None? ==> forall g :: !r.Window(g).Contains(n))
  {

  }

  /** A digit run classifies only when it parses as `i64`, and then as its
    * value does. */
  lemma ClassifyParses(r: Reformatter, run: string)
    requires AllDigits(run)
    ensures r.Classify(run).Some? ==> 0 < |run| && DigitsValue(run) <= I64_MAX
    ensures 0 < |run| && DigitsValue(run) <= I64_MAX ==> r.Classify(run) == r.ClassifyValue(DigitsValue(run))
  {

  }

  /** The products `n * 10^9` and `n * 10^6` taken for a classified run do
    * not overflow `i64`. */
  lemma ClassifiedTimeFits(r: Reformatter, n: int)
    requires r.Valid() && r.ClassifyValue(n).Some?
    ensures InInt64(r.ClassifyValue(n).value.timeNs)
  {

  }

  /** When the window starts after the epoch and spans less than a factor
    * of 1000, the three windows are disjoint, so the order in which they
    * are tried decides nothing. */
  lemma WindowsDisjoint(r: Reformatter, n: int)
    requires r.Valid() && 0 < r.boundS.start && r.boundS.end <= MILLIS_PER_SEC * r.boundS.start
    ensures !(r.boundS.Contains(n) && r.boundMs.Contains(n))
    ensures !(r.boundMs.Contains(n) && r.boundNs.Contains(n))
    ensures !(r.boundS.Contains(n) && r.boundNs.Contains(n))
  {

  }

  /** `minLen` is the length of the printed lower second bound, its '-'
    * included: one more than the number of its digits when it is
    * negative. */
  lemma MinLenCountsSign(r: Reformatter)
    requires r.Valid()
    ensures r.minLen == |NatToDecimal(Abs(r.boundS.start))| + (if r.boundS.start < 0 then 1 else 0)
  {
  }

  /** The length pre-filter is sound when the lower second bound is not
    * negative: a run shorter than `minLen` lies in no window, so skipping
    * its classification never changes the output. */
  lemma ShortRunNeverClassifies(r: Reformatter, run: string)
    requires r.Valid() && 0 <= r.boundS.start
    requires AllDigits(run) && |run| < r.minLen
    ensures r.Classify(run).None?
  {
    if run != [] {
      var lower := r.boundS.start;
      var digits := NatToDecimal(lower);
      assert ToDecimal(lower) == digits;
      assert 1 < |digits|;
      Pow10Monotone(|run|, |digits| - 1);
      var n := DigitsValue(run);
      assert n < lower;
      ClassifyParses(r, run);
      assert lower <= r.boundMs.start && lower <= r.boundNs.start;
      assert r.ClassifyValue(n) == None;
    }
  }

  /** A second is in the calibrated window exactly when it is less than the
    * threshold, in seconds, before `now`, or strictly less after it. */
  lemma SecondsWindowAroundNow(threshold: Int32, now: Int64, localize: bool, quote: bool, x: int)
    requires Calibratable(threshold, now)
    ensures Reformatter.New(threshold, now, localize, quote).boundS.Contains(x)
      <==> -(ThresholdSecs(threshold) as int) <= x - now < ThresholdSecs(threshold)
  {
  }

  /** When the lower second bound is negative its printed form carries a
    * '-', and the pre-filter is no longer only an optimisation: with a
    * one-year threshold at the epoch itself, the run "5" is one second into
    * the window, yet it is shorter than `minLen` and passes through. */
  lemma PrefilterSkipsWhenLowerNegative(render: Render)
    ensures Calibratable(1, 0)
    ensures var r := Reformatter.New(1, 0, false, false);
      && r.boundS.start < 0 && r.minLen == 9
      && r.Classify("5") == Some(Instant(5 * NANOS_PER_SEC, Secs))
      && r.Emit("5", render) == "5"
  {
    assert ThresholdSecs(1) == 31_536_000;
    var r := Reformatter.New(1, 0, false, false);
    assert r.boundS.start == -31_536_000;
    DecimalLength(31_536_000, 8);
    assert DigitsValue("5") == 5 by {
      assert "5"[..0] == [];
    }
  }

  /** A run is written as it is when it is shorter than `minLen`, when its
    * value overflows `i64`, or when its value is in no window. */
  lemma PassThrough(r: Reformatter, run: string, render: Render)
    requires AllDigits(run)
    requires || |run| < r.minLen
             || DigitsValue(run) > I64_MAX
             || (!r.boundS.Contains(DigitsValue(run))
                 && !r.boundMs.Contains(DigitsValue(run))
                 && !r.boundNs.Contains(DigitsValue(run)))
    ensures r.Emit(run, render) == run
  {
  }

  /** A run at least `minLen` long whose value fits `i64` and lies in the
    * window of resolution `f`, and in no window tried before it, becomes the
    * instant in `f`'s unit rendered with `f`'s pattern, between double
    * quotes exactly when `quote` is set. */
  lemma Replaced(r: Reformatter, run: string, render: Render, f: SecondsFormat)
    requires AllDigits(run) && run != [] && |run| >= r.minLen && DigitsValue(run) <= I64_MAX
    requires r.Window(f).Contains(DigitsValue(run))
    requires forall g :: Rank(g) < Rank(f) ==> !r.Window(g).Contains(DigitsValue(run))
    ensures var time := render(DigitsValue(run) * UnitNanos(f), r.localize, Reformatter.RfcFormat(r.localize, f));
      r.Emit(run, render) == if r.quote then "\"" + time + "\"" else time
  {
    var n := DigitsValue(run);
    var i := Instant(n * UnitNanos(f), f);
    ClassifyParses(r, run);
    match f
    case Secs =>
      assert r.boundS.Contains(n);
    case Millis =>
      assert Rank(Secs) < Rank(f);
      assert !r.Window(Secs).Contains(n);
      assert !r.boundS.Contains(n) && r.boundMs.Contains(n);
    case Nanos =>
      assert UnitNanos(f) == 1 && n * 1 == n;
      assert Rank(Secs) < Rank(f) && Rank(Millis) < Rank(f);
      assert !r.Window(Secs).Contains(n) && !r.Window(Millis).Contains(n);
      assert !r.boundS.Contains(n) && !r.boundMs.Contains(n) && r.boundNs.Contains(n);
    assert r.ClassifyValue(n) == Some(i);
    assert r.Classify(run) == Some(i);
    var time := render(i.timeNs, r.localize, Reformatter.RfcFormat(r.localize, f));
    assert r.Emit(run, render) == r.Stamp(time);
  }

  /** Coverage: when no maximal digit run is replaced, the output is the
    * input, every character once and in order. */
  lemma NoReplacementIsIdentity(r: Reformatter, line: string, render: Render)
    requires forall i: nat, j: nat :: IsMaximalRun(line, i, j) ==>
      AllDigits(line[i..j]) && r.Emit(line[i..j], render) == line[i..j]
    ensures r.Rewrite(line, render) == line
  {
    var emit := r.EmitFn(render);
    forall i: nat, j: nat | IsMaximalRun(line, i, j)
      ensures emit(line[i..j]) == line[i..j]
    {
    }
    SubstituteIdentity(line, emit);
  }

  /** The sign of the threshold is ignored. */
  lemma ThresholdSignIgnored(threshold: Int32, now: Int64, localize: bool, quote: bool)
    requires Calibratable(threshold, now)
    ensures -threshold <= I32_MAX
    ensures Reformatter.New(threshold, now, localize, quote) == Reformatter.New(-threshold, now, localize, quote)
  {
    assert ThresholdSecs(-threshold) == ThresholdSecs(threshold);
  }

  /** With threshold 0 every window is empty and no line changes. */
  lemma ZeroThresholdIsIdentity(now: Int64, localize: bool, quote: bool, line: string, render: Render)
    requires Calibratable(0, now)
    ensures Reformatter.New(0, now, localize, quote).Rewrite(line, render) == line
  {
    var r := Reformatter.New(0, now, localize, quote);
    assert r.boundS == Range(now, now);
    assert r.boundMs.start == r.boundMs.end && r.boundNs.start == r.boundNs.end;
    EmptyWindowsIsIdentity(r, line, render);
  }

  /** With all three windows empty, no run is replaced. */
  lemma EmptyWindowsIsIdentity(r: Reformatter, line: string, render: Render)
    requires r.boundS.start == r.boundS.end
    requires r.boundMs.start == r.boundMs.end && r.boundNs.start == r.boundNs.end
    ensures r.Rewrite(line, render) == line
  {
    forall i: nat, j: nat | IsMaximalRun(line, i, j)
      ensures AllDigits(line[i..j]) && r.Emit(line[i..j], render) == line[i..j]
    {
      var run := line[i..j];
      assert AllDigits(run);
      PassThrough(r, run, render);
    }
    NoReplacementIsIdentity(r, line, render);
  }

  /** The rewrite depends on `Emit` only at the maximal digit runs of the
    * line: two reformatters, or two renderings, that treat every maximal run
    * alike rewrite the line alike. */
  lemma RewriteOnlyAtRuns(r1: Reformatter, render1: Render, r2: Reformatter, render2: Render, line: string)
    requires forall i: nat, j: nat :: IsMaximalRun(line, i, j) ==>
      AllDigits(line[i..j]) && r1.Emit(line[i..j], render1) == r2.Emit(line[i..j], render2)
    ensures r1.Rewrite(line, render1) == r2.Rewrite(line, render2)
  {
    var e1, e2 := r1.EmitFn(render1), r2.EmitFn(render2);
    forall i: nat, j: nat | IsMaximalRun(line, i, j)
      ensures e1(line[i..j]) == e2(line[i..j])
    {
    }
    SubstituteOnlyAtRuns(line, e1, e2);
  }

  /** A line that is a single digit run is rewritten to what `Emit` makes of
    * it. */
  lemma RewriteRun(r: Reformatter, run: string, render: Render)
    requires run != [] && AllDigits(run)
    ensures r.Rewrite(run, render) == r.Emit(run, render)
  {
    SubstituteRun(run, r.EmitFn(render));
  }

  /** A line without digits is written as it is. */
  lemma RewriteNoDigits(r: Reformatter, line: string, render: Render)
    requires forall i :: 0 <= i < |line| ==> !IsDigit(line[i])
    ensures r.Rewrite(line, render) == line
  {
    SubstituteNoDigits(line, r.EmitFn(render));
  }

  /** Splitting a line at a non-digit and rewriting the two pieces on their
    * own gives the rewrite of the whole line: the scan keeps no state from
    * one digit run to the next. */
  lemma RewriteSplitsAtNonDigit(r: Reformatter, a: string, c: char, b: string, render: Render)
    requires !IsDigit(c)
    ensures r.Rewrite(a + [c] + b, render) == r.Rewrite(a, render) + [c] + r.Rewrite(b, render)
  {
    SubstituteSplit(a, c, b, r.EmitFn(render));
  }
}
