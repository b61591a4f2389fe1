/** The cases of the repository's integration tests
  * (tests/integration_tests.rs), stated on the reference rewrite, which
  * `Write` produces. The tests read the clock; here "now" is fixed at
  * 1_709_000_000 seconds (late February 2024) with the default threshold of
  * 8 years, and the rendering stays abstract: each lemma fixes which instant
  * is rendered, with which pattern, and that all else is copied. */
module EpochExamples {
  import opened Decimal
  import opened Scanner
  import opened Epoch
  import opened EpochProperties

  const NOW: Int64 := 1_709_000_000
  const THRESHOLD: Int32 := 8

  /** The calibration at `NOW`: the second window and the minimum run
    * length, ten digits. */
  lemma Calibration(localize: bool, quote: bool)
    ensures Calibratable(THRESHOLD, NOW)
    ensures var r := Reformatter.New(THRESHOLD, NOW, localize, quote);
      && r.boundS == Range(1_456_712_000, 1_961_288_000)
      && r.minLen == 10
  {
    assert ThresholdSecs(THRESHOLD) == 252_288_000;
    DecimalLength(1_456_712_000, 10);
  }

  /** Digit values of the test runs, built three digits at a time. */
  lemma Value1709()
    ensures AllDigits("1709") && DigitsValue("1709") == 1_709
  {
    assert DigitsValue("1") == 1 by {
      assert "1"[..0] == [];
    }
    DigitsValue3("709");
    assert "1709" == "1" + "709";
    DigitsAppend("1", "709");
  }

  lemma Value1709152()
    ensures AllDigits("1709152") && DigitsValue("1709152") == 1_709_152
  {
    Value1709();
    DigitsValue3("152");
    assert "1709152" == "1709" + "152";
    DigitsAppend("1709", "152");
  }

  lemma Value1709152989()
    ensures AllDigits("1709152989") && DigitsValue("1709152989") == 1_709_152_989
  {
    Value1709152();
    DigitsValue3("989");
    assert "1709152989" == "1709152" + "989";
    DigitsAppend("1709152", "989");
  }

  lemma Value1709152989456()
    ensures AllDigits("1709152989456") && DigitsValue("1709152989456") == 1_709_152_989_456
  {
    Value1709152989();
    DigitsValue3("456");
    assert "1709152989456" == "1709152989" + "456";
    DigitsAppend("1709152989", "456");
  }

  lemma Value1712()
    ensures AllDigits("1712") && DigitsValue("1712") == 1_712
  {
    assert DigitsValue("1") == 1 by {
      assert "1"[..0] == [];
    }
    DigitsValue3("712");
    assert "1712" == "1" + "712";
    DigitsAppend("1", "712");
  }

  lemma Value1712070()
    ensures AllDigits("1712070") && DigitsValue("1712070") == 1_712_070
  {
    Value1712();
    DigitsValue3("070");
    assert "1712070" == "1712" + "070";
    DigitsAppend("1712", "070");
  }

  lemma Value1712070452()
    ensures AllDigits("1712070452") && DigitsValue("1712070452") == 1_712_070_452
  {
    Value1712070();
    DigitsValue3("452");
    assert "1712070452" == "1712070" + "452";
    DigitsAppend("1712070", "452");
  }

  lemma Value1712070452000000000()
    ensures AllDigits("1712070452000000000") && DigitsValue("1712070452000000000") == 1_712_070_452_000_000_000
  {
    Value1712070452();
    ZerosValue("000000000");
    assert "1712070452000000000" == "1712070452" + "000000000";
    DigitsAppend("1712070452", "000000000");
  }

  /** No digit from position `k` on, checked one position at a time. It is
    * the quantified hypothesis of `RewriteNoDigits` in a form that unfolds on
    * a literal (`NoDigitFromSound` connects the two). */
  predicate NoDigitFrom(s: string, k: nat)
    decreases |s| - k
  {
    k >= |s| || (!IsDigit(s[k]) && NoDigitFrom(s, k + 1))
  }

  lemma {:induction false} NoDigitFromSound(s: string, k: nat)
    requires NoDigitFrom(s, k)
    ensures forall i :: k <= i < |s| ==> !IsDigit(s[i])
    decreases |s| - k
  {
    if k < |s| {
      NoDigitFromSound(s, k + 1);
    }
  }

  lemma UnicodePrefixHasNoDigit()
    ensures NoDigitFrom("Deserializationµs", 0)
  {
    assert NoDigitFrom("Deserializationµs", 9);
  }

  /** A piece of text without digits is kept. */
  lemma TextKept(r: Reformatter, text: string, render: Render)
    requires NoDigitFrom(text, 0)
    ensures r.Rewrite(text, render) == text
  {
    NoDigitFromSound(text, 0);
    RewriteNoDigits(r, text, render);
  }

  /** A run shorter than `minLen`, alone on a line, is kept. */
  lemma ShortRunKept(r: Reformatter, run: string, render: Render)
    requires run != [] && AllDigits(run) && |run| < r.minLen
    ensures r.Rewrite(run, render) == run
  {
    RewriteRun(r, run, render);
    PassThrough(r, run, render);
  }

  /** Two kept pieces around a non-digit are kept together. */
  lemma KeptAround(r: Reformatter, a: string, c: char, b: string, render: Render)
    requires !IsDigit(c) && r.Rewrite(a, render) == a && r.Rewrite(b, render) == b
    ensures r.Rewrite(a + [c] + b, render) == a + [c] + b
  {
    RewriteSplitsAtNonDigit(r, a, c, b, render);
  }

  /** The test lines as the tests spell them equal the pieces the lemmas
    * below split them into. */
  lemma StartLine()
    ensures "1709152989456" + [' '] + ("test" + [' '] + ("3" + [' '] + ("b" + [' '] + ("12768987" + [' '] + "c"))))
      == "1709152989456 test 3 b 12768987 c"
  {
  }

  lemma UnicodeLine()
    ensures "Deserializationµs" + ['='] + ("547" + ['.'] + ("261" + [' '] + "1709152989"))
      == "Deserializationµs=547.261 1709152989"
  {
  }

  /** The text after the timestamp in the test case "start",
    * "test 3 b 12768987 c", is kept: its runs "3" and "12768987" are shorter
    * than ten digits. The text is written as its pieces around each space. */
  lemma StartTail(r: Reformatter, render: Render)
    requires r.minLen == 10
    ensures var tail := "test" + [' '] + ("3" + [' '] + ("b" + [' '] + ("12768987" + [' '] + "c")));
      r.Rewrite(tail, render) == tail
  {
    TextKept(r, "c", render);
    ShortRunKept(r, "12768987", render);
    KeptAround(r, "12768987", ' ', "c", render);
    TextKept(r, "b", render);
    KeptAround(r, "b", ' ', "12768987" + [' '] + "c", render);
    ShortRunKept(r, "3", render);
    KeptAround(r, "3", ' ', "b" + [' '] + ("12768987" + [' '] + "c"), render);
    TextKept(r, "test", render);
    KeptAround(r, "test", ' ', "3" + [' '] + ("b" + [' '] + ("12768987" + [' '] + "c")), render);
  }

  /** Test case "start", "1709152989456 test 3 b 12768987 c" written as its
    * pieces around the first space: the 13-digit run is milliseconds and is
    * rendered with the millisecond pattern; the rest of the line is kept. */
  lemma StartCase(render: Render)
    ensures Calibratable(THRESHOLD, NOW)
    ensures var tail := "test" + [' '] + ("3" + [' '] + ("b" + [' '] + ("12768987" + [' '] + "c")));
      Reformatter.New(THRESHOLD, NOW, false, false).Rewrite("1709152989456" + [' '] + tail, render)
        == render(1_709_152_989_456_000_000, false, "%Y-%m-%dT%H:%M:%S%.3fZ") + [' '] + tail
  {
    Calibration(false, false);
    var r := Reformatter.New(THRESHOLD, NOW, false, false);
    var run, tail := "1709152989456", "test" + [' '] + ("3" + [' '] + ("b" + [' '] + ("12768987" + [' '] + "c")));
    Value1709152989456();
    var n := DigitsValue(run);
    assert !r.Window(Secs).Contains(n) && r.Window(Millis).Contains(n);
    forall g | Rank(g) < Rank(Millis)
      ensures !r.Window(g).Contains(n)
    {
      assert g == Secs;
    }
    Replaced(r, run, render, Millis);
    RewriteRun(r, run, render);
    StartTail(r, render);
    RewriteSplitsAtNonDigit(r, run, ' ', tail, render);
  }

  /** The text before the timestamp in the test case "unicode",
    * "Deserializationµs=547.261 ", is kept whatever follows it: it holds a
    * non-ASCII character and two runs shorter than ten digits. */
  lemma UnicodeHead(r: Reformatter, rest: string, render: Render)
    requires r.minLen == 10 && rest != [] && AllDigits(rest)
    ensures r.Rewrite("Deserializationµs" + ['='] + ("547" + ['.'] + ("261" + [' '] + rest)), render)
      == "Deserializationµs" + ['='] + ("547" + ['.'] + ("261" + [' '] + r.Rewrite(rest, render)))
  {
    ShortRunKept(r, "261", render);
    RewriteSplitsAtNonDigit(r, "261", ' ', rest, render);
    ShortRunKept(r, "547", render);
    RewriteSplitsAtNonDigit(r, "547", '.', "261" + [' '] + rest, render);
    UnicodePrefixHasNoDigit();
    TextKept(r, "Deserializationµs", render);
    RewriteSplitsAtNonDigit(r, "Deserializationµs", '=', "547" + ['.'] + ("261" + [' '] + rest), render);
  }

  /** Test case "unicode", "Deserializationµs=547.261 1709152989" written as
    * its pieces around '=', '.' and ' ': everything before the timestamp is
    * kept, and the 10-digit run is seconds. */
  lemma UnicodeCase(render: Render)
    ensures Calibratable(THRESHOLD, NOW)
    ensures Reformatter.New(THRESHOLD, NOW, false, false)
        .Rewrite("Deserializationµs" + ['='] + ("547" + ['.'] + ("261" + [' '] + "1709152989")), render)
      == "Deserializationµs" + ['='] + ("547" + ['.'] + ("261" + [' '] +
           render(1_709_152_989_000_000_000, false, "%Y-%m-%dT%H:%M:%SZ")))
  {
    Calibration(false, false);
    var r := Reformatter.New(THRESHOLD, NOW, false, false);
    var run := "1709152989";
    Value1709152989();
    assert r.Window(Secs).Contains(DigitsValue(run));
    Replaced(r, run, render, Secs);
    RewriteRun(r, run, render);
    UnicodeHead(r, run, render);
  }

  /** Test "localize": a 19-digit run is nanoseconds, rendered in the local
    * zone with the nanosecond pattern, which ends in the zone's name `%Z`
    * rather than a literal `Z`. */
  lemma LocalizeCase(render: Render)
    ensures Calibratable(THRESHOLD, NOW)
    ensures Reformatter.New(THRESHOLD, NOW, true, false).Rewrite("1712070452000000000", render)
      == render(1_712_070_452_000_000_000, true, "%Y-%m-%dT%H:%M:%S%.9f%Z")
  {
    Calibration(true, false);
    var r := Reformatter.New(THRESHOLD, NOW, true, false);
    var run := "1712070452000000000";
    Value1712070452000000000();
    var n := DigitsValue(run);
    assert !r.Window(Secs).Contains(n) && !r.Window(Millis).Contains(n) && r.Window(Nanos).Contains(n);
    forall g | Rank(g) < Rank(Nanos)
      ensures !r.Window(g).Contains(n)
    {
      assert g == Secs || g == Millis;
    }
    Replaced(r, run, render, Nanos);
    RewriteRun(r, run, render);
  }
}
