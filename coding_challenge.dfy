/**
  The coding challenge panel (src/components/CodingChallenge.tsx): an editor seeded with the
  starter code, a simulated test run that always reports the same mock results, hints revealed
  one at a time, and a seconds counter shown as minutes and seconds.
*/
module Challenge {
  import opened Wrappers
  import opened Text

  const StarterCode: string :=
    "public class Solution {\n    public int[] twoSum(int[] nums, int target) {\n        // Your code here\n        \n    }\n}"

  const Hints: seq<string> := [
    "Think about using a HashMap to store the numbers you've seen and their indices.",
    "For each number, calculate what its complement would need to be to reach the target.",
    "Check if the complement exists in your HashMap before adding the current number."
  ]

  /** The number of test cases the challenge lists. */
  const TestCaseCount: nat := 3

  /** What every simulated run reports: the first two test cases pass, the third fails. */
  const MockResults: seq<bool> := [true, true, false]

  // ---------------------------------------------------------------------------
  // The clock
  // ---------------------------------------------------------------------------

  /** The seconds below a minute, padded, are two digits. */
  lemma SecondsDigits(x: nat)
    requires x < 60
    ensures |PadStart(Decimal(x), 2, '0')| == 2 && AllDigits(PadStart(Decimal(x), 2, '0'))
  {
    DecimalBelowHundred(x);
    var d := Decimal(x);
    if |d| == 1 {
      assert PadStart(d, 2, '0') == "0" + d;
      LeadingZero(d);
    }
  }

  /** The two seconds digits read back as the seconds below a minute. */
  lemma SecondsValue(x: nat)
    requires x < 60
    ensures AllDigits(PadStart(Decimal(x), 2, '0')) && DecimalValue(PadStart(Decimal(x), 2, '0')) == x
  {
    SecondsDigits(x);
    DecimalRoundTrip(x);
    var d := Decimal(x);
    if |d| == 1 {
      assert PadStart(d, 2, '0') == "0" + d;
      LeadingZero(d);
    }
  }

  /** `formatTime`: whole minutes, a colon, then the seconds as two digits. */
  function FormatTime(seconds: nat): (shown: string)
  {
    Decimal(seconds / 60) + ":" + PadStart(Decimal(seconds % 60), 2, '0')
  }

  /**
    Reads a clock label back: digits, a colon and two digits below 60 give minutes and seconds;
    anything else, a seconds field of 60 or more included, is `None`.
  */
  function ClockSeconds(t: string): (total: Option<nat>)
  {
    if |t| >= 4 && t[|t| - 3] == ':' && AllDigits(t[..|t| - 3]) && AllDigits(t[|t| - 2..]) &&
      DecimalValue(t[|t| - 2..]) < 60
    then
      Some(DecimalValue(t[..|t| - 3]) * 60 + DecimalValue(t[|t| - 2..]))
    else
      None
  }

  /** Digits, a colon and two digits below 60 read back as the minutes and seconds they denote. */
  lemma ClockOf(m: string, ss: string, minutes: nat, secs: nat)
    requires |m| >= 1 && AllDigits(m) && DecimalValue(m) == minutes
    requires |ss| == 2 && AllDigits(ss) && DecimalValue(ss) == secs && secs < 60
    ensures ClockSeconds(m + ":" + ss) == Some(minutes * 60 + secs)
  {
    var t := m + ":" + ss;
    assert t[..|t| - 3] == m;
    assert t[|t| - 2..] == ss;
  }

  /** A label built from a minute count and a second count below sixty reads back as their total. */
  lemma LabelRoundTrip(minutes: nat, secs: nat)
    requires secs < 60
    ensures ClockSeconds(Decimal(minutes) + ":" + PadStart(Decimal(secs), 2, '0')) == Some(minutes * 60 + secs)
  {
    var m, ss := Decimal(minutes), PadStart(Decimal(secs), 2, '0');
    SecondsDigits(secs);
    SecondsValue(secs);
    DecimalRoundTrip(minutes);
    ClockOf(m, ss, minutes, secs);
  }

  /** The label names the exact second count: reading it back gives the count. */
  lemma FormatTimeRoundTrip(seconds: nat)
    ensures ClockSeconds(FormatTime(seconds)) == Some(seconds)
  {
    var minutes, secs := seconds / 60, seconds % 60;
    assert seconds == minutes * 60 + secs;
    LabelRoundTrip(minutes, secs);
  }

  /** Different second counts never share a label. */
  lemma FormatTimeInjective(a: nat, b: nat)
    requires FormatTime(a) == FormatTime(b)
    ensures a == b
  {
    FormatTimeRoundTrip(a);
    FormatTimeRoundTrip(b);
  }

  /** The label is the minute numeral, the colon and exactly two seconds digits. */
  lemma FormatTimeLength(seconds: nat)
    ensures |FormatTime(seconds)| == |Decimal(seconds / 60)| + 3
  {
    SecondsDigits(seconds % 60);
  }

  /** The label is the four characters `m:ss` exactly while under ten minutes have passed. */
  lemma FormatTimeShort(seconds: nat)
    ensures |FormatTime(seconds)| == 4 <==> seconds < 600
  {
    assert seconds < 600 <==> seconds / 60 < 10;
    FormatTimeLength(seconds);
  }

  // ---------------------------------------------------------------------------
  // Test results
  // ---------------------------------------------------------------------------

  /** `testResults.every(result => result)`. */
  predicate AllPassed(results: seq<bool>)
  {
    forall k :: 0 <= k < |results| ==> results[k]
  }

  /** The number of passed test cases. */
  function PassedCount(results: seq<bool>): (n: nat)
    ensures n <= |results|
    ensures n == |results| <==> AllPassed(results)
  {
    if results == [] then 0
    else
      var rest := PassedCount(results[1..]);
      assert AllPassed(results) <==> results[0] && AllPassed(results[1..]) by {
        assert forall k :: 1 <= k < |results| ==> results[k] == results[1..][k - 1];
      }
      (if results[0] then 1 else 0) + rest
  }

  /** The mock run reports one result per test case, two of them passing, so the full-marks banner never appears. */
  lemma MockRunFails()
    ensures |MockResults| == TestCaseCount
    ensures PassedCount(MockResults) == 2 && !AllPassed(MockResults)
  {
    assert !MockResults[2];
  }

  // ---------------------------------------------------------------------------
  // The panel
  // ---------------------------------------------------------------------------

  class ChallengePanel {
    var code: string
    var isRunning: bool
    var testResults: seq<bool>
    var showHints: bool
    var currentHint: nat
    var timeSpent: nat

    /** The hint index stays within the hint list, and results are either absent or the mock ones. */
    ghost predicate Valid()
      reads this
    {
      currentHint < |Hints| && (testResults == [] || testResults == MockResults)
    }

    /** The panel as it stands once mounted: the mount effect has loaded the starter code, the clock is at zero. */
    constructor()
      ensures Valid()
      ensures code == StarterCode && !isRunning && testResults == [] && !showHints && currentHint == 0 && timeSpent == 0
    {
      code := StarterCode;
      isRunning := false;
      testResults := [];
      showHints := false;
      currentHint := 0;
      timeSpent := 0;
    }

    /** Typing in the editor. */
    method EditCode(text: string)
      requires Valid()
      modifies this
      ensures Valid() && code == text
      ensures isRunning == old(isRunning) && testResults == old(testResults) && showHints == old(showHints)
      ensures currentHint == old(currentHint) && timeSpent == old(timeSpent)
    {
      code := text;
    }

    /** `runCode`, first half: the Run button, disabled while a run is in progress, starts a run. */
    method BeginRun()
      requires Valid() && !isRunning
      modifies this
      ensures Valid() && isRunning
      ensures code == old(code) && testResults == old(testResults) && showHints == old(showHints)
      ensures currentHint == old(currentHint) && timeSpent == old(timeSpent)
    {
      isRunning := true;
    }

    /** `runCode`, second half: after the simulated delay the mock results replace the old ones, whatever the code. */
    method ResolveRun()
      requires Valid() && isRunning
      modifies this
      ensures Valid() && !isRunning && testResults == MockResults
      ensures code == old(code) && showHints == old(showHints)
      ensures currentHint == old(currentHint) && timeSpent == old(timeSpent)
    {
      testResults := MockResults;
      isRunning := false;
    }

    /** `resetCode`: restores the starter code and clears the results; a run in progress still finishes. */
    method Reset()
      requires Valid()
      modifies this
      ensures Valid() && code == StarterCode && testResults == []
      ensures isRunning == old(isRunning) && showHints == old(showHints)
      ensures currentHint == old(currentHint) && timeSpent == old(timeSpent)
    {
      code := StarterCode;
      testResults := [];
    }

    /** The Show/Hide Hints button; the revealed count is kept while hidden. */
    method ToggleHints()
      requires Valid()
      modifies this
      ensures Valid() && showHints == !old(showHints)
      ensures code == old(code) && isRunning == old(isRunning) && testResults == old(testResults)
      ensures currentHint == old(currentHint) && timeSpent == old(timeSpent)
    {
      showHints := !showHints;
    }

    /** The "Show next hint" button, shown while hints are visible and some remain hidden. */
    method NextHint()
      requires Valid() && showHints && currentHint < |Hints| - 1
      modifies this
      ensures Valid() && currentHint == old(currentHint) + 1
      ensures code == old(code) && isRunning == old(isRunning) && testResults == old(testResults)
      ensures showHints == old(showHints) && timeSpent == old(timeSpent)
    {
      currentHint := currentHint + 1;
    }

    /** One tick of the one-second interval. */
    method Tick()
      requires Valid()
      modifies this
      ensures Valid() && timeSpent == old(timeSpent) + 1
      ensures code == old(code) && isRunning == old(isRunning) && testResults == old(testResults)
      ensures showHints == old(showHints) && currentHint == old(currentHint)
    {
      timeSpent := timeSpent + 1;
    }

    /** `hints.slice(0, currentHint + 1)` while hints are shown: always the first few hints, at least one. */
    function VisibleHints(): (hs: seq<string>)
      reads this
      requires Valid()
      ensures showHints ==> 1 <= |hs| == currentHint + 1 && hs == Hints[..|hs|]
      ensures !showHints ==> hs == []
    {
      if showHints then Hints[..currentHint + 1] else []
    }

    /** The clock label beside the editor, which names `timeSpent` exactly. */
    function Clock(): (shown: string)
      reads this
      ensures ClockSeconds(shown) == Some(timeSpent)
    {
      FormatTimeRoundTrip(timeSpent);
      FormatTime(timeSpent)
    }

    /** The results panel and the per-example marks show once a run has finished. */
    predicate ShowsResults()
      reads this
    {
      |testResults| > 0
    }

    /**
      The mark beside test case `index` in the problem description: none before a run has
      reported, then a pass for the first two cases and a failure for the third.
    */
    function TestMark(index: nat): (mark: Option<bool>)
      reads this
      requires Valid() && index < TestCaseCount
      ensures mark.Some? <==> ShowsResults()
      ensures mark.Some? ==> (mark.value <==> index < 2)
    {
      if |testResults| > 0 then Some(testResults[index]) else None
    }

    /** The "All tests passed" banner. */
    predicate ShowsCongratulations()
      reads this
    {
      ShowsResults() && AllPassed(testResults)
    }
  }

  /** Whatever the learner does, the banner for passing every test never shows. */
  lemma NeverCongratulated(p: ChallengePanel)
    requires p.Valid()
    ensures !p.ShowsCongratulations()
  {
    MockRunFails();
  }
}
