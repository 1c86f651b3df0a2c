/** logTestSuiteDuration's choice of duration message. The total is Java
    int arithmetic, so a sequential product past the int range wraps. */
module Duration {
  import opened Setup

  /** Java int wrap-around of an unbounded integer. */
  function Wrap32(x: int): (r: Int32)
    ensures -0x8000_0000 <= x < 0x8000_0000 ==> r == x
    ensures (r - x) % 0x1_0000_0000 == 0
  {
    ((x + 0x8000_0000) % 0x1_0000_0000) - 0x8000_0000
  }

  /** The duration message printed before the tests run. */
  datatype DurationReport =
    | NoReport
      /** "will run until tests are finished" */
    | UntilFinished
      /** the per-test time, then "until tests are finished for a maximum time of" total */
    | MaximumTime(perTest: Int32, total: Int32)
      /** the per-test time, then "expected total testsuite time" total */
    | ExpectedTime(perTest: Int32, total: Int32)

  /** The total running time announced for a per-test duration: the
      duration itself in parallel mode, the product with the test count,
      as a Java int, in sequential mode. */
  function TotalDuration(durationSeconds: Int32, parallel: bool, testCount: nat): (r: Int32)
    ensures parallel ==> r == durationSeconds
    ensures !parallel ==> (r - durationSeconds * testCount) % 0x1_0000_0000 == 0
    ensures !parallel && -0x8000_0000 <= durationSeconds * testCount < 0x8000_0000
      ==> r == durationSeconds * testCount
  {
    if parallel then durationSeconds else Wrap32(durationSeconds * testCount)
  }

  function SuiteDurationReport(suite: TestSuite, params: CoordinatorParameters): (r: DurationReport)
    ensures r.NoReport? <==> suite.durationSeconds <= 0 && !suite.waitForTestCase
    ensures r.UntilFinished? <==> suite.durationSeconds <= 0 && suite.waitForTestCase
    ensures r.MaximumTime? <==> suite.durationSeconds > 0 && suite.waitForTestCase
    ensures r.ExpectedTime? <==> suite.durationSeconds > 0 && !suite.waitForTestCase
    ensures (r.MaximumTime? || r.ExpectedTime?) ==> r.perTest == suite.durationSeconds
  {
    var d := suite.durationSeconds;
    if d > 0 then
      var total := TotalDuration(d, params.parallel, |suite.testCases|);
      if suite.waitForTestCase then MaximumTime(d, total) else ExpectedTime(d, total)
    else if suite.waitForTestCase then UntilFinished
    else NoReport
  }

  /** The announced total is the per-test duration in parallel mode; in
      sequential mode it is the Java int value of the per-test duration
      times the number of tests: congruent to the product modulo 2^32, and
      equal to it whenever the product fits in an int. */
  lemma TotalDurationMeaning(suite: TestSuite, params: CoordinatorParameters)
    requires suite.durationSeconds > 0
    ensures var r := SuiteDurationReport(suite, params);
      && (params.parallel ==> r.total == suite.durationSeconds)
      && (!params.parallel ==> (r.total - suite.durationSeconds * |suite.testCases|) % 0x1_0000_0000 == 0)
      && (!params.parallel && suite.durationSeconds * |suite.testCases| < 0x8000_0000
          ==> r.total == suite.durationSeconds * |suite.testCases|)
  {
  }

  /** Two tests of 2^30 seconds each announce a negative total in
      sequential mode: the int product wraps. */
  lemma TotalDurationWraps()
    ensures TotalDuration(0x4000_0000, false, 2) == -0x8000_0000
    ensures var suite := TestSuite("suite", [TestCase("a"), TestCase("b")], 0x4000_0000, false, false);
      SuiteDurationReport(suite, CoordinatorParameters(false, false)) == ExpectedTime(0x4000_0000, -0x8000_0000)
  {
  }
}
