/** The per-run statistics that TypingSimulator.checkByPOST keeps: the
    first warmUpChecks successful requests of a run are only counted as
    skipped; every later successful request adds its round-trip time to the
    run's total; a failed request changes nothing. */
module Stats {

  /** warmUpChecks: successful requests at the start of a run that are left out of the statistics. */
  const WarmUpChecks: nat := 20

  /** How a request ended: answered after runTime milliseconds, or an IOException. */
  datatype Outcome = Success(runTime: int) | Failure

  /** The fields totalTime, totalChecks and totalChecksSkipped. */
  datatype Counters = Counters(totalTime: int, totalChecks: int, totalChecksSkipped: int)

  const Zero := Counters(0, 0, 0)

  function Min(a: int, b: int): int
  {
    if a <= b then a else b
  }

  /** The bookkeeping of one request. */
  function Record(c: Counters, o: Outcome): (r: Counters)
    // a failed request is logged and counted nowhere
    ensures o.Failure? ==> r == c
    // during warm-up a successful request is only counted as skipped, its time discarded
    ensures o.Success? && c.totalChecksSkipped < WarmUpChecks ==>
      r == c.(totalChecksSkipped := c.totalChecksSkipped + 1)
    // after warm-up a successful request is counted with its round-trip time
    ensures o.Success? && c.totalChecksSkipped >= WarmUpChecks ==>
      r == c.(totalChecks := c.totalChecks + 1, totalTime := c.totalTime + o.runTime)
  {
    match o
    case Failure => c
    case Success(runTime) =>
      if c.totalChecksSkipped < WarmUpChecks then
        c.(totalChecksSkipped := c.totalChecksSkipped + 1)
      else
        c.(totalChecks := c.totalChecks + 1, totalTime := c.totalTime + runTime)
  }

  /** The round-trip times of the successful requests, in order. */
  function Successes(os: seq<Outcome>): (s: seq<int>)
    ensures |s| <= |os|
  {
    if os == [] then []
    else
      var o := os[|os| - 1];
      Successes(os[..|os| - 1]) + if o.Success? then [o.runTime] else []
  }

  function Sum(s: seq<int>): int
  {
    if s == [] then 0 else Sum(s[..|s| - 1]) + s[|s| - 1]
  }

  /** The bookkeeping of a sequence of requests, in order. */
  function Tally(c: Counters, os: seq<Outcome>): (r: Counters)
    // every successful request is counted exactly once, as skipped or as checked
    ensures r.totalChecks + r.totalChecksSkipped == c.totalChecks + c.totalChecksSkipped + |Successes(os)|
    // the warm-up counter only grows and never passes warmUpChecks
    ensures r.totalChecksSkipped >= c.totalChecksSkipped
    ensures c.totalChecksSkipped <= WarmUpChecks ==> r.totalChecksSkipped <= WarmUpChecks
  {
    if os == [] then c else Record(Tally(c, os[..|os| - 1]), os[|os| - 1])
  }

  /** Tally in closed form: of the successful requests, the first ones fill
      what is left of the warm-up, and exactly the rest are counted, with
      the sum of their times. */
  lemma {:induction false} TallyClosedForm(c: Counters, os: seq<Outcome>)
    requires c.totalChecksSkipped <= WarmUpChecks
    ensures var s := Successes(os);
      var m := Min(|s|, WarmUpChecks - c.totalChecksSkipped);
      Tally(c, os) == Counters(c.totalTime + Sum(s[m..]), c.totalChecks + |s| - m, c.totalChecksSkipped + m)
  {
    if os != [] {
      var front, o := os[..|os| - 1], os[|os| - 1];
      TallyClosedForm(c, front);
      var s' := Successes(front);
      var m' := Min(|s'|, WarmUpChecks - c.totalChecksSkipped);
      assert Tally(c, os) == Record(Tally(c, front), o);
      if o.Success? {
        var s := s' + [o.runTime];
        assert Successes(os) == s;
        if c.totalChecksSkipped + m' >= WarmUpChecks {
          assert s[m'..] == s'[m'..] + [o.runTime];
          assert s[m'..][..|s[m'..]| - 1] == s'[m'..];
          assert Sum(s[m'..]) == Sum(s'[m'..]) + o.runTime;
        }
      } else {
        assert Successes(os) == s' + [];
        assert s' + [] == s';
      }
    }
  }

  /** The warm-up of a run: from zeroed counters, the first warmUpChecks
      successful requests never reach totalTime or totalChecks, and every
      later one does. */
  lemma WarmUpExcluded(os: seq<Outcome>)
    ensures var s := Successes(os);
      var skipped := Min(|s|, WarmUpChecks);
      Tally(Zero, os) == Counters(Sum(s[skipped..]), |s| - skipped, skipped)
  {
    TallyClosedForm(Zero, os);
  }

  /** Requests are tallied one after the other. */
  lemma {:induction false} TallyAppend(c: Counters, a: seq<Outcome>, b: seq<Outcome>)
    ensures Tally(c, a + b) == Tally(Tally(c, a), b)
    decreases |b|
  {
    if b != [] {
      var b' := b[..|b| - 1];
      assert (a + b)[..|a + b| - 1] == a + b';
      assert (a + b)[|a + b| - 1] == b[|b| - 1];
      TallyAppend(c, a, b');
    } else {
      assert a + b == a;
    }
  }

  /** A failed request does not keep the requests after it from being counted:
      the counters end as if it had not been sent. */
  lemma FailureIgnored(c: Counters, before: seq<Outcome>, after: seq<Outcome>)
    ensures Tally(c, before + [Failure] + after) == Tally(c, before + after)
  {
    TallyAppend(c, before + [Failure], after);
    TallyAppend(c, before, after);
  }
}
