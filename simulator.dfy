/** The TypingSimulator object: its three per-run counters, the check of a
    text in two modes, the pass over one document, and the benchmark's runs
    over all documents. Randomness, the clock and the network are inputs:
    a DocDraws per document and run. */
module Simulator {
  import opened Typing
  import opened Stats
  import opened Sorting

  /** maxRuns: the chart that consumes the totals needs three values for its error bars. */
  const MaxRuns: nat := 3

  datatype Mode = TextLevelOnly | AllButTextLevelOnly

  /** One POST request: the text to check and the mode to check it in. */
  datatype Request = Request(text: string, mode: Mode)

  /** What one document's pass consumes: the copy-paste draw, one Keystroke
      per iteration of the typing loop, and the network's answer to the
      k-th request the pass sends. */
  datatype DocDraws = DocDraws(copyPaste: bool, keys: seq<Keystroke>, net: nat -> Outcome)

  /** The check points of one document's pass: a pasted document is
      checked once, whole; otherwise the typing loop decides. */
  function DocTrace(doc: string, d: DocDraws): Trace
  {
    if d.copyPaste then Trace([doc], [], Done) else Simulate(doc, Start, d.keys)
  }

  /** The requests that checking the given points sends. */
  function Requests(points: seq<string>): (r: seq<Request>)
    ensures |r| == 2 * |points|
  {
    if points == [] then []
    else
      var p := points[|points| - 1];
      Requests(points[..|points| - 1]) + [Request(p, TextLevelOnly), Request(p, AllButTextLevelOnly)]
  }

  /** Every check point sends exactly two requests carrying its text, in
      mode textLevelOnly first and allButTextLevelOnly second, and the
      requests follow the order of the points. */
  lemma {:induction false} RequestsAt(points: seq<string>, j: nat)
    requires j < |points|
    ensures Requests(points)[2 * j] == Request(points[j], TextLevelOnly)
    ensures Requests(points)[2 * j + 1] == Request(points[j], AllButTextLevelOnly)
  {
    var front := points[..|points| - 1];
    if j < |front| {
      RequestsAt(front, j);
      assert front[j] == points[j];
    }
  }

  /** The network's answers to the first n requests of a pass. */
  function Answers(n: nat, net: nat -> Outcome): (r: seq<Outcome>)
    ensures |r| == n
  {
    if n == 0 then [] else Answers(n - 1, net) + [net(n - 1)]
  }

  /** One run over the documents from counters c: the counters at its end
      and how it ended. A pass that throws or runs out of draws ends it. */
  function Pass(docs: seq<string>, ds: seq<DocDraws>, c: Counters): (Counters, Status)
    requires |ds| == |docs|
  {
    if docs == [] then (c, Done)
    else
      var t := DocTrace(docs[0], ds[0]);
      var c' := Tally(c, Answers(|Requests(t.points)|, ds[0].net));
      if t.status != Done then (c', t.status) else Pass(docs[1..], ds[1..], c')
  }

  predicate Shaped(docs: seq<string>, draws: seq<seq<DocDraws>>)
  {
    forall r :: 0 <= r < |draws| ==> |draws[r]| == |docs|
  }

  /** The total time of each run, in the order the runs were made. */
  function Totals(docs: seq<string>, draws: seq<seq<DocDraws>>): (s: seq<int>)
    requires Shaped(docs, draws)
    ensures |s| == |draws|
  {
    if draws == [] then []
    else Totals(docs, draws[..|draws| - 1]) + [Pass(docs, draws[|draws| - 1], Zero).0.totalTime]
  }

  /** Checking the j-th point books the answers to requests 2j and 2j + 1. */
  lemma TallyNextPair(c: Counters, j: nat, net: nat -> Outcome, before: Counters, after: Counters)
    requires before == Tally(c, Answers(2 * j, net))
    requires after == Tally(before, [net(2 * j), net(2 * j + 1)])
    ensures after == Tally(c, Answers(2 * j + 2, net))
  {
    assert Answers(2 * j + 2, net) == Answers(2 * j, net) + [net(2 * j), net(2 * j + 1)];
    TallyAppend(c, Answers(2 * j, net), [net(2 * j), net(2 * j + 1)]);
  }

  /** Checking the j-th point sends its two requests after those of the points before it. */
  lemma RequestsNext(points: seq<string>, j: nat, sent: seq<Request>, more: seq<Request>)
    requires j < |points|
    requires sent == Requests(points[..j]) && more == Requests([points[j]])
    ensures sent + more == Requests(points[..j + 1])
  {
    assert points[..j + 1][..j] == points[..j];
  }

  /** Pass unrolled by one document. */
  lemma PassOnce(docs: seq<string>, ds: seq<DocDraws>, c: Counters)
    requires |ds| == |docs| && docs != []
    ensures var t := DocTrace(docs[0], ds[0]);
      var c' := Tally(c, Answers(|Requests(t.points)|, ds[0].net));
      Pass(docs, ds, c) == if t.status != Done then (c', t.status) else Pass(docs[1..], ds[1..], c')
  {
  }

  lemma TotalsNext(docs: seq<string>, draws: seq<seq<DocDraws>>, r: nat)
    requires Shaped(docs, draws) && r < |draws|
    ensures Totals(docs, draws[..r + 1]) == Totals(docs, draws[..r]) + [Pass(docs, draws[r], Zero).0.totalTime]
  {
    assert draws[..r + 1][..r] == draws[..r];
  }

  /** A pasted document is checked exactly once, with the whole document
      unmodified, in both modes. */
  lemma CopyPasteChecksWholeDocument(doc: string, d: DocDraws)
    requires d.copyPaste
    ensures DocTrace(doc, d) == Trace([doc], [], Done)
    ensures Requests(DocTrace(doc, d).points) == [Request(doc, TextLevelOnly), Request(doc, AllButTextLevelOnly)]
  {
  }

  /** The answers to every request a run sends, in order, up to the pass that ends it. */
  function RunAnswers(docs: seq<string>, ds: seq<DocDraws>): seq<Outcome>
    requires |ds| == |docs|
  {
    if docs == [] then []
    else
      var t := DocTrace(docs[0], ds[0]);
      var answers := Answers(|Requests(t.points)|, ds[0].net);
      if t.status != Done then answers else answers + RunAnswers(docs[1..], ds[1..])
  }

  /** The counters of a run are the bookkeeping of all the answers it gets,
      whichever document they belong to; so the warm-up (WarmUpExcluded)
      spans the documents of a run. */
  lemma {:induction false} PassTally(docs: seq<string>, ds: seq<DocDraws>, c: Counters)
    requires |ds| == |docs|
    ensures Pass(docs, ds, c).0 == Tally(c, RunAnswers(docs, ds))
  {
    if docs != [] {
      var t := DocTrace(docs[0], ds[0]);
      var answers := Answers(|Requests(t.points)|, ds[0].net);
      if t.status == Done {
        PassTally(docs[1..], ds[1..], Tally(c, answers));
        TallyAppend(c, answers, RunAnswers(docs[1..], ds[1..]));
      }
    }
  }

  /** The counters and status each run ends with, in the order the runs were made. */
  function Results(docs: seq<string>, draws: seq<seq<DocDraws>>): seq<(Counters, Status)>
    requires Shaped(docs, draws)
  {
    seq(|draws|, q requires 0 <= q < |draws| => Pass(docs, draws[q], Zero))
  }

  lemma DoneExtends(rs: seq<(Counters, Status)>, r: nat)
    requires r < |rs| && rs[r].1 == Done
    requires forall q :: 0 <= q < r ==> rs[q].1 == Done
    ensures forall q :: 0 <= q < r + 1 ==> rs[q].1 == Done
  {
  }

  class TypingSimulator {
    var totalTime: int
    var totalChecks: int
    var totalChecksSkipped: int

    function Counts(): Counters
      reads this
    {
      Counters(totalTime, totalChecks, totalChecksSkipped)
    }

    constructor ()
      ensures Counts() == Zero
    {
      totalTime, totalChecks, totalChecksSkipped := 0, 0, 0;
    }

    /** checkByPOST: sends one request and books the answer. */
    method CheckByPost(text: string, mode: Mode, answer: Outcome) returns (sent: Request)
      modifies this
      ensures sent == Request(text, mode)
      ensures Counts() == Record(old(Counts()), answer)
    {
      sent := Request(text, mode);
      match answer
      case Failure =>
      case Success(runTime) =>
        if totalChecksSkipped < WarmUpChecks {
          totalChecksSkipped := totalChecksSkipped + 1;
        } else {
          totalChecks := totalChecks + 1;
          totalTime := totalTime + runTime;
        }
    }

    /** check: the same text in mode textLevelOnly, then in mode allButTextLevelOnly. */
    method Check(text: string, first: Outcome, second: Outcome) returns (sent: seq<Request>)
      modifies this
      ensures sent == Requests([text])
      ensures Counts() == Tally(old(Counts()), [first, second])
    {
      var a := CheckByPost(text, TextLevelOnly, first);
      var b := CheckByPost(text, AllButTextLevelOnly, second);
      sent := [a, b];
      assert [first, second][..1] == [first] && [first][..0] == [];
      assert Tally(old(Counts()), [first]) == Record(old(Counts()), first);
      assert Requests([text]) == [a, b];
    }

    /** The checks of runOnDoc: every check point in order, each with the
        next two answers of the network. */
    method CheckAll(points: seq<string>, net: nat -> Outcome) returns (sent: seq<Request>)
      modifies this
      ensures sent == Requests(points)
      ensures Counts() == Tally(old(Counts()), Answers(|sent|, net))
    {
      ghost var start := Counts();
      sent := [];
      var j := 0;
      while j < |points|
        invariant 0 <= j <= |points|
        invariant sent == Requests(points[..j])
        invariant Counts() == Tally(start, Answers(2 * j, net))
      {
        ghost var before := Counts();
        var more := Check(points[j], net(2 * j), net(2 * j + 1));
        TallyNextPair(start, j, net, before, Counts());
        RequestsNext(points, j, sent, more);
        sent := sent + more;
        j := j + 1;
      }
      assert points[..j] == points;
    }

    /** runOnDoc: a pasted document is checked once, whole; otherwise the
        document is typed and every check point of the pass is checked. */
    method RunOnDoc(doc: string, d: DocDraws) returns (t: Trace, sent: seq<Request>)
      modifies this
      ensures t == DocTrace(doc, d)
      ensures sent == Requests(t.points)
      ensures Counts() == Tally(old(Counts()), Answers(|sent|, d.net))
    {
      if d.copyPaste {
        t := Trace([doc], [], Done);
        sent := Check(doc, d.net(0), d.net(1));
        assert Answers(2, d.net) == [d.net(0), d.net(1)];
      } else {
        t := TypeDocument(doc, d.keys);
        sent := CheckAll(t.points, d.net);
      }
    }

    /** The inner loop of run: every document in order, from the counters as
        they are; a pass that throws or runs out of draws ends the run. */
    method RunOverDocs(docs: seq<string>, ds: seq<DocDraws>) returns (status: Status)
      requires |ds| == |docs|
      modifies this
      ensures (Counts(), status) == Pass(docs, ds, old(Counts()))
    {
      var j := 0;
      while j < |docs|
        invariant 0 <= j <= |docs|
        invariant Pass(docs, ds, old(Counts())) == Pass(docs[j..], ds[j..], Counts())
      {
        PassOnce(docs[j..], ds[j..], Counts());
        var t, sent := RunOnDoc(docs[j], ds[j]);
        if t.status != Done {
          return t.status;
        }
        assert docs[j..][1..] == docs[j + 1..] && ds[j..][1..] == ds[j + 1..];
        j := j + 1;
      }
      assert docs[j..] == [] && ds[j..] == [];
      status := Done;
    }

    /** run: maxRuns runs over all documents, each from zeroed counters,
        collecting each run's total time; the totals are sorted at the end. */
    method Run(docs: seq<string>, draws: seq<seq<DocDraws>>) returns (totalTimes: seq<int>, status: Status)
      requires |draws| == MaxRuns && Shaped(docs, draws)
      modifies this
      ensures status == Done <==> forall q :: 0 <= q < MaxRuns ==> Results(docs, draws)[q].1 == Done
      // a run that throws ends the benchmark: the status is that of the first run that did not complete
      ensures status != Done ==>
        totalTimes == [] &&
        exists q :: 0 <= q < MaxRuns && Results(docs, draws)[q].1 == status &&
          forall p :: 0 <= p < q ==> Results(docs, draws)[p].1 == Done
      ensures status == Done ==>
        |totalTimes| == MaxRuns && Ascending(totalTimes) &&
        multiset(totalTimes) == multiset(Totals(docs, draws)) &&
        Counts() == Results(docs, draws)[MaxRuns - 1].0
    {
      ghost var rs := Results(docs, draws);
      var totals: seq<int> := [];
      var r := 0;
      while r < MaxRuns
        invariant 0 <= r <= MaxRuns
        invariant totals == Totals(docs, draws[..r])
        invariant forall q :: 0 <= q < r ==> rs[q].1 == Done
        invariant r > 0 ==> Counts() == rs[r - 1].0
      {
        totalChecks := 0;
        totalTime := 0;
        totalChecksSkipped := 0;
        assert Counts() == Zero;
        var passed := RunOverDocs(docs, draws[r]);
        assert rs[r] == (Counts(), passed);
        if passed != Done {
          return [], passed;
        }
        DoneExtends(rs, r);
        TotalsNext(docs, draws, r);
        totals := totals + [totalTime];
        r := r + 1;
      }
      assert draws[..r] == draws;
      totalTimes := SortAscending(totals);
      status := Done;
    }
  }
}
