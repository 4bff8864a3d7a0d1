/** The keystroke state machine of TypingSimulator.runOnDoc: one pass of a
    simulated user over one document. Every random draw and every clock
    reading the loop makes is an explicit input (a Keystroke per iteration),
    so the pass is a deterministic function of the document and the draws. */
module Typing {

  /** checkAtMostEveryMillis: a throttled check fires only after this many milliseconds. */
  const CheckAtMostEveryMillis: int := 10
  /** minWaitMillis: fixed offset added to every pause between keystrokes. */
  const MinWaitMillis: int := 0
  /** The character a mis-keystroke inserts. */
  const TypoChar: char := 'x'

  datatype Option<T> = None | Some(value: T)

  /** What one iteration of the typing loop draws and reads:
      typo      -- the typo draw came out below typoProb
      insertX   -- the coin deciding between an inserted and a dropped character (read only on a typo)
      backspace -- the backspace draw came out below backSpaceProb
      now       -- the clock reading that decides the throttle
      after     -- the clock reading stored as the time of the last check
      waitDraws -- the rounded Gaussian draws of the pause, in order */
  datatype Keystroke = Keystroke(
    typo: bool,
    insertX: bool,
    backspace: bool,
    now: int,
    after: int,
    waitDraws: seq<int>)

  /** The loop's variables at the head of an iteration: the StringBuilder's
      text, the document cursor and the time of the last throttled check.
      Text is a sequence of Dafny chars (Unicode scalar values), where Java
      counts and indexes UTF-16 code units. */
  datatype State = State(buffer: string, i: nat, lastCheck: int)

  const Start := State([], 0, 0)

  /** How a pass ends: the cursor ran off the document; a deletion from an
      empty buffer threw StringIndexOutOfBoundsException; or the supplied
      draws ran out before the pass ended. */
  datatype Status = Done | IndexOutOfBounds | DrawsExhausted

  /** The check points a pass emits (in order), the pauses it takes, and how it ends. */
  datatype Trace = Trace(points: seq<string>, sleeps: seq<int>, status: Status)

  datatype StepResult =
    | Continue(emitted: seq<string>, sleep: int, next: State)
    | Halt(emitted: seq<string>, status: Status)

  function Last(s: seq<string>): string
    requires s != []
  {
    s[|s| - 1]
  }

  /** The pause loop: the first strictly positive draw, if there is one. */
  function FirstPositive(draws: seq<int>): (r: Option<int>)
    ensures r.Some? ==> r.value >= 1
    ensures r.Some? ==> exists j :: 0 <= j < |draws| && draws[j] == r.value &&
                                    forall m :: 0 <= m < j ==> draws[m] <= 0
    ensures r.None? <==> forall j :: 0 <= j < |draws| ==> draws[j] <= 0
  {
    if draws == [] then None
    else if draws[0] > 0 then Some(draws[0])
    else
      var r := FirstPositive(draws[1..]);
      assert forall j :: 1 <= j < |draws| ==> draws[j] == draws[1..][j - 1];
      r
  }

  /** The optional typo: a mis-keystroke appends 'x'; a dropped keystroke
      removes the last character, and only from a non-empty buffer. */
  function Typo(sb: string, k: Keystroke): (r: string)
    ensures r == sb || r == sb + [TypoChar] || (|sb| > 0 && r == sb[..|sb| - 1])
    ensures r == sb + [TypoChar] <==> k.typo && k.insertX
    ensures |r| < |sb| <==> k.typo && !k.insertX && |sb| > 0
    ensures !k.typo ==> r == sb
  {
    if !k.typo then sb
    else if k.insertX then sb + [TypoChar]
    else if |sb| > 0 then sb[..|sb| - 1]
    else sb
  }

  /** Whether the iteration takes the backspace branch: the guard is on the
      cursor, not on the length of the buffer. */
  predicate Backspaces(s: State, k: Keystroke)
  {
    k.backspace && s.i > 2
  }

  /** One iteration of the typing loop, from the typo draw to the pause. */
  function Step(doc: string, s: State, k: Keystroke): (r: StepResult)
    requires s.i < |doc|
    ensures r.Continue? ==> r.next.i <= |doc|
  {
    var typed := Typo(s.buffer, k);
    if Backspaces(s, k) && |typed| == 0 then Halt([], IndexOutOfBounds)
    else
      var back := Backspaces(s, k);
      var sb := if back then typed[..|typed| - 1] else typed + [doc[s.i]];
      var i: int := if back then s.i - 2 else s.i;
      var fires := k.now - s.lastCheck > CheckAtMostEveryMillis || i == |doc| - 1;
      var emitted := (if back then [sb] else []) + (if fires then [sb] else []);
      match FirstPositive(k.waitDraws)
      case None => Halt(emitted, DrawsExhausted)
      case Some(w) => Continue(emitted, MinWaitMillis + w, State(sb, i + 1, if fires then k.after else s.lastCheck))
  }
  /** What one iteration of the typing loop does. */
  lemma StepSpec(doc: string, s: State, k: Keystroke, r: StepResult)
    requires s.i < |doc| && r == Step(doc, s, k)
    // the deletion at the backspace throws exactly when the typo left nothing to delete,
    // and it throws before anything of this iteration is checked
    ensures r.Halt? && r.status == IndexOutOfBounds <==> Backspaces(s, k) && |Typo(s.buffer, k)| == 0
    ensures r.Halt? && r.status == IndexOutOfBounds ==> r.emitted == []
    ensures r.Halt? ==> r.status != Done
    ensures r.Halt? && r.status == DrawsExhausted ==> FirstPositive(k.waitDraws).None?
    // a backspace removes exactly one character and moves the cursor back to i - 1, never below 2
    ensures r.Continue? && Backspaces(s, k) ==>
      r.next.i == s.i - 1 >= 2 &&
      |r.next.buffer| + 1 == |Typo(s.buffer, k)| && r.next.buffer <= Typo(s.buffer, k)
    // otherwise the document's character is appended and the cursor moves on
    ensures r.Continue? && !Backspaces(s, k) ==>
      r.next.i == s.i + 1 && r.next.buffer == Typo(s.buffer, k) + [doc[s.i]]
    // a backspace emits the shortened buffer; a throttled check emits the new buffer
    // when the clock moved on by more than the interval or the last character was typed
    ensures r.Continue? ==>
      var fires := k.now - s.lastCheck > CheckAtMostEveryMillis || r.next.i == |doc|;
      r.emitted == (if Backspaces(s, k) then [r.next.buffer] else []) + (if fires then [r.next.buffer] else []) &&
      r.next.lastCheck == (if fires then k.after else s.lastCheck)
    // the pause is minWaitMillis plus the first positive draw
    ensures r.Continue? ==>
      FirstPositive(k.waitDraws).Some? && r.sleep == MinWaitMillis + FirstPositive(k.waitDraws).value
    ensures r.Continue? ==> r.sleep >= MinWaitMillis + 1
  {
  }


  function Prefixed(points: seq<string>, sleeps: seq<int>, t: Trace): Trace
  {
    Trace(points + t.points, sleeps + t.sleeps, t.status)
  }

  /** The typing loop from state s, one keystroke per iteration. */
  function Simulate(doc: string, s: State, keys: seq<Keystroke>): (t: Trace)
    requires s.i <= |doc|
    decreases |keys|
  {
    if s.i == |doc| then Trace([], [], Done)
    else if keys == [] then Trace([], [], DrawsExhausted)
    else
      match Step(doc, s, keys[0])
      case Halt(emitted, status) => Trace(emitted, [], status)
      case Continue(emitted, w, next) => Prefixed(emitted, [w], Simulate(doc, next, keys[1..]))
  }

  /** The do/while loop of the pause: draws until one is positive. */
  method DrawWait(draws: seq<int>) returns (waitMillis: int, found: bool)
    ensures found <==> exists j :: 0 <= j < |draws| && draws[j] > 0
    ensures found ==> waitMillis >= 1 && FirstPositive(draws) == Some(waitMillis)
    ensures !found ==> FirstPositive(draws) == None
  {
    var n := 0;
    waitMillis := 0;
    while waitMillis <= 0 && n < |draws|
      invariant 0 <= n <= |draws|
      invariant waitMillis <= 0 ==> forall m :: 0 <= m < n ==> draws[m] <= 0
      invariant waitMillis > 0 ==> 0 < n && FirstPositive(draws) == Some(waitMillis)
      decreases |draws| - n
    {
      waitMillis := draws[n];
      n := n + 1;
      if waitMillis > 0 {
        FirstPositiveAt(draws, n - 1);
      }
    }
    found := waitMillis > 0;
  }

  lemma {:induction false} FirstPositiveAt(draws: seq<int>, j: nat)
    requires j < |draws| && draws[j] > 0
    requires forall m :: 0 <= m < j ==> draws[m] <= 0
    ensures FirstPositive(draws) == Some(draws[j])
    decreases j
  {
    if j > 0 {
      FirstPositiveAt(draws[1..], j - 1);
    }
  }

  lemma PrefixedTwice(p: seq<string>, w: seq<int>, p': seq<string>, w': seq<int>, t: Trace)
    ensures Prefixed(p, w, Prefixed(p', w', t)) == Prefixed(p + p', w + w', t)
  {
    assert p + (p' + t.points) == (p + p') + t.points;
    assert w + (w' + t.sleeps) == (w + w') + t.sleeps;
  }

  /** Simulate unrolled by one iteration. */
  lemma SimulateOnce(doc: string, s: State, keys: seq<Keystroke>)
    requires s.i < |doc| && keys != []
    ensures Simulate(doc, s, keys) ==
      match Step(doc, s, keys[0])
      case Halt(emitted, status) => Trace(emitted, [], status)
      case Continue(emitted, w, next) => Prefixed(emitted, [w], Simulate(doc, next, keys[1..]))
  {
  }

  /** Simulate from the n-th keystroke, unrolled by the iteration that computed r. */
  lemma SimulateKey(doc: string, s: State, keys: seq<Keystroke>, n: nat, r: StepResult)
    requires s.i < |doc| && n < |keys| && r == Step(doc, s, keys[n])
    ensures r.Halt? ==> Simulate(doc, s, keys[n..]) == Trace(r.emitted, [], r.status)
    ensures r.Continue? ==> Simulate(doc, s, keys[n..]) == Prefixed(r.emitted, [r.sleep], Simulate(doc, r.next, keys[n + 1..]))
  {
    assert keys[n..][0] == keys[n] && keys[n..][1..] == keys[n + 1..];
    SimulateOnce(doc, s, keys[n..]);
  }

  /** The typo a keystroke may make: an inserted 'x' or a dropped last character.
      This is the first statement of TypeKey, kept as a method of its own so
      that the proof of TypeKey need not reason about Typo's three cases. */
  method MakeTypo(buffer: string, k: Keystroke) returns (sb: string)
    ensures sb == Typo(buffer, k)
  {
    sb := buffer;
    if k.typo {
      if k.insertX {
        sb := sb + [TypoChar];
      } else if |sb| > 0 {
        sb := sb[..|sb| - 1];
      }
    }
  }

  /** The body of runOnDoc's typing loop: edits the buffer, emits the check
      points of this keystroke and pauses. */
  method TypeKey(doc: string, buffer: string, i: nat, lastCheck: int, k: Keystroke) returns (r: StepResult)
    requires i < |doc|
    ensures r == Step(doc, State(buffer, i, lastCheck), k)
  {
    ghost var s := State(buffer, i, lastCheck);
    var sb, cursor, last := buffer, i as int, lastCheck;
    var emitted: seq<string> := [];
    sb := MakeTypo(sb, k);
    if k.backspace && cursor > 2 {
      if |sb| == 0 {
        return Halt([], IndexOutOfBounds);
      }
      sb := sb[..|sb| - 1];
      emitted := emitted + [sb];
      cursor := cursor - 2;
    } else {
      sb := sb + [doc[cursor]];
    }
    if k.now - last > CheckAtMostEveryMillis || cursor == |doc| - 1 {
      emitted := emitted + [sb];
      last := k.after;
    }
    var waitMillis, found := DrawWait(k.waitDraws);
    if !found {
      return Halt(emitted, DrawsExhausted);
    }
    r := Continue(emitted, MinWaitMillis + waitMillis, State(sb, cursor + 1, last));
  }

  /** runOnDoc's typing loop: one keystroke per iteration until the cursor
      passes the end of the document. */
  method TypeDocument(doc: string, keys: seq<Keystroke>) returns (t: Trace)
    ensures t == Simulate(doc, Start, keys)
  {
    var lastCheck := 0;
    var sb: string := [];
    var i: nat := 0;
    var points: seq<string> := [];
    var sleeps: seq<int> := [];
    var n := 0;
    while i < |doc|
      invariant n <= |keys| && i <= |doc|
      invariant Simulate(doc, Start, keys) == Prefixed(points, sleeps, Simulate(doc, State(sb, i, lastCheck), keys[n..]))
      decreases |keys| - n
    {
      if n == |keys| {
        return Trace(points, sleeps, DrawsExhausted);
      }
      var r := TypeKey(doc, sb, i, lastCheck, keys[n]);
      SimulateKey(doc, State(sb, i, lastCheck), keys, n, r);
      n := n + 1;
      match r
      case Halt(emitted, status) =>
        assert sleeps + [] == sleeps;
        return Trace(points + emitted, sleeps, status);
      case Continue(emitted, w, next) =>
        PrefixedTwice(points, sleeps, emitted, [w], Simulate(doc, next, keys[n..]));
        points, sleeps := points + emitted, sleeps + [w];
        sb, i, lastCheck := next.buffer, next.i, next.lastCheck;
    }
    t := Trace(points, sleeps, Done);
  }

  /** Every pause of a pass is at least minWaitMillis + 1, and a pass
      takes at most one pause and emits at most two check points per keystroke. */
  lemma {:induction false} SimulateBounds(doc: string, s: State, keys: seq<Keystroke>)
    requires s.i <= |doc|
    ensures var t := Simulate(doc, s, keys);
      |t.sleeps| <= |keys| && |t.points| <= 2 * |keys| &&
      forall j :: 0 <= j < |t.sleeps| ==> t.sleeps[j] >= MinWaitMillis + 1
    decreases |keys|
  {
    if s.i < |doc| && keys != [] {
      var r := Step(doc, s, keys[0]);
      if r.Continue? {
        SimulateBounds(doc, r.next, keys[1..]);
      }
    }
  }

  predicate NoTypos(keys: seq<Keystroke>)
  {
    forall j :: 0 <= j < |keys| ==> !keys[j].typo
  }

  /** Without a typo the buffer at the head of an iteration is the
      document up to the cursor, and stays so after the iteration. */
  lemma NoTypoStep(doc: string, s: State, k: Keystroke)
    requires s.i < |doc| && s.buffer == doc[..s.i] && !k.typo
    ensures Step(doc, s, k).Halt? ==> Step(doc, s, k).status == DrawsExhausted
    ensures Step(doc, s, k).Continue? ==> Step(doc, s, k).next.buffer == doc[..Step(doc, s, k).next.i]
    ensures forall j :: 0 <= j < |Step(doc, s, k).emitted| ==> Step(doc, s, k).emitted[j] <= doc
  {
    var r := Step(doc, s, k);
    if Backspaces(s, k) {
      assert |s.buffer| == s.i > 2;
      if r.Continue? {
        assert r.next.buffer == doc[..s.i - 1];
      }
    } else if r.Continue? {
      assert r.next.buffer == doc[..s.i + 1];
    }
  }

  /** With typos switched off a pass never throws, every check point is a
      prefix of the document, and a completed pass ends with a check point
      holding exactly the document. */
  lemma {:induction false} NoTyposTypesDocument(doc: string, s: State, keys: seq<Keystroke>)
    requires s.i <= |doc| && s.buffer == doc[..s.i] && NoTypos(keys)
    ensures var t := Simulate(doc, s, keys);
      t.status != IndexOutOfBounds &&
      (forall j :: 0 <= j < |t.points| ==> t.points[j] <= doc) &&
      (t.status == Done && s.i < |doc| ==> t.points != [] && Last(t.points) == doc)
    decreases |keys|
  {
    if s.i < |doc| && keys != [] {
      var r := Step(doc, s, keys[0]);
      NoTypoStep(doc, s, keys[0]);
      if r.Continue? {
        assert NoTypos(keys[1..]) by {
          forall j | 0 <= j < |keys| - 1 ensures !keys[1..][j].typo {
            assert keys[1..][j] == keys[j + 1];
          }
        }
        NoTyposTypesDocument(doc, r.next, keys[1..]);
        var t := Simulate(doc, r.next, keys[1..]);
        assert Simulate(doc, s, keys) == Prefixed(r.emitted, [r.sleep], t);
        if r.next.i == |doc| {
          assert r.emitted[|r.emitted| - 1] == r.next.buffer == doc;
        }
      }
    }
  }

  /** The check points of a pass that checks after every keystroke. */
  function Prefixes(doc: string, from: nat): (r: seq<string>)
    requires from <= |doc|
    ensures |r| == |doc| - from
    ensures forall j :: 0 <= j < |r| ==> r[j] == doc[..from + j + 1]
    decreases |doc| - from
  {
    if from == |doc| then [] else [doc[..from + 1]] + Prefixes(doc, from + 1)
  }

  /** Each keystroke reads the clock more than the throttle interval after the previous check. */
  predicate AlwaysDue(keys: seq<Keystroke>, lastCheck: int)
    decreases |keys|
  {
    keys != [] ==>
      keys[0].now - lastCheck > CheckAtMostEveryMillis && AlwaysDue(keys[1..], keys[0].after)
  }

  /** With typos and backspaces switched off, the clock always past the
      throttle interval and every pause drawn, a pass emits one check point
      per character: the document's prefixes, in order, the last being the
      whole document. */
  lemma {:induction false} CheckEveryKeystroke(doc: string, s: State, keys: seq<Keystroke>)
    requires s.i <= |doc| && s.buffer == doc[..s.i]
    requires |keys| >= |doc| - s.i && AlwaysDue(keys, s.lastCheck)
    requires forall j :: 0 <= j < |keys| ==>
      !keys[j].typo && !keys[j].backspace && FirstPositive(keys[j].waitDraws).Some?
    ensures Simulate(doc, s, keys).status == Done
    ensures Simulate(doc, s, keys).points == Prefixes(doc, s.i)
    decreases |keys|
  {
    if s.i < |doc| {
      var k := keys[0];
      var r := Step(doc, s, k);
      assert r.Continue? && r.next.buffer == doc[..s.i + 1];
      assert r.emitted == [doc[..s.i + 1]];
      assert forall j :: 0 <= j < |keys| - 1 ==> keys[1..][j] == keys[j + 1];
      CheckEveryKeystroke(doc, r.next, keys[1..]);
    }
  }

  /** The deletion of the backspace branch is guarded by the cursor only:
      three dropped keystrokes empty the buffer of "abcd", and a backspace at
      the fourth character then deletes from an empty buffer. */
  lemma BackspaceOnEmptyBufferThrows()
    ensures
      var drop := Keystroke(true, false, false, 0, 0, [1]);
      var dropThenBackspace := Keystroke(true, false, true, 0, 0, [1]);
      Simulate("abcd", Start, [drop, drop, drop, dropThenBackspace]) == Trace([], [1, 1, 1], IndexOutOfBounds)
  {
    var drop := Keystroke(true, false, false, 0, 0, [1]);
    var dropThenBackspace := Keystroke(true, false, true, 0, 0, [1]);
    var doc := "abcd";
    var k3, s2 := [dropThenBackspace], State("c", 3, 0);
    var k2, s1 := [drop] + k3, State("b", 2, 0);
    var k1, s0 := [drop] + k2, State("a", 1, 0);
    var k0 := [drop] + k1;
    assert FirstPositive([1]) == Some(1);
    assert Step(doc, s2, dropThenBackspace) == Halt([], IndexOutOfBounds);
    SimulateOnce(doc, s2, k3);
    assert Step(doc, s1, drop) == Continue([], 1, s2);
    assert k2[1..] == k3;
    SimulateOnce(doc, s1, k2);
    assert Simulate(doc, s1, k2) == Trace([], [1], IndexOutOfBounds);
    assert Step(doc, s0, drop) == Continue([], 1, s1);
    assert k1[1..] == k2;
    SimulateOnce(doc, s0, k1);
    assert Simulate(doc, s0, k1) == Trace([], [1, 1], IndexOutOfBounds);
    assert Step(doc, Start, drop) == Continue([], 1, s0);
    assert k0[1..] == k1;
    SimulateOnce(doc, Start, k0);
    assert k0 == [drop, drop, drop, dropThenBackspace];
  }
}
