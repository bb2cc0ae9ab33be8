/** A K-tape machine assembled from description lines: `Key: Value` header lines and
    domain/range line pairs, with its tape library inferred from the transitions. */
module Machines {
  import opened Text
  import opened Exceptions
  import opened Transitions

  // ---------------------------------------------------------------------------
  // Tape library inference
  // ---------------------------------------------------------------------------

  /** Every read symbol of the transitions: transition by transition, position by position. */
  function AllParameters(ts: seq<TransitionFunction>): seq<string> {
    if ts == [] then [] else AllParameters(ts[..|ts| - 1]) + ts[|ts| - 1].Parameters
  }

  /** The first occurrence of every element of `xs`, in the order of `xs`. */
  function Distinct(xs: seq<string>): seq<string> {
    if xs == [] then []
    else
      var d := Distinct(xs[..|xs| - 1]);
      if xs[|xs| - 1] in d then d else d + [xs[|xs| - 1]]
  }

  /** Distinct over one more element of a growing prefix of `ps`. */
  lemma DistinctStep(before: seq<string>, ps: seq<string>, j: nat)
    requires j < |ps|
    ensures var d := Distinct(before + ps[..j]);
      Distinct(before + ps[..j + 1]) == if ps[j] in d then d else d + [ps[j]]
  {
    assert (before + ps[..j + 1])[..|before| + j] == before + ps[..j];
  }

  /** AllParameters over one more transition of a growing prefix of `ts`. */
  lemma AllParametersStep(ts: seq<TransitionFunction>, i: nat)
    requires i < |ts|
    ensures AllParameters(ts[..i + 1]) == AllParameters(ts[..i]) + ts[i].Parameters[..|ts[i].Parameters|]
  {
    assert ts[..i + 1][..i] == ts[..i];
    assert ts[i].Parameters[..|ts[i].Parameters|] == ts[i].Parameters;
  }

  /** The tape library of a transition set. */
  function TapeLibraryOf(ts: seq<TransitionFunction>): seq<string> {
    Distinct(AllParameters(ts))
  }

  /** Distinct keeps exactly the elements of its input. */
  lemma {:induction false} DistinctMembers(xs: seq<string>)
    ensures forall x :: x in Distinct(xs) <==> x in xs
  {
    if xs != [] {
      DistinctMembers(xs[..|xs| - 1]);
      assert xs == xs[..|xs| - 1] + [xs[|xs| - 1]];
    }
  }

  /** Distinct holds no element twice. */
  lemma {:induction false} DistinctHasNoDuplicates(xs: seq<string>)
    ensures forall i, j :: 0 <= i < j < |Distinct(xs)| ==> Distinct(xs)[i] != Distinct(xs)[j]
  {
    if xs != [] {
      DistinctHasNoDuplicates(xs[..|xs| - 1]);
    }
  }

  /** An element's first position does not move when the sequence grows at its end. */
  lemma {:induction false} IndexOfExtended(xs: seq<string>, ys: seq<string>, y: string)
    requires y in xs
    ensures IndexOf(xs + ys, y) == IndexOf(xs, y)
  {
    if xs[0] != y {
      assert (xs + ys)[1..] == xs[1..] + ys;
      IndexOfExtended(xs[1..], ys, y);
    }
  }

  /** Distinct lists the elements in the order of their first occurrence. */
  lemma {:induction false} DistinctFirstSeenOrder(xs: seq<string>)
    ensures forall i, j :: 0 <= i < j < |Distinct(xs)| ==>
      IndexOf(xs, Distinct(xs)[i]) < IndexOf(xs, Distinct(xs)[j])
  {
    if xs != [] {
      var init, x := xs[..|xs| - 1], xs[|xs| - 1];
      var d := Distinct(init);
      DistinctFirstSeenOrder(init);
      DistinctMembers(init);
      assert xs == init + [x];
      forall y | y in init
        ensures IndexOf(xs, y) == IndexOf(init, y)
      {
        IndexOfExtended(init, [x], y);
      }
      if x !in d {
        assert IndexOf(xs, x) == |init| by {
          assert x !in init;
          assert xs[|init|] == x;
        }
        forall i | 0 <= i < |d|
          ensures IndexOf(xs, d[i]) < IndexOf(xs, x)
        {
          assert d[i] in init;
        }
      } else {
        forall i | 0 <= i < |d|
          ensures IndexOf(xs, d[i]) == IndexOf(init, d[i])
        {
          assert d[i] in init;
        }
      }
    }
  }

  /** A symbol is read by some transition exactly when it is one of AllParameters. */
  lemma {:induction false} AllParametersMembers(ts: seq<TransitionFunction>, x: string)
    ensures x in AllParameters(ts) <==> exists k :: 0 <= k < |ts| && x in ts[k].Parameters
  {
    if ts != [] {
      var init := ts[..|ts| - 1];
      AllParametersMembers(init, x);
      if x in ts[|ts| - 1].Parameters {
        assert 0 <= |ts| - 1 < |ts| && x in ts[|ts| - 1].Parameters;
      }
      if exists k :: 0 <= k < |ts| && x in ts[k].Parameters {
        var k :| 0 <= k < |ts| && x in ts[k].Parameters;
        if k < |ts| - 1 {
          assert init[k] == ts[k];
        }
      }
    }
  }

  /** The tape library: the read symbols of the transitions, each once, in first-seen
      order; a write symbol is in it only when some transition also reads it. */
  lemma TapeLibraryIsDistinctReadSymbols(ts: seq<TransitionFunction>)
    ensures forall x :: x in TapeLibraryOf(ts) <==> exists k :: 0 <= k < |ts| && x in ts[k].Parameters
    ensures forall i, j :: 0 <= i < j < |TapeLibraryOf(ts)| ==> TapeLibraryOf(ts)[i] != TapeLibraryOf(ts)[j]
    ensures forall i, j :: 0 <= i < j < |TapeLibraryOf(ts)| ==>
      IndexOf(AllParameters(ts), TapeLibraryOf(ts)[i]) < IndexOf(AllParameters(ts), TapeLibraryOf(ts)[j])
  {
    DistinctMembers(AllParameters(ts));
    DistinctHasNoDuplicates(AllParameters(ts));
    DistinctFirstSeenOrder(AllParameters(ts));
    forall x
      ensures x in AllParameters(ts) <==> exists k :: 0 <= k < |ts| && x in ts[k].Parameters
    {
      AllParametersMembers(ts, x);
    }
  }

  // ---------------------------------------------------------------------------
  // Reading the description lines
  // ---------------------------------------------------------------------------

  /** A line holding ':' carries machine information. */
  predicate IsHeader(line: string) {
    ':' in line
  }

  /** The text before the first ':'. */
  function HeaderKey(line: string): string
    requires IsHeader(line)
  {
    Split(line, ':')[0]
  }

  /** The text between the first and the second ':' (or the end of the line). */
  function HeaderValue(line: string): string
    requires IsHeader(line)
  {
    Split(line, ':')[1]
  }

  /** The loop variables of BuildTuringMachine: mapKeyVals, szPrevLine and lstTransitionSet. */
  datatype Scan = Scan(keyVals: map<string, string>, prevLine: string, transitionSet: seq<TransitionFunction>)

  /** One line of input: a header is added to the map; otherwise the line becomes the range
      line of the pending domain line when that is not blank, or else the pending line. */
  function Step(s: Scan, line: string): Result<Scan> {
    if IsHeader(line) then
      if HeaderKey(line) in s.keyVals then Threw(DuplicateKey(HeaderKey(line)))
      else Returned(s.(keyVals := s.keyVals[HeaderKey(line) := HeaderValue(line)]))
    else if !IsBlank(s.prevLine) then
      match Parse(s.prevLine, line)
      case Threw(e) => Threw(e)
      case Returned(tf) =>
        Returned(Scan(s.keyVals, "", if tf.IsGood then s.transitionSet + [tf] else s.transitionSet))
    else
      Returned(s.(prevLine := line))
  }

  /** The loop variables after reading all of `lines`, or the first exception raised. */
  function ScanLines(lines: seq<string>): Result<Scan> {
    if lines == [] then Returned(Scan(map[], "", []))
    else
      match ScanLines(lines[..|lines| - 1])
      case Threw(e) => Threw(e)
      case Returned(s) => Step(s, lines[|lines| - 1])
  }

  /** An exception ends the reading: later lines do not change it. */
  lemma {:induction false} ScanFailureSticks(lines: seq<string>, n: nat)
    requires n <= |lines| && ScanLines(lines[..n]).Threw?
    ensures ScanLines(lines) == ScanLines(lines[..n])
    decreases |lines| - n
  {
    if n < |lines| {
      assert lines[..n + 1][..n] == lines[..n];
      ScanFailureSticks(lines, n + 1);
    } else {
      assert lines[..n] == lines;
    }
  }

  /** The lines that are not headers, in order. */
  function TransitionLines(lines: seq<string>): (r: seq<string>)
    ensures forall line :: line in r ==> line in lines && !IsHeader(line)
  {
    if lines == [] then []
    else
      var t := TransitionLines(lines[..|lines| - 1]);
      if IsHeader(lines[|lines| - 1]) then t else t + [lines[|lines| - 1]]
  }

  /** Domain/range pairs: transition lines 2j and 2j + 1, a last odd line left over. */
  function Pairs(ls: seq<string>): (r: seq<(string, string)>)
  {
    seq(|ls| / 2, j requires 0 <= j < |ls| / 2 => (ls[2 * j], ls[2 * j + 1]))
  }

  /** The transitions of the pairs that parse with IsGood set, in order. */
  function Accepted(pairs: seq<(string, string)>): seq<TransitionFunction> {
    if pairs == [] then []
    else
      var a := Accepted(pairs[..|pairs| - 1]);
      var p := Parse(pairs[|pairs| - 1].0, pairs[|pairs| - 1].1);
      if p.Returned? && p.value.IsGood then a + [p.value] else a
  }

  /** Accepted over one more pair. */
  lemma AcceptedAppend(pairs: seq<(string, string)>, last: (string, string))
    ensures var p := Parse(last.0, last.1);
      Accepted(pairs + [last]) ==
        if p.Returned? && p.value.IsGood then Accepted(pairs) + [p.value] else Accepted(pairs)
  {
    assert (pairs + [last])[..|pairs|] == pairs;
  }

  /** The pending line after reading the transition lines `t`: the odd last one, if any. */
  function Pending(t: seq<string>): string {
    if |t| % 2 == 1 then t[|t| - 1] else ""
  }

  /** A line that is not a header, read while a domain line is pending, completes a pair. */
  lemma StepPendingLine(s: Scan, x: string)
    requires !IsHeader(x) && !IsBlank(s.prevLine) && Step(s, x).Returned?
    ensures var p := Parse(s.prevLine, x);
      && p.Returned?
      && Step(s, x) == Returned(Scan(s.keyVals, "", if p.value.IsGood then s.transitionSet + [p.value] else s.transitionSet))
  {
  }

  /** An odd transition line completes a pair with the one before it. */
  lemma PairsAppendOdd(t: seq<string>, x: string)
    requires |t| % 2 == 1
    ensures Pairs(t + [x]) == Pairs(t) + [(t[|t| - 1], x)]
  {
    var t' := t + [x];
    var m := |t| / 2;
    assert |t| == 2 * m + 1 && |t'| / 2 == m + 1;
    assert Pairs(t')[..m] == Pairs(t);
    assert Pairs(t')[m] == (t'[2 * m], t'[2 * m + 1]);
  }

  /** An even transition line starts a new pair, which is not complete yet. */
  lemma PairsAppendEven(t: seq<string>, x: string)
    requires |t| % 2 == 0
    ensures Pairs(t + [x]) == Pairs(t)
  {
    assert |t + [x]| / 2 == |t| / 2;
  }

  /** One transition line read in a state that agrees with the pairing of `t` leaves a state
      that agrees with the pairing of `t` extended by that line. */
  lemma StepPairsTransitionLine(s: Scan, t: seq<string>, x: string)
    requires s.transitionSet == Accepted(Pairs(t)) && s.prevLine == Pending(t)
    requires |t| % 2 == 1 ==> !IsBlank(t[|t| - 1])
    requires !IsHeader(x) && Step(s, x).Returned?
    ensures Step(s, x).value.transitionSet == Accepted(Pairs(t + [x]))
    ensures Step(s, x).value.prevLine == Pending(t + [x])
  {
    if |t| % 2 == 1 {
      PairsAppendOdd(t, x);
      AcceptedAppend(Pairs(t), (t[|t| - 1], x));
      StepPendingLine(s, x);
    } else {
      PairsAppendEven(t, x);
      assert IsBlank(s.prevLine);
    }
  }

  /** When no transition line is blank, the lines that are not headers pair up in order,
      headers in between leaving the pending line alone; the transition set holds the
      accepted pairs, and an odd last transition line is still pending at the end. */
  lemma {:induction false} ScanPairsTransitionLines(lines: seq<string>)
    requires ScanLines(lines).Returned?
    requires forall line :: line in lines && !IsHeader(line) ==> !IsBlank(line)
    ensures ScanLines(lines).value.transitionSet == Accepted(Pairs(TransitionLines(lines)))
    ensures ScanLines(lines).value.prevLine == Pending(TransitionLines(lines))
  {
    if lines != [] {
      var init, x := lines[..|lines| - 1], lines[|lines| - 1];
      ScanPairsTransitionLines(init);
      var t0 := TransitionLines(init);
      var s0 := ScanLines(init).value;
      assert ScanLines(lines) == Step(s0, x);
      if !IsHeader(x) {
        assert |t0| % 2 == 1 ==> t0[|t0| - 1] in init;
        StepPairsTransitionLine(s0, t0, x);
      }
    }
  }

  /** What the last line does to the map: a header adds its key, which was not there yet;
      any other line leaves the map alone. */
  lemma ScanLinesKeyVals(lines: seq<string>)
    requires lines != [] && ScanLines(lines).Returned?
    ensures ScanLines(lines[..|lines| - 1]).Returned?
    ensures var m0 := ScanLines(lines[..|lines| - 1]).value.keyVals;
      var m := ScanLines(lines).value.keyVals;
      var x := lines[|lines| - 1];
      && (IsHeader(x) ==> HeaderKey(x) !in m0 && m == m0[HeaderKey(x) := HeaderValue(x)])
      && (!IsHeader(x) ==> m == m0)
  {
  }

  /** Every header line's key is in the map, with the value of that line. */
  lemma {:induction false} ScanHeadersMapped(lines: seq<string>)
    requires ScanLines(lines).Returned?
    ensures var m := ScanLines(lines).value.keyVals;
      forall k :: 0 <= k < |lines| && IsHeader(lines[k]) ==>
        HeaderKey(lines[k]) in m && m[HeaderKey(lines[k])] == HeaderValue(lines[k])
  {
    if lines != [] {
      var init := lines[..|lines| - 1];
      ScanLinesKeyVals(lines);
      ScanHeadersMapped(init);
      assert forall k :: 0 <= k < |init| ==> lines[k] == init[k];
    }
  }

  /** The map holds no key that is not the key of some header line. */
  lemma {:induction false} ScanHeadersOnly(lines: seq<string>)
    requires ScanLines(lines).Returned?
    ensures var m := ScanLines(lines).value.keyVals;
      forall key :: key in m ==> exists k :: 0 <= k < |lines| && IsHeader(lines[k]) && HeaderKey(lines[k]) == key
  {
    if lines != [] {
      var init, x := lines[..|lines| - 1], lines[|lines| - 1];
      ScanLinesKeyVals(lines);
      ScanHeadersOnly(init);
      var m0 := ScanLines(init).value.keyVals;
      forall key | key in ScanLines(lines).value.keyVals
        ensures exists k :: 0 <= k < |lines| && IsHeader(lines[k]) && HeaderKey(lines[k]) == key
      {
        if key in m0 {
          var k :| 0 <= k < |init| && IsHeader(init[k]) && HeaderKey(init[k]) == key;
          assert lines[k] == init[k];
        } else {
          assert IsHeader(x) && HeaderKey(lines[|lines| - 1]) == key;
        }
      }
    }
  }

  /** No two header lines share a key: reading a repeated key throws. */
  lemma {:induction false} ScanHeadersDistinct(lines: seq<string>)
    requires ScanLines(lines).Returned?
    ensures forall i, j :: 0 <= i < j < |lines| && IsHeader(lines[i]) && IsHeader(lines[j]) ==>
      HeaderKey(lines[i]) != HeaderKey(lines[j])
  {
    if lines != [] {
      var init := lines[..|lines| - 1];
      ScanLinesKeyVals(lines);
      ScanHeadersDistinct(init);
      ScanHeadersMapped(init);
      forall i, j | 0 <= i < j < |lines| && IsHeader(lines[i]) && IsHeader(lines[j])
        ensures HeaderKey(lines[i]) != HeaderKey(lines[j])
      {
        assert lines[i] == init[i];
        if j < |lines| - 1 {
          assert lines[j] == init[j];
        } else {
          assert HeaderKey(init[i]) in ScanLines(init).value.keyVals;
        }
      }
    }
  }

  /** The three header keys BuildTuringMachine requires. */
  predicate HasRequiredKeys(keyVals: map<string, string>) {
    "Name" in keyVals && "StartState" in keyVals && "AcceptStates" in keyVals
  }

  class TuringMachine {
    const MachineName: string
    var TapeLibrary: seq<string>
    var StartState: string
    var TransitionSet: seq<TransitionFunction>
    var AcceptStates: seq<string>

    /** Stores the parts and infers the tape library from the transition set. */
    constructor (name: string, startState: string, transitionSet: seq<TransitionFunction>, acceptStates: seq<string>)
      ensures MachineName == name && StartState == startState
      ensures TransitionSet == transitionSet && AcceptStates == acceptStates
      ensures TapeLibrary == TapeLibraryOf(transitionSet)
    {
      MachineName := name;
      StartState := startState;
      TransitionSet := transitionSet;
      AcceptStates := acceptStates;
      new;
      ExtractTapeLibrary();
    }

    /** Collects every parameter not seen before, transition by transition. */
    method ExtractTapeLibrary()
      modifies this`TapeLibrary
      ensures TapeLibrary == TapeLibraryOf(TransitionSet)
    {
      var lstTapeLibrary: seq<string> := [];
      for i := 0 to |TransitionSet|
        invariant lstTapeLibrary == Distinct(AllParameters(TransitionSet[..i]))
      {
        var tf := TransitionSet[i];
        var before := AllParameters(TransitionSet[..i]);
        assert before + tf.Parameters[..0] == before;
        for j := 0 to |tf.Parameters|
          invariant lstTapeLibrary == Distinct(before + tf.Parameters[..j])
        {
          var szParmKey := tf.Parameters[j];
          DistinctStep(before, tf.Parameters, j);
          if szParmKey !in lstTapeLibrary {
            lstTapeLibrary := lstTapeLibrary + [szParmKey];
          }
        }
        AllParametersStep(TransitionSet, i);
      }
      assert TransitionSet[..|TransitionSet|] == TransitionSet;
      TapeLibrary := lstTapeLibrary;
    }

    /** Reads the lines; null when Name, StartState or AcceptStates is missing. The name and
        start state are trimmed, the accept states split on ',' and each trimmed. */
    static method BuildTuringMachine(input: seq<string>) returns (r: Result<TuringMachine?>)
      ensures ScanLines(input).Threw? ==> r == Threw(ScanLines(input).error)
      ensures ScanLines(input).Returned? ==>
        r.Returned? && (r.value == null <==> !HasRequiredKeys(ScanLines(input).value.keyVals))
      ensures ScanLines(input).Returned? && r.Returned? && r.value != null ==>
        var s := ScanLines(input).value;
        && HasRequiredKeys(s.keyVals)
        && r.value.MachineName == Trim(s.keyVals["Name"])
        && r.value.StartState == Trim(s.keyVals["StartState"])
        && r.value.AcceptStates == TrimEach(Split(s.keyVals["AcceptStates"], ','))
        && r.value.TransitionSet == s.transitionSet
        && r.value.TapeLibrary == TapeLibraryOf(s.transitionSet)
    {
      var foundNeededInfo := true;
      var mapKeyVals: map<string, string> := map[];
      var szName := "";
      var szStart := "";
      var lstTransitionSet: seq<TransitionFunction> := [];
      var lstAcceptStates: seq<string> := [];
      var szPrevLine := "";
      for i := 0 to |input|
        invariant ScanLines(input[..i]) == Returned(Scan(mapKeyVals, szPrevLine, lstTransitionSet))
      {
        var line := input[i];
        assert input[..i + 1][..i] == input[..i];
        if ':' in line {
          var lstKeyVal := Split(line, ':');
          if lstKeyVal[0] in mapKeyVals {
            ScanFailureSticks(input, i + 1);
            return Threw(DuplicateKey(lstKeyVal[0]));
          }
          mapKeyVals := mapKeyVals[lstKeyVal[0] := lstKeyVal[1]];
        } else if !IsBlank(szPrevLine) {
          var newTF := NewTransitionFunction(szPrevLine, line);
          if newTF.Threw? {
            ScanFailureSticks(input, i + 1);
            return Threw(newTF.error);
          }
          if newTF.value.IsGood {
            lstTransitionSet := lstTransitionSet + [newTF.value];
          }
          szPrevLine := "";
        } else {
          szPrevLine := line;
        }
      }
      assert input[..|input|] == input;

      foundNeededInfo := foundNeededInfo && "Name" in mapKeyVals;
      if foundNeededInfo {
        szName := Trim(mapKeyVals["Name"]);
      }
      foundNeededInfo := foundNeededInfo && "StartState" in mapKeyVals;
      if foundNeededInfo {
        szStart := Trim(mapKeyVals["StartState"]);
      }
      foundNeededInfo := foundNeededInfo && "AcceptStates" in mapKeyVals;
      if foundNeededInfo {
        lstAcceptStates := TrimEach(Split(mapKeyVals["AcceptStates"], ','));
      }

      if foundNeededInfo {
        var tm := new TuringMachine(szName, szStart, lstTransitionSet, lstAcceptStates);
        r := Returned(tm);
      } else {
        r := Returned(null);
      }
    }
  }
}
