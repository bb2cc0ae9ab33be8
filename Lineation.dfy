/** Lineation of a K-tape machine: the transitions that let the real head of the single
    flat tape sweep right over the K virtual heads, naming after each step a composite
    state that records the symbols seen so far. */
module Lineation {
  import opened Text
  import opened Exceptions
  import opened Transitions
  import opened Machines

  /** '#' bounds the tapes on the flat tape. */
  const Boundary := "#"

  /** '#', 'R' (place holder), '~' (null) and '$' (end of tape) may not be tape symbols. */
  predicate UsesReservedSymbol(library: seq<string>) {
    "#" in library || "R" in library || "~" in library || "$" in library
  }

  // ---------------------------------------------------------------------------
  // Composite state names
  // ---------------------------------------------------------------------------

  /** constructStateName: the state reached from `base` after seeing `nextChar`. */
  function StateName(base: string, nextChar: string): string {
    base + "-" + nextChar
  }

  /** extractStateParms: the base state name followed by the symbols seen, as split on '-'. */
  function StateParts(flatState: string): (r: seq<string>)
    ensures |r| >= 1
  {
    Split(flatState, '-')
  }

  /** Reading a composite name back: a symbol free of '-' is one more part. */
  lemma StateNameParts(base: string, nextChar: string)
    requires '-' !in nextChar
    ensures StateParts(StateName(base, nextChar)) == StateParts(base) + [nextChar]
  {
    assert StateName(base, nextChar) == base + ['-'] + nextChar;
    SplitConcat(base, nextChar, '-');
    SplitWithoutSeparator(nextChar, '-');
  }

  /** No symbol of `symbols` holds a '-'. */
  predicate DashFree(symbols: seq<string>) {
    forall k :: 0 <= k < |symbols| ==> '-' !in symbols[k]
  }

  /** The composite state named from `base` after seeing the symbols `seen`, in order. */
  function Compose(base: string, seen: seq<string>): string {
    if seen == [] then base else StateName(Compose(base, seen[..|seen| - 1]), seen[|seen| - 1])
  }

  /** The parts of a composite name are the parts of its base followed by the symbols seen. */
  lemma {:induction false} ComposeParts(base: string, seen: seq<string>)
    requires DashFree(seen)
    ensures StateParts(Compose(base, seen)) == StateParts(base) + seen
  {
    if seen != [] {
      var init := seen[..|seen| - 1];
      ComposeParts(base, init);
      StateNameParts(Compose(base, init), seen[|seen| - 1]);
      assert seen == init + [seen[|seen| - 1]];
    }
  }

  /** Composite names are injective: two different symbol sequences free of '-' never
      name the same state. */
  lemma ComposeInjective(base: string, seen1: seq<string>, seen2: seq<string>)
    requires DashFree(seen1) && DashFree(seen2)
    requires Compose(base, seen1) == Compose(base, seen2)
    ensures seen1 == seen2
  {
    ComposeParts(base, seen1);
    ComposeParts(base, seen2);
    var n := |StateParts(base)|;
    assert seen1 == (StateParts(base) + seen1)[n..];
    assert seen2 == (StateParts(base) + seen2)[n..];
  }

  // ---------------------------------------------------------------------------
  // flatStateMatch
  // ---------------------------------------------------------------------------

  /** The first part of the state is the transition's start state and the remaining parts
      are a prefix of its read symbols. */
  predicate Matches(flatState: string, tf: TransitionFunction) {
    var parts := StateParts(flatState);
    && parts[0] == tf.StartState
    && |parts| - 1 <= |tf.Parameters|
    && parts[1..] == tf.Parameters[..|parts| - 1]
  }

  /** flatStateMatch reads past the end of tf.Parameters: the start state matches and the
      read symbols are a proper prefix of the remaining parts. */
  predicate MatchOverruns(flatState: string, tf: TransitionFunction) {
    var parts := StateParts(flatState);
    && parts[0] == tf.StartState
    && |parts| - 1 > |tf.Parameters|
    && parts[1..|tf.Parameters| + 1] == tf.Parameters
  }

  /** flatStateMatch: compares the name part, then the seen symbols one by one while they
      agree; indexing tf.Parameters past its end throws. */
  method FlatStateMatch(flatState: string, tf: TransitionFunction) returns (r: Result<bool>)
    ensures r.Threw? <==> MatchOverruns(flatState, tf)
    ensures r.Threw? ==> r.error == ArgumentOutOfRange(|tf.Parameters|)
    ensures r.Returned? ==> (r.value <==> Matches(flatState, tf))
  {
    var lstParameters := StateParts(flatState);
    ghost var parts := lstParameters;
    var szName := lstParameters[0];
    lstParameters := lstParameters[1..];
    var bRetval := szName == tf.StartState;
    var i := 0;
    while i < |lstParameters| && bRetval
      invariant 0 <= i <= |lstParameters| && i <= |tf.Parameters|
      invariant bRetval <==> szName == tf.StartState && i <= |tf.Parameters| && lstParameters[..i] == tf.Parameters[..i]
    {
      if i >= |tf.Parameters| {
        assert lstParameters[..i] == tf.Parameters;
        assert parts[1..|tf.Parameters| + 1] == lstParameters[..i];
        return Threw(ArgumentOutOfRange(i));
      }
      bRetval := bRetval && tf.Parameters[i] == lstParameters[i];
      assert lstParameters[..i + 1] == lstParameters[..i] + [lstParameters[i]];
      assert tf.Parameters[..i + 1] == tf.Parameters[..i] + [tf.Parameters[i]];
      i := i + 1;
    }
    assert lstParameters == parts[1..];
    if bRetval {
      assert lstParameters[..i] == lstParameters;
    }
    r := Returned(bRetval);
  }

  // ---------------------------------------------------------------------------
  // The sweep, as functions of the machine
  // ---------------------------------------------------------------------------

  /** The query of the sweep's step i from `state`: Parameters[i] of every transition that
      flatStateMatch accepts, in transition order, or the first exception raised. */
  function MatchedSymbols(state: string, tfs: seq<TransitionFunction>, i: nat): Result<seq<string>> {
    if tfs == [] then Returned([])
    else
      match MatchedSymbols(state, tfs[..|tfs| - 1], i)
      case Threw(e) => Threw(e)
      case Returned(symbols) =>
        var tf := tfs[|tfs| - 1];
        if MatchOverruns(state, tf) then Threw(ArgumentOutOfRange(|tf.Parameters|))
        else if !Matches(state, tf) then Returned(symbols)
        else if i < |tf.Parameters| then Returned(symbols + [tf.Parameters[i]])
        else Threw(ArgumentOutOfRange(i))
  }

  /** The domain line `state,c` of the move-right transition over `c`. */
  function DomainLine(state: string, c: string): string {
    state + "," + c
  }

  /** The range line `state-c,c,>` of the move-right transition over `c`. */
  function RangeLine(state: string, c: string): string {
    StateName(state, c) + "," + c + "," + ">"
  }

  /** Transitions built by the sweep and the composite states they lead to, in order. */
  datatype Layer = Layer(transitions: seq<TransitionFunction>, states: seq<string>)

  /** The move-right transitions from `state` over each of `symbols`, and their targets. */
  function Emit(state: string, symbols: seq<string>): Result<Layer> {
    if symbols == [] then Returned(Layer([], []))
    else
      match Emit(state, symbols[..|symbols| - 1])
      case Threw(e) => Threw(e)
      case Returned(layer) =>
        var c := symbols[|symbols| - 1];
        match Parse(DomainLine(state, c), RangeLine(state, c))
        case Threw(e) => Threw(e)
        case Returned(tf) => Returned(Layer(layer.transitions + [tf], layer.states + [StateName(state, c)]))
  }

  /** Step i of the sweep over the states of one frontier: for each state, a move-right
      transition over '#' and over each matched symbol. */
  function Expand(states: seq<string>, tfs: seq<TransitionFunction>, i: nat): (r: Result<Layer>)
    ensures r.Returned? ==>
      |r.value.transitions| == Successors(states, tfs) && |r.value.states| == Successors(states, tfs)
  {
    if states == [] then Returned(Layer([], []))
    else
      match Expand(states[..|states| - 1], tfs, i)
      case Threw(e) => Threw(e)
      case Returned(layer) =>
        var state := states[|states| - 1];
        match MatchedSymbols(state, tfs, i)
        case Threw(e) => Threw(e)
        case Returned(symbols) =>
          match Emit(state, [Boundary] + symbols)
          case Threw(e) => Threw(e)
          case Returned(more) =>
            MatchedSymbolsReturns(state, tfs, i);
            EmitCount(state, [Boundary] + symbols);
            Returned(Layer(layer.transitions + more.transitions, layer.states + more.states))
  }

  /** All transitions built so far and the frontiers 0..n. */
  datatype Sweep = Sweep(transitions: seq<TransitionFunction>, frontiers: seq<seq<string>>)

  /** The number of states in frontiers 1..j: step j' < j builds one transition per state of
      frontier j' + 1, so this is also where the transitions of step j start. */
  function Tally(frontiers: seq<seq<string>>, j: nat): nat
    requires j < |frontiers|
  {
    if j == 0 then 0 else Tally(frontiers, j - 1) + |frontiers[j]|
  }

  /** Recording one more frontier leaves the tallies of the earlier ones alone. */
  lemma {:induction false} TallyAppend(frontiers: seq<seq<string>>, next: seq<string>, j: nat)
    requires j < |frontiers|
    ensures Tally(frontiers + [next], j) == Tally(frontiers, j)
  {
    if j > 0 {
      TallyAppend(frontiers, next, j - 1);
    }
  }

  /** The first n steps of the sweep from `start`: frontier j + 1 is the list of states that
      step j builds from frontier j, and there is one transition per state built. */
  function SweepSteps(start: string, tfs: seq<TransitionFunction>, n: nat): (r: Result<Sweep>)
    ensures r.Returned? ==> |r.value.frontiers| == n + 1 && r.value.frontiers[0] == [start]
    ensures r.Returned? ==> |r.value.transitions| == Tally(r.value.frontiers, n)
    ensures r.Returned? ==> Chained(r.value.frontiers, tfs) && AllNonEmpty(r.value.frontiers)
    ensures r.Returned? ==> Successive(r.value.frontiers, tfs)
  {
    if n == 0 then Returned(Sweep([], [[start]]))
    else
      match SweepSteps(start, tfs, n - 1)
      case Threw(e) => Threw(e)
      case Returned(sweep) =>
        match Expand(sweep.frontiers[n - 1], tfs, n - 1)
        case Threw(e) => Threw(e)
        case Returned(layer) =>
          ChainedAppend(sweep.frontiers, layer.states, tfs);
          SuccessiveAppend(sweep.frontiers, layer.states, tfs);
          TallyAppend(sweep.frontiers, layer.states, n - 1);
          Returned(Sweep(sweep.transitions + layer.transitions, sweep.frontiers + [layer.states]))
  }

  /** The frontiers as the dictionary mapStatesBySeenTapes: step number to states. */
  function FrontierMap(frontiers: seq<seq<string>>): (m: map<int, seq<string>>)
    ensures forall j :: j in m <==> 0 <= j < |frontiers|
  {
    map j | 0 <= j < |frontiers| :: frontiers[j]
  }

  /** Recording one more frontier is one more map entry. */
  lemma FrontierMapAppend(frontiers: seq<seq<string>>, next: seq<string>)
    ensures FrontierMap(frontiers + [next]) == FrontierMap(frontiers)[|frontiers| := next]
  {
  }

  /** What Lineate leaves behind: nothing when the alphabet is unsafe, otherwise the flat
      transition set and the states by number of virtual heads seen. */
  datatype Lineated =
    | UnsafeAlphabet
    | Flattened(flatTransitionSet: seq<TransitionFunction>, statesBySeenTapes: map<int, seq<string>>)

  /** The sweep over K steps, K the number of read symbols of the first transition. */
  function Flatten(start: string, tfs: seq<TransitionFunction>): Result<Lineated>
    requires tfs != []
  {
    match SweepSteps(start, tfs, |tfs[0].Parameters|)
    case Threw(e) => Threw(e)
    case Returned(sweep) => Returned(Flattened(sweep.transitions, FrontierMap(sweep.frontiers)))
  }

  /** Emit builds one transition and one state per symbol: for the k-th symbol, the state
      named after it. */
  lemma {:induction false} EmitCount(state: string, symbols: seq<string>)
    requires Emit(state, symbols).Returned?
    ensures var layer := Emit(state, symbols).value;
      && |layer.transitions| == |symbols| && |layer.states| == |symbols|
      && forall k :: 0 <= k < |symbols| ==> layer.states[k] == StateName(state, symbols[k])
  {
    if symbols != [] {
      var init := symbols[..|symbols| - 1];
      EmitCount(state, init);
      var layer, tf := EmitUnfold(state, symbols);
      LayerAppend(state, symbols, init, layer, tf);
    }
  }

  /** The transition and state for the last symbol keep a layer in step with its symbols. */
  lemma LayerAppend(state: string, symbols: seq<string>, init: seq<string>, layer: Layer, tf: TransitionFunction)
    requires symbols != [] && init == symbols[..|symbols| - 1]
    requires |layer.transitions| == |init| && |layer.states| == |init|
    requires forall k :: 0 <= k < |init| ==> layer.states[k] == StateName(state, init[k])
    ensures var states := layer.states + [StateName(state, symbols[|symbols| - 1])];
      && |layer.transitions + [tf]| == |symbols| && |states| == |symbols|
      && forall k :: 0 <= k < |symbols| ==> states[k] == StateName(state, symbols[k])
  {
    var states := layer.states + [StateName(state, symbols[|symbols| - 1])];
    forall k | 0 <= k < |symbols|
      ensures states[k] == StateName(state, symbols[k])
    {
      if k < |init| {
        assert states[k] == layer.states[k] && symbols[k] == init[k];
      }
    }
  }

  /** Emit over a non-empty list of symbols, one step unfolded. */
  lemma EmitUnfold(state: string, symbols: seq<string>) returns (layer: Layer, tf: TransitionFunction)
    requires symbols != [] && Emit(state, symbols).Returned?
    ensures Emit(state, symbols[..|symbols| - 1]) == Returned(layer)
    ensures Emit(state, symbols) == Returned(Layer(layer.transitions + [tf],
      layer.states + [StateName(state, symbols[|symbols| - 1])]))
  {
    var c := symbols[|symbols| - 1];
    layer := Emit(state, symbols[..|symbols| - 1]).value;
    tf := Parse(DomainLine(state, c), RangeLine(state, c)).value;
  }

  /** Each transition stands at the position of the symbol whose lines it is parsed from. */
  predicate ParsedFrom(state: string, symbols: seq<string>, transitions: seq<TransitionFunction>) {
    && |transitions| == |symbols|
    && forall k :: 0 <= k < |symbols| ==>
         Parse(DomainLine(state, symbols[k]), RangeLine(state, symbols[k])) == Returned(transitions[k])
  }

  /** The k-th transition Emit builds is the one the constructor parses from the lines of the
      k-th symbol. */
  lemma {:induction false} EmitParses(state: string, symbols: seq<string>)
    requires Emit(state, symbols).Returned?
    ensures ParsedFrom(state, symbols, Emit(state, symbols).value.transitions)
  {
    if symbols != [] {
      EmitParses(state, symbols[..|symbols| - 1]);
      var layer, tf := EmitLast(state, symbols);
      ParsedFromLast(state, symbols, layer.transitions, tf);
    }
  }

  /** Emit over a non-empty list of symbols, one step unfolded, with the last transition
      parsed from the lines of the last symbol. */
  lemma EmitLast(state: string, symbols: seq<string>) returns (layer: Layer, tf: TransitionFunction)
    requires symbols != [] && Emit(state, symbols).Returned?
    ensures Emit(state, symbols[..|symbols| - 1]) == Returned(layer)
    ensures Emit(state, symbols).value.transitions == layer.transitions + [tf]
    ensures var c := symbols[|symbols| - 1]; Parse(DomainLine(state, c), RangeLine(state, c)) == Returned(tf)
  {
    var c := symbols[|symbols| - 1];
    layer := Emit(state, symbols[..|symbols| - 1]).value;
    tf := Parse(DomainLine(state, c), RangeLine(state, c)).value;
  }

  /** The transition parsed for the last symbol extends the correspondence of the others. */
  lemma ParsedFromLast(state: string, symbols: seq<string>, transitions: seq<TransitionFunction>,
                       tf: TransitionFunction)
    requires symbols != [] && ParsedFrom(state, symbols[..|symbols| - 1], transitions)
    requires var c := symbols[|symbols| - 1]; Parse(DomainLine(state, c), RangeLine(state, c)) == Returned(tf)
    ensures ParsedFrom(state, symbols, transitions + [tf])
  {
    var init, c := symbols[..|symbols| - 1], symbols[|symbols| - 1];
    ParsedFromAppend(state, init, c, transitions, tf);
    assert symbols == init + [c];
  }

  /** The transition parsed for one more symbol extends the correspondence. */
  lemma ParsedFromAppend(state: string, init: seq<string>, c: string, transitions: seq<TransitionFunction>,
                         tf: TransitionFunction)
    requires ParsedFrom(state, init, transitions)
    requires Parse(DomainLine(state, c), RangeLine(state, c)) == Returned(tf)
    ensures ParsedFrom(state, init + [c], transitions + [tf])
  {
    var symbols, all := init + [c], transitions + [tf];
    forall k | 0 <= k < |symbols|
      ensures Parse(DomainLine(state, symbols[k]), RangeLine(state, symbols[k])) == Returned(all[k])
    {
      if k < |init| {
        assert symbols[k] == init[k] && all[k] == transitions[k];
      }
    }
  }

  // ---------------------------------------------------------------------------
  // Exceptions end the sweep
  // ---------------------------------------------------------------------------

  /** Once a transition of Emit throws, later symbols do not change the outcome. */
  lemma {:induction false} EmitFailureSticks(state: string, symbols: seq<string>, n: nat)
    requires n <= |symbols| && Emit(state, symbols[..n]).Threw?
    ensures Emit(state, symbols) == Emit(state, symbols[..n])
    decreases |symbols| - n
  {
    if n < |symbols| {
      assert symbols[..n + 1][..n] == symbols[..n];
      EmitFailureSticks(state, symbols, n + 1);
    } else {
      assert symbols[..n] == symbols;
    }
  }

  /** Once the expansion of a state throws, later states do not change the outcome. */
  lemma {:induction false} ExpandFailureSticks(states: seq<string>, tfs: seq<TransitionFunction>, i: nat, n: nat)
    requires n <= |states| && Expand(states[..n], tfs, i).Threw?
    ensures Expand(states, tfs, i) == Expand(states[..n], tfs, i)
    decreases |states| - n
  {
    if n < |states| {
      assert states[..n + 1][..n] == states[..n];
      ExpandFailureSticks(states, tfs, i, n + 1);
    } else {
      assert states[..n] == states;
    }
  }

  /** Once a step of the sweep throws, later steps do not change the outcome. */
  lemma {:induction false} SweepFailureSticks(start: string, tfs: seq<TransitionFunction>, n: nat, m: nat)
    requires n <= m && SweepSteps(start, tfs, n).Threw?
    ensures SweepSteps(start, tfs, m) == SweepSteps(start, tfs, n)
    decreases m - n
  {
    if n < m {
      SweepFailureSticks(start, tfs, n + 1, m);
    }
  }

  // ---------------------------------------------------------------------------
  // The imperative sweep
  // ---------------------------------------------------------------------------

  /** The query `TransitionSet.Where(x => flatStateMatch(state, x)).Select(x => x.Parameters[i])`. */
  method CollectMatchedSymbols(state: string, transitionSet: seq<TransitionFunction>, i: nat)
    returns (r: Result<seq<string>>)
    ensures r == MatchedSymbols(state, transitionSet, i)
  {
    var symbols: seq<string> := [];
    for k := 0 to |transitionSet|
      invariant MatchedSymbols(state, transitionSet[..k], i) == Returned(symbols)
    {
      var tf := transitionSet[k];
      assert transitionSet[..k + 1][..k] == transitionSet[..k];
      var matched := FlatStateMatch(state, tf);
      if matched.Threw? {
        r := Threw(matched.error);
        assert MatchedSymbols(state, transitionSet[..k + 1], i) == Threw(ArgumentOutOfRange(|tf.Parameters|));
        MatchedFailureSticks(state, transitionSet, i, k + 1);
        return;
      }
      if matched.value {
        if i >= |tf.Parameters| {
          MatchedFailureSticks(state, transitionSet, i, k + 1);
          return Threw(ArgumentOutOfRange(i));
        }
        symbols := symbols + [tf.Parameters[i]];
      }
    }
    assert transitionSet[..|transitionSet|] == transitionSet;
    r := Returned(symbols);
  }

  /** Once the query throws on a transition, later transitions do not change the outcome. */
  lemma {:induction false} MatchedFailureSticks(state: string, tfs: seq<TransitionFunction>, i: nat, n: nat)
    requires n <= |tfs| && MatchedSymbols(state, tfs[..n], i).Threw?
    ensures MatchedSymbols(state, tfs, i) == MatchedSymbols(state, tfs[..n], i)
    decreases |tfs| - n
  {
    if n < |tfs| {
      assert tfs[..n + 1][..n] == tfs[..n];
      MatchedFailureSticks(state, tfs, i, n + 1);
    } else {
      assert tfs[..n] == tfs;
    }
  }

  /** The innermost loop of Lineate: for each symbol c, the transition built from the lines
      `state,c` and `state-c,c,>` and its target state `state-c`. */
  method MoveRight(szState: string, lstMoveRightTapeLibrary: seq<string>) returns (r: Result<Layer>)
    ensures r == Emit(szState, lstMoveRightTapeLibrary)
  {
    var transitions: seq<TransitionFunction> := [];
    var states: seq<string> := [];
    for k := 0 to |lstMoveRightTapeLibrary|
      invariant Emit(szState, lstMoveRightTapeLibrary[..k]) == Returned(Layer(transitions, states))
    {
      var szMoveRightChar := lstMoveRightTapeLibrary[k];
      assert lstMoveRightTapeLibrary[..k + 1][..k] == lstMoveRightTapeLibrary[..k];
      var szRangeState := StateName(szState, szMoveRightChar);
      var szDomainLine := szState + "," + szMoveRightChar;
      var szRangeLine := szRangeState + "," + szMoveRightChar + "," + ">";
      var newTF := NewTransitionFunction(szDomainLine, szRangeLine);
      if newTF.Threw? {
        EmitFailureSticks(szState, lstMoveRightTapeLibrary, k + 1);
        return Threw(newTF.error);
      }
      transitions := transitions + [newTF.value];
      states := states + [szRangeState];
    }
    assert lstMoveRightTapeLibrary[..|lstMoveRightTapeLibrary|] == lstMoveRightTapeLibrary;
    r := Returned(Layer(transitions, states));
  }

  /** The loop of Lineate over the states of frontier i: for each state in order, the
      move-right transitions over '#' and over every symbol the state matches, and the
      states they lead to, which make up frontier i + 1. */
  method ExpandFrontier(lstTrunkStates: seq<string>, transitionSet: seq<TransitionFunction>, i: nat)
    returns (r: Result<Layer>)
    ensures r == Expand(lstTrunkStates, transitionSet, i)
  {
    var transitions: seq<TransitionFunction> := [];
    var states: seq<string> := [];
    for j := 0 to |lstTrunkStates|
      invariant Expand(lstTrunkStates[..j], transitionSet, i) == Returned(Layer(transitions, states))
    {
      var szState := lstTrunkStates[j];
      assert lstTrunkStates[..j + 1][..j] == lstTrunkStates[..j];
      var matched := CollectMatchedSymbols(szState, transitionSet, i);
      if matched.Threw? {
        ExpandFailureSticks(lstTrunkStates, transitionSet, i, j + 1);
        return Threw(matched.error);
      }
      var lstMoveRightTapeLibrary := [Boundary] + matched.value;
      var emitted := MoveRight(szState, lstMoveRightTapeLibrary);
      if emitted.Threw? {
        ExpandFailureSticks(lstTrunkStates, transitionSet, i, j + 1);
        return Threw(emitted.error);
      }
      transitions := transitions + emitted.value.transitions;
      states := states + emitted.value.states;
    }
    assert lstTrunkStates[..|lstTrunkStates|] == lstTrunkStates;
    r := Returned(Layer(transitions, states));
  }

  /** Lineate: builds the machine from the lines, refuses a tape library holding a reserved
      symbol, takes the first transition (First() throws on an empty set), and runs the
      sweep from the start state. The flat transitions and the frontier map, locals of the
      original, are returned so that their contents can be stated. */
  method Lineate(lines: seq<string>) returns (r: Result<Lineated>)
    ensures ScanLines(lines).Threw? ==> r == Threw(ScanLines(lines).error)
    ensures ScanLines(lines).Returned? && !HasRequiredKeys(ScanLines(lines).value.keyVals) ==>
      r == Threw(NullReference)
    ensures ScanLines(lines).Returned? && HasRequiredKeys(ScanLines(lines).value.keyVals) ==>
      var s := ScanLines(lines).value;
      r == if UsesReservedSymbol(TapeLibraryOf(s.transitionSet)) then Returned(UnsafeAlphabet)
           else if s.transitionSet == [] then Threw(EmptySequence)
           else Flatten(Trim(s.keyVals["StartState"]), s.transitionSet)
  {
    var built := TuringMachine.BuildTuringMachine(lines);
    if built.Threw? {
      return Threw(built.error);
    }
    var unflattenedTM := built.value;
    if unflattenedTM == null {
      return Threw(NullReference);
    }
    var tapeLibrary := unflattenedTM.TapeLibrary;
    if "#" in tapeLibrary || "R" in tapeLibrary || "~" in tapeLibrary || "$" in tapeLibrary {
      return Returned(UnsafeAlphabet);
    }
    var transitionSet := unflattenedTM.TransitionSet;
    if transitionSet == [] {
      return Threw(EmptySequence);
    }
    r := SweepTapes(unflattenedTM.StartState, transitionSet);
  }

  /** The sweep of Lineate over K = |transitionSet[0].Parameters| steps: step i expands every
      state of frontier i, recording the new states as frontier i + 1. */
  method SweepTapes(startState: string, transitionSet: seq<TransitionFunction>) returns (r: Result<Lineated>)
    requires transitionSet != []
    ensures r == Flatten(startState, transitionSet)
  {
    var kTapes := |transitionSet[0].Parameters|;

    var lstFlatTransitionSet: seq<TransitionFunction> := [];
    var mapStatesBySeenTapes: map<int, seq<string>> := map[0 := [startState]];
    ghost var frontiers: seq<seq<string>> := [[startState]];
    for i := 0 to kTapes
      invariant SweepSteps(startState, transitionSet, i) == Returned(Sweep(lstFlatTransitionSet, frontiers))
      invariant mapStatesBySeenTapes == FrontierMap(frontiers)
    {
      var lstTrunkStates := mapStatesBySeenTapes[i];
      assert lstTrunkStates == frontiers[i];
      var expanded := ExpandFrontier(lstTrunkStates, transitionSet, i);
      if expanded.Threw? {
        SweepFailureSticks(startState, transitionSet, i + 1, kTapes);
        return Threw(expanded.error);
      }
      lstFlatTransitionSet := lstFlatTransitionSet + expanded.value.transitions;
      mapStatesBySeenTapes := mapStatesBySeenTapes[i + 1 := expanded.value.states];
      assert |frontiers| == i + 1;
      FrontierMapAppend(frontiers, expanded.value.states);
      frontiers := frontiers + [expanded.value.states];
    }
    r := Returned(Flattened(lstFlatTransitionSet, mapStatesBySeenTapes));
  }

  // ---------------------------------------------------------------------------
  // Properties of the sweep
  // ---------------------------------------------------------------------------

  /** A symbol the sweep can read and name states after: no '-' (the name separator), no ','
      (the field separator), and not an action marker. */
  predicate SafeSymbol(c: string) {
    '-' !in c && ',' !in c && !IsAction(c)
  }

  /** A start state the composite names can be read back from. */
  predicate SafeName(start: string) {
    '-' !in start && ',' !in start
  }

  /** The shape of a move-right transition: it reads one symbol c, writes nothing, moves
      right, and goes from s to s-c. */
  predicate IsMoveRight(tf: TransitionFunction) {
    && tf.IsGood
    && |tf.Parameters| == 1
    && tf.Output == []
    && tf.Actions == [">"]
    && tf.EndState == StateName(tf.StartState, tf.Parameters[0])
  }

  /** Two fields free of ',' joined by ',' split back into those two fields. */
  lemma SplitPair(a: string, b: string)
    requires ',' !in a && ',' !in b
    ensures Split(a + "," + b, ',') == [a, b]
  {
    assert a + "," + b == a + [','] + b;
    SplitConcat(a, b, ',');
    SplitWithoutSeparator(a, ',');
    SplitWithoutSeparator(b, ',');
  }

  /** The fields of the lines `state,c` and `state-c,c,>`. */
  lemma {:induction false} MoveRightFields(state: string, c: string)
    requires ',' !in state && ',' !in c
    ensures FieldCountsOk(DomainLine(state, c), RangeLine(state, c))
    ensures Split(DomainLine(state, c), ',') == [state, c]
    ensures Split(RangeLine(state, c), ',') == [StateName(state, c), c, ">"]
  {
    SplitPair(state, c);
    var name := StateName(state, c);
    assert ',' !in name;
    SplitPair(c, ">");
    assert RangeLine(state, c) == name + [','] + (c + "," + ">");
    SplitConcat(name, c + "," + ">", ',');
    SplitWithoutSeparator(name, ',');
  }

  /** Re-parsing a generated transition: it reads [c], writes nothing, moves right and goes to
      state-c. */
  lemma {:induction false} MoveRightParse(state: string, c: string)
    requires ',' !in state && ',' !in c && !IsAction(c)
    ensures Parse(DomainLine(state, c), RangeLine(state, c))
      == Returned(TransitionFunction(state, StateName(state, c), [c], [], [">"], true))
  {
    MoveRightFields(state, c);
    var fields := RangeTail(RangeLine(state, c));
    assert fields == [c, ">"];
    assert IsAction(fields[1]);
    assert FirstAction(fields) == 1;
    OutputEndIsFirstAction(fields);
  }

  /** A move-right transition over an action marker puts the marker first in the range
      fields, so GetRange(0, -1) throws. */
  lemma {:induction false} MoveRightOverAction(state: string, c: string)
    requires ',' !in state && ',' !in c && IsAction(c)
    ensures Parse(DomainLine(state, c), RangeLine(state, c)) == Threw(InvalidRange(0, -1))
  {
    MoveRightFields(state, c);
    var fields := RangeTail(RangeLine(state, c));
    assert fields == [c, ">"];
    assert FirstAction(fields) == 0;
    OutputEndIsFirstAction(fields);
  }

  /** How many transitions `state` matches. */
  function MatchCount(state: string, tfs: seq<TransitionFunction>): (n: nat)
    ensures n <= |tfs|
    ensures (forall k :: 0 <= k < |tfs| ==> !Matches(state, tfs[k])) ==> n == 0
  {
    if tfs == [] then 0
    else MatchCount(state, tfs[..|tfs| - 1]) + (if Matches(state, tfs[|tfs| - 1]) then 1 else 0)
  }

  /** The query at step i does not throw on `tf`: it is not overrun and, when it matches,
      it has a symbol at position i. */
  predicate ReadableAt(state: string, tf: TransitionFunction, i: nat) {
    !MatchOverruns(state, tf) && (Matches(state, tf) ==> i < |tf.Parameters|)
  }

  /** The query succeeds exactly when every transition is readable at step i, and then it
      yields one symbol per matching transition: Parameters[i] of each. */
  lemma MatchedSymbolsReturns(state: string, tfs: seq<TransitionFunction>, i: nat)
    ensures MatchedSymbols(state, tfs, i).Returned? <==> forall k :: 0 <= k < |tfs| ==> ReadableAt(state, tfs[k], i)
    ensures MatchedSymbols(state, tfs, i).Returned? ==>
      var symbols := MatchedSymbols(state, tfs, i).value;
      && |symbols| == MatchCount(state, tfs)
      && forall c :: c in symbols <==>
           exists k :: 0 <= k < |tfs| && Matches(state, tfs[k]) && i < |tfs[k].Parameters| && tfs[k].Parameters[i] == c
  {
    MatchedSymbolsReadable(state, tfs, i);
    if MatchedSymbols(state, tfs, i).Returned? {
      MatchedSymbolsLength(state, tfs, i);
      forall c {
        MatchedSymbolsMember(state, tfs, i, c);
      }
    }
  }

  /** The query returns exactly when every transition can be read at index i. */
  lemma {:induction false} MatchedSymbolsReadable(state: string, tfs: seq<TransitionFunction>, i: nat)
    ensures MatchedSymbols(state, tfs, i).Returned? <==> forall k :: 0 <= k < |tfs| ==> ReadableAt(state, tfs[k], i)
  {
    if tfs != [] {
      var init := tfs[..|tfs| - 1];
      MatchedSymbolsReadable(state, init, i);
      assert forall k :: 0 <= k < |init| ==> init[k] == tfs[k];
      if MatchedSymbols(state, init, i).Threw? {
        var k :| 0 <= k < |init| && !ReadableAt(state, init[k], i);
        assert tfs[k] == init[k];
      }
    }
  }

  /** One symbol per matching transition. */
  lemma {:induction false} MatchedSymbolsLength(state: string, tfs: seq<TransitionFunction>, i: nat)
    requires MatchedSymbols(state, tfs, i).Returned?
    ensures |MatchedSymbols(state, tfs, i).value| == MatchCount(state, tfs)
  {
    if tfs != [] {
      MatchedSymbolsLength(state, tfs[..|tfs| - 1], i);
    }
  }

  /** A symbol is collected exactly when some matching transition reads it at index i. */
  lemma {:induction false} MatchedSymbolsMember(state: string, tfs: seq<TransitionFunction>, i: nat, c: string)
    requires MatchedSymbols(state, tfs, i).Returned?
    ensures c in MatchedSymbols(state, tfs, i).value <==>
      exists k :: 0 <= k < |tfs| && Matches(state, tfs[k]) && i < |tfs[k].Parameters| && tfs[k].Parameters[i] == c
  {
    if tfs != [] {
      var init := tfs[..|tfs| - 1];
      MatchedSymbolsMember(state, init, i, c);
      var symbols := MatchedSymbols(state, init, i).value;
      if exists k :: 0 <= k < |tfs| && Matches(state, tfs[k]) && i < |tfs[k].Parameters| && tfs[k].Parameters[i] == c {
        var k :| 0 <= k < |tfs| && Matches(state, tfs[k]) && i < |tfs[k].Parameters| && tfs[k].Parameters[i] == c;
        if k < |init| {
          assert init[k] == tfs[k];
        }
      }
      if c in symbols {
        var k :| 0 <= k < |init| && Matches(state, init[k]) && i < |init[k].Parameters| && init[k].Parameters[i] == c;
        assert tfs[k] == init[k];
      }
    }
  }

  /** A state that matches a transition has seen only symbols the transition reads. */
  lemma MatchReadsSeen(state: string, tf: TransitionFunction)
    ensures Matches(state, tf) ==> forall x :: x in StateParts(state)[1..] ==> x in tf.Parameters
  {
    if Matches(state, tf) {
      var parts := StateParts(state);
      forall x | x in parts[1..]
        ensures x in tf.Parameters
      {
        var m :| 0 <= m < |parts[1..]| && parts[1..][m] == x;
        assert tf.Parameters[..|parts| - 1][m] == x;
      }
    }
  }

  /** Once '#' has been seen, a state matches no transition of a machine whose tape library
      does not hold '#'; its only successor symbol is then '#' itself. */
  lemma BoundarySeenMatchesNothing(state: string, tfs: seq<TransitionFunction>, i: nat)
    requires Boundary in StateParts(state)[1..]
    requires !UsesReservedSymbol(TapeLibraryOf(tfs))
    requires forall k :: 0 <= k < |tfs| ==> !MatchOverruns(state, tfs[k])
    ensures forall k :: 0 <= k < |tfs| ==> !Matches(state, tfs[k])
    ensures MatchedSymbols(state, tfs, i) == Returned([])
  {
    TapeLibraryIsDistinctReadSymbols(tfs);
    forall k | 0 <= k < |tfs|
      ensures !Matches(state, tfs[k])
    {
      MatchReadsSeen(state, tfs[k]);
    }
    MatchedSymbolsReturns(state, tfs, i);
  }

  /** Emit yields the move-right transitions over safe symbols. */
  lemma {:induction false} EmitSucceeds(state: string, symbols: seq<string>)
    requires ',' !in state
    requires forall k :: 0 <= k < |symbols| ==> SafeSymbol(symbols[k])
    ensures Emit(state, symbols).Returned?
    ensures AllMoveRight(Emit(state, symbols).value.transitions)
  {
    if symbols != [] {
      var init := symbols[..|symbols| - 1];
      assert forall k :: 0 <= k < |init| ==> init[k] == symbols[k];
      EmitSucceeds(state, init);
      MoveRightParse(state, symbols[|symbols| - 1]);
    }
    EmitParses(state, symbols);
    var layer := Emit(state, symbols).value;
    forall k | 0 <= k < |layer.transitions|
      ensures IsMoveRight(layer.transitions[k])
    {
      MoveRightParse(state, symbols[k]);
    }
  }

  /** Emit throws as soon as one of its symbols is an action marker. */
  lemma {:induction false} EmitThrowsOnAction(state: string, symbols: seq<string>, k: nat)
    requires ',' !in state
    requires forall m :: 0 <= m < |symbols| ==> ',' !in symbols[m]
    requires k < |symbols| && IsAction(symbols[k])
    ensures Emit(state, symbols).Threw?
  {
    var init := symbols[..|symbols| - 1];
    if k == |symbols| - 1 {
      MoveRightOverAction(state, symbols[k]);
    } else {
      EmitThrowsOnAction(state, init, k);
    }
  }

  /** The states of the frontier layer: one for every state and every symbol it moves over. */
  function Successors(states: seq<string>, tfs: seq<TransitionFunction>): (n: nat)
    ensures n >= |states|
  {
    if states == [] then 0
    else Successors(states[..|states| - 1], tfs) + 1 + MatchCount(states[|states| - 1], tfs)
  }

  /** Each frontier holds one state per successor of the frontier before it. */
  predicate Chained(frontiers: seq<seq<string>>, tfs: seq<TransitionFunction>) {
    forall j :: 0 <= j < |frontiers| - 1 ==> |frontiers[j + 1]| == Successors(frontiers[j], tfs)
  }

  /** Frontier j + 1 is the layer of states that step j builds from frontier j. */
  predicate StepsTo(frontiers: seq<seq<string>>, tfs: seq<TransitionFunction>, j: nat)
    requires j + 1 < |frontiers|
  {
    Expand(frontiers[j], tfs, j).Returned? && Expand(frontiers[j], tfs, j).value.states == frontiers[j + 1]
  }

  /** Each frontier after the first is the layer of states that step j builds from frontier j. */
  predicate Successive(frontiers: seq<seq<string>>, tfs: seq<TransitionFunction>) {
    forall j :: 0 <= j < |frontiers| - 1 ==> StepsTo(frontiers, tfs, j)
  }

  /** The states that the next step builds from the last frontier extend the succession. */
  lemma SuccessiveAppend(frontiers: seq<seq<string>>, next: seq<string>, tfs: seq<TransitionFunction>)
    requires frontiers != [] && Successive(frontiers, tfs)
    requires var n := |frontiers| - 1;
      Expand(frontiers[n], tfs, n).Returned? && Expand(frontiers[n], tfs, n).value.states == next
    ensures Successive(frontiers + [next], tfs)
  {
    var fs := frontiers + [next];
    forall j | 0 <= j < |fs| - 1
      ensures StepsTo(fs, tfs, j)
    {
      assert fs[j] == frontiers[j];
      if j < |frontiers| - 1 {
        assert StepsTo(frontiers, tfs, j);
        assert fs[j + 1] == frontiers[j + 1];
      }
    }
  }

  /** No frontier is empty. */
  predicate AllNonEmpty(frontiers: seq<seq<string>>) {
    forall j :: 0 <= j < |frontiers| ==> frontiers[j] != []
  }

  /** A frontier with one state per successor of the last frontier extends the chain. */
  lemma ChainedAppend(frontiers: seq<seq<string>>, next: seq<string>, tfs: seq<TransitionFunction>)
    requires frontiers != [] && Chained(frontiers, tfs) && AllNonEmpty(frontiers)
    requires |next| == Successors(frontiers[|frontiers| - 1], tfs)
    ensures Chained(frontiers + [next], tfs) && AllNonEmpty(frontiers + [next])
  {
    var fs := frontiers + [next];
    assert forall j :: 0 <= j < |frontiers| ==> fs[j] == frontiers[j];
  }

  /** A state of frontier j: its name splits into the start state followed by j safe
      symbols, and holds no ','. */
  predicate StateAt(state: string, start: string, j: nat) {
    var parts := StateParts(state);
    && |parts| == j + 1
    && parts[0] == start
    && ',' !in state
    && forall k :: 1 <= k < |parts| ==> SafeSymbol(parts[k])
  }

  /** Moving over a safe symbol takes a state of frontier j to one of frontier j + 1. */
  lemma StateAtStep(state: string, start: string, j: nat, c: string)
    requires StateAt(state, start, j) && SafeSymbol(c)
    ensures StateAt(StateName(state, c), start, j + 1)
  {
    StateNameParts(state, c);
  }

  /** Every state of `states` is a state of frontier j. */
  predicate AllAt(states: seq<string>, start: string, j: nat) {
    forall k :: 0 <= k < |states| ==> StateAt(states[k], start, j)
  }

  /** Every transition of `tfs` is a move-right transition. */
  predicate AllMoveRight(tfs: seq<TransitionFunction>) {
    forall k :: 0 <= k < |tfs| ==> IsMoveRight(tfs[k])
  }

  /** Every transition has K safe read symbols. */
  predicate UniformSafe(tfs: seq<TransitionFunction>, K: nat) {
    forall k :: 0 <= k < |tfs| ==>
      && |tfs[k].Parameters| == K
      && forall m :: 0 <= m < K ==> SafeSymbol(tfs[k].Parameters[m])
  }

  /** At a step before K, a state of the current frontier can read every transition, and the
      symbols it matches are safe. */
  lemma MatchedSymbolsAt(state: string, start: string, tfs: seq<TransitionFunction>, K: nat, i: nat)
    requires UniformSafe(tfs, K) && i < K && StateAt(state, start, i)
    ensures MatchedSymbols(state, tfs, i).Returned?
    ensures forall m :: 0 <= m < |MatchedSymbols(state, tfs, i).value| ==> SafeSymbol(MatchedSymbols(state, tfs, i).value[m])
  {
    MatchedSymbolsReturns(state, tfs, i);
    var symbols := MatchedSymbols(state, tfs, i).value;
    forall m | 0 <= m < |symbols|
      ensures SafeSymbol(symbols[m])
    {
      assert symbols[m] in symbols;
    }
  }

  /** Step i < K over a frontier of states with i safe symbols succeeds, builds only
      move-right transitions, and leads to states with i + 1 safe symbols. */
  lemma {:induction false} ExpandSucceeds(states: seq<string>, start: string, tfs: seq<TransitionFunction>, K: nat, i: nat)
    requires UniformSafe(tfs, K) && i < K && AllAt(states, start, i)
    ensures Expand(states, tfs, i).Returned?
    ensures AllMoveRight(Expand(states, tfs, i).value.transitions)
    ensures AllAt(Expand(states, tfs, i).value.states, start, i + 1)
  {
    if states != [] {
      var init := states[..|states| - 1];
      var state := states[|states| - 1];
      assert AllAt(init, start, i) by {
        assert forall k :: 0 <= k < |init| ==> init[k] == states[k];
      }
      ExpandSucceeds(init, start, tfs, K, i);
      MatchedSymbolsAt(state, start, tfs, K, i);
      var symbols := [Boundary] + MatchedSymbols(state, tfs, i).value;
      EmitSucceeds(state, symbols);
      EmitCount(state, symbols);
      var more := Emit(state, symbols).value;
      forall k | 0 <= k < |more.states|
        ensures StateAt(more.states[k], start, i + 1)
      {
        StateAtStep(state, start, i, symbols[k]);
      }
      var layer := Expand(init, tfs, i).value;
      AppendAll(layer, more, start, i + 1);
    }
  }

  /** Concatenating two layers keeps all transitions move-right and all states at j. */
  lemma AppendAll(layer: Layer, more: Layer, start: string, j: nat)
    requires AllMoveRight(layer.transitions) && AllAt(layer.states, start, j)
    requires AllMoveRight(more.transitions) && AllAt(more.states, start, j)
    ensures AllMoveRight(layer.transitions + more.transitions)
    ensures AllAt(layer.states + more.states, start, j)
  {
  }

  /** Every state of frontier j is a state of frontier j in the sense of StateAt. */
  predicate FrontiersAt(frontiers: seq<seq<string>>, start: string) {
    forall j :: 0 <= j < |frontiers| ==> AllAt(frontiers[j], start, j)
  }

  /** A new frontier of states with |frontiers| symbols extends FrontiersAt. */
  lemma FrontiersAtAppend(frontiers: seq<seq<string>>, states: seq<string>, start: string)
    requires FrontiersAt(frontiers, start) && AllAt(states, start, |frontiers|)
    ensures FrontiersAt(frontiers + [states], start)
  {
    assert forall j :: 0 <= j < |frontiers| ==> (frontiers + [states])[j] == frontiers[j];
  }

  /** The first n <= K steps succeed when every transition has K safe read symbols and the
      start state is a safe name: every state of frontier j has j symbols, and every
      transition moves right. */
  lemma {:induction false} SweepSucceeds(start: string, tfs: seq<TransitionFunction>, K: nat, n: nat)
    requires UniformSafe(tfs, K) && n <= K && SafeName(start)
    ensures SweepSteps(start, tfs, n).Returned?
    ensures AllMoveRight(SweepSteps(start, tfs, n).value.transitions)
    ensures FrontiersAt(SweepSteps(start, tfs, n).value.frontiers, start)
  {
    if n == 0 {
      SplitWithoutSeparator(start, '-');
      assert AllAt([start], start, 0);
    } else {
      SweepSucceeds(start, tfs, K, n - 1);
      var sweep := SweepSteps(start, tfs, n - 1).value;
      assert AllAt(sweep.frontiers[n - 1], start, n - 1);
      ExpandSucceeds(sweep.frontiers[n - 1], start, tfs, K, n - 1);
      var layer := Expand(sweep.frontiers[n - 1], tfs, n - 1).value;
      assert SweepSteps(start, tfs, n) ==
        Returned(Sweep(sweep.transitions + layer.transitions, sweep.frontiers + [layer.states]));
      AppendAll(Layer(sweep.transitions, []), Layer(layer.transitions, []), start, 0);
      FrontiersAtAppend(sweep.frontiers, layer.states, start);
    }
  }

  /** Whenever the sweep returns, the frontier map has exactly the keys 0..K, frontier 0 is
      the start state alone, no frontier is empty ('#' is always a successor symbol),
      frontier j + 1 holds one state per state of frontier j and per transition it matches,
      and there is one flat transition per state of frontiers 1..K. */
  lemma FlattenShape(start: string, tfs: seq<TransitionFunction>)
    requires tfs != [] && Flatten(start, tfs).Returned?
    ensures Flatten(start, tfs).value.Flattened?
    ensures var K := |tfs[0].Parameters|;
      var m := Flatten(start, tfs).value.statesBySeenTapes;
      && (forall j :: j in m <==> 0 <= j <= K)
      && m[0] == [start]
      && (forall j :: 0 <= j <= K ==> m[j] != [])
      && (forall j :: 0 <= j < K ==> |m[j + 1]| == Successors(m[j], tfs))
      && |Flatten(start, tfs).value.flatTransitionSet| == Tally(Frontiers(m, K), K)
  {
    var K := |tfs[0].Parameters|;
    var sweep := SweepSteps(start, tfs, K).value;
    assert Chained(sweep.frontiers, tfs) && AllNonEmpty(sweep.frontiers);
    FrontiersOfMap(sweep.frontiers, K);
  }

  /** Lineation of a machine whose transitions all read K safe symbols, from a safe start
      state: it does not throw, the frontier map has keys 0..K, every frontier j is
      non-empty and holds states named by j symbols, every flat transition moves right,
      there is one flat transition per state of frontiers 1..K, every state of frontier j is
      the target of a flat transition from a state of frontier j - 1, and every flat
      transition goes from a state of some frontier j to a state of frontier j + 1. */
  lemma FlattenSucceeds(start: string, tfs: seq<TransitionFunction>)
    requires tfs != [] && UniformSafe(tfs, |tfs[0].Parameters|) && SafeName(start)
    ensures Flatten(start, tfs).Returned? && Flatten(start, tfs).value.Flattened?
    ensures var K := |tfs[0].Parameters|;
      var result := Flatten(start, tfs).value;
      && (forall j :: j in result.statesBySeenTapes <==> 0 <= j <= K)
      && result.statesBySeenTapes[0] == [start]
      && (forall j :: 0 <= j <= K ==> result.statesBySeenTapes[j] != [])
      && (forall j, k :: 0 <= j <= K && 0 <= k < |result.statesBySeenTapes[j]| ==>
            StateAt(result.statesBySeenTapes[j][k], start, j))
      && (forall k :: 0 <= k < |result.flatTransitionSet| ==> IsMoveRight(result.flatTransitionSet[k]))
      && |result.flatTransitionSet| == Tally(Frontiers(result.statesBySeenTapes, K), K)
      && EveryStateEntered(result.flatTransitionSet, result.statesBySeenTapes, K)
      && EveryTransitionStepped(result.flatTransitionSet, result.statesBySeenTapes, K)
  {
    var K := |tfs[0].Parameters|;
    SweepSucceeds(start, tfs, K, K);
    var sweep := SweepSteps(start, tfs, K).value;
    assert FrontiersAt(sweep.frontiers, start);
    FlattenShape(start, tfs);
    var f := FlattenUnfold(start, tfs);
    SweepAllInto(start, tfs, K);
    SweepAllFrom(start, tfs, K);
  }

  // ---------------------------------------------------------------------------
  // Which states the sweep reaches
  // ---------------------------------------------------------------------------

  /** The symbols step i moves `state` over: '#' always, and Parameters[i] of every
      transition the state matches. */
  predicate MovesOver(state: string, c: string, tfs: seq<TransitionFunction>, i: nat) {
    || c == Boundary
    || exists k :: 0 <= k < |tfs| && Matches(state, tfs[k]) && i < |tfs[k].Parameters| && tfs[k].Parameters[i] == c
  }

  /** When the query returns, '#' and the symbols it yields are exactly the symbols moved over. */
  lemma MovesOverMatched(state: string, c: string, tfs: seq<TransitionFunction>, i: nat)
    requires MatchedSymbols(state, tfs, i).Returned?
    ensures c in [Boundary] + MatchedSymbols(state, tfs, i).value <==> MovesOver(state, c, tfs, i)
  {
    MatchedSymbolsMember(state, tfs, i, c);
  }

  /** Emit leads to `state-c` for each of its symbols c, and to no other state. */
  lemma EmitMember(state: string, symbols: seq<string>, x: string)
    requires Emit(state, symbols).Returned?
    ensures x in Emit(state, symbols).value.states <==> exists c :: c in symbols && x == StateName(state, c)
  {
    EmitCount(state, symbols);
    var states := Emit(state, symbols).value.states;
    if x in states {
      var k :| 0 <= k < |states| && states[k] == x;
      assert symbols[k] in symbols;
    }
    if exists c :: c in symbols && x == StateName(state, c) {
      var c :| c in symbols && x == StateName(state, c);
      var k :| 0 <= k < |symbols| && symbols[k] == c;
      assert states[k] == x;
    }
  }

  /** x is `state-c` for a symbol c that `state` moves over at step i. */
  ghost predicate StepLeadsTo(state: string, tfs: seq<TransitionFunction>, i: nat, x: string) {
    exists c :: MovesOver(state, c, tfs, i) && x == StateName(state, c)
  }

  /** x is `s-c` for a state s of `states` and a symbol c that s moves over at step i. */
  ghost predicate LeadsTo(states: seq<string>, tfs: seq<TransitionFunction>, i: nat, x: string) {
    exists s, c :: s in states && MovesOver(s, c, tfs, i) && x == StateName(s, c)
  }

  /** One more state of a frontier adds the states it leads to. */
  lemma LeadsToAppend(init: seq<string>, state: string, tfs: seq<TransitionFunction>, i: nat, x: string)
    ensures LeadsTo(init + [state], tfs, i, x) <==>
      LeadsTo(init, tfs, i, x) || StepLeadsTo(state, tfs, i, x)
  {
    var states := init + [state];
    if LeadsTo(states, tfs, i, x) {
      var s, c :| s in states && MovesOver(s, c, tfs, i) && x == StateName(s, c);
      if s != state {
        var k :| 0 <= k < |states| && states[k] == s;
        assert init[k] == s;
      }
    }
    if LeadsTo(init, tfs, i, x) {
      var s, c :| s in init && MovesOver(s, c, tfs, i) && x == StateName(s, c);
      assert s in states;
    }
  }

  /** The states reached from a frontier and from one more state, put together, are the
      states reached from the longer frontier. */
  lemma LeadsToLayers(states: seq<string>, before: seq<string>, more: seq<string>,
                      tfs: seq<TransitionFunction>, i: nat, x: string)
    requires states != []
    requires x in before <==> LeadsTo(states[..|states| - 1], tfs, i, x)
    requires x in more <==> StepLeadsTo(states[|states| - 1], tfs, i, x)
    ensures x in before + more <==> LeadsTo(states, tfs, i, x)
  {
    var init, state := states[..|states| - 1], states[|states| - 1];
    LeadsToAppend(init, state, tfs, i, x);
    assert states == init + [state];
  }

  /** The states Emit builds from `state` over '#' and the matched symbols are the states
      `state-c` for the symbols c it moves over. */
  lemma EmitMovesOver(state: string, symbols: seq<string>, tfs: seq<TransitionFunction>, i: nat, x: string)
    requires MatchedSymbols(state, tfs, i) == Returned(symbols)
    requires Emit(state, [Boundary] + symbols).Returned?
    ensures x in Emit(state, [Boundary] + symbols).value.states <==>
      exists c :: MovesOver(state, c, tfs, i) && x == StateName(state, c)
  {
    EmitMember(state, [Boundary] + symbols, x);
    if exists c :: c in [Boundary] + symbols && x == StateName(state, c) {
      var c :| c in [Boundary] + symbols && x == StateName(state, c);
      MovesOverMatched(state, c, tfs, i);
    }
    if exists c :: MovesOver(state, c, tfs, i) && x == StateName(state, c) {
      var c :| MovesOver(state, c, tfs, i) && x == StateName(state, c);
      MovesOverMatched(state, c, tfs, i);
    }
  }

  /** Expand over a non-empty frontier, one state unfolded: the states from the earlier
      states, followed by the states the last state leads to. */
  lemma ExpandUnfold(states: seq<string>, tfs: seq<TransitionFunction>, i: nat, x: string)
    returns (before: seq<string>, more: seq<string>)
    requires states != [] && Expand(states, tfs, i).Returned?
    ensures Expand(states[..|states| - 1], tfs, i).Returned?
    ensures Expand(states[..|states| - 1], tfs, i).value.states == before
    ensures Expand(states, tfs, i).value.states == before + more
    ensures x in more <==> StepLeadsTo(states[|states| - 1], tfs, i, x)
  {
    var state := states[|states| - 1];
    before := Expand(states[..|states| - 1], tfs, i).value.states;
    var symbols := MatchedSymbols(state, tfs, i).value;
    more := Emit(state, [Boundary] + symbols).value.states;
    EmitMovesOver(state, symbols, tfs, i, x);
  }

  /** Step i leads exactly to the states `s-c`, for s a state of the frontier and c a symbol
      that s moves over. */
  lemma {:induction false} ExpandMember(states: seq<string>, tfs: seq<TransitionFunction>, i: nat, x: string)
    requires Expand(states, tfs, i).Returned?
    ensures x in Expand(states, tfs, i).value.states <==> LeadsTo(states, tfs, i, x)
  {
    if states != [] {
      var before, more := ExpandUnfold(states, tfs, i, x);
      ExpandMember(states[..|states| - 1], tfs, i, x);
      LeadsToLayers(states, before, more, tfs, i, x);
    }
  }

  /** Frontier j + 1 of the sweep holds exactly the states `s-c`, for s a state of frontier j
      and c a symbol that s moves over at step j. */
  lemma SweepMember(start: string, tfs: seq<TransitionFunction>, n: nat, j: nat, x: string)
    requires SweepSteps(start, tfs, n).Returned? && j < n
    ensures var f := SweepSteps(start, tfs, n).value.frontiers;
      x in f[j + 1] <==> LeadsTo(f[j], tfs, j, x)
  {
    var f := SweepSteps(start, tfs, n).value.frontiers;
    assert StepsTo(f, tfs, j);
    ExpandMember(f[j], tfs, j, x);
  }

  /** The last symbol a composite state has seen (the state itself when it has seen none). */
  function LastPart(state: string): string {
    var parts := StateParts(state);
    parts[|parts| - 1]
  }

  /** The parts of a composite name built on a start state free of '-'. */
  lemma ComposeFromStart(start: string, seen: seq<string>)
    requires '-' !in start && DashFree(seen)
    ensures StateParts(Compose(start, seen)) == [start] + seen
  {
    SplitWithoutSeparator(start, '-');
    ComposeParts(start, seen);
  }

  /** The first j read symbols of a transition are free of '-'. */
  lemma PrefixDashFree(tfs: seq<TransitionFunction>, K: nat, k: nat, j: nat)
    requires UniformSafe(tfs, K) && k < |tfs| && j <= K
    ensures DashFree(tfs[k].Parameters[..j])
  {
    var P := tfs[k].Parameters;
    assert forall m :: 0 <= m < j ==> P[..j][m] == P[m] && SafeSymbol(P[m]);
  }

  /** Frontier j holds the state named by the first j read symbols of every transition from
      the start state. */
  lemma {:induction false} SweepReaches(start: string, tfs: seq<TransitionFunction>, K: nat, k: nat, j: nat)
    requires UniformSafe(tfs, K) && SafeName(start) && k < |tfs| && tfs[k].StartState == start && j <= K
    ensures SweepSteps(start, tfs, K).Returned?
    ensures Compose(start, tfs[k].Parameters[..j]) in SweepSteps(start, tfs, K).value.frontiers[j]
  {
    SweepSucceeds(start, tfs, K, K);
    var P := tfs[k].Parameters;
    if j == 0 {
      assert P[..0] == [];
    } else {
      SweepReaches(start, tfs, K, k, j - 1);
      var s := Compose(start, P[..j - 1]);
      ReachStep(start, tfs, K, k, j - 1);
      var f := SweepSteps(start, tfs, K).value.frontiers;
      SweepMember(start, tfs, K, j - 1, Compose(start, P[..j]));
      assert s in f[j - 1] && MovesOver(s, P[j - 1], tfs, j - 1) && Compose(start, P[..j]) == StateName(s, P[j - 1]);
    }
  }

  /** The state named by the first j read symbols of a transition from the start state moves
      over the next one, to the state named by the first j + 1. */
  lemma ReachStep(start: string, tfs: seq<TransitionFunction>, K: nat, k: nat, j: nat)
    requires UniformSafe(tfs, K) && SafeName(start) && k < |tfs| && tfs[k].StartState == start && j < K
    ensures var P := tfs[k].Parameters;
      && MovesOver(Compose(start, P[..j]), P[j], tfs, j)
      && Compose(start, P[..j + 1]) == StateName(Compose(start, P[..j]), P[j])
  {
    var P := tfs[k].Parameters;
    var s := Compose(start, P[..j]);
    PrefixDashFree(tfs, K, k, j);
    ComposeFromStart(start, P[..j]);
    assert Matches(s, tfs[k]);
    assert P[..j + 1][..j] == P[..j];
  }

  /** A state of frontier j reached over a symbol other than '#' extends the first j read
      symbols of a transition from the start state by one more. */
  lemma ReachedOver(start: string, tfs: seq<TransitionFunction>, K: nat, j: nat, s: string, c: string)
    returns (k: nat)
    requires UniformSafe(tfs, K) && j < K && StateAt(s, start, j)
    requires MovesOver(s, c, tfs, j) && c != Boundary
    ensures k < |tfs| && tfs[k].StartState == start
    ensures StateName(s, c) == Compose(start, tfs[k].Parameters[..j + 1])
  {
    k :| 0 <= k < |tfs| && Matches(s, tfs[k]) && j < |tfs[k].Parameters| && tfs[k].Parameters[j] == c;
    var P := tfs[k].Parameters;
    PrefixDashFree(tfs, K, k, j);
    ComposeFromStart(start, P[..j]);
    var parts := StateParts(s);
    assert parts == [start] + P[..j] by {
      assert parts == [parts[0]] + parts[1..];
    }
    JoinSplit(s, '-');
    JoinSplit(Compose(start, P[..j]), '-');
    assert P[..j + 1][..j] == P[..j];
  }

  /** A state of frontier j >= 1 whose last symbol is not '#' is named by the first j read
      symbols of some transition from the start state. */
  lemma SweepReachedOnly(start: string, tfs: seq<TransitionFunction>, K: nat, j: nat, x: string) returns (k: nat)
    requires UniformSafe(tfs, K) && SafeName(start) && 1 <= j <= K
    requires SweepSteps(start, tfs, K).Returned?
    requires x in SweepSteps(start, tfs, K).value.frontiers[j] && LastPart(x) != Boundary
    ensures k < |tfs| && tfs[k].StartState == start && x == Compose(start, tfs[k].Parameters[..j])
  {
    SweepSucceeds(start, tfs, K, K);
    var f := SweepSteps(start, tfs, K).value.frontiers;
    SweepMember(start, tfs, K, j - 1, x);
    var s, c :| s in f[j - 1] && MovesOver(s, c, tfs, j - 1) && x == StateName(s, c);
    assert StateAt(s, start, j - 1) by {
      var m :| 0 <= m < |f[j - 1]| && f[j - 1][m] == s;
      assert AllAt(f[j - 1], start, j - 1);
    }
    if c == Boundary {
      StateNameParts(s, c);
      assert false;
    }
    k := ReachedOver(start, tfs, K, j - 1, s, c);
  }

  /** Flatten's frontier map is the map of the frontiers of the sweep over K steps. */
  lemma FlattenUnfold(start: string, tfs: seq<TransitionFunction>) returns (f: seq<seq<string>>)
    requires tfs != [] && SweepSteps(start, tfs, |tfs[0].Parameters|).Returned?
    ensures f == SweepSteps(start, tfs, |tfs[0].Parameters|).value.frontiers
    ensures Flatten(start, tfs).Returned? && Flatten(start, tfs).value.Flattened?
    ensures Flatten(start, tfs).value.statesBySeenTapes == FrontierMap(f)
  {
    f := SweepSteps(start, tfs, |tfs[0].Parameters|).value.frontiers;
  }

  /** Lineation of a machine whose transitions all read K safe symbols, from a safe start
      state, reaches a state for every transition from the start state: frontier j holds the
      state named by its first j read symbols, and frontier K the one named by all of them. */
  lemma FlattenReaches(start: string, tfs: seq<TransitionFunction>)
    requires tfs != [] && UniformSafe(tfs, |tfs[0].Parameters|) && SafeName(start)
    ensures Flatten(start, tfs).Returned? && Flatten(start, tfs).value.Flattened?
    ensures var K := |tfs[0].Parameters|;
      var m := Flatten(start, tfs).value.statesBySeenTapes;
      && (forall j :: j in m <==> 0 <= j <= K)
      && (forall k, j :: 0 <= k < |tfs| && tfs[k].StartState == start && 0 <= j <= K ==>
            Compose(start, tfs[k].Parameters[..j]) in m[j])
      && (forall k :: 0 <= k < |tfs| && tfs[k].StartState == start ==> Compose(start, tfs[k].Parameters) in m[K])
  {
    var K := |tfs[0].Parameters|;
    SweepSucceeds(start, tfs, K, K);
    var f := FlattenUnfold(start, tfs);
    forall k, j | 0 <= k < |tfs| && tfs[k].StartState == start && 0 <= j <= K
      ensures Compose(start, tfs[k].Parameters[..j]) in f[j]
    {
      SweepReaches(start, tfs, K, k, j);
    }
    forall k | 0 <= k < |tfs| && tfs[k].StartState == start
      ensures Compose(start, tfs[k].Parameters) in f[K]
    {
      assert tfs[k].Parameters[..K] == tfs[k].Parameters;
    }
  }

  /** Conversely, every state of frontier j >= 1 that has not just seen '#' is named by the
      first j read symbols of a transition from the start state. */
  lemma FlattenReachedOnly(start: string, tfs: seq<TransitionFunction>)
    requires tfs != [] && UniformSafe(tfs, |tfs[0].Parameters|) && SafeName(start)
    ensures Flatten(start, tfs).Returned? && Flatten(start, tfs).value.Flattened?
    ensures var K := |tfs[0].Parameters|;
      var m := Flatten(start, tfs).value.statesBySeenTapes;
      forall j, x :: 1 <= j <= K && j in m && x in m[j] && LastPart(x) != Boundary ==>
        exists k :: 0 <= k < |tfs| && tfs[k].StartState == start && x == Compose(start, tfs[k].Parameters[..j])
  {
    var K := |tfs[0].Parameters|;
    SweepSucceeds(start, tfs, K, K);
    var f := FlattenUnfold(start, tfs);
    forall j, x | 1 <= j <= K && x in f[j] && LastPart(x) != Boundary
      ensures exists k :: 0 <= k < |tfs| && tfs[k].StartState == start && x == Compose(start, tfs[k].Parameters[..j])
    {
      var k := SweepReachedOnly(start, tfs, K, j, x);
    }
  }

  // ---------------------------------------------------------------------------
  // Which transitions the sweep builds
  // ---------------------------------------------------------------------------

  /** The k-th transition Emit builds from `state` over '#' and the matched symbols moves
      over a symbol c that `state` moves over: it is parsed from the lines of c, and the
      k-th state is `state-c`. */
  lemma EmitTransition(state: string, symbols: seq<string>, more: Layer, tfs: seq<TransitionFunction>,
                       i: nat, k: nat) returns (c: string)
    requires MatchedSymbols(state, tfs, i) == Returned(symbols)
    requires Emit(state, [Boundary] + symbols) == Returned(more) && k < |more.transitions|
    ensures MovesOver(state, c, tfs, i) && k < |more.states| && more.states[k] == StateName(state, c)
    ensures Parse(DomainLine(state, c), RangeLine(state, c)) == Returned(more.transitions[k])
  {
    var all := [Boundary] + symbols;
    EmitParses(state, all);
    EmitCount(state, all);
    c := all[k];
    MovesOverMatched(state, c, tfs, i);
  }

  /** Expand over a non-empty frontier, one state unfolded into the layer of the earlier
      states, the symbols the last state matches and the layer Emit builds from it. */
  lemma ExpandSplit(states: seq<string>, tfs: seq<TransitionFunction>, i: nat)
    returns (before: Layer, symbols: seq<string>, more: Layer)
    requires states != [] && Expand(states, tfs, i).Returned?
    ensures Expand(states[..|states| - 1], tfs, i) == Returned(before)
    ensures MatchedSymbols(states[|states| - 1], tfs, i) == Returned(symbols)
    ensures Emit(states[|states| - 1], [Boundary] + symbols) == Returned(more)
    ensures Expand(states, tfs, i).value
      == Layer(before.transitions + more.transitions, before.states + more.states)
    ensures |before.transitions| == |before.states|
  {
    var state := states[|states| - 1];
    before := Expand(states[..|states| - 1], tfs, i).value;
    symbols := MatchedSymbols(state, tfs, i).value;
    more := Emit(state, [Boundary] + symbols).value;
  }

  /** A state of the frontier without its last state is a state of the frontier. */
  lemma InPrefix(states: seq<string>, s: string)
    requires states != [] && s in states[..|states| - 1]
    ensures s in states
  {
  }

  /** The k-th transition step i builds is the move-right transition from a state s of the
      frontier over a symbol c that s moves over: it is parsed from the lines `s,c` and
      `s-c,c,>`, and the k-th state built is `s-c`. */
  lemma {:induction false} ExpandTransition(states: seq<string>, tfs: seq<TransitionFunction>, i: nat, k: nat)
    returns (s: string, c: string)
    requires Expand(states, tfs, i).Returned? && k < |Expand(states, tfs, i).value.transitions|
    ensures s in states && MovesOver(s, c, tfs, i)
    ensures Expand(states, tfs, i).value.states[k] == StateName(s, c)
    ensures Parse(DomainLine(s, c), RangeLine(s, c)) == Returned(Expand(states, tfs, i).value.transitions[k])
  {
    var before, symbols, more := ExpandSplit(states, tfs, i);
    if k < |before.transitions| {
      s, c := ExpandTransition(states[..|states| - 1], tfs, i, k);
      InPrefix(states, s);
    } else {
      s := states[|states| - 1];
      c := EmitTransition(s, symbols, more, tfs, i, k - |before.transitions|);
    }
  }

  /** The sweep over n >= 1 steps, its last step unfolded. */
  lemma SweepUnfold(start: string, tfs: seq<TransitionFunction>, n: nat) returns (prev: Sweep, layer: Layer)
    requires n >= 1 && SweepSteps(start, tfs, n).Returned?
    ensures SweepSteps(start, tfs, n - 1) == Returned(prev)
    ensures Expand(prev.frontiers[n - 1], tfs, n - 1) == Returned(layer)
    ensures SweepSteps(start, tfs, n).value
      == Sweep(prev.transitions + layer.transitions, prev.frontiers + [layer.states])
    ensures |prev.frontiers| == n && |prev.transitions| == Tally(prev.frontiers, n - 1)
    ensures |layer.transitions| == |layer.states|
  {
    prev := SweepSteps(start, tfs, n - 1).value;
    layer := Expand(prev.frontiers[n - 1], tfs, n - 1).value;
  }

  /** A slice within the first part of a concatenation. */
  lemma SliceLeft<T>(a: seq<T>, b: seq<T>, lo: nat, hi: nat)
    requires lo <= hi <= |a|
    ensures (a + b)[lo..hi] == a[lo..hi]
  {
  }

  /** The slice of a concatenation that is its second part. */
  lemma SliceRight<T>(a: seq<T>, b: seq<T>)
    ensures (a + b)[|a|..|a| + |b|] == b
  {
  }

  /** The transitions of step j stand, in order, at positions Tally(f, j) up to
      Tally(f, j + 1) of the transitions of `sweep`. */
  predicate LayerAt(sweep: Sweep, j: nat, transitions: seq<TransitionFunction>)
    requires j + 1 < |sweep.frontiers|
  {
    var f := sweep.frontiers;
    && Tally(f, j) <= Tally(f, j + 1) <= |sweep.transitions|
    && sweep.transitions[Tally(f, j)..Tally(f, j + 1)] == transitions
  }

  /** Appending the transitions and states of the last step keeps the transitions of an
      earlier step j at the positions its tallies give, and puts those of the last step at
      the end. */
  lemma LayerPlace(prev: Sweep, layer: Layer, last: nat, j: nat, expanded: seq<TransitionFunction>)
    requires |prev.frontiers| == last + 1 && j <= last && |layer.transitions| == |layer.states|
    requires |prev.transitions| == Tally(prev.frontiers, last)
    requires j < last ==> LayerAt(prev, j, expanded)
    requires j == last ==> layer.transitions == expanded
    ensures LayerAt(Sweep(prev.transitions + layer.transitions, prev.frontiers + [layer.states]), j, expanded)
  {
    var f := prev.frontiers + [layer.states];
    TallyAppend(prev.frontiers, layer.states, j);
    if j < last {
      TallyAppend(prev.frontiers, layer.states, j + 1);
      SliceLeft(prev.transitions, layer.transitions, Tally(f, j), Tally(f, j + 1));
    } else {
      SliceRight(prev.transitions, layer.transitions);
    }
  }

  /** The transitions of step j < n stand, in order, at positions Tally(f, j) up to
      Tally(f, j + 1) of the sweep's transitions. */
  lemma {:induction false} SweepLayer(start: string, tfs: seq<TransitionFunction>, n: nat, j: nat)
    requires SweepSteps(start, tfs, n).Returned? && j < n
    ensures var sweep := SweepSteps(start, tfs, n).value;
      && Expand(sweep.frontiers[j], tfs, j).Returned?
      && LayerAt(sweep, j, Expand(sweep.frontiers[j], tfs, j).value.transitions)
  {
    var prev, layer := SweepUnfold(start, tfs, n);
    var pf := prev.frontiers;
    if j < n - 1 {
      SweepLayer(start, tfs, n - 1, j);
    }
    LayerPlace(prev, layer, n - 1, j, Expand(pf[j], tfs, j).value.transitions);
  }

  /** The k-th state of frontier j + 1 is `s-c` for a state s of frontier j and a symbol c
      that s moves over at step j, and the transition at position Tally(f, j) + k is the one
      parsed from the lines `s,c` and `s-c,c,>`. */
  lemma SweepTransitionInto(start: string, tfs: seq<TransitionFunction>, n: nat, j: nat, k: nat)
    returns (s: string, c: string)
    requires SweepSteps(start, tfs, n).Returned? && j < n
    requires k < |SweepSteps(start, tfs, n).value.frontiers[j + 1]|
    ensures var sweep := SweepSteps(start, tfs, n).value;
      var f := sweep.frontiers;
      && s in f[j] && MovesOver(s, c, tfs, j) && f[j + 1][k] == StateName(s, c)
      && Tally(f, j) + k < |sweep.transitions|
      && Parse(DomainLine(s, c), RangeLine(s, c)) == Returned(sweep.transitions[Tally(f, j) + k])
  {
    var sweep := SweepSteps(start, tfs, n).value;
    var f := sweep.frontiers;
    SweepLayer(start, tfs, n, j);
    assert StepsTo(f, tfs, j);
    var layer := Expand(f[j], tfs, j).value;
    s, c := ExpandTransition(f[j], tfs, j, k);
    LayerIndex(sweep, j, layer.transitions, k);
  }

  /** The k-th transition of step j stands at position Tally(f, j) + k. */
  lemma LayerIndex(sweep: Sweep, j: nat, transitions: seq<TransitionFunction>, k: nat)
    requires j + 1 < |sweep.frontiers| && LayerAt(sweep, j, transitions) && k < |transitions|
    ensures Tally(sweep.frontiers, j) + k < |sweep.transitions|
    ensures sweep.transitions[Tally(sweep.frontiers, j) + k] == transitions[k]
  {
    var f := sweep.frontiers;
    assert sweep.transitions[Tally(f, j)..Tally(f, j + 1)][k] == transitions[k];
  }

  /** A position before Tally(f, n) falls within the transitions of exactly one step j < n. */
  lemma {:induction false} TallyPlace(frontiers: seq<seq<string>>, n: nat, p: nat) returns (j: nat)
    requires n < |frontiers| && p < Tally(frontiers, n)
    ensures j < n && Tally(frontiers, j) <= p < Tally(frontiers, j + 1)
  {
    if p < Tally(frontiers, n - 1) {
      j := TallyPlace(frontiers, n - 1, p);
    } else {
      j := n - 1;
    }
  }

  /** Every transition the sweep builds is the move-right transition from a state s of some
      frontier j over a symbol c that s moves over at step j, parsed from the lines `s,c`
      and `s-c,c,>`, and its target `s-c` is a state of frontier j + 1. */
  lemma SweepTransition(start: string, tfs: seq<TransitionFunction>, n: nat, p: nat)
    returns (j: nat, s: string, c: string)
    requires SweepSteps(start, tfs, n).Returned? && p < |SweepSteps(start, tfs, n).value.transitions|
    ensures var sweep := SweepSteps(start, tfs, n).value;
      var f := sweep.frontiers;
      && j < n && s in f[j] && MovesOver(s, c, tfs, j) && StateName(s, c) in f[j + 1]
      && Parse(DomainLine(s, c), RangeLine(s, c)) == Returned(sweep.transitions[p])
  {
    var f := SweepSteps(start, tfs, n).value.frontiers;
    j := TallyPlace(f, n, p);
    s, c := SweepTransitionInto(start, tfs, n, j, p - Tally(f, j));
  }

  /** The frontiers 0..K read back from a frontier map. */
  function Frontiers(m: map<int, seq<string>>, K: nat): (f: seq<seq<string>>)
    requires forall j :: 0 <= j <= K ==> j in m
    ensures |f| == K + 1 && forall j :: 0 <= j <= K ==> f[j] == m[j]
  {
    seq(K + 1, j requires 0 <= j <= K => m[j])
  }

  /** Reading the frontiers back from their map gives the frontiers. */
  lemma FrontiersOfMap(f: seq<seq<string>>, K: nat)
    requires |f| == K + 1
    ensures Frontiers(FrontierMap(f), K) == f
  {
  }

  /** A symbol moved over at a step before K is safe: '#', or a read symbol. */
  lemma MovesOverSafe(s: string, c: string, tfs: seq<TransitionFunction>, K: nat, j: nat)
    requires UniformSafe(tfs, K) && j < K && MovesOver(s, c, tfs, j)
    ensures SafeSymbol(c)
  {
  }

  /** For safe symbols, every state of frontier j + 1 is the target of a move-right
      transition of the sweep from a state of frontier j. */
  lemma SweepInto(start: string, tfs: seq<TransitionFunction>, K: nat, j: nat, x: string)
    returns (t: TransitionFunction)
    requires UniformSafe(tfs, K) && SafeName(start) && j < K
    requires SweepSteps(start, tfs, K).Returned? && x in SweepSteps(start, tfs, K).value.frontiers[j + 1]
    ensures var sweep := SweepSteps(start, tfs, K).value;
      && t in sweep.transitions && IsMoveRight(t)
      && t.StartState in sweep.frontiers[j] && t.EndState == x
  {
    SweepSucceeds(start, tfs, K, K);
    var sweep := SweepSteps(start, tfs, K).value;
    var f := sweep.frontiers;
    var k :| 0 <= k < |f[j + 1]| && f[j + 1][k] == x;
    var s, c := SweepTransitionInto(start, tfs, K, j, k);
    t := sweep.transitions[Tally(f, j) + k];
    assert StateAt(s, start, j) by {
      var m :| 0 <= m < |f[j]| && f[j][m] == s;
      assert AllAt(f[j], start, j);
    }
    MovesOverSafe(s, c, tfs, K, j);
    MoveRightParse(s, c);
  }

  /** For safe symbols, every transition of the sweep goes from a state of some frontier j
      to a state of frontier j + 1. */
  lemma SweepFrom(start: string, tfs: seq<TransitionFunction>, K: nat, p: nat) returns (j: nat)
    requires UniformSafe(tfs, K) && SafeName(start)
    requires SweepSteps(start, tfs, K).Returned? && p < |SweepSteps(start, tfs, K).value.transitions|
    ensures var sweep := SweepSteps(start, tfs, K).value;
      && j < K
      && sweep.transitions[p].StartState in sweep.frontiers[j]
      && sweep.transitions[p].EndState in sweep.frontiers[j + 1]
  {
    SweepSucceeds(start, tfs, K, K);
    var f := SweepSteps(start, tfs, K).value.frontiers;
    var s, c;
    j, s, c := SweepTransition(start, tfs, K, p);
    assert StateAt(s, start, j) by {
      var m :| 0 <= m < |f[j]| && f[j][m] == s;
      assert AllAt(f[j], start, j);
    }
    MovesOverSafe(s, c, tfs, K, j);
    MoveRightParse(s, c);
  }

  /** Every state of frontier j >= 1 of `m` is the target of a move-right transition of
      `flat` from a state of frontier j - 1. */
  predicate EveryStateEntered(flat: seq<TransitionFunction>, m: map<int, seq<string>>, K: nat)
    requires forall j :: 0 <= j <= K ==> j in m
  {
    forall j, x {:trigger x in m[j]} :: 1 <= j <= K && x in m[j] ==>
      exists t :: t in flat && IsMoveRight(t) && t.StartState in m[j - 1] && t.EndState == x
  }

  /** Every transition of `flat` goes from a state of some frontier j < K of `m` to a state
      of frontier j + 1. */
  predicate EveryTransitionStepped(flat: seq<TransitionFunction>, m: map<int, seq<string>>, K: nat)
    requires forall j :: 0 <= j <= K ==> j in m
  {
    forall t :: t in flat ==>
      exists j :: 0 <= j < K && t.StartState in m[j] && t.EndState in m[j + 1]
  }

  /** For safe symbols, every state of frontier j >= 1 is the target of a move-right
      transition of the sweep from a state of frontier j - 1. */
  lemma SweepAllInto(start: string, tfs: seq<TransitionFunction>, K: nat)
    requires UniformSafe(tfs, K) && SafeName(start) && SweepSteps(start, tfs, K).Returned?
    ensures var sweep := SweepSteps(start, tfs, K).value;
      EveryStateEntered(sweep.transitions, FrontierMap(sweep.frontiers), K)
  {
    var sweep := SweepSteps(start, tfs, K).value;
    var f := sweep.frontiers;
    var m := FrontierMap(f);
    forall j, x {:trigger x in m[j]} | 1 <= j <= K && x in m[j]
      ensures exists t :: t in sweep.transitions && IsMoveRight(t) && t.StartState in m[j - 1] && t.EndState == x
    {
      var t := SweepInto(start, tfs, K, j - 1, x);
    }
  }

  /** For safe symbols, every transition of the sweep goes from a state of some frontier j
      to a state of frontier j + 1. */
  lemma SweepAllFrom(start: string, tfs: seq<TransitionFunction>, K: nat)
    requires UniformSafe(tfs, K) && SafeName(start) && SweepSteps(start, tfs, K).Returned?
    ensures var sweep := SweepSteps(start, tfs, K).value;
      EveryTransitionStepped(sweep.transitions, FrontierMap(sweep.frontiers), K)
  {
    var sweep := SweepSteps(start, tfs, K).value;
    var f := sweep.frontiers;
    var m := FrontierMap(f);
    forall t | t in sweep.transitions
      ensures exists j :: 0 <= j < K && t.StartState in m[j] && t.EndState in m[j + 1]
    {
      var p :| 0 <= p < |sweep.transitions| && sweep.transitions[p] == t;
      var j := SweepFrom(start, tfs, K, p);
      assert m[j] == f[j] && m[j + 1] == f[j + 1];
    }
  }
}
