# TuringMachineLineator in Dafny

TuringMachineLineator reads a K-tape Turing machine from text lines. It then builds the
first phase of an equivalent single-tape machine. On the single "flat" tape the K tapes sit
side by side, separated by `#`. The real head sweeps right until it has seen every virtual
head, and it remembers the symbols it has seen in composite state names such as `q-1-0`.

This project models the three parts of that program.

- **Transition parsing** (`Transitions`) models the `TransitionFunction` constructor.
  - It splits a domain line `state,p1,..,pK` and a range line `state,o..,a..` on `,`.
  - It clears `IsGood` when either line has too few fields.
  - It cuts the range fields at the first action marker (`<`, `>` or `-`). This is done with
    the `(uint)` casts of `List.IndexOf` results and the `& 0xEFFF` mask, both written out.
  - It throws where `List.GetRange` throws.
  - The constructor is an imperative method, `NewTransitionFunction`, proved equal to the
    function `Parse`.
- **Machine assembly** (`Machines`) models `BuildTuringMachine` and the `TuringMachine` class.
  - `BuildTuringMachine` is a loop over the lines. Header lines `Key: Value` go into a
    dictionary. Other lines pair up into transitions through a pending line.
  - The constructor and `extractTapeLibrary` assign the fields. The tape library is inferred
    with a nested loop.
  - Both are proved against folds over the input, `ScanLines` and
    `Distinct(AllParameters(..))`, which recurse on all but the last element.
- **Lineation** (`Lineation`) models `Lineate`, `constructStateName`, `extractStateParms`
  and `flatStateMatch`.
  - `Lineate` checks the alphabet and reads K from the first transition.
  - It then builds the move-right transitions layer by layer: for each state of frontier
    `i`, one over `#` and one over `Parameters[i]` of each transition the state matches.
  - Each loop of `Lineate` is a method proved equal to a function: `MoveRight` to `Emit`,
    `ExpandFrontier` to `Expand`, and `SweepTapes` to `SweepSteps`/`Flatten`. The LINQ query
    `CollectMatchedSymbols` is proved equal to `MatchedSymbols`.
  - Frontier `i + 1` is proved to hold exactly the states `s-c` for `s` in frontier `i`.
    When every transition reads K safe symbols, frontier `j` holds the state named by the
    first `j` read symbols of every transition from the start state, and every other state
    in it has just seen `#`.

`Text` models the .NET operations the code relies on:
- `String.Split(char)`, which keeps empty pieces;
- `List.IndexOf`;
- `Char.IsWhiteSpace`;
- `Trim`.

Exceptions the code raises become `Threw(e)` of a `Result`:
- `Dictionary.Add` on a repeated key;
- `GetRange` with a bad range;
- an indexer past the end;
- `First()` on an empty list;
- use of the `null` that `BuildTuringMachine` returns.

The model follows the code as written, including these behaviours a reader may not expect:
- `Output` is `GetRange(0, iOEnd - 1)`, so the write symbol just before the first action is
  dropped (`ParseAtFirstAction`).
- A range with no action marker does not always fail. The split index becomes `0xEFFF`, and
  `GetRange` throws only when there are fewer than `0xEFFF` fields (`ParseWithoutAction`).
- There is no arity check. K comes from the first transition. A state that runs past the
  read symbols of a shorter transition throws `ArgumentOutOfRange` inside `flatStateMatch`, or
  at `Parameters[i]` in the query. K is at least 1, because every transition that is
  kept has a read symbol.
- A missing `Name`, `StartState` or `AcceptStates` header makes `BuildTuringMachine` return
  `null`, and `Lineate` then throws when it dereferences it. A repeated header key throws.
- The move-right symbols always include `#`. A generated transition over `<`, `>` or `-`
  throws in the constructor (`MoveRightOverAction`, `EmitThrowsOnAction`).
- `Lineate` computes the flat transition set and the frontier map but neither returns nor
  writes them. The model returns them as `Flattened(..)` so that their contents can be
  stated.

## Model

| member | source | states |
|---|---|---|
| Text.Split | TuringMachineLineator/TuringMachineLineator/TransitionFunction.cs:31-32 | String.Split(char): there is always at least one piece, no piece holds the separator, and there are two or more pieces exactly when the separator occurs |
| Text.JoinSplit | TuringMachineLineator/TuringMachineLineator/TransitionFunction.cs:31-32 | joining the pieces of a split with the separator gives back the string, so splitting loses nothing |
| Text.SplitWithoutSeparator | TuringMachineLineator/TuringMachineLineator/Lineator.cs:123-126 | a string without the separator splits into itself alone |
| Text.SplitConcat | TuringMachineLineator/TuringMachineLineator/Lineator.cs:118-126 | splitting `a + sep + b` gives the pieces of `a` followed by those of `b` |
| Text.IndexOf | TuringMachineLineator/TuringMachineLineator/TransitionFunction.cs:48-49 | List.IndexOf: -1 exactly when the element is absent, otherwise a position holding it with no earlier occurrence |
| Text.TrimStart | TuringMachineLineator/TuringMachineLineator/TuringMachine.cs:57 | the result is a suffix of the input; what was dropped is white space and the result does not start with white space |
| Text.TrimEnd | TuringMachineLineator/TuringMachineLineator/TuringMachine.cs:57 | the result is a prefix of the input; what was dropped is white space and the result does not end with white space |
| Text.Trim | TuringMachineLineator/TuringMachineLineator/TuringMachine.cs:57 | String.Trim: no longer than the input, and a non-empty result neither starts nor ends with white space |
| Text.TrimKeepsMiddle | TuringMachineLineator/TuringMachineLineator/TuringMachine.cs:62 | the trimmed value is a slice of the original with only white space before and after it |
| Text.TrimEach | TuringMachineLineator/TuringMachineLineator/TuringMachine.cs:67 | `Select(x => x.Trim())` keeps one element per element |
| Transitions.AsUInt | TuringMachineLineator/TuringMachineLineator/TransitionFunction.cs:48 | the `(uint)` cast leaves non-negative indexes unchanged and turns -1 into 0xFFFF_FFFF, the largest 32-bit value |
| Transitions.Mask | TuringMachineLineator/TuringMachineLineator/TransitionFunction.cs:50 | `& 0xEFFF` gives at most 0xEFFF, keeps values below 0x1000, and maps 0xFFFF_FFFF to 0xEFFF |
| Transitions.FirstAction | TuringMachineLineator/TuringMachineLineator/TransitionFunction.cs:48-49 | the least position holding `<`, `>` or `-`, or the length when there is none |
| Transitions.OutputEndIsFirstAction | TuringMachineLineator/TuringMachineLineator/TransitionFunction.cs:48-50 | the minimum of the three casts, masked, is the first action position when that position is below 0x1000: an absent marker never wins the minimum |
| Transitions.OutputEndWithoutAction | TuringMachineLineator/TuringMachineLineator/TransitionFunction.cs:48-50 | with no action marker the split index is 0xEFFF |
| Transitions.Parse | TuringMachineLineator/TuringMachineLineator/TransitionFunction.cs:29-55 | IsGood is false exactly when the domain has fewer than 2 fields or the range fewer than 3, and then no other field is set; otherwise StartState followed by Parameters is the domain split, with at least one parameter, and the range split is EndState, Output, one dropped field and Actions |
| Transitions.NewTransitionFunction | TuringMachineLineator/TuringMachineLineator/TransitionFunction.cs:29-55 | the step-by-step constructor (split, count check, RemoveAt, narrowing of iOutputEnd, two GetRange calls) yields exactly Parse, including its exceptions |
| Transitions.ParseAtFirstAction | TuringMachineLineator/TuringMachineLineator/TransitionFunction.cs:48-53 | with the first action at position 1 <= p < 0x1000 of the fields after EndState, Actions is the suffix from p and starts with an action, Output is the fields before p - 1 and holds no action, and field p - 1 is in neither |
| Transitions.ParseThrowsOnLeadingAction | TuringMachineLineator/TuringMachineLineator/TransitionFunction.cs:52 | an action directly after EndState makes `GetRange(0, -1)` throw |
| Transitions.ParseWithoutAction | TuringMachineLineator/TuringMachineLineator/TransitionFunction.cs:48-53 | with no action marker the constructor throws exactly when fewer than 0xEFFF fields follow EndState |
| Machines.DistinctMembers | TuringMachineLineator/TuringMachineLineator/TuringMachine.cs:104-109 | the `Contains`-guarded collection keeps exactly the elements of its input |
| Machines.DistinctHasNoDuplicates | TuringMachineLineator/TuringMachineLineator/TuringMachine.cs:106-109 | the collection holds no element twice |
| Machines.DistinctFirstSeenOrder | TuringMachineLineator/TuringMachineLineator/TuringMachine.cs:102-110 | the collection lists elements in the order of their first occurrence in the input |
| Machines.AllParametersMembers | TuringMachineLineator/TuringMachineLineator/TuringMachine.cs:102-104 | a symbol is among all read symbols exactly when some transition reads it |
| Machines.TapeLibraryIsDistinctReadSymbols | TuringMachineLineator/TuringMachineLineator/TuringMachine.cs:99-114 | the tape library holds a symbol exactly when some transition reads it (so Output symbols only when also read), holds none twice, and is in first-seen order over transitions and then parameter positions |
| Machines.TuringMachine.ExtractTapeLibrary | TuringMachineLineator/TuringMachineLineator/TuringMachine.cs:99-114 | the nested loop with its `Contains` guard sets TapeLibrary to the distinct read symbols of TransitionSet and changes no other field |
| Machines.TuringMachine.constructor | TuringMachineLineator/TuringMachineLineator/TuringMachine.cs:89-97 | stores name, start state, transition set and accept states, and infers the tape library |
| Machines.ScanFailureSticks | TuringMachineLineator/TuringMachineLineator/TuringMachine.cs:33-53 | once a line throws, later lines do not change the outcome |
| Machines.TransitionLines | TuringMachineLineator/TuringMachineLineator/TuringMachine.cs:35-40 | the lines that reach the transition branches are input lines without ':' |
| Machines.StepPairsTransitionLine | TuringMachineLineator/TuringMachineLineator/TuringMachine.cs:40-52 | a non-header line either becomes the pending domain line or completes the pending pair, clearing it and appending the transition when IsGood holds |
| Machines.ScanPairsTransitionLines | TuringMachineLineator/TuringMachineLineator/TuringMachine.cs:40-52 | when no transition line is blank, the non-header lines pair up in order (headers in between leave the pending line alone), the transition set is the pairs that parse with IsGood in input order, and an odd last line is left pending |
| Machines.ScanHeadersMapped | TuringMachineLineator/TuringMachineLineator/TuringMachine.cs:35-39 | every header line's key (before the first ':') is in the map with its value (between the first and second ':') |
| Machines.ScanHeadersOnly | TuringMachineLineator/TuringMachineLineator/TuringMachine.cs:35-39 | every key in the map comes from some header line |
| Machines.ScanHeadersDistinct | TuringMachineLineator/TuringMachineLineator/TuringMachine.cs:37-38 | when the reading returns, no two header lines share a key: `Dictionary.Add` on a repeated key throws |
| Machines.TuringMachine.BuildTuringMachine | TuringMachineLineator/TuringMachineLineator/TuringMachine.cs:21-71 | an exception while reading propagates; otherwise the result is null exactly when Name, StartState or AcceptStates is missing, and else a machine with trimmed name and start state, comma-split and trimmed accept states, the accepted transitions and their tape library |
| Lineation.StateParts | TuringMachineLineator/TuringMachineLineator/Lineator.cs:123-126 | extractStateParms always yields at least the base name |
| Lineation.StateNameParts | TuringMachineLineator/TuringMachineLineator/Lineator.cs:118-126 | for a symbol without '-', the parts of `constructStateName(b, c)` are the parts of `b` followed by `c` |
| Lineation.ComposeParts | TuringMachineLineator/TuringMachineLineator/Lineator.cs:118-126 | a state named from a base by a sequence of '-'-free symbols splits into the base's parts followed by those symbols |
| Lineation.ComposeInjective | TuringMachineLineator/TuringMachineLineator/Lineator.cs:118-126 | two different sequences of '-'-free symbols never name the same composite state |
| Lineation.FlatStateMatch | TuringMachineLineator/TuringMachineLineator/Lineator.cs:128-141 | returns true exactly when the first part equals StartState and the remaining parts are a prefix of Parameters; it throws ArgumentOutOfRange exactly when the name matches and Parameters is a proper prefix of the remaining parts |
| Lineation.CollectMatchedSymbols | TuringMachineLineator/TuringMachineLineator/Lineator.cs:98 | the `Where(flatStateMatch).Select(Parameters[i])` query, evaluated in transition order, yields MatchedSymbols, including the first exception |
| Lineation.MatchCount | TuringMachineLineator/TuringMachineLineator/Lineator.cs:98 | at most one match per transition, and none when no transition matches |
| Lineation.MatchedSymbolsReturns | TuringMachineLineator/TuringMachineLineator/Lineator.cs:98 | the query returns exactly when every transition is readable at step i (no overrun, and a matching transition has more than i parameters); it then yields one symbol per matching transition, and a symbol is in it exactly when a matching transition reads it at i |
| Lineation.MatchedSymbolsReadable | TuringMachineLineator/TuringMachineLineator/Lineator.cs:98 | the query returns exactly when every transition is readable at step i |
| Lineation.MatchedSymbolsLength | TuringMachineLineator/TuringMachineLineator/Lineator.cs:98 | a returning query yields one symbol per matching transition |
| Lineation.MatchedSymbolsMember | TuringMachineLineator/TuringMachineLineator/Lineator.cs:98 | a symbol is collected exactly when a matching transition reads it at step i |
| Lineation.MatchedFailureSticks | TuringMachineLineator/TuringMachineLineator/Lineator.cs:98 | once the query throws on a transition, later transitions do not change the outcome |
| Lineation.MatchReadsSeen | TuringMachineLineator/TuringMachineLineator/Lineator.cs:134-138 | every symbol a matching state has seen is a read symbol of the transition |
| Lineation.BoundarySeenMatchesNothing | TuringMachineLineator/TuringMachineLineator/Lineator.cs:98-99 | with '#' outside the tape library, a state that has seen '#' matches no transition, so the query yields nothing and '#' is its only move-right symbol |
| Lineation.MoveRight | TuringMachineLineator/TuringMachineLineator/Lineator.cs:100-111 | the innermost loop builds, symbol by symbol, the transition from lines `s,c` and `s-c,c,>` and the state `s-c`, stopping at the first exception: it yields Emit |
| Lineation.EmitCount | TuringMachineLineator/TuringMachineLineator/Lineator.cs:100-111 | exactly one transition and one state per move-right symbol, the k-th state being `s-c` for the k-th symbol c |
| Lineation.EmitParses | TuringMachineLineator/TuringMachineLineator/Lineator.cs:102-108 | one transition per symbol, and the k-th transition built is the one the constructor parses from the k-th symbol's lines |
| Lineation.EmitMember | TuringMachineLineator/TuringMachineLineator/Lineator.cs:100-110 | the inner loop leads from `s` to `s-c` for each of its symbols c, and to no other state |
| Lineation.MoveRightParse | TuringMachineLineator/TuringMachineLineator/Lineator.cs:102-107 | for a state and symbol without ',' and a symbol that is not an action, re-parsing gives a transition from `s` to `s-c` that reads [c], writes nothing and has Actions [">"] |
| Lineation.MoveRightOverAction | TuringMachineLineator/TuringMachineLineator/Lineator.cs:102-107 | a move-right transition over `<`, `>` or `-` makes the constructor throw from `GetRange(0, -1)` |
| Lineation.EmitSucceeds | TuringMachineLineator/TuringMachineLineator/Lineator.cs:100-111 | over safe symbols the inner loop does not throw and builds only move-right transitions |
| Lineation.EmitThrowsOnAction | TuringMachineLineator/TuringMachineLineator/Lineator.cs:105-107 | one action marker among the move-right symbols makes the inner loop throw |
| Lineation.EmitFailureSticks | TuringMachineLineator/TuringMachineLineator/Lineator.cs:100-111 | once a transition of the inner loop throws, later symbols do not change the outcome |
| Lineation.Successors | TuringMachineLineator/TuringMachineLineator/Lineator.cs:95-111 | every state of a frontier has at least one successor (the one over '#') |
| Lineation.Expand | TuringMachineLineator/TuringMachineLineator/Lineator.cs:95-111 | a returning expansion of a frontier yields one transition and one state per state plus one per transition that state matches, with no de-duplication (which states they are: ExpandMember; which transitions: ExpandTransition) |
| Lineation.ExpandTransition | TuringMachineLineator/TuringMachineLineator/Lineator.cs:95-111 | the k-th transition of step i is the one the constructor parses from the lines `s,c` and `s-c,c,>` for a state s of the frontier and a symbol c that s moves over (`#`, or Parameters[i] of a transition s matches), and the k-th state built is `s-c` |
| Lineation.MovesOverMatched | TuringMachineLineator/TuringMachineLineator/Lineator.cs:98-99 | when the query returns, `#` followed by its symbols are exactly the symbols the state moves over: `#` and Parameters[i] of each transition it matches |
| Lineation.ExpandMember | TuringMachineLineator/TuringMachineLineator/Lineator.cs:95-111 | step i leads exactly to the states `s-c` for s in frontier i and c either `#` or Parameters[i] of a transition that s matches |
| Lineation.ExpandFrontier | TuringMachineLineator/TuringMachineLineator/Lineator.cs:95-111 | the loop over the states of frontier i, in order, yields Expand |
| Lineation.ExpandFailureSticks | TuringMachineLineator/TuringMachineLineator/Lineator.cs:95-111 | once the expansion of a state throws, later states do not change the outcome |
| Lineation.SweepSteps | TuringMachineLineator/TuringMachineLineator/Lineator.cs:87-114 | a returning sweep of n steps has n + 1 frontiers, frontier 0 is [StartState], every frontier is non-empty and has one state per successor of the frontier before, frontier j + 1 is the list of states that step j builds from frontier j, and there is one transition per state of frontiers 1..n |
| Lineation.SweepLayer | TuringMachineLineator/TuringMachineLineator/Lineator.cs:90-110 | the transitions that step j builds stand, in order and contiguously, in the transition list after those of the earlier steps, at the positions counted by the sizes of frontiers 1..j |
| Lineation.SweepTransitionInto | TuringMachineLineator/TuringMachineLineator/Lineator.cs:95-110 | the k-th state of frontier j + 1 is `s-c` for a state s of frontier j and a symbol c it moves over, and the transition at the matching position of the list is the one parsed from the lines `s,c` and `s-c,c,>` |
| Lineation.SweepTransition | TuringMachineLineator/TuringMachineLineator/Lineator.cs:95-110 | every transition in the list is the one parsed from the lines `s,c` and `s-c,c,>` for a state s of some frontier j and a symbol c that s moves over at step j, and `s-c` is in frontier j + 1 |
| Lineation.SweepInto | TuringMachineLineator/TuringMachineLineator/Lineator.cs:95-110 | for uniform safe arity K, every state of frontier j + 1 is the target of a move-right transition in the list from a state of frontier j |
| Lineation.SweepFrom | TuringMachineLineator/TuringMachineLineator/Lineator.cs:95-110 | for uniform safe arity K, every transition in the list goes from a state of some frontier j < K to a state of frontier j + 1 |
| Lineation.SweepMember | TuringMachineLineator/TuringMachineLineator/Lineator.cs:90-111 | frontier j + 1 holds exactly the states `s-c` for s in frontier j and c either `#` or Parameters[j] of a transition that s matches |
| Lineation.SweepFailureSticks | TuringMachineLineator/TuringMachineLineator/Lineator.cs:90-114 | once a step throws, later steps do not change the outcome |
| Lineation.FrontierMap | TuringMachineLineator/TuringMachineLineator/Lineator.cs:88-92 | the dictionary mapStatesBySeenTapes has exactly the keys 0 to the number of frontiers - 1 |
| Lineation.SweepTapes | TuringMachineLineator/TuringMachineLineator/Lineator.cs:73-114 | the outer loop over i < K, filling mapStatesBySeenTapes[i + 1] and appending to lstFlatTransitionSet, yields Flatten |
| Lineation.Lineate | TuringMachineLineator/TuringMachineLineator/Lineator.cs:61-116 | an exception while building the machine propagates, a null machine throws NullReference, a tape library holding `#`, `R`, `~` or `$` stops before any transition is built, an empty transition set throws at First(), and otherwise the result is the K-step sweep from the trimmed start state |
| Lineation.FlattenShape | TuringMachineLineator/TuringMachineLineator/Lineator.cs:87-111 | whenever the sweep returns, the frontier map has exactly the keys 0..K, frontier 0 is [StartState], no frontier is empty, frontier j + 1 has one state per state of frontier j plus one per transition it matches, and the flat transition set has one transition per state of frontiers 1..K |
| Lineation.StateAtStep | TuringMachineLineator/TuringMachineLineator/Lineator.cs:102 | moving over a safe symbol from a state with j seen symbols reaches a state with j + 1 |
| Lineation.MatchedSymbolsAt | TuringMachineLineator/TuringMachineLineator/Lineator.cs:98 | before step K, a state with i seen symbols can read every transition of uniform safe arity K, and the symbols it collects are safe |
| Lineation.ExpandSucceeds | TuringMachineLineator/TuringMachineLineator/Lineator.cs:95-111 | step i < K over states with i seen symbols does not throw, builds only move-right transitions and reaches states with i + 1 seen symbols |
| Lineation.SweepSucceeds | TuringMachineLineator/TuringMachineLineator/Lineator.cs:90-114 | for uniform safe arity K and a safe start state, the first n <= K steps do not throw, every transition moves right, and every state of frontier j has exactly j seen symbols |
| Lineation.FlattenSucceeds | TuringMachineLineator/TuringMachineLineator/Lineator.cs:61-116 | for uniform safe arity K and a safe start state, lineation returns a map with keys 0..K and frontier 0 = [StartState]; every frontier j is non-empty, every state in it is the start state followed by j safe symbols, every flat transition reads one symbol, writes nothing and moves right to `s-c`, there is one flat transition per state of frontiers 1..K, every state of frontier j >= 1 is the target of a flat transition from a state of frontier j - 1, and every flat transition goes from a state of some frontier j to one of frontier j + 1 (which states are reached: FlattenReaches, FlattenReachedOnly) |
| Lineation.SweepReaches | TuringMachineLineator/TuringMachineLineator/Lineator.cs:78-111 | for uniform safe arity K, frontier j holds the state named by the start state and the first j read symbols of every transition from the start state |
| Lineation.SweepReachedOnly | TuringMachineLineator/TuringMachineLineator/Lineator.cs:90-111 | for uniform safe arity K, every state of frontier j >= 1 whose last symbol is not `#` is named by the first j read symbols of some transition from the start state |
| Lineation.FlattenReaches | TuringMachineLineator/TuringMachineLineator/Lineator.cs:78-111 | for uniform safe arity K and a safe start state, lineation reaches a determined state for every transition from the start state: frontier j of the map holds the state named by its first j read symbols, and frontier K the state named by all of them |
| Lineation.FlattenReachedOnly | TuringMachineLineator/TuringMachineLineator/Lineator.cs:78-111 | conversely, every state of frontier j >= 1 of the map whose last symbol is not `#` is named by the first j read symbols of a transition from the start state |

## Left out

- `Lineator.Import` reads a file and keeps only the lines longer than two characters that
  do not start with `//` or `\\`. It is I/O, so `Lineate` takes the kept lines as a
  parameter, and this filter is not modelled. When the file does not exist, `Import` returns
  without setting the line list, so `BuildTuringMachine` then throws a null reference on its
  `foreach`; the model has no missing-file case.
- Machines.IsHeader: the header test `line.IndexOf(":") != -1` is the culture-sensitive
  `String.IndexOf(string)`. The model tests ordinal containment of ':', so a ':' that a
  culture-sensitive search skips (one followed by a combining mark, say) is treated as a
  header here and as a transition line by the program.
- The unused `OutputFileName` parameter and any serialization are left out: the source
  writes nothing. The model returns the flat transition set and the frontier map instead of
  discarding them.
- The `RejectStates` field is never assigned or read.
- Running or simulating a machine, and any phase after head location, are left out: they do
  not exist in the source.
- Exceptions are modelled by kind (`DuplicateKey`, `InvalidRange`, `ArgumentOutOfRange`,
  `NullReference`, `EmptySequence`). Their messages and stack unwinding are not.
- Transitions.Mask: models `& 0xEFFF` on the 32-bit value with `nat` arithmetic (low 16
  bits, bit 12 cleared). It is not stated over bit-vectors.
- Transitions.Parse: a transition with IsGood false has its other fields at null in the
  source. The model sets them to empty strings and lists.
- Machines.ScanPairsTransitionLines: stated only when no line without ':' is blank. A blank
  line read while nothing is pending becomes the pending line and is replaced by the next
  one. That case is modelled in `ScanLines` but has no lemma of its own.
- Lineation.Lineate: the source's nested loops are split into the methods `SweepTapes`,
  `ExpandFrontier`, `MoveRight` and `CollectMatchedSymbols`. The source assigns an empty
  `mapStatesBySeenTapes[i + 1]` first and adds states to it one by one. The model stores the
  finished list once per step. The map and the transition list are locals that are lost
  when an exception is thrown, so the difference is not observable.
- Lineation.SweepSucceeds: proved only for transition sets with uniform arity K whose read
  symbols hold no '-' or ',' and are not action markers, and for a start state without '-'
  or ','. Outside that case `FlattenShape` still gives the shape of any result that returns,
  and `SweepMember` says which states each frontier holds.
- Lineation.FlattenSucceeds: the same restriction as `SweepSucceeds`. Outside it, `SweepTransition`
  and `SweepTransitionInto` still say, position by position, which lines each flat transition
  is parsed from.
- Lineation.SweepInto: the same restriction; it rests on `SweepSucceeds`.
- Lineation.SweepFrom: the same restriction; it rests on `SweepSucceeds`.
- Lineation.SweepReaches: the same restriction; it rests on `SweepSucceeds`.
- Lineation.SweepReachedOnly: the same restriction; it rests on `SweepSucceeds`.
- Lineation.FlattenReaches: the same restriction; it rests on `SweepSucceeds`.
- Lineation.FlattenReachedOnly: the same restriction; it rests on `SweepSucceeds`.
- Lineation.BoundarySeenMatchesNothing: requires that no transition is overrun by the state
  (`MatchOverruns`), since an overrun throws before any match is decided.
