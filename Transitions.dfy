/** One transition function of a K-tape machine, parsed from a domain line
    `state,p1,..,pK` and a range line `state,o1,..,oM,a1,..,aK`. */
module Transitions {
  import opened Text
  import opened Exceptions

  /** The fields of a TransitionFunction object. Only its constructor assigns them. */
  datatype TransitionFunction = TransitionFunction(
    StartState: string,
    EndState: string,
    Parameters: seq<string>,
    Output: seq<string>,
    Actions: seq<string>,
    IsGood: bool)

  /** The object built from lines with too few fields: IsGood is false and no other field
      is assigned (they stay null; the model shows them empty). */
  const Rejected := TransitionFunction("", "", [], [], [], false)

  /** The head actions: move left, move right, stay. */
  predicate IsAction(field: string) {
    field == "<" || field == ">" || field == "-"
  }

  /** `(uint)i` for an index returned by List.IndexOf: -1 becomes 0xFFFF_FFFF. */
  function AsUInt(i: int): (u: nat)
    requires i >= -1
    ensures i >= 0 ==> u == i
    ensures i == -1 ==> u == 0xFFFF_FFFF
  {
    if i < 0 then 0x1_0000_0000 + i else i
  }

  function Min(a: nat, b: nat): nat {
    if a <= b then a else b
  }

  /** `x & 0xEFFF` on a 32-bit unsigned value: the low 16 bits with bit 12 cleared. */
  function Mask(x: nat): (r: nat)
    ensures r <= 0xEFFF
    ensures x < 0x1000 ==> r == x
    ensures x == 0xFFFF_FFFF ==> r == 0xEFFF
  {
    var low := x % 0x1_0000;
    if low / 0x1000 % 2 == 1 then low - 0x1000 else low
  }

  /** iOEnd: the least of the three IndexOf results cast to uint, masked. An absent marker
      is 0xFFFF_FFFF after the cast and so never wins the minimum. */
  function OutputEnd(fields: seq<string>): nat {
    var least := Min(AsUInt(IndexOf(fields, "<")), AsUInt(IndexOf(fields, ">")));
    Mask(Min(least, AsUInt(IndexOf(fields, "-"))))
  }

  /** The least position holding an action, or |fields| when there is none. */
  function FirstAction(fields: seq<string>): (p: nat)
    ensures p <= |fields|
    ensures forall k :: 0 <= k < p ==> !IsAction(fields[k])
    ensures p < |fields| ==> IsAction(fields[p])
  {
    if fields == [] || IsAction(fields[0]) then 0 else 1 + FirstAction(fields[1..])
  }

  /** Taking the minimum of the three casts finds the first action of any kind,
      as long as it stands within the bits the mask keeps. */
  lemma OutputEndIsFirstAction(fields: seq<string>)
    requires FirstAction(fields) < |fields| && FirstAction(fields) < 0x1000
    ensures OutputEnd(fields) == FirstAction(fields)
  {
    var p := FirstAction(fields);
    var i1, i2, i3 := IndexOf(fields, "<"), IndexOf(fields, ">"), IndexOf(fields, "-");
    assert i1 == -1 || p <= i1 by {
      if i1 != -1 { assert IsAction(fields[i1]); }
    }
    assert i2 == -1 || p <= i2 by {
      if i2 != -1 { assert IsAction(fields[i2]); }
    }
    assert i3 == -1 || p <= i3 by {
      if i3 != -1 { assert IsAction(fields[i3]); }
    }
    assert i1 == p || i2 == p || i3 == p by {
      assert fields[p] !in fields[..p];
    }
    var least := Min(Min(AsUInt(i1), AsUInt(i2)), AsUInt(i3));
    assert least == p;
  }

  /** With no action among the fields, all three casts are 0xFFFF_FFFF and the mask leaves 0xEFFF. */
  lemma OutputEndWithoutAction(fields: seq<string>)
    requires FirstAction(fields) == |fields|
    ensures OutputEnd(fields) == 0xEFFF
  {
    assert "<" !in fields && ">" !in fields && "-" !in fields;
  }

  /** Both domain and range lines have enough fields: at least a state and one symbol,
      and a state, one symbol and one action. */
  predicate FieldCountsOk(domainLine: string, rangeLine: string) {
    |Split(domainLine, ',')| >= 2 && |Split(rangeLine, ',')| >= 3
  }

  /** The range fields after the end state, where write symbols and actions stand. */
  function RangeTail(rangeLine: string): seq<string> {
    Split(rangeLine, ',')[1..]
  }

  /** What `new TransitionFunction(domainLine, rangeLine)` yields: a transition whose IsGood
      records the field counts, or the exception List.GetRange throws when the split index
      leaves no room for the write symbols and actions. */
  function Parse(domainLine: string, rangeLine: string): (r: Result<TransitionFunction>)
    ensures r.Returned? && !r.value.IsGood <==> !FieldCountsOk(domainLine, rangeLine)
    ensures r.Returned? && !r.value.IsGood ==> r.value == Rejected
    ensures r.Returned? && r.value.IsGood ==>
      && [r.value.StartState] + r.value.Parameters == Split(domainLine, ',')
      && |r.value.Parameters| >= 1
    ensures r.Returned? && r.value.IsGood ==>
      var range := Split(rangeLine, ',');
      && |r.value.Output| + |r.value.Actions| + 2 == |range|
      && range == [r.value.EndState] + r.value.Output + [range[|r.value.Output| + 1]] + r.value.Actions
  {
    if !FieldCountsOk(domainLine, rangeLine) then Returned(Rejected)
    else
      var domain := Split(domainLine, ',');
      var range := Split(rangeLine, ',');
      var fields := range[1..];
      var k := OutputEnd(fields);
      if k == 0 then Threw(InvalidRange(0, -1))
      else if k - 1 > |fields| then Threw(InvalidRange(0, k - 1))
      else if k > |fields| then Threw(InvalidRange(k, |fields| - k))
      else
        assert range == [range[0]] + fields[..k - 1] + [fields[k - 1]] + fields[k..] by {
          CutAround(range, k);
        }
        Returned(TransitionFunction(domain[0], range[0], domain[1..], fields[..k - 1], fields[k..], true))
  }

  /** A sequence is its head, the part before position k, the element there and the rest. */
  lemma CutAround<T>(xs: seq<T>, k: nat)
    requires 1 <= k < |xs|
    ensures xs == [xs[0]] + xs[1..][..k - 1] + [xs[k]] + xs[1..][k..]
  {
    assert xs[1..] == xs[1..][..k - 1] + [xs[k]] + xs[1..][k..];
  }

  /** The TransitionFunction constructor, step by step: split both lines, clear IsGood on
      too few fields, remove the two states from the front of their lists, narrow the
      split index, and cut the remaining range fields at it. */
  method NewTransitionFunction(domainLine: string, rangeLine: string) returns (r: Result<TransitionFunction>)
    ensures r == Parse(domainLine, rangeLine)
  {
    var parseDL := Split(domainLine, ',');
    var parseRL := Split(rangeLine, ',');
    var isGood := true;
    if |parseDL| < 2 || |parseRL| < 3 {
      isGood := false;
    }
    if !isGood {
      return Returned(Rejected);
    }
    var startState := parseDL[0];
    parseDL := parseDL[1..];
    var parameters := parseDL;
    var endState := parseRL[0];
    parseRL := parseRL[1..];
    var outputEnd := Min(AsUInt(IndexOf(parseRL, "<")), AsUInt(IndexOf(parseRL, ">")));
    outputEnd := Min(outputEnd, AsUInt(IndexOf(parseRL, "-")));
    outputEnd := Mask(outputEnd);
    var oEnd: int := outputEnd;
    assert parseRL == RangeTail(rangeLine) && oEnd == OutputEnd(parseRL);
    if oEnd - 1 < 0 {
      return Threw(InvalidRange(0, oEnd - 1));
    }
    if oEnd - 1 > |parseRL| {
      return Threw(InvalidRange(0, oEnd - 1));
    }
    var output := parseRL[..oEnd - 1];
    if |parseRL| - oEnd < 0 {
      return Threw(InvalidRange(oEnd, |parseRL| - oEnd));
    }
    var actions := parseRL[oEnd..];
    r := Returned(TransitionFunction(startState, endState, parameters, output, actions, isGood));
  }

  /** With the first action at position p (1 <= p < 0x1000) of the range fields after the
      end state, Actions is the suffix from p, which begins with that action, and Output is
      the prefix before p - 1: the write symbol just before the first action is in neither. */
  lemma {:induction false} ParseAtFirstAction(domainLine: string, rangeLine: string)
    requires FieldCountsOk(domainLine, rangeLine)
    requires 1 <= FirstAction(RangeTail(rangeLine)) < |RangeTail(rangeLine)|
    requires FirstAction(RangeTail(rangeLine)) < 0x1000
    ensures
      var fields := RangeTail(rangeLine);
      var p := FirstAction(fields);
      var r := Parse(domainLine, rangeLine);
      && r.Returned? && r.value.IsGood
      && r.value.Actions == fields[p..] && IsAction(r.value.Actions[0])
      && r.value.Output == fields[..p - 1]
      && (forall k :: 0 <= k < |r.value.Output| ==> !IsAction(r.value.Output[k]))
  {
    OutputEndIsFirstAction(RangeTail(rangeLine));
  }

  /** An action directly after the end state leaves GetRange(0, -1): the constructor throws. */
  lemma {:induction false} ParseThrowsOnLeadingAction(domainLine: string, rangeLine: string)
    requires FieldCountsOk(domainLine, rangeLine)
    requires IsAction(RangeTail(rangeLine)[0])
    ensures Parse(domainLine, rangeLine).Threw?
  {
    OutputEndIsFirstAction(RangeTail(rangeLine));
  }

  /** Without any action the split index is 0xEFFF, and GetRange throws exactly when the
      range has fewer fields after the end state than that. */
  lemma {:induction false} ParseWithoutAction(domainLine: string, rangeLine: string)
    requires FieldCountsOk(domainLine, rangeLine)
    requires forall k :: 0 <= k < |RangeTail(rangeLine)| ==> !IsAction(RangeTail(rangeLine)[k])
    ensures Parse(domainLine, rangeLine).Threw? <==> |RangeTail(rangeLine)| < 0xEFFF
  {
    OutputEndWithoutAction(RangeTail(rangeLine));
  }
}
