// The output of the minimal-ECI planner: a flat sequence of units, each a
// byte, an ECI (a character-set switch) or the FNC1 character, together with
// the indexed accessors that read it.  Only the declared contract of the
// planner exists; its minimisation algorithm is not part of this model.

module EciInput {
  import opened Wrappers

  /** One position of the planned input. */
  datatype Unit =
    | Byte(byteValue: int)
    | Eci(eciValue: int)
    | Fnc1

  /**
   * A `MinimalECIInput`: the planned units and the code point that stands for
   * FNC1 in the text to encode (-1 when the input is not GS1).
   */
  datatype MinimalEciInput = MinimalEciInput(units: seq<Unit>, fnc1: int)

  /** The two exceptions the accessors document. */
  datatype InputError = IndexOutOfBounds | IllegalArgument

  /** A well-formed input: bytes are bytes, and no FNC1 unit appears in non-GS1 input. */
  predicate Valid(input: MinimalEciInput)
  {
    && (forall i :: 0 <= i < |input.units| && input.units[i].Byte? ==> 0 <= input.units[i].byteValue < 256)
    && (input.fnc1 == -1 ==> forall i :: 0 <= i < |input.units| ==> !input.units[i].Fnc1?)
  }

  predicate InRange(input: MinimalEciInput, index: int)
  {
    0 <= index < |input.units|
  }

  // ---------------------------------------------------------------------------
  // Accessors

  /** `getFNC1Character()`. */
  function GetFnc1Character(input: MinimalEciInput): (c: int)
    ensures Valid(input) && c == -1 ==> forall i :: 0 <= i < |input.units| ==> !input.units[i].Fnc1?
  {
    input.fnc1
  }

  /** `length()`: every unit counts one, whatever its kind. */
  function Length(input: MinimalEciInput): (n: nat)
    ensures n == CountBytes(input.units) + CountEcis(input.units) + CountFnc1s(input.units)
  {
    LengthCountsEveryUnit(input.units);
    |input.units|
  }

  /** `charAt(index)`: the byte value, or the FNC1 character. */
  function CharAt(input: MinimalEciInput, index: int): (r: Result<int, InputError>)
    ensures r.Success? <==> InRange(input, index) && !input.units[index].Eci?
    ensures r.Failure? ==> (r.error == IndexOutOfBounds <==> !InRange(input, index))
    ensures r.Success? && input.units[index].Byte? ==> r.value == input.units[index].byteValue
    ensures r.Success? && input.units[index].Fnc1? ==> r.value == GetFnc1Character(input)
  {
    if index < 0 || index >= Length(input) then Failure(IndexOutOfBounds)
    else match input.units[index]
      case Eci(_) => Failure(IllegalArgument)
      case Byte(b) => Success(b)
      case Fnc1 => Success(input.fnc1)
  }

  /**
   * `subSequence(start, end)`: the characters at `start` up to `end - 1`.
   * The bounds are checked first; then each position is read in turn, so an
   * ECI anywhere in the range makes the call fail.
   */
  function SubSequence(input: MinimalEciInput, start: int, end: int): (r: Result<seq<int>, InputError>)
    decreases end - start
    ensures r.Failure? <==>
      || start < 0 || end < 0 || start > end || end > Length(input)
      || exists k :: start <= k < end && input.units[k].Eci?
    ensures r.Failure? ==>
      (r.error == IndexOutOfBounds <==> start < 0 || end < 0 || start > end || end > Length(input))
    ensures r.Success? ==> |r.value| == end - start
    ensures r.Success? ==> forall k :: 0 <= k < end - start ==> CharAt(input, start + k) == Success(r.value[k])
  {
    if start < 0 || end < 0 || start > end || end > Length(input) then Failure(IndexOutOfBounds)
    else if start == end then Success([])
    else match CharAt(input, start)
      case Failure(e) => Failure(e)
      case Success(c) =>
        match SubSequence(input, start + 1, end)
        case Failure(e) => Failure(e)
        case Success(rest) => Success([c] + rest)
  }

  /** `isECI(index)`. */
  function IsEci(input: MinimalEciInput, index: int): (r: Result<bool, InputError>)
    ensures r.Failure? <==> !InRange(input, index)
    ensures r.Failure? ==> r.error == IndexOutOfBounds
    ensures r.Success? ==> (r.value <==> input.units[index].Eci?)
  {
    if index < 0 || index >= Length(input) then Failure(IndexOutOfBounds)
    else Success(input.units[index].Eci?)
  }

  /** `isFNC1(index)`. */
  function IsFnc1(input: MinimalEciInput, index: int): (r: Result<bool, InputError>)
    ensures r.Failure? <==> !InRange(input, index)
    ensures r.Failure? ==> r.error == IndexOutOfBounds
    ensures r.Success? ==> (r.value <==> input.units[index].Fnc1?)
  {
    if index < 0 || index >= Length(input) then Failure(IndexOutOfBounds)
    else Success(input.units[index].Fnc1?)
  }

  /** `getECIValue(index)`: the ECI number of an ECI unit. */
  function GetEciValue(input: MinimalEciInput, index: int): (r: Result<int, InputError>)
    ensures r.Success? <==> InRange(input, index) && input.units[index].Eci?
    ensures r.Failure? ==> (r.error == IndexOutOfBounds <==> !InRange(input, index))
    ensures r.Success? ==> input.units[index] == Eci(r.value)
  {
    if index < 0 || index >= Length(input) then Failure(IndexOutOfBounds)
    else match input.units[index]
      case Eci(v) => Success(v)
      case _ => Failure(IllegalArgument)
  }

  // ---------------------------------------------------------------------------
  // Properties of the accessors

  function CountBytes(units: seq<Unit>): nat
  {
    if units == [] then 0 else (if units[0].Byte? then 1 else 0) + CountBytes(units[1..])
  }

  function CountEcis(units: seq<Unit>): nat
  {
    if units == [] then 0 else (if units[0].Eci? then 1 else 0) + CountEcis(units[1..])
  }

  function CountFnc1s(units: seq<Unit>): nat
  {
    if units == [] then 0 else (if units[0].Fnc1? then 1 else 0) + CountFnc1s(units[1..])
  }

  /** The length is the number of bytes, FNC1 characters and ECIs together. */
  lemma {:induction false} LengthCountsEveryUnit(units: seq<Unit>)
    ensures |units| == CountBytes(units) + CountEcis(units) + CountFnc1s(units)
  {
    if units != [] {
      LengthCountsEveryUnit(units[1..]);
    }
  }

  /** At an index in range, exactly one of `charAt` and `getECIValue` succeeds, as `isECI` says. */
  lemma CharAtOrEciValue(input: MinimalEciInput, index: int)
    requires InRange(input, index)
    ensures CharAt(input, index).Success? != GetEciValue(input, index).Success?
    ensures GetEciValue(input, index).Success? <==> IsEci(input, index) == Success(true)
  {
  }

  /** A position `isFNC1` reports reads as the FNC1 character. */
  lemma Fnc1ReadsAsFnc1Character(input: MinimalEciInput, index: int)
    requires IsFnc1(input, index) == Success(true)
    ensures CharAt(input, index) == Success(GetFnc1Character(input))
  {
  }

  /** In a well-formed input every character read is a byte value or the FNC1 character of GS1 input. */
  lemma CharAtOfValidInput(input: MinimalEciInput, index: int)
    requires Valid(input)
    requires CharAt(input, index).Success?
    ensures var c := CharAt(input, index).value;
      (0 <= c < 256 && IsFnc1(input, index) == Success(false))
      || (c == GetFnc1Character(input) && c != -1 && IsFnc1(input, index) == Success(true))
  {
  }

  /** `subSequence(i, i)` is empty for every `i` from 0 to the length. */
  lemma EmptySubSequence(input: MinimalEciInput, i: int)
    requires 0 <= i <= Length(input)
    ensures SubSequence(input, i, i) == Success([])
  {
  }

  /** A sub-sequence of a sub-sequence's range is the matching slice of it. */
  lemma {:induction false} SubSequenceSlices(input: MinimalEciInput, start: int, mid: int, end: int)
    requires SubSequence(input, start, end).Success?
    requires start <= mid <= end
    ensures SubSequence(input, start, mid) == Success(SubSequence(input, start, end).value[..mid - start])
    ensures SubSequence(input, mid, end) == Success(SubSequence(input, start, end).value[mid - start..])
  {
    var whole := SubSequence(input, start, end).value;
    var left := SubSequence(input, start, mid);
    var right := SubSequence(input, mid, end);
    assert left.Success? && right.Success?;
    assert left.value == whole[..mid - start] by {
      forall k | 0 <= k < mid - start
        ensures left.value[k] == whole[k]
      {
        assert CharAt(input, start + k) == Success(whole[k]);
      }
    }
    assert right.value == whole[mid - start..] by {
      forall k | 0 <= k < end - mid
        ensures right.value[k] == whole[mid - start + k]
      {
        assert CharAt(input, mid + k) == Success(whole[mid - start + k]);
      }
    }
  }

  // ---------------------------------------------------------------------------
  // The governing ECI

  /**
   * The ECI in force at `index`: the value of the nearest ECI unit before it,
   * or None when no ECI precedes it.
   */
  function GoverningEci(input: MinimalEciInput, index: nat): (r: Option<int>)
    requires index <= |input.units|
    ensures r.Some? <==> exists j :: 0 <= j < index && input.units[j].Eci?
    ensures r.Some? ==> exists j ::
      && 0 <= j < index
      && input.units[j] == Eci(r.value)
      && (forall k :: j < k < index ==> !input.units[k].Eci?)
  {
    if index == 0 then None
    else if input.units[index - 1].Eci? then Some(input.units[index - 1].eciValue)
    else GoverningEci(input, index - 1)
  }

  /**
   * An ECI at `j` specifies the encoding of every position after it until the
   * next ECI, or until the end of the input when no other ECI follows.
   */
  lemma {:induction false} EciGovernsUntilNext(input: MinimalEciInput, j: nat, index: nat)
    requires j < index <= |input.units|
    requires input.units[j].Eci?
    requires forall k :: j < k < index ==> !input.units[k].Eci?
    ensures GoverningEci(input, index) == Some(input.units[j].eciValue)
    decreases index
  {
    if index - 1 != j {
      EciGovernsUntilNext(input, j, index - 1);
    }
  }

  /** The governing ECI changes only at ECI units. */
  lemma GoverningEciStepsOverNonEci(input: MinimalEciInput, index: nat)
    requires index < |input.units|
    requires !input.units[index].Eci?
    ensures GoverningEci(input, index + 1) == GoverningEci(input, index)
  {
  }

  // ---------------------------------------------------------------------------
  // The priority-charset rule

  /**
   * The rule the constructor promises: when the priority charset is given and
   * supported, every character of the text that it can encode is assigned to it.
   * `assignment[i]` is the charset chosen for `text[i]`.
   */
  predicate HonoursPriority<C(==)>(text: seq<int>, assignment: seq<C>, priority: Option<C>,
                                   supported: seq<C>, canEncode: (C, int) -> bool)
    ensures HonoursPriority(text, assignment, priority, supported, canEncode) ==> |assignment| == |text|
    ensures priority.Some? && priority.value in supported && (forall i :: 0 <= i < |text| ==> canEncode(priority.value, text[i]))
            ==> (HonoursPriority(text, assignment, priority, supported, canEncode)
                 <==> |assignment| == |text| && forall i :: 0 <= i < |assignment| ==> assignment[i] == priority.value)
  {
    && |assignment| == |text|
    && (priority.Some? && priority.value in supported ==>
          forall i :: 0 <= i < |text| && canEncode(priority.value, text[i]) ==> assignment[i] == priority.value)
  }

  /** The number of charset switches an assignment needs after its first character. */
  function Switches<C(==)>(assignment: seq<C>): nat
  {
    if |assignment| <= 1 then 0
    else (if assignment[0] != assignment[1] then 1 else 0) + Switches(assignment[1..])
  }

  /** An assignment that uses one charset throughout needs no switch. */
  lemma {:induction false} UniformNeedsNoSwitch<C>(assignment: seq<C>, c: C)
    requires forall i :: 0 <= i < |assignment| ==> assignment[i] == c
    ensures Switches(assignment) == 0
    decreases |assignment|
  {
    if |assignment| > 1 {
      UniformNeedsNoSwitch(assignment[1..], c);
    }
  }

  /**
   * When the supported priority charset can encode the whole text, every
   * character is assigned to it and no switch is needed: one run in that charset.
   */
  lemma PriorityCoveringTextGivesOneRun<C>(text: seq<int>, assignment: seq<C>, priority: C,
                                           supported: seq<C>, canEncode: (C, int) -> bool)
    requires HonoursPriority(text, assignment, Some(priority), supported, canEncode)
    requires priority in supported
    requires forall i :: 0 <= i < |text| ==> canEncode(priority, text[i])
    ensures forall i :: 0 <= i < |assignment| ==> assignment[i] == priority
    ensures Switches(assignment) == 0
  {
    UniformNeedsNoSwitch(assignment, priority);
  }

  /** Without a priority charset, or with an unsupported one, the rule constrains nothing. */
  lemma PriorityIgnoredWhenUnsupported<C>(text: seq<int>, assignment: seq<C>, priority: Option<C>,
                                          supported: seq<C>, canEncode: (C, int) -> bool)
    requires |assignment| == |text|
    requires priority.None? || priority.value !in supported
    ensures HonoursPriority(text, assignment, priority, supported, canEncode)
  {
  }
}
