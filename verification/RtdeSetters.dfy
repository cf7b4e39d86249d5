/** What each setter of the writer tells the robot, and which arguments it refuses. */
module RtdeSetters {
  import opened DataPackages
  import opened RtdeWriter
  import opened RtdeWriterRuns
  import opened Wrappers

  /** The value that the package sent last carries in a field. */
  function Told(s: State, name: string): Option<Value>
    requires s.sent != []
  {
    Lookup(s.sent[|s.sent| - 1].fields, name)
  }

  /** The state after the setter was called and the thread had one turn. */
  function Sent(s: State, call: Call, types: Types): (t: State)
    ensures t.sent != []
  {
    Turn(Called(s, call, types))
  }

  /** The thread waits for data and the setter returned true. */
  predicate Sends(s: State, call: Call) {
    s.thread == LoopTop && s.running && Succeeds(s, call)
  }

  /** Every field with none of these names is told as it was stored before. */
  ghost predicate TellsNoOther(s: State, t: State, names: set<string>)
    requires t.sent != []
  {
    forall name :: name !in names ==> Told(t, name) == Lookup(s.Store().fields, name)
  }

  const BITS := [1, 2, 4, 8, 16, 32, 64, 128]

  /** A setter of a digital output. */
  predicate IsDigital(call: Call) {
    call.StandardDigital? || call.ConfigurableDigital? || call.ToolDigital?
  }

  function DigitalField(call: Call): string
    requires IsDigital(call)
  {
    if call.StandardDigital? then "standard_digital_output"
    else if call.ConfigurableDigital? then "configurable_digital_output"
    else "tool_digital_output"
  }

  /** Switching a digital output tells the robot the bit of that pin alone in the mask, and all bits on or off. */
  lemma DigitalOutputIsTold(s: State, call: Call, types: Types)
    requires IsDigital(call) && Sends(s, call)
    ensures call.pin < (if call.ToolDigital? then 2 else 8)
    ensures var t := Sent(s, call, types);
            && Told(t, DigitalField(call) + "_mask") == Some(Value(UInt8, [BITS[call.pin]]))
            && Told(t, DigitalField(call)) == Some(Value(UInt8, [if call.on then 255 else 0]))
            && TellsNoOther(s, t, {DigitalField(call) + "_mask", DigitalField(call)})
  {
    assert Assignments(call).Some? && call.pin < (if call.ToolDigital? then 2 else 8);
    FirstPowers(call.pin);
    hide Pow2;
    var todo := Assignments(call).value;
    var field := DigitalField(call);
    assert todo[0].name == field + "_mask" && |todo[0].name| == |field| + 5;
    assert todo == [Assignment(field + "_mask", Value(UInt8, [BITS[call.pin]])),
                    Assignment(field, Value(UInt8, [if call.on then 255 else 0]))];
    hide Assignments, IsDigital, DigitalField, Told, TellsNoOther, Sends;
    TwoAreTold(s, call, todo[0], todo[1], types);
  }

  /** The speed slider tells the robot the fraction, and one in its mask. */
  lemma SpeedSliderIsTold(s: State, call: Call, types: Types)
    requires call.SpeedSlider? && Sends(s, call)
    ensures var t := Sent(s, call, types);
            && Told(t, "speed_slider_mask") == Some(Value(UInt32, [1]))
            && Told(t, "speed_slider_fraction") == Some(Value(Double, [call.fraction]))
            && TellsNoOther(s, t, {"speed_slider_mask", "speed_slider_fraction"})
  {
    var todo := Assignments(call).value;
    assert |todo[0].name| != |todo[1].name|;
    hide Assignments, Told, TellsNoOther, Sends;
    TwoAreTold(s, call, todo[0], todo[1], types);
  }

  const ANALOG_MASK := "standard_analog_output_mask"
  const ANALOG_TYPE := "standard_analog_output_type"
  const ANALOG_0 := "standard_analog_output_0"
  const ANALOG_1 := "standard_analog_output_1"

  /**
   * An analog output tells the robot the bit of that pin alone in the mask and its value for both outputs. The type
   * has no bit for a current and the bit of that pin for a voltage; left to the teach pendant, it stays as stored.
   */
  lemma AnalogOutputIsTold(s: State, call: Call, types: Types)
    requires call.StandardAnalog? && Sends(s, call)
    ensures call.pin < 2
    ensures var t := Sent(s, call, types);
            && Told(t, ANALOG_MASK) == Some(Value(UInt8, [BITS[call.pin]]))
            && Told(t, ANALOG_0) == Told(t, ANALOG_1) == Some(Value(Double, [call.value]))
            && (call.domain == Current ==> Told(t, ANALOG_TYPE) == Some(Value(UInt8, [0])))
            && (call.domain == Voltage ==> Told(t, ANALOG_TYPE) == Some(Value(UInt8, [BITS[call.pin]])))
            && (call.domain == SetOnTeachPendant ==> Told(t, ANALOG_TYPE) == Lookup(s.Store().fields, ANALOG_TYPE))
            && TellsNoOther(s, t, {ANALOG_MASK, ANALOG_TYPE, ANALOG_0, ANALOG_1})
  {
    assert Assignments(call).Some?;
    hide Assignments, Told, Sends, DistinctNames, TellsNoOther, Sent;
    var todo := AnalogAssignments(call);
    FourNames(s, call, todo, ANALOG_MASK, ANALOG_TYPE, ANALOG_0, ANALOG_1, types);
  }

  /** With three or four assignments, of which only the second may be left out. */
  lemma FourNames(s: State, call: Call, todo: seq<Assignment>, a: string, b: string, c: string, d: string, types: Types)
    requires 3 <= |todo| <= 4 && Sends(s, call) && Assignments(call) == Some(todo) && DistinctNames(todo)
    requires a != b && c != b && d != b
    requires todo[0].name == a && todo[|todo| - 2].name == c && todo[|todo| - 1].name == d
    requires |todo| == 4 ==> todo[1].name == b
    ensures var t := Sent(s, call, types);
            && Told(t, a) == Some(todo[0].value)
            && Told(t, c) == Some(todo[|todo| - 2].value) && Told(t, d) == Some(todo[|todo| - 1].value)
            && Told(t, b) == (if |todo| == 4 then Some(todo[1].value) else Lookup(s.Store().fields, b))
            && TellsNoOther(s, t, {a, b, c, d})
  {
    hide Assignments, Told, Sends, DistinctNames, Sent;
    var t := Sent(s, call, types);
    AllAreTold(s, call, todo, types);
    var (all, n) := (set x | x in todo :: x.name, |todo| - 1);
    assert Told(t, todo[0].name) == Some(todo[0].value);
    assert Told(t, todo[n - 1].name) == Some(todo[n - 1].value) && Told(t, todo[n].name) == Some(todo[n].value);
    if |todo| == 4 {
      assert Told(t, todo[1].name) == Some(todo[1].value);
    } else {
      assert b !in all;
    }
    assert all <= {a, b, c, d};
  }

  lemma AnalogNames()
    ensures ANALOG_MASK != ANALOG_TYPE && ANALOG_MASK != ANALOG_0 && ANALOG_MASK != ANALOG_1
    ensures ANALOG_TYPE != ANALOG_0 && ANALOG_TYPE != ANALOG_1 && ANALOG_0 != ANALOG_1
  {
    assert ANALOG_MASK[23] == 'm' && ANALOG_TYPE[23] == 't' && ANALOG_0[23] == '0' && ANALOG_1[23] == '1';
  }

  lemma AnalogAssignments(call: Call) returns (todo: seq<Assignment>)
    requires call.StandardAnalog? && Assignments(call).Some?
    ensures call.pin < 2 && Assignments(call) == Some(todo) && DistinctNames(todo)
    ensures ANALOG_MASK != ANALOG_TYPE && ANALOG_TYPE != ANALOG_0 && ANALOG_TYPE != ANALOG_1
    ensures |todo| == if call.domain == SetOnTeachPendant then 3 else 4
    ensures todo[0] == Assignment(ANALOG_MASK, Value(UInt8, [BITS[call.pin]]))
    ensures call.domain != SetOnTeachPendant ==>
            todo[1] == Assignment(ANALOG_TYPE, Value(UInt8, [if call.domain == Voltage then BITS[call.pin] else 0]))
    ensures todo[|todo| - 2] == Assignment(ANALOG_0, Value(Double, [call.value]))
    ensures todo[|todo| - 1] == Assignment(ANALOG_1, Value(Double, [call.value]))
  {
    AnalogNames();
    todo := Assignments(call).value;
    FirstPowers(call.pin);
    hide Pow2;
  }

  /** An input register tells the robot its value, and nothing else changes. */
  lemma InputRegisterIsTold(s: State, call: Call, types: Types)
    requires (call.InputBit? || call.InputInt? || call.InputDouble?) && Sends(s, call)
    ensures if call.InputBit? then 64 <= call.register <= 127 else 24 <= call.register <= 47
    ensures var t := Sent(s, call, types);
            var name := (if call.InputBit? then "input_bit_register_"
                         else if call.InputInt? then "input_int_register_" else "input_double_register_")
                        + Decimal(call.register);
            && (call.InputBit? ==> Told(t, name) == Some(Value(Boolean, [if call.bit then 1 else 0])))
            && (call.InputInt? ==> Told(t, name) == Some(Value(Int32, [call.int32])))
            && (call.InputDouble? ==> Told(t, name) == Some(Value(Double, [call.double])))
            && TellsNoOther(s, t, {name})
  {
    var todo := Assignments(call).value;
    hide Assignments, Told, Sends, Decimal;
    AllAreTold(s, call, todo, types);
  }

  lemma ExternalForceTorqueIsTold(s: State, call: Call, types: Types)
    requires call.ExternalForceTorque? && Sends(s, call)
    ensures var t := Sent(s, call, types);
            && Told(t, "external_force_torque") == Some(Value(Vector6d, call.wrench))
            && TellsNoOther(s, t, {"external_force_torque"})
  {
    var todo := Assignments(call).value;
    hide Assignments, Told, Sends;
    AllAreTold(s, call, todo, types);
  }

  // From what is assigned to what is told

  ghost predicate DistinctNames(todo: seq<Assignment>) {
    forall i, j :: 0 <= i < j < |todo| ==> todo[i].name != todo[j].name
  }

  lemma AllAreTold(s: State, call: Call, todo: seq<Assignment>, types: Types)
    requires Sends(s, call) && Assignments(call) == Some(todo) && DistinctNames(todo)
    ensures var t := Sent(s, call, types);
            && (forall k :: 0 <= k < |todo| ==> Told(t, todo[k].name) == Some(todo[k].value))
            && TellsNoOther(s, t, set a | a in todo :: a.name)
  {
    hide Assignments, ResetFrom, Lookup, SetField, AssignAll, Written;
    var (fields, names) := (s.Store().fields, set a | a in todo :: a.name);
    AllWritten(fields, todo);
    forall name ensures Told(Sent(s, call, types), name) == Either(Written(fields, todo, name), Lookup(fields, name)) {
      LookupAfterAll(fields, todo, name);
    }
    forall name | name !in names ensures Written(fields, todo, name) == None {
      forall k | 0 <= k < |todo| ensures todo[k].name != name {
        assert todo[k] in todo && todo[k].name in names;
      }
      OthersUnwritten(fields, todo, name);
    }
  }

  lemma TwoAreTold(s: State, call: Call, a: Assignment, b: Assignment, types: Types)
    requires Sends(s, call) && Assignments(call) == Some([a, b]) && a.name != b.name
    ensures var t := Sent(s, call, types);
            && Told(t, a.name) == Some(a.value) && Told(t, b.name) == Some(b.value)
            && TellsNoOther(s, t, {a.name, b.name})
  {
    hide Assignments, Told, Sends;
    var todo := [a, b];
    AllAreTold(s, call, todo, types);
    assert todo[0] == a && todo[1] == b;
    assert (set x | x in todo :: x.name) == {a.name, b.name};
  }

  lemma {:induction false} AllWritten(fields: seq<Field>, todo: seq<Assignment>)
    requires AssignAll(fields, todo).1 && DistinctNames(todo)
    ensures forall k :: 0 <= k < |todo| ==> Written(fields, todo, todo[k].name) == Some(todo[k].value)
    decreases todo
  {
    hide SetField;
    if todo != [] {
      var (after, rest) := (SetField(fields, todo[0].name, todo[0].value).value, todo[1..]);
      AllWritten(after, rest);
      OthersUnwritten(after, rest, todo[0].name);
      forall k | 0 <= k < |todo| ensures Written(fields, todo, todo[k].name) == Some(todo[k].value) {
        if k > 0 {
          assert todo[k] == rest[k - 1];
        }
      }
    }
  }

  lemma {:induction false} OthersUnwritten(fields: seq<Field>, todo: seq<Assignment>, name: string)
    requires forall k :: 0 <= k < |todo| ==> todo[k].name != name
    ensures Written(fields, todo, name) == None
    decreases todo
  {
    hide SetField;
    if todo != [] && SetField(fields, todo[0].name, todo[0].value).Some? {
      OthersUnwritten(SetField(fields, todo[0].name, todo[0].value).value, todo[1..], name);
    }
  }

  lemma FirstPowers(n: nat)
    requires n < 8
    ensures Pow2(n) == BITS[n]
  {
    assert Pow2(2) == 2 * Pow2(1) && Pow2(3) == 2 * Pow2(2) && Pow2(4) == 2 * Pow2(3);
    assert Pow2(5) == 2 * Pow2(4) && Pow2(6) == 2 * Pow2(5) && Pow2(7) == 2 * Pow2(6);
  }

  // Names of registers

  /** The number that a string of digits is. */
  function Number(digits: string): int {
    if digits == "" then 0
    else 10 * Number(digits[..|digits| - 1]) + (digits[|digits| - 1] as int - '0' as int)
  }

  /** The decimal form: digits only, the first of them no zero unless it is the only one, and the right number. */
  lemma {:induction false} DecimalIsNumber(n: nat)
    ensures var digits := Decimal(n);
            && digits != "" && Number(digits) == n
            && (forall k :: 0 <= k < |digits| ==> '0' <= digits[k] <= '9')
            && (digits[0] == '0' ==> digits == "0")
  {
    if n >= 10 {
      DecimalIsNumber(n / 10);
      var (front, last) := (Decimal(n / 10), "0123456789"[n % 10]);
      assert Decimal(n) == front + [last] && (front + [last])[..|front|] == front;
    } else {
      assert Decimal(n)[..0] == "";
    }
  }

  // Arguments that are refused

  /** Exponent and fraction of the double with this word. */
  function Exponent(word: nat): nat {
    word / 0x10_0000_0000_0000 % 2048
  }

  function Fraction(word: nat): nat {
    word % 0x10_0000_0000_0000
  }

  predicate IsNaN(word: nat) {
    Exponent(word) == 2047 && Fraction(word) != 0
  }

  /** The double as a multiple of the smallest positive one; infinity is larger than all others. */
  function Units(word: nat): int {
    var size := Size(Exponent(word), Fraction(word));
    if word >= 0x8000_0000_0000_0000 then -size else size
  }

  function Size(exponent: nat, fraction: nat): int {
    if exponent == 0 then fraction else (0x10_0000_0000_0000 + fraction) * Pow2(exponent - 1)
  }

  /** Arguments are refused exactly for these pins and registers, and for doubles greater than one or less than zero. */
  lemma RefusedExactly(call: Call, one: nat)
    requires one == 0x3FF0_0000_0000_0000
    requires call.SpeedSlider? ==> call.fraction < 0x1_0000_0000_0000_0000
    requires call.StandardAnalog? ==> call.value < 0x1_0000_0000_0000_0000
    ensures Assignments(call).None? <==>
            match call
            case SpeedSlider(x) => !IsNaN(x) && (Units(x) > Units(one) || Units(x) < 0)
            case StandardDigital(pin, _) => pin > 7
            case ConfigurableDigital(pin, _) => pin > 7
            case ToolDigital(pin, _) => pin > 1
            case StandardAnalog(pin, x, _) => pin > 1 || (!IsNaN(x) && (Units(x) > Units(one) || Units(x) < 0))
            case InputBit(register, _) => register < 64 || register > 127
            case InputInt(register, _) => register < 24 || register > 47
            case InputDouble(register, _) => register < 24 || register > 47
            case ExternalForceTorque(_) => false
  {
    hide OutsideUnit, Units, IsNaN, Decimal, Pow2, Pin;
    if call.SpeedSlider? {
      OutsideUnitExactly(call.fraction, one);
    } else if call.StandardAnalog? {
      OutsideUnitExactly(call.value, one);
    }
  }

  lemma OutsideUnitExactly(word: nat, one: nat)
    requires word < 0x1_0000_0000_0000_0000 && one == 0x3FF0_0000_0000_0000
    ensures OutsideUnit(word) <==> !IsNaN(word) && (Units(word) > Units(one) || Units(word) < 0)
  {
    hide Size;
    var (e, m, top) := (Exponent(word), Fraction(word), word / 0x10_0000_0000_0000);
    assert word == 0x10_0000_0000_0000 * top + m && (top == e || top == e + 2048);
    assert Exponent(one) == 1023 && Fraction(one) == 0;
    assert e < 2048;
    if top == e {
      assert word < 0x8000_0000_0000_0000;
      assert word > one <==> e > 1023 || (e == 1023 && m > 0);
      assert word <= 0x7FF0_0000_0000_0000 <==> e < 2047 || m == 0;
    } else {
      assert word >= 0x8000_0000_0000_0000;
      assert word > 0x8000_0000_0000_0000 <==> e > 0 || m > 0;
      assert word <= 0xFFF0_0000_0000_0000 <==> e < 2047 || m == 0;
    }
    SizeAgainstOne(e, m, Exponent(one));
    SizeAgainstOne(Exponent(one), 0, Exponent(one));
  }

  lemma SizeAgainstOne(e: nat, m: nat, bias: nat)
    requires m < 0x10_0000_0000_0000 && bias == 1023
    ensures Size(e, m) > Size(bias, 0) <==> e > bias || (e == bias && m > 0)
    ensures Size(e, m) >= 0 && (Size(e, m) > 0 <==> e > 0 || m > 0)
  {
    var (b, p) := (0x10_0000_0000_0000, Pow2(bias - 1));
    assert Size(bias, 0) == (b + 0) * p;
    PowersGrow(bias - 1, bias - 1);
    if e > 0 {
      var q := Pow2(e - 1);
      assert Size(e, m) == (b + m) * q;
      PowersGrow(e - 1, e - 1);
      assert e < bias ==> 2 * q == Pow2(e);
      assert e > bias ==> 2 * p == Pow2(bias);
      if e < bias {
        PowersGrow(e, bias - 1);
      } else if e > bias {
        PowersGrow(bias, e - 1);
      }
      hide Size, Pow2;
      ProductsCompare(b, m, q, p);
    } else {
      hide Pow2;
      AtMost(1, p, b);
    }
  }

  lemma {:induction false} PowersGrow(m: nat, n: nat)
    requires m <= n
    ensures 1 <= Pow2(m) <= Pow2(n)
    decreases n
  {
    if m < n {
      PowersGrow(m, n - 1);
    } else if m > 0 {
      PowersGrow(m - 1, n - 1);
    }
  }

  /** A mantissa below two makes up for no factor of two. */
  lemma ProductsCompare(b: nat, m: nat, q: nat, p: nat)
    requires m < b && p >= 1 && q >= 1
    ensures 2 * q <= p ==> (b + m) * q < (b + 0) * p
    ensures q == p ==> ((b + m) * q > (b + 0) * p <==> m > 0)
    ensures q >= 2 * p ==> (b + m) * q > (b + 0) * p
    ensures (b + m) * q > 0
  {
    if 2 * q <= p {
      Less(b + m, 2 * b, q);
      Doubled(b, q);
      Less(2 * q, p + 1, b);
      AtMost(2 * q, p, b);
    } else if q >= 2 * p {
      AtMost(b, b + m, q);
      AtMost(2 * p, q, b);
      Doubled(b, p);
      Less(0, b, p);
    } else if m > 0 {
      Less(b, b + m, q);
    }
    Less(0, b + m, q);
  }

  lemma Doubled(b: nat, q: nat)
    ensures 2 * b * q == 2 * q * b == b * q + b * q
  {
  }

  lemma AtMost(x: nat, y: nat, p: nat)
    requires x <= y
    ensures x * p <= y * p && p * x <= p * y && x * p == p * x && y * p == p * y
  {
  }

  lemma Less(x: nat, y: nat, p: nat)
    requires x < y && p >= 1
    ensures x * p < y * p
  {
  }
}
