/**
 * rtde_writer.cpp: setters store into one package while a thread sends the other. The steps of the thread and of its
 * callers interleave freely between the critical sections of store_mutex_; `Step` is what each of them does.
 */
module RtdeWriter {
  import opened DataPackages
  import opened Wrappers

  /** What one package buffer holds. */
  datatype Package = Package(id: uint8, fields: seq<Field>)

  /** Where the writer thread stands. */
  datatype Thread =
    | Absent
    | LoopTop
    | Locking
    | Sleeping(notified: bool)
    | Serializing(read: seq<Field>)
    | Resetting(done: nat)
    | Ended

  datatype State = State(
    buffer0: Package,
    buffer1: Package,
    storesIn0: bool,
    usedMasks: seq<string>,
    recipeId: uint8,
    newData: bool,
    running: bool,
    thread: Thread,
    sent: seq<Package>
  ) {
    function Store(): Package {
      if storesIn0 then buffer0 else buffer1
    }

    function Send(): Package {
      if storesIn0 then buffer1 else buffer0
    }

    function Buffer(in0: bool): Package {
      if in0 then buffer0 else buffer1
    }

    function WithStore(p: Package): State {
      if storesIn0 then this.(buffer0 := p) else this.(buffer1 := p)
    }

    function WithSend(p: Package): State {
      if storesIn0 then this.(buffer1 := p) else this.(buffer0 := p)
    }
  }

  datatype AnalogOutputType = SetOnTeachPendant | Current | Voltage

  /** The setters. Doubles are given as their 64-bit words. */
  datatype Call =
    | SpeedSlider(fraction: nat)
    | StandardDigital(pin: nat, on: bool)
    | ConfigurableDigital(pin: nat, on: bool)
    | ToolDigital(pin: nat, on: bool)
    | StandardAnalog(pin: nat, value: nat, domain: AnalogOutputType)
    | InputBit(register: nat, bit: bool)
    | InputInt(register: nat, int32: int)
    | InputDouble(register: nat, double: nat)
    | ExternalForceTorque(wrench: seq<int>)

  datatype Event =
    | SetInputRecipe(recipe: seq<string>)
    | Init(id: uint8)
    | SignalStop
    | Join
    | Set(call: Call)
    | SendPackage(fields: seq<Field>)
    | Check
    | Acquire
    | ReadField
    | Write
    | ResetMask

  // Setters

  /** Whether the double with this word is greater than one or less than zero; NaN is neither. */
  predicate OutsideUnit(word: nat) {
    || 0x3FF0_0000_0000_0000 < word <= 0x7FF0_0000_0000_0000
    || 0x8000_0000_0000_0000 < word <= 0xFFF0_0000_0000_0000
  }

  function Pow2(n: nat): nat {
    if n == 0 then 1 else 2 * Pow2(n - 1)
  }

  function PinToMask(pin: nat): nat {
    if pin > 7 then 0 else Pow2(pin)
  }

  function Decimal(n: nat): string {
    if n < 10 then ["0123456789"[n]] else Decimal(n / 10) + ["0123456789"[n % 10]]
  }

  datatype Assignment = Assignment(name: string, value: Value)

  function Pin(maskName: string, outputName: string, pin: nat, on: bool): seq<Assignment> {
    [Assignment(maskName, Value(UInt8, [PinToMask(pin)])), Assignment(outputName, Value(UInt8, [if on then 255 else 0]))]
  }

  /** The fields that a setter sets, in its order; None where it rejects its arguments before taking the lock. */
  function Assignments(call: Call): Option<seq<Assignment>> {
    match call
    case SpeedSlider(fraction) =>
      if OutsideUnit(fraction) then None
      else Some([Assignment("speed_slider_mask", Value(UInt32, [1])),
                 Assignment("speed_slider_fraction", Value(Double, [fraction]))])
    case StandardDigital(pin, on) =>
      if pin > 7 then None
      else Some(Pin("standard_digital_output_mask", "standard_digital_output", pin, on))
    case ConfigurableDigital(pin, on) =>
      if pin > 7 then None
      else Some(Pin("configurable_digital_output_mask", "configurable_digital_output", pin, on))
    case ToolDigital(pin, on) =>
      if pin > 1 then None
      else Some(Pin("tool_digital_output_mask", "tool_digital_output", pin, on))
    case StandardAnalog(pin, value, domain) =>
      if pin > 1 || OutsideUnit(value) then None
      else
        var outputType := if domain == Voltage then Pow2(pin) else 0;
        Some([Assignment("standard_analog_output_mask", Value(UInt8, [PinToMask(pin)]))]
             + (if domain == SetOnTeachPendant then []
                else [Assignment("standard_analog_output_type", Value(UInt8, [outputType]))])
             + [Assignment("standard_analog_output_0", Value(Double, [value])),
                Assignment("standard_analog_output_1", Value(Double, [value]))])
    case InputBit(register, bit) =>
      if register < 64 || register > 127 then None
      else Some([Assignment("input_bit_register_" + Decimal(register), Value(Boolean, [if bit then 1 else 0]))])
    case InputInt(register, int32) =>
      if register < 24 || register > 47 then None
      else Some([Assignment("input_int_register_" + Decimal(register), Value(Int32, [int32]))])
    case InputDouble(register, double) =>
      if register < 24 || register > 47 then None
      else Some([Assignment("input_double_register_" + Decimal(register), Value(Double, [double]))])
    case ExternalForceTorque(wrench) =>
      Some([Assignment("external_force_torque", Value(Vector6d, wrench))])
  }

  /** The assignments one after the other, up to the first that fails. */
  function AssignAll(fields: seq<Field>, todo: seq<Assignment>): (r: (seq<Field>, bool))
    ensures |r.0| == |fields|
    decreases todo
  {
    if todo == [] then (fields, true)
    else
      match SetField(fields, todo[0].name, todo[0].value)
      case None => (fields, false)
      case Some(after) => AssignAll(after, todo[1..])
  }

  // Masks

  const MASK := "_mask"

  predicate IsMask(name: string) {
    |name| >= 5 && name[|name| - 5..] == MASK
  }

  function Masks(recipe: seq<string>): seq<string> {
    if recipe == [] then []
    else (if IsMask(recipe[0]) then [recipe[0]] else []) + Masks(recipe[1..])
  }

  function MaskKind(name: string): Kind {
    if name == "speed_slider_mask" then UInt32 else UInt8
  }

  function ResetOne(fields: seq<Field>, name: string): (r: seq<Field>)
    ensures |r| == |fields|
  {
    match SetField(fields, name, Zero(MaskKind(name)))
    case None => fields
    case Some(after) => after
  }

  // The steps

  function Notify(s: State): State {
    if s.thread.Sleeping? then s.(thread := Sleeping(true)) else s
  }

  function MarkToBeSent(s: State): State {
    Notify(s.(newData := true))
  }

  /** Under the lock: the wait's condition and, where it holds, the swap. */
  function Evaluate(s: State): State {
    if s.newData && s.running then s.(storesIn0 := !s.storesIn0, newData := false, thread := Serializing([]))
    else if !s.running then s.(thread := LoopTop)
    else s.(thread := Sleeping(false))
  }

  /** A step that is not possible in a state leaves it as it is. */
  function Step(s: State, e: Event, types: map<string, Kind>): State {
    match e
    case SetInputRecipe(recipe) =>
      if s.running || s.thread != Absent then s
      else
        var empty := EmptyFields(recipe, types);
        if empty.Failure? then s.(usedMasks := Masks(recipe))
        else
          s.(usedMasks := Masks(recipe), buffer0 := Package(0, empty.value), buffer1 := Package(0, empty.value),
             storesIn0 := true)
    case Init(id) =>
      if s.running || s.thread != Absent then s
      else
        s.(buffer0 := s.buffer0.(id := id), buffer1 := s.buffer1.(id := id), recipeId := id, newData := false,
           running := true, thread := LoopTop)
    case SignalStop => Notify(s.(running := false))
    case Join => if s.thread == Ended then s.(thread := Absent) else s
    case Set(call) =>
      if Assignments(call).None? then s
      else
        var (fields, success) := AssignAll(s.Store().fields, Assignments(call).value);
        var stored := s.WithStore(s.Store().(fields := fields));
        if success then MarkToBeSent(stored) else stored
    case SendPackage(fields) => MarkToBeSent(s.WithStore(s.Store().(fields := fields)))
    case Check => if s.thread != LoopTop then s else s.(thread := if s.running then Locking else Ended)
    case Acquire => if s.thread == Locking || s.thread.Sleeping? then Evaluate(s) else s
    case ReadField =>
      if s.thread.Serializing? && |s.thread.read| < |s.Send().fields|
      then s.(thread := Serializing(s.thread.read + [s.Send().fields[|s.thread.read|]]))
      else s
    case Write =>
      if s.thread.Serializing? && |s.thread.read| == |s.Send().fields|
      then s.(thread := Resetting(0), sent := s.sent + [Package(s.Send().id, s.thread.read)])
      else s
    case ResetMask =>
      if !s.thread.Resetting? then s
      else if s.thread.done >= |s.usedMasks| then s.(thread := LoopTop)
      else
        s.WithSend(s.Send().(fields := ResetOne(s.Send().fields, s.usedMasks[s.thread.done])))
        .(thread := Resetting(s.thread.done + 1))
  }

  /** A writer as constructed, before its recipe is set. */
  const NEW := State(Package(0, []), Package(0, []), true, [], 0, false, false, Absent, [])

  function Run(es: seq<Event>, types: map<string, Kind>): State {
    if es == [] then NEW else Step(Run(es[..|es| - 1], types), es[|es| - 1], types)
  }

  // The source's object, whose methods are these steps

  class RTDEWriter {
    const types: map<string, Kind>
    var recipe: seq<string>
    var recipeId: uint8
    var dataBuffer0: DataPackage
    var dataBuffer1: DataPackage
    var currentStoreBuffer: DataPackage
    var currentSendBuffer: DataPackage
    var usedMasks: seq<string>
    var running: bool
    var newDataAvailable: bool
    var thread: Thread
    var stream: seq<Package>

    /** The store and the send buffer are the two buffers, never the same one. */
    ghost predicate Valid()
      reads this, dataBuffer0, dataBuffer1
    {
      && dataBuffer0 != dataBuffer1
      && ((currentStoreBuffer == dataBuffer0 && currentSendBuffer == dataBuffer1)
          || (currentStoreBuffer == dataBuffer1 && currentSendBuffer == dataBuffer0))
      && dataBuffer0.Valid() && dataBuffer1.Valid()
    }

    ghost function Abs(): State
      reads this, dataBuffer0, dataBuffer1
    {
      State(Package(dataBuffer0.recipeId, dataBuffer0.data), Package(dataBuffer1.recipeId, dataBuffer1.data),
            currentStoreBuffer == dataBuffer0, usedMasks, recipeId, newDataAvailable, running, thread, stream)
    }

    /** Before its recipe is set. */
    constructor (types: map<string, Kind>)
      ensures this.types == types && Valid() && fresh(dataBuffer0) && fresh(dataBuffer1) && Abs() == NEW
    {
      this.types := types;
      var package0 := new DataPackage([], 2);
      var package1 := new DataPackage([], 2);
      dataBuffer0, dataBuffer1 := package0, package1;
      currentStoreBuffer, currentSendBuffer := package0, package1;
      recipe, recipeId, usedMasks, running, newDataAvailable, thread, stream := [], 0, [], false, false, Absent, [];
    }

    static method CollectMasks(recipe: seq<string>) returns (masks: seq<string>)
      ensures masks == Masks(recipe)
    {
      masks := [];
      assert recipe[0..] == recipe && [] + Masks(recipe) == Masks(recipe);
      for i := 0 to |recipe|
        invariant Masks(recipe) == masks + Masks(recipe[i..])
      {
        assert recipe[i..][1..] == recipe[i + 1..];
        assert [] + Masks(recipe[i + 1..]) == Masks(recipe[i + 1..]);
        if IsMask(recipe[i]) {
          assert masks + ([recipe[i]] + Masks(recipe[i + 1..])) == masks + [recipe[i]] + Masks(recipe[i + 1..]);
          masks := masks + [recipe[i]];
        }
      }
      assert masks + [] == masks;
    }

    method SetInputRecipe(recipe: seq<string>) returns (r: Result<(), string>)
      requires Valid() && (running || thread == Absent)
      modifies this
      ensures Valid() && Abs() == Step(old(Abs()), Event.SetInputRecipe(recipe), types)
      ensures r.Success? <==> !old(running) && EmptyFields(recipe, types).Success?
      ensures r.Success? ==> fresh(dataBuffer0) && fresh(dataBuffer1)
    {
      hide Assignments, AssignAll, EmptyFields, Masks, ResetOne;
      if running {
        return Failure("Requesting to change the input recipe while the RTDEWriter is running.");
      }
      this.recipe := recipe;
      usedMasks := CollectMasks(recipe);
      var package0;
      package0, r := NewPackage(recipe);
      if r.Failure? {
        return;
      }
      var package1;
      package1, r := NewPackage(recipe);
      Adopt(package0, package1);
    }

    method Adopt(package0: DataPackage, package1: DataPackage)
      requires package0 != package1 && package0.Valid() && package1.Valid()
      modifies this`dataBuffer0, this`dataBuffer1, this`currentStoreBuffer, this`currentSendBuffer
      ensures Valid() && dataBuffer0 == package0 && dataBuffer1 == package1
      ensures Abs() == old(Abs()).(buffer0 := Package(package0.recipeId, package0.data),
                                   buffer1 := Package(package1.recipeId, package1.data), storesIn0 := true)
    {
      dataBuffer0, dataBuffer1 := package0, package1;
      currentStoreBuffer, currentSendBuffer := package0, package1;
    }

    method NewPackage(recipe: seq<string>) returns (package: DataPackage, r: Result<(), string>)
      ensures fresh(package)
      ensures r.Success? <==> EmptyFields(recipe, types).Success?
      ensures r.Success? ==> package.Valid() && package.recipeId == 0 && package.data == EmptyFields(recipe, types).value
    {
      package := new DataPackage(recipe, 2);
      r := package.InitEmpty(types);
    }

    /** False where the source throws. */
    method Init(id: uint8) returns (ok: bool)
      requires Valid() && (running || thread == Absent)
      modifies this, dataBuffer0, dataBuffer1
      ensures Valid() && Abs() == Step(old(Abs()), Event.Init(id), types)
      ensures unchanged(`dataBuffer0) && unchanged(`dataBuffer1)
      ensures ok == !old(running)
    {
      if running {
        return false;
      }
      dataBuffer0.recipeId := id;
      dataBuffer1.recipeId := id;
      recipeId := id;
      newDataAvailable := false;
      running := true;
      thread := LoopTop;
      ok := true;
    }

    method NotifyOne()
      modifies this`thread
      ensures thread == if old(thread).Sleeping? then Sleeping(true) else old(thread)
    {
      if thread.Sleeping? {
        thread := Sleeping(true);
      }
    }

    /** stop, up to where it waits for the thread. */
    method SignalStop()
      requires Valid()
      modifies this`running, this`thread
      ensures Valid() && Abs() == Step(old(Abs()), Event.SignalStop, types)
    {
      running := false;
      NotifyOne();
    }

    method Join()
      requires Valid()
      modifies this`thread
      ensures Valid() && Abs() == Step(old(Abs()), Event.Join, types)
    {
      if thread == Ended {
        thread := Absent;
      }
    }

    method MarkStorageToBeSent()
      requires Valid()
      modifies this`newDataAvailable, this`thread
      ensures Valid() && Abs() == MarkToBeSent(old(Abs()))
    {
      newDataAvailable := true;
      NotifyOne();
    }

    method SendPackage(package: DataPackage) returns (success: bool)
      requires Valid() && package.Valid()
      modifies this`newDataAvailable, this`thread, currentStoreBuffer
      ensures Valid() && Abs() == Step(old(Abs()), Event.SendPackage(old(package.data)), types)
      ensures success
    {
      currentStoreBuffer.data := package.data;
      currentStoreBuffer.recipe := package.recipe;
      currentStoreBuffer.protocolVersion := package.protocolVersion;
      MarkStorageToBeSent();
      success := true;
    }

    method Store(todo: seq<Assignment>) returns (success: bool)
      requires Valid()
      modifies currentStoreBuffer`data
      ensures Valid()
      ensures (currentStoreBuffer.data, success) == AssignAll(old(currentStoreBuffer.data), todo)
    {
      hide SetField, EmptyFields, Masks;
      success := true;
      var i := 0;
      assert todo[0..] == todo;
      while success && i < |todo|
        invariant i <= |todo| && Valid()
        invariant AssignAll(old(currentStoreBuffer.data), todo) ==
                  if success then AssignAll(currentStoreBuffer.data, todo[i..]) else (currentStoreBuffer.data, false)
      {
        assert todo[i..][1..] == todo[i + 1..];
        success := currentStoreBuffer.SetData(todo[i].name, todo[i].value);
        i := i + 1;
      }
    }

    /** Any of the setters. */
    method Send(call: Call) returns (success: bool)
      requires Valid()
      modifies this`newDataAvailable, this`thread, currentStoreBuffer`data
      ensures Valid() && Abs() == Step(old(Abs()), Set(call), types)
      ensures success == (Assignments(call).Some? &&
                          AssignAll(old(Abs()).Store().fields, Assignments(call).value).1)
    {
      hide Assignments, AssignAll, EmptyFields, Masks, ResetOne;
      var assignments := Assignments(call);
      if assignments.None? {
        return false;
      }
      success := Store(assignments.value);
      if success {
        MarkStorageToBeSent();
      }
    }

    // The writer thread, from one point where others can run to the next

    method Check()
      requires Valid() && thread == LoopTop
      modifies this`thread
      ensures Valid() && Abs() == Step(old(Abs()), Event.Check, types)
    {
      thread := if running then Locking else Ended;
    }

    /** Takes the lock, or wakes up with it. */
    method Acquire()
      requires Valid() && (thread == Locking || thread.Sleeping?)
      modifies this
      ensures Valid() && Abs() == Step(old(Abs()), Event.Acquire, types)
      ensures unchanged(`dataBuffer0) && unchanged(`dataBuffer1)
    {
      if !(newDataAvailable || !running) {
        thread := Sleeping(false);
      } else if newDataAvailable && running {
        currentStoreBuffer, currentSendBuffer := currentSendBuffer, currentStoreBuffer;
        newDataAvailable := false;
        thread := Serializing([]);
      } else {
        thread := LoopTop;
      }
    }

    /** Without the lock: the next field of the package being serialized. */
    method ReadField()
      requires Valid() && thread.Serializing? && |thread.read| < |currentSendBuffer.data|
      modifies this`thread
      ensures Valid() && Abs() == Step(old(Abs()), Event.ReadField, types)
    {
      thread := Serializing(thread.read + [currentSendBuffer.data[|thread.read|]]);
    }

    method Write()
      requires Valid() && thread.Serializing? && |thread.read| == |currentSendBuffer.data|
      modifies this`thread, this`stream
      ensures Valid() && Abs() == Step(old(Abs()), Event.Write, types)
    {
      stream := stream + [Package(currentSendBuffer.recipeId, thread.read)];
      thread := Resetting(0);
    }

    method ResetMask()
      requires Valid() && thread.Resetting?
      modifies this`thread, currentSendBuffer`data
      ensures Valid() && Abs() == Step(old(Abs()), Event.ResetMask, types)
    {
      if thread.done >= |usedMasks| {
        thread := LoopTop;
        return;
      }
      var name := usedMasks[thread.done];
      assert Zeros(1) == [0];
      var ok;
      if name == "speed_slider_mask" {
        ok := currentSendBuffer.SetData(name, Value(UInt32, [0]));
      } else {
        ok := currentSendBuffer.SetData(name, Value(UInt8, [0]));
      }
      thread := Resetting(thread.done + 1);
    }
  }
}
