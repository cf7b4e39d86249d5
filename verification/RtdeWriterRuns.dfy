/** What holds in every interleaving of the writer thread and its callers: lemmas over all sequences of events. */
module RtdeWriterRuns {
  import opened DataPackages
  import opened RtdeWriter
  import opened Wrappers

  type Types = map<string, Kind>

  /** The last event takes the store buffer to be sent. */
  predicate Swaps(s: State, e: Event) {
    e == Acquire && (s.thread == Locking || s.thread.Sleeping?) && s.newData && s.running
  }

  /** The thread runs whenever it should; a thread that sleeps and was not notified has nothing to send. */
  ghost predicate Sound(s: State) {
    && (s.running ==> s.thread != Absent && s.thread != Ended)
    && (s.thread == Sleeping(false) ==> !s.newData && s.running)
    && (s.thread.Serializing? ==> s.thread.read <= s.Send().fields)
    && (s.thread != Absent ==> s.buffer0.id == s.buffer1.id == s.recipeId)
  }

  lemma StepKeepsSound(s: State, e: Event, types: Types)
    requires Sound(s)
    ensures Sound(Step(s, e, types))
  {
    hide EmptyFields, Assignments, AssignAll, Masks, ResetOne;
  }

  /** No wake-up is ever lost, and what is read while others store is a part of one package. */
  lemma {:induction false} AlwaysSound(es: seq<Event>, types: Types)
    ensures Sound(Run(es, types))
  {
    if es != [] {
      AlwaysSound(es[..|es| - 1], types);
      StepKeepsSound(Run(es[..|es| - 1], types), es[|es| - 1], types);
    }
  }

  // What is sent

  /** The contents of the store buffer at every swap. */
  function Snapshots(es: seq<Event>, types: Types): seq<Package> {
    if es == [] then []
    else
      var (s, e) := (Run(es[..|es| - 1], types), es[|es| - 1]);
      Snapshots(es[..|es| - 1], types) + (if Swaps(s, e) then [s.Store()] else [])
  }

  function Pending(s: State): seq<Package> {
    if s.thread.Serializing? then [s.Send()] else []
  }

  /** Every package goes out whole, as it was when the buffers were swapped, once and in that order. */
  lemma {:induction false} SentAreSnapshots(es: seq<Event>, types: Types)
    ensures Snapshots(es, types) == Run(es, types).sent + Pending(Run(es, types))
  {
    if es != [] {
      var (s, e) := (Run(es[..|es| - 1], types), es[|es| - 1]);
      SentAreSnapshots(es[..|es| - 1], types);
      AlwaysSound(es[..|es| - 1], types);
      StepSends(s, e, types);
    }
  }

  lemma StepSends(s: State, e: Event, types: Types)
    requires Sound(s)
    ensures var t := Step(s, e, types);
            t.sent + Pending(t) == s.sent + Pending(s) + (if Swaps(s, e) then [s.Store()] else [])
  {
    hide EmptyFields, Assignments, AssignAll, Masks, ResetOne;
    var t := Step(s, e, types);
    if e == Write && t.sent != s.sent {
      assert Package(s.Send().id, s.thread.read) == s.Send();
    }
  }

  // What the fields of a package hold

  /** What a list of assignments leaves in the field `name`, if it sets it at all. */
  function Written(fields: seq<Field>, todo: seq<Assignment>, name: string): Option<Value>
    decreases todo
  {
    if todo == [] then None
    else
      match SetField(fields, todo[0].name, todo[0].value)
      case None => None
      case Some(after) =>
        match Written(after, todo[1..], name)
        case Some(v) => Some(v)
        case None => if todo[0].name == name then Some(todo[0].value) else None
  }

  function Either(a: Option<Value>, b: Option<Value>): Option<Value> {
    if a.Some? then a else b
  }

  lemma {:induction false} LookupAfterAll(fields: seq<Field>, todo: seq<Assignment>, name: string)
    ensures Lookup(AssignAll(fields, todo).0, name) == Either(Written(fields, todo, name), Lookup(fields, name))
    decreases todo
  {
    hide SetField, Lookup;
    if todo != [] {
      LookupAfterSet(fields, todo[0].name, todo[0].value, name);
      if SetField(fields, todo[0].name, todo[0].value).Some? {
        LookupAfterAll(SetField(fields, todo[0].name, todo[0].value).value, todo[1..], name);
      }
    }
  }

  /** What a call leaves in the field `name` of the store buffer, whether or not the call succeeds. */
  function CallWrites(s: State, call: Call, name: string): Option<Value> {
    if Assignments(call).None? then None else Written(s.Store().fields, Assignments(call).value, name)
  }

  predicate ChangesRecipe(s: State, e: Event, types: Types) {
    e.SetInputRecipe? && !s.running && s.thread == Absent && EmptyFields(e.recipe, types).Success?
  }

  function FreshField(recipe: seq<string>, types: Types, name: string): Option<Value> {
    if name in recipe && name in types then Some(Zero(types[name])) else None
  }

  lemma {:induction false} LookupInFresh(recipe: seq<string>, types: Types, name: string)
    requires EmptyFields(recipe, types).Success?
    ensures Lookup(EmptyFields(recipe, types).value, name) == FreshField(recipe, types, name)
  {
    if recipe != [] {
      var (rest, field) := (EmptyFields(recipe[1..], types).value, Field(recipe[0], Zero(types[recipe[0]])));
      LookupInFresh(recipe[1..], types, name);
      LookupInCons(field, rest, name);
    }
  }

  lemma LookupInCons(field: Field, rest: seq<Field>, name: string)
    ensures Lookup([field] + rest, name) == if field.name == name then Some(field.value) else Lookup(rest, name)
  {
    hide FieldIndex;
    var (all, k) := ([field] + rest, FieldIndex(rest, name, 0));
    var m := FieldIndex(all, name, 0);
    assert all[0] == field && forall j :: 0 <= j < |rest| ==> all[j + 1] == rest[j];
    assert k < |rest| ==> all[k + 1] == rest[k];
  }

  /**
   * Two register files, one behind each buffer: a register holds what was last stored in it. Swaps and resets do
   * not touch them; they only decide which file the next call stores into.
   */
  function Register(es: seq<Event>, types: Types, in0: bool, name: string): Option<Value> {
    if es == [] then None
    else
      var (s, e) := (Run(es[..|es| - 1], types), es[|es| - 1]);
      var before := Register(es[..|es| - 1], types, in0, name);
      if ChangesRecipe(s, e, types) then FreshField(e.recipe, types, name)
      else if e.Set? && s.storesIn0 == in0 then Either(CallWrites(s, e.call, name), before)
      else if e.SendPackage? && s.storesIn0 == in0 then Lookup(e.fields, name)
      else before
  }

  /** The field was not reset as a mask by any step: it is in no recipe that the writer was given. */
  ghost predicate NeverUsedMask(es: seq<Event>, name: string) {
    IsMask(name) ==> forall k :: 0 <= k < |es| && es[k].SetInputRecipe? ==> name !in es[k].recipe
  }

  lemma {:induction false} MasksAreInRecipe(recipe: seq<string>, name: string)
    ensures name in Masks(recipe) <==> name in recipe && IsMask(name)
  {
    if recipe != [] {
      MasksAreInRecipe(recipe[1..], name);
    }
  }

  lemma MasksChangeWithRecipe(s: State, e: Event, types: Types)
    ensures Step(s, e, types).usedMasks ==
            if e.SetInputRecipe? && !s.running && s.thread == Absent then Masks(e.recipe) else s.usedMasks
  {
    hide EmptyFields, Assignments, AssignAll, Masks, ResetOne;
  }

  lemma {:induction false} UsedMasksAreGiven(es: seq<Event>, types: Types, name: string)
    requires NeverUsedMask(es, name)
    ensures name !in Run(es, types).usedMasks
  {
    if es != [] {
      var front := es[..|es| - 1];
      UsedMasksAreGiven(front, types, name);
      MasksChangeWithRecipe(Run(front, types), es[|es| - 1], types);
      hide Step, IsMask, Masks;
      if es[|es| - 1].SetInputRecipe? {
        MasksAreInRecipe(es[|es| - 1].recipe, name);
      }
    }
  }

  lemma ResetKeepsOthers(fields: seq<Field>, mask: string, name: string)
    ensures mask != name ==> Lookup(ResetOne(fields, mask), name) == Lookup(fields, name)
  {
    LookupAfterSet(fields, mask, Zero(MaskKind(mask)), name);
  }

  /** Both buffers hold, in every field that is no mask in use, what their register files say. */
  lemma {:induction false} BuffersAreRegisters(es: seq<Event>, types: Types, in0: bool, name: string)
    requires NeverUsedMask(es, name)
    ensures Lookup(Run(es, types).Buffer(in0).fields, name) == Register(es, types, in0, name)
  {
    if es != [] {
      var front := es[..|es| - 1];
      BuffersAreRegisters(front, types, in0, name);
      UsedMasksAreGiven(front, types, name);
      StepMovesRegister(Run(front, types), es[|es| - 1], types, in0, name);
    }
  }

  lemma StepMovesRegister(s: State, e: Event, types: Types, in0: bool, name: string)
    requires name !in s.usedMasks
    ensures Lookup(Step(s, e, types).Buffer(in0).fields, name) ==
            if ChangesRecipe(s, e, types) then FreshField(e.recipe, types, name)
            else if e.Set? && s.storesIn0 == in0 then Either(CallWrites(s, e.call, name), Lookup(s.Buffer(in0).fields, name))
            else if e.SendPackage? && s.storesIn0 == in0 then Lookup(e.fields, name)
            else Lookup(s.Buffer(in0).fields, name)
  {
    hide EmptyFields, Assignments, AssignAll, Masks, ResetOne, Lookup, FreshField, Written;
    match e
    case SetInputRecipe(recipe) =>
      if ChangesRecipe(s, e, types) {
        LookupInFresh(recipe, types, name);
      }
    case Set(call) =>
      if Assignments(call).Some? {
        LookupAfterAll(s.Store().fields, Assignments(call).value, name);
      }
    case ResetMask =>
      if s.thread.Resetting? && s.thread.done < |s.usedMasks| {
        ResetKeepsOthers(s.Send().fields, s.usedMasks[s.thread.done], name);
      }
    case _ =>
  }

  // Masks

  /** The mask fields have these types in the type list. */
  ghost predicate MasksTyped(types: Types) {
    forall name :: name in types && IsMask(name) ==> types[name] == if name == "speed_slider_mask" then UInt32 else UInt8
  }

  /** Every field has the type that the type list gives it. */
  ghost predicate Typed(fields: seq<Field>, types: Types) {
    forall k :: 0 <= k < |fields| ==> fields[k].name in types && fields[k].value.kind == types[fields[k].name]
  }

  /** What callers bring along: recipes of known fields, and packages that were made from some recipe. */
  ghost predicate Proper(es: seq<Event>, types: Types) {
    forall k :: 0 <= k < |es| ==>
      && (es[k].SetInputRecipe? ==> EmptyFields(es[k].recipe, types).Success?)
      && (es[k].SendPackage? ==> Typed(es[k].fields, types))
  }

  /** Some call, successful or not, set the field in the store buffer since the last swap or change of recipe. */
  predicate Touched(es: seq<Event>, types: Types, name: string) {
    if es == [] then false
    else
      TouchedAfter(Run(es[..|es| - 1], types), es[|es| - 1], types, name, Touched(es[..|es| - 1], types, name))
  }

  predicate TouchedAfter(s: State, e: Event, types: Types, name: string, before: bool) {
    if Swaps(s, e) || ChangesRecipe(s, e, types) then false
    else if e.Set? then CallWrites(s, e.call, name).Some? || before
    else if e.SendPackage? then Lookup(e.fields, name).Some? || before
    else before
  }

  predicate IsZero(fields: seq<Field>, name: string) {
    Lookup(fields, name).Some? ==> Lookup(fields, name).value == Zero(Lookup(fields, name).value.kind)
  }

  /** How many of the masks in use the thread has reset in the send buffer. */
  function ResetCount(s: State): nat {
    if s.thread.Serializing? then 0
    else if s.thread.Resetting? && s.thread.done < |s.usedMasks| then s.thread.done
    else |s.usedMasks|
  }

  ghost predicate BuffersTyped(s: State, types: Types) {
    Typed(s.buffer0.fields, types) && Typed(s.buffer1.fields, types)
  }

  ghost predicate SendClean(s: State) {
    forall i :: 0 <= i < ResetCount(s) ==> IsZero(s.Send().fields, s.usedMasks[i])
  }

  lemma {:induction false} AssignAllTyped(fields: seq<Field>, todo: seq<Assignment>, types: Types)
    requires Typed(fields, types)
    ensures Typed(AssignAll(fields, todo).0, types)
    decreases todo
  {
    if todo != [] && SetField(fields, todo[0].name, todo[0].value).Some? {
      AssignAllTyped(SetField(fields, todo[0].name, todo[0].value).value, todo[1..], types);
    }
  }

  lemma {:induction false} EmptyTyped(recipe: seq<string>, types: Types)
    requires EmptyFields(recipe, types).Success?
    ensures Typed(EmptyFields(recipe, types).value, types)
  {
    if recipe != [] {
      EmptyTyped(recipe[1..], types);
    }
  }

  lemma {:induction false} AlwaysTyped(es: seq<Event>, types: Types)
    requires Proper(es, types)
    ensures BuffersTyped(Run(es, types), types)
  {
    if es != [] {
      var (front, e) := (es[..|es| - 1], es[|es| - 1]);
      AlwaysTyped(front, types);
      assert Proper([e], types) by {
        assert e == es[|es| - 1];
      }
      StepKeepsTyped(Run(front, types), e, types);
    }
  }

  lemma StepKeepsTyped(s: State, e: Event, types: Types)
    requires BuffersTyped(s, types) && Proper([e], types)
    ensures BuffersTyped(Step(s, e, types), types)
  {
    assert [e][0] == e;
    hide EmptyFields, Assignments, AssignAll, Masks, ResetOne, Typed;
    match e
    case SetInputRecipe(recipe) => EmptyTyped(recipe, types);
    case Set(call) =>
      if Assignments(call).Some? {
        AssignAllTyped(s.Store().fields, Assignments(call).value, types);
      }
    case ResetMask =>
      if s.thread.Resetting? && s.thread.done < |s.usedMasks| {
        ResetOneTyped(s.Send().fields, s.usedMasks[s.thread.done], types);
      }
    case _ =>
  }

  lemma ResetOneTyped(fields: seq<Field>, mask: string, types: Types)
    requires Typed(fields, types)
    ensures Typed(ResetOne(fields, mask), types)
  {
  }

  lemma ResetClears(fields: seq<Field>, mask: string, types: Types)
    requires Typed(fields, types) && MasksTyped(types) && IsMask(mask)
    ensures IsZero(ResetOne(fields, mask), mask)
  {
    LookupAfterSet(fields, mask, Zero(MaskKind(mask)), mask);
  }

  /** A mask in use that no call set since the last swap is zero in the store buffer. */
  ghost predicate StoreClean(s: State, touched: iset<string>) {
    forall i :: 0 <= i < |s.usedMasks| && s.usedMasks[i] !in touched ==> IsZero(s.Store().fields, s.usedMasks[i])
  }

  ghost predicate UsesMasks(s: State) {
    forall i :: 0 <= i < |s.usedMasks| ==> IsMask(s.usedMasks[i])
  }

  lemma {:induction false} AlwaysUsesMasks(es: seq<Event>, types: Types)
    ensures UsesMasks(Run(es, types))
  {
    if es != [] {
      AlwaysUsesMasks(es[..|es| - 1], types);
      MasksChangeWithRecipe(Run(es[..|es| - 1], types), es[|es| - 1], types);
      hide Step, IsMask, Masks;
      if es[|es| - 1].SetInputRecipe? {
        forall name ensures name in Masks(es[|es| - 1].recipe) ==> IsMask(name) {
          MasksAreInRecipe(es[|es| - 1].recipe, name);
        }
      }
    }
  }

  lemma SendKept(s: State, e: Event, types: Types)
    requires !e.SetInputRecipe? && e != ResetMask
    ensures var t := Step(s, e, types);
            && t.usedMasks == s.usedMasks
            && (ResetCount(t) == 0 || (t.Send().fields == s.Send().fields && ResetCount(t) <= ResetCount(s)))
  {
    hide EmptyFields, Assignments, AssignAll, Masks, ResetOne;
  }

  lemma StepKeepsSendClean(s: State, e: Event, types: Types)
    requires SendClean(s) && BuffersTyped(s, types) && MasksTyped(types) && UsesMasks(s) && Proper([e], types)
    ensures SendClean(Step(s, e, types))
  {
    assert [e][0] == e;
    hide Assignments, AssignAll, Masks, ResetOne, IsMask, IsZero, Typed, MasksTyped, UsesMasks;
    if !e.SetInputRecipe? && e != ResetMask {
      SendKept(s, e, types);
      hide Step, EmptyFields;
    } else if e.SetInputRecipe? {
      if ChangesRecipe(s, e, types) {
        FreshIsZero(e.recipe, types);
      }
    } else if s.thread.Resetting? && s.thread.done < |s.usedMasks| {
      ResetKeepsClean(s, types);
    }
  }

  lemma StoreKept(s: State, e: Event, types: Types)
    requires !e.SetInputRecipe? && !e.Set? && !e.SendPackage?
    ensures var t := Step(s, e, types);
            && t.usedMasks == s.usedMasks
            && (if Swaps(s, e) then t.Store().fields == s.Send().fields && ResetCount(s) == |s.usedMasks|
                else t.Store().fields == s.Store().fields)
  {
    hide EmptyFields, Assignments, AssignAll, Masks, ResetOne;
  }

  lemma StepKeepsStoreClean(s: State, e: Event, types: Types, touched: iset<string>, after: iset<string>)
    requires SendClean(s) && StoreClean(s, touched) && Proper([e], types)
    requires forall name :: name in after <==> TouchedAfter(s, e, types, name, name in touched)
    ensures StoreClean(Step(s, e, types), after)
  {
    assert [e][0] == e;
    hide Assignments, AssignAll, Masks, ResetOne, IsZero, Lookup, Written, Typed;
    if e.SetInputRecipe? {
      if ChangesRecipe(s, e, types) {
        FreshIsZero(e.recipe, types);
      }
    } else if e.Set? {
      forall name | CallWrites(s, e.call, name).None?
        ensures IsZero(Step(s, e, types).Store().fields, name) <==> IsZero(s.Store().fields, name)
      {
        UnwrittenStays(s, e.call, types, name);
      }
      hide CallWrites;
    } else if e.SendPackage? {
      forall name ensures Lookup(e.fields, name).None? ==> IsZero(e.fields, name) {
        AbsentIsZero(e.fields, name);
      }
    } else {
      StoreKept(s, e, types);
      hide Step;
    }
  }

  lemma UnwrittenStays(s: State, call: Call, types: Types, name: string)
    requires CallWrites(s, call, name).None?
    ensures IsZero(Step(s, Set(call), types).Store().fields, name) <==> IsZero(s.Store().fields, name)
  {
    hide Assignments, AssignAll, IsZero, Lookup, Written;
    if Assignments(call).Some? {
      LookupAfterAll(s.Store().fields, Assignments(call).value, name);
      SameLookupSameZero(AssignAll(s.Store().fields, Assignments(call).value).0, s.Store().fields, name);
    }
  }

  ghost function TouchedSet(es: seq<Event>, types: Types): iset<string> {
    iset name | Touched(es, types, name)
  }

  lemma {:induction false} AlwaysClean(es: seq<Event>, types: Types)
    requires Proper(es, types) && MasksTyped(types)
    ensures SendClean(Run(es, types)) && StoreClean(Run(es, types), TouchedSet(es, types))
  {
    if es != [] {
      var (front, e) := (es[..|es| - 1], es[|es| - 1]);
      AlwaysClean(front, types);
      AlwaysTyped(front, types);
      AlwaysUsesMasks(front, types);
      assert Proper([e], types) by {
        assert e == es[|es| - 1];
      }
      hide Proper, SendClean, StoreClean, BuffersTyped, MasksTyped, UsesMasks, Step, TouchedAfter;
      StepKeepsSendClean(Run(front, types), e, types);
      StepKeepsStoreClean(Run(front, types), e, types, TouchedSet(front, types), TouchedSet(es, types));
    }
  }

  lemma FreshIsZero(recipe: seq<string>, types: Types)
    requires EmptyFields(recipe, types).Success?
    ensures forall name :: IsZero(EmptyFields(recipe, types).value, name)
  {
    forall name ensures IsZero(EmptyFields(recipe, types).value, name) {
      LookupInFresh(recipe, types, name);
    }
  }

  lemma SameLookupSameZero(a: seq<Field>, b: seq<Field>, name: string)
    ensures Lookup(a, name) == Lookup(b, name) ==> (IsZero(a, name) <==> IsZero(b, name))
  {
    hide Lookup;
  }

  lemma AbsentIsZero(fields: seq<Field>, name: string)
    ensures Lookup(fields, name).None? ==> IsZero(fields, name)
  {
    hide Lookup;
  }

  lemma ResetKeepsClean(s: State, types: Types)
    requires s.thread.Resetting? && s.thread.done < |s.usedMasks| && SendClean(s)
    requires BuffersTyped(s, types) && MasksTyped(types) && UsesMasks(s)
    ensures forall i :: 0 <= i <= s.thread.done ==>
              IsZero(ResetOne(s.Send().fields, s.usedMasks[s.thread.done]), s.usedMasks[i])
  {
    var (fields, mask) := (s.Send().fields, s.usedMasks[s.thread.done]);
    hide IsMask, Typed, MasksTyped, ResetOne, IsZero;
    ResetClears(fields, mask, types);
    forall i | 0 <= i <= s.thread.done ensures IsZero(ResetOne(fields, mask), s.usedMasks[i]) {
      if s.usedMasks[i] != mask {
        ResetKeepsOthers(fields, mask, s.usedMasks[i]);
        SameLookupSameZero(ResetOne(fields, mask), fields, s.usedMasks[i]);
      }
    }
  }

  // The main result, over every interleaving

  /**
   * Every package sent was taken whole from the store buffer at some swap. Its masks in use are zero unless a call
   * set them since the swap before; every other field holds what was last stored in that same buffer.
   */
  lemma {:induction false} EverySentPackage(es: seq<Event>, types: Types, n: nat) returns (k: nat)
    requires Proper(es, types) && MasksTyped(types) && n < |Snapshots(es, types)|
    ensures k < |es| && Swaps(Run(es[..k], types), es[k]) && |Snapshots(es[..k], types)| == n
    ensures var s := Run(es[..k], types);
            && Snapshots(es, types)[n] == s.Store() && s.Store().id == s.recipeId
            && (forall i :: 0 <= i < |s.usedMasks| && !Touched(es[..k], types, s.usedMasks[i]) ==>
                  IsZero(s.Store().fields, s.usedMasks[i]))
            && (forall name :: NeverUsedMask(es, name) ==>
                  Lookup(s.Store().fields, name) == Register(es[..k], types, s.storesIn0, name))
  {
    hide Step, SendClean, IsZero, Lookup, MasksTyped, TouchedAfter;
    var front := es[..|es| - 1];
    if n < |Snapshots(front, types)| {
      k := EverySentPackage(front, types, n);
      assert front[..k] == es[..k];
      var s := Run(es[..k], types);
      forall name | NeverUsedMask(es, name)
        ensures Lookup(s.Store().fields, name) == Register(es[..k], types, s.storesIn0, name)
      {
        assert NeverUsedMask(front, name);
      }
    } else {
      k := |front|;
      AlwaysClean(front, types);
      AlwaysSound(front, types);
      var s := Run(es[..k], types);
      forall name | NeverUsedMask(es, name)
        ensures Lookup(s.Store().fields, name) == Register(es[..k], types, s.storesIn0, name)
      {
        assert NeverUsedMask(front, name);
        BuffersAreRegisters(front, types, s.storesIn0, name);
      }
    }
  }

  // The thread on its own: what it does to the end, and that it gets there

  /** The thread's next step. */
  function Next(s: State): Event {
    match s.thread
    case Serializing(read) => if |read| < |s.Send().fields| then ReadField else Write
    case Resetting(_) => ResetMask
    case LoopTop => Check
    case _ => Acquire
  }

  /** n steps of the thread, while no caller does anything. */
  function Alone(s: State, n: nat, types: Types): State
    decreases n
  {
    if n == 0 then s else Alone(Step(s, Next(s), types), n - 1, types)
  }

  function ResetFrom(fields: seq<Field>, masks: seq<string>, i: nat): (r: seq<Field>)
    ensures |r| == |fields|
    decreases |masks| - i
  {
    if i >= |masks| then fields else ResetFrom(ResetOne(fields, masks[i]), masks, i + 1)
  }

  /** After a package has been read and written: its masks reset, and back at the top of the loop. */
  function AfterReset(s: State, i: nat): State {
    s.WithSend(s.Send().(fields := ResetFrom(s.Send().fields, s.usedMasks, i))).(thread := LoopTop)
  }

  lemma {:induction false} ResetsToTheEnd(s: State, types: Types)
    requires s.thread.Resetting? && s.thread.done <= |s.usedMasks|
    ensures Alone(s, |s.usedMasks| - s.thread.done + 1, types) == AfterReset(s, s.thread.done)
    decreases |s.usedMasks| - s.thread.done
  {
    hide ResetOne, Step;
    StepResets(s, types);
    if s.thread.done < |s.usedMasks| {
      ResetsToTheEnd(Step(s, ResetMask, types), types);
    }
  }

  lemma StepResets(s: State, types: Types)
    requires s.thread.Resetting?
    ensures Step(s, ResetMask, types) ==
            if s.thread.done >= |s.usedMasks| then s.(thread := LoopTop)
            else s.WithSend(s.Send().(fields := ResetOne(s.Send().fields, s.usedMasks[s.thread.done])))
                 .(thread := Resetting(s.thread.done + 1))
  {
    hide ResetOne, EmptyFields, Assignments, AssignAll, Masks;
  }

  lemma {:induction false} ReadsToTheEnd(s: State, types: Types)
    requires s.thread.Serializing? && s.thread.read <= s.Send().fields
    ensures var t := s.(thread := Resetting(0), sent := s.sent + [s.Send()]);
            Alone(s, |s.Send().fields| - |s.thread.read| + 1, types) == t
    decreases |s.Send().fields| - |s.thread.read|
  {
    if |s.thread.read| < |s.Send().fields| {
      ReadsToTheEnd(Step(s, ReadField, types), types);
    } else {
      assert s.thread.read == s.Send().fields;
    }
  }

  lemma {:induction false} AloneAlone(s: State, m: nat, n: nat, types: Types)
    ensures Alone(Alone(s, m, types), n, types) == Alone(s, m + n, types)
    decreases m
  {
    hide Step, Next;
    if m > 0 {
      AloneAlone(Step(s, Next(s), types), m - 1, n, types);
    }
  }

  /** One turn of the loop that finds new data, as one step. */
  function Turn(s: State): State {
    AfterReset(s.(storesIn0 := !s.storesIn0, newData := false, sent := s.sent + [s.Store()]), 0)
  }

  lemma CheckAndSwap(s: State, types: Types)
    requires s.thread == LoopTop && s.newData && s.running
    ensures Alone(s, 2, types) == s.(storesIn0 := !s.storesIn0, newData := false, thread := Serializing([]))
  {
    hide EmptyFields, Assignments, AssignAll, Masks, ResetOne;
    var locking := Step(s, Check, types);
    assert Alone(s, 2, types) == Alone(locking, 1, types);
    assert Alone(locking, 1, types) == Alone(Step(locking, Acquire, types), 0, types);
  }

  /** The many steps of a turn amount to: send the store buffer, reset its masks, store in the other one. */
  lemma TurnIsItsSteps(s: State, types: Types)
    requires s.thread == LoopTop && s.newData && s.running
    ensures Alone(s, 2 + (|s.Store().fields| + 1) + (|s.usedMasks| + 1), types) == Turn(s)
  {
    hide ResetFrom, ResetOne, AssignAll, Step, Alone;
    var swapped := s.(storesIn0 := !s.storesIn0, newData := false, thread := Serializing([]));
    CheckAndSwap(s, types);
    ReadsToTheEnd(swapped, types);
    var written := swapped.(thread := Resetting(0), sent := swapped.sent + [swapped.Send()]);
    ResetsToTheEnd(written, types);
    AloneAlone(s, 2, |s.Store().fields| + 1, types);
    AloneAlone(s, 2 + (|s.Store().fields| + 1), |s.usedMasks| + 1, types);
  }

  /** From wherever it stands the thread gets back to the top of its loop, having sent what it was reading. */
  lemma BackToTop(s: State, types: Types) returns (n: nat)
    requires Sound(s) && (s.thread.Serializing? || s.thread.Resetting?)
    ensures var t := Alone(s, n, types);
            && t.thread == LoopTop && t.Store() == s.Store() && t.storesIn0 == s.storesIn0
            && t.newData == s.newData && t.running == s.running && t.sent == s.sent + Pending(s)
            && t.usedMasks == s.usedMasks
  {
    hide ResetFrom, ResetOne, EmptyFields, Assignments, AssignAll, Masks;
    if s.thread.Serializing? {
      n := |s.Send().fields| - |s.thread.read| + 1;
      ReadsToTheEnd(s, types);
      ResetsToTheEnd(Alone(s, n, types), types);
      AloneAlone(s, n, |s.usedMasks| + 1, types);
      n := n + (|s.usedMasks| + 1);
    } else if s.thread.done <= |s.usedMasks| {
      ResetsToTheEnd(s, types);
      n := |s.usedMasks| - s.thread.done + 1;
    } else {
      assert Alone(s, 1, types) == Alone(s.(thread := LoopTop), 0, types);
      n := 1;
    }
  }

  /** Stored data that was announced is sent as soon as the thread gets to run, wherever it stands. */
  lemma AnnouncedIsSent(s: State, types: Types) returns (n: nat)
    requires Sound(s) && s.running && s.newData
    ensures Alone(s, n, types).sent == s.sent + Pending(s) + [s.Store()]
  {
    hide EmptyFields, Assignments, AssignAll, Masks, ResetOne, ResetFrom;
    if s.thread.Serializing? || s.thread.Resetting? {
      var m := BackToTop(s, types);
      var top := Alone(s, m, types);
      TurnIsItsSteps(top, types);
      var k := 2 + (|top.Store().fields| + 1) + (|top.usedMasks| + 1);
      AloneAlone(s, m, k, types);
      n := m + k;
    } else if s.thread == LoopTop {
      TurnIsItsSteps(s, types);
      n := 2 + (|s.Store().fields| + 1) + (|s.usedMasks| + 1);
    } else {
      // before taking the lock, and after: the same as a turn from its second step on
      var swapped := Step(s, Acquire, types);
      ReadsToTheEnd(swapped, types);
      n := 1 + (|s.Store().fields| + 1);
      AloneAlone(s, 1, |s.Store().fields| + 1, types);
      assert Alone(s, 1, types) == Alone(swapped, 0, types);
    }
  }

  /** Once stopped, the thread ends, so that joining it returns. */
  lemma StoppedEnds(s: State, types: Types) returns (n: nat)
    requires Sound(s) && !s.running && s.thread != Absent
    ensures Alone(s, n, types).thread == Ended
  {
    if s.thread == Ended {
      n := 0;
    } else if s.thread.Serializing? || s.thread.Resetting? {
      var m := BackToTop(s, types);
      AloneAlone(s, m, 1, types);
      var top := Alone(s, m, types);
      assert Alone(top, 1, types) == Alone(Step(top, Check, types), 0, types);
      n := m + 1;
    } else if s.thread == LoopTop {
      assert Alone(s, 1, types) == Alone(Step(s, Check, types), 0, types);
      n := 1;
    } else {
      var top := Step(s, Acquire, types);
      assert Alone(s, 2, types) == Alone(top, 1, types);
      assert Alone(top, 1, types) == Alone(Step(top, Check, types), 0, types);
      n := 2;
    }
  }

  // What a setter's result means

  /** The setter's values have the types that the type list gives its fields. */
  ghost predicate Agrees(todo: seq<Assignment>, types: Types) {
    forall k :: 0 <= k < |todo| ==> todo[k].name in types && types[todo[k].name] == todo[k].value.kind
  }

  lemma LookupTyped(fields: seq<Field>, name: string, types: Types)
    requires Typed(fields, types)
    ensures Lookup(fields, name).Some? ==> name in types && Lookup(fields, name).value.kind == types[name]
  {
  }

  lemma {:induction false} AssignAllSucceeds(fields: seq<Field>, todo: seq<Assignment>, types: Types)
    requires Typed(fields, types) && Agrees(todo, types)
    ensures AssignAll(fields, todo).1 <==> forall k :: 0 <= k < |todo| ==> Lookup(fields, todo[k].name).Some?
    decreases todo
  {
    hide Lookup, SetField, Typed;
    if todo != [] {
      var (a, rest) := (todo[0], todo[1..]);
      LookupTyped(fields, a.name, types);
      LookupAfterSet(fields, a.name, a.value, a.name);
      if SetField(fields, a.name, a.value).Some? {
        var after := SetField(fields, a.name, a.value).value;
        SetFieldTyped(fields, a, types);
        AssignAllSucceeds(after, rest, types);
        forall k | 0 <= k < |rest| ensures Lookup(after, rest[k].name).Some? <==> Lookup(fields, todo[k + 1].name).Some? {
          LookupAfterSet(fields, a.name, a.value, rest[k].name);
        }
        if forall k :: 0 <= k < |rest| ==> Lookup(after, rest[k].name).Some? {
          forall k | 0 <= k < |todo| ensures Lookup(fields, todo[k].name).Some? {
            assert k > 0 ==> todo[k] == rest[k - 1];
          }
        }
      }
    }
  }

  lemma SetFieldTyped(fields: seq<Field>, a: Assignment, types: Types)
    requires Typed(fields, types) && SetField(fields, a.name, a.value).Some?
    ensures Typed(SetField(fields, a.name, a.value).value, types)
  {
  }

  predicate Succeeds(s: State, call: Call) {
    Assignments(call).Some? && AssignAll(s.Store().fields, Assignments(call).value).1
  }

  /**
   * A setter returns true exactly when its arguments are in range and its fields in the recipe; that is also when it
   * announces new data.
   */
  lemma SetterSucceedsExactly(s: State, call: Call, types: Types)
    requires BuffersTyped(s, types)
    requires Assignments(call).Some? ==> Agrees(Assignments(call).value, types)
    ensures var todo := Assignments(call);
            Succeeds(s, call) <==>
            todo.Some? && forall k :: 0 <= k < |todo.value| ==> Lookup(s.Store().fields, todo.value[k].name).Some?
    ensures Step(s, Set(call), types).newData <==> s.newData || Succeeds(s, call)
  {
    hide Assignments, Lookup, AssignAll, Typed, Agrees;
    if Assignments(call).Some? {
      AssignAllSucceeds(s.Store().fields, Assignments(call).value, types);
    }
  }

  // A call and a turn

  function Called(s: State, call: Call, types: Types): State {
    Step(s, Set(call), types)
  }

  lemma {:induction false} ResetFromKeeps(fields: seq<Field>, masks: seq<string>, i: nat, name: string)
    requires name !in masks
    ensures Lookup(ResetFrom(fields, masks, i), name) == Lookup(fields, name)
    decreases |masks| - i
  {
    hide ResetOne, Lookup;
    if i < |masks| {
      ResetKeepsOthers(fields, masks[i], name);
      ResetFromKeeps(ResetOne(fields, masks[i]), masks, i + 1, name);
    }
  }

  /** One setter and one turn: what it wrote is sent, and stays in the buffer that is sent from. */
  lemma CalledAndSent(s: State, call: Call, types: Types, name: string)
    requires s.thread == LoopTop && s.running && Succeeds(s, call) && name !in s.usedMasks
    ensures var t := Turn(Called(s, call, types));
            && Called(s, call, types).newData
            && t.thread == LoopTop && t.running && t.usedMasks == s.usedMasks && t.Store() == s.Send()
            && |t.sent| == |s.sent| + 1 && t.sent[..|s.sent|] == s.sent
            && Lookup(t.sent[|s.sent|].fields, name) == Either(CallWrites(s, call, name), Lookup(s.Store().fields, name))
            && Lookup(t.Send().fields, name) == Lookup(t.sent[|s.sent|].fields, name)
  {
    hide Assignments, AssignAll, ResetFrom, Lookup, Written;
    LookupAfterAll(s.Store().fields, Assignments(call).value, name);
    ResetFromKeeps(Called(s, call, types).Store().fields, s.usedMasks, 0, name);
  }

  // Which packages carry the newest value

  /** The call or package stores into the field. */
  predicate Stores(s: State, e: Event, name: string) {
    (e.Set? && CallWrites(s, e.call, name).Some?) || e.SendPackage?
  }

  /** What was stored in the field last, in whichever buffer. */
  function Newest(es: seq<Event>, types: Types, name: string): Option<Value> {
    if es == [] then None
    else
      var (s, e) := (Run(es[..|es| - 1], types), es[|es| - 1]);
      if ChangesRecipe(s, e, types) then FreshField(e.recipe, types, name)
      else if !Stores(s, e, name) then Newest(es[..|es| - 1], types, name)
      else if e.Set? then CallWrites(s, e.call, name)
      else Lookup(e.fields, name)
  }

  /** The buffer that it was stored in. */
  predicate NewestIn0(es: seq<Event>, types: Types, name: string) {
    if es == [] then true
    else
      var (s, e) := (Run(es[..|es| - 1], types), es[|es| - 1]);
      if ChangesRecipe(s, e, types) then true
      else if Stores(s, e, name) then s.storesIn0
      else NewestIn0(es[..|es| - 1], types, name)
  }

  /** How many packages were taken to be sent since then. */
  function TakenSince(es: seq<Event>, types: Types, name: string): nat {
    if es == [] then 0
    else
      var (s, e) := (Run(es[..|es| - 1], types), es[|es| - 1]);
      if ChangesRecipe(s, e, types) || Stores(s, e, name) then 0
      else TakenSince(es[..|es| - 1], types, name) + if Swaps(s, e) then 1 else 0
  }

  lemma {:induction false} NewestIsRegister(es: seq<Event>, types: Types, name: string)
    ensures Newest(es, types, name) == Register(es, types, NewestIn0(es, types, name), name)
  {
    hide CallWrites, Step, Run, ChangesRecipe, FreshField, Lookup;
    if es != [] {
      NewestIsRegister(es[..|es| - 1], types, name);
    }
  }

  lemma StepMovesStore(s: State, e: Event, types: Types)
    ensures Step(s, e, types).storesIn0 ==
            if ChangesRecipe(s, e, types) then true else if Swaps(s, e) then !s.storesIn0 else s.storesIn0
  {
    hide EmptyFields, Assignments, AssignAll, Masks, ResetOne;
  }

  lemma {:induction false} EvenMeansSameBuffer(es: seq<Event>, types: Types, name: string)
    ensures Run(es, types).storesIn0 == NewestIn0(es, types, name) <==> TakenSince(es, types, name) % 2 == 0
  {
    hide CallWrites, Step, ChangesRecipe;
    if es != [] {
      EvenMeansSameBuffer(es[..|es| - 1], types, name);
      StepMovesStore(Run(es[..|es| - 1], types), es[|es| - 1], types);
    }
  }

  /**
   * The n-th package carries the newest value of a field if and only if an even number of packages was taken since
   * that value was stored, or both buffers hold the same value.
   */
  lemma NewestIsSentExactly(es: seq<Event>, types: Types, n: nat, name: string) returns (k: nat)
    requires Proper(es, types) && MasksTyped(types) && n < |Snapshots(es, types)| && NeverUsedMask(es, name)
    ensures k < |es| && Swaps(Run(es[..k], types), es[k]) && |Snapshots(es[..k], types)| == n
    ensures var before := es[..k];
            Lookup(Snapshots(es, types)[n].fields, name) == Newest(before, types, name) <==>
            || TakenSince(before, types, name) % 2 == 0
            || Register(before, types, true, name) == Register(before, types, false, name)
  {
    k := EverySentPackage(es, types, n);
    NewestIsRegister(es[..k], types, name);
    EvenMeansSameBuffer(es[..k], types, name);
    hide Run, Register, Newest, NewestIn0, TakenSince, Lookup, IsZero, Proper, MasksTyped;
  }

  // Two buffers, two memories

  /**
   * A field set twice and then left alone: the third package carries the first value again, because it goes out of
   * the buffer that the second one was never stored in.
   */
  lemma OldValueIsSentAgain(s: State, first: Call, second: Call, third: Call, types: Types, name: string)
    requires s.thread == LoopTop && s.running && name !in s.usedMasks
    requires var s1 := Turn(Called(s, first, types));
             var s2 := Turn(Called(s1, second, types));
             && Succeeds(s, first) && Succeeds(s1, second) && Succeeds(s2, third)
             && CallWrites(s, first, name).Some? && CallWrites(s1, second, name).Some? && CallWrites(s2, third, name).None?
    ensures var s1 := Turn(Called(s, first, types));
            var s3 := Turn(Called(Turn(Called(s1, second, types)), third, types));
            && |s3.sent| == |s.sent| + 3
            && Lookup(s3.sent[|s.sent|].fields, name) == CallWrites(s, first, name)
            && Lookup(s3.sent[|s.sent| + 1].fields, name) == CallWrites(s1, second, name)
            && Lookup(s3.sent[|s.sent| + 2].fields, name) == CallWrites(s, first, name)
  {
    hide Turn, Called, Succeeds, CallWrites, Lookup;
    var s1 := Turn(Called(s, first, types));
    var s2 := Turn(Called(s1, second, types));
    CalledAndSent(s, first, types, name);
    CalledAndSent(s1, second, types, name);
    CalledAndSent(s2, third, types, name);
    var s3 := Turn(Called(s2, third, types));
    assert s3.sent[..|s2.sent|][..|s1.sent|] == s1.sent;
    assert s3.sent[|s.sent|] == s3.sent[..|s2.sent|][|s.sent|] == s2.sent[..|s1.sent|][|s.sent|];
    assert s3.sent[|s1.sent|] == s3.sent[..|s2.sent|][|s1.sent|];
  }

  const REGISTER_24 := "input_int_register_24"
  const REGISTER_25 := "input_int_register_25"

  predicate TwoRegisters(fields: seq<Field>) {
    && |fields| == 2 && fields[0].name == REGISTER_24 && fields[1].name == REGISTER_25
    && fields[0].value.kind == Int32 && fields[1].value.kind == Int32
  }

  lemma RegisterNames(value: int)
    ensures REGISTER_24 != REGISTER_25
    ensures Assignments(InputInt(24, value)) == Some([Assignment(REGISTER_24, Value(Int32, [value]))])
    ensures Assignments(InputInt(25, value)) == Some([Assignment(REGISTER_25, Value(Int32, [value]))])
  {
    assert Decimal(2) == "2";
    assert Decimal(24) == "24" && Decimal(25) == "25";
    assert "input_int_register_" + "24" == REGISTER_24;
    assert "input_int_register_" + "25" == REGISTER_25;
    assert REGISTER_24[20] != REGISTER_25[20];
  }

  /** The integer setters on a package of these two registers. */
  lemma SetRegister(s: State, value: int, types: Types)
    requires TwoRegisters(s.Store().fields)
    ensures Succeeds(s, InputInt(24, value)) && CallWrites(s, InputInt(24, value), REGISTER_24) == Some(Value(Int32, [value]))
    ensures Succeeds(s, InputInt(25, value)) && CallWrites(s, InputInt(25, value), REGISTER_24) == None
    ensures TwoRegisters(AssignAll(s.Store().fields, Assignments(InputInt(24, value)).value).0)
  {
    var fields := s.Store().fields;
    RegisterNames(value);
    hide Assignments;
    assert FieldIndex(fields, REGISTER_24, 0) == 0;
    assert FieldIndex(fields, REGISTER_25, 0) == FieldIndex(fields, REGISTER_25, 1) == 1;
    OneAssignment(fields, Assignment(REGISTER_24, Value(Int32, [value])), REGISTER_24);
    OneAssignment(fields, Assignment(REGISTER_25, Value(Int32, [value])), REGISTER_24);
  }

  lemma OneAssignment(fields: seq<Field>, a: Assignment, name: string)
    requires SetField(fields, a.name, a.value).Some?
    ensures AssignAll(fields, [a]) == (SetField(fields, a.name, a.value).value, true)
    ensures Written(fields, [a], name) == if a.name == name then Some(a.value) else None
  {
    hide SetField;
    assert [a][1..] == [];
  }

  lemma TurnKeepsTwoRegisters(s: State, value: int, types: Types)
    requires s.usedMasks == [] && s.thread == LoopTop && s.running
    requires TwoRegisters(s.Store().fields) && TwoRegisters(s.Send().fields)
    ensures var t := Turn(Called(s, InputInt(24, value), types));
            && TwoRegisters(t.Store().fields) && TwoRegisters(t.Send().fields)
            && t.usedMasks == [] && t.thread == LoopTop && t.running
  {
    SetRegister(s, value, types);
    hide TwoRegisters, Assignments, AssignAll;
  }

  lemma ThreeRegisterTurns(s: State, types: Types)
    requires s.usedMasks == [] && s.thread == LoopTop && s.running && s.sent == []
    requires TwoRegisters(s.Store().fields) && TwoRegisters(s.Send().fields)
    ensures var s1 := Turn(Called(s, InputInt(24, 1), types));
            var s2 := Turn(Called(s1, InputInt(24, 2), types));
            var s3 := Turn(Called(s2, InputInt(25, 7), types));
            && s1.thread == s2.thread == LoopTop && s1.running && s2.running
            && Succeeds(s, InputInt(24, 1)) && Succeeds(s1, InputInt(24, 2)) && Succeeds(s2, InputInt(25, 7))
            && |s3.sent| == 3
            && Lookup(s3.sent[0].fields, REGISTER_24) == Some(Value(Int32, [1]))
            && Lookup(s3.sent[1].fields, REGISTER_24) == Some(Value(Int32, [2]))
            && Lookup(s3.sent[2].fields, REGISTER_24) == Some(Value(Int32, [1]))
  {
    hide TwoRegisters, Assignments, AssignAll, Turn, Called, Succeeds, CallWrites, Lookup;
    var s1 := Turn(Called(s, InputInt(24, 1), types));
    var s2 := Turn(Called(s1, InputInt(24, 2), types));
    SetRegister(s, 1, types);
    TurnKeepsTwoRegisters(s, 1, types);
    SetRegister(s1, 2, types);
    TurnKeepsTwoRegisters(s1, 2, types);
    SetRegister(s2, 7, types);
    OldValueIsSentAgain(s, InputInt(24, 1), InputInt(24, 2), InputInt(25, 7), types, REGISTER_24);
  }

  lemma RunsMore(es: seq<Event>, e: Event, types: Types)
    ensures Run(es + [e], types) == Step(Run(es, types), e, types)
  {
    assert (es + [e])[..|es|] == es;
  }

  /** The steps that the thread takes on its own are a run. */
  lemma {:induction false} RunsAlone(es: seq<Event>, n: nat, types: Types) returns (more: seq<Event>)
    ensures Run(more, types) == Alone(Run(es, types), n, types)
    decreases n
  {
    hide Step, Next, Run;
    if n == 0 {
      more := es;
    } else {
      RunsMore(es, Next(Run(es, types)), types);
      more := RunsAlone(es + [Next(Run(es, types))], n - 1, types);
    }
  }

  lemma CallsAndSends(es: seq<Event>, call: Call, types: Types) returns (more: seq<Event>)
    requires Run(es, types).thread == LoopTop && Run(es, types).running && Succeeds(Run(es, types), call)
    ensures Run(more, types) == Turn(Called(Run(es, types), call, types))
  {
    hide Run, Alone, Turn, AssignAll, Assignments;
    RunsMore(es, Set(call), types);
    var s := Run(es + [Set(call)], types);
    assert s.thread == LoopTop && s.newData && s.running;
    hide Step;
    TurnIsItsSteps(s, types);
    more := RunsAlone(es + [Set(call)], 2 + (|s.Store().fields| + 1) + (|s.usedMasks| + 1), types);
  }

  lemma NoMasksInRegisters()
    ensures Masks([REGISTER_24, REGISTER_25]) == []
  {
    assert [REGISTER_24, REGISTER_25][1..] == [REGISTER_25] && [REGISTER_25][1..] == [];
    assert REGISTER_24[|REGISTER_24| - 5..] == "er_24" && REGISTER_25[|REGISTER_25| - 5..] == "er_25";
    assert MASK[0] == '_' && Masks([REGISTER_25]) == [];
  }

  lemma ZeroRegisters(types: Types)
    requires REGISTER_24 in types && types[REGISTER_24] == Int32 && REGISTER_25 in types && types[REGISTER_25] == Int32
    ensures EmptyFields([REGISTER_24, REGISTER_25], types) ==
            Success([Field(REGISTER_24, Zero(Int32)), Field(REGISTER_25, Zero(Int32))])
  {
    assert [REGISTER_24, REGISTER_25][1..] == [REGISTER_25] && [REGISTER_25][1..] == [];
    assert EmptyFields([], types) == Success([]);
    var second := EmptyFields([REGISTER_25], types);
    assert second == Success([Field(REGISTER_25, Zero(Int32))] + []);
    assert [Field(REGISTER_25, Zero(Int32))] + [] == [Field(REGISTER_25, Zero(Int32))];
    var (first, rest) := (Field(REGISTER_24, Zero(Int32)), Field(REGISTER_25, Zero(Int32)));
    assert EmptyFields([REGISTER_24, REGISTER_25], types) == Success([first] + [rest]);
    assert [first] + [rest] == [first, rest];
  }

  /** A writer is given a recipe of these two registers and started. */
  lemma RunsTwoRegisters(types: Types) returns (es: seq<Event>)
    requires REGISTER_24 in types && types[REGISTER_24] == Int32 && REGISTER_25 in types && types[REGISTER_25] == Int32
    ensures var s := Run(es, types);
            && s.usedMasks == [] && s.thread == LoopTop && s.running && s.sent == []
            && TwoRegisters(s.Store().fields) && TwoRegisters(s.Send().fields)
  {
    var recipe := [REGISTER_24, REGISTER_25];
    NoMasksInRegisters();
    ZeroRegisters(types);
    hide EmptyFields, Masks;
    es := [];
    assert Run(es, types) == NEW;
    hide Run;
    RunsMore(es, SetInputRecipe(recipe), types);
    es := es + [SetInputRecipe(recipe)];
    RunsMore(es, Init(1), types);
    es := es + [Init(1)];
  }

  /**
   * It does happen: of a new writer whose recipe is two registers, register 24 is set to 1, then to 2, then register
   * 25 is set, each sent before the next, and the robot is told 1 again.
   */
  lemma OldRegisterIsSentAgain(types: Types) returns (es: seq<Event>)
    requires REGISTER_24 in types && types[REGISTER_24] == Int32 && REGISTER_25 in types && types[REGISTER_25] == Int32
    ensures var s := Run(es, types);
            && |s.sent| == 3
            && Lookup(s.sent[0].fields, REGISTER_24) == Some(Value(Int32, [1]))
            && Lookup(s.sent[1].fields, REGISTER_24) == Some(Value(Int32, [2]))
            && Lookup(s.sent[2].fields, REGISTER_24) == Some(Value(Int32, [1]))
  {
    es := RunsTwoRegisters(types);
    hide Run, Turn, Called, Succeeds, TwoRegisters, Lookup;
    ThreeRegisterTurns(Run(es, types), types);
    es := CallsAndSends(es, InputInt(24, 1), types);
    es := CallsAndSends(es, InputInt(24, 2), types);
    es := CallsAndSends(es, InputInt(25, 7), types);
  }
}
