/** Input arbitration between the on-screen joystick and the "virtual" input
    that auto-combat injects. The joystick's current reading is a parameter
    (`stick`); whether a joystick controller exists is a flag. */
module Input {
  import opened World

  datatype InputType = Joystick | Virtual

  /** The fields of an input manager that decide what movement input is returned. */
  datatype InputState = InputState(
    priority: InputType,
    useJoystick: bool,
    hasController: bool,
    virtualInput: Vec2,
    virtualEnabled: bool)

  /** Virtual priority always comes with virtual input enabled. Every operation keeps this. */
  predicate Consistent(s: InputState) {
    s.priority == Virtual ==> s.virtualEnabled
  }

  /** The state Awake leaves behind; `controllerFound` says whether a controller
      was assigned or found in the scene. */
  function AwakeState(s: InputState, controllerFound: bool): (r: InputState)
    ensures r.priority == Joystick && r.useJoystick && !r.virtualEnabled && r.virtualInput == Zero
    ensures r.hasController == (s.hasController || controllerFound)
    ensures Consistent(r)
  {
    InputState(Joystick, true, s.hasController || controllerFound, Zero, false)
  }

  /** `SetPriorityInputType`: virtual input is enabled exactly for Virtual priority. */
  function WithPriority(s: InputState, t: InputType): (r: InputState)
    ensures r.priority == t && (r.virtualEnabled <==> t == Virtual)
    ensures r.virtualInput == s.virtualInput && r.useJoystick == s.useJoystick && r.hasController == s.hasController
    ensures Consistent(r)
  {
    s.(priority := t, virtualEnabled := t == Virtual)
  }

  /** `SetVirtualInput`: store the vector and enable virtual input; priority is untouched. */
  function WithVirtualInput(s: InputState, v: Vec2): (r: InputState)
    ensures r.virtualInput == v && r.virtualEnabled && r.priority == s.priority
    ensures Consistent(r)
  {
    s.(virtualInput := v, virtualEnabled := true)
  }

  /** `Update`: a stored virtual vector survives a frame only while virtual input
      is both enabled and prioritised. */
  function Tick(s: InputState): (r: InputState)
    ensures r.virtualInput == (if s.virtualEnabled && s.priority == Virtual then s.virtualInput else Zero)
    ensures r.(virtualInput := s.virtualInput) == s
  {
    if s.virtualEnabled && s.priority == Virtual then s else s.(virtualInput := Zero)
  }

  /** `GetMovementInput`: the joystick wins unless virtual input is prioritised;
      the stored vector is returned only when enabled and prioritised; otherwise zero. */
  function MovementInput(s: InputState, stick: Vec2): (v: Vec2)
    ensures s.useJoystick && s.hasController && s.priority != Virtual ==> v == stick
    ensures v == s.virtualInput ==> v == Zero || v == stick || (s.virtualEnabled && s.priority == Virtual)
    ensures s.priority == Joystick && !(s.useJoystick && s.hasController) ==> v == Zero
  {
    if s.useJoystick && s.hasController && s.priority != Virtual then stick
    else if s.virtualEnabled && s.priority == Virtual then s.virtualInput
    else Zero
  }

  /** `GetJoystickValue`: the controller's reading, or zero without a controller. */
  function JoystickValue(s: InputState, stick: Vec2): (v: Vec2)
    ensures !s.hasController ==> v == Zero
    ensures s.hasController ==> v == stick
  {
    if s.hasController then stick else Zero
  }

  /** Under Joystick priority the stored virtual vector is never what comes out,
      unless it happens to equal the joystick reading or zero. */
  lemma JoystickPriorityNeverVirtual(s: InputState, stick: Vec2)
    requires s.priority == Joystick
    ensures MovementInput(s, stick) == stick || MovementInput(s, stick) == Zero
  {
  }

  /** Under Virtual priority a consistent state always returns the stored vector. */
  lemma VirtualPriorityReturnsStored(s: InputState, stick: Vec2)
    requires Consistent(s) && s.priority == Virtual
    ensures MovementInput(s, stick) == s.virtualInput
  {
  }

  /** Auto-combat's hand-off: after storing `v` and prioritising virtual input,
      `v` is what movement reads, and a frame's `Update` does not clear it. */
  lemma VirtualHandOff(s: InputState, v: Vec2, stick: Vec2)
    ensures MovementInput(WithPriority(WithVirtualInput(s, v), Virtual), stick) == v
    ensures Tick(WithPriority(WithVirtualInput(s, v), Virtual)) == WithPriority(WithVirtualInput(s, v), Virtual)
    ensures MovementInput(WithVirtualInput(WithPriority(s, Virtual), v), stick) == v
  {
  }

  /** Storing a virtual vector while the joystick is prioritised is undone by the next `Update`. */
  lemma StoredVectorClearedUnderJoystick(s: InputState, v: Vec2)
    requires s.priority == Joystick
    ensures Tick(WithVirtualInput(s, v)).virtualInput == Zero
  {
  }

  /** Every state change keeps virtual priority and virtual enabling together. */
  lemma OperationsKeepConsistent(s: InputState, t: InputType, v: Vec2, found: bool)
    requires Consistent(s)
    ensures Consistent(Tick(s)) && Consistent(WithPriority(s, t))
    ensures Consistent(WithVirtualInput(s, v)) && Consistent(AwakeState(s, found))
  {
  }

  /** The state after `SetVirtualInput` is called with each vector of `vs` in turn. */
  function ApplySends(s: InputState, vs: seq<Vec2>): InputState {
    if vs == [] then s else WithVirtualInput(ApplySends(s, vs[..|vs| - 1]), vs[|vs| - 1])
  }

  /** Only the last of several vectors sent in a row matters; sending none changes nothing. */
  lemma {:induction false} LastSendWins(s: InputState, vs: seq<Vec2>)
    requires vs != []
    ensures ApplySends(s, vs) == WithVirtualInput(s, vs[|vs| - 1])
  {
    var init := vs[..|vs| - 1];
    if init != [] {
      LastSendWins(s, init);
    }
  }

  class InputManager {
    var priority: InputType
    var useJoystick: bool
    var hasController: bool
    var virtualInput: Vec2
    var virtualEnabled: bool

    function Model(): InputState
      reads this
    {
      InputState(priority, useJoystick, hasController, virtualInput, virtualEnabled)
    }

    predicate Valid()
      reads this
    {
      Consistent(Model())
    }

    /** The serialised defaults; `controllerAssigned` is the controller reference set in the inspector. */
    constructor (controllerAssigned: bool)
      ensures Valid()
      ensures Model() == InputState(Joystick, true, controllerAssigned, Zero, false)
    {
      priority := Joystick;
      useJoystick := true;
      hasController := controllerAssigned;
      virtualInput := Zero;
      virtualEnabled := false;
    }

    method Awake(controllerFound: bool)
      modifies this
      ensures Valid()
      ensures Model() == AwakeState(old(Model()), controllerFound)
    {
      if !hasController {
        hasController := controllerFound;
      }
      virtualInput := Zero;
      virtualEnabled := false;
      useJoystick := true;
      priority := Joystick;
    }

    method Update()
      requires Valid()
      modifies this
      ensures Valid()
      ensures Model() == Tick(old(Model()))
    {
      if virtualEnabled && priority == Virtual {
      } else {
        if virtualInput != Zero {
          virtualInput := Zero;
        }
      }
    }

    method GetMovementInput(stick: Vec2) returns (v: Vec2)
      ensures v == MovementInput(Model(), stick)
    {
      if useJoystick && hasController && priority != Virtual {
        return stick;
      }
      if virtualEnabled && priority == Virtual {
        return virtualInput;
      }
      return Zero;
    }

    method GetJoystickValue(stick: Vec2) returns (v: Vec2)
      ensures v == JoystickValue(Model(), stick)
    {
      if hasController {
        return stick;
      }
      return Zero;
    }

    method SetPriorityInputType(t: InputType)
      modifies this
      ensures Valid()
      ensures Model() == WithPriority(old(Model()), t)
    {
      priority := t;
      virtualEnabled := t == Virtual;
    }

    method SetVirtualInput(v: Vec2)
      requires Valid()
      modifies this
      ensures Valid()
      ensures Model() == WithVirtualInput(old(Model()), v)
    {
      virtualInput := v;
      virtualEnabled := true;
    }
  }
}
