/** The push-button node: pressing drives the board pin its OUT is wired to
    HIGH, releasing drives it LOW, both only while the circuit runs. */
module ButtonNode {
  import opened Wrappers
  import opened Seqs
  import opened CircuitTypes
  import opened CircuitContext

  /** `getConnectedPin()`: the destination pin of the first wire leaving this
      button's OUT pin. */
  function ConnectedPin(wires: seq<Wire>, buttonId: string): (r: Option<string>)
    ensures r.None? <==> NoMatch(wires, LeavesFrom(buttonId, "OUT"))
    ensures r.Some? ==> exists k :: IsFirstMatch(wires, LeavesFrom(buttonId, "OUT"), k) && r.value == wires[k].toPinId
  {
    match WireOutOf(wires, buttonId, "OUT")
    case None => None
    case Some(w) => Some(w.toPinId)
  }

  /** The button's local `isPressed` flag and the circuit after an event. */
  datatype ButtonView = ButtonView(isPressed: bool, circuit: Circuit)

  /** The write shared by press and release: `level` goes to the connected
      pin when the circuit runs and the pin id is non-empty (an empty id is
      falsy in the TypeScript `if (targetPin)`). */
  function DriveConnected(c: Circuit, buttonId: string, level: int): (r: Circuit)
    ensures r.components == c.components && r.wires == c.wires && r.isRunning == c.isRunning
    ensures !c.isRunning ==> r == c
    ensures NoMatch(c.wires, LeavesFrom(buttonId, "OUT")) ==> r == c
    ensures c.isRunning ==> forall k :: IsFirstMatch(c.wires, LeavesFrom(buttonId, "OUT"), k) ==>
      r.pinStates == (if c.wires[k].toPinId == "" then c.pinStates else SetPinState(c.pinStates, c.wires[k].toPinId, level))
  {
    if !c.isRunning then c
    else
      match ConnectedPin(c.wires, buttonId)
      case None => c
      case Some(pin) =>
        FirstMatchesAgree(c.wires, LeavesFrom(buttonId, "OUT"));
        if pin != "" then WritePin(c, pin, level) else c
  }

  /** `handleMouseDown`: the button shows pressed whatever the run state, and
      the connected pin goes HIGH while running. */
  function MouseDown(c: Circuit, buttonId: string): (r: ButtonView)
    ensures r.isPressed
    ensures r.circuit == DriveConnected(c, buttonId, High)
  {
    ButtonView(true, DriveConnected(c, buttonId, High))
  }

  /** `handleMouseUp`, also bound to mouse-leave: the button shows released,
      and the connected pin goes LOW while running. */
  function MouseUp(c: Circuit, buttonId: string): (r: ButtonView)
    ensures !r.isPressed
    ensures r.circuit == DriveConnected(c, buttonId, Low)
  {
    ButtonView(false, DriveConnected(c, buttonId, Low))
  }

  /** While the circuit runs and the button is wired to a named pin, a press
      leaves that pin HIGH and a following release leaves it LOW; no other
      pin changes. */
  lemma PressThenRelease(c: Circuit, buttonId: string, pin: string)
    requires c.isRunning
    requires ConnectedPin(c.wires, buttonId) == Some(pin) && pin != ""
    ensures MouseDown(c, buttonId).circuit.pinStates[pin] == High
    ensures MouseUp(MouseDown(c, buttonId).circuit, buttonId).circuit.pinStates[pin] == Low
    ensures !MouseUp(MouseDown(c, buttonId).circuit, buttonId).isPressed
    ensures forall q :: q != pin ==>
      (q in MouseUp(MouseDown(c, buttonId).circuit, buttonId).circuit.pinStates <==> q in c.pinStates)
  {
    var k :| IsFirstMatch(c.wires, LeavesFrom(buttonId, "OUT"), k) && pin == c.wires[k].toPinId;
    var d := MouseDown(c, buttonId).circuit;
    assert d.wires == c.wires;
  }

  /** Outside a run, pressing and releasing only move the plunger. */
  lemma StoppedButtonWritesNothing(c: Circuit, buttonId: string)
    requires !c.isRunning
    ensures MouseDown(c, buttonId) == ButtonView(true, c)
    ensures MouseUp(c, buttonId) == ButtonView(false, c)
  {
  }
}
