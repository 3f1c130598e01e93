/** The circuit engine: the commands that change the circuit aggregate
    (add with auto-wiring, move, remove with cascade, run/stop, pin write)
    and the one-step simulation rule applied while the circuit runs.
    Identifiers the simulator draws from a uuid generator are supplied by the
    caller as fresh values. */
module CircuitContext {
  import opened Wrappers
  import opened Seqs
  import opened CircuitTypes

  /** The identifiers one `addComponent` call draws, in the order it draws
      them: the component's, then one per wire created (at most two). */
  datatype FreshIds = FreshIds(component: string, firstWire: string, secondWire: string)

  /** `cs` holds a component of kind `t`. */
  predicate HasType(cs: seq<Component>, t: ComponentType) {
    exists i :: 0 <= i < |cs| && cs[i].ctype == t
  }

  /** `id` is the identifier of the first component of kind `t` in `cs`. */
  ghost predicate IsFirstOfType(cs: seq<Component>, t: ComponentType, id: string) {
    exists i :: 0 <= i < |cs| && cs[i].ctype == t && cs[i].id == id
      && forall j :: 0 <= j < i ==> cs[j].ctype != t
  }

  /** The default wire from a board's D10 to an LED's anode. */
  function LedWire(wireId: string, boardId: string, ledId: string): Wire {
    Wire(wireId, boardId, "D10", ledId, "ANODE", "red")
  }

  /** The default wire from a button's OUT to a board's D2. */
  function ButtonWire(wireId: string, buttonId: string, boardId: string): Wire {
    Wire(wireId, buttonId, "OUT", boardId, "D2", "green")
  }

  /** The wires auto-wiring appends when `newComp` is inserted into a circuit
      whose component list was `prev` before the insertion. */
  function TryAutoWire(newComp: Component, prev: seq<Component>, ids: FreshIds): (r: seq<Wire>)
    ensures |r| <= 2
    // each wire joins the new component to a component that was already there
    ensures forall k :: 0 <= k < |r| ==>
      || (r[k].fromCompId == newComp.id && HasId(prev, r[k].toCompId))
      || (r[k].toCompId == newComp.id && HasId(prev, r[k].fromCompId))
    // wires take the fresh identifiers in creation order; colour follows the rule
    ensures |r| >= 1 ==> r[0].id == ids.firstWire
    ensures |r| == 2 ==> r[1].id == ids.secondWire
    ensures forall k :: 0 <= k < |r| ==>
      || (r[k].fromPinId == "D10" && r[k].toPinId == "ANODE" && r[k].color == "red")
      || (r[k].fromPinId == "OUT" && r[k].toPinId == "D2" && r[k].color == "green")
    // an LED gets one wire from the first board's D10, if there is a board
    ensures newComp.ctype == Led ==> (|r| == 1 <==> HasType(prev, ArduinoUno)) && |r| <= 1
    ensures newComp.ctype == Led && |r| == 1 ==>
      && r[0].fromPinId == "D10" && IsFirstOfType(prev, ArduinoUno, r[0].fromCompId)
      && r[0].toCompId == newComp.id && r[0].toPinId == "ANODE"
    // a button gets one wire to the first board's D2, if there is a board
    ensures newComp.ctype == PushButton ==> (|r| == 1 <==> HasType(prev, ArduinoUno)) && |r| <= 1
    ensures newComp.ctype == PushButton && |r| == 1 ==>
      && r[0].fromCompId == newComp.id && r[0].fromPinId == "OUT"
      && IsFirstOfType(prev, ArduinoUno, r[0].toCompId) && r[0].toPinId == "D2"
    // a board gets up to two wires, from the two independent rules, LED rule first
    ensures newComp.ctype == ArduinoUno ==>
      |r| == (if HasType(prev, Led) then 1 else 0) + (if HasType(prev, PushButton) then 1 else 0)
    ensures newComp.ctype == ArduinoUno && HasType(prev, Led) ==>
      && r[0].fromCompId == newComp.id && r[0].fromPinId == "D10"
      && IsFirstOfType(prev, Led, r[0].toCompId) && r[0].toPinId == "ANODE"
    ensures newComp.ctype == ArduinoUno && HasType(prev, PushButton) ==>
      && IsFirstOfType(prev, PushButton, r[|r| - 1].fromCompId) && r[|r| - 1].fromPinId == "OUT"
      && r[|r| - 1].toCompId == newComp.id && r[|r| - 1].toPinId == "D2"
  {
    match newComp.ctype
    case Led =>
      (match FirstOfType(prev, ArduinoUno)
       case None => []
       case Some(board) => [LedWire(ids.firstWire, board.id, newComp.id)])
    case PushButton =>
      (match FirstOfType(prev, ArduinoUno)
       case None => []
       case Some(board) => [ButtonWire(ids.firstWire, newComp.id, board.id)])
    case ArduinoUno =>
      var ledWires :=
        match FirstOfType(prev, Led)
        case None => []
        case Some(led) => [LedWire(ids.firstWire, newComp.id, led.id)];
      var buttonId := if ledWires == [] then ids.firstWire else ids.secondWire;
      var buttonWires :=
        match FirstOfType(prev, PushButton)
        case None => []
        case Some(button) => [ButtonWire(buttonId, button.id, newComp.id)];
      ledWires + buttonWires
  }

  /** `addComponent(type, x, y)`: append a component with rotation 0 and no
      data, then append whatever auto-wiring derives from the list as it was
      before the insertion. */
  function AddComponent(c: Circuit, t: ComponentType, x: int, y: int, ids: FreshIds): (r: Circuit)
    ensures r.components == c.components + [Component(ids.component, t, x, y, 0, NoData)]
    ensures |c.wires| <= |r.wires| <= |c.wires| + 2
    ensures r.wires[..|c.wires|] == c.wires
    ensures r.wires[|c.wires|..] == TryAutoWire(r.components[|c.components|], c.components, ids)
    ensures t != ArduinoUno && !HasType(c.components, ArduinoUno) ==> r.wires == c.wires
    ensures r.isRunning == c.isRunning && r.pinStates == c.pinStates
  {
    var newComp := Component(ids.component, t, x, y, 0, NoData);
    var added := TryAutoWire(newComp, c.components, ids);
    assert (c.wires + added)[..|c.wires|] == c.wires;
    assert (c.wires + added)[|c.wires|..] == added;
    c.(components := c.components + [newComp], wires := c.wires + added)
  }

  /** `updateComponentPos(id, x, y)`: every component with identifier `id`
      takes the new position; nothing else changes. */
  function UpdateComponentPos(c: Circuit, id: string, x: int, y: int): (r: Circuit)
    ensures |r.components| == |c.components|
    ensures forall i :: 0 <= i < |c.components| ==>
      r.components[i].(x := 0, y := 0) == c.components[i].(x := 0, y := 0)
    ensures forall i :: 0 <= i < |c.components| && c.components[i].id == id ==>
      r.components[i].x == x && r.components[i].y == y
    ensures forall i :: 0 <= i < |c.components| && c.components[i].id != id ==>
      r.components[i] == c.components[i]
    ensures !HasId(c.components, id) ==> r == c
    ensures r.wires == c.wires && r.isRunning == c.isRunning && r.pinStates == c.pinStates
  {
    var moved := seq(|c.components|, i requires 0 <= i < |c.components| =>
      if c.components[i].id == id then c.components[i].(x := x, y := y) else c.components[i]);
    c.(components := moved)
  }

  /** Keeps a component unless it is the one being removed. */
  function Survives(id: string): Component -> bool {
    (comp: Component) => comp.id != id
  }

  /** Keeps a wire unless it touches the component being removed. */
  function Detached(id: string): Wire -> bool {
    (w: Wire) => !Touches(w, id)
  }

  /** `removeComponent(id)`: drop the component and, in cascade, every wire
      with `id` at either end; survivors keep their order. */
  function RemoveComponent(c: Circuit, id: string): (r: Circuit)
    ensures !HasId(r.components, id)
    ensures forall i :: 0 <= i < |c.components| && c.components[i].id != id ==> c.components[i] in r.components
    ensures forall i :: 0 <= i < |r.components| ==> r.components[i] in c.components
    ensures forall k :: 0 <= k < |r.wires| ==> !Touches(r.wires[k], id) && r.wires[k] in c.wires
    ensures forall k :: 0 <= k < |c.wires| && !Touches(c.wires[k], id) ==> c.wires[k] in r.wires
    ensures IsSubsequence(r.components, c.components) && IsSubsequence(r.wires, c.wires)
    ensures r.isRunning == c.isRunning && r.pinStates == c.pinStates
  {
    var comps := Filter(c.components, Survives(id));
    var ws := Filter(c.wires, Detached(id));
    FilterIsSubsequence(c.components, Survives(id));
    FilterIsSubsequence(c.wires, Detached(id));
    Circuit(comps, ws, c.isRunning, c.pinStates)
  }

  /** The cascade keeps every copy of each surviving component and wire: with
      the order kept as well, the result is exactly the filtered lists. */
  lemma RemoveKeepsCopies(c: Circuit, id: string)
    ensures forall x :: multiset(RemoveComponent(c, id).components)[x]
                        == (if x.id == id then 0 else multiset(c.components)[x])
    ensures forall w :: multiset(RemoveComponent(c, id).wires)[w]
                        == (if Touches(w, id) then 0 else multiset(c.wires)[w])
  {
    FilterCounts(c.components, Survives(id));
    FilterCounts(c.wires, Detached(id));
  }

  /** `toggleSimulation()`: flip the run flag; stopping clears every pin. */
  function ToggleSimulation(c: Circuit): (r: Circuit)
    ensures r.isRunning != c.isRunning
    ensures c.isRunning ==> r.pinStates == map[]
    ensures !c.isRunning ==> r.pinStates == c.pinStates
    ensures r.components == c.components && r.wires == c.wires
  {
    c.(isRunning := !c.isRunning, pinStates := if c.isRunning then map[] else c.pinStates)
  }

  /** `setPinState(pin, value)`: store `value` at `pin`; when that value is
      already stored the very same table comes back. */
  function SetPinState(m: PinStates, pin: string, value: int): (r: PinStates)
    ensures pin in r && r[pin] == value
    ensures forall k :: k != pin ==> (k in r <==> k in m)
    ensures forall k :: k != pin && k in m ==> r[k] == m[k]
    ensures r == m <==> (pin in m && m[pin] == value)
  {
    if pin in m && m[pin] == value then m else m[pin := value]
  }

  /** The `setPinState` command on the circuit: only the pin table changes. */
  function WritePin(c: Circuit, pin: string, value: int): (r: Circuit)
    ensures pin in r.pinStates && r.pinStates[pin] == value
    ensures forall k :: k != pin ==> (k in r.pinStates <==> k in c.pinStates)
    ensures forall k :: k != pin && k in c.pinStates ==> r.pinStates[k] == c.pinStates[k]
    ensures r == c <==> (pin in c.pinStates && c.pinStates[pin] == value)
    ensures r.components == c.components && r.wires == c.wires && r.isRunning == c.isRunning
  {
    c.(pinStates := SetPinState(c.pinStates, pin, value))
  }

  /** `pinStates['D2'] || 0`: the button input, with `undefined` read as 0. */
  function ButtonLevel(m: PinStates): (r: int)
    ensures "D2" !in m ==> r == 0
    ensures "D2" in m ==> r == m["D2"]
  {
    if "D2" in m && m["D2"] != 0 then m["D2"] else 0
  }

  /** The write one tick makes to D10, if any. */
  function TickWrite(m: PinStates): (r: Option<int>)
    ensures r == Some(High) <==> ButtonLevel(m) == High && PinValue(m, "D10") != Some(High)
    ensures r == Some(Low) <==> ButtonLevel(m) == Low && PinValue(m, "D10") != Some(Low)
    ensures r.Some? ==> r.value == High || r.value == Low
  {
    var d2 := ButtonLevel(m);
    if d2 == High && !("D10" in m && m["D10"] == High) then Some(High)
    else if d2 == Low && !("D10" in m && m["D10"] == Low) then Some(Low)
    else None
  }

  /** One tick of the simulation loop on a pin table: D10 follows D2. */
  function Tick(m: PinStates): (r: PinStates)
    ensures forall k :: k != "D10" ==> (k in r <==> k in m)
    ensures forall k :: k != "D10" && k in m ==> r[k] == m[k]
    ensures ButtonLevel(m) == High || ButtonLevel(m) == Low ==> "D10" in r && r["D10"] == ButtonLevel(m)
    ensures ButtonLevel(m) != High && ButtonLevel(m) != Low ==> r == m
    ensures TickWrite(m).None? ==> r == m
  {
    match TickWrite(m)
    case None => m
    case Some(v) => SetPinState(m, "D10", v)
  }

  /** One period of the 50 ms interval: it only runs while the circuit runs. */
  function SimulationStep(c: Circuit): (r: Circuit)
    ensures !c.isRunning ==> r == c
    ensures c.isRunning ==> r.pinStates == Tick(c.pinStates)
    ensures r.components == c.components && r.wires == c.wires && r.isRunning == c.isRunning
  {
    if c.isRunning then c.(pinStates := Tick(c.pinStates)) else c
  }

  // ---------------------------------------------------------------------
  // Properties relating several commands
  // ---------------------------------------------------------------------

  /** A component inserted with a fresh identifier is never wired to itself. */
  lemma AutoWireNeverSelf(newComp: Component, prev: seq<Component>, ids: FreshIds)
    requires !HasId(prev, newComp.id)
    ensures forall k :: 0 <= k < |TryAutoWire(newComp, prev, ids)| ==>
      TryAutoWire(newComp, prev, ids)[k].fromCompId != TryAutoWire(newComp, prev, ids)[k].toCompId
  {
  }

  /** Adding a component keeps every wire attached at both ends. */
  lemma AddPreservesAttached(c: Circuit, t: ComponentType, x: int, y: int, ids: FreshIds)
    requires WiresAttached(c)
    ensures WiresAttached(AddComponent(c, t, x, y, ids))
  {
    var r := AddComponent(c, t, x, y, ids);
    var added := r.wires[|c.wires|..];
    forall k | 0 <= k < |r.wires|
      ensures HasId(r.components, r.wires[k].fromCompId) && HasId(r.components, r.wires[k].toCompId)
    {
      var last := |c.components|;
      assert r.components[last].id == ids.component;
      if k < |c.wires| {
        assert r.wires[k] == c.wires[k];
        HasIdGrows(c.components, r.components, c.wires[k].fromCompId);
        HasIdGrows(c.components, r.components, c.wires[k].toCompId);
      } else {
        assert r.wires[k] == added[k - |c.wires|];
        HasIdGrows(c.components, r.components, r.wires[k].fromCompId);
        HasIdGrows(c.components, r.components, r.wires[k].toCompId);
      }
    }
  }

  lemma HasIdGrows(cs: seq<Component>, ds: seq<Component>, id: string)
    requires |cs| < |ds| && cs == ds[..|cs|]
    ensures HasId(cs, id) ==> HasId(ds, id)
    ensures ds[|cs|].id == id ==> HasId(ds, id)
  {
    if HasId(cs, id) {
      var i :| 0 <= i < |cs| && cs[i].id == id;
      assert ds[i] == cs[i];
    }
  }

  /** Removing a component keeps every remaining wire attached at both ends:
      the cascade removes exactly the wires that would dangle. */
  lemma RemovePreservesAttached(c: Circuit, id: string)
    requires WiresAttached(c)
    ensures WiresAttached(RemoveComponent(c, id))
  {
    var r := RemoveComponent(c, id);
    forall k | 0 <= k < |r.wires|
      ensures HasId(r.components, r.wires[k].fromCompId) && HasId(r.components, r.wires[k].toCompId)
    {
      var w := r.wires[k];
      var j :| 0 <= j < |c.wires| && c.wires[j] == w;
      KeptId(c, id, w.fromCompId);
      KeptId(c, id, w.toCompId);
    }
  }

  lemma KeptId(c: Circuit, id: string, other: string)
    requires HasId(c.components, other) && other != id
    ensures HasId(RemoveComponent(c, id).components, other)
  {
    var i :| 0 <= i < |c.components| && c.components[i].id == other;
    var rs := RemoveComponent(c, id).components;
    assert c.components[i] in rs;
    var j :| 0 <= j < |rs| && rs[j] == c.components[i];
  }

  /** Moving never changes identifiers, so wires stay attached. */
  lemma MovePreservesAttached(c: Circuit, id: string, x: int, y: int)
    requires WiresAttached(c)
    ensures WiresAttached(UpdateComponentPos(c, id, x, y))
  {
    var r := UpdateComponentPos(c, id, x, y);
    forall other | HasId(c.components, other) ensures HasId(r.components, other) {
      var i :| 0 <= i < |c.components| && c.components[i].id == other;
      assert r.components[i].(x := 0, y := 0).id == other;
    }
  }

  /** Removing a freshly added component undoes the addition entirely: the
      component goes, and so do exactly the wires auto-wiring created. */
  lemma RemoveUndoesAdd(c: Circuit, t: ComponentType, x: int, y: int, ids: FreshIds)
    requires WiresAttached(c)
    requires !HasId(c.components, ids.component)
    ensures RemoveComponent(AddComponent(c, t, x, y, ids), ids.component) == c
  {
    var a := AddComponent(c, t, x, y, ids);
    var newComp := a.components[|c.components|];
    var added := TryAutoWire(newComp, c.components, ids);
    assert a.wires == c.wires + added by {
      assert a.wires == a.wires[..|c.wires|] + a.wires[|c.wires|..];
    }
    DropsAppended(c.components, newComp, ids.component);
    DropsAddedWires(c, added, ids.component);
  }

  lemma DropsAppended(cs: seq<Component>, newComp: Component, id: string)
    requires !HasId(cs, id) && newComp.id == id
    ensures Filter(cs + [newComp], Survives(id)) == cs
  {
    FilterConcat(cs, [newComp], Survives(id));
    FilterKeepsAll(cs, Survives(id));
    FilterDropsAll([newComp], Survives(id));
  }

  lemma DropsAddedWires(c: Circuit, added: seq<Wire>, id: string)
    requires WiresAttached(c) && !HasId(c.components, id)
    requires forall k :: 0 <= k < |added| ==> Touches(added[k], id)
    ensures Filter(c.wires + added, Detached(id)) == c.wires
  {
    forall k | 0 <= k < |c.wires| ensures Detached(id)(c.wires[k]) {
      assert HasId(c.components, c.wires[k].fromCompId);
      assert HasId(c.components, c.wires[k].toCompId);
    }
    FilterConcat(c.wires, added, Detached(id));
    FilterKeepsAll(c.wires, Detached(id));
    FilterDropsAll(added, Detached(id));
  }

  /** Removing an identifier nothing carries changes nothing. */
  lemma RemoveUnknownIsNoOp(c: Circuit, id: string)
    requires WiresAttached(c)
    requires !HasId(c.components, id)
    ensures RemoveComponent(c, id) == c
  {
    forall k | 0 <= k < |c.wires| ensures Detached(id)(c.wires[k]) {
      assert HasId(c.components, c.wires[k].fromCompId);
      assert HasId(c.components, c.wires[k].toCompId);
    }
    FilterKeepsAll(c.wires, Detached(id));
    FilterKeepsAll(c.components, Survives(id));
  }

  /** Of two successive moves of the same component, the last one wins. */
  lemma MoveLastWins(c: Circuit, id: string, x1: int, y1: int, x2: int, y2: int)
    ensures UpdateComponentPos(UpdateComponentPos(c, id, x1, y1), id, x2, y2) == UpdateComponentPos(c, id, x2, y2)
  {
  }

  /** Two toggles return the run flag to where it was and leave an empty pin
      table whichever way round they go: a run never leaves pins behind. */
  lemma ToggleTwiceClearsPins(c: Circuit)
    ensures ToggleSimulation(ToggleSimulation(c)) == c.(pinStates := map[])
  {
  }

  /** Writing the same pin value twice is the same as writing it once, and
      the second write reports no change. */
  lemma SetPinStateIdempotent(m: PinStates, pin: string, value: int)
    ensures SetPinState(SetPinState(m, pin, value), pin, value) == SetPinState(m, pin, value)
  {
  }

  /** A second tick on the result of a tick writes nothing. */
  lemma TickIdempotent(m: PinStates)
    ensures TickWrite(Tick(m)).None?
    ensures Tick(Tick(m)) == Tick(m)
  {
    var r := Tick(m);
    assert ButtonLevel(r) == ButtonLevel(m);
  }
}
