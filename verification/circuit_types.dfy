/** The data model of the circuit: component kinds, placed components, wires
    between component pins, and the aggregate state the circuit engine owns. */
module CircuitTypes {
  import opened Wrappers
  import opened Seqs

  /** The closed set of component kinds a circuit can hold. */
  datatype ComponentType = ArduinoUno | Led | PushButton

  /** The string literal the TypeScript code uses for each kind. */
  function TypeName(t: ComponentType): string {
    match t
    case ArduinoUno => "ARDUINO_UNO"
    case Led => "LED"
    case PushButton => "PUSH_BUTTON"
  }

  /** Reads a kind back from its literal; any other string is not a kind. */
  function ParseType(s: string): (r: Option<ComponentType>)
    ensures r.Some? ==> TypeName(r.value) == s
  {
    if s == "ARDUINO_UNO" then Some(ArduinoUno)
    else if s == "LED" then Some(Led)
    else if s == "PUSH_BUTTON" then Some(PushButton)
    else None
  }

  /** Every kind round-trips through its literal, and exactly the three
      literals name a kind. */
  lemma TypeNameRoundTrip(t: ComponentType, s: string)
    ensures ParseType(TypeName(t)) == Some(t)
    ensures ParseType(s).Some? <==> s in {"ARDUINO_UNO", "LED", "PUSH_BUTTON"}
  {
  }

  /** Per-component extra data; stored but never consulted by the engine. */
  datatype ComponentData = ComponentData(pinOverrides: Option<map<string, string>>)

  const NoData := ComponentData(None)

  /** A placed component. Positions are whole numbers in this model. */
  datatype Component = Component(
    id: string,
    ctype: ComponentType,
    x: int,
    y: int,
    rotation: int,
    data: ComponentData)

  /** A wire between the pin `fromPinId` of component `fromCompId` and the pin
      `toPinId` of component `toCompId`. Nothing forbids two wires with the
      same endpoints or a wire naming a missing component. */
  datatype Wire = Wire(
    id: string,
    fromCompId: string,
    fromPinId: string,
    toCompId: string,
    toPinId: string,
    color: string)

  /** Pin id (on the board side, e.g. "D10") to its value: 1 is HIGH, 0 LOW. */
  type PinStates = map<string, int>

  const High := 1
  const Low := 0

  /** The aggregate the circuit engine owns. */
  datatype Circuit = Circuit(
    components: seq<Component>,
    wires: seq<Wire>,
    isRunning: bool,
    pinStates: PinStates)

  /** The state a fresh session starts in. */
  const EmptyCircuit := Circuit([], [], false, map[])

  /** Selects the components of kind `t`. */
  function IsType(t: ComponentType): Component -> bool {
    (c: Component) => c.ctype == t
  }

  /** The first component of kind `t`, in insertion order. */
  function FirstOfType(cs: seq<Component>, t: ComponentType): (r: Option<Component>)
    ensures r.Some? ==> r.value in cs && r.value.ctype == t
    ensures r.None? <==> forall i :: 0 <= i < |cs| ==> cs[i].ctype != t
    ensures r.Some? ==> exists i :: IsFirstMatch(cs, IsType(t), i) && cs[i] == r.value
  {
    Find(cs, IsType(t))
  }

  /** Selects the wires whose destination is pin `pinId` of `compId`. */
  function EntersAt(compId: string, pinId: string): Wire -> bool {
    (w: Wire) => w.toCompId == compId && w.toPinId == pinId
  }

  /** Selects the wires whose origin is pin `pinId` of `compId`. */
  function LeavesFrom(compId: string, pinId: string): Wire -> bool {
    (w: Wire) => w.fromCompId == compId && w.fromPinId == pinId
  }

  /** The first wire, in list order, arriving at pin `pinId` of `compId`. */
  function WireInto(wires: seq<Wire>, compId: string, pinId: string): (r: Option<Wire>)
    ensures r.Some? <==> exists k :: 0 <= k < |wires| && wires[k].toCompId == compId && wires[k].toPinId == pinId
    ensures r.Some? ==> r.value in wires && r.value.toCompId == compId && r.value.toPinId == pinId
    ensures r.Some? ==> exists k :: IsFirstMatch(wires, EntersAt(compId, pinId), k) && wires[k] == r.value
  {
    Find(wires, EntersAt(compId, pinId))
  }

  /** The first wire, in list order, leaving pin `pinId` of `compId`. */
  function WireOutOf(wires: seq<Wire>, compId: string, pinId: string): (r: Option<Wire>)
    ensures r.Some? <==> exists k :: 0 <= k < |wires| && wires[k].fromCompId == compId && wires[k].fromPinId == pinId
    ensures r.Some? ==> r.value in wires && r.value.fromCompId == compId && r.value.fromPinId == pinId
    ensures r.Some? ==> exists k :: IsFirstMatch(wires, LeavesFrom(compId, pinId), k) && wires[k] == r.value
  {
    Find(wires, LeavesFrom(compId, pinId))
  }

  /** Some component in `cs` has identifier `id`. */
  predicate HasId(cs: seq<Component>, id: string) {
    exists i :: 0 <= i < |cs| && cs[i].id == id
  }

  /** The wire has `id` at one of its two ends. */
  predicate Touches(w: Wire, id: string) {
    w.fromCompId == id || w.toCompId == id
  }

  /** Every wire ends, at both ends, on a component of the circuit. */
  ghost predicate WiresAttached(c: Circuit) {
    forall k :: 0 <= k < |c.wires| ==>
      HasId(c.components, c.wires[k].fromCompId) && HasId(c.components, c.wires[k].toCompId)
  }

  /** Reads a pin the way `pinStates[pinId]` does: None is `undefined`. */
  function PinValue(m: PinStates, pin: string): (r: Option<int>)
    ensures r.Some? <==> pin in m
    ensures r.Some? ==> r.value == m[pin]
  {
    if pin in m then Some(m[pin]) else None
  }
}
