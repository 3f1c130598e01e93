/** The potentiometer node: a knob value in [0, 1023] changed by wheel and
    touch gestures, and written to the board pin its SIG is wired to while
    the circuit runs. Touch coordinates are whole numbers in this model. */
module PotentiometerNode {
  import opened Wrappers
  import opened Seqs
  import opened CircuitTypes
  import opened CircuitContext

  const PotMin := 0
  const PotMax := 1023
  const WheelStep := 50
  const TouchGain := 5

  /** The two `if`s that bound every new knob value. */
  function Clamp(v: int): (r: int)
    ensures PotMin <= r <= PotMax
    ensures PotMin <= v <= PotMax ==> r == v
    ensures v < PotMin ==> r == PotMin
    ensures v > PotMax ==> r == PotMax
  {
    var lower := if v < PotMin then PotMin else v;
    if lower > PotMax then PotMax else lower
  }

  /** The knob: its value and the last touch position (`null` between touches). */
  datatype Knob = Knob(value: int, lastY: Option<int>)

  const InitialKnob := Knob(0, None)

  /** The gestures the node reacts to. */
  datatype PotEvent = Wheel(deltaY: int) | TouchStart(startY: int) | TouchMove(currentY: int) | TouchEnd

  /** The knob and the circuit as the node leaves them after a gesture. */
  datatype PotView = PotView(knob: Knob, circuit: Circuit)

  /** The step a wheel notch makes: down (positive `deltaY`) lowers the value,
      anything else, zero included, raises it. */
  function WheelDelta(deltaY: int): (r: int)
    ensures deltaY > 0 ==> r == -WheelStep
    ensures deltaY <= 0 ==> r == WheelStep
  {
    if deltaY > 0 then -WheelStep else WheelStep
  }

  /** `updateCircuit(val)`: while running, `val` goes to the destination pin
      of the first wire leaving this component's SIG pin; otherwise, or with
      no such wire, nothing is written. */
  function UpdateCircuit(c: Circuit, potId: string, val: int): (r: Circuit)
    ensures r.components == c.components && r.wires == c.wires && r.isRunning == c.isRunning
    ensures !c.isRunning ==> r == c
    ensures NoMatch(c.wires, LeavesFrom(potId, "SIG")) ==> r == c
    ensures c.isRunning ==> forall k :: IsFirstMatch(c.wires, LeavesFrom(potId, "SIG"), k) ==>
      r.pinStates == SetPinState(c.pinStates, c.wires[k].toPinId, val)
  {
    if !c.isRunning then c
    else
      match WireOutOf(c.wires, potId, "SIG")
      case None => c
      case Some(w) =>
        assert forall k :: IsFirstMatch(c.wires, LeavesFrom(potId, "SIG"), k) ==> c.wires[k] == w by {
          forall k | IsFirstMatch(c.wires, LeavesFrom(potId, "SIG"), k) ensures c.wires[k] == w {
            var j :| IsFirstMatch(c.wires, LeavesFrom(potId, "SIG"), j) && c.wires[j] == w;
            FirstMatchUnique(c.wires, LeavesFrom(potId, "SIG"), j, k);
          }
        }
        WritePin(c, w.toPinId, val)
  }

  /** One gesture: wheel and touch-move set a new clamped value and hand it
      to `updateCircuit`; touch-move does nothing before a touch starts. */
  function Handle(v: PotView, potId: string, e: PotEvent): (r: PotView)
    ensures PotMin <= v.knob.value <= PotMax ==> PotMin <= r.knob.value <= PotMax
    ensures e.TouchMove? && v.knob.lastY.None? ==> r == v
    ensures e.TouchStart? ==> r == PotView(Knob(v.knob.value, Some(e.startY)), v.circuit)
    ensures e.TouchEnd? ==> r == PotView(Knob(v.knob.value, None), v.circuit)
    ensures e.Wheel? ==>
      && r.knob == v.knob.(value := Clamp(v.knob.value + WheelDelta(e.deltaY)))
      && r.circuit == UpdateCircuit(v.circuit, potId, r.knob.value)
    ensures e.TouchMove? && v.knob.lastY.Some? ==>
      && r.knob == Knob(Clamp(v.knob.value + (v.knob.lastY.value - e.currentY) * TouchGain), Some(e.currentY))
      && r.circuit == UpdateCircuit(v.circuit, potId, r.knob.value)
  {
    match e
    case Wheel(deltaY) =>
      var next := Clamp(v.knob.value + WheelDelta(deltaY));
      PotView(v.knob.(value := next), UpdateCircuit(v.circuit, potId, next))
    case TouchStart(y) =>
      PotView(v.knob.(lastY := Some(y)), v.circuit)
    case TouchMove(y) =>
      (match v.knob.lastY
       case None => v
       case Some(last) =>
         var change := (last - y) * TouchGain;
         var next := Clamp(v.knob.value + change);
         PotView(Knob(next, Some(y)), UpdateCircuit(v.circuit, potId, next)))
    case TouchEnd =>
      PotView(v.knob.(lastY := None), v.circuit)
  }

  /** The gestures applied one after another. */
  function Replay(v: PotView, potId: string, events: seq<PotEvent>): PotView
    decreases |events|
  {
    if |events| == 0 then v else Replay(Handle(v, potId, events[0]), potId, events[1..])
  }

  /** Every value in the pin table lies in [0, 1023]. */
  ghost predicate PinsInRange(m: PinStates) {
    forall p :: p in m ==> PotMin <= m[p] <= PotMax
  }

  /** Starting from an in-range knob and pin table, no sequence of gestures
      takes the knob, or any pin the knob writes, out of [0, 1023]. */
  lemma {:induction false} ReplayStaysInRange(v: PotView, potId: string, events: seq<PotEvent>)
    requires PotMin <= v.knob.value <= PotMax && PinsInRange(v.circuit.pinStates)
    ensures PotMin <= Replay(v, potId, events).knob.value <= PotMax
    ensures PinsInRange(Replay(v, potId, events).circuit.pinStates)
    decreases |events|
  {
    if |events| > 0 {
      var next := Handle(v, potId, events[0]);
      assert PinsInRange(next.circuit.pinStates) by {
        if next.circuit != v.circuit {
          var u := UpdateCircuit(v.circuit, potId, next.knob.value);
          assert next.circuit == u;
          if u != v.circuit {
            var k :| IsFirstMatch(v.circuit.wires, LeavesFrom(potId, "SIG"), k);
          }
        }
      }
      ReplayStaysInRange(next, potId, events[1..]);
    }
  }

  /** From the initial knob, the value stays in [0, 1023] forever. */
  lemma KnobStartsAndStaysInRange(c: Circuit, potId: string, events: seq<PotEvent>)
    ensures PotMin <= Replay(PotView(InitialKnob, c), potId, events).knob.value <= PotMax
  {
    ReplayKeepsKnobInRange(PotView(InitialKnob, c), potId, events);
  }

  /** The knob alone: an in-range value stays in range, whatever the pins hold. */
  lemma {:induction false} ReplayKeepsKnobInRange(v: PotView, potId: string, events: seq<PotEvent>)
    requires PotMin <= v.knob.value <= PotMax
    ensures PotMin <= Replay(v, potId, events).knob.value <= PotMax
    decreases |events|
  {
    if |events| > 0 {
      ReplayKeepsKnobInRange(Handle(v, potId, events[0]), potId, events[1..]);
    }
  }
}
