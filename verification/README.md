# Circuit simulator core, modelled in Dafny

This project models the logic core of a browser-based Arduino circuit simulator.
Users place an Arduino Uno board, LEDs and push buttons on a canvas. The core has four parts:

- **Circuit engine.** It owns the components, the wires, a run flag and a pin table. Its commands are add (with auto-wiring), move, remove (with cascade), run/stop and pin write. A tick runs while the circuit runs: D10 follows D2.
- **Firmware generator.** It turns the component and wire lists into the text of a button-to-LED Arduino sketch.
- **Three peripheral nodes.** The button writes HIGH/LOW to the pin it is wired to. The potentiometer writes a clamped 0..1023 value. The LED reads the pin that drives its anode.

The model is functional. Components and wires are immutable datatypes, the pin table is a `map<string, int>`, and every command is a pure function from one circuit state to the next.
`Array.prototype.find` and `filter` are modelled once, in `Seqs`, as `FindIndex`/`Find` and `Filter`.
The uuids the simulator draws are supplied by the caller as a `FreshIds` value: the component's id, then one id per created wire.

Files: `wrappers.dfy` (Option), `seqs.dfy` (first-match search, filter), `circuit_types.dfy` (data model), `circuit_context.dfy` (engine), `code_generator.dfy` (generator), `button_node.dfy`, `potentiometer_node.dfy`, `led_node.dfy`, `scenarios.dfy` (whole-session properties).

The data model follows `src/types/circuit.ts`:

- `ComponentType` is the string union of line 1.
- `ComponentData`, `Component`, `Wire` and `Circuit` are the interfaces of lines 11-38.
- `PinStates` is the `Record<string, number>` of line 37.

These datatypes carry no contract of their own. The table below cites the operations over them.

Some facts about the code, which the model follows:

- There are three component kinds. No kind exists for the potentiometer.
- `tryAutoWire` has rules for the LED, the button and the board. It has no rule for a potentiometer.
- The simulation tick reads only D2 and writes only D10. It has no analog-input rule.
- The generator emits one fixed button-to-LED sketch and fills in two pin numbers.
- `replace('D', '')` with a string pattern removes the first `D` anywhere in the pin id, not only a leading one. So `"GND"` becomes `"GN"`.

## Model

| member | source | states |
|---|---|---|
| CircuitTypes.TypeNameRoundTrip | src/types/circuit.ts:1 | The component kinds are exactly ARDUINO_UNO, LED and PUSH_BUTTON: each kind round-trips through its literal, and no other string (POTENTIOMETER included) names a kind |
| CircuitContext.TryAutoWire | src/context/CircuitContext.tsx:24-88 | Auto-wiring against the pre-insertion list. An LED or button gets exactly one wire iff a board exists (first board D10 → LED ANODE, red; button OUT → first board D2, green). A board gets one wire per rule that applies (to the first LED, from the first button), LED rule first, so 0, 1 or 2 wires. Each wire joins the new component to an existing one and takes the fresh wire ids in creation order |
| CircuitContext.AddComponent | src/context/CircuitContext.tsx:90-106 | Appends exactly one component with the given kind and position, rotation 0 and no data. Earlier components and wires keep their order, and the auto-wires are appended after them. Run flag and pins are unchanged. Without a board, an LED or button adds no wire |
| CircuitContext.AutoWireNeverSelf | src/context/CircuitContext.tsx:103 | Because auto-wiring consults the list before insertion, a component with a fresh id is never wired to itself |
| CircuitContext.UpdateComponentPos | src/context/CircuitContext.tsx:108-110 | Only x/y of the components with the given id change, and they take the new values. Every other field and component, all wires, the run flag and the pins are unchanged. An unknown id is a no-op |
| CircuitContext.MoveLastWins | src/context/CircuitContext.tsx:108-110 | Of two moves of the same component, the second determines the result |
| CircuitContext.RemoveComponent | src/context/CircuitContext.tsx:112-115 | No component with the id remains. No remaining wire touches the id, and every wire that does not touch it survives. Survivors are subsequences of the originals, so their order is kept. Run flag and pins are unchanged |
| CircuitContext.RemoveKeepsCopies | src/context/CircuitContext.tsx:112-115 | The cascade keeps every copy of each surviving component and wire, and no copy of a removed one. Together with the order-preserving subsequence clauses, the result is exactly the filtered lists |
| CircuitContext.RemoveUndoesAdd | src/context/CircuitContext.tsx:90-115 | In a circuit whose wires are attached, removing a freshly added component restores the circuit exactly: the component and every auto-created wire go |
| CircuitContext.RemoveUnknownIsNoOp | src/context/CircuitContext.tsx:112-115 | Removing an id no component carries changes nothing when all wires are attached |
| CircuitContext.ToggleSimulation | src/context/CircuitContext.tsx:117-123 | The run flag flips. Stopping empties the pin table. Starting keeps the table. Components and wires are unchanged |
| CircuitContext.AddPreservesAttached | src/context/CircuitContext.tsx:90-106 | Adding keeps every wire attached at both ends to a component of the circuit |
| CircuitContext.RemovePreservesAttached | src/context/CircuitContext.tsx:112-115 | The cascade keeps every remaining wire attached at both ends |
| CircuitContext.MovePreservesAttached | src/context/CircuitContext.tsx:108-110 | Moving keeps every wire attached |
| CircuitContext.ToggleTwiceClearsPins | src/context/CircuitContext.tsx:117-123 | Toggling flips the run flag and clears pins only when stopping, so two toggles in either order restore the flag and leave an empty pin table |
| CircuitContext.SetPinState | src/context/CircuitContext.tsx:137-142 | The pin holds the value afterwards and every other pin is unchanged. The same table comes back exactly when the value was already stored |
| CircuitContext.SetPinStateIdempotent | src/context/CircuitContext.tsx:137-142 | Writing the same value twice equals writing it once |
| CircuitContext.WritePin | src/context/CircuitContext.tsx:137-142 | The `setPinState` command on the circuit: the pin holds the value afterwards. Every other pin keeps its presence and its value. The very same circuit comes back exactly when the value was already stored. Components, wires and the run flag are unchanged |
| CircuitContext.ButtonLevel | src/context/CircuitContext.tsx:160 | The D2 read with 0 as its fallback: an absent D2 reads as 0, and a present D2 reads as its stored value |
| CircuitContext.TickWrite | src/context/CircuitContext.tsx:160-167 | The tick writes D10 := 1 iff D2 (undefined read as 0) is 1 and D10 is not 1. It writes D10 := 0 iff D2 is 0 and D10 is not 0. Otherwise it writes nothing |
| CircuitContext.Tick | src/context/CircuitContext.tsx:160-167 | Only D10 can change. When D2 reads 0 or 1, D10 ends equal to it. When D2 reads any other value, the table is unchanged. The result offers the next tick nothing to write |
| CircuitContext.TickIdempotent | src/context/CircuitContext.tsx:137-142 | A second tick writes nothing and returns the same table |
| CircuitContext.SimulationStep | src/context/CircuitContext.tsx:145-172 | The interval body runs only while running, and touches only the pin table |
| CodeGenerator.StripFirstD | src/lib/codeGenerator.ts:15 | Without a 'D' the pin id passes through. Otherwise exactly the first 'D' is cut out, and the multiset of characters loses one 'D' |
| CodeGenerator.LookupWire | src/lib/codeGenerator.ts:9-27 | The two-stage first match, stated by index. The result is the first wire the selector accepts for the first component of the kind, or none exactly when there is no such component or no such wire |
| CodeGenerator.LedPin | src/lib/codeGenerator.ts:5-17 | "10" when no LED exists or no wire reaches the first LED's ANODE. Otherwise the `fromPinId` of the first such wire, with its first 'D' removed |
| CodeGenerator.ButtonPin | src/lib/codeGenerator.ts:6-27 | "2" when no button exists or no wire leaves the first button's OUT. Otherwise the `toPinId` of the first such wire, with its first 'D' removed |
| CodeGenerator.Render | src/lib/codeGenerator.ts:29-51 | The sketch opens with the comment and the `ledPin` declaration and ends with the `loop` body. For pin texts without ';', both texts can be read back out of it in their two places |
| CodeGenerator.UnfillFill | src/lib/codeGenerator.ts:29-31 | Reading the two holes back out of a template whose holes are closed by ';' returns what was filled in, for texts without ';' |
| CodeGenerator.ParseSketch | src/lib/codeGenerator.ts:29-51 | Whatever it accepts is exactly the sketch template with two ';'-free pin texts substituted |
| CodeGenerator.ParseRender | src/lib/codeGenerator.ts:29-51 | Parsing a rendered sketch recovers both pin texts |
| CodeGenerator.RenderInjective | src/lib/codeGenerator.ts:29-51 | The template has exactly two substitutions, so different ';'-free pin texts give different sketches |
| CodeGenerator.GenerateArduinoCode | src/lib/codeGenerator.ts:3-52 | When no pin id carries ';', the output parses back as the sketch template filled with exactly `LedPin` and `ButtonPin` |
| CodeGenerator.GenerateCongruent | src/lib/codeGenerator.ts:3-52 | The output depends only on component ids and kinds, on the selectors' verdicts and on the wires' pin ids |
| CodeGenerator.GenerateIgnoresLayout | src/lib/codeGenerator.ts:3-52 | Positions, rotation, data, wire ids and wire colours do not affect the output |
| CodeGenerator.GenerateIgnoresLedDriver | src/lib/codeGenerator.ts:11-16 | The component at the far end of the LED's wire is never consulted |
| CodeGenerator.GenerateIgnoresBoards | src/lib/codeGenerator.ts:9-27 | Dropping every ARDUINO_UNO component from the list does not change the output |
| ButtonNode.ConnectedPin | src/components/nodes/ButtonNode.tsx:11-15 | The `toPinId` of the first wire leaving this button's OUT. None exactly when no such wire exists |
| ButtonNode.DriveConnected | src/components/nodes/ButtonNode.tsx:17-35 | When stopped, or with no OUT wire, the circuit is unchanged. When running, the first OUT wire's target pin receives the level, unless the pin id is empty |
| ButtonNode.MouseDown | src/components/nodes/ButtonNode.tsx:17-25 | The plunger shows pressed in every run state, and the write goes at HIGH |
| ButtonNode.MouseUp | src/components/nodes/ButtonNode.tsx:27-42 | Mouse up and mouse leave: the plunger shows released in every run state, and the write goes at LOW |
| ButtonNode.PressThenRelease | src/components/nodes/ButtonNode.tsx:17-35 | While running with a named connected pin, a press leaves it 1 and a release leaves it 0. No other pin appears or disappears |
| ButtonNode.StoppedButtonWritesNothing | src/components/nodes/ButtonNode.tsx:19-31 | When stopped, press and release change only the plunger flag |
| LedNode.AnodeWire | src/components/nodes/LEDNode.tsx:17 | The first wire, in list order, that reaches this LED's ANODE. None exactly when there is no such wire |
| LedNode.IsOn | src/components/nodes/LEDNode.tsx:19 | Lit iff the first anode wire exists and the pin table holds exactly 1 at its `fromPinId` |
| LedNode.OnlyOneLights | src/components/nodes/LEDNode.tsx:19 | Any stored value other than 1, such as 600, leaves the LED dark |
| LedNode.PinIdAloneDecides | src/components/nodes/LEDNode.tsx:19 | Two LEDs whose anode wires start at the same pin id are lit alike, whatever components those wires start from |
| LedNode.ConnectionLabel | src/components/nodes/LEDNode.tsx:35-39 | The label is shown iff some wire reaches this LED's ANODE, and it names the first such wire's origin pin |
| LedNode.LitImpliesLabelled | src/components/nodes/LEDNode.tsx:19-35 | A lit LED always shows its label |
| PotentiometerNode.Clamp | src/components/nodes/PotentiometerNode.tsx:20-22 | Results lie in [0, 1023]. In-range values are kept, values below go to 0 and values above go to 1023 |
| PotentiometerNode.WheelDelta | src/components/nodes/PotentiometerNode.tsx:19 | A notch down (deltaY > 0) lowers the value by 50. Any other delta, 0 included, raises it by 50 |
| PotentiometerNode.UpdateCircuit | src/components/nodes/PotentiometerNode.tsx:28-36 | When stopped, or with no SIG wire, nothing is written. When running, the value goes to the `toPinId` of the first wire leaving SIG |
| PotentiometerNode.Handle | src/components/nodes/PotentiometerNode.tsx:15-67 | A wheel event sets the value to Clamp(value ± 50) and passes it to `updateCircuit`: − for deltaY > 0, + otherwise. A touch move after a touch start sets the value to Clamp(value + (lastY − y)·5) and lastY to y, and passes the value to `updateCircuit`. A touch move before a touch start does nothing. Touch start and end only set or clear lastY. An in-range value stays in [0, 1023] |
| PotentiometerNode.ReplayStaysInRange | src/components/nodes/PotentiometerNode.tsx:19-60 | Over any sequence of gestures, an in-range knob and pin table stay in range |
| PotentiometerNode.KnobStartsAndStaysInRange | src/components/nodes/PotentiometerNode.tsx:9 | From the initial value 0, the knob never leaves [0, 1023] |
| PotentiometerNode.ReplayKeepsKnobInRange | src/components/nodes/PotentiometerNode.tsx:19-60 | An in-range knob value stays in [0, 1023] over any sequence of gestures, whatever the pin table holds |
| Scenarios.AutoWireEitherOrder | src/context/CircuitContext.tsx:26-72 | Board then LED, or LED then board: exactly one wire, board D10 → LED ANODE |
| Scenarios.CascadeDeleteBoard | src/context/CircuitContext.tsx:112-115 | Removing the board of a board-and-LED circuit leaves no wire and only the LED |
| Scenarios.ThreePieceWiring | src/context/CircuitContext.tsx:90-106 | Board, LED, button added in turn: exactly the LED wire then the button wire |
| Scenarios.ThreePieceSketch | src/lib/codeGenerator.ts:3-52 | That circuit's sketch is the template with ledPin 10 and buttonPin 2 |
| Scenarios.ButtonDrivesLed | src/components/nodes/ButtonNode.tsx:17-35 | Started, that circuit lights the LED one tick after a press and darkens it one tick after the release. Stopping empties the pin table |
| Scenarios.StopResetsPins | src/context/CircuitContext.tsx:117-167 | D2 = 1 lights D10 on the next tick. Stopping empties the table, and restarting does not bring the values back |
| Scenarios.FirstTickWritesLow | src/context/CircuitContext.tsx:163-167 | On an empty table the tick writes D10 := 0, because an undefined D10 differs from 0 |
| Scenarios.SketchForCustomPins | src/lib/codeGenerator.ts:9-27 | LED on D9 and button on D3 give ledPin 9 and buttonPin 3 |
| Scenarios.SketchUsesFirstLed | src/lib/codeGenerator.ts:9-16 | Only the first LED counts, even when a later LED's wire comes first in the wire list |
| Scenarios.StripLeadingD | src/lib/codeGenerator.ts:15 | A leading 'D' is removed, so "D10" becomes "10" |
| Scenarios.GroundLosesItsD | src/lib/codeGenerator.ts:15 | The removed 'D' need not lead: "GND" becomes "GN" |
| Scenarios.OnlyFirstDRemoved | src/lib/codeGenerator.ts:25 | Only one 'D' is removed: "DD" becomes "D" |
| Scenarios.AnalogPinVerbatim | src/lib/codeGenerator.ts:25 | A pin id without a 'D' ("A0") passes through unchanged |

## Left out

- Scheduling is not modelled: the 50 ms `setInterval`, the `useRef`/`useEffect` snapshot syncing, and React's batching and double invocation of updaters. The tick is one step function applied to a snapshot of the current state.
- uuid generation is not modelled. Identifiers are caller-supplied `FreshIds`, and freshness is a precondition where a property needs it.
- Numbers are `int`: positions, rotation, pin values, touch `clientY` and wheel `deltaY`. Of the wheel delta only its sign matters. JavaScript `NaN` cannot arise, so `pinStates['D2'] || 0` reads a stored value unchanged.
- The potentiometer knob angle, which is float arithmetic, and the `Math.round` display are presentation.
- `src/components/Canvas.tsx` is left out: pin geometry, Bezier wire paths and the drag handlers, which only call `updateComponentPos`. So is `src/components/nodes/ArduinoNode.tsx`: the pin-position table and labels.
- `useCircuit` throws outside a provider. That is React context plumbing.
- The page shell, `Workbench` and `Palette` are left out. `Workbench` only calls the generator.
- A `'POTENTIOMETER'` component cannot be represented in the model. `Palette` offers one, and the canvas drop handler stores its type string unchanged: the `as ComponentType` assertion is erased at run time. Such a component would be stored, would match no auto-wiring rule, and would be ignored by the generator. The canvas's `COMPONENT_MAP` (`src/components/Canvas.tsx:11-15`) has no entry for it, so rendering it would look up an undefined element type. No file imports `PotentiometerNode`, so the program as written never mounts the node. The model therefore describes the potentiometer node on its own, over any component id. `ComponentType` keeps the three kinds of `src/types/circuit.ts:1`.
- `ComponentData.pinOverrides` is stored but never read by the core. Its contents are not modelled beyond storage.
