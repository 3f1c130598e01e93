/** Whole-session properties: sequences of commands from an empty circuit,
    combining the engine, the generator and the peripheral nodes. */
module Scenarios {
  import opened Wrappers
  import opened Seqs
  import opened CircuitTypes
  import opened CircuitContext
  import opened CodeGenerator
  import ButtonNode
  import LedNode

  /** The endpoints of a wire, without its identifier. */
  function Unnamed(w: Wire): Wire {
    w.(id := "")
  }

  /** Board then LED, or LED then board: either way exactly one wire, from the
      board's D10 to the LED's anode. */
  lemma AutoWireEitherOrder(board: string, led: string, w1: string, w2: string, w3: string, w4: string)
    requires board != led
    ensures
      var boardFirst := AddComponent(AddComponent(EmptyCircuit, ArduinoUno, 0, 0, FreshIds(board, w1, w2)), Led, 0, 0, FreshIds(led, w3, w4));
      var ledFirst := AddComponent(AddComponent(EmptyCircuit, Led, 0, 0, FreshIds(led, w1, w2)), ArduinoUno, 0, 0, FreshIds(board, w3, w4));
      && |boardFirst.wires| == 1 && |ledFirst.wires| == 1
      && Unnamed(boardFirst.wires[0]) == Unnamed(ledFirst.wires[0]) == Unnamed(LedWire("", board, led))
  {
  }

  /** Removing the board of a board-and-LED circuit takes the auto-created
      wire with it. */
  lemma CascadeDeleteBoard(board: string, led: string, w1: string, w2: string, w3: string, w4: string)
    requires board != led
    ensures
      var c := AddComponent(AddComponent(EmptyCircuit, ArduinoUno, 0, 0, FreshIds(board, w1, w2)), Led, 0, 0, FreshIds(led, w3, w4));
      var r := RemoveComponent(c, board);
      && r.wires == [] && |r.components| == 1 && r.components[0].id == led
  {
    var c1 := AddComponent(EmptyCircuit, ArduinoUno, 0, 0, FreshIds(board, w1, w2));
    var c := AddComponent(c1, Led, 0, 0, FreshIds(led, w3, w4));
    assert c.components == [c.components[0]] + [c.components[1]];
    FilterConcat([c.components[0]], [c.components[1]], Survives(board));
    assert c.wires == [LedWire(w3, board, led)];
  }

  /** A board, an LED and a button added in that order. */
  function ThreePieceCircuit(board: string, led: string, button: string, ws: seq<string>): Circuit
    requires |ws| == 6
  {
    AddComponent(AddComponent(AddComponent(EmptyCircuit,
      ArduinoUno, 0, 0, FreshIds(board, ws[0], ws[1])),
      Led, 0, 0, FreshIds(led, ws[2], ws[3])),
      PushButton, 0, 0, FreshIds(button, ws[4], ws[5]))
  }

  /** Auto-wiring gives the three-piece circuit exactly the LED wire and the
      button wire, in that order, and it is stopped with an empty pin table. */
  lemma ThreePieceWiring(board: string, led: string, button: string, ws: seq<string>)
    requires board != led && led != button && board != button
    requires |ws| == 6
    ensures
      var c := ThreePieceCircuit(board, led, button, ws);
      && c.wires == [LedWire(ws[2], board, led), ButtonWire(ws[4], button, board)]
      && |c.components| == 3
      && c.components[0].ctype == ArduinoUno && c.components[1].ctype == Led && c.components[2].ctype == PushButton
      && c.components[1].id == led && c.components[2].id == button
      && !c.isRunning && c.pinStates == map[]
  {
  }

  /** The sketch for the three-piece circuit uses the default pins. */
  lemma ThreePieceSketch(board: string, led: string, button: string, ws: seq<string>)
    requires board != led && led != button && board != button
    requires |ws| == 6
    ensures
      var c := ThreePieceCircuit(board, led, button, ws);
      GenerateArduinoCode(c.components, c.wires) == Render("10", "2")
  {
    var c := ThreePieceCircuit(board, led, button, ws);
    ThreePieceWiring(board, led, button, ws);
    ThreePieceLedPin(c.components, c.wires, board, led, button, ws[2], ws[4]);
    ThreePieceButtonPin(c.components, c.wires, board, led, button, ws[2], ws[4]);
  }

  lemma ThreePieceLedPin(comps: seq<Component>, wires: seq<Wire>, board: string, led: string, button: string, w1: string, w2: string)
    requires |comps| == 3 && comps[0].ctype == ArduinoUno && comps[1].ctype == Led && comps[1].id == led
    requires wires == [LedWire(w1, board, led), ButtonWire(w2, button, board)]
    ensures LedPin(comps, wires) == "10"
  {
    assert LookedUp(comps, Led, AnodeOf(), wires, 0) by {
      assert IsFirstMatch(comps, IsType(Led), 1);
    }
    StripLeadingD("10");
    assert "D" + "10" == "D10";
  }

  lemma ThreePieceButtonPin(comps: seq<Component>, wires: seq<Wire>, board: string, led: string, button: string, w1: string, w2: string)
    requires |comps| == 3 && comps[0].ctype == ArduinoUno && comps[1].ctype == Led
    requires comps[2].ctype == PushButton && comps[2].id == button && led != button
    requires wires == [LedWire(w1, board, led), ButtonWire(w2, button, board)]
    ensures ButtonPin(comps, wires) == "2"
  {
    assert LookedUp(comps, PushButton, OutOf(), wires, 1) by {
      assert IsFirstMatch(comps, IsType(PushButton), 2);
    }
    StripLeadingD("2");
    assert "D" + "2" == "D2";
  }

  /** Started, the three-piece circuit lights the LED one tick after a press
      and darkens it one tick after the release; stopping then empties the
      pin table. */
  lemma ButtonDrivesLed(board: string, led: string, button: string, ws: seq<string>)
    requires board != led && led != button && board != button
    requires |ws| == 6
    ensures
      var running := ToggleSimulation(ThreePieceCircuit(board, led, button, ws));
      var pressed := SimulationStep(ButtonNode.MouseDown(running, button).circuit);
      var released := SimulationStep(ButtonNode.MouseUp(pressed, button).circuit);
      && LedNode.IsOn(pressed.wires, pressed.pinStates, led)
      && !LedNode.IsOn(released.wires, released.pinStates, led)
      && ToggleSimulation(released).pinStates == map[]
  {
    ThreePieceWiring(board, led, button, ws);
    var running := ToggleSimulation(ThreePieceCircuit(board, led, button, ws));
    var wires := running.wires;
    assert IsFirstMatch(wires, LeavesFrom(button, "OUT"), 1);
    assert IsFirstMatch(wires, EntersAt(led, "ANODE"), 0);
    var down := ButtonNode.MouseDown(running, button).circuit;
    assert down.pinStates == map["D2" := 1];
    var pressed := SimulationStep(down);
    assert pressed.pinStates["D10"] == 1;
    assert LedNode.DrivenHigh(pressed.wires, pressed.pinStates, led);
    var up := ButtonNode.MouseUp(pressed, button).circuit;
    assert up.pinStates["D2"] == 0;
    var released := SimulationStep(up);
    assert released.pinStates["D10"] == 0;
  }

  /** Stopping after a run leaves no pin set, and restarting does not bring
      the old values back. */
  lemma StopResetsPins(c: Circuit)
    requires c.isRunning
    ensures
      var lit := SimulationStep(WritePin(c, "D2", High));
      && lit.pinStates["D10"] == High
      && ToggleSimulation(lit).pinStates == map[]
      && ToggleSimulation(ToggleSimulation(lit)).isRunning
      && ToggleSimulation(ToggleSimulation(lit)).pinStates == map[]
  {
    var lit := SimulationStep(WritePin(c, "D2", High));
    assert ButtonLevel(WritePin(c, "D2", High).pinStates) == High;
  }

  /** The first tick after a start, on an empty table, writes D10 := 0: an
      undefined D10 differs from 0. */
  lemma FirstTickWritesLow()
    ensures TickWrite(map[]) == Some(Low)
    ensures Tick(map[]) == map["D10" := Low]
  {
  }

  /** Board plus LED on D9 plus button on D3 gives `ledPin = 9` and
      `buttonPin = 3`. */
  lemma SketchForCustomPins(board: string, led: string, button: string)
    requires board != led && led != button && board != button
    ensures
      var comps := [Component(board, ArduinoUno, 0, 0, 0, NoData),
                    Component(led, Led, 0, 0, 0, NoData),
                    Component(button, PushButton, 0, 0, 0, NoData)];
      var wires := [Wire("w1", board, "D9", led, "ANODE", "red"),
                    Wire("w2", button, "OUT", board, "D3", "green")];
      GenerateArduinoCode(comps, wires) == Render("9", "3")
  {
    var comps := [Component(board, ArduinoUno, 0, 0, 0, NoData),
                  Component(led, Led, 0, 0, 0, NoData),
                  Component(button, PushButton, 0, 0, 0, NoData)];
    var wires := [Wire("w1", board, "D9", led, "ANODE", "red"),
                  Wire("w2", button, "OUT", board, "D3", "green")];
    assert LookedUp(comps, Led, AnodeOf(), wires, 0) by {
      assert IsFirstMatch(comps, IsType(Led), 1);
    }
    assert LookedUp(comps, PushButton, OutOf(), wires, 1) by {
      assert IsFirstMatch(comps, IsType(PushButton), 2);
    }
    assert StripFirstD("D9") == "9" by {
      assert FindIndex("D9", IsD()) == Some(0);
    }
    assert StripFirstD("D3") == "3" by {
      assert FindIndex("D3", IsD()) == Some(0);
    }
  }

  /** Only the first LED counts: a wire to a later LED's anode is ignored even
      when it comes first in the wire list. */
  lemma SketchUsesFirstLed(board: string, led1: string, led2: string)
    requires board != led1 && board != led2 && led1 != led2
    ensures
      var comps := [Component(board, ArduinoUno, 0, 0, 0, NoData),
                    Component(led1, Led, 0, 0, 0, NoData),
                    Component(led2, Led, 0, 0, 0, NoData)];
      var wires := [Wire("w1", board, "D9", led2, "ANODE", "red"),
                    Wire("w2", board, "D10", led1, "ANODE", "red")];
      LedPin(comps, wires) == "10"
  {
    var comps := [Component(board, ArduinoUno, 0, 0, 0, NoData),
                  Component(led1, Led, 0, 0, 0, NoData),
                  Component(led2, Led, 0, 0, 0, NoData)];
    var wires := [Wire("w1", board, "D9", led2, "ANODE", "red"),
                  Wire("w2", board, "D10", led1, "ANODE", "red")];
    assert LookedUp(comps, Led, AnodeOf(), wires, 1) by {
      assert IsFirstMatch(comps, IsType(Led), 1);
      assert IsFirstMatch(wires, AnodeOf()(led1), 1);
    }
    assert FindIndex("D10", IsD()) == Some(0);
  }

  /** A pin id that starts with 'D' loses exactly that character; "D10"
      becomes "10". */
  lemma {:induction false} StripLeadingD(rest: string)
    ensures StripFirstD("D" + rest) == rest
  {
    assert ("D" + rest)[0] == 'D';
    assert ("D" + rest)[1..] == rest;
  }

  /** A pin id without a 'D', such as an analog "A0", passes through. */
  lemma AnalogPinVerbatim()
    ensures StripFirstD("A0") == "A0"
  {
    assert 'D' !in "A0" by {
      assert "A0"[0] != 'D' && "A0"[1] != 'D';
    }
  }

  /** The 'D' need not lead: "GND" becomes "GN". */
  lemma GroundLosesItsD()
    ensures StripFirstD("GND") == "GN"
  {
    var s := "GND";
    assert s[0] == 'G' && s[1] == 'N' && s[2] == 'D';
    assert IsFirstMatch(s, IsD(), 2);
    var r := FindIndex(s, IsD());
    FirstMatchUnique(s, IsD(), r.value, 2);
    assert s[..2] + s[3..] == "GN";
  }

  /** Only one 'D' goes: "DD" becomes "D". */
  lemma OnlyFirstDRemoved()
    ensures StripFirstD("DD") == "D"
  {
    StripLeadingD("D");
  }
}
