/** The LED node: lit exactly when the board pin driving its anode reads 1. */
module LedNode {
  import opened Wrappers
  import opened Seqs
  import opened CircuitTypes

  /** `anodeWire`: the first wire, in list order, arriving at this LED's anode. */
  function AnodeWire(wires: seq<Wire>, ledId: string): (r: Option<Wire>)
    ensures r.None? <==> NoMatch(wires, EntersAt(ledId, "ANODE"))
    ensures r.Some? ==> exists k :: IsFirstMatch(wires, EntersAt(ledId, "ANODE"), k) && wires[k] == r.value
  {
    WireInto(wires, ledId, "ANODE")
  }

  /** The anode is driven from pin `pin`, which holds exactly 1. */
  ghost predicate DrivenHigh(wires: seq<Wire>, pins: PinStates, ledId: string) {
    exists k :: IsFirstMatch(wires, EntersAt(ledId, "ANODE"), k) && PinValue(pins, wires[k].fromPinId) == Some(High)
  }

  /** `isOn`: looks the origin pin id of the anode wire up in the pin table;
      only the value 1 lights the LED, and the component the wire starts from is not
      consulted. */
  function IsOn(wires: seq<Wire>, pins: PinStates, ledId: string): (r: bool)
    ensures r <==> DrivenHigh(wires, pins, ledId)
    ensures NoMatch(wires, EntersAt(ledId, "ANODE")) ==> !r
  {
    match AnodeWire(wires, ledId)
    case None => false
    case Some(w) =>
      assert forall k :: IsFirstMatch(wires, EntersAt(ledId, "ANODE"), k) ==> wires[k] == w by {
        forall k | IsFirstMatch(wires, EntersAt(ledId, "ANODE"), k) ensures wires[k] == w {
          var j :| IsFirstMatch(wires, EntersAt(ledId, "ANODE"), j) && wires[j] == w;
          FirstMatchUnique(wires, EntersAt(ledId, "ANODE"), j, k);
        }
      }
      w.fromPinId in pins && pins[w.fromPinId] == High
  }

  /** The "Anode ← pin" label: shown exactly when an anode wire exists, and
      naming that wire's origin pin. */
  function ConnectionLabel(wires: seq<Wire>, ledId: string): (r: Option<string>)
    ensures r.Some? <==> exists k :: 0 <= k < |wires| && wires[k].toCompId == ledId && wires[k].toPinId == "ANODE"
    ensures r.Some? ==> exists k :: IsFirstMatch(wires, EntersAt(ledId, "ANODE"), k) && r.value == wires[k].fromPinId
  {
    match AnodeWire(wires, ledId)
    case None => None
    case Some(w) => Some(w.fromPinId)
  }

  /** A lit LED always shows its label. */
  lemma LitImpliesLabelled(wires: seq<Wire>, pins: PinStates, ledId: string)
    requires IsOn(wires, pins, ledId)
    ensures ConnectionLabel(wires, ledId).Some?
  {
    var k :| IsFirstMatch(wires, EntersAt(ledId, "ANODE"), k) && PinValue(pins, wires[k].fromPinId) == Some(High);
    assert wires[k].toCompId == ledId && wires[k].toPinId == "ANODE";
  }

  /** Any stored value other than exactly 1, an analog 600 included, leaves
      the LED dark. */
  lemma OnlyOneLights(wires: seq<Wire>, pins: PinStates, ledId: string, w: Wire)
    requires AnodeWire(wires, ledId) == Some(w)
    requires w.fromPinId in pins && pins[w.fromPinId] != High
    ensures !IsOn(wires, pins, ledId)
  {
  }

  /** Two LEDs whose anode wires start at the same pin id are lit alike,
      whichever components those wires start from. */
  lemma PinIdAloneDecides(wires: seq<Wire>, pins: PinStates, led1: string, led2: string)
    requires AnodeWire(wires, led1).Some? && AnodeWire(wires, led2).Some?
    requires AnodeWire(wires, led1).value.fromPinId == AnodeWire(wires, led2).value.fromPinId
    ensures IsOn(wires, pins, led1) == IsOn(wires, pins, led2)
  {
  }
}
