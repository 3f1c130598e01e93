/** The firmware generator: a pure function from the component and wire
    lists to the text of a button-to-LED Arduino sketch. It reads the pin
    that drives the first LED's anode and the pin the first button's OUT
    feeds, strips the first 'D' from each, and fills them into a fixed
    template. */
module CodeGenerator {
  import opened Wrappers
  import opened Seqs
  import opened CircuitTypes

  const DefaultLedPin := "10"
  const DefaultButtonPin := "2"

  function IsD(): char -> bool {
    (ch: char) => ch == 'D'
  }

  /** `s.replace('D', '')`: with a string pattern JavaScript removes only the
      first occurrence, wherever it is. */
  function StripFirstD(s: string): (r: string)
    ensures 'D' !in s ==> r == s
    ensures 'D' in s ==> exists i :: 0 <= i < |s| && s[i] == 'D' && 'D' !in s[..i] && r == s[..i] + s[i + 1..]
    ensures multiset(s) == multiset(r) + (if 'D' in s then multiset{'D'} else multiset{})
  {
    match FindIndex(s, IsD())
    case None => s
    case Some(i) =>
      assert s == s[..i] + [s[i]] + s[i + 1..];
      assert 'D' !in s[..i] by {
        forall j | 0 <= j < i ensures s[..i][j] != 'D' {
          assert s[..i][j] == s[j];
        }
      }
      s[..i] + s[i + 1..]
  }

  /** Picks, for a component identifier, the wires the generator looks for. */
  type Selector = string -> (Wire -> bool)

  /** Wires arriving at the anode of the given LED. */
  function AnodeOf(): Selector {
    (id: string) => EntersAt(id, "ANODE")
  }

  /** Wires leaving the OUT pin of the given button. */
  function OutOf(): Selector {
    (id: string) => LeavesFrom(id, "OUT")
  }

  /** Wire `k` is the one the generator reads for kind `t`: the first wire
      `sel` accepts for the first component of kind `t`. */
  ghost predicate LookedUp(comps: seq<Component>, t: ComponentType, sel: Selector, wires: seq<Wire>, k: int) {
    exists i :: IsFirstMatch(comps, IsType(t), i) && IsFirstMatch(wires, sel(comps[i].id), k)
  }

  /** There is no component of kind `t`, or `sel` accepts no wire for the
      first one. */
  ghost predicate NotFound(comps: seq<Component>, t: ComponentType, sel: Selector, wires: seq<Wire>) {
    || NoMatch(comps, IsType(t))
    || exists i :: IsFirstMatch(comps, IsType(t), i) && NoMatch(wires, sel(comps[i].id))
  }

  /** The two-stage first-match search of the generator. */
  function LookupWire(comps: seq<Component>, t: ComponentType, sel: Selector, wires: seq<Wire>): (r: Option<Wire>)
    ensures r.None? <==> NotFound(comps, t, sel, wires)
    ensures r.Some? <==> exists k :: LookedUp(comps, t, sel, wires, k)
    ensures forall k :: LookedUp(comps, t, sel, wires, k) ==> r == Some(wires[k])
  {
    LookupExclusive(comps, t, sel, wires);
    match FirstOfType(comps, t)
    case None => None
    case Some(c) =>
      match Find(wires, sel(c.id))
      case None =>
        NoWireFound(comps, t, sel, wires, c);
        None
      case Some(w) =>
        WireFound(comps, t, sel, wires, c, w);
        Some(w)
  }

  lemma NoWireFound(comps: seq<Component>, t: ComponentType, sel: Selector, wires: seq<Wire>, c: Component)
    requires FirstOfType(comps, t) == Some(c) && Find(wires, sel(c.id)).None?
    ensures NotFound(comps, t, sel, wires)
  {
    var i :| IsFirstMatch(comps, IsType(t), i) && comps[i] == c;
  }

  lemma WireFound(comps: seq<Component>, t: ComponentType, sel: Selector, wires: seq<Wire>, c: Component, w: Wire)
    requires FirstOfType(comps, t) == Some(c) && Find(wires, sel(c.id)) == Some(w)
    ensures exists k :: LookedUp(comps, t, sel, wires, k)
    ensures forall k :: LookedUp(comps, t, sel, wires, k) ==> wires[k] == w
  {
    var i :| IsFirstMatch(comps, IsType(t), i) && comps[i] == c;
    var k :| IsFirstMatch(wires, sel(c.id), k) && wires[k] == w;
    LookedUpOnly(comps, t, sel, wires, i, k);
    assert LookedUp(comps, t, sel, wires, k);
  }

  lemma LookupExclusive(comps: seq<Component>, t: ComponentType, sel: Selector, wires: seq<Wire>)
    ensures forall k :: LookedUp(comps, t, sel, wires, k) ==> !NotFound(comps, t, sel, wires)
  {
    forall k | LookedUp(comps, t, sel, wires, k) ensures !NotFound(comps, t, sel, wires) {
      var i :| IsFirstMatch(comps, IsType(t), i) && IsFirstMatch(wires, sel(comps[i].id), k);
      forall i' | IsFirstMatch(comps, IsType(t), i') ensures !NoMatch(wires, sel(comps[i'].id)) {
        FirstMatchUnique(comps, IsType(t), i, i');
      }
    }
  }

  lemma LookedUpOnly(comps: seq<Component>, t: ComponentType, sel: Selector, wires: seq<Wire>, i: nat, k: nat)
    requires IsFirstMatch(comps, IsType(t), i) && IsFirstMatch(wires, sel(comps[i].id), k)
    ensures forall k' :: LookedUp(comps, t, sel, wires, k') ==> k' == k
  {
    forall k' | LookedUp(comps, t, sel, wires, k') ensures k' == k {
      var i' :| IsFirstMatch(comps, IsType(t), i') && IsFirstMatch(wires, sel(comps[i'].id), k');
      FirstMatchUnique(comps, IsType(t), i, i');
      FirstMatchUnique(wires, sel(comps[i].id), k, k');
    }
  }

  /** The text substituted for `ledPin`: the origin pin of the first wire
      into the first LED's anode, first 'D' removed; "10" without one. */
  function LedPin(comps: seq<Component>, wires: seq<Wire>): (r: string)
    ensures NotFound(comps, Led, AnodeOf(), wires) ==> r == DefaultLedPin
    ensures forall k :: LookedUp(comps, Led, AnodeOf(), wires, k) ==> r == StripFirstD(wires[k].fromPinId)
  {
    match LookupWire(comps, Led, AnodeOf(), wires)
    case None => DefaultLedPin
    case Some(w) => StripFirstD(w.fromPinId)
  }

  /** The text substituted for `buttonPin`: the destination pin of the first
      wire out of the first button's OUT, first 'D' removed; "2" without one. */
  function ButtonPin(comps: seq<Component>, wires: seq<Wire>): (r: string)
    ensures NotFound(comps, PushButton, OutOf(), wires) ==> r == DefaultButtonPin
    ensures forall k :: LookedUp(comps, PushButton, OutOf(), wires, k) ==> r == StripFirstD(wires[k].toPinId)
  {
    match LookupWire(comps, PushButton, OutOf(), wires)
    case None => DefaultButtonPin
    case Some(w) => StripFirstD(w.toPinId)
  }

  /** The fixed parts of the sketch around the two substitutions. */
  const Preamble := "// Auto-generated Arduino Code\nconst int ledPin = "
  const Middle := ";\nconst int buttonPin = "
  const Sketch := ";" + SketchBody
  const SketchBody := "\n\nvoid setup() {\n  pinMode(ledPin, OUTPUT);\n  pinMode(buttonPin, INPUT);\n}\n\nvoid loop() {\n  // Read the state of the push button value:\n  int buttonState = digitalRead(buttonPin);\n\n  // Check if the push button is pressed.\n  // If it is, the buttonState is HIGH:\n  if (buttonState == HIGH) {\n    // Turn LED on:\n    digitalWrite(ledPin, HIGH);\n  } else {\n    // Turn LED off:\n    digitalWrite(ledPin, LOW);\n  }\n}"

  /** A template `pre ++ a ++ mid ++ b ++ post` whose two holes are each
      closed by a semicolon, as both of the sketch's `const int` lines are. */
  predicate HolesClosed(mid: string, post: string) {
    |mid| > 0 && mid[0] == ';' && |post| > 0 && post[0] == ';'
  }

  function Fill(pre: string, a: string, mid: string, b: string, post: string): string {
    pre + a + mid + b + post
  }

  /** The template with its two holes filled: it opens with the comment and
      the `ledPin` declaration, ends with the `loop` body, and for pin texts
      without a semicolon both texts can be read back out of it. */
  function Render(ledPin: string, buttonPin: string): (r: string)
    ensures |Preamble| <= |r| && r[..|Preamble|] == Preamble
    ensures |Sketch| <= |r| && r[|r| - |Sketch|..] == Sketch
    ensures ';' !in ledPin && ';' !in buttonPin ==> Unfill(r, Preamble, Middle, Sketch) == Some((ledPin, buttonPin))
  {
    FillFrame(Preamble, ledPin, Middle, buttonPin, Sketch);
    if ';' !in ledPin && ';' !in buttonPin then
      SketchHolesClosed();
      UnfillFill(Preamble, ledPin, Middle, buttonPin, Sketch);
      Fill(Preamble, ledPin, Middle, buttonPin, Sketch)
    else
      Fill(Preamble, ledPin, Middle, buttonPin, Sketch)
  }

  /** A filled template starts with its prefix and ends with its suffix. */
  lemma FillFrame(pre: string, a: string, mid: string, b: string, post: string)
    ensures var r := Fill(pre, a, mid, b, post);
      |pre| <= |r| && r[..|pre|] == pre && |post| <= |r| && r[|r| - |post|..] == post
  {
    var r := Fill(pre, a, mid, b, post);
    assert r == pre + (a + mid + b + post);
    assert r == (pre + a + mid + b) + post;
  }

  lemma SketchHolesClosed()
    ensures HolesClosed(Middle, Sketch)
  {
  }

  function IsSemicolon(): char -> bool {
    (ch: char) => ch == ';'
  }

  /** Reads the two hole contents back out of a filled template: each runs
      up to the first semicolon after its fixed prefix. */
  function Unfill(text: string, pre: string, mid: string, post: string): (r: Option<(string, string)>)
    ensures r.Some? ==> ';' !in r.value.0 && ';' !in r.value.1
    ensures r.Some? ==> text == Fill(pre, r.value.0, mid, r.value.1, post)
  {
    if !(|pre| <= |text| && text[..|pre|] == pre) then None
    else
      var rest := text[|pre|..];
      match FindIndex(rest, IsSemicolon())
      case None => None
      case Some(i) =>
        var tail := rest[i..];
        if !(|mid| <= |tail| && tail[..|mid|] == mid) then None
        else
          var rest2 := tail[|mid|..];
          match FindIndex(rest2, IsSemicolon())
          case None => None
          case Some(j) =>
            if rest2[j..] != post then None
            else
              var a := rest[..i];
              var b := rest2[..j];
              NoSemicolonBefore(rest, i);
              NoSemicolonBefore(rest2, j);
              SplitAfter(text, pre);
              SplitAt(rest, i);
              SplitAfter(tail, mid);
              SplitAt(rest2, j);
              Reassemble(text, pre, rest, a, tail, mid, rest2, b, post);
              Some((a, b))
  }

  lemma SplitAfter(s: string, p: string)
    requires |p| <= |s| && s[..|p|] == p
    ensures s == p + s[|p|..]
  {
    assert s == s[..|p|] + s[|p|..];
  }

  lemma SplitAt(s: string, i: nat)
    requires i <= |s|
    ensures s == s[..i] + s[i..]
  {
  }

  lemma Reassemble(text: string, pre: string, rest: string, a: string, tail: string,
                   mid: string, rest2: string, b: string, post: string)
    requires text == pre + rest && rest == a + tail && tail == mid + rest2 && rest2 == b + post
    ensures text == Fill(pre, a, mid, b, post)
  {
    assert pre + a + mid + b + post == pre + (a + (mid + (b + post)));
  }

  lemma NoSemicolonBefore(s: string, i: nat)
    requires IsFirstMatch(s, IsSemicolon(), i)
    ensures ';' !in s[..i]
  {
    forall j | 0 <= j < i ensures s[..i][j] != ';' {
      assert s[..i][j] == s[j];
      assert !IsSemicolon()(s[j]);
    }
  }

  lemma NoSemicolonIn(s: string)
    requires ';' !in s
    ensures NoMatch(s, IsSemicolon())
  {
    forall j | 0 <= j < |s| ensures !IsSemicolon()(s[j]) {
      assert s[j] in s;
    }
  }

  /** Hole contents without a semicolon survive filling and reading back. */
  lemma {:induction false} UnfillFill(pre: string, a: string, mid: string, b: string, post: string)
    requires HolesClosed(mid, post)
    requires ';' !in a && ';' !in b
    ensures Unfill(Fill(pre, a, mid, b, post), pre, mid, post) == Some((a, b))
  {
    var text := Fill(pre, a, mid, b, post);
    assert text == pre + (a + mid + b + post);
    var rest := text[|pre|..];
    assert rest == a + (mid + b + post);
    NoSemicolonIn(a);
    FindIndexAfterPrefix(a, mid + b + post, IsSemicolon());
    var tail := rest[|a|..];
    assert tail == mid + (b + post);
    var rest2 := tail[|mid|..];
    assert rest2 == b + post;
    NoSemicolonIn(b);
    FindIndexAfterPrefix(b, post, IsSemicolon());
    assert rest2[|b|..] == post;
  }

  /** Reads the pin texts back out of a generated sketch. */
  function ParseSketch(text: string): (r: Option<(string, string)>)
    ensures r.Some? ==> text == Render(r.value.0, r.value.1)
    ensures r.Some? ==> ';' !in r.value.0 && ';' !in r.value.1
  {
    Unfill(text, Preamble, Middle, Sketch)
  }

  /** Every pin text without a semicolon survives rendering and parsing. */
  lemma ParseRender(ledPin: string, buttonPin: string)
    requires ';' !in ledPin && ';' !in buttonPin
    ensures ParseSketch(Render(ledPin, buttonPin)) == Some((ledPin, buttonPin))
  {
  }

  /** Rendering is injective on pin texts without a semicolon. */
  lemma RenderInjective(a: string, b: string, c: string, d: string)
    requires ';' !in a && ';' !in b && ';' !in c && ';' !in d
    ensures Render(a, b) == Render(c, d) ==> a == c && b == d
  {
    ParseRender(a, b);
    ParseRender(c, d);
  }

  /** No wire carries a semicolon in a pin id (the built-in pin names never do). */
  predicate PlainPinIds(wires: seq<Wire>) {
    forall k :: 0 <= k < |wires| ==> ';' !in wires[k].fromPinId && ';' !in wires[k].toPinId
  }

  /** `generateArduinoCode(components, wires)`. */
  function GenerateArduinoCode(comps: seq<Component>, wires: seq<Wire>): (r: string)
    ensures PlainPinIds(wires) ==> ParseSketch(r) == Some((LedPin(comps, wires), ButtonPin(comps, wires)))
  {
    var led := LedPin(comps, wires);
    var button := ButtonPin(comps, wires);
    if PlainPinIds(wires) then
      StrippedPlain(comps, wires);
      ParseRender(led, button);
      Render(led, button)
    else
      Render(led, button)
  }

  lemma StrippedPlain(comps: seq<Component>, wires: seq<Wire>)
    requires PlainPinIds(wires)
    ensures ';' !in LedPin(comps, wires) && ';' !in ButtonPin(comps, wires)
  {
    var led := LookupWire(comps, Led, AnodeOf(), wires);
    if led.Some? {
      var k :| LookedUp(comps, Led, AnodeOf(), wires, k);
      StripKeepsPlain(wires[k].fromPinId);
    }
    var button := LookupWire(comps, PushButton, OutOf(), wires);
    if button.Some? {
      var k :| LookedUp(comps, PushButton, OutOf(), wires, k);
      StripKeepsPlain(wires[k].toPinId);
    }
  }

  /** Removing a 'D' introduces no semicolon. */
  lemma StripKeepsPlain(s: string)
    requires ';' !in s
    ensures ';' !in StripFirstD(s)
  {
    assert multiset(s)[';'] == 0;
  }

  // ---------------------------------------------------------------------
  // What the output does not depend on
  // ---------------------------------------------------------------------

  /** Two component lists that agree on identifiers and kinds, position by
      position. */
  ghost predicate SameKinds(c1: seq<Component>, c2: seq<Component>) {
    |c1| == |c2| && forall i :: 0 <= i < |c1| ==> c1[i].id == c2[i].id && c1[i].ctype == c2[i].ctype
  }

  /** Two wire lists whose selectors answer alike and whose pin ids agree,
      position by position. */
  ghost predicate SameReadings(w1: seq<Wire>, w2: seq<Wire>) {
    && |w1| == |w2|
    && (forall k :: 0 <= k < |w1| ==> w1[k].fromPinId == w2[k].fromPinId && w1[k].toPinId == w2[k].toPinId)
    && (forall k, id :: 0 <= k < |w1| ==> AnodeOf()(id)(w1[k]) == AnodeOf()(id)(w2[k]))
    && (forall k, id :: 0 <= k < |w1| ==> OutOf()(id)(w1[k]) == OutOf()(id)(w2[k]))
  }

  lemma {:induction false} LookupCongruent(c1: seq<Component>, c2: seq<Component>, t: ComponentType, sel: Selector, w1: seq<Wire>, w2: seq<Wire>)
    requires SameKinds(c1, c2)
    requires |w1| == |w2| && forall k, id :: 0 <= k < |w1| ==> sel(id)(w1[k]) == sel(id)(w2[k])
    ensures LookupWire(c1, t, sel, w1).None? == LookupWire(c2, t, sel, w2).None?
    ensures LookupWire(c1, t, sel, w1).Some? ==>
      exists k :: 0 <= k < |w1| && LookupWire(c1, t, sel, w1) == Some(w1[k]) && LookupWire(c2, t, sel, w2) == Some(w2[k])
  {
    FindIndexCongruent(c1, IsType(t), c2, IsType(t));
    match FindIndex(c1, IsType(t))
    case None =>
    case Some(i) =>
      FindIndexCongruent(w1, sel(c1[i].id), w2, sel(c2[i].id));
      match FindIndex(w1, sel(c1[i].id))
      case None =>
        assert NotFound(c1, t, sel, w1);
        assert NotFound(c2, t, sel, w2);
      case Some(k) =>
        assert LookedUp(c1, t, sel, w1, k);
        assert LookedUp(c2, t, sel, w2, k);
  }

  /** The sketch depends only on component identifiers and kinds and on the
      wires' endpoints: positions, rotation, data, wire ids and colours are
      never read. */
  lemma GenerateCongruent(c1: seq<Component>, c2: seq<Component>, w1: seq<Wire>, w2: seq<Wire>)
    requires SameKinds(c1, c2) && SameReadings(w1, w2)
    ensures GenerateArduinoCode(c1, w1) == GenerateArduinoCode(c2, w2)
  {
    LookupCongruent(c1, c2, Led, AnodeOf(), w1, w2);
    LookupCongruent(c1, c2, PushButton, OutOf(), w1, w2);
  }

  /** Moving, rotating or re-colouring never changes the sketch. */
  lemma GenerateIgnoresLayout(c1: seq<Component>, c2: seq<Component>, w1: seq<Wire>, w2: seq<Wire>)
    requires SameKinds(c1, c2)
    requires |w1| == |w2|
    requires forall k :: 0 <= k < |w1| ==> w1[k].(id := "", color := "") == w2[k].(id := "", color := "")
    ensures GenerateArduinoCode(c1, w1) == GenerateArduinoCode(c2, w2)
  {
    forall k | 0 <= k < |w1| ensures
      && w1[k].fromCompId == w2[k].fromCompId && w1[k].fromPinId == w2[k].fromPinId
      && w1[k].toCompId == w2[k].toCompId && w1[k].toPinId == w2[k].toPinId
    {
      assert w1[k].(id := "", color := "").fromCompId == w2[k].(id := "", color := "").fromCompId;
    }
    GenerateCongruent(c1, c2, w1, w2);
  }

  /** The component at the far end of the LED's wire is never consulted:
      re-pointing the origin of a wire that does not leave an OUT pin leaves
      the sketch unchanged. */
  lemma GenerateIgnoresLedDriver(comps: seq<Component>, wires: seq<Wire>, k: nat, other: string)
    requires k < |wires| && wires[k].fromPinId != "OUT"
    ensures GenerateArduinoCode(comps, wires[k := wires[k].(fromCompId := other)]) == GenerateArduinoCode(comps, wires)
  {
    GenerateCongruent(comps, comps, wires[k := wires[k].(fromCompId := other)], wires);
  }

  /** Dropping every board from the component list leaves the sketch
      unchanged: boards are never consulted. */
  lemma GenerateIgnoresBoards(comps: seq<Component>, wires: seq<Wire>)
    ensures GenerateArduinoCode(Filter(comps, NotBoard()), wires) == GenerateArduinoCode(comps, wires)
  {
    FindIgnoresFiltered(comps, IsType(Led), NotBoard());
    FindIgnoresFiltered(comps, IsType(PushButton), NotBoard());
  }

  function NotBoard(): Component -> bool {
    (c: Component) => c.ctype != ArduinoUno
  }
}
