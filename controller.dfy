/**
 * The input controller: four buttons, each a two-bit edge detector remembering the state of
 * the previous update, and a stored direction.
 */
module Controller {
  import opened Wire

  /** A key's state: whether it is down now, and whether it was down before the last update. */
  class Button {
    var pressed: bool
    var previous: bool

    /** A new button is released and was released. */
    constructor ()
      ensures !pressed && !previous
      ensures !Pressed() && !Rising() && !Falling()
    {
      pressed := false;
      previous := false;
    }

    /** Remember the current state, then take the new one. */
    method Update(p: bool)
      modifies this
      ensures previous == old(pressed) && pressed == p
      ensures Rising() <==> !old(pressed) && p
      ensures Falling() <==> old(pressed) && !p
    {
      previous := pressed;
      pressed := p;
    }

    function Pressed(): bool
      reads this
    {
      pressed
    }

    /** The last update went from released to pressed; never together with a falling edge. */
    function Rising(): (r: bool)
      reads this
      ensures r ==> !Falling()
    {
      !previous && pressed
    }

    /** The last update went from pressed to released. */
    function Falling(): bool
      reads this
    {
      previous && !pressed
    }
  }

  /** `0.0` as an `f64`: all bits clear. */
  const Zero: F64 := F64(0)

  /** A stored direction; its getters return the coordinates as stored. */
  datatype Direction = Direction(x: F64, y: F64) {
    function Pair(): (F64, F64) {
      (x, y)
    }
  }

  class Controller {
    const left: Button
    const right: Button
    const up: Button
    const down: Button
    var direction: Direction

    /** The four buttons are four different objects. */
    ghost predicate Valid()
      reads this
    {
      && left != right && left != up && left != down
      && right != up && right != down && up != down
    }

    /** Four new, released buttons and direction (0, 0). */
    constructor ()
      ensures Valid() && fresh(left) && fresh(right) && fresh(up) && fresh(down)
      ensures !left.pressed && !left.previous && !right.pressed && !right.previous
      ensures !up.pressed && !up.previous && !down.pressed && !down.previous
      ensures direction == Direction(Zero, Zero)
    {
      left := new Button();
      right := new Button();
      up := new Button();
      down := new Button();
      direction := Direction(Zero, Zero);
    }
  }

  /**
   * The edge sequence of a button driven by `inputs` from new: after each update, whether it
   * shows a rising and whether it shows a falling edge.
   */
  method Edges(inputs: seq<bool>) returns (edges: seq<(bool, bool)>)
    ensures |edges| == |inputs|
    ensures forall i {:trigger edges[i]} :: 0 <= i < |inputs| ==>
              edges[i] == (inputs[i] && (i == 0 || !inputs[i - 1]), !inputs[i] && i > 0 && inputs[i - 1])
  {
    var button := new Button();
    edges := [];
    for i := 0 to |inputs|
      invariant |edges| == i
      invariant button.pressed == (i > 0 && inputs[i - 1])
      invariant forall j {:trigger edges[j]} :: 0 <= j < i ==>
                  edges[j] == (inputs[j] && (j == 0 || !inputs[j - 1]), !inputs[j] && j > 0 && inputs[j - 1])
    {
      button.Update(inputs[i]);
      edges := edges + [(button.Rising(), button.Falling())];
    }
  }

  /**
   * The unit test's button driven by its eight updates: rising only on each false-to-true
   * update, falling only on each true-to-false one.
   */
  method EdgesOfTestSequence() returns (edges: seq<(bool, bool)>)
    ensures edges == [(true, false), (false, false), (false, false), (false, true),
                      (false, false), (false, false), (true, false), (false, true)]
  {
    var inputs := [true, true, true, false, false, false, true, false];
    edges := Edges(inputs);
    assert edges[0] == (true, false) && edges[1] == (false, false) && edges[2] == (false, false);
    assert edges[3] == (false, true) && edges[4] == (false, false) && edges[5] == (false, false);
    assert edges[6] == (true, false) && edges[7] == (false, true);
  }
}
