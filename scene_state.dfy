/**
 * The scene of ferrisWheel.js after loading: the list of objects (base, skeleton, then
 * the cars), the selected car, the highlight painted on it, the "previous"/"next"
 * handlers with `handleCarChange`, and the per-frame turn of the skeleton.
 *
 * The methods are proved against functions on the objects' meshes (`Repaint`,
 * `CarChange`); the lemmas below them state what a repaint promises: which object ends
 * up blue and which red, that nothing else changes, that a selection move keeps exactly
 * one car highlighted, and where it does not.
 */
module SceneState {
  import opened Geometry
  import opened JsNumber
  import opened Selection
  import opened WheelAngle
  import ObjParser

  // ---------------------------------------------------------------------------
  // Specification on values

  /** Whether the object list has an object at the slot of selection `s`. */
  predicate HasSlot(ms: seq<Mesh>, s: int)
  {
    0 <= Slot(s) < |ms|
  }

  /** `ms` with every colour of the object at `slot` set to `c`; a slot outside the list changes nothing. */
  function Repaint(ms: seq<Mesh>, slot: int, c: Vec4): seq<Mesh>
  {
    if 0 <= slot < |ms| then ms[slot := ms[slot].(colors := Filled(ms[slot].colors, c))] else ms
  }

  /**
   * What `handleCarChange(oldCar, newCar)` leaves: the new car's object painted blue, then
   * the old car's painted red. Reading the colours of a missing object throws, so when the
   * new slot is missing nothing is painted, and when only the old one is, the new car
   * stays blue.
   */
  function CarChange(ms: seq<Mesh>, oldCar: int, newCar: int): seq<Mesh>
  {
    if !HasSlot(ms, newCar) then ms
    else Repaint(Repaint(ms, Slot(newCar), Blue), Slot(oldCar), Red)
  }

  /** The scene of `numCars` cars behind the base and the skeleton. */
  predicate FullScene(ms: seq<Mesh>)
  {
    |ms| == WheelIndex + 1 + NumCars
  }

  /** Car `s` is the one blue car: its object is all blue and every other car's object is all red. */
  predicate Highlighted(ms: seq<Mesh>, s: int)
  {
    && HasSlot(ms, s)
    && WheelIndex < Slot(s)
    && forall k :: WheelIndex < k < |ms| ==> AllColored(ms[k].colors, if k == Slot(s) then Blue else Red)
  }

  /** Every car's object is all red, as the loader leaves them. */
  predicate CarsRed(ms: seq<Mesh>)
  {
    forall k :: WheelIndex < k < |ms| ==> AllColored(ms[k].colors, Red)
  }

  // ---------------------------------------------------------------------------
  // What a repaint promises

  /**
   * A repaint of an existing slot leaves every list length, every position and normal and
   * every other object as it was, and makes the slot's colours all `c`.
   */
  lemma RepaintEffect(ms: seq<Mesh>, slot: int, c: Vec4)
    ensures |Repaint(ms, slot, c)| == |ms|
    ensures forall k :: 0 <= k < |ms| ==>
      && |Repaint(ms, slot, c)[k].colors| == |ms[k].colors|
      && Repaint(ms, slot, c)[k].positions == ms[k].positions
      && Repaint(ms, slot, c)[k].normals == ms[k].normals
    ensures forall k :: 0 <= k < |ms| && k != slot ==> Repaint(ms, slot, c)[k] == ms[k]
    ensures 0 <= slot < |ms| ==> AllColored(Repaint(ms, slot, c)[slot].colors, c)
  {
  }

  /**
   * After `handleCarChange` with both slots present, the old car is all red and, when it
   * differs from the new one, the new car is all blue (the old car is painted last, so it
   * wins when both are the same car). Lengths, positions, normals and every other object
   * are unchanged.
   */
  lemma CarChangeEffect(ms: seq<Mesh>, oldCar: int, newCar: int)
    requires HasSlot(ms, oldCar) && HasSlot(ms, newCar)
    ensures |CarChange(ms, oldCar, newCar)| == |ms|
    ensures AllColored(CarChange(ms, oldCar, newCar)[Slot(oldCar)].colors, Red)
    ensures oldCar != newCar ==> AllColored(CarChange(ms, oldCar, newCar)[Slot(newCar)].colors, Blue)
    ensures forall k :: 0 <= k < |ms| ==>
      && |CarChange(ms, oldCar, newCar)[k].colors| == |ms[k].colors|
      && CarChange(ms, oldCar, newCar)[k].positions == ms[k].positions
      && CarChange(ms, oldCar, newCar)[k].normals == ms[k].normals
    ensures forall k :: 0 <= k < |ms| && k != Slot(oldCar) && k != Slot(newCar) ==>
      CarChange(ms, oldCar, newCar)[k] == ms[k]
  {
    var mid := Repaint(ms, Slot(newCar), Blue);
    RepaintEffect(ms, Slot(newCar), Blue);
    RepaintEffect(mid, Slot(oldCar), Red);
  }

  /** Without an object at the new slot `handleCarChange` throws at once and paints nothing. */
  lemma CarChangeMissingNew(ms: seq<Mesh>, oldCar: int, newCar: int)
    requires !HasSlot(ms, newCar)
    ensures CarChange(ms, oldCar, newCar) == ms
  {
  }

  /** The highlight painted at start-up on the red cars of a full scene makes car 0 the one blue car. */
  lemma InitialHighlight(ms: seq<Mesh>)
    requires FullScene(ms) && CarsRed(ms)
    ensures Highlighted(Repaint(ms, Slot(0), Blue), 0)
    ensures Repaint(ms, Slot(0), Blue)[BaseIndex] == ms[BaseIndex]
    ensures Repaint(ms, Slot(0), Blue)[WheelIndex] == ms[WheelIndex]
  {
    RepaintEffect(ms, Slot(0), Blue);
  }

  /**
   * Moving the highlight from car `s` to another car `t` of the scene makes `t` the one
   * blue car, and leaves the base and the skeleton alone. (A move from a car to itself
   * would leave it red: see `CarChangeEffect`.)
   */
  lemma {:induction false} MoveHighlight(ms: seq<Mesh>, s: int, t: int)
    requires Highlighted(ms, s)
    requires HasSlot(ms, t) && WheelIndex < Slot(t) && t != s
    ensures Highlighted(CarChange(ms, s, t), t)
    ensures CarChange(ms, s, t)[BaseIndex] == ms[BaseIndex]
    ensures CarChange(ms, s, t)[WheelIndex] == ms[WheelIndex]
  {
    var r := CarChange(ms, s, t);
    CarChangeEffect(ms, s, t);
    forall k | WheelIndex < k < |r|
      ensures AllColored(r[k].colors, if k == Slot(t) then Blue else Red)
    {
      if k != Slot(s) && k != Slot(t) {
        assert r[k] == ms[k];
      }
    }
  }

  /** "Next" from any car of a full scene moves the single highlight to the next car, wrapping at the end. */
  lemma NextKeepsHighlight(ms: seq<Mesh>, s: int)
    requires FullScene(ms) && Highlighted(ms, s)
    ensures Highlighted(CarChange(ms, s, NextIndex(s)), NextIndex(s))
  {
    NextOfCar(s);
    MoveHighlight(ms, s, NextIndex(s));
  }

  /** "Previous" from any car but the first moves the single highlight to the car before. */
  lemma PrevKeepsHighlight(ms: seq<Mesh>, s: int)
    requires FullScene(ms) && Highlighted(ms, s) && s != 0
    ensures Highlighted(CarChange(ms, s, PrevIndex(s)), PrevIndex(s))
  {
    PrevOfCar(s);
    MoveHighlight(ms, s, PrevIndex(s));
  }

  /**
   * "Previous" from the first car selects -1, whose slot is the wheel skeleton: the skeleton
   * is painted blue and no car is blue any more.
   */
  lemma PrevFromFirstCarPaintsSkeleton(ms: seq<Mesh>)
    requires FullScene(ms) && Highlighted(ms, 0)
    ensures PrevIndex(0) == -1
    ensures AllColored(CarChange(ms, 0, PrevIndex(0))[WheelIndex].colors, Blue)
    ensures CarsRed(CarChange(ms, 0, PrevIndex(0)))
  {
    PrevOfFirstCar();
    var r := CarChange(ms, 0, -1);
    CarChangeEffect(ms, 0, -1);
    forall k | WheelIndex < k < |r| ensures AllColored(r[k].colors, Red) {
      if k != Slot(0) {
        assert r[k] == ms[k];
      }
    }
  }

  /**
   * "Next" then "previous" from a car other than the last gives back the same colours on
   * every object; from the last car the second move selects -1 instead.
   */
  lemma {:induction false} NextThenPrevRestoresColors(ms: seq<Mesh>, s: int)
    requires FullScene(ms) && Highlighted(ms, s) && s < NumCars - 1
    ensures PrevIndex(NextIndex(s)) == s
    ensures CarChange(CarChange(ms, s, NextIndex(s)), NextIndex(s), s) == ms
  {
    NextThenPrev(s);
    NextOfCar(s);
    var mid := CarChange(ms, s, s + 1);
    var r := CarChange(mid, s + 1, s);
    CarChangeEffect(ms, s, s + 1);
    CarChangeEffect(mid, s + 1, s);
    forall k | 0 <= k < |ms| ensures r[k] == ms[k] {
      if k == Slot(s) || k == Slot(s + 1) {
        assert ms[k].colors == r[k].colors by {
          assert AllColored(ms[k].colors, if k == Slot(s) then Blue else Red);
          assert AllColored(r[k].colors, if k == Slot(s) then Blue else Red);
        }
      } else {
        assert mid[k] == ms[k];
      }
    }
  }

  // ---------------------------------------------------------------------------
  // The scene as mutable state

  /** The `for` loop that sets every colour of one object to `c`. */
  method Paint(g: GeometryObject, c: Vec4)
    modifies g
    ensures g.Contents() == old(g.Contents()).(colors := Filled(old(g.colors), c))
    ensures g.theta == old(g.theta)
  {
    var i := 0;
    while i < |g.colors|
      invariant 0 <= i <= |g.colors| == |old(g.colors)|
      invariant g.positions == old(g.positions) && g.normals == old(g.normals) && g.theta == old(g.theta)
      invariant forall k :: 0 <= k < i ==> g.colors[k] == c
      invariant forall k :: i <= k < |g.colors| ==> g.colors[k] == old(g.colors)[k]
    {
      g.colors := g.colors[i := c];
      i := i + 1;
    }
    assert g.colors == Filled(old(g.colors), c);
  }

  /** The module-level `objects` list and `selectedCar` index. */
  class Scene {
    var objects: seq<GeometryObject>
    var selectedCar: int

    /** No object occurs twice, and every object has the three rotation angles of its constructor. */
    ghost predicate Valid()
      reads this, objects
    {
      && ObjParser.Distinct(objects)
      && forall k :: 0 <= k < |objects| ==> |objects[k].theta| == 3
    }

    /** The meshes of the objects, in slot order. */
    function Contents(): seq<Mesh>
      reads this, objects
    {
      Meshes(objects)
    }

    /** The rotation angles of the objects, in slot order. */
    function Angles(): (r: seq<seq<int>>)
      reads this, objects
      ensures |r| == |objects|
    {
      seq(|objects|, k reads this, objects requires 0 <= k < |objects| => objects[k].theta)
    }

    /** The pushes of `init`: the base, the skeleton, then every car; car 0 selected. */
    constructor (base: GeometryObject, skeleton: GeometryObject, cars: seq<GeometryObject>)
      requires ObjParser.Distinct([base, skeleton] + cars)
      requires base.theta == skeleton.theta == [0, 0, 0]
      requires forall k :: 0 <= k < |cars| ==> cars[k].theta == [0, 0, 0]
      ensures objects == [base, skeleton] + cars
      ensures selectedCar == 0
      ensures Valid()
    {
      objects := [base, skeleton] + cars;
      selectedCar := 0;
      new;
      assert forall k :: 2 <= k < |objects| ==> objects[k] == cars[k - 2];
    }

    /** Paints the object at `slot` all `c`, touching nothing else. */
    method PaintSlot(slot: int, c: Vec4)
      requires Valid() && 0 <= slot < |objects|
      modifies objects[slot]
      ensures Valid()
      ensures Contents() == Repaint(old(Contents()), slot, c)
      ensures Angles() == old(Angles())
    {
      ghost var before := Contents();
      ghost var angles := Angles();
      Paint(objects[slot], c);
      forall k | 0 <= k < |objects| && k != slot
        ensures objects[k].Contents() == before[k] && objects[k].theta == angles[k]
      {
        assert objects[k] != objects[slot];
      }
      assert Contents() == Repaint(before, slot, c);
      assert Angles() == angles;
    }

    /** The start-up loop that paints the selected car's object blue; throws (`ok` false) when it is missing. */
    method HighlightSelected() returns (ok: bool)
      requires Valid()
      modifies objects
      ensures Valid()
      ensures ok == HasSlot(old(Contents()), selectedCar)
      ensures Contents() == Repaint(old(Contents()), Slot(selectedCar), Blue)
      ensures Angles() == old(Angles())
    {
      var slot := WheelIndex + 1 + selectedCar;
      if !(0 <= slot < |objects|) {
        return false;
      }
      PaintSlot(slot, Blue);
      ok := true;
    }

    /**
     * `handleCarChange(oldCar, newCar)`: paints the new car blue, then the old one red;
     * `ok` is false when either object is missing, which throws in the source.
     */
    method HandleCarChange(oldCar: int, newCar: int) returns (ok: bool)
      requires Valid()
      modifies objects
      ensures Valid()
      ensures ok == (HasSlot(old(Contents()), newCar) && HasSlot(old(Contents()), oldCar))
      ensures Contents() == CarChange(old(Contents()), oldCar, newCar)
      ensures Angles() == old(Angles())
    {
      var newSlot := WheelIndex + 1 + newCar;
      if !(0 <= newSlot < |objects|) {
        return false;
      }
      PaintSlot(newSlot, Blue);
      var oldSlot := WheelIndex + 1 + oldCar;
      if !(0 <= oldSlot < |objects|) {
        return false;
      }
      PaintSlot(oldSlot, Red);
      ok := true;
    }

    /** The "previous car" click: `(selectedCar - 1) % numCars`, then the repaint. */
    method PrevCar() returns (ok: bool)
      requires Valid()
      modifies this, objects
      ensures Valid()
      ensures objects == old(objects)
      ensures selectedCar == PrevIndex(old(selectedCar))
      ensures ok == (HasSlot(old(Contents()), selectedCar) && HasSlot(old(Contents()), old(selectedCar)))
      ensures Contents() == CarChange(old(Contents()), old(selectedCar), selectedCar)
      ensures Angles() == old(Angles())
    {
      var oldSelectedCar := selectedCar;
      selectedCar := JsRem(selectedCar - 1, NumCars);
      ok := HandleCarChange(oldSelectedCar, selectedCar);
    }

    /** The "next car" click: `(selectedCar + 1) % numCars`, then the repaint. */
    method NextCar() returns (ok: bool)
      requires Valid()
      modifies this, objects
      ensures Valid()
      ensures objects == old(objects)
      ensures selectedCar == NextIndex(old(selectedCar))
      ensures ok == (HasSlot(old(Contents()), selectedCar) && HasSlot(old(Contents()), old(selectedCar)))
      ensures Contents() == CarChange(old(Contents()), old(selectedCar), selectedCar)
      ensures Angles() == old(Angles())
    {
      var oldSelectedCar := selectedCar;
      selectedCar := JsRem(selectedCar + 1, NumCars);
      ok := HandleCarChange(oldSelectedCar, selectedCar);
    }

    /**
     * The skeleton's turn in `render`: `theta[2] = (theta[2] + rotationSpeed) % 360` on the
     * object at the skeleton's slot; `ok` is false when there is none, which throws in the
     * source. No mesh and no other angle changes.
     */
    method TurnWheel() returns (ok: bool)
      requires Valid()
      modifies objects
      ensures Valid()
      ensures Contents() == old(Contents())
      ensures ok == (WheelIndex < |objects|)
      ensures ok ==> Angles() == old(Angles())[WheelIndex := old(Angles())[WheelIndex][2 := NextAngle(old(Angles())[WheelIndex][2])]]
      ensures !ok ==> Angles() == old(Angles())
    {
      if |objects| <= WheelIndex {
        return false;
      }
      ghost var before := Contents();
      ghost var angles := Angles();
      var wheel := objects[WheelIndex];
      wheel.theta := wheel.theta[2 := JsRem(wheel.theta[2] + RotationSpeed, FullTurn)];
      forall k | 0 <= k < |objects| && k != WheelIndex
        ensures objects[k].Contents() == before[k] && objects[k].theta == angles[k]
      {
        assert objects[k] != wheel;
      }
      assert Contents() == before;
      ok := true;
    }
  }
}
