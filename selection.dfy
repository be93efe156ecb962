/**
 * The car selection of ferrisWheel.js: the index moved by the "previous" and "next"
 * buttons with JavaScript's remainder operator, and the object slot a selection paints.
 */
module Selection {
  import opened JsNumber

  /** Number of cars on the wheel. */
  const NumCars: int := 20
  /** Slot of the wheel base in the object list. */
  const BaseIndex: int := 0
  /** Slot of the wheel skeleton in the object list; the cars follow it. */
  const WheelIndex: int := 1

  /** `(selectedCar + 1) % numCars`, the "next" button. */
  function NextIndex(s: int): int
  {
    JsRem(s + 1, NumCars)
  }

  /** `(selectedCar - 1) % numCars`, the "previous" button. */
  function PrevIndex(s: int): int
  {
    JsRem(s - 1, NumCars)
  }

  /** `wheelIndex + 1 + selectedCar`: the object slot painted for a selection. */
  function Slot(s: int): int
  {
    WheelIndex + 1 + s
  }

  /** "Next" walks the cars in order and wraps from the last car to the first. */
  lemma NextOfCar(s: int)
    requires 0 <= s < NumCars
    ensures 0 <= NextIndex(s) < NumCars
    ensures s < NumCars - 1 ==> NextIndex(s) == s + 1
    ensures s == NumCars - 1 ==> NextIndex(s) == 0
  {
  }

  /** "Previous" from any car but the first selects the car before it. */
  lemma PrevOfCar(s: int)
    requires 1 <= s < NumCars
    ensures PrevIndex(s) == s - 1
  {
  }

  /**
   * "Previous" from the first car does not wrap: the truncating remainder gives -1, whose
   * slot is the wheel skeleton; once more gives -2, the wheel base; once more gives -3, a
   * slot before the object list.
   */
  lemma PrevOfFirstCar()
    ensures PrevIndex(0) == -1 && Slot(-1) == WheelIndex
    ensures PrevIndex(-1) == -2 && Slot(-2) == BaseIndex
    ensures PrevIndex(-2) == -3 && Slot(-3) < 0
  {
  }

  /** Every selection either button produces lies strictly between -20 and 20. */
  lemma SelectionBounds(s: int)
    ensures -NumCars < NextIndex(s) < NumCars
    ensures -NumCars < PrevIndex(s) < NumCars
  {
  }

  /** "Previous" then "next" comes back to the car, also from the first car. */
  lemma PrevThenNext(s: int)
    requires 0 <= s < NumCars
    ensures NextIndex(PrevIndex(s)) == s
  {
    if s == 0 {
      PrevOfFirstCar();
    } else {
      PrevOfCar(s);
      NextOfCar(s - 1);
    }
  }

  /** "Next" then "previous" comes back to the car, except from the last car, where it lands on -1. */
  lemma NextThenPrev(s: int)
    requires 0 <= s < NumCars
    ensures s < NumCars - 1 ==> PrevIndex(NextIndex(s)) == s
    ensures s == NumCars - 1 ==> PrevIndex(NextIndex(s)) == -1
  {
    NextOfCar(s);
    if s < NumCars - 1 {
      PrevOfCar(s + 1);
    } else {
      PrevOfFirstCar();
    }
  }
}
