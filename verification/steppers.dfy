/**
 * The SwiftUI incrementers of the two later apps: a value bound to its
 * owner's storage, changed by a fixed step with a minus and a plus button
 * that are disabled when the step would leave the range.
 */
module Steppers {

  /**
   * The Turbo Man Challenge incrementer. Its `incrementAvailable` and
   * `decrementAvailable` hold when the button is DISABLED, and its
   * `changeValue` ignores a value outside the range.
   */
  class RangeCheckedStepper {
    /** The bound value. */
    var value: int
    const increment: int
    const minimum: int
    const maximum: int

    constructor(value: int, increment: int, minimum: int, maximum: int)
      ensures this.value == value && this.increment == increment
      ensures this.minimum == minimum && this.maximum == maximum
    {
      this.value := value;
      this.increment := increment;
      this.minimum := minimum;
      this.maximum := maximum;
    }

    ghost predicate InRange()
      reads this
    {
      minimum <= value <= maximum
    }

    /** The plus button is disabled when one more step would pass the maximum. */
    predicate PlusDisabled()
      reads this
    {
      value > maximum - increment
    }

    /** The minus button is disabled when one more step would pass the minimum. */
    predicate MinusDisabled()
      reads this
    {
      value < minimum + increment
    }

    /**
     * `changeValue`: only a value in `minimum...maximum` is taken. Forming
     * that range traps when the minimum exceeds the maximum, which callers
     * must rule out.
     */
    method ChangeValue(newValue: int)
      requires minimum <= maximum
      modifies this`value
      ensures value == if minimum <= newValue <= maximum then newValue else old(value)
      ensures InRange() || value == old(value)
    {
      if minimum <= newValue <= maximum {
        value := newValue;
      }
    }

    /** The plus button: an enabled one adds exactly one step, and the value stays in range. */
    method PlusPressed()
      requires minimum <= maximum && !PlusDisabled()
      modifies this`value
      ensures old(InRange()) && increment >= 0 ==> value == old(value) + increment && InRange()
      ensures old(InRange()) ==> InRange()
    {
      ChangeValue(value + increment);
    }

    /** The minus button: an enabled one takes away exactly one step, and the value stays in range. */
    method MinusPressed()
      requires minimum <= maximum && !MinusDisabled()
      modifies this`value
      ensures old(InRange()) && increment >= 0 ==> value == old(value) - increment && InRange()
      ensures old(InRange()) ==> InRange()
    {
      ChangeValue(value - increment);
    }
  }

  /**
   * The Turbo Time incrementer: `changeValue` takes any value, and the
   * buttons are available only while a step stays inside the range.
   */
  class Stepper {
    var value: int
    const increment: int
    const minimum: int
    const maximum: int

    constructor(value: int, increment: int, minimum: int, maximum: int)
      ensures this.value == value && this.increment == increment
      ensures this.minimum == minimum && this.maximum == maximum
    {
      this.value := value;
      this.increment := increment;
      this.minimum := minimum;
      this.maximum := maximum;
    }

    ghost predicate InRange()
      reads this
    {
      minimum <= value <= maximum
    }

    predicate IncrementIsAvailable()
      reads this
    {
      value <= maximum - increment
    }

    predicate DecrementIsAvailable()
      reads this
    {
      value >= minimum + increment
    }

    /** `changeValue`: the value is taken as it is. */
    method ChangeValue(newValue: int)
      modifies this`value
      ensures value == newValue
    {
      value := newValue;
    }

    /** The plus button, which can only be pressed while available: the value stays in range. */
    method IncrementPressed()
      requires IncrementIsAvailable()
      modifies this`value
      ensures value == old(value) + increment
      ensures old(InRange()) && increment >= 0 ==> InRange()
    {
      ChangeValue(value + increment);
    }

    /** The minus button, which can only be pressed while available: the value stays in range. */
    method DecrementPressed()
      requires DecrementIsAvailable()
      modifies this`value
      ensures value == old(value) - increment
      ensures old(InRange()) && increment >= 0 ==> InRange()
    {
      ChangeValue(value - increment);
    }
  }
}
