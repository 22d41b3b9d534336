/** `ZplJsConfig` (packages/sdk/src/core/config.ts): the maximum length of
    the text the `zpl` tag parses. The class's static field is held here by
    one object, whose methods are the getter and the setter. */
module Config {
  import opened Wrappers
  import opened JsText

  const InitialZplMaxLength := 4096
  const NonPositiveLengthError := "zplMaxLength must be a positive number."

  /** A value the setter refuses: a number that is zero or less (NaN is not,
      since `NaN <= 0` is false). */
  predicate Refused(value: Num) {
    value.Some? && value.value <= 0
  }

  class ZplJsConfig {
    var zplMaxLengthValue: Num

    /** The static field's initial value. */
    constructor()
      ensures zplMaxLengthValue == Some(InitialZplMaxLength)
    {
      zplMaxLengthValue := Some(InitialZplMaxLength);
    }

    /** The getter: the stored value, read without side effects. */
    method ZplMaxLength() returns (value: Num)
      ensures value == zplMaxLengthValue
    {
      return zplMaxLengthValue;
    }

    /** The setter: a value of zero or less throws and changes nothing;
        anything else is stored. */
    method SetZplMaxLength(value: Num) returns (r: Result<(), string>)
      modifies this
      ensures Refused(value) ==> r == Failure(NonPositiveLengthError) && zplMaxLengthValue == old(zplMaxLengthValue)
      ensures !Refused(value) ==> r.Success? && zplMaxLengthValue == value
    {
      if value.Some? && value.value <= 0 {
        return Failure(NonPositiveLengthError);
      }
      zplMaxLengthValue := value;
      return Success(());
    }
  }
}
