/** The .NET exceptions that the modelled code can raise, and the outcome of a
    call that either returns a value or throws one of them. */
module Outcomes {

  datatype Exception =
    | OverflowException         // allocating an array of negative length
    | IndexOutOfRangeException  // reading or writing an array outside its bounds
    | ArgumentException         // Math.Clamp given a minimum above its maximum
    | NullReferenceException    // calling a method through a null reference

  datatype Outcome<+T> = Returned(value: T) | Threw(exception: Exception)
}
