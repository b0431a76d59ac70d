/** The exceptions the interpreter's statements throw. Every statement catches its own
    exception and returns the exception's message as its output; the model returns the
    exception's kind, which stands for that message. */
module Faults {
  datatype Fault =
    | Plain             // `new Exception()`: a statement that may not run now, or no pattern matched
    | NullReference     // an undeclared name, or an OUTPUT segment that is no text
    | Format            // a malformed name or initializer
    | InvalidOperation  // an IF whose condition is null
    | EmptyStack        // Stack.Pop on an empty stack, in QuickMath's final Pop
    | InvalidEscape     // OUTPUT's "Invalid Escape Character!"
    | OutOfRange        // String.IndexOf given a start index past the end of the string
    | KeyNotFound       // a type name missing from the dataTypes dictionary
    | Binder            // `++` or `--` on a value whose run-time type has no such operator
    | ArgumentNull      // a parse of the null line Console.ReadLine returns at the end of input
    | Overflow          // Int32.Parse of an integer outside the 32-bit range
    | InvalidCast       // INPUT into a BOOL of a line other than TRUE or FALSE

  /** A value, or the exception that replaced it. */
  datatype Result<T> = Ok(value: T) | Err(fault: Fault)
}
