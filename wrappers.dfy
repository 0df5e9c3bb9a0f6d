/** Option and Result, the stand-ins for Java's null and for thrown exceptions. */
module Wrappers {

  datatype Option<+T> = None | Some(value: T)

  /** The exceptions the library raises, by kind. */
  datatype Error =
    | Rl(message: string)            // RlException with a message
    | Wrapped                        // RlException wrapping another exception
    | Usage(message: string)         // RlException.Usage
    | IO                             // RlException.IO wrapping an IOException
    | Runtime(message: string)       // a plain RuntimeException
    | NullPointer                    // NullPointerException
    | NumberFormat                   // NumberFormatException from Integer.parseInt / Long.parseLong
    | ClassCast                      // ClassCastException from an unchecked cast
    | IllegalArgument                // IllegalArgumentException from reflective access to a field of another class

  datatype Result<+T> = Ok(value: T) | Err(error: Error)
}
