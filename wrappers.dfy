/** Failure-compatible result types shared by the model's modules. The C++ source
    reports failures by throwing `std::exception`; the model returns them instead. */
module Wrappers {

  datatype Option<T> = None | Some(value: T)

  datatype Result<T, E> = Success(value: T) | Failure(error: E)
}
