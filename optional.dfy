/** Swift optionals (`T?`). Equality is the one Swift uses for `Optional`:
    `nil == nil`, and `nil` differs from every present value. */
module Optional {

  datatype Option<T> = None | Some(value: T)

}
