/** Swift's `Optional`, the only wrapper the modelled code uses. */
module Optional {

  datatype Option<+T> = None | Some(value: T)

}
