/** The nullable references of the benchmark (a cached payload, an exception
    cause) are modelled with this Some/None datatype. */
module Optional {

  datatype Option<+T> = None | Some(value: T)

}
