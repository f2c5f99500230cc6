/** The optional value used throughout: absent entries, nil pointers and refused inputs. */
module Options {
  datatype Option<+T> = None | Some(value: T)
}
