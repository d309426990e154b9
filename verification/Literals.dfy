// Composite literals of Go, as both analyses of Go code read them.
module Literals {
  // How the keys of a composite literal's type are read: as field names, or as values (a map or an array).
  datatype Keys = Fields | Entries
}
