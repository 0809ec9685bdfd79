/** The lifecycle states of an Active-Record entity (the `EntityState` enum of TableEntity). */
module EntityStates {

  datatype EntityState = Initialized | New | Loaded | Deleted
}
