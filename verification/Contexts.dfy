/** Cancellable contexts, as objects that cancel functions share. */
module Contexts {

  class Context {
    var cancelled: bool

    constructor ()
      ensures !cancelled
    {
      cancelled := false;
    }
  }
}
