/** The shared server datastore: one object every connection reaches
    through the factory. */
module Datastore {
  import opened Messages

  /** The server context: the unit data addressed by unit identifier. One
      object shared by reference by all connections. */
  class ServerContext {
    var slaves: map<UnitId, SlaveContext>
    /** The Python truth value of the object, which decides whether the
        factory keeps it or replaces it with an empty one. */
    const truthy: bool

    constructor (slaves: map<UnitId, SlaveContext>, truthy: bool)
      ensures this.slaves == slaves && this.truthy == truthy
    {
      this.slaves := slaves;
      this.truthy := truthy;
    }

    /** An empty context, as built with no arguments. */
    constructor Empty()
      ensures slaves == map[] && truthy
    {
      slaves := map[];
      truthy := true;
    }
  }
}
