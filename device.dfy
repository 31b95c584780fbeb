/** The device control block the factory owns. */
module Device {

  /** The identity argument of the factory, by its Python type: absent, a
      device identification record (object id to value), or anything else. */
  datatype IdentityArg =
    | NoIdentity
    | Identification(objects: map<nat, string>)
    | OtherValue

  /** The identity a fresh control block reports. */
  const DefaultIdentity: map<nat, string> := map[]

  /** The device control block; only its identity is modelled. */
  class ControlBlock {
    var identity: map<nat, string>

    constructor ()
      ensures identity == DefaultIdentity
    {
      identity := DefaultIdentity;
    }

    /** Merges the supplied identification into the current one; supplied
        objects replace existing ones. */
    method UpdateIdentity(objects: map<nat, string>)
      modifies this
      ensures identity == old(identity) + objects
    {
      identity := identity + objects;
    }
  }
}
