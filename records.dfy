/**
 * The external entities the identity map handles without owning them:
 * persisted records, identified by their class and their id, and the
 * exceptions that the map or its collaborators can raise.
 */
module Records {

  /** A model class, named as the program names it (`Person`, `Friend`, ...). */
  type ClassName = string

  /** A record id: a key of which only equality matters. */
  type Id = string

  /**
   * A record object. It is a reference type on purpose: the identity map
   * exists so that two finds of the same row return the same object, and
   * Dafny's reference equality is that object identity.
   */
  class Record {
    const klass: ClassName
    const id: Id

    constructor (klass: ClassName, id: Id)
      ensures this.klass == klass && this.id == id
    {
      this.klass := klass;
      this.id := id;
    }
  }

  /** Exceptions that travel through the identity map. */
  datatype Exception =
    | ArgumentError(message: string)
    | CollaboratorError(name: string)  // raised by the finder or by persistence

  /** How a Ruby call ends: it returns a value or it raises. */
  datatype Outcome<+T> = Returned(value: T) | Raised(error: Exception)
}
