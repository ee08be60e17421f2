/** What every part of the engine names objects by. */
module Objects {

  /** An object id, ordered as its bytes are. */
  type Oid = int

  datatype Kind = Commit | Tree | Blob | Tag

  /** Where an entry of a push's packs sits: which pack, and at which place in it. */
  datatype WireRef = WireRef(pack: nat, at: nat)

  datatype Option<T> = None | Some(value: T)
}
