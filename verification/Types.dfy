/** Values shared by every component of the model. */
module Types {

  datatype Option<+T> = None | Some(value: T)

  /**
    * Container and column family names. The program itself uses three: "default", the family
    * RocksDB creates in every database, and "metadata_default" and "metadata_containers",
    * under which it indexes the two families of the metadata partition. Client stands for
    * every other string.
    */
  datatype Name = Default | MetadataDefault | MetadataContainers | Client(text: string)

  function NameOf(s: string): (n: Name)
  {
    if s == "default" then Default
    else if s == "metadata_default" then MetadataDefault
    else if s == "metadata_containers" then MetadataContainers
    else Client(s)
  }

  /** No two strings are one name, and the program's own three are what they say. */
  lemma NamesOfStrings(s: string, t: string)
    ensures NameOf(s) == NameOf(t) <==> s == t
    ensures NameOf("default") == Default && NameOf("metadata_default") == MetadataDefault
    ensures NameOf("metadata_containers") == MetadataContainers
  {
  }

  predicate Reserved(n: Name) {
    n.MetadataDefault? || n.MetadataContainers?
  }

  datatype Status =
    | Success
    | ContainerNotExists
    | ContainerAlreadyExists
    | ContainerInDeletionProcess
    | MaxNumberContainersReached
    | ContainerCreationFailed
    | ContainerInsertionCollision
    | ContainerStorageEngineDeletionFailed
    | ObjectInsertionFailed
    | ObjectDeletionFailed
    | StorageEngineReferenceNotApproved
    | StorageEngineReferenceUnexpectedlyApproved
    | NullEngineReferenceNonOrphanedContainer
    | UnexpectedStorageEngine
    | StorageEngineStartupFailed
    | FetchContainersFromDiskFailed
    | ObjectRetrievalFailed
    | DuplicateEngineReferences
    | InvalidNumberEngineReferences
    | MissingContainerOnDataPartitions
    | UnexpectedMetadataPartitionNumberContainers
    | ContainersInternalMetadataLookupFailed
    | ObjectDataSizeExceedsCacheLimit

  /**
    * A column family handle: the partition whose engine handed it out, the name of the
    * family and the engine's number for it, which is never used twice. An engine opens one
    * handle for a family in a session, so two handles are equal exactly if they are one.
    */
  datatype Ref = Ref(part: nat, name: Name, cf: int)

  /** One slot of a container: the partition it belongs to and its handle, if it has one. */
  datatype Instance = Instance(part: nat, ref: Option<Ref>)

  datatype Container = Container(name: Name, instances: seq<Instance>, deleted: bool)
}
