/** The models the service hands to the repositories, and the count the
    repositories return. */
module Models {
  import opened Fields

  /** A count computed by the repository. */
  datatype ModelCount = ModelCount(total: int)

  /** A stored timestamp; the service only ever produces the type's default
      value. */
  datatype Timestamp = DefaultTimestamp | Instant(ticks: int)

  /** What the content repository needs to insert a content entry. */
  datatype CreatableContentModel<K> = CreatableContentModel(
    name: string,
    identifier: string,
    loggedInUsername: string,
    contentType: string,
    contentFields: seq<ContentField<K>>)

  /** What the content repository needs to replace a content entry. */
  datatype UpdatableContentModel<K> = UpdatableContentModel(
    id: string,
    name: string,
    loggedInUsername: string,
    updatedAt: Timestamp,
    contentType: string,
    updatedBy: string,
    contentFields: seq<ContentField<K>>)

  /** What the content repository needs to rename a content entry's
      identifier; it has no field list. */
  datatype PutContentIdentifierModel = PutContentIdentifierModel(
    id: string,
    loggedInUsername: string,
    identifier: string,
    contentType: string)

  /** What the collection repository needs to insert a collection. */
  datatype CreatableCollection = CreatableCollection(
    name: string,
    identifier: string,
    loggedInUsername: string)

  /** What the collection repository needs to update a collection. */
  datatype UpdatableCollection = UpdatableCollection(
    id: string,
    name: string,
    identifier: string,
    loggedInUsername: string)
}
