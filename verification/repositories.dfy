/** The two repositories the service delegates to. Their storage semantics
    are not part of this model: each operation is a function that returns a
    value or an error. `K` is the converted field attribute type, `M` the
    stored content model, `C` the stored collection model, `E` the error. */
module Repositories {
  import opened Results
  import opened Models

  datatype ContentRepository<!K, M, E> = ContentRepository(
    getTotalCount: string -> Result<ModelCount, E>,
    /** content type, start offset, order column, order direction */
    paginate: (string, int, string, string) -> Result<seq<M>, E>,
    createContent: CreatableContentModel<K> -> Result<M, E>,
    /** content type, content id */
    findById: (string, string) -> Result<M, E>,
    updateContent: UpdatableContentModel<K> -> Result<M, E>,
    updateContentIdentifier: PutContentIdentifierModel -> Result<M, E>,
    /** content id, content type */
    deleteContent: (string, string) -> Result<bool, E>)

  datatype CollectionRepository<C, E> = CollectionRepository(
    allCollection: () -> Result<seq<C>, E>,
    findById: string -> Result<C, E>,
    createCollection: CreatableCollection -> Result<C, E>,
    updateCollection: UpdatableCollection -> Result<C, E>)
}
