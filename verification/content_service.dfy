/** The content service: it turns API requests into repository models,
    calls the repository, and wraps what comes back in a response envelope.

    Each operation takes the repository it uses (the service's `self`) and
    the conversions it relies on as arguments: `conv` for request fields,
    `toGrpc` for turning a stored model into its response form. */
module ContentService {
  import opened Results
  import opened Fields
  import opened Pagination
  import opened Models
  import opened Repositories
  import opened Api

  /** `r` is the response the service gives for the repository outcome
      `stored`: a stored model converts to a `status: true` envelope around
      its response form; an error from the repository or from the conversion
      is returned unchanged. */
  ghost predicate Relays<M, G, E>(stored: Result<M, E>, toGrpc: M -> Result<G, E>, r: Result<EntityResponse<G>, E>) {
    && (r.Ok? <==> stored.Ok? && toGrpc(stored.value).Ok?)
    && (r.Ok? ==> r.value.status && r.value.data == Some(toGrpc(stored.value).value))
    && (stored.Err? ==> r == Err(stored.error))
    && (stored.Ok? && toGrpc(stored.value).Err? ==> r == Err(toGrpc(stored.value).error))
  }

  /** Shape a repository outcome into a single-entity response. */
  function Respond<M, G, E>(stored: Result<M, E>, toGrpc: M -> Result<G, E>): (r: Result<EntityResponse<G>, E>)
    ensures Relays(stored, toGrpc, r)
  {
    var model :- stored;
    var grpc :- toGrpc(model);
    Ok(EntityResponse(true, Some(grpc)))
  }

  /** Convert every model of a listing whose conversions are known to
      succeed (the service unwraps them). */
  function ConvertEach<M, G, E>(models: seq<M>, toGrpc: M -> Result<G, E>): (grpc: seq<G>)
    requires forall i :: 0 <= i < |models| ==> toGrpc(models[i]).Ok?
    ensures |grpc| == |models|
    ensures forall i :: 0 <= i < |models| ==> toGrpc(models[i]) == Ok(grpc[i])
    decreases |models|
  {
    if |models| == 0 then []
    else [toGrpc(models[0]).value] + ConvertEach(models[1..], toGrpc)
  }

  // ---------------------------------------------------------------------
  // Collections

  /** Every collection the repository lists converts to response form. */
  ghost predicate CollectionsConvert<C, CG, E>(repo: CollectionRepository<C, E>, toGrpc: C -> Result<CG, E>) {
    var listed := repo.allCollection();
    listed.Ok? ==> forall i :: 0 <= i < |listed.value| ==> toGrpc(listed.value[i]).Ok?
  }

  /** List every collection: the repository's list, converted one by one
      and in the same order, inside a `status: true` envelope. */
  function CollectionAll<C, CG, E>(repo: CollectionRepository<C, E>, toGrpc: C -> Result<CG, E>): (r: Result<CollectionAllResponse<CG>, E>)
    requires CollectionsConvert(repo, toGrpc)
    ensures r.Ok? <==> repo.allCollection().Ok?
    ensures r.Err? ==> r.error == repo.allCollection().error
    ensures r.Ok? ==>
              && r.value.status
              && |r.value.data| == |repo.allCollection().value|
              && forall i :: 0 <= i < |r.value.data| ==>
                   toGrpc(repo.allCollection().value[i]) == Ok(r.value.data[i])
  {
    var models :- repo.allCollection();
    Ok(CollectionAllResponse(true, ConvertEach(models, toGrpc)))
  }

  /** `m` is the insert model for `request` made by `user`. */
  ghost predicate CollectionCreatableFrom(request: StoreCollectionRequest, user: string, m: CreatableCollection) {
    m.name == request.name && m.identifier == request.identifier && m.loggedInUsername == user
  }

  /** Create a collection stamped with the acting user. */
  function StoreCollection<C, CG, E>(request: StoreCollectionRequest, user: string, repo: CollectionRepository<C, E>, toGrpc: C -> Result<CG, E>): (r: Result<EntityResponse<CG>, E>)
    ensures exists m :: CollectionCreatableFrom(request, user, m) && Relays(repo.createCollection(m), toGrpc, r)
  {
    var creatable := CreatableCollection(request.name, request.identifier, user);
    assert CollectionCreatableFrom(request, user, creatable);
    Respond(repo.createCollection(creatable), toGrpc)
  }

  /** `m` is the update model for `request` made by `user`. */
  ghost predicate CollectionUpdatableFrom(request: UpdateCollectionRequest, user: string, m: UpdatableCollection) {
    m.id == request.id && m.name == request.name && m.identifier == request.identifier && m.loggedInUsername == user
  }

  /** Update a collection's name and identifier, stamped with the acting user. */
  function UpdateCollection<C, CG, E>(request: UpdateCollectionRequest, user: string, repo: CollectionRepository<C, E>, toGrpc: C -> Result<CG, E>): (r: Result<EntityResponse<CG>, E>)
    ensures exists m :: CollectionUpdatableFrom(request, user, m) && Relays(repo.updateCollection(m), toGrpc, r)
  {
    var updatable := UpdatableCollection(request.id, request.name, request.identifier, user);
    assert CollectionUpdatableFrom(request, user, updatable);
    Respond(repo.updateCollection(updatable), toGrpc)
  }

  /** Fetch one collection by id. */
  function GetCollection<C, CG, E>(request: GetCollectionRequest, repo: CollectionRepository<C, E>, toGrpc: C -> Result<CG, E>): (r: Result<EntityResponse<CG>, E>)
    ensures Relays(repo.findById(request.collectionId), toGrpc, r)
  {
    Respond(repo.findById(request.collectionId), toGrpc)
  }

  // ---------------------------------------------------------------------
  // Content

  /** The page the repository returns for the request's content type,
      window start and order. */
  function RequestedPage<K, M, E>(request: ContentPaginateRequest, repo: ContentRepository<K, M, E>): Result<seq<M>, E> {
    var order := ParseOrder(request.order);
    repo.paginate(request.contentType, StartOffset(request.page), order.column, order.direction)
  }

  /** Every entry of the requested page converts to response form. */
  ghost predicate PageConverts<K, M, G, E>(request: ContentPaginateRequest, repo: ContentRepository<K, M, E>, toGrpc: M -> Result<G, E>) {
    var page := RequestedPage(request, repo);
    page.Ok? ==> forall i :: 0 <= i < |page.value| ==> toGrpc(page.value[i]).Ok?
  }

  /** `r` is the pagination envelope for a content type holding `total`
      entries, of which the repository returned `page`. */
  ghost predicate PageEnvelope<M, G, E>(r: ContentPaginateResponse<G>, total: int, page: seq<M>, toGrpc: M -> Result<G, E>) {
    && r.status
    && r.data.Some?
    && r.data.value.pagination == Some(ContentPagination(total))
    && |r.data.value.data| == |page|
    && forall i :: 0 <= i < |page| ==> toGrpc(page[i]) == Ok(r.data.value.data[i])
  }

  /** One page of a content type's entries: the total is counted first, then
      the page at `StartOffset(request.page)` in `ParseOrder(request.order)`
      is fetched; the first repository error is returned. */
  function ContentPaginate<K, M, G, E>(request: ContentPaginateRequest, repo: ContentRepository<K, M, E>, toGrpc: M -> Result<G, E>): (r: Result<ContentPaginateResponse<G>, E>)
    requires repo.getTotalCount(request.contentType).Ok? ==> PageConverts(request, repo, toGrpc)
    ensures r.Ok? <==> repo.getTotalCount(request.contentType).Ok? && RequestedPage(request, repo).Ok?
    ensures repo.getTotalCount(request.contentType).Err? ==>
              r == Err(repo.getTotalCount(request.contentType).error)
    ensures repo.getTotalCount(request.contentType).Ok? && RequestedPage(request, repo).Err? ==>
              r == Err(RequestedPage(request, repo).error)
    ensures r.Ok? ==>
              PageEnvelope(r.value, repo.getTotalCount(request.contentType).value.total, RequestedPage(request, repo).value, toGrpc)
  {
    var totalCount :- repo.getTotalCount(request.contentType);
    var models :- RequestedPage(request, repo);
    var data := ContentPaginateData(Some(ContentPagination(totalCount.total)), ConvertEach(models, toGrpc));
    Ok(ContentPaginateResponse(true, Some(data)))
  }

  /** `m` is the insert model for `request` made by `user`: name, identifier
      and content type copied, the user stamped, the fields converted in
      order. */
  ghost predicate ContentCreatableFrom<W, K, E>(request: StoreContentRequest<W>, user: string, conv: FieldConversions<W, K, E>, m: CreatableContentModel<K>) {
    && m.name == request.name
    && m.identifier == request.identifier
    && m.contentType == request.contentType
    && m.loggedInUsername == user
    && MirrorsAll(conv, request.contentFields, m.contentFields)
  }

  /** Create a content entry. Every field must convert before the
      repository is called; the first field that does not is the error. */
  function StoreContent<W, K(!new), M, G, E>(request: StoreContentRequest<W>, user: string, conv: FieldConversions<W, K, E>,
                                       repo: ContentRepository<K, M, E>, toGrpc: M -> Result<G, E>): (r: Result<EntityResponse<G>, E>)
    ensures r.Ok? ==> AllConvert(conv, request.contentFields)
    ensures !AllConvert(conv, request.contentFields) ==> r.Err? && FirstFieldError(conv, request.contentFields, r.error)
    ensures AllConvert(conv, request.contentFields) ==>
              exists m :: ContentCreatableFrom(request, user, conv, m) && Relays(repo.createContent(m), toGrpc, r)
  {
    var fields :- ConvertAll(conv, request.contentFields);
    var creatable := CreatableContentModel(request.name, request.identifier, user, request.contentType, fields);
    assert ContentCreatableFrom(request, user, conv, creatable);
    Respond(repo.createContent(creatable), toGrpc)
  }

  /** Fetch one content entry by content type and id. */
  function GetContent<K, M, G, E>(request: GetContentRequest, repo: ContentRepository<K, M, E>, toGrpc: M -> Result<G, E>): (r: Result<EntityResponse<G>, E>)
    ensures Relays(repo.findById(request.contentType, request.contentId), toGrpc, r)
  {
    Respond(repo.findById(request.contentType, request.contentId), toGrpc)
  }

  /** `m` is the replacement model for `request` made by `user`: the entry's
      id, name and content type copied, the user stamped, `updated_by` empty,
      `updated_at` the default timestamp, the fields converted in order. */
  ghost predicate ContentUpdatableFrom<W, K, E>(request: UpdateContentRequest<W>, user: string, conv: FieldConversions<W, K, E>, m: UpdatableContentModel<K>) {
    && m.id == request.contentId
    && m.name == request.name
    && m.contentType == request.contentType
    && m.loggedInUsername == user
    && m.updatedBy == ""
    && m.updatedAt == DefaultTimestamp
    && MirrorsAll(conv, request.contentFields, m.contentFields)
  }

  /** Replace a content entry. Every field must convert before the
      repository is called; the first field that does not is the error. */
  function UpdateContent<W, K(!new), M, G, E>(request: UpdateContentRequest<W>, user: string, conv: FieldConversions<W, K, E>,
                                        repo: ContentRepository<K, M, E>, toGrpc: M -> Result<G, E>): (r: Result<EntityResponse<G>, E>)
    ensures r.Ok? ==> AllConvert(conv, request.contentFields)
    ensures !AllConvert(conv, request.contentFields) ==> r.Err? && FirstFieldError(conv, request.contentFields, r.error)
    ensures AllConvert(conv, request.contentFields) ==>
              exists m :: ContentUpdatableFrom(request, user, conv, m) && Relays(repo.updateContent(m), toGrpc, r)
  {
    var fields :- ConvertAll(conv, request.contentFields);
    var updatable := UpdatableContentModel(request.contentId, request.name, user, DefaultTimestamp, request.contentType, "", fields);
    assert ContentUpdatableFrom(request, user, conv, updatable);
    Respond(repo.updateContent(updatable), toGrpc)
  }

  /** `m` is the rename model for `request` made by `user`. */
  ghost predicate RenameFrom(request: PutContentIdentifierRequest, user: string, m: PutContentIdentifierModel) {
    && m.id == request.contentId
    && m.identifier == request.identifier
    && m.contentType == request.contentType
    && m.loggedInUsername == user
  }

  /** Rename a content entry's identifier. */
  function PutContentIdentifier<K, M, G, E>(request: PutContentIdentifierRequest, user: string,
                                            repo: ContentRepository<K, M, E>, toGrpc: M -> Result<G, E>): (r: Result<EntityResponse<G>, E>)
    ensures exists m :: RenameFrom(request, user, m) && Relays(repo.updateContentIdentifier(m), toGrpc, r)
  {
    var model := PutContentIdentifierModel(request.contentId, user, request.identifier, request.contentType);
    assert RenameFrom(request, user, model);
    Respond(repo.updateContentIdentifier(model), toGrpc)
  }

  /** Delete a content entry; the response's status is the repository's
      answer, and a repository error is returned unchanged. */
  function DeleteContent<K, M, E>(contentId: string, contentType: string, repo: ContentRepository<K, M, E>): (r: Result<DeleteContentResponse, E>)
    ensures r.Ok? <==> repo.deleteContent(contentId, contentType).Ok?
    ensures r.Ok? ==> r.value.status == repo.deleteContent(contentId, contentType).value
    ensures r.Err? ==> r.error == repo.deleteContent(contentId, contentType).error
  {
    var deleted :- repo.deleteContent(contentId, contentType);
    Ok(DeleteContentResponse(deleted))
  }

  // ---------------------------------------------------------------------
  // Properties relating several operations or several calls

  /** A field that fails to convert aborts `store_content` with that field's
      error, whatever the repository would have done: the repository is not
      consulted. */
  lemma StoreContentAbortsOnFirstFailure<W, K(!new), M, G, E>(request: StoreContentRequest<W>, user: string, conv: FieldConversions<W, K, E>,
                                                        repo: ContentRepository<K, M, E>, toGrpc: M -> Result<G, E>, k: int, e: E)
    requires FailsFirstAt(conv, request.contentFields, k, e)
    ensures StoreContent(request, user, conv, repo, toGrpc) == Err(e)
  {
  }

  /** The same for `update_content`. */
  lemma UpdateContentAbortsOnFirstFailure<W, K(!new), M, G, E>(request: UpdateContentRequest<W>, user: string, conv: FieldConversions<W, K, E>,
                                                         repo: ContentRepository<K, M, E>, toGrpc: M -> Result<G, E>, k: int, e: E)
    requires FailsFirstAt(conv, request.contentFields, k, e)
    ensures UpdateContent(request, user, conv, repo, toGrpc) == Err(e)
  {
  }

  /** The insert model is fully determined by the request, the user and the
      conversions. */
  lemma ContentCreatableDetermined<W, K, E>(request: StoreContentRequest<W>, user: string, conv: FieldConversions<W, K, E>,
                                            m1: CreatableContentModel<K>, m2: CreatableContentModel<K>)
    requires ContentCreatableFrom(request, user, conv, m1) && ContentCreatableFrom(request, user, conv, m2)
    ensures m1 == m2
  {
  }

  /** The replacement model is fully determined by the request, the user and
      the conversions: nothing of a previous version of the entry leaks in. */
  lemma ContentUpdatableDetermined<W, K, E>(request: UpdateContentRequest<W>, user: string, conv: FieldConversions<W, K, E>,
                                            m1: UpdatableContentModel<K>, m2: UpdatableContentModel<K>)
    requires ContentUpdatableFrom(request, user, conv, m1) && ContentUpdatableFrom(request, user, conv, m2)
    ensures m1 == m2
  {
  }

  /** A request without an order, or with an empty one, asks the repository
      for the page in the default order, id descending. */
  lemma PaginateDefaultOrder<K, M, E>(request: ContentPaginateRequest, repo: ContentRepository<K, M, E>)
    requires request.order.None? || request.order == Some("")
    ensures RequestedPage(request, repo) == repo.paginate(request.contentType, StartOffset(request.page), "id", "desc")
  {
  }
}
