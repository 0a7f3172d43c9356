/** The request and response messages of the content API, reduced to the
    parts the service reads and writes. `W` is a raw field attribute, `G` a
    content entry and `CG` a collection in response form. */
module Api {
  import opened Results
  import opened Fields

  datatype ContentPaginateRequest = ContentPaginateRequest(
    contentType: string,
    page: Option<int>,
    order: Option<string>)

  datatype StoreContentRequest<W> = StoreContentRequest(
    name: string,
    identifier: string,
    contentType: string,
    contentFields: seq<RequestField<W>>)

  datatype UpdateContentRequest<W> = UpdateContentRequest(
    contentId: string,
    name: string,
    contentType: string,
    contentFields: seq<RequestField<W>>)

  datatype PutContentIdentifierRequest = PutContentIdentifierRequest(
    contentId: string,
    identifier: string,
    contentType: string)

  datatype GetContentRequest = GetContentRequest(contentType: string, contentId: string)

  datatype StoreCollectionRequest = StoreCollectionRequest(name: string, identifier: string)

  datatype UpdateCollectionRequest = UpdateCollectionRequest(id: string, name: string, identifier: string)

  datatype GetCollectionRequest = GetCollectionRequest(collectionId: string)

  /** The `{status, data}` envelope around one entity. */
  datatype EntityResponse<G> = EntityResponse(status: bool, data: Option<G>)

  datatype ContentPagination = ContentPagination(total: int)

  datatype ContentPaginateData<G> = ContentPaginateData(pagination: Option<ContentPagination>, data: seq<G>)

  datatype ContentPaginateResponse<G> = ContentPaginateResponse(status: bool, data: Option<ContentPaginateData<G>>)

  datatype DeleteContentResponse = DeleteContentResponse(status: bool)

  datatype CollectionAllResponse<CG> = CollectionAllResponse(status: bool, data: seq<CG>)
}
