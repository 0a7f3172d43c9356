# AvoRed CMS content service, modelled in Dafny

This project models `ContentService`, the adaptation layer of the AvoRed Rust
CMS that sits between the content API and the content and collection
repositories. For each use case the service does three things. It turns the
API request into a repository model, stamping the acting user. It calls one
repository operation. It wraps the result in a `{status, data}` response.
Three parts of it carry real logic:

- **Pagination.** The request's optional page (default 0) becomes a start
  offset of `page * PER_PAGE` with `PER_PAGE = 10`. The optional combined
  `"column:direction"` order string is split on `:`. Exactly two pieces give
  the column and direction verbatim; anything else gives `("id", "desc")`.
- **All-or-nothing field conversion.** In `store_content` and
  `update_content` each field's data type, field type, field content and field
  data are converted in that order. The first failure aborts the operation
  before the repository is called. On success the converted list mirrors the
  request and every field carries its data.
- **Stamping and pass-through.**
  - The acting user is stamped as `logged_in_username`.
  - An update always carries `updated_by = ""` and the default `updated_at`.
  - A rename carries no fields.
  - Repository results go into the response unchanged: the delete flag, the
    pagination total, and the page in its order.

Files:

- `results.dfy`: `Result` and `Option` (the `:-` operator stands for Rust's `?`), and a first-error predicate.
- `text.dfy`: Rust's `str::split` on one character, with round-trip and counting lemmas.
- `pagination.dfy`: start offset and order parsing.
- `fields.dfy`: request fields, stored fields, and the fallible conversion.
- `models.dfy`, `repositories.dfy`, `api.dfy`: the repository models, the repository interfaces and the API messages.
- `content_service.dfy`: the service operations and the lemmas that relate them.

Parts of the system that are not shown are parameters of the model:

- Repositories are datatypes of functions that return `Result`. Nothing is
  assumed about storage: no uniqueness, no not-found behaviour, no ordering.
- The `try_into` conversions are functions passed in as arguments.
- The types of raw and converted field attributes, stored models, response
  models and errors are type parameters.

"The repository is not called" is stated as independence. When a field fails
to convert, the result is that field's error for every repository.

The code does not check the order column. When the string splits into
exactly two pieces, both go to the repository verbatim, with no allow-list and
no case normalisation, so `":"` gives the order `("", "")`.

## Model

| member | source | states |
|---|---|---|
| Text.Split | src/services/content_service.rs:65 | splitting on `:` always yields at least one piece and no piece contains the separator |
| Text.SplitJoin | src/services/content_service.rs:65 | joining the pieces with the separator gives back the original string, so splitting loses no text |
| Text.SplitCount | src/services/content_service.rs:66 | the number of pieces is the number of separators plus one, so "two parts" means exactly one `:` |
| Text.SplitAtSoleSeparator | src/services/content_service.rs:65-69 | a string with exactly one separator splits into the text before it and the text after it |
| Text.SoleSeparatorExists | src/services/content_service.rs:66 | a string with exactly one `:` has a position where that colon is the only one |
| Pagination.StartOffset | src/services/content_service.rs:57-61 | the start offset is a multiple of the page size 10, divides back to the page (default 0), is 0 with no page, and is negative exactly when the page is (no clamping) |
| Pagination.ParseOrder | src/services/content_service.rs:59-70 | at the sole `:` of the order string the result is the text before and after it verbatim; with an absent or empty string, or zero or several colons, the result is ("id", "desc") |
| Pagination.OrderWithOneSeparator | src/services/content_service.rs:64-69 | every order string with exactly one colon is used as given and never replaced by the default |
| Pagination.OrderExamples | src/services/content_service.rs:59-70 | absent and "" give ("id","desc"); "name:asc" gives ("name","asc"); ":" gives ("",""); "name" and "a:b:c" fall back to the default |
| Fields.ConvertField | src/services/content_service.rs:119-126 | a field converts iff all four attributes do; then name and identifier are copied, each attribute is its converted value and the field data is `Some`; otherwise the error is that of the first failing attribute in the order data type, field type, field content, field data |
| Fields.ConvertAll | src/services/content_service.rs:115-127 | the list converts iff every field does, and then the result has the same length and order with each field mirrored; otherwise the error is that of the first failing field in request order |
| Fields.FirstFieldErrorUnique | src/services/content_service.rs:117-126 | the reported first-field error is unique, so the error clause of the field-list conversion fixes the error |
| ContentService.Respond | src/services/content_service.rs:139-146 | a stored model becomes a `status: true` response carrying its converted form; a repository or conversion error is returned unchanged |
| ContentService.ConvertEach | src/services/content_service.rs:84-90 | the unwrapped conversion of a listing has the same length and order, element by element |
| ContentService.CollectionAll | src/services/content_service.rs:19-41 | succeeds iff the repository listing does; the response has status true and the listing converted in the same order; a listing error is returned unchanged |
| ContentService.ContentPaginate | src/services/content_service.rs:43-106 | the total is counted first and its error wins; then the page at the parsed window and order is fetched; on success status is true, pagination.total is the repository total and data is the page converted in the same length and order |
| ContentService.PaginateDefaultOrder | src/services/content_service.rs:58-82 | with no order or an empty one the repository is asked for the page ordered by "id", "desc" |
| ContentService.StoreContent | src/services/content_service.rs:108-147 | succeeds only if every field converts; if any does not, fails with the first field's error; otherwise the repository is called with name, identifier and content type copied, the user stamped and the fields mirrored, and its result is relayed |
| ContentService.StoreContentAbortsOnFirstFailure | src/services/content_service.rs:115-138 | when field k is the first unconvertible one, the result is exactly its error whatever the repository is, so create_content is never consulted |
| ContentService.ContentCreatableDetermined | src/services/content_service.rs:129-135 | the insert model is fully determined by the request, the acting user and the conversions |
| ContentService.GetContent | src/services/content_service.rs:149-168 | the repository's lookup by content type and id is relayed into the response |
| ContentService.UpdateContent | src/services/content_service.rs:170-214 | as StoreContent, with the repository model carrying id = content id, the user stamped, updated_by = "", the default updated_at and the fields mirrored |
| ContentService.UpdateContentAbortsOnFirstFailure | src/services/content_service.rs:177-205 | when field k is the first unconvertible one, update_content returns exactly its error whatever the repository is |
| ContentService.ContentUpdatableDetermined | src/services/content_service.rs:191-199 | the replacement model is fully determined by the request, user and conversions; no request value can change updated_by or updated_at |
| ContentService.PutContentIdentifier | src/services/content_service.rs:216-239 | the rename model carries only id, identifier, content type and the stamped user (no fields), and the repository's result is relayed |
| ContentService.GetCollection | src/services/content_service.rs:241-258 | the repository's lookup by collection id is relayed into the response |
| ContentService.StoreCollection | src/services/content_service.rs:260-283 | the repository is called with name and identifier copied and the acting user stamped, and its result is relayed |
| ContentService.UpdateCollection | src/services/content_service.rs:286-310 | the repository is called with id, name and identifier copied and the acting user stamped, and its result is relayed |
| ContentService.DeleteContent | src/services/content_service.rs:333-348 | succeeds iff the repository delete does; the response status is exactly the repository's boolean; its error is returned unchanged |

## Left out

- Repository internals (`content_repository`, `collection_repository`) are not part of this model. Each repository operation is an arbitrary function returning a value or an error. No storage semantics are assumed.
- The `try_into` conversions are not part of this model: the field-attribute conversions and the conversions from stored model to response model. They are arbitrary fallible functions. The four raw field attributes share one abstract type, and so do the four converted ones.
- ContentService.CollectionAll: the `.unwrap()` on each converted collection is a precondition that every listed collection converts. The model does not include the panic.
- ContentService.ContentPaginate: the `.unwrap()` on each converted page entry is a precondition that every entry of the requested page converts. It applies only when the total count succeeds, because a count error is returned before the page is fetched. The model does not include the panic.
- Pagination.StartOffset: uses unbounded integers. It does not model the i64 overflow of `page * per_page` for pages beyond about 9.2 * 10^17.
- The commented-out `paginate` (src/services/content_service.rs:351-432) is left out. It is dead code.
- `count_of_identifier` and `count_of_collection` are left out. Each is a one-line direct delegation to the content or collection repository, and the service adds nothing to the result.
- `ContentService::new` is left out. It is a constructor that only stores the two repositories.
- async execution and the shared database handle are left out. Every operation is a pure function of its request, the acting user, the repository and the conversions.
- `src/main.rs` is server bootstrap. Only its `PER_PAGE` constant is used.
- `src/services/cms_service.rs` is left out. It covers the contact-form email, which is SMTP and template I/O, and a one-line repository lookup.
- The admin UI hooks under `ts-grpc-react-admin` are left out. They are client-side network and UI code.
- `updated_at` is modelled as a `Timestamp` with a distinguished `DefaultTimestamp`. The real date-time type and its default value are not part of this model.
