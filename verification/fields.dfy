/** Content fields and their all-or-nothing conversion from the request's
    wire form to the form the content repository stores.

    The conversions themselves (the `try_into` implementations for a field's
    data type, field type, field content and field data) are not part of this
    model: they are given as functions that may fail. `W` is the type of a
    raw attribute as the request carries it, `K` the type of a converted one,
    `E` the error type. */
module Fields {
  import opened Results

  /** A content field as it arrives in a store or update request. */
  datatype RequestField<W> = RequestField(
    name: string,
    identifier: string,
    dataType: W,
    fieldType: W,
    fieldContent: W,
    fieldData: W)

  /** A content field as it is handed to the repository (the shape shared by
      `CreatableContentField` and `UpdatableContentField`). */
  datatype ContentField<K> = ContentField(
    name: string,
    identifier: string,
    dataType: K,
    fieldType: K,
    fieldContent: K,
    fieldData: Option<K>)

  /** The four fallible attribute conversions. */
  datatype FieldConversions<!W, K, E> = FieldConversions(
    dataType: W -> Result<K, E>,
    fieldType: W -> Result<K, E>,
    fieldContent: W -> Result<K, E>,
    fieldData: W -> Result<K, E>)

  /** The conversions of one field's attributes, in the order they are tried. */
  function Attempts<W, K, E>(conv: FieldConversions<W, K, E>, f: RequestField<W>): (steps: seq<Result<K, E>>)
    ensures |steps| == 4
  {
    [conv.dataType(f.dataType), conv.fieldType(f.fieldType),
     conv.fieldContent(f.fieldContent), conv.fieldData(f.fieldData)]
  }

  /** Every attribute of `f` converts. */
  ghost predicate Converts<W, K, E>(conv: FieldConversions<W, K, E>, f: RequestField<W>) {
    && conv.dataType(f.dataType).Ok?
    && conv.fieldType(f.fieldType).Ok?
    && conv.fieldContent(f.fieldContent).Ok?
    && conv.fieldData(f.fieldData).Ok?
  }

  /** Every field of `fs` converts. */
  ghost predicate AllConvert<W, K, E>(conv: FieldConversions<W, K, E>, fs: seq<RequestField<W>>) {
    forall i :: 0 <= i < |fs| ==> Converts(conv, fs[i])
  }

  /** `c` is `f` with its name and identifier copied and each attribute
      replaced by its converted value; the field data is always present. */
  ghost predicate Mirrors<W, K, E>(conv: FieldConversions<W, K, E>, f: RequestField<W>, c: ContentField<K>) {
    && c.name == f.name
    && c.identifier == f.identifier
    && conv.dataType(f.dataType) == Ok(c.dataType)
    && conv.fieldType(f.fieldType) == Ok(c.fieldType)
    && conv.fieldContent(f.fieldContent) == Ok(c.fieldContent)
    && c.fieldData.Some?
    && conv.fieldData(f.fieldData) == Ok(c.fieldData.value)
  }

  /** `cs` mirrors `fs` field by field, in the same order. */
  ghost predicate MirrorsAll<W, K, E>(conv: FieldConversions<W, K, E>, fs: seq<RequestField<W>>, cs: seq<ContentField<K>>) {
    |cs| == |fs| && forall i :: 0 <= i < |fs| ==> Mirrors(conv, fs[i], cs[i])
  }

  /** Field `k` is the first of `fs` that does not convert, and `e` is the
      error of its first failing attribute. */
  ghost predicate FailsFirstAt<W, K, E>(conv: FieldConversions<W, K, E>, fs: seq<RequestField<W>>, k: int, e: E) {
    && 0 <= k < |fs|
    && (forall j :: 0 <= j < k ==> Converts(conv, fs[j]))
    && FirstErrorIs(Attempts(conv, fs[k]), e)
  }

  /** `e` is the error that the first unconvertible field of `fs` reports. */
  ghost predicate FirstFieldError<W, K, E>(conv: FieldConversions<W, K, E>, fs: seq<RequestField<W>>, e: E) {
    exists k :: FailsFirstAt(conv, fs, k, e)
  }

  /** Convert one field: data type, field type, field content, then field
      data; the first failure is the result. */
  function ConvertField<W, K, E>(conv: FieldConversions<W, K, E>, f: RequestField<W>): (r: Result<ContentField<K>, E>)
    ensures r.Ok? <==> Converts(conv, f)
    ensures r.Ok? ==> Mirrors(conv, f, r.value)
    ensures r.Err? ==> FirstErrorIs(Attempts(conv, f), r.error)
  {
    var steps := Attempts(conv, f);
    assert OkBefore(steps, 0);
    var dataType :- conv.dataType(f.dataType);
    var fieldType :- (assert OkBefore(steps, 1); conv.fieldType(f.fieldType));
    var fieldContent :- (assert OkBefore(steps, 2); conv.fieldContent(f.fieldContent));
    var fieldData :- (assert OkBefore(steps, 3); conv.fieldData(f.fieldData));
    Ok(ContentField(f.name, f.identifier, dataType, fieldType, fieldContent, Some(fieldData)))
  }

  /** Convert every field in request order. The first field that fails stops
      the conversion and its error is the result; otherwise the converted
      list mirrors the request. */
  function ConvertAll<W, K, E>(conv: FieldConversions<W, K, E>, fs: seq<RequestField<W>>): (r: Result<seq<ContentField<K>>, E>)
    ensures r.Ok? <==> AllConvert(conv, fs)
    ensures r.Ok? ==> MirrorsAll(conv, fs, r.value)
    ensures r.Err? ==> FirstFieldError(conv, fs, r.error)
    decreases |fs|
  {
    if |fs| == 0 then Ok([])
    else
      match ConvertField(conv, fs[0])
      case Err(e) =>
        assert FailsFirstAt(conv, fs, 0, e);
        Err(e)
      case Ok(head) =>
        var tail := fs[1..];
        match ConvertAll(conv, tail)
        case Err(e) =>
          assert forall k :: FailsFirstAt(conv, tail, k, e) ==> FailsFirstAt(conv, fs, k + 1, e);
          Err(e)
        case Ok(rest) =>
          assert forall i :: 1 <= i < |fs| ==> fs[i] == tail[i - 1];
          Ok([head] + rest)
  }

  /** The first failing field, and so the error it reports, is unique. */
  lemma FirstFieldErrorUnique<W, K, E>(conv: FieldConversions<W, K, E>, fs: seq<RequestField<W>>, e1: E, e2: E)
    requires FirstFieldError(conv, fs, e1) && FirstFieldError(conv, fs, e2)
    ensures e1 == e2
  {
  }
}
