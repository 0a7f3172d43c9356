/** The pagination window and the sort order that `content_paginate` hands to
    the content repository. */
module Pagination {
  import opened Results
  import opened Text

  /** Page size of every paginated listing. */
  const PER_PAGE: int := 10

  /** A sort request for the repository: column name and direction, both
      passed on as text. */
  datatype OrderBy = OrderBy(column: string, direction: string)

  /** The order used when the request does not give a usable one. */
  const DEFAULT_ORDER: OrderBy := OrderBy("id", "desc")

  /** The separator between column and direction in a combined order string. */
  const ORDER_SEPARATOR: char := ':'

  /** The row offset at which a (zero-based) page starts; an absent page is
      page 0. The offset is not clamped: a negative page gives a negative
      offset. */
  function StartOffset(page: Option<int>): (start: int)
    ensures start % PER_PAGE == 0
    ensures start / PER_PAGE == page.UnwrapOr(0)
    ensures page.None? ==> start == 0
    ensures start < 0 <==> page.UnwrapOr(0) < 0
  {
    page.UnwrapOr(0) * PER_PAGE
  }

  /** The order named by an optional `"column:direction"` string. A string
      with exactly one separator names the text on either side of it,
      verbatim; an absent or empty string, or one with no separator or with
      several, gives `DEFAULT_ORDER`. */
  function ParseOrder(order: Option<string>): (r: OrderBy)
    ensures forall i :: SoleSeparatorAt(order.UnwrapOr(""), ORDER_SEPARATOR, i) ==>
      r == OrderBy(order.UnwrapOr("")[..i], order.UnwrapOr("")[i + 1..])
    ensures Occurrences(order.UnwrapOr(""), ORDER_SEPARATOR) != 1 ==> r == DEFAULT_ORDER
  {
    var text := order.UnwrapOr("");
    SplitCount(text, ORDER_SEPARATOR);
    TwoPartsAtSoleSeparator(text);
    if text == "" then DEFAULT_ORDER
    else
      var parts := Split(text, ORDER_SEPARATOR);
      if |parts| == 2 then OrderBy(parts[0], parts[1]) else DEFAULT_ORDER
  }

  /** Every sole separator position splits `text` into the two pieces around it. */
  lemma TwoPartsAtSoleSeparator(text: string)
    ensures forall i :: SoleSeparatorAt(text, ORDER_SEPARATOR, i) ==>
      Split(text, ORDER_SEPARATOR) == [text[..i], text[i + 1..]]
  {
    forall i | SoleSeparatorAt(text, ORDER_SEPARATOR, i)
      ensures Split(text, ORDER_SEPARATOR) == [text[..i], text[i + 1..]]
    {
      SplitAtSoleSeparator(text, ORDER_SEPARATOR, i);
    }
  }

  /** An order string with exactly one separator is never replaced by the
      default: it names the text around that separator. */
  lemma OrderWithOneSeparator(text: string)
    requires Occurrences(text, ORDER_SEPARATOR) == 1
    ensures exists i ::
              && SoleSeparatorAt(text, ORDER_SEPARATOR, i)
              && ParseOrder(Some(text)) == OrderBy(text[..i], text[i + 1..])
  {
    SoleSeparatorExists(text, ORDER_SEPARATOR);
  }

  /** Sample order strings and their edge cases. */
  lemma OrderExamples()
    ensures ParseOrder(None) == DEFAULT_ORDER
    ensures ParseOrder(Some("")) == DEFAULT_ORDER
    ensures ParseOrder(Some("name:asc")) == OrderBy("name", "asc")
    ensures ParseOrder(Some(":")) == OrderBy("", "")
    ensures ParseOrder(Some("name")) == DEFAULT_ORDER
    ensures ParseOrder(Some("a:b:c")) == DEFAULT_ORDER
  {
    assert SoleSeparatorAt("name:asc", ORDER_SEPARATOR, 4);
    assert "name:asc"[..4] == "name" && "name:asc"[5..] == "asc";
    assert SoleSeparatorAt(":", ORDER_SEPARATOR, 0);
    assert multiset("name")[ORDER_SEPARATOR] == 0;
    assert "a:b:c" == "a:b" + ":c";
    assert multiset("a:b:c")[ORDER_SEPARATOR] == 2;
  }
}
