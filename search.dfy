/**
 * The search hook (`useSearch`): a query cell and the results it selects from
 * the store's todos. A blank query selects every todo unchanged; any other
 * query is handed to the fuzzy matcher, whose answer is a list of positions
 * in the indexed todos (its scoring is not part of this model).
 */
module Search {
  import opened Database
  import opened Strings

  /**
   * `results`: the todos themselves when the trimmed query is empty,
   * otherwise the matched todos in the matcher's order. `hits` is the
   * matcher's answer for this query, as positions in `items`.
   */
  function Results(items: seq<Todo>, query: string, hits: seq<nat>): (r: seq<Todo>)
    requires !IsBlank(query) ==> forall j :: 0 <= j < |hits| ==> hits[j] < |items|
    ensures IsBlank(query) ==> r == items
    ensures !IsBlank(query) ==> |r| == |hits| && forall j :: 0 <= j < |r| ==> r[j] == items[hits[j]]
    ensures forall j :: 0 <= j < |r| ==> r[j] in items
  {
    if Trim(query) == [] then items
    else seq(|hits|, j requires 0 <= j < |hits| => items[hits[j]])
  }

  /**
   * The query starts empty, so the first results are the todos themselves;
   * the same holds for every query made only of whitespace, whatever the
   * matcher would have answered.
   */
  lemma BlankQueryShowsEverything(items: seq<Todo>, query: string, hits: seq<nat>)
    requires IsBlank(query)
    ensures Results(items, query, hits) == items
    ensures Results(items, "", hits) == items
  {
  }

  /** The hook's only state: the query as last typed. */
  class SearchState {
    var query: string

    constructor ()
      ensures query == ""
    {
      query := "";
    }

    /** `setQuery`: stores the value verbatim; trimming is only used for the blank test. */
    method SetQuery(value: string)
      modifies this
      ensures query == value
    {
      query := value;
    }
  }
}
