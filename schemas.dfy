/** Request and response schemas of the vector database client:
    status codes, record properties, query validators and the collection
    serializer. Pydantic's validation machinery is reduced to the checks
    that the validators themselves perform. */
module Schemas {
  import opened Base

  // ---------------------------------------------------------------------
  // Status codes of the store's JSON responses

  datatype StatusCode = Success | InternalError | DataError | DataDuplication

  /** The integer each status code stands for on the wire. */
  function CodeOf(s: StatusCode): (c: int)
    ensures 2000 <= c < 4000
  {
    match s
    case Success => 2000
    case InternalError => 3140
    case DataError => 3160
    case DataDuplication => 3161
  }

  /** The status code an integer denotes, if any. */
  function FromCode(c: int): (r: Option<StatusCode>)
    ensures r.Some? <==> c in {2000, 3140, 3160, 3161}
    ensures r.Some? ==> CodeOf(r.value) == c
    ensures r == Some(Success) <==> c == 2000
  {
    if c == 2000 then Some(Success)
    else if c == 3140 then Some(InternalError)
    else if c == 3160 then Some(DataError)
    else if c == 3161 then Some(DataDuplication)
    else None
  }

  lemma CodeRoundTrip(s: StatusCode)
    ensures FromCode(CodeOf(s)) == Some(s)
  {
  }

  // ---------------------------------------------------------------------
  // Records

  type DocId = string

  /** A record pushed to the store: the `doc_id` and `text` given at
      construction. */
  datatype Record = Record(docId: DocId, text: string)

  /** The `properties()` dictionary of a record. */
  function Properties(r: Record): (p: map<string, string>)
    ensures p.Keys == {"doc_id", "text"}
    ensures p["doc_id"] == r.docId && p["text"] == r.text
  {
    map["doc_id" := r.docId, "text" := r.text]
  }

  /** Reads a record back from a properties dictionary. */
  function FromProperties(p: map<string, string>): Option<Record>
  {
    if "doc_id" in p && "text" in p then Some(Record(p["doc_id"], p["text"])) else None
  }

  lemma PropertiesRoundTrip(r: Record)
    ensures FromProperties(Properties(r)) == Some(r)
  {
  }

  // ---------------------------------------------------------------------
  // Filters and retrieval configuration

  /** The `value` of a filter: a list of strings or a single string. */
  datatype FilterValue = Many(items: seq<string>) | One(text: string)
  {
    /** Python's `len(value)`: list length, or character count of a string. */
    function Len(): nat {
      match this
      case Many(items) => |items|
      case One(text) => |text|
    }
  }

  datatype Operator = Equal | ContainsAny

  datatype Filter = Filter(fieldName: string, value: FilterValue, op: Operator)

  /** The assertion a validator raises, with the offending value its
      message embeds. */
  datatype ValidationError =
    | ListTooLong(items: seq<string>)
    | LimitOutOfRange(limit: int)
    | TooManyDocIdFilters(count: nat)

  /** `Filter.value_validator`: a list value must have fewer than 100
      elements; a string value is not checked. */
  function ValidateFilterValue(v: FilterValue): (r: Result<FilterValue, ValidationError>)
    ensures r.Ok? <==> (v.Many? ==> |v.items| < 100)
    ensures r.Ok? ==> r.value == v
    ensures r.Err? ==> r.error == ListTooLong(v.items)
  {
    if v.Many? && |v.items| >= 100 then Err(ListTooLong(v.items)) else Ok(v)
  }

  /** `_RetrievalConfig.limit_validator`: accepted iff 1 <= limit < 100. */
  function ValidateLimit(v: int): (r: Result<int, ValidationError>)
    ensures r.Ok? <==> 1 <= v < 100
    ensures r.Ok? ==> r.value == v
    ensures r.Err? ==> r.error == LimitOutOfRange(v)
  {
    if v >= 1 && v < 100 then Ok(v) else Err(LimitOutOfRange(v))
  }

  // ---------------------------------------------------------------------
  // Query parameters

  datatype QueryParam = QueryParam(query: string, filters: seq<Filter>, limit: int)

  /** What one filter adds to the doc-id count. */
  function DocIdWeight(f: Filter): nat {
    if f.fieldName != "doc_id" then 0
    else match f.op
      case Equal => 1
      case ContainsAny => f.value.Len()
  }

  /** The doc-id count of a filter list, accumulated left to right. */
  function DocIdCount(filters: seq<Filter>): nat {
    if filters == [] then 0
    else DocIdCount(filters[..|filters| - 1]) + DocIdWeight(filters[|filters| - 1])
  }

  lemma {:induction false} DocIdCountAppend(a: seq<Filter>, b: seq<Filter>)
    ensures DocIdCount(a + b) == DocIdCount(a) + DocIdCount(b)
    decreases |b|
  {
    if b == [] {
      assert a + b == a;
    } else {
      assert (a + b)[..|a + b| - 1] == a + b[..|b| - 1];
      DocIdCountAppend(a, b[..|b| - 1]);
    }
  }

  /** Only the `doc_id` filters of a list, in order. */
  function DocIdFilters(filters: seq<Filter>): (r: seq<Filter>)
    ensures forall f :: f in r <==> f in filters && f.fieldName == "doc_id"
  {
    if filters == [] then []
    else
      var last := filters[|filters| - 1];
      DocIdFilters(filters[..|filters| - 1]) + (if last.fieldName == "doc_id" then [last] else [])
  }

  /** Filters on fields other than `doc_id` do not contribute to the count. */
  lemma {:induction false} DocIdCountIgnoresOtherFields(filters: seq<Filter>)
    ensures DocIdCount(filters) == DocIdCount(DocIdFilters(filters))
    decreases |filters|
  {
    if filters != [] {
      var init, last := filters[..|filters| - 1], filters[|filters| - 1];
      DocIdCountIgnoresOtherFields(init);
      if last.fieldName == "doc_id" {
        DocIdCountAppend(DocIdFilters(init), [last]);
        assert [last][..0] == [];
      } else {
        assert DocIdFilters(filters) == DocIdFilters(init) + [];
        assert DocIdFilters(init) + [] == DocIdFilters(init);
      }
    }
  }

  /** When every filter is an `equal` filter on `doc_id`, the count is
      the number of filters. */
  lemma {:induction false} DocIdCountOfEqualFilters(filters: seq<Filter>)
    requires forall f :: f in filters ==> f.fieldName == "doc_id" && f.op == Equal
    ensures DocIdCount(filters) == |filters|
    decreases |filters|
  {
    if filters != [] {
      DocIdCountOfEqualFilters(filters[..|filters| - 1]);
    }
  }

  /** The loop of `QueryParam.value_validator`, which accumulates
      `doc_id_filter_num`. */
  method CountDocIdFilters(filters: seq<Filter>) returns (n: nat)
    ensures n == DocIdCount(filters)
  {
    n := 0;
    var i := 0;
    while i < |filters|
      invariant 0 <= i <= |filters|
      invariant n == DocIdCount(filters[..i])
    {
      var item := filters[i];
      assert filters[..i + 1][..i] == filters[..i];
      if item.fieldName != "doc_id" {
        i := i + 1;
        continue;
      }
      if item.op == Equal {
        n := n + 1;
      } else if item.op == ContainsAny {
        n := n + item.value.Len();
      }
      i := i + 1;
    }
    assert filters[..i] == filters;
  }

  /** `QueryParam.value_validator`: a query is valid only if its doc-id
      count is at most 100. */
  method ValidateQueryParam(q: QueryParam) returns (r: Result<QueryParam, ValidationError>)
    ensures r.Ok? <==> DocIdCount(q.filters) <= 100
    ensures r.Ok? ==> r.value == q
    ensures r.Err? ==> r.error == TooManyDocIdFilters(DocIdCount(q.filters))
  {
    var n := CountDocIdFilters(q.filters);
    if n <= 100 {
      r := Ok(q);
    } else {
      r := Err(TooManyDocIdFilters(n));
    }
  }

  /** Whether pydantic accepts a whole query: every filter value, the
      limit, and the doc-id count must pass their validators. */
  predicate QueryAccepted(q: QueryParam) {
    && (forall f :: f in q.filters ==> ValidateFilterValue(f.value).Ok?)
    && ValidateLimit(q.limit).Ok?
    && DocIdCount(q.filters) <= 100
  }

  /** A single `contains_any` filter on `doc_id` is accepted exactly when
      it lists fewer than 100 ids: the filter validator is the binding
      check, the count check allows one more. */
  lemma SingleContainsAnyFilter(ids: seq<string>, query: string, limit: int)
    requires 1 <= limit < 100
    ensures QueryAccepted(QueryParam(query, [Filter("doc_id", Many(ids), ContainsAny)], limit))
        <==> |ids| < 100
  {
    var fs := [Filter("doc_id", Many(ids), ContainsAny)];
    assert fs[..0] == [];
    assert DocIdCount(fs) == |ids|;
  }

  // ---------------------------------------------------------------------
  // Collections

  datatype FieldType = Text | Keyword | Int | Bool

  datatype CollectionField = CollectionField(dataType: FieldType, name: string)

  datatype Collection = Collection(collectionName: string, extraFields: seq<CollectionField>)

  /** A serialized JSON value of the collection dictionary. */
  datatype Json = JString(s: string) | JFields(fields: seq<CollectionField>)

  /** `Collection.serializer`: exactly `collection_name` and
      `extra_field_schemas`, the latter being the renamed `extra_fields`. */
  function Serialize(c: Collection): (m: map<string, Json>)
    ensures m.Keys == {"collection_name", "extra_field_schemas"}
    ensures "extra_fields" !in m
    ensures m["collection_name"] == JString(c.collectionName)
    ensures m["extra_field_schemas"] == JFields(c.extraFields)
  {
    map["collection_name" := JString(c.collectionName),
        "extra_field_schemas" := JFields(c.extraFields)]
  }

  /** Reads a collection back from its serialized dictionary. */
  function Deserialize(m: map<string, Json>): Option<Collection>
  {
    if "collection_name" in m && "extra_field_schemas" in m
       && m["collection_name"].JString? && m["extra_field_schemas"].JFields?
    then Some(Collection(m["collection_name"].s, m["extra_field_schemas"].fields))
    else None
  }

  lemma SerializeRoundTrip(c: Collection)
    ensures Deserialize(Serialize(c)) == Some(c)
  {
  }
}
