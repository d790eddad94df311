/** The Elasticsearch client as the connector sees it: every request it is
    handed is appended to an ordered log, and the admin side keeps the set of
    index names that exist. Waiting for a future or for cluster health is an
    explicit "await" entry in the log rather than elapsed time. */
module EsClient {
  import opened JavaModel
  import QueryBuilder

  /** One `name -> value` entry of an indexed document's source. */
  datatype SourceEntry = SourceEntry(name: string, value: string)

  /** An index operation of a bulk request. */
  datatype IndexOp = IndexOp(index: string, docType: string, id: string, source: seq<SourceEntry>)

  /** One sub-field of a `multi_field` property. */
  datatype SubField = SubField(name: string, index: string, store: string, dataType: string)

  /** A property of a type mapping; the connector only writes `multi_field`s. */
  datatype Property = MultiField(name: string, fields: seq<SubField>)

  /** The mapping of one document type. */
  datatype Mapping = Mapping(docType: string, properties: seq<Property>)

  datatype SortOrder = Asc | Desc

  /** A field sort of a search request, by the path it sorts on. */
  datatype FieldSort = FieldSort(path: string, order: SortOrder)

  /** A search request: the index searched, the query, the document types,
      the sort clauses and the page size. */
  datatype SearchRequest = SearchRequest(index: string, query: QueryBuilder.EsQuery, types: seq<string>,
                                         sorts: seq<FieldSort>, size: int32)

  datatype Request =
    | DeleteDocument(index: string, docType: string, id: string)
    | Bulk(ops: seq<IndexOp>)
    | AwaitBulk
    | Refresh(indices: seq<string>)
    | AwaitRefresh
    | IndicesExists(index: string)
    | CreateIndex(index: string, mapping: Mapping)
    | AwaitYellow(index: string)
    | DeleteIndex(index: string)
    | Search(request: SearchRequest)

  /** A request that does not change which indices exist. */
  predicate IsDataRequest(r: Request) {
    !r.IndicesExists? && !r.CreateIndex? && !r.DeleteIndex?
  }

  class Client {
    var log: seq<Request>
    var indices: set<string>
    /** Whether the engine acknowledges a create-index request. */
    const acknowledgesCreate: bool

    constructor(existing: set<string>, acknowledges: bool)
      ensures log == [] && indices == existing && acknowledgesCreate == acknowledges
    {
      log := [];
      indices := existing;
      acknowledgesCreate := acknowledges;
    }

    /** Executes a request that leaves the set of indices alone. */
    method Send(r: Request)
      requires IsDataRequest(r)
      modifies this
      ensures log == old(log) + [r]
      ensures indices == old(indices)
    {
      log := log + [r];
    }

    /** The indices-exists request and its answer. */
    method Exists(index: string) returns (b: bool)
      modifies this
      ensures b <==> index in old(indices)
      ensures log == old(log) + [IndicesExists(index)]
      ensures indices == old(indices)
    {
      log := log + [IndicesExists(index)];
      b := index in indices;
    }

    /** The create-index request; the index exists afterwards exactly when
        the engine acknowledges it. */
    method Create(index: string, mapping: Mapping) returns (acknowledged: bool)
      modifies this
      ensures acknowledged == acknowledgesCreate
      ensures log == old(log) + [CreateIndex(index, mapping)]
      ensures indices == if acknowledged then old(indices) + {index} else old(indices)
    {
      log := log + [CreateIndex(index, mapping)];
      acknowledged := acknowledgesCreate;
      if acknowledged {
        indices := indices + {index};
      }
    }

    /** The delete-index request; it fails when the index does not exist. */
    method Remove(index: string) returns (found: bool)
      modifies this
      ensures found <==> index in old(indices)
      ensures log == old(log) + [DeleteIndex(index)]
      ensures indices == old(indices) - {index}
    {
      log := log + [DeleteIndex(index)];
      found := index in indices;
      indices := indices - {index};
    }
  }
}
