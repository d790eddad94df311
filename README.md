# Elasticsearch backend for Hibernate Search, modelled in Dafny

This project models the core of the hibernate-search-elasticsearch-connector. The connector replaces Hibernate Search's Lucene directory with an Elasticsearch cluster. It has seven parts.

- **Query translation** (`query_builder.dfy`). A Lucene query tree (boolean groups, wildcards, other nodes known only by their text) becomes match-all, one flat `bool` container, a wildcard on a field's `_raw` twin, or a `query_string`. `booleanQuery` is an imperative method running over a `BoolQueryBuilder` class. It is proved against a pure translation, and that translation carries the properties: flattening, occur placement, order and shape.
- **Work dispatch** (`backend_queue.dfy`). A list of Lucene works becomes:
  - one delete request per Delete, sent as the loop reaches it;
  - one index operation per Add in a single bulk request;
  - in debug mode, a wait on the bulk and a refresh of one index per work.

  The engine is a `Client` object with an ordered request log and a set of existing indices (`es_client.dfy`).
- **Batch write queue** (`batch_queue.dfy`). This is a class with a work buffer, a one-shot timer and ghost bookkeeping. The bookkeeping proves that the flushed batches followed by the buffer are exactly the works enqueued. The class also has the Monitor, whose `long` total wraps at 64 bits.
- **Schema management** (`index_manager.dfy`). It covers the Java-to-ES type table, the `multi_field` mapping loop, `createIndex` (one class and a list of classes), `deleteIndex` and `recreateIndex`, each against the client's index set.
- **Read path** (`hs_query.dfy`). It covers:
  - search request construction: document types, the first entity's index, sorts on `n.n_raw`, and the page size;
  - the shard-failure check;
  - hit decoding, including `Long.parseLong` of ids.
- **Helpers** (`search_utils.dfy`, `elastic_search_utils.dfy`). These are index-name defaults (`"55social"` on the read side, `"esdefaultindex"` on the write side) and the superclass walk that finds the `@Id` field.
- **Supporting files.** `java_model.dfy` holds Java classes as records, the exceptions, and `long` wrap-around. `mock_entity.dfy` runs the tests' `MockEntity` through the model.

Five behaviours of the code are worth stating outright, because a reader might expect otherwise; the model follows the code in each:
- the batch timer is one-shot (scheduled once per `start`), not periodic;
- every `@Field` becomes a `multi_field` with a raw twin, whatever its tokenization;
- deletes are sent outside the bulk request;
- no wait has a timeout;
- `stop` does not refuse later enqueues.

## Model


| member | source | states |
|---|---|---|
| JavaModel.ClassForName | src/main/java/org/hibernate/search/elasticsearch/SearchUtils.java:39-45 | Class.forName succeeds exactly for a registered name; otherwise the error is ClassNotFound of that name; in a well-formed registry the class found has that name |
| JavaModel.ClassForNameOfOwnName | src/main/java/org/hibernate/search/elasticsearch/SearchUtils.java:39-45 | looking up a registered class by its own name returns that class |
| JavaModel.DeclaredField | src/main/java/org/hibernate/search/elasticsearch/ElasticsearchQueryBuilder.java:92 | getDeclaredField finds the first declared field of the name, and nothing exactly when no field has it |
| JavaModel.LastIndexOf | src/main/java/org/hibernate/search/elasticsearch/ElasticsearchIndexManager.java:150 | lastIndexOf gives -1 or a position holding the character with none after it |
| JavaModel.WrapLong | src/main/java/org/hibernate/search/elasticsearch/ElasticsearchBatchBackendQueue.java:140 | two's-complement wrap lands in the long range and is the identity there |
| JavaModel.WrapLongAdd | src/main/java/org/hibernate/search/elasticsearch/ElasticsearchBatchBackendQueue.java:140 | wrapping after each addition equals wrapping the exact sum once |
| SearchUtils.GetIndexName | src/main/java/org/hibernate/search/elasticsearch/SearchUtils.java:26-33 | a declared non-empty index name is returned as is, an empty one becomes "55social", and a class without @Indexed raises |
| SearchUtils.GetClassByName | src/main/java/org/hibernate/search/elasticsearch/SearchUtils.java:39-45 | fails exactly for an unknown name, with ClassNotFound of it |
| SearchUtils.FirstIdIn | src/main/java/org/hibernate/search/elasticsearch/SearchUtils.java:71-75 | the first @Id field of one class in declaration order, or none when it declares none |
| SearchUtils.FirstIdPosition | src/main/java/org/hibernate/search/elasticsearch/SearchUtils.java:69-77 | the found field is @Id, every class before it in the chain has no @Id field, and no earlier field of its class is @Id; none means no class of the chain has one |
| SearchUtils.GetFieldId | src/main/java/org/hibernate/search/elasticsearch/SearchUtils.java:68-80 | the nested do-while/for walk returns the first @Id field of the nearest class declaring one, or NoIdProperty naming the type |
| SearchUtils.GetIdName | src/main/java/org/hibernate/search/elasticsearch/SearchUtils.java:51-53 | the name of the field getFieldId finds, failing exactly when it fails |
| SearchUtils.GetIdType | src/main/java/org/hibernate/search/elasticsearch/SearchUtils.java:59-61 | the declared type of that same field, failing exactly when it fails |
| SearchUtils.SubclassIdWins | src/main/java/org/hibernate/search/elasticsearch/SearchUtils.java:69-77 | a subclass's own first @Id field is chosen over every superclass's |
| SearchUtils.NoIdFieldFails | src/main/java/org/hibernate/search/elasticsearch/SearchUtils.java:77-79 | the lookup fails exactly when no class below Object declares an @Id field, and then names the type |
| ElasticSearchUtils.GetIndexName | src/main/java/org/hibernate/search/elasticsearch/ElasticSearchUtils.java:24-31 | a declared non-empty index name is returned as is, an empty one becomes "esdefaultindex", and a class without @Indexed raises |
| ElasticSearchUtils.GetClassByName | src/main/java/org/hibernate/search/elasticsearch/ElasticSearchUtils.java:37-43 | fails exactly for an unknown name, with ClassNotFound of it |
| ElasticSearchUtils.GetFieldId | src/main/java/org/hibernate/search/elasticsearch/ElasticSearchUtils.java:65-79 | a null type raises IllegalArgument with the Validate message; otherwise the same superclass walk as SearchUtils |
| ElasticSearchUtils.GetIdName | src/main/java/org/hibernate/search/elasticsearch/ElasticSearchUtils.java:49-51 | the name of the found @Id field, failing exactly when the walk fails |
| ElasticSearchUtils.GetIdType | src/main/java/org/hibernate/search/elasticsearch/ElasticSearchUtils.java:57-59 | the type of the found @Id field, failing exactly when the walk fails |
| ElasticSearchUtils.IndexNameDefaultsDiffer | src/main/java/org/hibernate/search/elasticsearch/ElasticSearchUtils.java:24-31 | the write and read helpers agree on every non-empty declared name and disagree on the empty one |
| QueryBuilder.BoolQueryBuilder.constructor | src/main/java/org/hibernate/search/elasticsearch/ElasticsearchQueryBuilder.java:50 | a new bool container has three empty clause lists |
| QueryBuilder.BoolQueryBuilder.Accur | src/main/java/org/hibernate/search/elasticsearch/ElasticsearchQueryBuilder.java:114-129 | the query is appended to exactly the list its occur names; the other two are unchanged |
| QueryBuilder.SelectPartition | src/main/java/org/hibernate/search/elasticsearch/ElasticsearchQueryBuilder.java:116-125 | every translated clause lands in exactly one of must, mustNot, should |
| QueryBuilder.SelectMembers | src/main/java/org/hibernate/search/elasticsearch/ElasticsearchQueryBuilder.java:116-125 | a query is under an occur exactly when a clause with that occur produced it |
| QueryBuilder.Positions | src/main/java/org/hibernate/search/elasticsearch/ElasticsearchQueryBuilder.java:116-125 | the queries under an occur come from strictly increasing clause positions covering every clause with that occur, so each list keeps clause order |
| QueryBuilder.TranslateWildcard | src/main/java/org/hibernate/search/elasticsearch/ElasticsearchQueryBuilder.java:88-107 | succeeds exactly when the entity declares the term's field with @Field; the result is a wildcard or a query_string |
| QueryBuilder.TranslateAllPointwise | src/main/java/org/hibernate/search/elasticsearch/ElasticsearchQueryBuilder.java:66-82 | the clause loop succeeds exactly when every leaf translates; then entry i is leaf i's occur and translation; otherwise the first failing leaf's error is raised |
| QueryBuilder.AddClauses | src/main/java/org/hibernate/search/elasticsearch/ElasticsearchQueryBuilder.java:64-83 | the recursive loop over the shared builder succeeds exactly when all leaves translate, raises the first leaf error, and on success appends exactly the leaves' translations under their occurs |
| QueryBuilder.Build | src/main/java/org/hibernate/search/elasticsearch/ElasticsearchQueryBuilder.java:42-58 | build returns the translation: match-all for "()", one bool container for a group, wildcard handling, else query_string |
| QueryBuilder.MatchAllByText | src/main/java/org/hibernate/search/elasticsearch/ElasticsearchQueryBuilder.java:44-46 | a query whose text is "()" is match-all, whatever its kind |
| QueryBuilder.OtherQueryFallsBack | src/main/java/org/hibernate/search/elasticsearch/ElasticsearchQueryBuilder.java:55-79 | a node that is neither group nor wildcard becomes query_string of its text, as a clause and at the top level |
| QueryBuilder.BoolContainerShape | src/main/java/org/hibernate/search/elasticsearch/ElasticsearchQueryBuilder.java:64-83 | a group becomes a bool container holding only wildcard and query_string clauses, as many as the tree has non-boolean nodes |
| QueryBuilder.OccurPlacement | src/main/java/org/hibernate/search/elasticsearch/ElasticsearchQueryBuilder.java:114-128 | a query is in the list of an occur exactly when some leaf with that occur translates to it |
| QueryBuilder.ClauseOrderPreserved | src/main/java/org/hibernate/search/elasticsearch/ElasticsearchQueryBuilder.java:64-83 | each list holds the translations of the leaves with its occur, all of them, in leaf order |
| QueryBuilder.NestedGroupFlattened | src/main/java/org/hibernate/search/elasticsearch/ElasticsearchQueryBuilder.java:67-70 | a non-empty nested group is flattened into the enclosing container, its clauses keep their occurs, and the enclosing occur is dropped |
| QueryBuilder.EmptyNestedGroupIgnored | src/main/java/org/hibernate/search/elasticsearch/ElasticsearchQueryBuilder.java:69-71 | a nested group without clauses contributes nothing and raises nothing |
| QueryBuilder.WildcardOnRawField | src/main/java/org/hibernate/search/elasticsearch/ElasticsearchQueryBuilder.java:97-99 | a wildcard on an UN_TOKENIZED field targets field + "_raw" with the term text unchanged |
| QueryBuilder.WildcardOnAnalyzedField | src/main/java/org/hibernate/search/elasticsearch/ElasticsearchQueryBuilder.java:100-102 | a wildcard on any other @Field field becomes query_string of the node's text |
| QueryBuilder.WildcardFieldErrors | src/main/java/org/hibernate/search/elasticsearch/ElasticsearchQueryBuilder.java:91-106 | a wildcard on an undeclared field raises NoSuchField of it; one on a declared field without @Field raises the NullPointer of the missing annotation |
| EsClient.Client.Send | src/main/java/org/hibernate/search/elasticsearch/ElasticSearchBackendQueue.java:185-186 | a data request is appended to the log and the index set is unchanged |
| EsClient.Client.Exists | src/main/java/org/hibernate/search/elasticsearch/ElasticsearchIndexManager.java:68-71 | the exists request is logged and answers whether the index exists |
| EsClient.Client.Create | src/main/java/org/hibernate/search/elasticsearch/ElasticsearchIndexManager.java:109-114 | the create request is logged, and the index exists afterwards exactly when the engine acknowledges it |
| EsClient.Client.Remove | src/main/java/org/hibernate/search/elasticsearch/ElasticsearchIndexManager.java:191-192 | the delete request is logged and the index no longer exists; it reports whether it did |
| BackendQueue.SourceOf | src/main/java/org/hibernate/search/elasticsearch/ElasticSearchBackendQueue.java:148-155 | one source entry per document field, name to string value, in field order |
| BackendQueue.IndexOpFor | src/main/java/org/hibernate/search/elasticsearch/ElasticSearchBackendQueue.java:135-169 | an Add becomes an index operation exactly when its entity is @Indexed |
| BackendQueue.DeleteFor | src/main/java/org/hibernate/search/elasticsearch/ElasticSearchBackendQueue.java:174-189 | a Delete becomes a delete request exactly when its entity is @Indexed |
| BackendQueue.RefreshIndices | src/main/java/org/hibernate/search/elasticsearch/ElasticSearchBackendQueue.java:96-99 | succeeds exactly when every work's entity is @Indexed, and then holds one index name per work, in order |
| BackendQueue.DispatchSucceeds | src/main/java/org/hibernate/search/elasticsearch/ElasticSearchBackendQueue.java:76-85 | the dispatch loop gets through exactly when every Add and Delete has an @Indexed entity; otherwise it fails on the missing annotation |
| BackendQueue.BulkHoldsAdds | src/main/java/org/hibernate/search/elasticsearch/ElasticSearchBackendQueue.java:76-78 | the bulk holds one index operation per Add, in the Adds' order, on the entity's index with class name, id and source |
| BackendQueue.DeletesInOrder | src/main/java/org/hibernate/search/elasticsearch/ElasticSearchBackendQueue.java:79-80 | one delete request per Delete, in the Deletes' order, naming index, class name and id |
| BackendQueue.DeletesAreDeleteRequests | src/main/java/org/hibernate/search/elasticsearch/ElasticSearchBackendQueue.java:184-186 | the loop itself only sends delete requests |
| BackendQueue.OtherWorkSkipped | src/main/java/org/hibernate/search/elasticsearch/ElasticSearchBackendQueue.java:81-84 | a work that is neither Add nor Delete has no effect wherever it stands |
| BackendQueue.RunLogShape | src/main/java/org/hibernate/search/elasticsearch/ElasticSearchBackendQueue.java:76-90 | a run that gets through sends all deletes first, then exactly one bulk, even without Adds, and no delete after it |
| BackendQueue.FailedRunSendsNoBulk | src/main/java/org/hibernate/search/elasticsearch/ElasticSearchBackendQueue.java:76-90 | a run whose loop fails sends only the deletes before the failing work and raises the missing-annotation error |
| BackendQueue.NoRefreshOutsideDebug | src/main/java/org/hibernate/search/elasticsearch/ElasticSearchBackendQueue.java:92-110 | outside debug mode nothing is refreshed or awaited, and the run fails only in the loop |
| BackendQueue.DebugRefreshesEveryWork | src/main/java/org/hibernate/search/elasticsearch/ElasticSearchBackendQueue.java:92-110 | in debug mode the bulk is awaited, then one refresh names one index per work in order, duplicates included, then that is awaited |
| BackendQueue.ElasticSearchBackendQueue.constructor | src/main/java/org/hibernate/search/elasticsearch/ElasticSearchBackendQueue.java:62-70 | the queue keeps the works, the client and the debug flag, and starts with an empty bulk |
| BackendQueue.ElasticSearchBackendQueue.HandleAdd | src/main/java/org/hibernate/search/elasticsearch/ElasticSearchBackendQueue.java:135-169 | the source-copying loop yields IndexOpFor of the work |
| BackendQueue.ElasticSearchBackendQueue.Delete | src/main/java/org/hibernate/search/elasticsearch/ElasticSearchBackendQueue.java:174-189 | sends DeleteFor of the work at once, or raises its error and sends nothing |
| BackendQueue.ElasticSearchBackendQueue.DispatchAll | src/main/java/org/hibernate/search/elasticsearch/ElasticSearchBackendQueue.java:76-85 | the loop sends the dispatched deletes and appends the dispatched operations to the bulk, stopping at the first error |
| BackendQueue.ElasticSearchBackendQueue.CollectIndices | src/main/java/org/hibernate/search/elasticsearch/ElasticSearchBackendQueue.java:96-99 | the array loop yields RefreshIndices of the works |
| BackendQueue.ElasticSearchBackendQueue.Run | src/main/java/org/hibernate/search/elasticsearch/ElasticSearchBackendQueue.java:73-116 | run appends RunLog to the client's log and ends as RunOutcome; the index set is unchanged |
| BatchQueue.ElasticsearchBatchBackendQueue.constructor | src/main/java/org/hibernate/search/elasticsearch/ElasticsearchBatchBackendQueue.java:48-58 | initialize takes the factory's client only when active; the buffer is empty and there is no timer |
| BatchQueue.ElasticsearchBatchBackendQueue.Flush | src/main/java/org/hibernate/search/elasticsearch/ElasticsearchBatchBackendQueue.java:104-108 | a debug-mode run over the whole buffer in order, then the buffer is cleared and recorded as one flushed batch; a failing run leaves it; no work lost or duplicated |
| BatchQueue.ElasticsearchBatchBackendQueue.EnqueueAsyncWork | src/main/java/org/hibernate/search/elasticsearch/ElasticsearchBatchBackendQueue.java:61-76 | while active, appends the work and flushes inline at 100, leaving fewer than 100 pending; while inactive, delegates and leaves the buffer alone |
| BatchQueue.ElasticsearchBatchBackendQueue.Stop | src/main/java/org/hibernate/search/elasticsearch/ElasticsearchBatchBackendQueue.java:88-91 | flushes the buffer, then cancels the timer; without a timer it raises after the flush |
| BatchQueue.ElasticsearchBatchBackendQueue.CancelTimer | src/main/java/org/hibernate/search/elasticsearch/ElasticsearchBatchBackendQueue.java:90 | cancelling discards the pending task; a missing timer is a null dereference |
| BatchQueue.ElasticsearchBatchBackendQueue.Start | src/main/java/org/hibernate/search/elasticsearch/ElasticsearchBatchBackendQueue.java:79-85 | an existing timer is stopped first; then exactly one one-shot flush is scheduled after 3000 ms |
| BatchQueue.ElasticsearchBatchBackendQueue.TimerFires | src/main/java/org/hibernate/search/elasticsearch/ElasticsearchBatchBackendQueue.java:83-84 | the scheduled task flushes once unless already run or cancelled |
| BatchQueue.Monitor.constructor | src/main/java/org/hibernate/search/elasticsearch/ElasticsearchBatchBackendQueue.java:115 | the total starts at 0 |
| BatchQueue.Monitor.AddToTotalCount | src/main/java/org/hibernate/search/elasticsearch/ElasticsearchBatchBackendQueue.java:139-142 | the total is the sum of all counts, wrapped as long addition wraps, and exactly the sum while it fits |
| BatchQueue.Monitor.IndexingCompleted | src/main/java/org/hibernate/search/elasticsearch/ElasticsearchBatchBackendQueue.java:145-148 | indexingCompleted has stop's whole effect: the buffer is flushed through one debug-mode run (logged on the client), cleared and recorded on success and kept on failure; the timer is then cancelled, and a missing timer raises NullPointer; the enqueued and delegated works are unchanged |
| BatchQueue.CreateMonitor | src/main/java/org/hibernate/search/elasticsearch/ElasticsearchBatchBackendQueue.java:96-121 | a new monitor starts the queue and exists exactly when that start succeeds, with a total of 0; start's whole effect is kept: a running timer is first stopped (its flush logged, the buffer cleared and recorded on success), the new timer is the one-shot schedule, and a failed start raises the flush's error and leaves timer and buffer as they were |
| IndexManager.NumberTypeIsSimpleName | src/main/java/org/hibernate/search/elasticsearch/ElasticsearchIndexManager.java:149-150 | a Number subclass maps to its lowercased simple name, which holds no '.' |
| IndexManager.BoxedNumberType | src/main/java/org/hibernate/search/elasticsearch/ElasticsearchIndexManager.java:149-150 | a java.lang Number class maps to its lowercased simple name |
| IndexManager.IntegerAgreesWithInt | src/main/java/org/hibernate/search/elasticsearch/ElasticsearchIndexManager.java:138-150 | Integer and int both map to "integer" |
| IndexManager.LongAgreesWithLong | src/main/java/org/hibernate/search/elasticsearch/ElasticsearchIndexManager.java:138-150 | Long and long both map to "long" |
| IndexManager.DoubleAgreesWithDouble | src/main/java/org/hibernate/search/elasticsearch/ElasticsearchIndexManager.java:138-150 | Double and double both map to "double" |
| IndexManager.ReferenceTypeTable | src/main/java/org/hibernate/search/elasticsearch/ElasticsearchIndexManager.java:146-156 | Date maps to "date", the supertypes of Boolean to "boolean", String and every other type to "string" |
| IndexManager.AnnotatedFields | src/main/java/org/hibernate/search/elasticsearch/ElasticsearchIndexManager.java:82-83 | exactly the declared fields carrying @Field |
| IndexManager.MappingHasAnnotatedFields | src/main/java/org/hibernate/search/elasticsearch/ElasticsearchIndexManager.java:82-101 | one multi_field per @Field field in declaration order, with f analyzed and f_raw not_analyzed, both stored and of the same type |
| IndexManager.BuildMapping | src/main/java/org/hibernate/search/elasticsearch/ElasticsearchIndexManager.java:74-104 | the field loop builds the mapping MappingOf keys under the class name |
| IndexManager.CreateIndexOf | src/main/java/org/hibernate/search/elasticsearch/ElasticsearchIndexManager.java:54-128 | the requests, resulting index set and outcome of createIndex for one class are those of CreateIndexStep |
| IndexManager.CreateIndexes | src/main/java/org/hibernate/search/elasticsearch/ElasticsearchIndexManager.java:41-48 | the list overload runs createIndex per class in order and stops at the first failure |
| IndexManager.DeleteIndexOf | src/main/java/org/hibernate/search/elasticsearch/ElasticsearchIndexManager.java:179-196 | deleteIndex sends one delete of the raw @Indexed name (or "") and never raises |
| IndexManager.RecreateIndex | src/main/java/org/hibernate/search/elasticsearch/ElasticsearchIndexManager.java:202-210 | delete, then createIndex against the index set without that index |
| IndexManager.NotIndexedSendsNothing | src/main/java/org/hibernate/search/elasticsearch/ElasticsearchIndexManager.java:63 | a class without @Indexed causes no request and no error |
| IndexManager.ExistingIndexSkipsCreate | src/main/java/org/hibernate/search/elasticsearch/ElasticsearchIndexManager.java:73-120 | an existing index is not created again, but its yellow health is still awaited |
| IndexManager.UnacknowledgedCreateFails | src/main/java/org/hibernate/search/elasticsearch/ElasticsearchIndexManager.java:116-125 | an unacknowledged create raises "cannot create the index" and no health wait follows |
| IndexManager.CreatedIndexExists | src/main/java/org/hibernate/search/elasticsearch/ElasticsearchIndexManager.java:109-120 | after a successful createIndex the index exists; existing indices stay |
| IndexManager.CreateTwiceCreatesOnce | src/main/java/org/hibernate/search/elasticsearch/ElasticsearchIndexManager.java:73-120 | one call sends at most one create, and a call after a successful one sends none |
| IndexManager.EmptyIndexNameDisagrees | src/main/java/org/hibernate/search/elasticsearch/ElasticsearchIndexManager.java:63-69 | for an empty @Indexed name, creation and deletion use "", writes "esdefaultindex" and searches "55social": three different indices |
| IndexManager.CreateAllCreatesEvery | src/main/java/org/hibernate/search/elasticsearch/ElasticsearchIndexManager.java:45-47 | when the list overload succeeds, the index of every @Indexed class in it exists |
| IndexManager.RecreateAlwaysCreates | src/main/java/org/hibernate/search/elasticsearch/ElasticsearchIndexManager.java:202-210 | recreate always sends a create request for an @Indexed class |
| IndexManager.WildcardTargetsRawSubField | src/main/java/org/hibernate/search/elasticsearch/ElasticsearchIndexManager.java:94-97 | the field a wildcard is sent to is the not_analyzed sub-field the mapping declares |
| HsQuery.ParseLong | src/main/java/org/hibernate/search/elasticsearch/ElasticSearchHSQueryImpl.java:155 | Long.parseLong yields a value in the long range or NumberFormatException of the text |
| HsQuery.NatToString | src/main/java/org/hibernate/search/elasticsearch/ElasticSearchHSQueryImpl.java:155 | a non-empty string of decimal digits |
| HsQuery.DigitsOfNat | src/main/java/org/hibernate/search/elasticsearch/ElasticSearchHSQueryImpl.java:155 | reading back the digits of a number gives the number |
| HsQuery.ParseLongToString | src/main/java/org/hibernate/search/elasticsearch/ElasticSearchHSQueryImpl.java:155 | parsing what Long.toString prints gives the long back |
| HsQuery.ParseLongRejectsFraction | src/main/java/org/hibernate/search/elasticsearch/ElasticSearchHSQueryImpl.java:155 | a string containing '.' is not a long |
| HsQuery.CreateId | src/main/java/org/hibernate/search/elasticsearch/ElasticSearchHSQueryImpl.java:144-159 | a String id field passes the id through; otherwise a number-like id is parsed as a long, failing exactly when parseLong fails; any other id stays a string; a parsable number-like id always becomes the long parseLong gives |
| HsQuery.LongIdRoundTrip | src/main/java/org/hibernate/search/elasticsearch/ElasticSearchHSQueryImpl.java:153-155 | an id printed from a long decodes to that long |
| HsQuery.FractionIdFails | src/main/java/org/hibernate/search/elasticsearch/ElasticSearchHSQueryImpl.java:153-155 | a fraction-shaped id accepted by isNumber raises NumberFormatException |
| HsQuery.TypesOf | src/main/java/org/hibernate/search/elasticsearch/ElasticSearchHSQueryImpl.java:80-85 | one document type per targeted entity, its name, in order |
| HsQuery.SortClauses | src/main/java/org/hibernate/search/elasticsearch/ElasticSearchHSQueryImpl.java:101-114 | one sort clause per sort field, in order |
| HsQuery.RequestFor | src/main/java/org/hibernate/search/elasticsearch/ElasticSearchHSQueryImpl.java:80-115 | no request without a target (index out of bounds), else a request exactly when the first entity is @Indexed and the query translates against it |
| HsQuery.DecodeHits | src/main/java/org/hibernate/search/elasticsearch/ElasticSearchHSQueryImpl.java:127-132 | one entity info per hit, in order, each the decoding of its hit |
| HsQuery.DecodeHitsSucceeds | src/main/java/org/hibernate/search/elasticsearch/ElasticSearchHSQueryImpl.java:127-132 | decoding succeeds exactly when every hit decodes |
| HsQuery.ElasticSearchHSQuery.constructor | src/main/java/org/hibernate/search/elasticsearch/ElasticSearchHSQueryImpl.java:58-69 | no sort and a page size of 200 |
| HsQuery.ElasticSearchHSQuery.Sort | src/main/java/org/hibernate/search/elasticsearch/ElasticSearchHSQueryImpl.java:168-172 | the sort is stored as given |
| HsQuery.ElasticSearchHSQuery.MaxResults | src/main/java/org/hibernate/search/elasticsearch/ElasticSearchHSQueryImpl.java:178-182 | the page size is stored verbatim, with no clamping |
| HsQuery.ElasticSearchHSQuery.TypeNames | src/main/java/org/hibernate/search/elasticsearch/ElasticSearchHSQueryImpl.java:80-85 | the array loop yields TypesOf the targets |
| HsQuery.ElasticSearchHSQuery.SortBuilders | src/main/java/org/hibernate/search/elasticsearch/ElasticSearchHSQueryImpl.java:101-114 | the sort loop yields the sort clauses of the stored sort, none without one |
| HsQuery.ElasticSearchHSQuery.DecodeOne | src/main/java/org/hibernate/search/elasticsearch/ElasticSearchHSQueryImpl.java:128-131 | one iteration decodes a hit as DecodeHit does |
| HsQuery.ElasticSearchHSQuery.DecodeAll | src/main/java/org/hibernate/search/elasticsearch/ElasticSearchHSQueryImpl.java:127-132 | the hit loop yields DecodeHits, stopping at the first failure |
| HsQuery.ElasticSearchHSQuery.QueryEntityInfos | src/main/java/org/hibernate/search/elasticsearch/ElasticSearchHSQueryImpl.java:76-137 | the search request is sent exactly when it can be built; the result is its error, or the shard-failure check and the decoding of the response |
| HsQuery.FirstEntityDecides | src/main/java/org/hibernate/search/elasticsearch/ElasticSearchHSQueryImpl.java:80-97 | only the first entity's index is searched and the query is translated against it; all entities are document types; the size is maxResults |
| HsQuery.SortClausesFollowFields | src/main/java/org/hibernate/search/elasticsearch/ElasticSearchHSQueryImpl.java:101-114 | sort fields map one-for-one, in order, to n.n_raw, DESC exactly when reversed; none without a sort |
| HsQuery.SortPathNamesRawSubField | src/main/java/org/hibernate/search/elasticsearch/ElasticSearchHSQueryImpl.java:106 | n.n_raw names the not_analyzed sub-field of @Field field n in the entity's mapping |
| HsQuery.ShardFailureRaises | src/main/java/org/hibernate/search/elasticsearch/ElasticSearchHSQueryImpl.java:121-125 | any shard failure raises with the first failure's reason and returns no result |
| HsQuery.ResultsFollowHits | src/main/java/org/hibernate/search/elasticsearch/ElasticSearchHSQueryImpl.java:127-132 | results follow hits one-for-one and in order, each with the hit's class, its id-field name and the decoded id |
| HsQuery.UnresolvableHitFails | src/main/java/org/hibernate/search/elasticsearch/ElasticSearchHSQueryImpl.java:127-132 | a hit of unknown type, or whose type has no @Id field, fails the whole query |
| MockEntityScenarios.AddOfMockEntity | src/test/java/org/hibernate/search/elasticsearch/ElasticSearchBackendQueueTest.java:35-57 | an Add of MockEntity with id "1" is one bulk with one index operation on "mock_entity" typed by the class name |
| MockEntityScenarios.DeleteOfMockEntity | src/test/java/org/hibernate/search/elasticsearch/ElasticSearchBackendQueueTest.java:59-80 | a Delete of MockEntity with id "1" is one delete on "mock_entity", then the empty bulk |
| MockEntityScenarios.AnnotatedMockFields | src/test/java/org/hibernate/search/elasticsearch/MockEntity.java:23-57 | every field of MockEntity except its id carries @Field |
| MockEntityScenarios.MockEntityMapping | src/test/java/org/hibernate/search/elasticsearch/MockEntity.java:23-57 | MockEntity's mapping has its six @Field fields, in order, typed string, integer, integer and date as declared |
| MockEntityScenarios.WildcardsOnMockEntity | src/test/java/org/hibernate/search/elasticsearch/MockEntity.java:29-42 | a wildcard on gender goes to gender_raw, and one on name falls back to query_string |

## Left out

- Concurrency: the `synchronized` buffer, the timer thread and a timer flush racing `enqueueAsyncWork` are not modelled. Calls are sequential, and a timer firing is an explicit `TimerFires` call.
- Time: the busy-sleep `waitFor` loop, its 100 ms sleeps, the 3 s delay as elapsed time, and the cluster-health wait. Each is an await entry in the request log; only the 3000 ms delay value is recorded.
- Serialisation: XContent/JSON output, `prettyPrint` and Lucene `toString` are left out. Mappings, queries and requests are datatypes, and each Lucene node's text is an opaque string.
- `NumberUtils.isNumber`: its grammar is a function parameter of `CreateId`. `Long.parseLong` is modelled for ASCII sign and digits only; non-ASCII Unicode digits are not modelled.
- `String.toLowerCase` is modelled on ASCII letters only.
- Reflection: classes are records with name, `@Indexed` value, declared fields and the superclass chain. `Number.class.isAssignableFrom` is a flag on the type, and `type.isAssignableFrom(Boolean.class)` is a fixed set of Boolean's supertypes.
- Engine failures: network errors and engine exceptions from exists, create, delete, search and bulk calls are not modelled. The only engine answers are index existence, create acknowledgement and the search response, which are inputs. Bulk responses are not inspected by the code, so they are not modelled either.
- `Validate.notNull` on arguments: only the checks whose failure the model can express are kept (the type in ElasticSearchUtils.getFieldId and the flush's client). Works, queries, lists and clients are never null in the model.
- Null values: a field's null `stringValue`, a null sort-field name and a null `Integer` passed to `maxResults` are not modelled.
- The Monitor's `documentsAdded`, `documentsBuilt` and `entitiesLoaded` only log, and are left out. So is every other log call.
- The superclass side: `super.enqueueAsyncWork` (and its InterruptedException), `super.initialize`, `super.sort` and `super.maxResults` are recorded as the delegated works or not at all.
- Wiring: ElasticSearchClientFactory, ElasticSearchFullTextQuery, SearchSessionFactory, ElasticSearchFullTextSession, ElasticSearchImmutableSearchFactory and ElasticSearchBackendQueueProcessorFactory are not part of this model.
- The `@Indexed` lookup: `static instance` is the queue object itself, and `Class.getAnnotation` on a class without `@Indexed` is the null dereference `NullPointer("@Indexed")`.
- IndexManager type table: Float, Short and Byte are covered by `BoxedNumberType` but have no lemma of their own.
- JavaModel.DeclaredField: searches the entity's own declared fields only, as `getDeclaredField` does; inherited fields are not found.
- BatchQueue.ElasticsearchBatchBackendQueue.EnqueueAsyncWork: the buffer bound `|works| < 100` is stated only for a call that passes, not as an invariant of the class. `stop`, `start` and the timer flush only empty the buffer or leave it as it was, so they would keep the bound; a failing flush does not. When the backend run inside `BachTask.run` throws, `works.clear()` is never reached (ElasticsearchBatchBackendQueue.java:105-107), so the buffer keeps all 100 or more works plus the new one. In the source, too, the buffer need not stay below 100 between calls after a failed flush.
- BatchQueue.ElasticsearchBatchBackendQueue.constructor: `active` is read once, at construction, while `enqueueAsyncWork` calls `ElasticSearchClientFactory.isActive()` on every call (ElasticsearchBatchBackendQueue.java:62). The two agree because the factory sets its `enabled` flag once, in its constructor (ElasticSearchClientFactory.java:82); a factory whose flag changed later is not modelled.
- SearchUtils.GetFieldId: a `ClassRef` always stands for a class strictly below `java.lang.Object`. Java's do-while, started on `Object` itself or on an interface, reaches a null `getSuperclass()` and dereferences it (SearchUtils.java:69-76, NullPointerException); the model has no such starting type, so that edge is not modelled. The same holds for ElasticSearchUtils.GetFieldId.
