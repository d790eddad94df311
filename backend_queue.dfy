/** ElasticSearchBackendQueue: dispatches one list of works to the engine.
    Every Add becomes an index operation of a single bulk request, every
    Delete is sent on its own as soon as the loop reaches it, other works are
    skipped, and in debug mode the bulk is awaited and the indices of all
    works are refreshed. */
module BackendQueue {
  import opened Wrappers
  import opened JavaModel
  import opened EsClient
  import ElasticSearchUtils

  /** A field of a Lucene document: its name and its string value. */
  datatype DocField = DocField(name: string, value: string)

  /** A Lucene work: the entity class, the entity id as a string and, for an
      add, the document built for it. */
  datatype Work =
    | AddWork(entity: ClassDecl, id: string, document: seq<DocField>)
    | DeleteWork(entity: ClassDecl, id: string)
    | OtherWork(entity: ClassDecl, kind: string)

  /** getIndexName: the write-side index name of the work's entity. */
  function IndexNameOf(w: Work): Result<string, Error> {
    ElasticSearchUtils.GetIndexName(w.entity)
  }

  /** The document source: one entry per document field, in field order. */
  function SourceOf(document: seq<DocField>): (r: seq<SourceEntry>)
    ensures |r| == |document|
    ensures forall i :: 0 <= i < |r| ==> r[i] == SourceEntry(document[i].name, document[i].value)
  {
    if |document| == 0 then []
    else
      var last := document[|document| - 1];
      SourceOf(document[..|document| - 1]) + [SourceEntry(last.name, last.value)]
  }

  /** handleAdd: the index operation for an Add work. */
  function IndexOpFor(w: Work): (r: Result<IndexOp, Error>)
    requires w.AddWork?
    ensures r.Ok? <==> w.entity.indexed.Some?
  {
    match IndexNameOf(w)
    case Err(e) => Err(e)
    case Ok(index) => Ok(IndexOp(index, w.entity.name, w.id, SourceOf(w.document)))
  }

  /** delete: the delete request for a Delete work. */
  function DeleteFor(w: Work): (r: Result<Request, Error>)
    requires w.DeleteWork?
    ensures r.Ok? <==> w.entity.indexed.Some?
  {
    match IndexNameOf(w)
    case Err(e) => Err(e)
    case Ok(index) => Ok(DeleteDocument(index, w.entity.name, w.id))
  }

  /** What the dispatch loop has produced so far: the delete requests it has
      sent, the index operations added to the bulk and the error that
      stopped it, if any. */
  datatype Dispatched = Dispatched(deletes: seq<Request>, ops: seq<IndexOp>, failure: Option<Error>)

  /** The effect of one iteration of the dispatch loop. */
  function Step(d: Dispatched, w: Work): Dispatched {
    match w
    case AddWork(_, _, _) =>
      (match IndexOpFor(w)
       case Ok(op) => d.(ops := d.ops + [op])
       case Err(e) => d.(failure := Some(e)))
    case DeleteWork(_, _) =>
      (match DeleteFor(w)
       case Ok(rq) => d.(deletes := d.deletes + [rq])
       case Err(e) => d.(failure := Some(e)))
    case OtherWork(_, _) => d
  }

  /** The dispatch loop over a list of works; it stops at the first error. */
  function Dispatch(ws: seq<Work>): Dispatched {
    if |ws| == 0 then Dispatched([], [], None)
    else
      var d := Dispatch(ws[..|ws| - 1]);
      if d.failure.Some? then d else Step(d, ws[|ws| - 1])
  }

  /** The indices named by the debug-mode refresh: one per work, in order. */
  function RefreshIndices(ws: seq<Work>): (r: Result<seq<string>, Error>)
    ensures r.Ok? <==> forall i :: 0 <= i < |ws| ==> ws[i].entity.indexed.Some?
    ensures r.Ok? ==> |r.value| == |ws|
    ensures r.Ok? ==> forall i :: 0 <= i < |ws| ==> IndexNameOf(ws[i]) == Ok(r.value[i])
  {
    if |ws| == 0 then Ok([])
    else
      match RefreshIndices(ws[..|ws| - 1])
      case Err(e) => Err(e)
      case Ok(ix) =>
        (match IndexNameOf(ws[|ws| - 1])
         case Err(e) => Err(e)
         case Ok(n) => Ok(ix + [n]))
  }

  /** The requests a run sends, given the index operations already pending
      in its bulk builder. */
  function RunLog(pending: seq<IndexOp>, ws: seq<Work>, debug: bool): seq<Request> {
    var d := Dispatch(ws);
    if d.failure.Some? then d.deletes
    else if !debug then d.deletes + [Bulk(pending + d.ops)]
    else
      match RefreshIndices(ws)
      case Ok(ix) => d.deletes + [Bulk(pending + d.ops), AwaitBulk, Refresh(ix), AwaitRefresh]
      case Err(_) => d.deletes + [Bulk(pending + d.ops), AwaitBulk]
  }

  /** How a run ends: the first error of the dispatch loop, else the first
      error of the debug-mode index loop, else normally. */
  function RunOutcome(ws: seq<Work>, debug: bool): Outcome<Error> {
    var d := Dispatch(ws);
    if d.failure.Some? then Fail(d.failure.value)
    else if debug && RefreshIndices(ws).Err? then Fail(RefreshIndices(ws).error)
    else Pass
  }

  /** Once the loop has failed on a prefix, the rest of the list is never
      looked at. */
  lemma {:induction false} DispatchStopsAtFailure(ws: seq<Work>, n: nat)
    requires 0 < n <= |ws| && Dispatch(ws[..n]).failure.Some?
    ensures Dispatch(ws) == Dispatch(ws[..n])
    decreases |ws| - n
  {
    if n < |ws| {
      var p := ws[..|ws| - 1];
      assert p[..n] == ws[..n];
      DispatchStopsAtFailure(p, n);
    } else {
      assert ws[..n] == ws;
    }
  }

  lemma {:induction false} RefreshStopsAtFailure(ws: seq<Work>, n: nat)
    requires 0 < n <= |ws| && RefreshIndices(ws[..n]).Err?
    ensures RefreshIndices(ws) == RefreshIndices(ws[..n])
    decreases |ws| - n
  {
    if n < |ws| {
      var p := ws[..|ws| - 1];
      assert p[..n] == ws[..n];
      RefreshStopsAtFailure(p, n);
    } else {
      assert ws[..n] == ws;
    }
  }

  /** The Add works of a list, in list order. */
  function Adds(ws: seq<Work>): (r: seq<Work>)
    ensures forall w :: w in r ==> w.AddWork?
  {
    if |ws| == 0 then []
    else Adds(ws[..|ws| - 1]) + (if ws[|ws| - 1].AddWork? then [ws[|ws| - 1]] else [])
  }

  /** The Delete works of a list, in list order. */
  function Deletes(ws: seq<Work>): (r: seq<Work>)
    ensures forall w :: w in r ==> w.DeleteWork?
  {
    if |ws| == 0 then []
    else Deletes(ws[..|ws| - 1]) + (if ws[|ws| - 1].DeleteWork? then [ws[|ws| - 1]] else [])
  }

  /** The loop gets through the list exactly when every Add and Delete work
      has an indexed entity; otherwise it stops with the missing-annotation
      error. Other works never stop it, whatever their entity. */
  lemma {:induction false} DispatchSucceeds(ws: seq<Work>)
    ensures Dispatch(ws).failure.None? <==>
            forall i :: 0 <= i < |ws| && !ws[i].OtherWork? ==> ws[i].entity.indexed.Some?
    ensures Dispatch(ws).failure.Some? ==> Dispatch(ws).failure == Some(NullPointer("@Indexed"))
  {
    if |ws| > 0 {
      var p := ws[..|ws| - 1];
      DispatchSucceeds(p);
      assert forall i :: 0 <= i < |p| ==> p[i] == ws[i];
    }
  }

  /** The bulk holds one index operation per Add work, in the Adds' order:
      the entity's index, its class name as type, the work's id and the
      document's fields as source. No other work contributes to it. */
  lemma {:induction false} BulkHoldsAdds(ws: seq<Work>)
    requires Dispatch(ws).failure.None?
    ensures |Dispatch(ws).ops| == |Adds(ws)|
    ensures forall i :: 0 <= i < |Adds(ws)| ==>
      var a := Adds(ws)[i];
      a.entity.indexed.Some? &&
      Dispatch(ws).ops[i] == IndexOp(ElasticSearchUtils.GetIndexName(a.entity).value, a.entity.name, a.id,
                                     SourceOf(a.document))
  {
    if |ws| > 0 {
      var p := ws[..|ws| - 1];
      BulkHoldsAdds(p);
    }
  }

  /** One delete request per Delete work, in the Deletes' order, each naming
      the entity's index, its class name and the work's id. */
  lemma {:induction false} DeletesInOrder(ws: seq<Work>)
    requires Dispatch(ws).failure.None?
    ensures |Dispatch(ws).deletes| == |Deletes(ws)|
    ensures forall i :: 0 <= i < |Deletes(ws)| ==>
      var d := Deletes(ws)[i];
      d.entity.indexed.Some? &&
      Dispatch(ws).deletes[i] == DeleteDocument(ElasticSearchUtils.GetIndexName(d.entity).value, d.entity.name, d.id)
  {
    if |ws| > 0 {
      var p := ws[..|ws| - 1];
      DeletesInOrder(p);
    }
  }

  /** The loop only ever sends delete requests. */
  lemma {:induction false} DeletesAreDeleteRequests(ws: seq<Work>)
    ensures forall r :: r in Dispatch(ws).deletes ==> r.DeleteDocument?
  {
    if |ws| > 0 {
      DeletesAreDeleteRequests(ws[..|ws| - 1]);
    }
  }

  /** A work that is neither an Add nor a Delete has no effect on the loop,
      wherever it stands in the list. */
  lemma {:induction false} OtherWorkSkipped(a: seq<Work>, w: Work, b: seq<Work>)
    requires w.OtherWork?
    ensures Dispatch(a + [w] + b) == Dispatch(a + b)
    decreases |b|
  {
    if |b| == 0 {
      assert a + [w] + b == a + [w];
      assert (a + [w])[..|a|] == a;
      assert a + b == a;
    } else {
      var b' := b[..|b| - 1];
      OtherWorkSkipped(a, w, b');
      assert (a + [w] + b)[..|a + [w] + b| - 1] == a + [w] + b';
      assert (a + b)[..|a + b| - 1] == a + b';
    }
  }

  /** A run that gets through the loop sends the deletes first, then exactly
      one bulk, holding the pending operations followed by one per Add,
      even when there is no Add; nothing after the bulk is a delete. */
  lemma RunLogShape(pending: seq<IndexOp>, ws: seq<Work>, debug: bool)
    requires Dispatch(ws).failure.None?
    ensures var log := RunLog(pending, ws, debug); var n := |Dispatch(ws).deletes|;
      n < |log| && log[..n] == Dispatch(ws).deletes && log[n] == Bulk(pending + Dispatch(ws).ops)
    ensures var log := RunLog(pending, ws, debug); var n := |Dispatch(ws).deletes|;
      forall j :: 0 <= j < |log| ==> (log[j].Bulk? <==> j == n) && (log[j].DeleteDocument? <==> j < n)
  {
    DeletesInOrder(ws);
    var log := RunLog(pending, ws, debug);
    var n := |Dispatch(ws).deletes|;
    assert log[..n] == Dispatch(ws).deletes;
  }

  /** A run whose loop fails sends only the deletes reached before the
      failing work: no bulk and no refresh. */
  lemma FailedRunSendsNoBulk(pending: seq<IndexOp>, ws: seq<Work>, debug: bool)
    requires !(forall i :: 0 <= i < |ws| && !ws[i].OtherWork? ==> ws[i].entity.indexed.Some?)
    ensures RunLog(pending, ws, debug) == Dispatch(ws).deletes
    ensures forall r :: r in RunLog(pending, ws, debug) ==> r.DeleteDocument?
    ensures RunOutcome(ws, debug) == Fail(NullPointer("@Indexed"))
  {
    DispatchSucceeds(ws);
    DeletesAreDeleteRequests(ws);
  }

  /** Outside debug mode no refresh is requested and nothing is awaited. */
  lemma NoRefreshOutsideDebug(pending: seq<IndexOp>, ws: seq<Work>)
    ensures forall r :: r in RunLog(pending, ws, false) ==> !r.Refresh? && !r.AwaitBulk? && !r.AwaitRefresh?
    ensures RunOutcome(ws, false).Fail? <==> Dispatch(ws).failure.Some?
  {
    if Dispatch(ws).failure.None? {
      RunLogShape(pending, ws, false);
      DeletesInOrder(ws);
    } else {
      DeletesAreDeleteRequests(ws);
    }
  }

  /** In debug mode a successful run follows the bulk with its await, a
      refresh naming one index per work in list order, duplicates included,
      and the refresh's await. */
  lemma DebugRefreshesEveryWork(pending: seq<IndexOp>, ws: seq<Work>)
    requires RunOutcome(ws, true).Pass?
    ensures RunLog(pending, ws, true) ==
            RunLog(pending, ws, false) + [AwaitBulk, Refresh(RefreshIndices(ws).value), AwaitRefresh]
    ensures |RefreshIndices(ws).value| == |ws|
    ensures forall i :: 0 <= i < |ws| ==>
      RefreshIndices(ws).value[i] == ElasticSearchUtils.GetIndexName(ws[i].entity).value
  {
  }

  class ElasticSearchBackendQueue {
    const works: seq<Work>
    const client: Client
    /** The bulk request under construction. */
    var requestBuilder: seq<IndexOp>
    const debugMode: bool

    constructor(luceneWorks: seq<Work>, elasticSearchClient: Client, debug: bool)
      ensures works == luceneWorks && client == elasticSearchClient && debugMode == debug
      ensures requestBuilder == []
    {
      works := luceneWorks;
      client := elasticSearchClient;
      requestBuilder := [];
      debugMode := debug;
    }

    /** handleAdd: copies the document's fields into the source, in order. */
    method HandleAdd(w: Work) returns (r: Result<IndexOp, Error>)
      requires w.AddWork?
      ensures r == IndexOpFor(w)
    {
      var docType := w.entity.name;
      var id := w.id;
      var indexName := ElasticSearchUtils.GetIndexName(w.entity);
      if indexName.Err? {
        return Err(indexName.error);
      }
      var document := w.document;
      var source: seq<SourceEntry> := [];
      var j := 0;
      while j < |document|
        invariant 0 <= j <= |document|
        invariant source == SourceOf(document[..j])
      {
        assert document[..j + 1][..j] == document[..j];
        source := source + [SourceEntry(document[j].name, document[j].value)];
        j := j + 1;
      }
      assert document[..|document|] == document;
      return Ok(IndexOp(indexName.value, docType, id, source));
    }

    /** delete: sends the delete request of a Delete work at once. */
    method Delete(w: Work) returns (r: Outcome<Error>)
      requires w.DeleteWork?
      modifies client
      ensures r.Pass? <==> DeleteFor(w).Ok?
      ensures r.Fail? ==> r.error == DeleteFor(w).error
      ensures client.log == old(client.log) + (if r.Pass? then [DeleteFor(w).value] else [])
      ensures client.indices == old(client.indices)
    {
      var docType := w.entity.name;
      var id := w.id;
      var indexName := ElasticSearchUtils.GetIndexName(w.entity);
      if indexName.Err? {
        return Fail(indexName.error);
      }
      client.Send(DeleteDocument(indexName.value, docType, id));
      return Pass;
    }

    /** The loop of run over the works: adds go to the bulk builder, deletes
        are sent, other works are skipped, and the first error stops it. */
    method DispatchAll() returns (r: Outcome<Error>)
      modifies this, client
      ensures r.Pass? <==> Dispatch(works).failure.None?
      ensures r.Fail? ==> r.error == Dispatch(works).failure.value
      ensures client.log == old(client.log) + Dispatch(works).deletes
      ensures client.indices == old(client.indices)
      ensures requestBuilder == old(requestBuilder) + Dispatch(works).ops
    {
      var i := 0;
      while i < |works|
        invariant 0 <= i <= |works|
        invariant Dispatch(works[..i]).failure.None?
        invariant client.log == old(client.log) + Dispatch(works[..i]).deletes
        invariant requestBuilder == old(requestBuilder) + Dispatch(works[..i]).ops
        invariant client.indices == old(client.indices)
      {
        var w := works[i];
        assert works[..i + 1][..i] == works[..i];
        if w.AddWork? {
          var op := HandleAdd(w);
          if op.Err? {
            DispatchStopsAtFailure(works, i + 1);
            return Fail(op.error);
          }
          requestBuilder := requestBuilder + [op.value];
        } else if w.DeleteWork? {
          var outcome := Delete(w);
          if outcome.Fail? {
            DispatchStopsAtFailure(works, i + 1);
            return outcome;
          }
        }
        i := i + 1;
      }
      assert works[..|works|] == works;
      r := Pass;
    }

    /** The debug-mode loop that fills the refresh request's index array. */
    method CollectIndices() returns (r: Result<seq<string>, Error>)
      ensures r == RefreshIndices(works)
    {
      var indices := new string[|works|];
      var k := 0;
      while k < |works|
        invariant 0 <= k <= |works|
        invariant RefreshIndices(works[..k]).Ok?
        invariant indices[..k] == RefreshIndices(works[..k]).value
      {
        assert works[..k + 1][..k] == works[..k];
        var name := ElasticSearchUtils.GetIndexName(works[k].entity);
        if name.Err? {
          RefreshStopsAtFailure(works, k + 1);
          return Err(name.error);
        }
        indices[k] := name.value;
        k := k + 1;
      }
      assert works[..|works|] == works;
      assert indices[..] == indices[..|works|];
      return Ok(indices[..]);
    }

    /** run: the dispatch loop, the bulk execute and, in debug mode, the
        refresh of every work's index. */
    method Run() returns (r: Outcome<Error>)
      modifies this, client
      ensures client.log == old(client.log) + RunLog(old(requestBuilder), works, debugMode)
      ensures client.indices == old(client.indices)
      ensures requestBuilder == old(requestBuilder) + Dispatch(works).ops
      ensures r == RunOutcome(works, debugMode)
    {
      r := DispatchAll();
      if r.Fail? {
        return;
      }
      client.Send(Bulk(requestBuilder));
      if debugMode {
        client.Send(AwaitBulk);
        var indices := CollectIndices();
        if indices.Err? {
          return Fail(indices.error);
        }
        client.Send(Refresh(indices.value));
        client.Send(AwaitRefresh);
      }
    }
  }
}
