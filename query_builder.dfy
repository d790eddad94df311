/** ElasticsearchQueryBuilder: translation of a Lucene query tree into an
    Elasticsearch query. Each Lucene node carries its `toString()` text as an
    opaque string. */
module QueryBuilder {
  import opened Wrappers
  import opened JavaModel

  /** BooleanClause.Occur. Lucene defines exactly these three. */
  datatype Occur = Must | MustNot | Should

  datatype Term = Term(field: string, text: string)

  /** The Lucene query tree: boolean groups, wildcard queries, and every other
      query kind, which the translator only knows by its text. */
  datatype LuceneQuery =
    | BooleanQuery(text: string, clauses: seq<BooleanClause>)
    | WildcardQuery(text: string, term: Term)
    | OtherQuery(text: string)

  datatype BooleanClause = BooleanClause(occur: Occur, query: LuceneQuery)

  /** The Elasticsearch queries the translator produces. */
  datatype EsQuery =
    | MatchAll
    | Bool(must: seq<EsQuery>, mustNot: seq<EsQuery>, should: seq<EsQuery>)
    | Wildcard(field: string, pattern: string)
    | QueryString(text: string)

  /** A translated leaf clause, with the occur it is filed under. */
  datatype Entry = Entry(occur: Occur, query: EsQuery)

  const MATCH_ALL_TEXT: string := "()"
  const RAW_SUFFIX: string := "_raw"

  /** BoolQueryBuilder: one shared container whose three clause lists
      booleanQuery appends to. */
  class BoolQueryBuilder {
    var must: seq<EsQuery>
    var mustNot: seq<EsQuery>
    var should: seq<EsQuery>

    constructor ()
      ensures must == [] && mustNot == [] && should == []
    {
      must, mustNot, should := [], [], [];
    }

    function Value(): EsQuery
      reads this
    {
      Bool(must, mustNot, should)
    }

    /** accur: files q under the list its clause's occur names. */
    method Accur(occur: Occur, q: EsQuery)
      modifies this
      ensures Value() == Extend(old(Value()), [Entry(occur, q)])
    {
      SelectSingle(occur, q, Must);
      SelectSingle(occur, q, MustNot);
      SelectSingle(occur, q, Should);
      match occur
      case Must => must := must + [q];
      case MustNot => mustNot := mustNot + [q];
      case Should => should := should + [q];
    }
  }

  /** The queries of the entries filed under o, in entry order. */
  function Select(es: seq<Entry>, o: Occur): (r: seq<EsQuery>)
  {
    if |es| == 0 then []
    else (if es[0].occur == o then [es[0].query] else []) + Select(es[1..], o)
  }

  lemma SelectSingle(occur: Occur, q: EsQuery, o: Occur)
    ensures Select([Entry(occur, q)], o) == if occur == o then [q] else []
  {
    var one := [Entry(occur, q)];
    assert one[0] == Entry(occur, q) && one[1..] == [];
    var head: seq<EsQuery> := if occur == o then [q] else [];
    assert head + [] == head;
  }

  lemma {:induction false} SelectAppend(a: seq<Entry>, b: seq<Entry>, o: Occur)
    ensures Select(a + b, o) == Select(a, o) + Select(b, o)
  {
    if |a| == 0 {
      assert a + b == b;
    } else {
      var head := if a[0].occur == o then [a[0].query] else [];
      assert (a + b)[0] == a[0];
      assert (a + b)[1..] == a[1..] + b;
      assert Select(a + b, o) == head + Select(a[1..] + b, o);
      assert Select(a, o) == head + Select(a[1..], o);
      SelectAppend(a[1..], b, o);
    }
  }

  /** A bool container with the entries es filed into its three lists. */
  function Extend(container: EsQuery, es: seq<Entry>): EsQuery
    requires container.Bool?
  {
    Bool(container.must + Select(es, Must), container.mustNot + Select(es, MustNot),
         container.should + Select(es, Should))
  }

  lemma ExtendAppend(container: EsQuery, a: seq<Entry>, b: seq<Entry>)
    requires container.Bool?
    ensures Extend(Extend(container, a), b) == Extend(container, a + b)
  {
    SelectAppend(a, b, Must);
    SelectAppend(a, b, MustNot);
    SelectAppend(a, b, Should);
  }

  /** Every entry lands in exactly one of the three lists. */
  lemma {:induction false} SelectPartition(es: seq<Entry>)
    ensures |Select(es, Must)| + |Select(es, MustNot)| + |Select(es, Should)| == |es|
  {
    if |es| > 0 {
      SelectPartition(es[1..]);
    }
  }

  /** A query is filed under o exactly when some entry carries it with that
      occur. */
  lemma {:induction false} SelectMembers(es: seq<Entry>, o: Occur, q: EsQuery)
    ensures q in Select(es, o) <==> Entry(o, q) in es
  {
    if |es| > 0 {
      SelectMembers(es[1..], o, q);
      assert es == [es[0]] + es[1..];
    }
  }

  /** Where the queries filed under o come from: strictly increasing entry
      positions, one per filed query, covering every entry whose occur is o.
      Select therefore keeps the entries' order. */
  function Positions(es: seq<Entry>, o: Occur): (r: seq<nat>)
    ensures |r| == |Select(es, o)|
    ensures forall k :: 0 <= k < |r| ==> r[k] < |es| && es[r[k]] == Entry(o, Select(es, o)[k])
    ensures forall k, l :: 0 <= k < l < |r| ==> r[k] < r[l]
    ensures forall i :: 0 <= i < |es| && es[i].occur == o ==> i in r
  {
    if |es| == 0 then []
    else
      var n := |es| - 1;
      var p := es[..n];
      assert p + [es[n]] == es;
      SelectAppend(p, [es[n]], o);
      SelectSingle(es[n].occur, es[n].query, o);
      Positions(p, o) + (if es[n].occur == o then [n] else [])
  }

  /** wildcard: a wildcard on an un-tokenized field becomes a wildcard query on
      the field's raw twin with the term text unchanged; on any other `@Field`
      it falls back to query_string of the node's text. A field the entity does
      not declare, or one without `@Field`, raises. */
  function TranslateWildcard(q: LuceneQuery, entity: ClassDecl): (r: Result<EsQuery, Error>)
    requires q.WildcardQuery?
    ensures r.Ok? <==> exists j :: 0 <= j < |entity.fields| && entity.fields[j].name == q.term.field
                                   && entity.fields[j].searchField.Some?
                                   && DeclaredField(entity.fields, q.term.field) == Some(j)
    ensures r.Ok? ==> r.value.Wildcard? || r.value.QueryString?
  {
    match DeclaredField(entity.fields, q.term.field)
    case None => Err(NoSuchField(q.term.field))
    case Some(j) =>
      match entity.fields[j].searchField
      case None => Err(NullPointer("@Field"))
      case Some(index) =>
        if index == UnTokenized then Ok(Wildcard(q.term.field + RAW_SUFFIX, q.term.text))
        else Ok(QueryString(q.text))
  }

  /** How booleanQuery translates one non-boolean clause query. */
  function TranslateLeaf(q: LuceneQuery, entity: ClassDecl): Result<EsQuery, Error>
    requires !q.BooleanQuery?
  {
    if q.WildcardQuery? then TranslateWildcard(q, entity) else Ok(QueryString(q.text))
  }

  /** The non-boolean clauses reached from the first n clauses of a boolean
      group, in the order booleanQuery visits them: a nested group with
      clauses is replaced by its own leaves (its occur is dropped), an empty
      nested group by nothing. */
  function Leaves(q: LuceneQuery, n: nat): (r: seq<BooleanClause>)
    requires q.BooleanQuery? && n <= |q.clauses|
    ensures forall i :: 0 <= i < |r| ==> !r[i].query.BooleanQuery?
    decreases q, n
  {
    if n == 0 then [] else Leaves(q, n - 1) + ClauseLeaves(q.clauses[n - 1])
  }

  function ClauseLeaves(c: BooleanClause): (r: seq<BooleanClause>)
    ensures forall i :: 0 <= i < |r| ==> !r[i].query.BooleanQuery?
    decreases c
  {
    if c.query.BooleanQuery? then
      (if |c.query.clauses| > 0 then Leaves(c.query, |c.query.clauses|) else [])
    else [c]
  }

  function AllLeaves(q: LuceneQuery): seq<BooleanClause>
    requires q.BooleanQuery?
  {
    Leaves(q, |q.clauses|)
  }

  /** Translation of a sequence of leaf clauses, left to right, stopping at
      the first leaf whose translation raises. */
  function TranslateAll(ls: seq<BooleanClause>, entity: ClassDecl): (r: Result<seq<Entry>, Error>)
    requires forall i :: 0 <= i < |ls| ==> !ls[i].query.BooleanQuery?
    ensures r.Ok? ==> |r.value| == |ls|
  {
    if |ls| == 0 then Ok([])
    else
      match TranslateLeaf(ls[0].query, entity)
      case Err(e) => Err(e)
      case Ok(head) =>
        match TranslateAll(ls[1..], entity)
        case Err(e) => Err(e)
        case Ok(tail) => Ok([Entry(ls[0].occur, head)] + tail)
  }

  /** Translating leaf clauses succeeds exactly when every leaf translates;
      then entry i carries leaf i's occur and leaf i's translation; otherwise
      the error is that of the first leaf that fails. */
  lemma {:induction false} TranslateAllPointwise(ls: seq<BooleanClause>, entity: ClassDecl)
    requires forall i :: 0 <= i < |ls| ==> !ls[i].query.BooleanQuery?
    ensures TranslateAll(ls, entity).Ok? <==> forall i :: 0 <= i < |ls| ==> TranslateLeaf(ls[i].query, entity).Ok?
    ensures TranslateAll(ls, entity).Ok? ==> forall i :: 0 <= i < |ls| ==>
              TranslateAll(ls, entity).value[i] == Entry(ls[i].occur, TranslateLeaf(ls[i].query, entity).value)
    ensures forall i :: 0 <= i < |ls| && TranslateLeaf(ls[i].query, entity).Err? ==>
              (forall j :: 0 <= j < i ==> TranslateLeaf(ls[j].query, entity).Ok?) ==>
              TranslateAll(ls, entity) == Err(TranslateLeaf(ls[i].query, entity).error)
  {
    if |ls| > 0 {
      TranslateAllPointwise(ls[1..], entity);
      assert forall i :: 1 <= i < |ls| ==> ls[i] == ls[1..][i - 1];
    }
  }

  lemma TranslateSingle(c: BooleanClause, entity: ClassDecl)
    requires !c.query.BooleanQuery?
    ensures TranslateAll([c], entity) ==
      match TranslateLeaf(c.query, entity)
      case Ok(x) => Ok([Entry(c.occur, x)])
      case Err(e) => Err(e)
  {
    assert [c][0] == c && [c][1..] == [];
    match TranslateLeaf(c.query, entity)
    case Err(e) =>
    case Ok(x) =>
      assert [Entry(c.occur, x)] + [] == [Entry(c.occur, x)];
  }

  /** Sequencing of two translations: the first failure wins. */
  function AndThen(x: Result<seq<Entry>, Error>, y: Result<seq<Entry>, Error>): Result<seq<Entry>, Error> {
    match x
    case Err(e) => Err(e)
    case Ok(u) => (match y case Err(e) => Err(e) case Ok(v) => Ok(u + v))
  }

  /** Translating a concatenation of leaves is translating its parts in order. */
  lemma {:induction false} TranslateAllAppend(a: seq<BooleanClause>, b: seq<BooleanClause>, entity: ClassDecl)
    requires forall i :: 0 <= i < |a| ==> !a[i].query.BooleanQuery?
    requires forall i :: 0 <= i < |b| ==> !b[i].query.BooleanQuery?
    ensures TranslateAll(a + b, entity) == AndThen(TranslateAll(a, entity), TranslateAll(b, entity))
  {
    if |a| == 0 {
      assert a + b == b;
      if TranslateAll(b, entity).Ok? {
        assert [] + TranslateAll(b, entity).value == TranslateAll(b, entity).value;
      }
    } else {
      assert (a + b)[0] == a[0];
      assert (a + b)[1..] == a[1..] + b;
      TranslateAllAppend(a[1..], b, entity);
      match TranslateLeaf(a[0].query, entity)
      case Err(e) =>
      case Ok(head) =>
        match TranslateAll(a[1..], entity)
        case Err(e) =>
        case Ok(tail) =>
          if TranslateAll(b, entity).Ok? {
            assert [Entry(a[0].occur, head)] + (tail + TranslateAll(b, entity).value)
                == ([Entry(a[0].occur, head)] + tail) + TranslateAll(b, entity).value;
          }
    }
  }

  /** The leaves of the first m clauses are a prefix of those of the first n. */
  lemma {:induction false} LeavesPrefix(q: LuceneQuery, m: nat, n: nat)
    requires q.BooleanQuery? && m <= n <= |q.clauses|
    ensures |Leaves(q, m)| <= |Leaves(q, n)|
    ensures Leaves(q, n) == Leaves(q, m) + Leaves(q, n)[|Leaves(q, m)|..]
    decreases n
  {
    if m < n {
      LeavesPrefix(q, m, n - 1);
    }
  }

  /** Leaves(group, i + 1) adds the leaves of clause i; if those fail to
      translate after a clean prefix, the whole group fails with their error. */
  lemma LeavesStep(group: LuceneQuery, i: nat, entity: ClassDecl)
    requires group.BooleanQuery? && i < |group.clauses|
    requires TranslateAll(Leaves(group, i), entity).Ok?
    ensures Leaves(group, i + 1) == Leaves(group, i) + ClauseLeaves(group.clauses[i])
    ensures TranslateAll(ClauseLeaves(group.clauses[i]), entity).Err? ==>
              TranslateAll(AllLeaves(group), entity) == TranslateAll(ClauseLeaves(group.clauses[i]), entity)
    ensures TranslateAll(ClauseLeaves(group.clauses[i]), entity).Ok? ==>
              TranslateAll(Leaves(group, i + 1), entity).Ok? &&
              TranslateAll(Leaves(group, i + 1), entity).value ==
                TranslateAll(Leaves(group, i), entity).value + TranslateAll(ClauseLeaves(group.clauses[i]), entity).value
  {
    TranslateAllAppend(Leaves(group, i), ClauseLeaves(group.clauses[i]), entity);
    LeavesPrefix(group, i + 1, |group.clauses|);
    TranslateAllAppend(Leaves(group, i + 1), AllLeaves(group)[|Leaves(group, i + 1)|..], entity);
  }

  /** booleanQuery: visits the group's clauses in order, recursing into
      nested groups that have clauses (skipping empty ones) and filing every
      other clause's translation under its occur in the one shared builder.
      On success the builder has gained exactly the translations of the
      group's leaves, each under its own occur. */
  method AddClauses(b: BoolQueryBuilder, group: LuceneQuery, entity: ClassDecl) returns (r: Outcome<Error>)
    requires group.BooleanQuery?
    modifies b
    decreases group
    ensures r.Pass? <==> TranslateAll(AllLeaves(group), entity).Ok?
    ensures r.Fail? ==> r.error == TranslateAll(AllLeaves(group), entity).error
    ensures r.Pass? ==> b.Value() == Extend(old(b.Value()), TranslateAll(AllLeaves(group), entity).value)
  {
    var i := 0;
    while i < |group.clauses|
      invariant 0 <= i <= |group.clauses|
      invariant TranslateAll(Leaves(group, i), entity).Ok?
      invariant b.Value() == Extend(old(b.Value()), TranslateAll(Leaves(group, i), entity).value)
    {
      var clause := group.clauses[i];
      LeavesStep(group, i, entity);
      ghost var before := b.Value();
      if clause.query.BooleanQuery? {
        if |clause.query.clauses| > 0 {
          var inner := AddClauses(b, clause.query, entity);
          if inner.Fail? {
            return inner;
          }
        }
      } else {
        TranslateSingle(clause, entity);
        var es: EsQuery;
        if clause.query.WildcardQuery? {
          var w := TranslateWildcard(clause.query, entity);
          if w.Err? {
            return Fail(w.error);
          }
          es := w.value;
        } else {
          es := QueryString(clause.query.text);
        }
        b.Accur(clause.occur, es);
      }
      ExtendAppend(old(b.Value()), TranslateAll(Leaves(group, i), entity).value,
                   TranslateAll(ClauseLeaves(clause), entity).value);
      i := i + 1;
    }
    r := Pass;
  }

  /** The query build() returns, or the error it raises: "()" text means
      match-all before any look at the node's kind; a boolean group becomes
      one flat bool container; a wildcard goes through TranslateWildcard;
      anything else becomes query_string of its text. */
  function Translate(q: LuceneQuery, entity: ClassDecl): Result<EsQuery, Error> {
    if q.text == MATCH_ALL_TEXT then Ok(MatchAll)
    else match q
      case BooleanQuery(_, _) =>
        (match TranslateAll(AllLeaves(q), entity)
         case Err(e) => Err(e)
         case Ok(es) => Ok(Bool(Select(es, Must), Select(es, MustNot), Select(es, Should))))
      case WildcardQuery(_, _) => TranslateWildcard(q, entity)
      case OtherQuery(text) => Ok(QueryString(text))
  }

  /** build: the translation of the query against the target entity. */
  method Build(q: LuceneQuery, entity: ClassDecl) returns (r: Result<EsQuery, Error>)
    ensures r == Translate(q, entity)
  {
    if q.text == MATCH_ALL_TEXT {
      return Ok(MatchAll);
    }
    if q.BooleanQuery? {
      var builder := new BoolQueryBuilder();
      var o := AddClauses(builder, q, entity);
      if o.Fail? {
        return Err(o.error);
      }
      ghost var es := TranslateAll(AllLeaves(q), entity).value;
      assert builder.Value() == Bool([] + Select(es, Must), [] + Select(es, MustNot), [] + Select(es, Should));
      assert [] + Select(es, Must) == Select(es, Must);
      assert [] + Select(es, MustNot) == Select(es, MustNot);
      assert [] + Select(es, Should) == Select(es, Should);
      return Ok(builder.Value());
    } else if q.WildcardQuery? {
      return TranslateWildcard(q, entity);
    } else {
      return Ok(QueryString(q.text));
    }
  }

  // ---- Properties of the translation ----

  /** A query whose text is "()" translates to match-all, whatever its kind:
      the text check precedes every type test. */
  lemma MatchAllByText(q: LuceneQuery, entity: ClassDecl)
    requires q.text == MATCH_ALL_TEXT
    ensures Translate(q, entity) == Ok(MatchAll)
  {
  }

  /** Any node that is neither a boolean group nor a wildcard becomes
      query_string of its text, both as a clause and at the top level. */
  lemma OtherQueryFallsBack(q: LuceneQuery, entity: ClassDecl)
    requires q.OtherQuery?
    ensures TranslateLeaf(q, entity) == Ok(QueryString(q.text))
    ensures q.text != MATCH_ALL_TEXT ==> Translate(q, entity) == Ok(QueryString(q.text))
  {
  }

  /** The number of non-boolean nodes of a tree, counted recursively. */
  function LeafCount(q: LuceneQuery): nat
    decreases q, 1
  {
    if q.BooleanQuery? then CountFrom(q, |q.clauses|) else 1
  }

  function CountFrom(q: LuceneQuery, n: nat): nat
    requires q.BooleanQuery? && n <= |q.clauses|
    decreases q, 0, n
  {
    if n == 0 then 0 else CountFrom(q, n - 1) + LeafCount(q.clauses[n - 1].query)
  }

  lemma {:induction false} LeavesCountFrom(q: LuceneQuery, n: nat)
    requires q.BooleanQuery? && n <= |q.clauses|
    ensures |Leaves(q, n)| == CountFrom(q, n)
    decreases q, 0, n
  {
    if n > 0 {
      LeavesCountFrom(q, n - 1);
      ClauseLeavesCount(q.clauses[n - 1]);
    }
  }

  lemma {:induction false} ClauseLeavesCount(c: BooleanClause)
    ensures |ClauseLeaves(c)| == LeafCount(c.query)
    decreases c
  {
    if c.query.BooleanQuery? {
      LeavesCountFrom(c.query, |c.query.clauses|);
    }
  }

  /** The container a boolean group translates to holds no nested container
      and no match-all: only wildcard and query_string clauses, as many as
      the tree has non-boolean nodes. */
  lemma BoolContainerShape(q: LuceneQuery, entity: ClassDecl)
    requires q.BooleanQuery? && q.text != MATCH_ALL_TEXT && Translate(q, entity).Ok?
    ensures Translate(q, entity).value.Bool?
    ensures var t := Translate(q, entity).value;
      |t.must| + |t.mustNot| + |t.should| == LeafCount(q)
    ensures var t := Translate(q, entity).value;
      forall x :: x in t.must + t.mustNot + t.should ==> x.Wildcard? || x.QueryString?
  {
    var ls := AllLeaves(q);
    var es := TranslateAll(ls, entity).value;
    SelectPartition(es);
    LeavesCountFrom(q, |q.clauses|);
    TranslateAllPointwise(ls, entity);
    var t := Translate(q, entity).value;
    forall x | x in t.must + t.mustNot + t.should
      ensures x.Wildcard? || x.QueryString?
    {
      SelectMembers(es, Must, x);
      SelectMembers(es, MustNot, x);
      SelectMembers(es, Should, x);
      var o :| Entry(o, x) in es;
      var i :| 0 <= i < |es| && es[i] == Entry(o, x);
      assert TranslateLeaf(ls[i].query, entity) == Ok(x);
    }
  }

  /** The list of a bool container that an occur names. */
  function ListFor(t: EsQuery, o: Occur): seq<EsQuery>
    requires t.Bool?
  {
    match o
    case Must => t.must
    case MustNot => t.mustNot
    case Should => t.should
  }

  /** Each leaf's translation is filed in the list its own occur names, and
      every filed query is the translation of a leaf with that occur. */
  lemma OccurPlacement(q: LuceneQuery, entity: ClassDecl, o: Occur, x: EsQuery)
    requires q.BooleanQuery? && q.text != MATCH_ALL_TEXT && Translate(q, entity).Ok?
    ensures Translate(q, entity).value.Bool?
    ensures x in ListFor(Translate(q, entity).value, o) <==>
      exists i :: 0 <= i < |AllLeaves(q)| && AllLeaves(q)[i].occur == o &&
                  TranslateLeaf(AllLeaves(q)[i].query, entity) == Ok(x)
  {
    var ls := AllLeaves(q);
    var es := TranslateAll(ls, entity).value;
    TranslateAllPointwise(ls, entity);
    SelectMembers(es, o, x);
    if x in ListFor(Translate(q, entity).value, o) {
      var i :| 0 <= i < |es| && es[i] == Entry(o, x);
      assert ls[i].occur == o && TranslateLeaf(ls[i].query, entity) == Ok(x);
    }
    if exists i :: 0 <= i < |ls| && ls[i].occur == o && TranslateLeaf(ls[i].query, entity) == Ok(x) {
      var i :| 0 <= i < |ls| && ls[i].occur == o && TranslateLeaf(ls[i].query, entity) == Ok(x);
      assert es[i] == Entry(o, x);
    }
  }

  /** The order-keeping witness of Positions, read back through leaves
      whose translations the entries are. */
  lemma LeafPositions(ls: seq<BooleanClause>, es: seq<Entry>, entity: ClassDecl, o: Occur)
    requires forall i :: 0 <= i < |ls| ==> !ls[i].query.BooleanQuery?
    requires |es| == |ls|
    requires forall i :: 0 <= i < |ls| ==>
               TranslateLeaf(ls[i].query, entity).Ok? && es[i] == Entry(ls[i].occur, TranslateLeaf(ls[i].query, entity).value)
    ensures var xs := Select(es, o);
      exists idx: seq<nat> ::
        (|idx| == |xs| &&
         (forall k :: 0 <= k < |idx| ==>
            idx[k] < |ls| && ls[idx[k]].occur == o && TranslateLeaf(ls[idx[k]].query, entity) == Ok(xs[k])) &&
         (forall k, l :: 0 <= k < l < |idx| ==> idx[k] < idx[l]) &&
         (forall i :: 0 <= i < |ls| && ls[i].occur == o ==> i in idx))
  {
    var idx := Positions(es, o);
    var xs := Select(es, o);
    forall k | 0 <= k < |idx|
      ensures idx[k] < |ls| && ls[idx[k]].occur == o && TranslateLeaf(ls[idx[k]].query, entity) == Ok(xs[k])
    {
      assert es[idx[k]] == Entry(o, xs[k]);
    }
  }

  /** Within each list the filed queries keep the order of their leaves:
      the k-th query under o translates the idx[k]-th leaf, idx is strictly
      increasing, and it covers every leaf with occur o. */
  lemma ClauseOrderPreserved(q: LuceneQuery, entity: ClassDecl, o: Occur)
    requires q.BooleanQuery? && q.text != MATCH_ALL_TEXT && Translate(q, entity).Ok?
    ensures Translate(q, entity).value.Bool?
    ensures var xs := ListFor(Translate(q, entity).value, o); var ls := AllLeaves(q);
      exists idx: seq<nat> ::
        (|idx| == |xs| &&
         (forall k :: 0 <= k < |idx| ==>
            idx[k] < |ls| && ls[idx[k]].occur == o && TranslateLeaf(ls[idx[k]].query, entity) == Ok(xs[k])) &&
         (forall k, l :: 0 <= k < l < |idx| ==> idx[k] < idx[l]) &&
         (forall i :: 0 <= i < |ls| && ls[i].occur == o ==> i in idx))
  {
    var ls := AllLeaves(q);
    var es := TranslateAll(ls, entity).value;
    TranslateAllPointwise(ls, entity);
    LeafPositions(ls, es, entity, o);
    assert ListFor(Translate(q, entity).value, o) == Select(es, o);
  }

  /** Leaves only depend on the clauses, not on the group's text. */
  lemma {:induction false} LeavesSamePrefix(q: LuceneQuery, q': LuceneQuery, m: nat)
    requires q.BooleanQuery? && q'.BooleanQuery?
    requires m <= |q.clauses| && m <= |q'.clauses| && q.clauses[..m] == q'.clauses[..m]
    ensures Leaves(q, m) == Leaves(q', m)
  {
    if m > 0 {
      assert q.clauses[m - 1] == q.clauses[..m][m - 1];
      assert q.clauses[..m - 1] == q.clauses[..m][..m - 1];
      assert q'.clauses[..m - 1] == q'.clauses[..m][..m - 1];
      LeavesSamePrefix(q, q', m - 1);
    }
  }

  /** The leaves of a concatenation of clause lists are the concatenation of
      their leaves. */
  lemma {:induction false} LeavesOfConcat(t: string, cs1: seq<BooleanClause>, cs2: seq<BooleanClause>, n: nat)
    requires n <= |cs2|
    ensures Leaves(BooleanQuery(t, cs1 + cs2), |cs1| + n) ==
            AllLeaves(BooleanQuery(t, cs1)) + Leaves(BooleanQuery(t, cs2), n)
  {
    var q12 := BooleanQuery(t, cs1 + cs2);
    if n == 0 {
      assert q12.clauses[..|cs1|] == cs1 == BooleanQuery(t, cs1).clauses[..|cs1|];
      LeavesSamePrefix(q12, BooleanQuery(t, cs1), |cs1|);
    } else {
      LeavesOfConcat(t, cs1, cs2, n - 1);
      assert q12.clauses[|cs1| + n - 1] == cs2[n - 1];
    }
  }

  /** A nested group with clauses is flattened into the enclosing container:
      its own clauses keep their occurs and the occur of the clause holding it
      is dropped. */
  lemma NestedGroupFlattened(t: string, o: Occur, inner: LuceneQuery, entity: ClassDecl)
    requires inner.BooleanQuery? && |inner.clauses| > 0
    requires t != MATCH_ALL_TEXT && inner.text != MATCH_ALL_TEXT
    ensures AllLeaves(BooleanQuery(t, [BooleanClause(o, inner)])) == AllLeaves(inner)
    ensures Translate(BooleanQuery(t, [BooleanClause(o, inner)]), entity) == Translate(inner, entity)
  {
    var q := BooleanQuery(t, [BooleanClause(o, inner)]);
    assert Leaves(q, 1) == Leaves(q, 0) + ClauseLeaves(q.clauses[0]);
    assert [] + AllLeaves(inner) == AllLeaves(inner);
  }

  /** A nested group with no clauses contributes nothing and raises nothing:
      the group translates as if that clause were absent. */
  lemma EmptyNestedGroupIgnored(t: string, t': string, cs1: seq<BooleanClause>, cs2: seq<BooleanClause>,
                                o: Occur, t2: string, entity: ClassDecl)
    requires t != MATCH_ALL_TEXT && t' != MATCH_ALL_TEXT
    ensures Translate(BooleanQuery(t, cs1 + [BooleanClause(o, BooleanQuery(t2, []))] + cs2), entity)
         == Translate(BooleanQuery(t', cs1 + cs2), entity)
  {
    var e := [BooleanClause(o, BooleanQuery(t2, []))];
    LeavesOfConcat(t, cs1 + e, cs2, |cs2|);
    LeavesOfConcat(t, cs1, e, 1);
    assert Leaves(BooleanQuery(t, e), 1) == [];
    assert Leaves(BooleanQuery(t, e), 0) == [];
    LeavesOfConcat(t', cs1, cs2, |cs2|);
    LeavesSamePrefix(BooleanQuery(t, cs1), BooleanQuery(t', cs1), |cs1|);
    LeavesSamePrefix(BooleanQuery(t, cs2), BooleanQuery(t', cs2), |cs2|);
    assert AllLeaves(BooleanQuery(t, cs1 + e)) == AllLeaves(BooleanQuery(t, cs1)) + [];
    assert AllLeaves(BooleanQuery(t, cs1 + e + cs2)) == AllLeaves(BooleanQuery(t', cs1 + cs2));
  }

  /** A wildcard on an un-tokenized field targets that field's raw twin with
      the term text unchanged. */
  lemma WildcardOnRawField(q: LuceneQuery, entity: ClassDecl, j: nat)
    requires q.WildcardQuery? && UniqueFieldNames(entity)
    requires j < |entity.fields| && entity.fields[j].name == q.term.field
    requires entity.fields[j].searchField == Some(UnTokenized)
    ensures TranslateWildcard(q, entity) == Ok(Wildcard(q.term.field + RAW_SUFFIX, q.term.text))
  {
    var k := DeclaredField(entity.fields, q.term.field);
    assert k == Some(j);
  }

  /** A wildcard on any other indexed field falls back to query_string of the
      node's text; no wildcard is ever issued on the analyzed field itself. */
  lemma WildcardOnAnalyzedField(q: LuceneQuery, entity: ClassDecl, j: nat)
    requires q.WildcardQuery? && UniqueFieldNames(entity)
    requires j < |entity.fields| && entity.fields[j].name == q.term.field
    requires entity.fields[j].searchField.Some? && entity.fields[j].searchField != Some(UnTokenized)
    ensures TranslateWildcard(q, entity) == Ok(QueryString(q.text))
  {
    var k := DeclaredField(entity.fields, q.term.field);
    assert k == Some(j);
  }

  /** A wildcard on a field the entity does not declare, or declares without
      `@Field`, raises. */
  lemma WildcardFieldErrors(q: LuceneQuery, entity: ClassDecl)
    requires q.WildcardQuery? && UniqueFieldNames(entity)
    ensures (forall j :: 0 <= j < |entity.fields| ==> entity.fields[j].name != q.term.field) ==>
              TranslateWildcard(q, entity) == Err(NoSuchField(q.term.field))
    ensures (exists j :: 0 <= j < |entity.fields| && entity.fields[j].name == q.term.field) &&
            (forall j :: 0 <= j < |entity.fields| && entity.fields[j].name == q.term.field ==>
               entity.fields[j].searchField.None?) ==>
              TranslateWildcard(q, entity) == Err(NullPointer("@Field"))
  {
  }
}
