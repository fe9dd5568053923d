/** The pure stages of the format conversion pipeline.

    Stage 1 turns spreadsheet rows and a column mapping into a
    `root/row/field` markup tree. Stage 2 (markup to graph) runs an external
    extraction engine and is a parameter of the model (`CheckRouter.Services`).
    Stage 3 turns a graph into a JSON-LD document whose nodes partition each
    subject's properties into quantitative properties and relations. */
module Convertors {
  import opened Outcomes
  import opened Rdf
  import Store

  // ----- Stage 1: rows to markup -------------------------------------------

  /** A markup element: tag, optional text, children in document order. */
  datatype Element = Element(tag: string, text: Option<string>, children: seq<Element>)

  const Placeholder: string := "N/A"

  /** `str(row.get(column, 'N/A'))`: a column the row does not have yields the
      placeholder; a present cell is rendered with `str` (the `render`
      parameter), whatever its value. */
  function CellText<V>(row: map<string, V>, column: string, render: V -> string): string {
    if column in row then render(row[column]) else Placeholder
  }

  /** The field elements of one row, one per mapping entry, in mapping order. */
  function Fields<V>(row: map<string, V>, mapping: seq<(string, string)>, render: V -> string): (r: seq<Element>)
    ensures |r| == |mapping|
    ensures forall j :: 0 <= j < |mapping| ==>
      r[j] == Element(mapping[j].1, Some(CellText(row, mapping[j].0, render)), [])
  {
    if mapping == [] then []
    else
      [Element(mapping[0].1, Some(CellText(row, mapping[0].0, render)), [])]
        + Fields(row, mapping[1..], render)
  }

  /** The `row` elements, one per input row, in row order. */
  function RowElements<V>(rows: seq<map<string, V>>, mapping: seq<(string, string)>, render: V -> string)
    : (r: seq<Element>)
    ensures |r| == |rows|
    ensures forall i :: 0 <= i < |rows| ==> r[i] == Element("row", None, Fields(rows[i], mapping, render))
  {
    if rows == [] then []
    else [Element("row", None, Fields(rows[0], mapping, render))] + RowElements(rows[1..], mapping, render)
  }

  /** `dataframe_to_xml`. */
  function DataFrameToXml<V>(rows: seq<map<string, V>>, mapping: seq<(string, string)>, render: V -> string)
    : (r: Element)
    ensures r.tag == "root" && r.text.None?
    ensures |r.children| == |rows|
    ensures forall i :: 0 <= i < |rows| ==>
      && r.children[i].tag == "row"
      && |r.children[i].children| == |mapping|
      && forall j :: 0 <= j < |mapping| ==>
        && r.children[i].children[j].tag == mapping[j].1
        && r.children[i].children[j].text == Some(CellText(rows[i], mapping[j].0, render))
        && r.children[i].children[j].children == []
  {
    Element("root", None, RowElements(rows, mapping, render))
  }

  /** Reading one markup record back as a dictionary from field tag to text;
      a later field with the same tag overwrites an earlier one. */
  function ReadRecord(fields: seq<Element>): (m: map<string, string>)
    ensures forall k :: k in m <==> exists j :: 0 <= j < |fields| && fields[j].tag == k
  {
    if fields == [] then map[]
    else
      var last := fields[|fields| - 1];
      var m := ReadRecord(fields[..|fields| - 1]);
      assert forall j :: 0 <= j < |fields| - 1 ==> fields[..|fields| - 1][j] == fields[j];
      m[last.tag := if last.text.Some? then last.text.value else ""]
  }

  lemma {:induction false} ReadRecordDistinct(fields: seq<Element>, j: int)
    requires forall a, b :: 0 <= a < b < |fields| ==> fields[a].tag != fields[b].tag
    requires 0 <= j < |fields| && fields[j].text.Some?
    ensures ReadRecord(fields)[fields[j].tag] == fields[j].text.value
  {
    if j < |fields| - 1 {
      var init := fields[..|fields| - 1];
      assert init[j] == fields[j];
      ReadRecordDistinct(init, j);
    }
  }

  /** Reading the markup back recovers every cell under its target name, when
      the target names are distinct: the rendered value for a column the row
      has, the placeholder for one it lacks. */
  lemma MarkupRoundTrip<V>(rows: seq<map<string, V>>, mapping: seq<(string, string)>, render: V -> string, i: int, j: int)
    requires forall a, b :: 0 <= a < b < |mapping| ==> mapping[a].1 != mapping[b].1
    requires 0 <= i < |rows| && 0 <= j < |mapping|
    ensures var x := DataFrameToXml(rows, mapping, render);
      ReadRecord(x.children[i].children)[mapping[j].1]
        == if mapping[j].0 in rows[i] then render(rows[i][mapping[j].0]) else Placeholder
  {
    var fields := DataFrameToXml(rows, mapping, render).children[i].children;
    ReadRecordDistinct(fields, j);
  }

  // ----- Stage 3: graph to JSON-LD -------------------------------------------

  const ContextUris: seq<string> := [
    "https://stdigichecksprod.blob.core.windows.net/public/REALIA_context.jsonld",
    "https://stdigichecksprod.blob.core.windows.net/public/digiChecks_topLevelPermitOntology_context.jsonld"
  ]

  const SmlHasUnit: Term := Iri("https://w3id.org/sml/def#hasUnit")

  /** A quantitative property: the object's `rdf:value` and its unit's prefixed
      name, or `None` when it has no (truthy) unit. */
  datatype QuantValue = QuantValue(value: Term, hasUnit: Option<string>)

  /** One element of the document's `@graph`. */
  datatype Node = Node(
    id: string,
    nodeType: string,
    quantitative: map<string, QuantValue>,
    nonQuantitative: map<string, string>,
    relations: map<string, string>)

  /** A JSON-LD document: `@context` and `@graph`. */
  datatype JsonLd = JsonLd(context: seq<string>, graph: seq<Node>)

  /** The object `o` carries a value: some triple `(o, rdf:value, _)` exists. */
  predicate HasValue(g: Graph, o: Term) {
    Value(g, o, RdfValue).Some?
  }

  /** The subject has a truthy `rdf:type`, so it gets a node. */
  predicate Typed(g: Graph, s: Term) {
    Value(g, s, RdfType).Some? && Value(g, s, RdfType).value.Truthy()
  }

  function QuantOf(g: Graph, o: Term, qname: Term -> string): QuantValue
    requires HasValue(g, o)
  {
    var unit := Value(g, o, SmlHasUnit);
    QuantValue(Value(g, o, RdfValue).value,
      if unit.Some? && unit.value.Truthy() then Some(qname(unit.value)) else None)
  }

  /** A relation's value: the prefixed name of an IRI, `str` of anything else. */
  function RelationTarget(o: Term, qname: Term -> string): string {
    if o.Iri? then qname(o) else o.Text()
  }

  /** Triple `i` is a `(s, p, o)` pair of the subject other than `rdf:type`. */
  predicate PairOf(g: Graph, s: Term, i: int)
    requires 0 <= i < |g|
  {
    g[i].s == s && g[i].p != RdfType
  }

  predicate QuantPair(g: Graph, s: Term, i: int)
    requires 0 <= i < |g|
  {
    PairOf(g, s, i) && HasValue(g, g[i].o)
  }

  predicate RelationPair(g: Graph, s: Term, i: int)
    requires 0 <= i < |g|
  {
    PairOf(g, s, i) && !HasValue(g, g[i].o)
  }

  /** `quantitativeProperties` after visiting the first `n` triples: keyed by
      the predicate's prefixed name, the last pair with a key wins. */
  function QuantProps(g: Graph, n: nat, s: Term, qname: Term -> string): (m: map<string, QuantValue>)
    requires n <= |g|
    ensures forall k :: k in m <==> exists i :: 0 <= i < n && QuantPair(g, s, i) && qname(g[i].p) == k
  {
    if n == 0 then map[]
    else
      var m := QuantProps(g, n - 1, s, qname);
      if QuantPair(g, s, n - 1) then m[qname(g[n - 1].p) := QuantOf(g, g[n - 1].o, qname)] else m
  }

  /** `relations` after visiting the first `n` triples, last pair per key wins. */
  function Relations(g: Graph, n: nat, s: Term, qname: Term -> string): (m: map<string, string>)
    requires n <= |g|
    ensures forall k :: k in m <==> exists i :: 0 <= i < n && RelationPair(g, s, i) && qname(g[i].p) == k
  {
    if n == 0 then map[]
    else
      var m := Relations(g, n - 1, s, qname);
      if RelationPair(g, s, n - 1) then m[qname(g[n - 1].p) := RelationTarget(g[n - 1].o, qname)] else m
  }

  /** The value stored under a key is that of the last quantitative pair with
      that key. */
  lemma {:induction false} QuantPropsLastWins(g: Graph, n: nat, s: Term, qname: Term -> string, i: int)
    requires n <= |g| && 0 <= i < n && QuantPair(g, s, i)
    requires forall j :: i < j < n && QuantPair(g, s, j) ==> qname(g[j].p) != qname(g[i].p)
    ensures QuantProps(g, n, s, qname)[qname(g[i].p)] == QuantOf(g, g[i].o, qname)
  {
    if i < n - 1 {
      QuantPropsLastWins(g, n - 1, s, qname, i);
    }
  }

  /** The value stored under a key is that of the last relation pair with
      that key. */
  lemma {:induction false} RelationsLastWins(g: Graph, n: nat, s: Term, qname: Term -> string, i: int)
    requires n <= |g| && 0 <= i < n && RelationPair(g, s, i)
    requires forall j :: i < j < n && RelationPair(g, s, j) ==> qname(g[j].p) != qname(g[i].p)
    ensures Relations(g, n, s, qname)[qname(g[i].p)] == RelationTarget(g[i].o, qname)
  {
    if i < n - 1 {
      RelationsLastWins(g, n - 1, s, qname, i);
    }
  }

  /** The node built for a typed subject. */
  function MakeNode(g: Graph, s: Term, qname: Term -> string): (r: Node)
    requires Typed(g, s)
    ensures r.id == qname(s)
    ensures r.nodeType == qname(Value(g, s, RdfType).value)
    ensures r.nonQuantitative == map[]
    ensures forall k :: k in r.quantitative <==>
      exists i :: 0 <= i < |g| && QuantPair(g, s, i) && qname(g[i].p) == k
    ensures forall k :: k in r.relations <==>
      exists i :: 0 <= i < |g| && RelationPair(g, s, i) && qname(g[i].p) == k
  {
    Node(qname(s), qname(Value(g, s, RdfType).value),
      QuantProps(g, |g|, s, qname), map[], Relations(g, |g|, s, qname))
  }

  /** Every non-type pair of a subject falls in exactly one partition: the
      quantitative one exactly when its object carries an `rdf:value`. A type
      pair falls in neither. */
  lemma PairClassifiedOnce(g: Graph, s: Term, i: int)
    requires 0 <= i < |g| && g[i].s == s
    ensures g[i].p == RdfType ==> !QuantPair(g, s, i) && !RelationPair(g, s, i)
    ensures g[i].p != RdfType ==> (QuantPair(g, s, i) <==> !RelationPair(g, s, i))
    ensures QuantPair(g, s, i) <==>
      g[i].p != RdfType && exists j :: 0 <= j < |g| && g[j].s == g[i].o && g[j].p == RdfValue
  {
    ValueIsFirstMatch(g, g[i].o, RdfValue);
  }

  /** The triples whose subject is typed, in graph order. */
  function TypedTriples(g: Graph): seq<Triple> {
    Store.Where(g, (t: Triple) => Typed(g, t.s))
  }

  /** The loop `for x in rows: if keep(x): out.append(f(x))`. */
  function Emit<T, U>(rows: seq<T>, keep: T -> bool, f: T --> U): seq<U>
    requires forall x :: x in rows && keep(x) ==> f.requires(x)
  {
    if rows == [] then []
    else
      var rest := Emit(rows[1..], keep, f);
      if keep(rows[0]) then [f(rows[0])] + rest else rest
  }

  /** The loop emits one output per kept row, in row order, computed from
      that row. */
  lemma {:induction false} EmitMapsKeptRows<T(!new), U>(rows: seq<T>, keep: T -> bool, f: T --> U)
    requires forall x :: x in rows && keep(x) ==> f.requires(x)
    ensures |Emit(rows, keep, f)| == |Store.Where(rows, keep)|
    ensures forall j :: 0 <= j < |Emit(rows, keep, f)| ==>
      f.requires(Store.Where(rows, keep)[j]) && Emit(rows, keep, f)[j] == f(Store.Where(rows, keep)[j])
  {
    if rows != [] {
      assert forall x :: x in rows[1..] ==> x in rows;
      EmitMapsKeptRows(rows[1..], keep, f);
      var out, outRest := Emit(rows, keep, f), Emit(rows[1..], keep, f);
      var kept, keptRest := Store.Where(rows, keep), Store.Where(rows[1..], keep);
      if keep(rows[0]) {
        assert rows[0] in rows;
        assert kept == [rows[0]] + keptRest;
        assert out == [f(rows[0])] + outRest;
        forall j | 0 <= j < |out|
          ensures f.requires(kept[j]) && out[j] == f(kept[j])
        {
          if j > 0 {
            assert out[j] == outRest[j - 1] && kept[j] == keptRest[j - 1];
          }
        }
      } else {
        assert kept == keptRest && out == outRest;
      }
    }
  }

  /** The nodes `graph_to_json_ld` emits when every step succeeds: one per
      triple whose subject is typed, in graph order, so a subject appears
      once per triple it has. */
  function Nodes(g: Graph, name: Term -> string): seq<Node> {
    Emit(g, (t: Triple) => Typed(g, t.s), (t: Triple) requires Typed(g, t.s) => MakeNode(g, t.s, name))
  }

  /** The nodes emitted for the typed triples are `MakeNode` of their
      subjects, in order. */
  lemma NodesOfTypedTriples(g: Graph, name: Term -> string)
    ensures |Nodes(g, name)| == |TypedTriples(g)|
    ensures forall j :: 0 <= j < |Nodes(g, name)| ==>
      Typed(g, TypedTriples(g)[j].s) && Nodes(g, name)[j] == MakeNode(g, TypedTriples(g)[j].s, name)
  {
    EmitMapsKeptRows(g, (t: Triple) => Typed(g, t.s), (t: Triple) requires Typed(g, t.s) => MakeNode(g, t.s, name));
  }

  // ----- Stage 3 with its failures ---------------------------------------------

  /** `graph.qname(term)` succeeds with the prefixed name or raises (a blank
      node, or an IRI the namespace manager cannot split). Once every call of
      a conversion succeeded, the names it used are those of `Names`. */
  function Names(qname: Term -> Result<string>): (name: Term -> string)
    ensures forall t :: qname(t).Ok? ==> name(t) == qname(t).value
  {
    (t: Term) => if qname(t).Ok? then qname(t).value else ""
  }

  /** `graph.qname` refuses every blank node, as the namespace manager does. */
  ghost predicate RefusesBlanks(qname: Term -> Result<string>) {
    forall b :: qname(Blank(b)).Err?
  }

  /** Python's name of a term's class. */
  function ClassName(t: Term): string {
    match t
    case Iri(_) => "URIRef"
    case Literal(_) => "Literal"
    case Blank(_) => "BNode"
  }

  /** `value_triples[0][2].value`: only a literal has a `value` attribute. */
  function LiteralValue(v: Term): (r: Result<Term>)
    ensures r.Ok? <==> v.Literal?
    ensures r.Ok? ==> r.value == v
    ensures r.Err? ==> r.error == Raised("AttributeError", "'" + ClassName(v) + "' object has no attribute 'value'")
  {
    if v.Literal? then Ok(v)
    else Err(Raised("AttributeError", "'" + ClassName(v) + "' object has no attribute 'value'"))
  }

  /** The calls that can raise while visiting triple `i`, in the order Python
      evaluates them: for a quantitative pair the `.value` of the value
      object, the unit's qname (only for a truthy unit), then the predicate's
      qname; for a relation, the object's qname when it is an IRI, then the
      predicate's. */
  function PairStep(g: Graph, s: Term, i: int, qname: Term -> Result<string>): (r: Result<()>)
    requires 0 <= i < |g|
    ensures !PairOf(g, s, i) ==> r.Ok?
    ensures QuantPair(g, s, i) && !Value(g, g[i].o, RdfValue).value.Literal? ==>
      r.Err? && r.error.Raised? && r.error.exception == "AttributeError"
    ensures PairOf(g, s, i) && qname(g[i].p).Err? ==> r.Err?
    ensures RelationPair(g, s, i) && g[i].o.Iri? && qname(g[i].o).Err? ==> r == Err(qname(g[i].o).error)
    ensures r.Ok? <==>
      || !PairOf(g, s, i)
      || (&& qname(g[i].p).Ok?
          && (QuantPair(g, s, i) ==>
                && Value(g, g[i].o, RdfValue).value.Literal?
                && (Value(g, g[i].o, SmlHasUnit).Some? && Value(g, g[i].o, SmlHasUnit).value.Truthy() ==>
                      qname(Value(g, g[i].o, SmlHasUnit).value).Ok?))
          && (RelationPair(g, s, i) && g[i].o.Iri? ==> qname(g[i].o).Ok?))
  {
    if !PairOf(g, s, i) then Ok(())
    else if HasValue(g, g[i].o) then
      var value :- LiteralValue(Value(g, g[i].o, RdfValue).value);
      var unit := Value(g, g[i].o, SmlHasUnit);
      var unitName :- if unit.Some? && unit.value.Truthy() then qname(unit.value) else Ok("");
      var key :- qname(g[i].p);
      Ok(())
    else if g[i].o.Iri? then
      var target :- qname(g[i].o);
      var key :- qname(g[i].p);
      Ok(())
    else
      var key :- qname(g[i].p);
      Ok(())
  }

  /** The pair loop over the first `n` triples: the first failing step is
      the error. */
  function PairSteps(g: Graph, n: nat, s: Term, qname: Term -> Result<string>): (r: Result<()>)
    requires n <= |g|
    ensures r.Ok? <==> forall i :: 0 <= i < n ==> PairStep(g, s, i, qname).Ok?
    ensures r.Err? ==>
      exists i :: (0 <= i < n && PairStep(g, s, i, qname) == r
                   && forall j :: 0 <= j < i ==> PairStep(g, s, j, qname).Ok?)
  {
    if n == 0 then Ok(())
    else
      var before :- PairSteps(g, n - 1, s, qname);
      PairStep(g, s, n - 1, qname)
  }

  /** The node of a typed subject, with its failures: the subject's qname,
      then its type's, then the pair loop. On success it is the node
      `MakeNode` describes, named by `qname`. */
  function BuildNode(g: Graph, s: Term, qname: Term -> Result<string>): (r: Result<Node>)
    requires Typed(g, s)
    ensures r.Ok? <==> qname(s).Ok? && qname(Value(g, s, RdfType).value).Ok? && PairSteps(g, |g|, s, qname).Ok?
    ensures qname(s).Err? ==> r == Err(qname(s).error)
    ensures r.Ok? ==>
      && r.value == MakeNode(g, s, Names(qname))
      && r.value.id == qname(s).value && r.value.nodeType == qname(Value(g, s, RdfType).value).value
  {
    var id :- qname(s);
    var nodeType :- qname(Value(g, s, RdfType).value);
    var pairs :- PairSteps(g, |g|, s, qname);
    Ok(MakeNode(g, s, Names(qname)))
  }

  /** The loop over `graph.subjects()`, one subject per triple: a node for
      each typed subject; the first node that fails is the error. */
  function EmitNodes(g: Graph, rows: seq<Triple>, qname: Term -> Result<string>): (r: Result<seq<Node>>)
    ensures r.Ok? <==> forall j :: 0 <= j < |rows| && Typed(g, rows[j].s) ==> BuildNode(g, rows[j].s, qname).Ok?
    ensures r.Ok? ==> r.value == Emit(rows, (t: Triple) => Typed(g, t.s),
      (t: Triple) requires Typed(g, t.s) => MakeNode(g, t.s, Names(qname)))
    ensures r.Err? ==>
      exists j :: (0 <= j < |rows| && Typed(g, rows[j].s)
                   && BuildNode(g, rows[j].s, qname) == Err(r.error)
                   && forall k :: 0 <= k < j && Typed(g, rows[k].s) ==> BuildNode(g, rows[k].s, qname).Ok?)
  {
    if rows == [] then Ok([])
    else
      assert forall j :: 1 <= j < |rows| ==> rows[j] == rows[1..][j - 1];
      if Typed(g, rows[0].s) then
        var node :- BuildNode(g, rows[0].s, qname);
        var rest :- EmitNodes(g, rows[1..], qname);
        Ok([node] + rest)
      else
        EmitNodes(g, rows[1..], qname)
  }

  /** `graph_to_json_ld`: the two fixed context URIs and one node per triple
      with a typed subject, in graph order; any `qname` that raises, and an
      `rdf:value` object that is not a literal, abort the conversion. */
  function GraphToJsonLd(g: Graph, qname: Term -> Result<string>): (r: Result<JsonLd>)
    ensures r.Ok? <==> forall i :: 0 <= i < |g| && Typed(g, g[i].s) ==> BuildNode(g, g[i].s, qname).Ok?
    ensures r.Ok? ==> r.value.context == ContextUris && r.value.graph == Nodes(g, Names(qname))
    ensures r.Err? ==> exists i :: 0 <= i < |g| && Typed(g, g[i].s) && BuildNode(g, g[i].s, qname) == Err(r.error)
  {
    var nodes :- EmitNodes(g, g, qname);
    Ok(JsonLd(ContextUris, nodes))
  }

  /** Every node of a converted document describes a typed subject of the
      graph, with the names `qname` gave. */
  lemma NodesDescribeTypedSubjects(g: Graph, qname: Term -> Result<string>, j: int)
    requires GraphToJsonLd(g, qname).Ok?
    requires 0 <= j < |GraphToJsonLd(g, qname).value.graph|
    ensures exists i :: (0 <= i < |g| && Typed(g, g[i].s)
                         && GraphToJsonLd(g, qname).value.graph[j] == MakeNode(g, g[i].s, Names(qname))
                         && GraphToJsonLd(g, qname).value.graph[j].id == qname(g[i].s).value)
  {
    NodesOfTypedTriples(g, Names(qname));
    var w := TypedTriples(g);
    assert w[j] in g;
    var i :| 0 <= i < |g| && g[i] == w[j];
    assert BuildNode(g, g[i].s, qname).Ok?;
  }

  /** Every typed subject of a converted graph has a node in the document. */
  lemma TypedSubjectsGetNodes(g: Graph, qname: Term -> Result<string>, i: int)
    requires GraphToJsonLd(g, qname).Ok?
    requires 0 <= i < |g| && Typed(g, g[i].s)
    ensures MakeNode(g, g[i].s, Names(qname)) in GraphToJsonLd(g, qname).value.graph
  {
    NodesOfTypedTriples(g, Names(qname));
    var w := TypedTriples(g);
    assert g[i] in w;
    var j :| 0 <= j < |w| && w[j] == g[i];
    assert GraphToJsonLd(g, qname).value.graph[j] == MakeNode(g, g[i].s, Names(qname));
  }

  /** A node whose build fails makes the whole conversion fail. */
  lemma FailingNodeFailsConversion(g: Graph, qname: Term -> Result<string>, i: int)
    requires 0 <= i < |g| && Typed(g, g[i].s) && BuildNode(g, g[i].s, qname).Err?
    ensures GraphToJsonLd(g, qname).Err?
  {
  }

  /** A step of the pair loop that raises makes the node fail. */
  lemma FailingStepFailsNode(g: Graph, s: Term, qname: Term -> Result<string>, i: int)
    requires 0 <= i < |g| && Typed(g, s) && PairStep(g, s, i, qname).Err?
    ensures BuildNode(g, s, qname).Err?
  {
    assert PairSteps(g, |g|, s, qname).Err?;
  }

  /** A quantitative pair of a typed subject whose `rdf:value` object is an
      IRI or a blank node makes the whole conversion raise. */
  lemma NonLiteralValueFailsConversion(g: Graph, qname: Term -> Result<string>, i: int)
    requires 0 <= i < |g| && Typed(g, g[i].s) && QuantPair(g, g[i].s, i)
    requires !Value(g, g[i].o, RdfValue).value.Literal?
    ensures GraphToJsonLd(g, qname).Err?
  {
    var s := g[i].s;
    var step := PairStep(g, s, i, qname);
    FailingStepFailsNode(g, s, qname, i);
    FailingNodeFailsConversion(g, qname, i);
  }

  /** Under a namespace manager that refuses blank nodes, a typed blank
      subject makes the conversion raise. */
  lemma TypedBlankSubjectFailsConversion(g: Graph, qname: Term -> Result<string>, i: int)
    requires RefusesBlanks(qname)
    requires 0 <= i < |g| && Typed(g, g[i].s) && g[i].s.Blank?
    ensures GraphToJsonLd(g, qname).Err?
  {
    assert qname(g[i].s).Err?;
    FailingNodeFailsConversion(g, qname, i);
  }

  /** In the graph `a rdf:type C . a p b .` both triples belong to the typed
      subject `a`. */
  lemma TwoTriplesOfOneSubject(a: Term, c: Term, p: Term, b: Term)
    requires a == Iri("ex:a") && c == Iri("ex:C") && p == Iri("ex:p") && b == Iri("ex:b")
    ensures var g := [Triple(a, RdfType, c), Triple(a, p, b)];
      && Value(g, a, RdfType) == Some(c) && Typed(g, a) && !HasValue(g, b)
      && TypedTriples(g) == g
  {
    var g := [Triple(a, RdfType, c), Triple(a, p, b)];
    assert Typed(g, a);
    ValueIsFirstMatch(g, b, RdfValue);
    assert g[1..][1..] == [];
    var keep := (t: Triple) => Typed(g, t.s);
    assert keep(g[0]) && keep(g[1]);
    Store.WhereAppend([], keep, g[0]);
    assert [] + [g[0]] == [g[0]];
    Store.WhereAppend([g[0]], keep, g[1]);
    assert [g[0]] + [g[1]] == g;
  }

  /** The node of `a` in that graph is built exactly when the four names exist. */
  lemma TwoTriplesNode(qname: Term -> Result<string>, a: Term, c: Term, p: Term, b: Term)
    requires a == Iri("ex:a") && c == Iri("ex:C") && p == Iri("ex:p") && b == Iri("ex:b")
    ensures var g := [Triple(a, RdfType, c), Triple(a, p, b)];
      && Typed(g, a)
      && (BuildNode(g, a, qname).Ok? <==> qname(a).Ok? && qname(c).Ok? && qname(p).Ok? && qname(b).Ok?)
  {
    var g := [Triple(a, RdfType, c), Triple(a, p, b)];
    TwoTriplesOfOneSubject(a, c, p, b);
    assert PairStep(g, a, 0, qname).Ok?;
    assert PairStep(g, a, 1, qname).Ok? <==> qname(p).Ok? && qname(b).Ok?;
    assert PairSteps(g, 2, a, qname).Ok? <==> qname(p).Ok? && qname(b).Ok?;
  }

  /** A typed subject with two triples gets two identical nodes, once the
      names of the subject, its type, the predicate and the IRI target exist. */
  lemma SubjectVisitedOncePerTriple(qname: Term -> Result<string>)
    ensures
      var a, c, p, b := Iri("ex:a"), Iri("ex:C"), Iri("ex:p"), Iri("ex:b");
      var doc := GraphToJsonLd([Triple(a, RdfType, c), Triple(a, p, b)], qname);
      && (doc.Ok? <==> qname(a).Ok? && qname(c).Ok? && qname(p).Ok? && qname(b).Ok?)
      && (doc.Ok? ==> |doc.value.graph| == 2 && doc.value.graph[0] == doc.value.graph[1])
  {
    var a, c, p, b := Iri("ex:a"), Iri("ex:C"), Iri("ex:p"), Iri("ex:b");
    var g := [Triple(a, RdfType, c), Triple(a, p, b)];
    TwoTriplesOfOneSubject(a, c, p, b);
    TwoTriplesNode(qname, a, c, p, b);
    NodesOfTypedTriples(g, Names(qname));
  }
}
