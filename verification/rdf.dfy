/** RDF terms and graphs as the conversion pipeline and the rule resolver see
    them. A graph is a sequence of triples in the store's iteration order. */
module Rdf {
  import opened Outcomes

  datatype Term = Iri(iri: string) | Literal(lexical: string) | Blank(nodeId: string) {

    /** `str(term)`. */
    function Text(): string {
      match this
      case Iri(i) => i
      case Literal(l) => l
      case Blank(b) => b
    }

    /** Python truthiness of a term: the empty text is false. */
    predicate Truthy() {
      |Text()| > 0
    }
  }

  datatype Triple = Triple(s: Term, p: Term, o: Term)

  type Graph = seq<Triple>

  const RdfType: Term := Iri("http://www.w3.org/1999/02/22-rdf-syntax-ns#type")
  const RdfValue: Term := Iri("http://www.w3.org/1999/02/22-rdf-syntax-ns#value")

  /** `graph.value(s, p)`: the object of the first `(s, p, _)` triple, if any. */
  function Value(g: Graph, s: Term, p: Term): Option<Term> {
    if g == [] then None
    else if g[0].s == s && g[0].p == p then Some(g[0].o)
    else Value(g[1..], s, p)
  }

  /** `Value` finds nothing exactly when no triple matches, and otherwise the
      object of the first matching triple. */
  lemma {:induction false} ValueIsFirstMatch(g: Graph, s: Term, p: Term)
    ensures Value(g, s, p).None? <==> forall i :: 0 <= i < |g| ==> !(g[i].s == s && g[i].p == p)
    ensures Value(g, s, p).Some? ==>
      exists i :: 0 <= i < |g| && g[i].s == s && g[i].p == p && g[i].o == Value(g, s, p).value
        && forall j :: 0 <= j < i ==> !(g[j].s == s && g[j].p == p)
  {
    if g != [] && !(g[0].s == s && g[0].p == p) {
      ValueIsFirstMatch(g[1..], s, p);
      assert forall i :: 1 <= i < |g| ==> g[i] == g[1..][i - 1];
      if Value(g, s, p).Some? {
        var i :| 0 <= i < |g[1..]| && g[1..][i].s == s && g[1..][i].p == p
          && g[1..][i].o == Value(g, s, p).value
          && forall j :: 0 <= j < i ==> !(g[1..][j].s == s && g[1..][j].p == p);
        assert g[i + 1].o == Value(g, s, p).value;
      }
    } else if g != [] {
      assert g[0].o == Value(g, s, p).value;
    }
  }
}
