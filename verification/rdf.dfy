/**
  The RDF side of the translation: nodes, triples, statements and a graph
  snapshot. The graph is a collaborator of the modelled code; the parts of it
  whose implementation is not modelled (typed views, statement splitting and
  the triples that carry a statement's annotations) are uninterpreted
  functions stored in the snapshot.
 */
module Rdf {
  import opened Wrappers

  /** A graph node: a named (URI) resource, a blank node or a literal. */
  datatype Node = Uri(iri: string) | Blank(name: string) | Literal(lexical: string)

  /** An RDF fact `s p o`. */
  datatype Triple = Triple(s: Node, p: Node, o: Node)

  /** An annotation `property value` attached to a statement. */
  datatype Annotation = Annotation(property: Node, value: Node)

  /**
    A statement of the graph: its triple, whether it is asserted in the base
    graph (`local`) rather than reachable only through an import, and the
    annotations the graph attaches to it, in the order they are collected.
   */
  datatype Statement = Statement(triple: Triple, local: bool, annotations: seq<Annotation>)

  /** The typed views a subject node can be asked for (`canAs`). */
  datatype View =
    | ObjectPropertyExpression
    | ObjectCardinality
    | ObjectMaxCardinality
    | ObjectMinCardinality

  /**
    A point-in-time snapshot of the graph. `statements` is the graph's own
    enumeration order. `canAs` answers whether a node can be viewed as the
    given shape, `split` is the list of split variants of a statement (one per
    independent annotation assertion) and `annotationTriples` lists the
    triples that carry a statement's annotations.
   */
  datatype Graph = Graph(
    statements: seq<Statement>,
    canAs: (Node, View) -> bool,
    split: Statement -> seq<Statement>,
    annotationTriples: Statement -> seq<Triple>)

  const RdfNs := "http://www.w3.org/1999/02/22-rdf-syntax-ns#"
  const OwlNs := "http://www.w3.org/2002/07/owl#"

  const RdfType := Uri(RdfNs + "type")
  const OwlIrreflexiveProperty := Uri(OwlNs + "IrreflexiveProperty")
  const OwlCardinality := Uri(OwlNs + "cardinality")
  const OwlMaxCardinality := Uri(OwlNs + "maxCardinality")
  const OwlMinCardinality := Uri(OwlNs + "minCardinality")
  const OwlThingIri := OwlNs + "Thing"

  /** Pattern lookup `(?, p, ?)`: the statements with predicate `p`, in graph order. */
  function ByPredicate(sts: seq<Statement>, p: Node): (r: seq<Statement>)
    ensures forall st :: st in r <==> st in sts && st.triple.p == p
    ensures |r| <= |sts|
  {
    if sts == [] then []
    else (if sts[0].triple.p == p then [sts[0]] else []) + ByPredicate(sts[1..], p)
  }

  /** The graph after every statement whose triple is in `ts` has been deleted. */
  function Remove(g: Graph, ts: seq<Triple>): (r: Graph)
    ensures forall st :: st in r.statements <==> st in g.statements && st.triple !in ts
    ensures TriplesUnique(g.statements) ==> TriplesUnique(r.statements)
    ensures r.canAs == g.canAs && r.split == g.split && r.annotationTriples == g.annotationTriples
  {
    g.(statements := Keep(g.statements, ts))
  }

  function Keep(sts: seq<Statement>, ts: seq<Triple>): (r: seq<Statement>)
    ensures forall st :: st in r <==> st in sts && st.triple !in ts
    ensures TriplesUnique(sts) ==> TriplesUnique(r)
  {
    if sts == [] then []
    else
      var rest := Keep(sts[1..], ts);
      if sts[0].triple in ts then rest
      else
        assert sts == [sts[0]] + sts[1..];
        PrependUnique(sts[0], rest, sts[1..]);
        [sts[0]] + rest
  }

  /** A statement whose triple no later statement has can be put in front of a unique sequence. */
  lemma PrependUnique(st: Statement, rest: seq<Statement>, origin: seq<Statement>)
    requires forall x :: x in rest ==> x in origin
    ensures TriplesUnique(rest) && TriplesUnique([st] + origin) ==> TriplesUnique([st] + rest)
  {
    var r := [st] + rest;
    if TriplesUnique(rest) && TriplesUnique([st] + origin) {
      forall i, j | 0 <= i < j < |r| ensures r[i].triple != r[j].triple {
        assert r[j] == rest[j - 1] && rest[j - 1] in origin;
        if i == 0 {
          var k :| 0 <= k < |origin| && origin[k] == rest[j - 1];
          assert ([st] + origin)[0] == st && ([st] + origin)[k + 1] == origin[k];
        } else {
          assert r[i] == rest[i - 1];
          assert rest[i - 1].triple != rest[j - 1].triple;
        }
      }
    }
  }

  /** A graph in which every triple is the triple of at most one statement, as in an RDF graph (a set of triples). */
  predicate TriplesUnique(sts: seq<Statement>) {
    forall i, j :: 0 <= i < j < |sts| ==> sts[i].triple != sts[j].triple
  }

  /** The position of the first statement whose triple is `t`. */
  function IndexOfTriple(sts: seq<Statement>, t: Triple): (r: Option<nat>)
    ensures r.None? <==> forall st :: st in sts ==> st.triple != t
    ensures r.Some? ==> r.value < |sts| && sts[r.value].triple == t
    ensures r.Some? ==> forall j :: 0 <= j < r.value ==> sts[j].triple != t
  {
    if sts == [] then None
    else if sts[0].triple == t then Some(0)
    else match IndexOfTriple(sts[1..], t)
      case None => None
      case Some(k) => Some(k + 1)
  }

  /** The first position holding triple `t` is the position `IndexOfTriple` reports. */
  lemma {:induction false} IndexOfTripleIs(sts: seq<Statement>, t: Triple, k: nat)
    requires k < |sts| && sts[k].triple == t
    requires forall j :: 0 <= j < k ==> sts[j].triple != t
    ensures IndexOfTriple(sts, t) == Some(k)
  {
    if k > 0 {
      IndexOfTripleIs(sts[1..], t, k - 1);
    }
  }

  /** The statement the graph holds for triple `t`, if any (the first one, should there be several). */
  function StatementOf(sts: seq<Statement>, t: Triple): (r: Option<Statement>)
    ensures r.None? <==> forall st :: st in sts ==> st.triple != t
    ensures r.Some? ==> r.value in sts && r.value.triple == t
  {
    match IndexOfTriple(sts, t)
    case None => None
    case Some(i) => Some(sts[i])
  }

  /** In a graph with one statement per triple, the statement found for a triple is the one holding it. */
  lemma UniqueStatementOf(sts: seq<Statement>, x: Statement)
    requires TriplesUnique(sts) && x in sts
    ensures StatementOf(sts, x.triple) == Some(x)
  {
    var k :| 0 <= k < |sts| && sts[k] == x;
    IndexOfTripleIs(sts, x.triple, k);
  }

  /** The annotations of `anns` that `present` does not already hold, in order. */
  function Missing(anns: seq<Annotation>, present: seq<Annotation>): (r: seq<Annotation>)
    ensures forall a :: a in r <==> a in anns && a !in present
  {
    if anns == [] then []
    else (if anns[0] in present then [] else [anns[0]]) + Missing(anns[1..], present)
  }

  lemma MissingNone(anns: seq<Annotation>, present: seq<Annotation>)
    requires forall a :: a in anns ==> a in present
    ensures Missing(anns, present) == []
  {
  }

  /**
    Asserts a statement. A triple the graph does not hold yet is appended;
    a triple it already holds stays where it is, becomes local when the new
    statement is, and gains the annotations it lacked.
   */
  function Add(g: Graph, st: Statement): (r: Graph)
    ensures StatementOf(r.statements, st.triple).Some?
    ensures var prev := StatementOf(g.statements, st.triple);
            var now := StatementOf(r.statements, st.triple).value;
            (now.local <==> st.local || (prev.Some? && prev.value.local))
            && (forall a :: a in now.annotations <==> a in st.annotations || (prev.Some? && a in prev.value.annotations))
            && (prev.Some? ==> prev.value.annotations <= now.annotations)
    ensures forall x: Statement :: x.triple != st.triple ==> (x in r.statements <==> x in g.statements)
    ensures |r.statements| == |g.statements| + (if StatementOf(g.statements, st.triple).None? then 1 else 0)
    ensures TriplesUnique(g.statements) ==> TriplesUnique(r.statements)
    ensures r.canAs == g.canAs && r.split == g.split && r.annotationTriples == g.annotationTriples
  {
    match IndexOfTriple(g.statements, st.triple)
    case None =>
      var sts := g.statements + [st];
      IndexOfTripleIs(sts, st.triple, |g.statements|);
      assert forall x :: x in sts <==> x in g.statements || x == st;
      g.(statements := sts)
    case Some(i) =>
      var prev := g.statements[i];
      var now := Statement(st.triple, prev.local || st.local, prev.annotations + Missing(st.annotations, prev.annotations));
      var sts := g.statements[i := now];
      IndexOfTripleIs(sts, st.triple, i);
      ReplaceKeepsOthers(g.statements, i, now);
      g.(statements := sts)
  }

  /** Replacing the statement at `i` by one with the same triple touches no other triple and keeps triples unique. */
  lemma ReplaceKeepsOthers(sts: seq<Statement>, i: nat, now: Statement)
    requires i < |sts| && now.triple == sts[i].triple
    ensures forall x: Statement :: x.triple != now.triple ==> (x in sts[i := now] <==> x in sts)
    ensures TriplesUnique(sts) ==> TriplesUnique(sts[i := now])
  {
    var r := sts[i := now];
    forall x: Statement | x.triple != now.triple ensures x in r <==> x in sts {
      if x in sts {
        var k :| 0 <= k < |sts| && sts[k] == x;
        assert r[k] == x;
      }
      if x in r {
        var k :| 0 <= k < |r| && r[k] == x;
        assert sts[k] == x;
      }
    }
  }

  /** Adding a statement twice leaves the same graph as adding it once. */
  lemma AddIdempotent(g: Graph, st: Statement)
    ensures Add(Add(g, st), st).statements == Add(g, st).statements
  {
    var g1 := Add(g, st);
    var i := IndexOfTriple(g1.statements, st.triple).value;
    var now := g1.statements[i];
    MissingNone(st.annotations, now.annotations);
    assert now.annotations + [] == now.annotations;
    assert now.local || st.local <==> now.local;
    assert g1.statements[i := now] == g1.statements;
  }
}
