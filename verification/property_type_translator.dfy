/**
  The translator shared by axioms written as one typed triple
  `P rdf:type CONST` about an object or data property (functional,
  reflexive, irreflexive, symmetric, ... properties): statement listing,
  the authoritative recogniser, and the write-back of the constant triple.
 */
module PropertyTypeTranslator {
  import opened Rdf
  import opened WithOneObject

  /** A property-type translator: the type constant it reads and the view its subject must admit. */
  datatype Translator = Translator(propertyType: Node, view: View)

  /** `testStatement`: `S rdf:type CONST` whose subject can be viewed as the translator's view. */
  predicate TestStatement(g: Graph, tr: Translator, st: Statement) {
    st.triple.o == tr.propertyType
    && st.triple.p == RdfType
    && g.canAs(st.triple.s, tr.view)
  }

  /**
    `statements`: the statements matched by the pattern `(?, rdf:type,
    CONST)`, kept only when local and when the subject admits the view, in
    graph order.
   */
  function Statements(g: Graph, tr: Translator): (r: seq<Statement>)
    ensures forall st :: st in r <==> st in g.statements && st.local && TestStatement(g, tr, st)
    ensures |r| <= |g.statements|
  {
    var typed := ByPattern(g.statements, RdfType, tr.propertyType);
    var local := LocalOnly(typed);
    Viewable(g, local, tr.view)
  }

  /** The pattern lookup `(?, p, o)` of the graph, in graph order. */
  function ByPattern(sts: seq<Statement>, p: Node, o: Node): (r: seq<Statement>)
    ensures forall st :: st in r <==> st in sts && st.triple.p == p && st.triple.o == o
    ensures |r| <= |sts|
  {
    if sts == [] then []
    else
      (if sts[0].triple.p == p && sts[0].triple.o == o then [sts[0]] else [])
      + ByPattern(sts[1..], p, o)
  }

  function LocalOnly(sts: seq<Statement>): (r: seq<Statement>)
    ensures forall st :: st in r <==> st in sts && st.local
    ensures |r| <= |sts|
  {
    if sts == [] then [] else (if sts[0].local then [sts[0]] else []) + LocalOnly(sts[1..])
  }

  function Viewable(g: Graph, sts: seq<Statement>, view: View): (r: seq<Statement>)
    ensures forall st :: st in r <==> st in sts && g.canAs(st.triple.s, view)
    ensures |r| <= |sts|
  {
    if sts == [] then []
    else (if g.canAs(sts[0].triple.s, view) then [sts[0]] else []) + Viewable(g, sts[1..], view)
  }

  /** `getSubject`: the statement's subject, seen through the translator's view. */
  function GetSubject(st: Statement): Node {
    st.triple.s
  }

  /** The main triple `(property, rdf:type, CONST)` that `write` emits for an axiom. */
  function MainTriple(tr: Translator, ax: OwlAxiom): Triple {
    Triple(ax.operand, RdfType, tr.propertyType)
  }

  /**
    `write`: asserts the main triple of the axiom in the base graph with the
    axiom's annotations. A graph that already holds the triple keeps one
    statement for it, which then carries the annotations of both.
   */
  function Write(g: Graph, tr: Translator, ax: OwlAxiom): (r: Graph)
    ensures var written := StatementOf(r.statements, MainTriple(tr, ax));
            var prev := StatementOf(g.statements, MainTriple(tr, ax));
            written.Some? && written.value.local
            && (forall a :: a in written.value.annotations <==> a in ax.annotations || (prev.Some? && a in prev.value.annotations))
    ensures forall st: Statement :: st.triple != MainTriple(tr, ax) ==> (st in r.statements <==> st in g.statements)
    ensures TriplesUnique(g.statements) ==> TriplesUnique(r.statements)
  {
    Add(g, Statement(MainTriple(tr, ax), true, ax.annotations))
  }

  /** The statement `write` leaves for the axiom's main triple. */
  function Written(g: Graph, tr: Translator, ax: OwlAxiom): Statement
    requires StatementOf(g.statements, MainTriple(tr, ax)).Some?
  {
    StatementOf(g.statements, MainTriple(tr, ax)).value
  }

  /** Writing an axiom twice leaves the same graph as writing it once. */
  lemma WriteIdempotent(g: Graph, tr: Translator, ax: OwlAxiom)
    ensures Write(Write(g, tr, ax), tr, ax).statements == Write(g, tr, ax).statements
  {
    AddIdempotent(g, Statement(MainTriple(tr, ax), true, ax.annotations));
  }

  /**
    Recognition round trip: the statement written for a property that
    admits the view is accepted by `testStatement` and listed by
    `statements`; in a graph with one statement per triple it is the only
    listed statement with that triple.
   */
  lemma WriteIsRecognised(g: Graph, tr: Translator, ax: OwlAxiom)
    requires g.canAs(ax.operand, tr.view)
    ensures var g' := Write(g, tr, ax);
            var st := Written(g', tr, ax);
            st.triple == MainTriple(tr, ax) && TestStatement(g', tr, st) && st in Statements(g', tr)
    ensures var g' := Write(g, tr, ax);
            TriplesUnique(g.statements) ==>
              forall x :: x in Statements(g', tr) && x.triple == MainTriple(tr, ax) ==> x == Written(g', tr, ax)
  {
    var g' := Write(g, tr, ax);
    if TriplesUnique(g.statements) {
      forall x | x in Statements(g', tr) && x.triple == MainTriple(tr, ax) ensures x == Written(g', tr, ax) {
        UniqueStatementOf(g'.statements, x);
      }
    }
  }

  /** Every listed statement is recognised; listing drops only non-local recognised ones. */
  lemma StatementsAreRecognised(g: Graph, tr: Translator, st: Statement)
    ensures st in Statements(g, tr) ==> TestStatement(g, tr, st)
    ensures st in g.statements && TestStatement(g, tr, st) && st !in Statements(g, tr) ==> !st.local
  {
  }
}
