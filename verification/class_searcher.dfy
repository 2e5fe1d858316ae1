/**
  The class entity searcher: whether a class URI is an entity of the
  ontology, the builtin classes it lists, and the implicit statements
  (object cardinality restrictions) that make `owl:Thing` an entity.

  The helpers inherited from the builtin-aware searcher (builtin
  membership, occurrence in an axiom, declaration, root statements and
  the axiom test) are uninterpreted functions of the graph snapshot.
 */
module ClassSearcher {
  import opened Wrappers
  import opened Rdf
  import BaseSearcher

  /**
    The inherited graph queries: `isBuiltin` (containsBuiltin),
    `inAxiom` (containsInAxiom), `declared` (containsDeclaration),
    `rootStatements` (listRootStatements), `formsAxiom` (whether a statement
    yields an axiom, the per-statement test behind containsAxiom) and
    `builtins` (getBuiltins).
   */
  datatype Queries = Queries(
    isBuiltin: string -> bool,
    inAxiom: string -> bool,
    declared: string -> bool,
    rootStatements: Statement -> seq<Statement>,
    formsAxiom: Statement -> bool,
    builtins: set<string>)

  /** The views of an object cardinality restriction (exact, maximum, minimum). */
  const ObjectCardinalityTypes: seq<View> := [ObjectCardinality, ObjectMaxCardinality, ObjectMinCardinality]

  /** The predicates whose statements may be implicit cardinality restrictions, in listing order. */
  const CardinalityPredicates: seq<Node> := [OwlCardinality, OwlMaxCardinality, OwlMinCardinality]

  /** `isCardinalityRestriction`: the subject can be viewed as one of the object cardinality types. */
  predicate IsCardinalityRestriction(g: Graph, st: Statement) {
    exists t :: t in ObjectCardinalityTypes && g.canAs(st.triple.s, t)
  }

  function ByPredicates(g: Graph, ps: seq<Node>): (r: seq<Statement>)
    ensures forall st :: st in r <==> st in g.statements && st.triple.p in ps
  {
    if ps == [] then [] else ByPredicate(g.statements, ps[0]) + ByPredicates(g, ps[1..])
  }

  function KeepRestrictions(g: Graph, sts: seq<Statement>): (r: seq<Statement>)
    ensures forall st :: st in r <==> st in sts && IsCardinalityRestriction(g, st)
  {
    if sts == [] then []
    else (if IsCardinalityRestriction(g, sts[0]) then [sts[0]] else []) + KeepRestrictions(g, sts[1..])
  }

  /**
    `listImplicitStatements`: the statements with predicate
    `owl:cardinality`, `owl:maxCardinality` or `owl:minCardinality`, in
    that order, that are object cardinality restrictions.
   */
  function ImplicitStatements(g: Graph): (r: seq<Statement>)
    ensures forall st :: st in r <==>
              st in g.statements && st.triple.p in {OwlCardinality, OwlMaxCardinality, OwlMinCardinality}
              && (g.canAs(st.triple.s, ObjectCardinality)
                  || g.canAs(st.triple.s, ObjectMaxCardinality)
                  || g.canAs(st.triple.s, ObjectMinCardinality))
  {
    var r := KeepRestrictions(g, ByPredicates(g, CardinalityPredicates));
    assert forall st :: IsCardinalityRestriction(g, st) <==>
             (g.canAs(st.triple.s, ObjectCardinality)
              || g.canAs(st.triple.s, ObjectMaxCardinality)
              || g.canAs(st.triple.s, ObjectMinCardinality)) by {
      forall st ensures IsCardinalityRestriction(g, st) <==>
             (g.canAs(st.triple.s, ObjectCardinality)
              || g.canAs(st.triple.s, ObjectMaxCardinality)
              || g.canAs(st.triple.s, ObjectMinCardinality)) {
        assert ObjectCardinalityTypes[0] == ObjectCardinality;
        assert ObjectCardinalityTypes[1] == ObjectMaxCardinality;
        assert ObjectCardinalityTypes[2] == ObjectMinCardinality;
      }
    }
    r
  }

  /** `containsAxiom` over the root statements of the given statements, in order. */
  function AnyRootFormsAxiom(q: Queries, sts: seq<Statement>): (r: bool)
    ensures r <==> exists st, root :: st in sts && root in q.rootStatements(st) && q.formsAxiom(root)
  {
    if sts == [] then false
    else (exists root :: root in q.rootStatements(sts[0]) && q.formsAxiom(root)) || AnyRootFormsAxiom(q, sts[1..])
  }

  /** Some implicit cardinality restriction has a root statement that forms an axiom. */
  predicate ImplicitAxiomExists(g: Graph, q: Queries) {
    AnyRootFormsAxiom(q, ImplicitStatements(g))
  }

  /**
    `containsEntity`: a builtin class is contained when it occurs in an
    axiom, and `owl:Thing` also when an implicit cardinality axiom exists; a
    non-builtin class is contained when it is declared.
   */
  function ContainsEntity(g: Graph, q: Queries, uri: string): (r: bool)
    ensures !q.isBuiltin(uri) ==> (r <==> q.declared(uri))
    ensures q.isBuiltin(uri) && uri != OwlThingIri ==> (r <==> q.inAxiom(uri))
    ensures q.isBuiltin(uri) && uri == OwlThingIri ==> (r <==> ImplicitAxiomExists(g, q) || q.inAxiom(uri))
  {
    if q.isBuiltin(uri) then
      if uri == OwlThingIri && AnyRootFormsAxiom(q, ImplicitStatements(g)) then true
      else q.inAxiom(uri)
    else q.declared(uri)
  }

  /**
    `listEntities`: the builtin classes handed on to the listing, with
    `owl:Thing` added when it is missing and an implicit cardinality axiom
    exists. Builtins are never removed.
   */
  function ListedBuiltins(g: Graph, q: Queries): (r: set<string>)
    ensures q.builtins <= r
    ensures r - q.builtins <= {OwlThingIri}
    ensures OwlThingIri in r <==> OwlThingIri in q.builtins || ImplicitAxiomExists(g, q)
  {
    if OwlThingIri !in q.builtins && AnyRootFormsAxiom(q, ImplicitStatements(g)) then q.builtins + {OwlThingIri}
    else q.builtins
  }

  /**
    The two operations agree on `owl:Thing`: when the listing adds it and
    it is a builtin, `containsEntity` reports it.
   */
  lemma ListedThingIsContained(g: Graph, q: Queries)
    requires q.isBuiltin(OwlThingIri)
    requires OwlThingIri in ListedBuiltins(g, q) - q.builtins
    ensures ContainsEntity(g, q, OwlThingIri)
  {
  }

  /** The translators this searcher consults: those selected for the class component type. */
  function Translators<T, R(==), C>(types: seq<T>, hasComponent: (T, C) -> bool, get: T -> R, classType: C): (r: set<R>)
    ensures forall x :: x in types && hasComponent(x, classType) ==> get(x) in r
    ensures forall y :: y in r ==> exists x :: x in types && hasComponent(x, classType) && get(x) == y
  {
    BaseSearcher.SelectTranslators(types, hasComponent, get, Some(classType))
  }
}
