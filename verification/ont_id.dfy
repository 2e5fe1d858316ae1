/**
  The ontology identifier: a node (the ontology IRI, or a blank node for an
  anonymous ontology) and an optional version IRI. Two identifiers are the
  same in OWL 2 terms when they are equal and have the same version IRI.
 */
module OntId {
  import opened Wrappers
  import opened Rdf

  datatype OntId = OntId(node: Node, versionIri: Option<string>)

  /**
    `sameAs`: the resource equality `eq` (the Jena node equality of the
    identifier's resource) holds and the version IRIs agree, both missing
    counting as equal.
   */
  function SameAs(eq: (OntId, OntId) -> bool, a: OntId, b: OntId): (r: bool)
    ensures r ==> eq(a, b)
    ensures r ==> (a.versionIri.None? <==> b.versionIri.None?)
    ensures eq(a, b) && a.versionIri == b.versionIri ==> r
    ensures a.versionIri != b.versionIri ==> !r
  {
    eq(a, b) && a.versionIri == b.versionIri
  }

  /** Jena resource equality compares the underlying nodes only. */
  predicate NodeEquals(a: OntId, b: OntId) {
    a.node == b.node
  }

  /** With node equality, `sameAs` is an equivalence that distinguishes differing versions. */
  lemma SameAsIsEquivalence(a: OntId, b: OntId, c: OntId)
    ensures SameAs(NodeEquals, a, a)
    ensures SameAs(NodeEquals, a, b) ==> SameAs(NodeEquals, b, a)
    ensures SameAs(NodeEquals, a, b) && SameAs(NodeEquals, b, c) ==> SameAs(NodeEquals, a, c)
    ensures SameAs(NodeEquals, a, b) <==> a == b
  {
  }

  /** Equal identifiers (same ontology IRI) with different version IRIs are not the same ontology. */
  lemma VersionsSeparate(iri: string, v1: string, v2: string)
    requires v1 != v2
    ensures NodeEquals(OntId(Uri(iri), Some(v1)), OntId(Uri(iri), Some(v2)))
    ensures !SameAs(NodeEquals, OntId(Uri(iri), Some(v1)), OntId(Uri(iri), Some(v2)))
    ensures !SameAs(NodeEquals, OntId(Uri(iri), Some(v1)), OntId(Uri(iri), None))
  {
  }
}
