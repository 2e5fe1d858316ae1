/**
  The translator of irreflexive object property axioms,
  `P rdf:type owl:IrreflexiveProperty`: the detached (wrap) build, the
  attached build through the single-operand template, content comparison
  and the merge of two representations of one axiom.
 */
module IrreflexiveTranslator {
  import opened Rdf
  import opened WithOneObject
  import opened PropertyTypeTranslator

  /** The translator reads `owl:IrreflexiveProperty` and needs an object property expression. */
  const Irreflexive := Translator(OwlIrreflexiveProperty, ObjectPropertyExpression)

  /**
    `toAxiomWrap`: the free-standing axiom built from the statement's subject
    property and its annotations, recording both as components.
   */
  function ToAxiomWrap(st: Statement): (r: Axiom)
    ensures r.Wrap? && r.source == st
    ensures r.owl == OwlAxiom(Irreflexive.propertyType, st.triple.s, st.annotations)
    ensures AsSet(r.components) == AsSet(AnnotationItems(st.annotations)) + {Operand(st.triple.s)}
  {
    var p := GetSubject(st);
    var annotations := AnnotationItems(st.annotations);
    Wrap(OwlAxiom(Irreflexive.propertyType, p, st.annotations), st, annotations + [Operand(p)])
  }

  /** `toAxiomImpl`: the attached axiom, delegated to the single-operand template. */
  function ToAxiomImpl(h: Hashing, st: Statement): (r: Axiom)
    ensures r.Simple? || r.Complex?
    ensures r.Simple? <==> HasUriSubject(st) && st.annotations == []
    ensures r.source == st && Valid(r)
  {
    Create(h, st)
  }

  /**
    Representation independence: for a recognised statement the detached and
    the attached build stand for the same OWL axiom.
   */
  lemma WrapAndImplAgree(g: Graph, h: Hashing, st: Statement)
    requires TestStatement(g, Irreflexive, st)
    ensures OwlOf(ToAxiomWrap(st)) == OwlOf(ToAxiomImpl(h, st))
  {
    CreateOwl(h, st);
  }

  /**
    `sameContent`: true only for another Complex value whose content array
    is element-wise equal to this one's.
   */
  predicate SameContent(a: Axiom, b: Axiom)
    requires a.Complex?
  {
    b.Complex? && Items(GetContent(a)) == Items(GetContent(b))
  }

  /**
    For valid values, equal content means the same anonymous subject (if
    any) and the same annotations in the same order.
   */
  lemma SameContentMeaning(a: Axiom, b: Axiom)
    requires a.Complex? && b.Complex? && Valid(a) && Valid(b)
    ensures SameContent(a, b) <==>
              SubjectSlot(a.source) == SubjectSlot(b.source) && a.source.annotations == b.source.annotations
  {
    ContentLayout(a);
    ContentLayout(b);
    var sa, sb := SubjectSlot(a.source), SubjectSlot(b.source);
    var ia, ib := AnnotationItems(a.source.annotations), AnnotationItems(b.source.annotations);
    if SameContent(a, b) {
      assert sa + ia == sb + ib;
      assert |sa| == |sb|;
      assert sa == (sa + ia)[..|sa|] == (sb + ib)[..|sb|] == sb;
      assert ia == (sa + ia)[|sa|..] == (sb + ib)[|sb|..] == ib;
      AnnotationItemsInjective(a.source.annotations, b.source.annotations);
    }
  }

  lemma AnnotationItemsInjective(x: seq<Annotation>, y: seq<Annotation>)
    requires AnnotationItems(x) == AnnotationItems(y)
    ensures x == y
  {
    assert |x| == |y|;
    forall i | 0 <= i < |x| ensures x[i] == y[i] {
      assert AnnotationItems(x)[i] == Annot(x[i]);
    }
  }

  /** The main triples of two attached values coincide. */
  predicate SameTriple(a: Axiom, b: Axiom) {
    (b.Simple? || b.Complex?) && a.source.triple == b.source.triple
  }

  /**
    `merge`: the identity and same-triple short-cuts return this value;
    otherwise a new Complex value on this value's main triple whose triples
    are this value's followed by the other's, which takes over this value's
    content only if it was already computed, and always its hash.
   */
  function Merge(a: Axiom, b: Axiom): (r: Axiom)
    requires a.Complex?
    ensures a == b ==> r == a
    ensures SameTriple(a, b) ==> r == a
    ensures r.Complex? && r.source == a.source && r.hash == a.hash && r.cache == a.cache
    ensures r.cache.Computed? <==> a.cache.Computed?
    ensures r != a ==> r.origin == Joined(a, b) && !SameTriple(a, b)
  {
    if a == b then a
    else if SameTriple(a, b) then a
    else
      var content := if a.cache.Computed? then a.cache else Uncomputed;
      Complex(a.source, content, a.hash, Joined(a, b))
  }

  /** The merged value enumerates this value's triples, then the other's. */
  lemma MergeTriples(g: Graph, a: Axiom, b: Axiom)
    requires a.Complex? && !SameTriple(a, b) && a != b
    ensures Triples(g, Merge(a, b)) == Triples(g, a) + Triples(g, b)
  {
  }

  /** A merge keeps validity and stands for the same OWL axiom as this value. */
  lemma MergeKeepsAxiom(a: Axiom, b: Axiom)
    requires a.Complex? && Valid(a)
    ensures Valid(Merge(a, b)) && OwlOf(Merge(a, b)) == OwlOf(a)
  {
  }

  /** Merging two representations of one axiom gives the same axiom in either order. */
  lemma MergeCommutesOnAxiom(a: Axiom, b: Axiom)
    requires a.Complex? && b.Complex? && Valid(a) && Valid(b)
    requires OwlEqual(OwlOf(a), OwlOf(b))
    ensures OwlEqual(OwlOf(Merge(a, b)), OwlOf(Merge(b, a)))
  {
    MergeKeepsAxiom(a, b);
    MergeKeepsAxiom(b, a);
  }

  /** Repeated merges of values on three distinct triples enumerate the same triples in either grouping. */
  lemma MergeAssociativeOnDistinctTriples(g: Graph, a: Axiom, b: Axiom, c: Axiom)
    requires a.Complex? && b.Complex? && c.Complex?
    requires a.source.triple != b.source.triple
    requires b.source.triple != c.source.triple
    requires a.source.triple != c.source.triple
    ensures Triples(g, Merge(Merge(a, b), c)) == Triples(g, Merge(a, Merge(b, c)))
  {
    var ab := Merge(a, b);
    var bc := Merge(b, c);
    MergeTriples(g, a, b);
    MergeTriples(g, ab, c);
    MergeTriples(g, b, c);
    MergeTriples(g, a, bc);
  }

  /**
    Merging is not associative once the outer values share a main triple:
    a triple only the third value occupies is dropped by the left grouping
    and kept by the right one.
   */
  lemma MergeNotAssociativeOnSharedTriple(g: Graph, a: Axiom, b: Axiom, c: Axiom, t: Triple)
    requires a.Complex? && b.Complex? && c.Complex?
    requires a.source.triple != b.source.triple
    requires a.source.triple == c.source.triple
    requires t in Triples(g, c) && t !in Triples(g, a) && t !in Triples(g, b)
    ensures t !in Triples(g, Merge(Merge(a, b), c))
    ensures t in Triples(g, Merge(a, Merge(b, c)))
    ensures Triples(g, Merge(Merge(a, b), c)) != Triples(g, Merge(a, Merge(b, c)))
  {
    var ab := Merge(a, b);
    var bc := Merge(b, c);
    MergeTriples(g, a, b);
    assert Merge(ab, c) == ab;
    MergeTriples(g, b, c);
    MergeTriples(g, a, bc);
  }
}
