/**
  The single-operand axiom template: axioms stored as one main triple
  `S CONST CONST` (for example `P rdf:type owl:IrreflexiveProperty`) whose
  only OWL operand is the subject `S`.

  An attached axiom value is either Simple (no annotations, URI subject,
  nothing cached) or Complex (a cached content array laid out as the
  optional anonymous subject followed by the annotations, with the hash
  computed in the same pass). A Wrap is the detached value built eagerly
  without any reference to the graph.
 */
module WithOneObject {
  import opened Rdf

  /** An element of a content array: the operand wrapper or an annotation wrapper. */
  datatype Item = Operand(node: Node) | Annot(annotation: Annotation)

  /** A content array; `Empty` is the distinguished EMPTY sentinel. */
  datatype Content = Empty | Filled(items: seq<Item>)

  /** A content array never computed yet is distinct from one computed as EMPTY. */
  datatype Cache = Uncomputed | Computed(content: Content)

  /**
    The object hashing of the OWL layer, left uninterpreted: the hash code of
    a wrapped object, the two folding steps `OWLObject.hashIteration` and
    `WithContent.hashIteration`, and the hash index of an axiom type, keyed by
    the type constant of its main triple.
   */
  datatype Hashing = Hashing(
    hashOf: Item -> int,
    hashIteration: (int, int) -> int,
    contentHashIteration: (int, int) -> int,
    hashIndex: Node -> int)

  /** The OWL-level value of a single-operand axiom: its type, operand and annotations. */
  datatype OwlAxiom = OwlAxiom(axiomType: Node, operand: Node, annotations: seq<Annotation>)

  /**
    An axiom value. `source` is the statement it was read from; a Complex
    value's `origin` says where its triples come from: its own statement, or
    the two values a merge joined.
   */
  datatype Axiom =
    | Simple(source: Statement, hash: int)
    | Complex(source: Statement, cache: Cache, hash: int, origin: Origin)
    | Wrap(owl: OwlAxiom, source: Statement, components: seq<Item>)

  datatype Origin = Own | Joined(first: Axiom, second: Axiom)

  function Items(c: Content): seq<Item> {
    if c.Empty? then [] else c.items
  }

  function AsSet<T>(s: seq<T>): set<T> {
    set x | x in s
  }

  /** OWL equality: same type, same operand, same annotation set. */
  predicate OwlEqual(a: OwlAxiom, b: OwlAxiom) {
    a.axiomType == b.axiomType && a.operand == b.operand && AsSet(a.annotations) == AsSet(b.annotations)
  }

  predicate HasUriSubject(st: Statement) {
    st.triple.s.Uri?
  }

  /** The annotations of a list as content items, in the same order. */
  function AnnotationItems(anns: seq<Annotation>): (r: seq<Item>)
    ensures |r| == |anns|
    ensures forall i :: 0 <= i < |anns| ==> r[i] == Annot(anns[i])
  {
    if anns == [] then [] else [Annot(anns[0])] + AnnotationItems(anns[1..])
  }

  /** The subject slot of the layout: empty for a URI subject, the operand otherwise. */
  function SubjectSlot(st: Statement): seq<Item> {
    if HasUriSubject(st) then [] else [Operand(st.triple.s)]
  }

  /**
    `collectContent`: the content array re-read from a statement, built by
    list concatenation; a zero-length result is the EMPTY sentinel.
   */
  function CollectContent(st: Statement): (c: Content)
    ensures c.Filled? ==> |c.items| > 0
    ensures c.Empty? <==> HasUriSubject(st) && st.annotations == []
    ensures |Items(c)| == |st.annotations| + (if HasUriSubject(st) then 0 else 1)
    ensures !HasUriSubject(st) ==> Items(c)[0] == Operand(st.triple.s)
    ensures forall i :: 0 <= i < |st.annotations| ==>
              Items(c)[i + (if HasUriSubject(st) then 0 else 1)] == Annot(st.annotations[i])
  {
    var res := SubjectSlot(st) + AnnotationItems(st.annotations);
    if res == [] then Empty else Filled(res)
  }

  /**
    The fold of annotation hashes, starting from 1 and taking the
    annotations in collection order (stated over prefixes).
   */
  function AnnotationHash(h: Hashing, anns: seq<Annotation>): int {
    if anns == [] then 1
    else h.contentHashIteration(AnnotationHash(h, anns[..|anns| - 1]), h.hashOf(Annot(anns[|anns| - 1])))
  }

  /** The hash an axiom read from `st` must have. */
  function AxiomHash(h: Hashing, st: Statement): int {
    h.hashIteration(
      h.hashIteration(h.hashIndex(st.triple.o), h.hashOf(Operand(st.triple.s))),
      AnnotationHash(h, st.annotations))
  }

  /**
    The annotation loop of `initContent`: appends each remaining annotation
    to the array and folds its hash into `acc`, one element per step.
   */
  function FillAnnotations(h: Hashing, anns: seq<Annotation>, i: nat, res: seq<Item>, acc: int): (r: (seq<Item>, int))
    requires i <= |anns|
    requires acc == AnnotationHash(h, anns[..i])
    ensures r.0 == res + AnnotationItems(anns[i..])
    ensures r.1 == AnnotationHash(h, anns)
    decreases |anns| - i
  {
    if i == |anns| then
      assert anns[..i] == anns;
      (res, acc)
    else
      var a := anns[i];
      var acc' := h.contentHashIteration(acc, h.hashOf(Annot(a)));
      FillStep(h, anns, i, res);
      var r := FillAnnotations(h, anns, i + 1, res + [Annot(a)], acc');
      r
  }

  /** One step of the annotation loop: the next element and the next hash fold. */
  lemma FillStep(h: Hashing, anns: seq<Annotation>, i: nat, res: seq<Item>)
    requires i < |anns|
    ensures AnnotationHash(h, anns[..i + 1])
         == h.contentHashIteration(AnnotationHash(h, anns[..i]), h.hashOf(Annot(anns[i])))
    ensures (res + [Annot(anns[i])]) + AnnotationItems(anns[i + 1..]) == res + AnnotationItems(anns[i..])
  {
    var p := anns[..i + 1];
    assert p[..|p| - 1] == anns[..i];
    assert p[|p| - 1] == anns[i];
    assert anns[i..][1..] == anns[i + 1..];
    assert AnnotationItems(anns[i..]) == [Annot(anns[i])] + AnnotationItems(anns[i + 1..]);
  }

  /** The result of `initContent`: the content array and the hash assigned on the way. */
  datatype Init = Init(content: Content, hash: int)

  /**
    `initContent`: computes the content and the hash in one pass over the
    annotations. It yields the same array as `collectContent`.
   */
  function InitContent(h: Hashing, st: Statement): (r: Init)
    ensures r.content == CollectContent(st)
    ensures r.hash == AxiomHash(h, st)
  {
    var value := Operand(st.triple.s);
    var hash := h.hashIteration(h.hashIndex(st.triple.o), h.hashOf(value));
    var start := if HasUriSubject(st) then [] else [value];
    var filled := FillAnnotations(h, st.annotations, 0, start, 1);
    var res := filled.0;
    assert st.annotations[0..] == st.annotations;
    Init(if |res| == 0 then Empty else Filled(res), h.hashIteration(hash, filled.1))
  }

  /**
    A value whose cache, if filled, agrees with the statement it reads, and
    whose Simple shape is only used for a plain statement.
   */
  predicate Valid(v: Axiom) {
    match v
    case Simple(st, _) => HasUriSubject(st) && st.annotations == []
    case Complex(st, cache, _, _) => cache.Uncomputed? || cache.content == CollectContent(st)
    case Wrap(_, _, _) => true
  }

  /**
    `WithOneObject.create`: builds the Simple candidate, computes the
    content; returns the candidate when the content is EMPTY and otherwise a
    Complex value holding that content and the candidate's hash.
   */
  function Create(h: Hashing, st: Statement): (r: Axiom)
    ensures r.Simple? <==> HasUriSubject(st) && st.annotations == []
    ensures r.Simple? || r.Complex?
    ensures r.source == st && r.hash == AxiomHash(h, st)
    ensures r.Complex? ==> r.cache == Computed(CollectContent(st)) && r.origin == Own
    ensures Valid(r)
  {
    var init := InitContent(h, st);
    var s := Simple(st, init.hash);
    if init.content == Empty then s
    else Complex(st, Computed(init.content), s.hash, Own)
  }

  /** `getContent`: the cached array, or the array re-read from the statement. */
  function GetContent(v: Axiom): (r: Content)
    requires v.Complex?
    ensures Valid(v) ==> r == CollectContent(v.source)
  {
    if v.cache.Computed? then v.cache.content else CollectContent(v.source)
  }

  /** A valid Complex value's content is its subject slot followed by its annotations. */
  lemma ContentLayout(v: Axiom)
    requires v.Complex? && Valid(v)
    ensures Items(GetContent(v)) == SubjectSlot(v.source) + AnnotationItems(v.source.annotations)
  {
    var res := SubjectSlot(v.source) + AnnotationItems(v.source.annotations);
    assert GetContent(v) == CollectContent(v.source);
    if res == [] {
      assert CollectContent(v.source) == Empty;
    } else {
      assert CollectContent(v.source) == Filled(res);
    }
  }

  function FindUriSubject(v: Axiom): Item {
    Operand(v.source.triple.s)
  }

  /**
    `findONTValue`: Simple re-derives the URI subject; Complex re-derives a
    URI subject and otherwise takes content slot 0.
   */
  function FindValue(v: Axiom): (r: Item)
    requires v.Simple? || v.Complex?
    requires Valid(v)
    ensures r == Operand(v.source.triple.s)
  {
    if v.Simple? || HasUriSubject(v.source) then FindUriSubject(v)
    else Items(GetContent(v))[0]
  }

  /** The annotations held in a content array, in order. */
  function AnnotationsOf(items: seq<Item>): seq<Annotation> {
    if items == [] then []
    else (if items[0].Annot? then [items[0].annotation] else []) + AnnotationsOf(items[1..])
  }

  /** The annotations held in a content array from `offset` on. */
  function ContentAnnotations(items: seq<Item>, offset: nat): seq<Annotation>
    requires offset <= |items|
  {
    AnnotationsOf(items[offset..])
  }

  lemma {:induction false} AnnotationsOfItems(anns: seq<Annotation>)
    ensures AnnotationsOf(AnnotationItems(anns)) == anns
  {
    if anns != [] {
      var items := AnnotationItems(anns);
      assert items[0] == Annot(anns[0]);
      assert items[1..] == AnnotationItems(anns[1..]);
      AnnotationsOfItems(anns[1..]);
    }
  }

  lemma ContentAnnotationsOfItems(pre: seq<Item>, anns: seq<Annotation>)
    ensures ContentAnnotations(pre + AnnotationItems(anns), |pre|) == anns
  {
    assert (pre + AnnotationItems(anns))[|pre|..] == AnnotationItems(anns);
    AnnotationsOfItems(anns);
  }

  /**
    `annotations()`: none for Simple; for Complex the content read from
    offset 0 for a URI subject and from offset 1 otherwise.
   */
  function Annotations(v: Axiom): (r: seq<Annotation>)
    requires v.Simple? || v.Complex?
    requires Valid(v)
    ensures r == v.source.annotations
  {
    if v.Simple? then []
    else
      var items := Items(GetContent(v));
      ContentLayout(v);
      ContentAnnotationsOfItems(SubjectSlot(v.source), v.source.annotations);
      ContentAnnotations(items, if HasUriSubject(v.source) then 0 else 1)
  }

  /**
    `objects()`: Simple yields exactly its URI subject; Complex prepends the
    URI subject (if any) to its content.
   */
  function Objects(v: Axiom): (r: seq<Item>)
    requires v.Simple? || v.Complex?
    requires Valid(v)
    ensures r == [Operand(v.source.triple.s)] + AnnotationItems(v.source.annotations)
  {
    if v.Simple? then [FindUriSubject(v)]
    else
      var content := Items(GetContent(v));
      ContentLayout(v);
      if HasUriSubject(v.source) then [FindUriSubject(v)] + content else content
  }

  /** `isAnnotated()`: false for Simple; for Complex, whether the content holds an annotation. */
  function IsAnnotated(v: Axiom): (r: bool)
    requires v.Simple? || v.Complex?
    requires Valid(v)
    ensures r <==> v.source.annotations != []
  {
    if v.Simple? then false
    else
      var items := Items(GetContent(v));
      ContentLayout(v);
      assert v.source.annotations != [] ==> items[|SubjectSlot(v.source)|] == Annot(v.source.annotations[0]);
      exists i :: 0 <= i < |items| && items[i].Annot?
  }

  /** The OWL-level value an axiom value stands for. */
  function OwlOf(v: Axiom): (r: OwlAxiom)
    requires Valid(v)
    ensures !v.Wrap? ==> r == OwlAxiom(v.source.triple.o, v.source.triple.s, v.source.annotations)
  {
    if v.Wrap? then v.owl
    else OwlAxiom(v.source.triple.o, FindValue(v).node, Annotations(v))
  }

  /** The triples a statement occupies: its own triple first, then its annotation triples. */
  function StatementTriples(g: Graph, st: Statement): seq<Triple> {
    [st.triple] + g.annotationTriples(st)
  }

  /** `triples()`: a merged value enumerates its first origin's triples, then its second's. */
  function Triples(g: Graph, v: Axiom): (r: seq<Triple>)
    ensures v.Complex? && v.origin.Joined? ==> |r| >= 2
    ensures !(v.Complex? && v.origin.Joined?) ==> |r| >= 1 && r[0] == v.source.triple
    decreases v
  {
    if v.Complex? && v.origin.Joined? then
      Triples(g, v.origin.first) + Triples(g, v.origin.second)
    else StatementTriples(g, v.source)
  }

  /** Whatever shape `create` picks, it stands for the statement's subject and annotations. */
  lemma CreateOwl(h: Hashing, st: Statement)
    ensures OwlOf(Create(h, st)) == OwlAxiom(st.triple.o, st.triple.s, st.annotations)
  {
  }

  /** A Simple value is never annotated and its only object is its URI subject. */
  lemma SimpleIsNeverAnnotated(v: Axiom)
    requires v.Simple? && Valid(v)
    ensures !IsAnnotated(v) && Objects(v) == [Operand(v.source.triple.s)]
  {
  }
}
