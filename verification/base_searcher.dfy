/**
  The listing engine: turns recognised statements into axiom values,
  choosing a detached or a graph-attached build, applying the
  split-annotation policy, and selecting translators by component type.
  Point lookup (`find` / `contains`) over the listing is modelled here too.
 */
module BaseSearcher {
  import opened Wrappers
  import opened Rdf
  import opened WithOneObject
  import opened PropertyTypeTranslator
  import opened IrreflexiveTranslator

  /** The object factory handed to a search; `DefaultFactory` is the no-cache singleton. */
  datatype Factory = DefaultFactory | ModelFactory

  /**
    The configuration handed to a search. `isDefault` marks the no-cache
    singleton (it is compared by identity, not by its settings).
   */
  datatype Config = Config(isDefault: bool, splitAxiomAnnotations: bool)

  /** The sentinel rule: a detached build whenever the factory or the config is the default one. */
  predicate UsesWrap(f: Factory, c: Config) {
    f.DefaultFactory? || c.isDefault
  }

  /** `toAxiom`: the detached wrap under a default factory or config, the attached impl otherwise. */
  function ToAxiom(h: Hashing, st: Statement, f: Factory, c: Config): (r: Axiom)
    ensures r.Wrap? <==> UsesWrap(f, c)
    ensures r.source == st && Valid(r)
    ensures r.Wrap? ==> r == ToAxiomWrap(st)
    ensures !r.Wrap? ==> r == ToAxiomImpl(h, st)
  {
    if f.DefaultFactory? || c.isDefault then ToAxiomWrap(st) else ToAxiomImpl(h, st)
  }

  /** The wrap of every statement, in order. */
  function WrapAll(sts: seq<Statement>): (r: seq<Axiom>)
    ensures |r| == |sts|
    ensures forall i :: 0 <= i < |sts| ==> r[i] == ToAxiomWrap(sts[i])
  {
    if sts == [] then [] else [ToAxiomWrap(sts[0])] + WrapAll(sts[1..])
  }

  /**
    `split`: with a default factory or config every split variant is
    wrapped; otherwise a single variant allows the attached build from the
    original statement, and two or more force every variant to be wrapped.
   */
  function Split(g: Graph, h: Hashing, st: Statement, f: Factory, c: Config): (r: seq<Axiom>)
    ensures |r| == |g.split(st)|
    ensures UsesWrap(f, c) || |g.split(st)| != 1 ==>
              forall i :: 0 <= i < |r| ==> r[i] == ToAxiomWrap(g.split(st)[i])
    ensures !UsesWrap(f, c) && |g.split(st)| == 1 ==> r == [ToAxiomImpl(h, st)]
  {
    var statements := g.split(st);
    if UsesWrap(f, c) then WrapAll(statements)
    else if |statements| == 1 then [ToAxiomImpl(h, st)]
    else WrapAll(statements)
  }

  /** A split group is attached only when it is the single variant under a non-default setting. */
  lemma SplitAttachedOnlyWhenUnambiguous(g: Graph, h: Hashing, st: Statement, f: Factory, c: Config, i: nat)
    requires i < |Split(g, h, st, f, c)|
    ensures !Split(g, h, st, f, c)[i].Wrap? <==> !UsesWrap(f, c) && |g.split(st)| == 1
  {
  }

  /** The statements mapped one to one through `toAxiom`. */
  function MapAll(h: Hashing, sts: seq<Statement>, f: Factory, c: Config): (r: seq<Axiom>)
    ensures |r| == |sts|
    ensures forall i :: 0 <= i < |sts| ==> r[i] == ToAxiom(h, sts[i], f, c)
  {
    if sts == [] then [] else [ToAxiom(h, sts[0], f, c)] + MapAll(h, sts[1..], f, c)
  }

  /** The split groups of the statements, concatenated in input order. */
  function FlatSplit(g: Graph, h: Hashing, sts: seq<Statement>, f: Factory, c: Config): seq<Axiom> {
    if sts == [] then [] else Split(g, h, sts[0], f, c) + FlatSplit(g, h, sts[1..], f, c)
  }

  /** `translate`: one axiom per statement with splitting off, the flattened split groups with it on. */
  function Translate(g: Graph, h: Hashing, sts: seq<Statement>, f: Factory, c: Config): (r: seq<Axiom>)
    ensures !c.splitAxiomAnnotations ==> |r| == |sts|
    ensures !c.splitAxiomAnnotations ==> forall i :: 0 <= i < |sts| ==> r[i] == ToAxiom(h, sts[i], f, c)
  {
    if c.splitAxiomAnnotations then FlatSplit(g, h, sts, f, c) else MapAll(h, sts, f, c)
  }

  /**
    With splitting on, translating two runs of statements gives the first
    run's groups followed by the second's: each statement's group stays
    together and in input order.
   */
  lemma TranslateConcat(g: Graph, h: Hashing, xs: seq<Statement>, ys: seq<Statement>, f: Factory, c: Config)
    requires c.splitAxiomAnnotations
    ensures Translate(g, h, xs + ys, f, c) == Translate(g, h, xs, f, c) + Translate(g, h, ys, f, c)
  {
    FlatSplitConcat(g, h, xs, ys, f, c);
  }

  lemma {:induction false} FlatSplitConcat(g: Graph, h: Hashing, xs: seq<Statement>, ys: seq<Statement>, f: Factory, c: Config)
    ensures FlatSplit(g, h, xs + ys, f, c) == FlatSplit(g, h, xs, f, c) + FlatSplit(g, h, ys, f, c)
    decreases |xs|
  {
    if xs == [] {
      assert xs + ys == ys;
    } else {
      assert (xs + ys)[0] == xs[0];
      assert (xs + ys)[1..] == xs[1..] + ys;
      FlatSplitConcat(g, h, xs[1..], ys, f, c);
    }
  }

  /**
    With splitting on, the output starts with the first statement's split
    group and continues with the translation of the rest; a single
    statement translates to exactly its group.
   */
  lemma TranslateSplitGroups(g: Graph, h: Hashing, sts: seq<Statement>, st: Statement, f: Factory, c: Config)
    requires c.splitAxiomAnnotations
    ensures sts != [] ==> Translate(g, h, sts, f, c) == Split(g, h, sts[0], f, c) + Translate(g, h, sts[1..], f, c)
    ensures Translate(g, h, [st], f, c) == Split(g, h, st, f, c)
  {
    assert [st][0] == st && [st][1..] == [];
    assert FlatSplit(g, h, [st], f, c) == Split(g, h, st, f, c) + FlatSplit(g, h, [], f, c);
    assert Split(g, h, st, f, c) + [] == Split(g, h, st, f, c);
  }

  /** With splitting on, an axiom is produced exactly when it belongs to the split group of one of the statements. */
  lemma {:induction false} TranslateSplitMembers(g: Graph, h: Hashing, sts: seq<Statement>, f: Factory, c: Config)
    requires c.splitAxiomAnnotations
    ensures forall x :: x in Translate(g, h, sts, f, c) <==> exists st :: st in sts && x in Split(g, h, st, f, c)
    decreases |sts|
  {
    if sts != [] {
      TranslateSplitMembers(g, h, sts[1..], f, c);
      forall x ensures x in Translate(g, h, sts, f, c) <==> exists st :: st in sts && x in Split(g, h, st, f, c) {
        if exists st :: st in sts && x in Split(g, h, st, f, c) {
          var st :| st in sts && x in Split(g, h, st, f, c);
          if st != sts[0] {
            assert st in sts[1..];
          }
        }
        if x in Translate(g, h, sts[1..], f, c) {
          var st :| st in sts[1..] && x in Split(g, h, st, f, c);
          assert st in sts;
        }
      }
    }
  }

  /** With splitting on, the output has one axiom per split variant of every statement. */
  lemma {:induction false} TranslateSplitLength(g: Graph, h: Hashing, sts: seq<Statement>, f: Factory, c: Config)
    requires c.splitAxiomAnnotations
    ensures |Translate(g, h, sts, f, c)| == SplitCount(g, sts)
    decreases |sts|
  {
    if sts != [] {
      TranslateSplitLength(g, h, sts[1..], f, c);
    }
  }

  function SplitCount(g: Graph, sts: seq<Statement>): nat {
    if sts == [] then 0 else |g.split(sts[0])| + SplitCount(g, sts[1..])
  }

  // Translator selection.

  /**
    `selectTranslators`: the translators of the axiom types (in their closed
    enumeration `types`) that can reference the component type, or of all
    of them when no component type is given. `get` maps an axiom type to
    its translator.
   */
  function SelectTranslators<T, R(==), C>(types: seq<T>, hasComponent: (T, C) -> bool, get: T -> R, component: Option<C>): (r: set<R>)
    ensures forall x :: x in types && (component.None? || hasComponent(x, component.value)) ==> get(x) in r
    ensures forall y :: y in r ==> exists x :: x in types && (component.None? || hasComponent(x, component.value)) && get(x) == y
  {
    if types == [] then {}
    else
      var rest := SelectTranslators(types[1..], hasComponent, get, component);
      if component.None? || hasComponent(types[0], component.value) then {get(types[0])} + rest else rest
  }

  /** Selecting by a component type never yields more than selecting all. */
  lemma SelectByComponentIsSubset<T, R, C>(types: seq<T>, hasComponent: (T, C) -> bool, get: T -> R, component: C)
    ensures SelectTranslators(types, hasComponent, get, Some(component)) <= SelectTranslators(types, hasComponent, get, None)
  {
  }

  // Point lookup.

  /** The axiom value that the given search settings build for a statement is OWL-equal to the key. */
  predicate Matches(h: Hashing, st: Statement, f: Factory, c: Config, key: OwlAxiom) {
    OwlEqual(OwlOf(ToAxiom(h, st, f, c)), key)
  }

  function FirstMatch(h: Hashing, sts: seq<Statement>, f: Factory, c: Config, key: OwlAxiom): (r: Option<Axiom>)
    ensures r.None? <==> forall st :: st in sts ==> !Matches(h, st, f, c, key)
    ensures r.Some? ==> r.value.source in sts && Matches(h, r.value.source, f, c, key) && r.value == ToAxiom(h, r.value.source, f, c)
  {
    if sts == [] then None
    else if Matches(h, sts[0], f, c, key) then Some(ToAxiom(h, sts[0], f, c))
    else FirstMatch(h, sts[1..], f, c, key)
  }

  /** `find` for the irreflexive translator: the first listed statement whose axiom equals the key. */
  function Find(g: Graph, h: Hashing, key: OwlAxiom, f: Factory, c: Config): (r: Option<Axiom>)
    ensures r.Some? ==> r.value.source in Statements(g, Irreflexive) && r.value == ToAxiom(h, r.value.source, f, c)
                        && OwlEqual(OwlOf(r.value), key)
    ensures r.None? ==> forall st :: st in Statements(g, Irreflexive) ==> !Matches(h, st, f, c, key)
  {
    FirstMatch(h, Statements(g, Irreflexive), f, c, key)
  }

  /** `contains` for the irreflexive translator, stated independently of `find`. */
  predicate Contains(g: Graph, h: Hashing, key: OwlAxiom, f: Factory, c: Config) {
    exists st :: st in g.statements && st.local && TestStatement(g, Irreflexive, st) && Matches(h, st, f, c, key)
  }

  /** `contains` and `find` agree on every key, graph and setting. */
  lemma ContainsIffFind(g: Graph, h: Hashing, key: OwlAxiom, f: Factory, c: Config)
    ensures Contains(g, h, key, f, c) <==> Find(g, h, key, f, c).Some?
  {
  }

  /** The main triple of every value that matches a key is fixed by the key. */
  lemma MatchFixesTriple(g: Graph, h: Hashing, st: Statement, f: Factory, c: Config, key: OwlAxiom)
    requires TestStatement(g, Irreflexive, st) && Matches(h, st, f, c, key)
    ensures st.triple == Triple(key.operand, RdfType, key.axiomType)
  {
    BuildStandsFor(g, h, st, f, c);
  }

  /** Under any setting, the value built from a recognised statement stands for its subject and annotations. */
  lemma BuildStandsFor(g: Graph, h: Hashing, st: Statement, f: Factory, c: Config)
    requires TestStatement(g, Irreflexive, st)
    ensures OwlOf(ToAxiom(h, st, f, c)) == OwlAxiom(st.triple.o, st.triple.s, st.annotations)
  {
    WrapAndImplAgree(g, h, st);
    CreateOwl(h, st);
  }

  /**
    For the axiom of any recognised statement, `find` succeeds and
    `contains` holds; once the triples of the value found are removed from
    the graph, neither succeeds for that axiom.
   */
  lemma RemoveFoundAxiom(g: Graph, h: Hashing, st: Statement, f: Factory, c: Config)
    requires st in g.statements && st.local && TestStatement(g, Irreflexive, st)
    ensures var key := OwlAxiom(st.triple.o, st.triple.s, st.annotations);
            var found := Find(g, h, key, f, c);
            && found.Some? && Contains(g, h, key, f, c)
            && var g' := Remove(g, Triples(g, found.value));
               !Contains(g', h, key, f, c) && Find(g', h, key, f, c).None?
  {
    var key := OwlAxiom(st.triple.o, st.triple.s, st.annotations);
    BuildStandsFor(g, h, st, f, c);
    assert Matches(h, st, f, c, key);
    ContainsIffFind(g, h, key, f, c);
    var found := Find(g, h, key, f, c).value;
    var st0 := found.source;
    MatchFixesTriple(g, h, st0, f, c, key);
    ToAxiomTriples(g, h, st0, f, c);
    var ts := StatementTriples(g, st0);
    assert ts[0] == Triple(key.operand, RdfType, key.axiomType);
    RemovedKeyNotContained(g, h, key, f, c, ts);
    ContainsIffFind(Remove(g, ts), h, key, f, c);
  }

  /** A value built from a statement occupies that statement's triples. */
  lemma ToAxiomTriples(g: Graph, h: Hashing, st: Statement, f: Factory, c: Config)
    ensures Triples(g, ToAxiom(h, st, f, c)) == StatementTriples(g, st)
  {
  }

  /** Removing the main triple a key determines leaves no statement that matches the key. */
  lemma RemovedKeyNotContained(g: Graph, h: Hashing, key: OwlAxiom, f: Factory, c: Config, ts: seq<Triple>)
    requires Triple(key.operand, RdfType, key.axiomType) in ts
    ensures !Contains(Remove(g, ts), h, key, f, c)
  {
    var g' := Remove(g, ts);
    forall st | st in g'.statements && st.local && TestStatement(g', Irreflexive, st)
      ensures !Matches(h, st, f, c, key)
    {
      if Matches(h, st, f, c, key) {
        MatchFixesTriple(g', h, st, f, c, key);
        assert false;
      }
    }
  }

  /**
    An irreflexive axiom written into a graph whose property admits the view
    is then contained exactly when the statement the graph already held for
    the same triple, if any, carried no annotation outside the axiom's: the
    written statement stands for the union of both annotation sets. The
    converse needs the graph to hold one statement per triple.
   */
  lemma WriteThenContains(g: Graph, h: Hashing, key: OwlAxiom, f: Factory, c: Config)
    requires key.axiomType == OwlIrreflexiveProperty
    requires g.canAs(key.operand, ObjectPropertyExpression)
    ensures NoExtraAnnotations(g, key) ==> Contains(Write(g, Irreflexive, key), h, key, f, c)
    ensures TriplesUnique(g.statements) && Contains(Write(g, Irreflexive, key), h, key, f, c) ==> NoExtraAnnotations(g, key)
  {
    if NoExtraAnnotations(g, key) {
      WrittenMatches(g, h, key, f, c);
    }
    if TriplesUnique(g.statements) && Contains(Write(g, Irreflexive, key), h, key, f, c) {
      ContainedWrittenHasNoExtra(g, h, key, f, c);
    }
  }

  lemma WrittenMatches(g: Graph, h: Hashing, key: OwlAxiom, f: Factory, c: Config)
    requires key.axiomType == OwlIrreflexiveProperty
    requires g.canAs(key.operand, ObjectPropertyExpression)
    requires NoExtraAnnotations(g, key)
    ensures Contains(Write(g, Irreflexive, key), h, key, f, c)
  {
    var g' := Write(g, Irreflexive, key);
    var st := Written(g', Irreflexive, key);
    WriteIsRecognised(g, Irreflexive, key);
    BuildStandsFor(g', h, st, f, c);
    WrittenAnnotationSet(g, key);
    assert st in g'.statements && st.local && Matches(h, st, f, c, key);
  }

  lemma WrittenAnnotationSet(g: Graph, key: OwlAxiom)
    requires NoExtraAnnotations(g, key)
    ensures AsSet(Written(Write(g, Irreflexive, key), Irreflexive, key).annotations) == AsSet(key.annotations)
  {
  }

  lemma ContainedWrittenHasNoExtra(g: Graph, h: Hashing, key: OwlAxiom, f: Factory, c: Config)
    requires key.axiomType == OwlIrreflexiveProperty
    requires g.canAs(key.operand, ObjectPropertyExpression)
    requires TriplesUnique(g.statements) && Contains(Write(g, Irreflexive, key), h, key, f, c)
    ensures NoExtraAnnotations(g, key)
  {
    var g' := Write(g, Irreflexive, key);
    var st := Written(g', Irreflexive, key);
    var x :| x in g'.statements && x.local && TestStatement(g', Irreflexive, x) && Matches(h, x, f, c, key);
    MatchFixesTriple(g', h, x, f, c, key);
    UniqueStatementOf(g'.statements, x);
    assert x == st;
    BuildStandsFor(g', h, st, f, c);
    assert AsSet(st.annotations) == AsSet(key.annotations);
    var prev := StatementOf(g.statements, MainTriple(Irreflexive, key));
    if prev.Some? {
      forall a | a in prev.value.annotations ensures a in key.annotations {
        assert a in st.annotations;
        assert a in AsSet(st.annotations);
      }
    }
  }

  /** The statement a graph holds for the key's main triple, if any, carries only annotations of the key. */
  predicate NoExtraAnnotations(g: Graph, key: OwlAxiom) {
    var prev := StatementOf(g.statements, MainTriple(Irreflexive, key));
    prev.Some? ==> forall a :: a in prev.value.annotations ==> a in key.annotations
  }

  /**
    The lookup scenario for `ex:p rdf:type owl:IrreflexiveProperty` alone in
    a graph, searched with a non-default factory and config: the attached
    build is Simple, stands for `ex:p` with no annotations, and is found;
    after its triples are removed it is no longer contained.
   */
  lemma IrreflexiveLookupScenario(g: Graph, h: Hashing, p: string, c: Config)
    requires !c.isDefault
    requires g.statements == [Statement(Triple(Uri(p), RdfType, OwlIrreflexiveProperty), true, [])]
    requires g.canAs(Uri(p), ObjectPropertyExpression)
    ensures var key := OwlAxiom(OwlIrreflexiveProperty, Uri(p), []);
            var found := Find(g, h, key, ModelFactory, c);
            && found.Some? && found.value.Simple?
            && Contains(g, h, key, ModelFactory, c)
            && !Contains(Remove(g, Triples(g, found.value)), h, key, ModelFactory, c)
  {
    var st := g.statements[0];
    assert st in Statements(g, Irreflexive);
    RemoveFoundAxiom(g, h, st, ModelFactory, c);
  }
}
