# ONT-API axiom/triple translation core in Dafny

This project models the part of ONT-API that reads single-triple axioms of the form `S rdf:type CONST` out of an RDF graph and writes them back. It uses an irreflexive object property (`P rdf:type owl:IrreflexiveProperty`) as the example, together with the format table and two small value types. It covers:

- `Rdf` (`rdf.dfy`): nodes, triples, statements, and a graph snapshot. Typed views (`canAs`), statement splitting and the triples that carry annotations are functions stored in the snapshot.
- `WithOneObject` (`with_one_object.dfy`): the single-operand template.
  - A Simple value has a URI subject, no annotations and no cache.
  - A Complex value has a cached content array laid out as the optional anonymous subject followed by the annotations, and a hash computed in the same pass.
  - A Wrap is the detached value built eagerly.
  - The module models `create`, `initContent`, `collectContent` and the read paths `findONTValue`, `objects`, `isAnnotated` and `annotations`.
- `PropertyTypeTranslator` (`property_type_translator.dfy`): statement listing, the recogniser `testStatement`, and the write-back of the main triple.
- `IrreflexiveTranslator` (`irreflexive_translator.dfy`): the detached and attached builds, `sameContent`, and `merge`.
- `BaseSearcher` (`base_searcher.dfy`): `translate`, `toAxiom`, `split` and `selectTranslators`, plus the point lookup (find and contains) over the listing.
- `ClassSearcher` (`class_searcher.dfy`): `containsEntity`, `listEntities` and the implicit cardinality statements that make `owl:Thing` an entity.
- `OntFormat` (`ont_format.dfy`): the table of 22 formats, lookups by id, by Jena language and by OWL-API key, the classification predicates, `isSupported`, and the choice of the best OWL-API language.
- `NaryIndividualAxiom` (`nary_individual_axiom.dfy`): the sorted, duplicate-free individual set and `equals`.
- `OntId` (`ont_id.dfy`): `sameAs`.

## Proved results

The main results proved are:

- `initContent` and `collectContent` agree.
- Every read path gives back the statement's subject and annotations.
- The detached and attached builds stand for the same OWL axiom.
- Find and contains agree, and removing the found axiom's triples makes both fail.
- Every id and every Jena language finds its own format.
- The individual set does not depend on input order or repetition.

Merging is proved **not** associative once the outer values share a main triple (`IrreflexiveTranslator.MergeNotAssociativeOnSharedTriple`). `merge` short-cuts on a shared triple, so a triple that only the third value occupies, such as one of its own annotation triples, is missing from the left grouping and present in the right one. For three distinct main triples both groupings enumerate the same triples, although the two values differ in how their origins are nested.

A graph holds at most one statement per triple (`Rdf.TriplesUnique`), as an RDF graph is a set of triples. Writing and removing keep this property. Writing an axiom whose triple is already present merges the annotations into the existing statement.

## Model

| member | source | states |
|---|---|---|
| WithOneObject.CollectContent | src/main/java/ru/avicomp/ontapi/internal/axioms/WithOneObject.java:173-187 | the content array is EMPTY exactly when the subject is a URI and there are no annotations; otherwise it holds the anonymous subject in slot 0, if there is one, followed by every annotation in order |
| WithOneObject.FillAnnotations | src/main/java/ru/avicomp/ontapi/internal/axioms/WithOneObject.java:164-168 | the annotation loop appends every remaining annotation to the array and ends with the fold of all annotation hashes starting from 1 |
| WithOneObject.InitContent | src/main/java/ru/avicomp/ontapi/internal/axioms/WithOneObject.java:148-171 | the one-pass builder yields exactly the array `collectContent` re-reads, and the hash that combines the type index, the subject and the annotation fold |
| WithOneObject.Create | src/main/java/ru/avicomp/ontapi/internal/axioms/WithOneObject.java:86-102 | a Simple value is returned exactly for a URI subject without annotations; otherwise a Complex value with the computed content, the Simple candidate's hash and the statement's own triples; either way the value is consistent with its statement |
| WithOneObject.GetContent | src/main/java/ru/avicomp/ontapi/internal/axioms/WithOneObject.java:127-135 | the content of a consistent Complex value, cached or not, is the array `collectContent` reads from its statement |
| WithOneObject.AnnotationHash | src/main/java/ru/avicomp/ontapi/internal/axioms/WithOneObject.java:164-168 | the fold of annotation hashes, starting from 1, in collection order |
| WithOneObject.AxiomHash | src/main/java/ru/avicomp/ontapi/internal/axioms/WithOneObject.java:155-169 | the hash combines the type index, the subject and the annotation fold |
| WithOneObject.ContentLayout | src/main/java/ru/avicomp/ontapi/internal/axioms/WithOneObject.java:127-135 | the content of a consistent Complex value is its subject slot followed by its annotations |
| WithOneObject.FindValue | src/main/java/ru/avicomp/ontapi/internal/axioms/WithOneObject.java:191-193 | `findONTValue` gives the statement's subject whether it is re-derived from a URI or read from content slot 0 |
| WithOneObject.ContentAnnotationsOfItems | src/main/java/ru/avicomp/ontapi/internal/axioms/WithOneObject.java:212-215 | reading annotations from the offset after the subject slot gives back exactly the annotations stored there |
| WithOneObject.Annotations | src/main/java/ru/avicomp/ontapi/internal/axioms/WithOneObject.java:212-220 | `annotations()` of a Simple or Complex value is the statement's annotation list, in order |
| WithOneObject.Objects | src/main/java/ru/avicomp/ontapi/internal/axioms/WithOneObject.java:195-205 | `objects()` is the subject followed by the annotations, for both shapes |
| WithOneObject.IsAnnotated | src/main/java/ru/avicomp/ontapi/internal/axioms/WithOneObject.java:207-210 | `isAnnotated()` holds exactly when the statement has annotations |
| WithOneObject.OwlOf | src/main/java/ru/avicomp/ontapi/internal/axioms/WithOneObject.java:54-62 | an attached value stands for the axiom with its statement's type, subject and annotations; a detached one for the axiom it holds |
| WithOneObject.Triples | src/main/java/com/github/owlcs/ontapi/internal/axioms/IrreflexiveObjectPropertyTranslator.java:180-185 | a merged value occupies at least two triples; any other value occupies its statement's triple first (the order of a merged value's triples, first origin's then second's, is stated by `IrreflexiveTranslator.MergeTriples`) |
| WithOneObject.CreateOwl | src/main/java/ru/avicomp/ontapi/internal/axioms/WithOneObject.java:86-102 | whichever shape `create` picks, the value stands for the axiom with the statement's type, subject and annotations |
| WithOneObject.SimpleIsNeverAnnotated | src/main/java/ru/avicomp/ontapi/internal/axioms/WithOneObject.java:109-125 | a Simple value is not annotated and its only object is its URI subject |
| PropertyTypeTranslator.Statements | src/main/java/ru/avicomp/ontapi/internal/AbstractPropertyTypeTranslator.java:52-57 | a statement is listed exactly when it is in the graph, local, and accepted by `testStatement` (object is the type, predicate is rdf:type, subject admits the view) |
| PropertyTypeTranslator.ByPattern | src/main/java/ru/avicomp/ontapi/internal/AbstractPropertyTypeTranslator.java:54 | the lookup `(?, rdf:type, CONST)` keeps exactly the graph's statements with that predicate and object |
| PropertyTypeTranslator.TestStatement | src/main/java/ru/avicomp/ontapi/internal/AbstractPropertyTypeTranslator.java:59-64 | a statement is recognised when its object is the type constant, its predicate is `rdf:type` and its subject admits the view |
| PropertyTypeTranslator.GetSubject | src/main/java/ru/avicomp/ontapi/internal/AbstractPropertyTypeTranslator.java:48-50 | the subject of the statement |
| PropertyTypeTranslator.MainTriple | src/main/java/ru/avicomp/ontapi/internal/AbstractPropertyTypeTranslator.java:67-69 | the triple `(property, rdf:type, CONST)` written for an axiom |
| Rdf.Add | src/main/java/ru/avicomp/ontapi/internal/AbstractPropertyTypeTranslator.java:68 | asserting a statement leaves exactly one local-if-asserted statement for its triple, carrying the union of the old and new annotations (the old ones first), leaves every statement of another triple as it was, grows the graph only for a new triple, and keeps one statement per triple |
| Rdf.Remove | src/test/java/com/github/owlcs/ontapi/tests/model/direct/ContainsAxiomsNoCacheTest.java:133 | removing triples keeps exactly the statements whose triple is not removed, and keeps one statement per triple |
| PropertyTypeTranslator.Write | src/main/java/ru/avicomp/ontapi/internal/AbstractPropertyTypeTranslator.java:66-69 | after `write` the graph holds a local statement for the main triple `(property, rdf:type, CONST)` whose annotations are the axiom's together with those the triple already had; statements of every other triple are unchanged; one statement per triple is kept |
| PropertyTypeTranslator.WriteIdempotent | src/main/java/ru/avicomp/ontapi/internal/AbstractPropertyTypeTranslator.java:66-69 | writing an axiom twice gives the same graph as writing it once |
| PropertyTypeTranslator.WriteIsRecognised | src/main/java/ru/avicomp/ontapi/internal/AbstractPropertyTypeTranslator.java:52-69 | the statement written for a property that admits the view is accepted by `testStatement` and listed by `statements`; in a graph with one statement per triple it is the only listed statement with the main triple |
| PropertyTypeTranslator.StatementsAreRecognised | src/main/java/ru/avicomp/ontapi/internal/AbstractPropertyTypeTranslator.java:52-64 | every listed statement is recognised, and a recognised graph statement is left out only when it is not local |
| IrreflexiveTranslator.ToAxiomWrap | src/main/java/com/github/owlcs/ontapi/internal/axioms/IrreflexiveObjectPropertyTranslator.java:66-75 | the detached axiom has the statement's subject as its property and the statement's annotations, and records both as components |
| IrreflexiveTranslator.ToAxiomImpl | src/main/java/com/github/owlcs/ontapi/internal/axioms/IrreflexiveObjectPropertyTranslator.java:58-64 | the attached build is Simple exactly for a URI subject without annotations and is consistent with its statement |
| IrreflexiveTranslator.WrapAndImplAgree | src/main/java/com/github/owlcs/ontapi/internal/axioms/IrreflexiveObjectPropertyTranslator.java:58-75 | for a recognised statement the detached and attached builds stand for the same OWL axiom |
| IrreflexiveTranslator.SameContent | src/main/java/com/github/owlcs/ontapi/internal/axioms/IrreflexiveObjectPropertyTranslator.java:167-170 | `sameContent` holds only for another Complex value with an element-wise equal content array |
| IrreflexiveTranslator.SameContentMeaning | src/main/java/com/github/owlcs/ontapi/internal/axioms/IrreflexiveObjectPropertyTranslator.java:167-170 | for consistent Complex values, `sameContent` holds exactly when they have the same anonymous subject (or none) and the same annotations in the same order |
| IrreflexiveTranslator.SameTriple | src/main/java/com/github/owlcs/ontapi/internal/axioms/IrreflexiveObjectPropertyTranslator.java:177 | the other value is an attached build on the same main triple |
| IrreflexiveTranslator.Merge | src/main/java/com/github/owlcs/ontapi/internal/axioms/IrreflexiveObjectPropertyTranslator.java:172-191 | `merge` returns this value for the same value or the same main triple; otherwise it returns a new Complex value on this value's triple that joins both values' triples, keeps this value's hash and takes over its content only if that was already computed |
| IrreflexiveTranslator.MergeTriples | src/main/java/com/github/owlcs/ontapi/internal/axioms/IrreflexiveObjectPropertyTranslator.java:180-185 | the merged value enumerates this value's triples followed by the other's |
| IrreflexiveTranslator.MergeKeepsAxiom | src/main/java/com/github/owlcs/ontapi/internal/axioms/IrreflexiveObjectPropertyTranslator.java:172-191 | a merge stays consistent and stands for the same OWL axiom as this value |
| IrreflexiveTranslator.MergeCommutesOnAxiom | src/main/java/com/github/owlcs/ontapi/internal/axioms/IrreflexiveObjectPropertyTranslator.java:172-191 | merging two representations of one axiom gives the same OWL axiom in either order |
| IrreflexiveTranslator.MergeAssociativeOnDistinctTriples | src/main/java/com/github/owlcs/ontapi/internal/axioms/IrreflexiveObjectPropertyTranslator.java:172-191 | for three values on distinct triples both groupings enumerate the same triples |
| IrreflexiveTranslator.MergeNotAssociativeOnSharedTriple | src/main/java/com/github/owlcs/ontapi/internal/axioms/IrreflexiveObjectPropertyTranslator.java:172-191 | when the outer values share a main triple, a triple only the third value occupies is missing from the left grouping and present in the right one, so the groupings differ |
| BaseSearcher.ToAxiom | src/main/java/com/github/owlcs/ontapi/internal/BaseSearcher.java:76-84 | the build is detached exactly when the factory or the config is the default singleton, and attached otherwise |
| BaseSearcher.BuildStandsFor | src/main/java/com/github/owlcs/ontapi/internal/axioms/IrreflexiveObjectPropertyTranslator.java:58-75 | under every factory and config, the value built from a recognised statement stands for the axiom with the statement's type, subject and annotations |
| BaseSearcher.ToAxiomTriples | src/main/java/com/github/owlcs/ontapi/internal/BaseSearcher.java:76-84 | a value built from a statement, detached or attached, occupies exactly that statement's triples |
| BaseSearcher.WrapAll | src/main/java/com/github/owlcs/ontapi/internal/BaseSearcher.java:107-108 | every split variant becomes its own wrap, in order |
| BaseSearcher.Split | src/main/java/com/github/owlcs/ontapi/internal/BaseSearcher.java:98-115 | `split` yields one axiom per split variant: all wraps under a default factory or config or with two or more variants, and the single attached build from the original statement otherwise |
| BaseSearcher.SplitAttachedOnlyWhenUnambiguous | src/main/java/com/github/owlcs/ontapi/internal/BaseSearcher.java:103-113 | an element of a split group is attached exactly when the setting is not default and the statement has one variant |
| BaseSearcher.MapAll | src/main/java/com/github/owlcs/ontapi/internal/BaseSearcher.java:62 | without splitting every statement maps to exactly one axiom, in order |
| BaseSearcher.FlatSplit | src/main/java/com/github/owlcs/ontapi/internal/BaseSearcher.java:60-61 | the split groups of the statements, concatenated in input order |
| BaseSearcher.Translate | src/main/java/com/github/owlcs/ontapi/internal/BaseSearcher.java:55-63 | with splitting off, `translate` is the one-to-one map through `toAxiom` |
| BaseSearcher.TranslateSplitGroups | src/main/java/com/github/owlcs/ontapi/internal/BaseSearcher.java:59-61 | with splitting on, the output is the first statement's split group followed by the translation of the rest, and a single statement translates to exactly its group |
| BaseSearcher.TranslateSplitMembers | src/main/java/com/github/owlcs/ontapi/internal/BaseSearcher.java:60-61 | with splitting on, an axiom is in the output exactly when it is in the split group of one of the statements |
| BaseSearcher.TranslateConcat | src/main/java/com/github/owlcs/ontapi/internal/BaseSearcher.java:60-61 | with splitting on, each statement's group stays together and groups follow the input order |
| BaseSearcher.TranslateSplitLength | src/main/java/com/github/owlcs/ontapi/internal/BaseSearcher.java:60-61 | with splitting on, the output has one axiom per split variant of every statement |
| BaseSearcher.SelectTranslators | src/main/java/com/github/owlcs/ontapi/internal/BaseSearcher.java:121-126 | exactly the translators of the axiom types that can reference the component type are selected, or all of them when no type is given |
| BaseSearcher.SelectByComponentIsSubset | src/main/java/com/github/owlcs/ontapi/internal/BaseSearcher.java:121-126 | selecting by a component type never yields more than selecting all |
| BaseSearcher.FirstMatch | src/test/java/com/github/owlcs/ontapi/tests/model/direct/ContainsAxiomsNoCacheTest.java:128-130 | the lookup finds nothing exactly when no statement builds an axiom equal to the key; otherwise it returns the build of such a statement, which is that build's source |
| BaseSearcher.Find | src/test/java/com/github/owlcs/ontapi/tests/model/direct/ContainsAxiomsNoCacheTest.java:128-130 | `find` returns the build of a listed statement whose axiom equals the key, or nothing when no listed statement matches |
| BaseSearcher.Contains | src/test/java/com/github/owlcs/ontapi/tests/model/direct/ContainsAxiomsNoCacheTest.java:131 | `contains` holds when some local recognised statement builds an axiom equal to the key |
| BaseSearcher.ContainsIffFind | src/test/java/com/github/owlcs/ontapi/tests/model/direct/ContainsAxiomsNoCacheTest.java:128-131 | `contains` holds exactly when `find` returns a value |
| BaseSearcher.MatchFixesTriple | src/test/java/com/github/owlcs/ontapi/tests/model/direct/ContainsAxiomsNoCacheTest.java:128-133 | a statement whose axiom equals the key has the main triple the key determines |
| BaseSearcher.RemoveFoundAxiom | src/test/java/com/github/owlcs/ontapi/tests/model/direct/ContainsAxiomsNoCacheTest.java:128-136 | for the axiom of any recognised local statement, `find` succeeds and `contains` holds; after the triples of the value found are removed, neither succeeds for that axiom |
| BaseSearcher.RemovedKeyNotContained | src/test/java/com/github/owlcs/ontapi/tests/model/direct/ContainsAxiomsNoCacheTest.java:133-135 | once the main triple a key determines is removed, no remaining statement matches the key |
| BaseSearcher.WriteThenContains | src/main/java/ru/avicomp/ontapi/internal/AbstractPropertyTypeTranslator.java:66-69 | after an irreflexive axiom is written for a property that admits the view, the graph contains it if the triple's earlier statement, if any, had no annotation outside the axiom's; in a graph with one statement per triple, only if |
| BaseSearcher.IrreflexiveLookupScenario | src/test/java/com/github/owlcs/ontapi/tests/model/direct/ContainsAxiomsNoCacheTest.java:116-136 | for a graph holding only `ex:p rdf:type owl:IrreflexiveProperty`, the axiom is found as a Simple value and contained, and it is not contained after its triples are removed |
| ClassSearcher.ByPredicates | src/main/java/com/github/owlcs/ontapi/internal/searchers/objects/ClassSearcher.java:92 | the statements with any of the cardinality predicates, and only those |
| ClassSearcher.IsCardinalityRestriction | src/main/java/com/github/owlcs/ontapi/internal/searchers/objects/ClassSearcher.java:96-98 | a statement is kept exactly when its subject can be viewed as an object exact, max or min cardinality restriction |
| ClassSearcher.KeepRestrictions | src/main/java/com/github/owlcs/ontapi/internal/searchers/objects/ClassSearcher.java:93 | keeps exactly the statements whose subject is an object cardinality restriction |
| ClassSearcher.ImplicitStatements | src/main/java/com/github/owlcs/ontapi/internal/searchers/objects/ClassSearcher.java:91-98 | a statement is implicit exactly when it has an `owl:cardinality`, `owl:maxCardinality` or `owl:minCardinality` predicate and its subject can be viewed as an exact, max or min object cardinality restriction |
| ClassSearcher.AnyRootFormsAxiom | src/main/java/com/github/owlcs/ontapi/internal/searchers/objects/ClassSearcher.java:71 | holds exactly when some root statement of some given statement forms an axiom |
| ClassSearcher.ContainsEntity | src/main/java/com/github/owlcs/ontapi/internal/searchers/objects/ClassSearcher.java:66-78 | a non-builtin class is contained exactly when declared; a builtin exactly when it occurs in an axiom; and `owl:Thing` also when an implicit cardinality axiom exists |
| ClassSearcher.ListedBuiltins | src/main/java/com/github/owlcs/ontapi/internal/searchers/objects/ClassSearcher.java:80-89 | the listing keeps every builtin, adds nothing but `owl:Thing`, and includes `owl:Thing` exactly when it is already a builtin or an implicit cardinality axiom exists |
| ClassSearcher.ListedThingIsContained | src/main/java/com/github/owlcs/ontapi/internal/searchers/objects/ClassSearcher.java:66-89 | when the listing adds `owl:Thing` and it is a builtin, `containsEntity` reports it |
| ClassSearcher.Translators | src/main/java/com/github/owlcs/ontapi/internal/searchers/objects/ClassSearcher.java:44 | the class searcher consults exactly the translators selected for the class component type |
| OntFormat.Ordinal | src/main/java/ru/avicomp/ontapi/OntFormat.java:46-73 | every format appears in the declaration order at its ordinal |
| OntFormat.Id | src/main/java/ru/avicomp/ontapi/OntFormat.java:108-110 | the format's id, as written in the table |
| OntFormat.Ext | src/main/java/ru/avicomp/ontapi/OntFormat.java:118-120 | the format's primary file extension, as written in the table |
| OntFormat.ExtsAreDistinct | src/main/java/ru/avicomp/ontapi/OntFormat.java:118-120 | no two formats share a primary extension |
| OntFormat.JenaLangs | src/main/java/ru/avicomp/ontapi/OntFormat.java:139-141 | the format's Jena languages, aliases included, in table order |
| OntFormat.OwlKeys | src/main/java/ru/avicomp/ontapi/OntFormat.java:166-168 | the format's OWL-API language keys, in table order |
| OntFormat.GetLang | src/main/java/ru/avicomp/ontapi/OntFormat.java:128-131 | `getLang` is missing exactly for a format without Jena languages, and is otherwise the first of them |
| OntFormat.GetLangRoundTrip | src/main/java/ru/avicomp/ontapi/OntFormat.java:358-364 | a format's primary Jena language looks the format up again, and only non-Jena formats have none |
| OntFormat.IsJena | src/main/java/ru/avicomp/ontapi/OntFormat.java:260-262 | the format has Jena languages |
| OntFormat.IsOwl | src/main/java/ru/avicomp/ontapi/OntFormat.java:268-270 | the format has OWL-API keys |
| OntFormat.IsJenaOnly | src/main/java/ru/avicomp/ontapi/OntFormat.java:276-278 | Jena languages but no OWL-API keys |
| OntFormat.IsOwlOnly | src/main/java/ru/avicomp/ontapi/OntFormat.java:284-286 | OWL-API keys but no Jena languages |
| OntFormat.IsXml | src/main/java/ru/avicomp/ontapi/OntFormat.java:294-296 | RDF/XML or OWL/XML |
| OntFormat.IsJson | src/main/java/ru/avicomp/ontapi/OntFormat.java:304-306 | RDF/JSON or JSON-LD |
| OntFormat.XmlJsonClassification | src/main/java/ru/avicomp/ontapi/OntFormat.java:260-306 | XML and JSON formats are OWL-API formats and never Jena-only, JSON formats are also Jena formats, OWL/XML is the only OWL-only XML format, and no format is both XML and JSON |
| OntFormat.IsReadSupported | src/main/java/ru/avicomp/ontapi/OntFormat.java:240-243 | a format is readable exactly when one of its Jena languages has a parser or one of its registered OWL-API languages is readable |
| OntFormat.IsWriteSupported | src/main/java/ru/avicomp/ontapi/OntFormat.java:250-253 | a format is writable exactly when one of its Jena languages has a writer or one of its registered OWL-API languages is writable |
| OntFormat.IsSupported | src/main/java/ru/avicomp/ontapi/OntFormat.java:231-233 | OBO, DL and KRSS2 are never supported; every other format is supported exactly when it is readable and writable |
| OntFormat.JenaOnlySupport | src/main/java/ru/avicomp/ontapi/OntFormat.java:231-253 | a Jena-only format is supported exactly when one of its languages has a parser and one has a writer |
| OntFormat.OwlOnlySupport | src/main/java/ru/avicomp/ontapi/OntFormat.java:231-253 | an OWL-only format other than OBO, DL and KRSS2 is supported exactly when one of its registered OWL-API languages is readable and one is writable |
| OntFormat.FirstById | src/main/java/ru/avicomp/ontapi/OntFormat.java:376-379 | the id scan finds nothing exactly when no format has the id, and otherwise finds a format with that id |
| OntFormat.IdsAreDistinct | src/main/java/ru/avicomp/ontapi/OntFormat.java:46-73 | the table holds 22 formats with pairwise different ids |
| OntFormat.GetById | src/main/java/ru/avicomp/ontapi/OntFormat.java:374-380 | `get(String)` finds nothing exactly when no format has the id, and otherwise a format with that id |
| OntFormat.GetByIdOfId | src/main/java/ru/avicomp/ontapi/OntFormat.java:374-380 | looking a format up by its own id finds that format |
| OntFormat.FirstByLang | src/main/java/ru/avicomp/ontapi/OntFormat.java:360-363 | the language scan finds nothing exactly when no format lists the language, and otherwise finds a format listing it |
| OntFormat.LangOwnerUnique | src/main/java/ru/avicomp/ontapi/OntFormat.java:47-61 | no Jena language is listed by two formats |
| OntFormat.GetByLang | src/main/java/ru/avicomp/ontapi/OntFormat.java:358-364 | `get(Lang)` finds nothing exactly when no format lists the language, and otherwise a format listing it |
| OntFormat.GetByLangOfLang | src/main/java/ru/avicomp/ontapi/OntFormat.java:358-364 | looking a format up by any of its Jena languages finds that format, and N3 finds Turtle |
| OntFormat.FirstByKey | src/main/java/ru/avicomp/ontapi/OntFormat.java:345-347 | the key scan finds nothing exactly when no format lists the key, and otherwise finds a format listing it |
| OntFormat.KeyOwnerUnique | src/main/java/ru/avicomp/ontapi/OntFormat.java:47-73 | no OWL-API key is listed by two formats |
| OntFormat.GetByKey | src/main/java/ru/avicomp/ontapi/OntFormat.java:343-349 | `get(Class)` finds nothing exactly when no format lists the key, and otherwise a format listing it |
| OntFormat.GetByKeyOfKey | src/main/java/ru/avicomp/ontapi/OntFormat.java:343-349 | looking a format up by any of its OWL-API keys finds that format |
| OntFormat.Classification | src/main/java/ru/avicomp/ontapi/OntFormat.java:260-286 | no format is both Jena-only and OWL-only, every format is Jena or OWL, and RDF-THRIFT, CSV and TSV are exactly the Jena-only formats |
| OntFormat.ComputeOrder | src/main/java/ru/avicomp/ontapi/OntFormat.java:154-159 | the order is -1 exactly for a readable and writable language, 1 exactly for one that is neither, and 0 otherwise |
| OntFormat.OwlLangs | src/main/java/ru/avicomp/ontapi/OntFormat.java:175-178 | the registered languages of exactly the format's keys, at most one per key |
| OntFormat.Registered | src/main/java/ru/avicomp/ontapi/OntFormat.java:175-178 | `owlLangs` holds exactly the registered languages of the format's keys |
| OntFormat.GetOwlLang | src/main/java/ru/avicomp/ontapi/OntFormat.java:150-152 | `getOWLLang` is missing exactly when no key is registered; otherwise it is a registered language of minimal order, and the first such in key order |
| OntFormat.FirstMinimal | src/main/java/ru/avicomp/ontapi/OntFormat.java:151 | the stream minimum is the first element of minimal order |
| NaryIndividualAxiom.Insert | owl/OWLNaryIndividualAxiomImpl.java:45 | inserting into a sorted set keeps it strictly sorted, adds exactly the new element, and does nothing when it is already present |
| NaryIndividualAxiom.SortedSet | owl/OWLNaryIndividualAxiomImpl.java:45 | the stored individuals are strictly sorted and are exactly the individuals given |
| NaryIndividualAxiom.SortedUnique | owl/OWLNaryIndividualAxiomImpl.java:45 | a strictly sorted sequence is determined by its elements |
| NaryIndividualAxiom.SortedSetCanonical | owl/OWLNaryIndividualAxiomImpl.java:43-46 | the stored set does not depend on the order or repetition of the individuals given |
| NaryIndividualAxiom.New | owl/OWLNaryIndividualAxiomImpl.java:43-46 | the constructor stores exactly the given individuals, sorted without repetition |
| NaryIndividualAxiom.GetIndividuals | owl/OWLNaryIndividualAxiomImpl.java:49-51 | `getIndividuals` returns the stored set, sorted |
| NaryIndividualAxiom.Equals | owl/OWLNaryIndividualAxiomImpl.java:54-62 | `equals` is false unless the inherited equality holds and the other object is an n-ary individual axiom; given both, it holds exactly when the individual sets are equal |
| NaryIndividualAxiom.EqualsIgnoresOrder | owl/OWLNaryIndividualAxiomImpl.java:54-62 | two axioms built from the same individuals in any order are equal, as values and under `equals` |
| OntId.SameAs | src/main/java/ru/avicomp/ontapi/jena/model/OntID.java:87-89 | `sameAs` implies equality, holds exactly when the IDs are equal with equal version IRIs, and fails whenever the version IRIs differ |
| OntId.SameAsIsEquivalence | src/main/java/ru/avicomp/ontapi/jena/model/OntID.java:78-89 | with node equality, `sameAs` is reflexive, symmetric and transitive, and coincides with equality of IRI and version |
| OntId.VersionsSeparate | src/main/java/ru/avicomp/ontapi/jena/model/OntID.java:78-89 | two IDs with the same ontology IRI are equal, yet are not the same ontology when their version IRIs differ or only one has a version |

## Left out

- Jena graph internals. `canAs`, `OntModels.listSplitStatements` and the triples that carry a statement's annotations are functions stored in the graph snapshot. Their implementations are not part of this model.
- The graph is a value, not a live model.
  - The lazy `Supplier` of the model and the staleness of cached content after the graph changes are not modelled.
  - Iterators are modelled as sequences in their enumeration order.
- Concurrency and the cache implementation (`InternalCache.Loading`). The cache is modelled as computed or not computed.
- Hashing. `OWLObject.hashIteration`, `WithContent.hashIteration`, the hash codes of wrapped objects and the hash index of the axiom type are uninterpreted functions. Java `int` overflow therefore does not arise in the model.
- WithOneObject.InitContent: `ONTAxiomImpl.collectAnnotations` is taken to return the statement's annotations in their stored order. The annotation factory and the configuration that filters annotations are not part of this model.
- IrreflexiveTranslator.ToAxiomWrap: `factory.getProperty` and `factory.getAnnotations` are taken to map nodes and annotations to themselves. The OWL data factory is not modelled.
- PropertyTypeTranslator.GetSubject: the `as(getView())` conversion is the identity on the subject node. Its failure for a subject that does not admit the view is not modelled.
- PropertyTypeTranslator.Write: `WriteHelper.writeTriple` is not part of this model. It is modelled by `Rdf.Add`: the triple's one statement becomes local and carries the union of the old and new annotations. How annotations are reified into triples, and how a split would later separate the two annotation sets, are not modelled.
- Graphs with two statements for one triple. The `Graph` type admits them, but no Jena graph does. `Rdf.TriplesUnique` states the property; `Write` and `Remove` keep it. Lemmas that need it (the converse of `BaseSearcher.WriteThenContains`, the uniqueness part of `PropertyTypeTranslator.WriteIsRecognised`) assume it.
- Java object identity. The `this == other` check in `merge` and the comparisons against the default factory and config singletons are modelled by value equality and by flags.
- IrreflexiveTranslator.Merge: the triples of a detached (Wrap) value are taken to be its statement's triples. The component objects' own triples are not modelled.
- BaseSearcher.Find and BaseSearcher.Contains: `AxiomTranslator.findONTObject` and `containsONTObject` are not part of this model. Both are modelled as a scan of the listed statements for the irreflexive translator, as the lookup test uses them.
- BaseSearcher.SelectTranslators: `OWLTopObjectType`, `hasComponent` and `AxiomParserProvider.get` are parameters. `toTranslator` is a plain accessor and is not modelled.
- ClassSearcher: the inherited `WithBuiltins` and `ObjectsSearcher` helpers (`containsBuiltin`, `containsInAxiom`, `containsDeclaration`, `listRootStatements`, `containsAxiom`, `getBuiltins`) are parameters. So are the final listing of entities and `createEntity`. `ByClass` is not part of this model, so its object cardinality types are written out as the three views.
- OntFormat:
  - `createOwlFormat` builds OWL-API format objects and is left out.
  - `get(OWLDocumentFormat)` is the id lookup or the key lookup, depending on the format class, and is not modelled separately.
  - The Jena and OWL-API registries are parameters.
  - Jena languages and OWL-API keys are enumerations, so the class-name comparison behind `get(Class)` is key equality.
  - Jena language aliases. `LangTtl`, `LangNt` and `LangNq` are separate values here, but in Jena they are the same objects as Turtle, N-Triples and N-Quads. N3 is also read as Turtle. The registries `jenaReadable` and `jenaWritable` are free functions, so they may answer differently for two aliases of one language, which Jena cannot. The lookups by language do not depend on this.
  - OntFormat.GetByLang: the `Lang` enumeration holds only the languages the table lists, so `get(Lang)` never returns null for a modelled language. A language unknown to the table is not modelled.
- Null arguments. The `notNull` checks throw on a null id, language or format; Dafny values are never null.
- NaryIndividualAxiom:
  - Individuals are represented by their rank in the OWL object order, so `compareTo` is integer order.
  - The annotations and the parent axiom equality are placeholders.
  - `compareObjectOfSameType` (set comparison for ordering) is not modelled.
- OntId.SameAs: the resource equality `equals` is a parameter. The lemmas instantiate it with node equality, as Jena resources compare by node.
