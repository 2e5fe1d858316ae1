/**
  The closed table of ontology document formats: each format's id, primary
  extension, Jena languages and OWL-API language keys, lookups by id and by
  Jena language, the classification predicates and the choice of the best
  OWL-API language.
 */
module OntFormat {
  import opened Wrappers

  /** The 22 formats, in declaration order. */
  datatype Format =
    | Turtle | RdfXml | RdfJson | JsonLd
    | NTriples | NQuads | TriG | TriX
    | RdfThrift | Csv | Tsv
    | OwlXml | ManchesterSyntax | FunctionalSyntax | BinaryRdf | Rdfa
    | Obo | Krss | Krss2 | Dl | DlHtml | Latex

  /** The Jena languages the table refers to. */
  datatype Lang =
    | LangTurtle | LangTtl | LangN3 | LangRdfXml | LangRdfJson | LangJsonLd
    | LangNTriples | LangNt | LangNQuads | LangNq | LangTriG | LangTriX
    | LangRdfThrift | LangCsv | LangTsv

  /** The OWL-API language keys the table refers to. */
  datatype LangKey =
    | KeyTurtle | KeyRioTurtle | KeyN3 | KeyRdfXml | KeyRioRdfXml | KeyRdfJson | KeyRdfJsonLd
    | KeyNTriples | KeyNQuads | KeyTriG | KeyTriX
    | KeyOwlXml | KeyManchesterSyntax | KeyFunctionalSyntax | KeyBinaryRdf | KeyRdfa
    | KeyObo | KeyKrss | KeyKrss2 | KeyDlSyntax | KeyDlSyntaxHtml | KeyLatex

  /** A registered OWL-API language with the capabilities of its parser and storer. */
  datatype OwlLang = OwlLang(key: LangKey, readable: bool, writable: bool)

  /** All formats in declaration order (`values()`). */
  const Values: seq<Format> := [
    Turtle, RdfXml, RdfJson, JsonLd, NTriples, NQuads, TriG, TriX,
    RdfThrift, Csv, Tsv,
    OwlXml, ManchesterSyntax, FunctionalSyntax, BinaryRdf, Rdfa,
    Obo, Krss, Krss2, Dl, DlHtml, Latex]

  /** The position of a format in the declaration order (`ordinal()`). */
  function Ordinal(f: Format): (r: nat)
    ensures r < |Values| && Values[r] == f
  {
    match f
    case Turtle => 0
    case RdfXml => 1
    case RdfJson => 2
    case JsonLd => 3
    case NTriples => 4
    case NQuads => 5
    case TriG => 6
    case TriX => 7
    case RdfThrift => 8
    case Csv => 9
    case Tsv => 10
    case OwlXml => 11
    case ManchesterSyntax => 12
    case FunctionalSyntax => 13
    case BinaryRdf => 14
    case Rdfa => 15
    case Obo => 16
    case Krss => 17
    case Krss2 => 18
    case Dl => 19
    case DlHtml => 20
    case Latex => 21
  }

  /** The unique id ("short name") of a format. */
  function Id(f: Format): string {
    match f
    case Turtle => "Turtle"
    case RdfXml => "RDF/XML"
    case RdfJson => "RDF/JSON"
    case JsonLd => "JSON-LD"
    case NTriples => "N-Triples"
    case NQuads => "N-Quads"
    case TriG => "TriG"
    case TriX => "TriX"
    case RdfThrift => "RDF-THRIFT"
    case Csv => "CSV"
    case Tsv => "TSV"
    case OwlXml => "OWL/XML"
    case ManchesterSyntax => "ManchesterSyntax"
    case FunctionalSyntax => "FunctionalSyntax"
    case BinaryRdf => "BinaryRDF"
    case Rdfa => "RDFA"
    case Obo => "OBO"
    case Krss => "KRSS"
    case Krss2 => "KRSS2"
    case Dl => "DL"
    case DlHtml => "DL/HTML"
    case Latex => "LATEX"
  }

  /** The primary file extension of a format. */
  function Ext(f: Format): string {
    match f
    case Turtle => "ttl"
    case RdfXml => "rdf"
    case RdfJson => "rj"
    case JsonLd => "jsonld"
    case NTriples => "nt"
    case NQuads => "nq"
    case TriG => "trig"
    case TriX => "trix"
    case RdfThrift => "trdf"
    case Csv => "csv"
    case Tsv => "tsv"
    case OwlXml => "owl"
    case ManchesterSyntax => "omn"
    case FunctionalSyntax => "fss"
    case BinaryRdf => "brf"
    case Rdfa => "xhtml"
    case Obo => "obo"
    case Krss => "krss"
    case Krss2 => "krss2"
    case Dl => "dl"
    case DlHtml => "html"
    case Latex => "tex"
  }

  /**
    The Jena languages of a format, aliases included (N3 is read as
    Turtle). A format built with a single missing language has none.
   */
  function JenaLangs(f: Format): seq<Lang> {
    match f
    case Turtle => [LangTurtle, LangTtl, LangN3]
    case RdfXml => [LangRdfXml]
    case RdfJson => [LangRdfJson]
    case JsonLd => [LangJsonLd]
    case NTriples => [LangNTriples, LangNt]
    case NQuads => [LangNQuads, LangNq]
    case TriG => [LangTriG]
    case TriX => [LangTriX]
    case RdfThrift => [LangRdfThrift]
    case Csv => [LangCsv]
    case Tsv => [LangTsv]
    case _ => []
  }

  /** The OWL-API language keys of a format; a single missing key gives none. */
  function OwlKeys(f: Format): seq<LangKey> {
    match f
    case Turtle => [KeyTurtle, KeyRioTurtle, KeyN3]
    case RdfXml => [KeyRdfXml, KeyRioRdfXml]
    case RdfJson => [KeyRdfJson]
    case JsonLd => [KeyRdfJsonLd]
    case NTriples => [KeyNTriples]
    case NQuads => [KeyNQuads]
    case TriG => [KeyTriG]
    case TriX => [KeyTriX]
    case RdfThrift => []
    case Csv => []
    case Tsv => []
    case OwlXml => [KeyOwlXml]
    case ManchesterSyntax => [KeyManchesterSyntax]
    case FunctionalSyntax => [KeyFunctionalSyntax]
    case BinaryRdf => [KeyBinaryRdf]
    case Rdfa => [KeyRdfa]
    case Obo => [KeyObo]
    case Krss => [KeyKrss]
    case Krss2 => [KeyKrss2]
    case Dl => [KeyDlSyntax]
    case DlHtml => [KeyDlSyntaxHtml]
    case Latex => [KeyLatex]
  }

  /** `getLang`: the primary Jena language, the head of the list, or none. */
  function GetLang(f: Format): (r: Option<Lang>)
    ensures r.None? <==> JenaLangs(f) == []
    ensures r.Some? ==> r.value in JenaLangs(f) && r.value == JenaLangs(f)[0]
  {
    if |JenaLangs(f)| == 0 then None else Some(JenaLangs(f)[0])
  }

  predicate IsJena(f: Format) {
    JenaLangs(f) != []
  }

  predicate IsOwl(f: Format) {
    OwlKeys(f) != []
  }

  predicate IsJenaOnly(f: Format) {
    IsJena(f) && !IsOwl(f)
  }

  predicate IsOwlOnly(f: Format) {
    IsOwl(f) && !IsJena(f)
  }

  predicate IsXml(f: Format) {
    f == RdfXml || f == OwlXml
  }

  predicate IsJson(f: Format) {
    f == RdfJson || f == JsonLd
  }

  /**
    The parser and writer registries: which Jena languages have a
    registered parser (`RDFParserRegistry.isRegistered`) or writer
    (`RDFWriterRegistry.contains`), and which OWL-API language, if any, is
    registered for a key.
   */
  datatype Registries = Registries(
    jenaReadable: Lang -> bool,
    jenaWritable: Lang -> bool,
    owl: LangKey -> Option<OwlLang>)

  /** `isReadSupported`: some Jena language has a parser or some registered OWL-API language is readable. */
  function IsReadSupported(f: Format, reg: Registries): (r: bool)
    ensures r <==> (exists l :: l in JenaLangs(f) && reg.jenaReadable(l))
                   || (exists d :: d in OwlLangs(f, reg.owl) && d.readable)
  {
    AnyLang(JenaLangs(f), reg.jenaReadable) || AnyOwl(OwlLangs(f, reg.owl), true)
  }

  /** `isWriteSupported`: some Jena language has a writer or some registered OWL-API language is writable. */
  function IsWriteSupported(f: Format, reg: Registries): (r: bool)
    ensures r <==> (exists l :: l in JenaLangs(f) && reg.jenaWritable(l))
                   || (exists d :: d in OwlLangs(f, reg.owl) && d.writable)
  {
    AnyLang(JenaLangs(f), reg.jenaWritable) || AnyOwl(OwlLangs(f, reg.owl), false)
  }

  function AnyLang(ls: seq<Lang>, p: Lang -> bool): (r: bool)
    ensures r <==> exists l :: l in ls && p(l)
  {
    if ls == [] then false else p(ls[0]) || AnyLang(ls[1..], p)
  }

  /** Whether some language is readable (`read`) or writable (not `read`). */
  function AnyOwl(ds: seq<OwlLang>, read: bool): (r: bool)
    ensures read ==> (r <==> exists d :: d in ds && d.readable)
    ensures !read ==> (r <==> exists d :: d in ds && d.writable)
  {
    if ds == [] then false
    else (if read then ds[0].readable else ds[0].writable) || AnyOwl(ds[1..], read)
  }

  /** `isSupported`: readable and writable, and none of OBO, DL and KRSS2. */
  function IsSupported(f: Format, reg: Registries): (r: bool)
    ensures f in {Obo, Dl, Krss2} ==> !r
    ensures f !in {Obo, Dl, Krss2} ==> (r <==> IsReadSupported(f, reg) && IsWriteSupported(f, reg))
  {
    IsWriteSupported(f, reg) && IsReadSupported(f, reg) && !(f == Obo || f == Dl || f == Krss2)
  }

  /** The first format of `fs` whose OWL-API keys contain `key`. */
  function FirstByKey(fs: seq<Format>, key: LangKey): (r: Option<Format>)
    ensures r.None? <==> forall f :: f in fs ==> key !in OwlKeys(f)
    ensures r.Some? ==> r.value in fs && key in OwlKeys(r.value)
  {
    if fs == [] then None
    else if key in OwlKeys(fs[0]) then Some(fs[0])
    else FirstByKey(fs[1..], key)
  }

  /** `get(Class)`: the first format listing the OWL-API key of a document format class, or none. */
  function GetByKey(key: LangKey): (r: Option<Format>)
    ensures r.None? <==> forall f: Format :: key !in OwlKeys(f)
    ensures r.Some? ==> key in OwlKeys(r.value)
  {
    AllListed();
    FirstByKey(Values, key)
  }

  /** Every format is in the table. */
  lemma AllListed()
    ensures forall f: Format :: f in Values
  {
    forall f: Format ensures f in Values {
      assert Values[Ordinal(f)] == f;
    }
  }

  /** The one format whose OWL-API keys contain a given key. */
  function KeyOwner(key: LangKey): (r: Format)
    ensures key in OwlKeys(r)
  {
    match key
    case KeyTurtle => Turtle
    case KeyRioTurtle => Turtle
    case KeyN3 => Turtle
    case KeyRdfXml => RdfXml
    case KeyRioRdfXml => RdfXml
    case KeyRdfJson => RdfJson
    case KeyRdfJsonLd => JsonLd
    case KeyNTriples => NTriples
    case KeyNQuads => NQuads
    case KeyTriG => TriG
    case KeyTriX => TriX
    case KeyOwlXml => OwlXml
    case KeyManchesterSyntax => ManchesterSyntax
    case KeyFunctionalSyntax => FunctionalSyntax
    case KeyBinaryRdf => BinaryRdf
    case KeyRdfa => Rdfa
    case KeyObo => Obo
    case KeyKrss => Krss
    case KeyKrss2 => Krss2
    case KeyDlSyntax => Dl
    case KeyDlSyntaxHtml => DlHtml
    case KeyLatex => Latex
  }

  /** No OWL-API key is listed by two formats. */
  lemma KeyOwnerUnique(f: Format, key: LangKey)
    requires key in OwlKeys(f)
    ensures f == KeyOwner(key)
  {
    match f {
      case Turtle =>
      case RdfXml =>
      case RdfJson =>
      case JsonLd =>
      case NTriples =>
      case NQuads =>
      case TriG =>
      case TriX =>
      case RdfThrift =>
      case Csv =>
      case Tsv =>
      case OwlXml =>
      case ManchesterSyntax =>
      case FunctionalSyntax =>
      case BinaryRdf =>
      case Rdfa =>
      case Obo =>
      case Krss =>
      case Krss2 =>
      case Dl =>
      case DlHtml =>
      case Latex =>
    }
  }

  lemma {:induction false} FirstByKeyFinds(fs: seq<Format>, key: LangKey)
    requires KeyOwner(key) in fs
    ensures FirstByKey(fs, key) == Some(KeyOwner(key))
  {
    if fs[0] != KeyOwner(key) {
      if key in OwlKeys(fs[0]) {
        KeyOwnerUnique(fs[0], key);
        assert false;
      }
      assert KeyOwner(key) in fs[1..];
      FirstByKeyFinds(fs[1..], key);
    }
  }

  /** Looking a format up by any of its OWL-API keys finds that format; the jena-only formats are never found. */
  lemma GetByKeyOfKey(f: Format, key: LangKey)
    requires key in OwlKeys(f)
    ensures GetByKey(key) == Some(f)
  {
    KeyOwnerUnique(f, key);
    assert Values[Ordinal(f)] == f;
    FirstByKeyFinds(Values, key);
  }

  /** The first format of `fs` whose id equals `id`. */
  function FirstById(fs: seq<Format>, id: string): (r: Option<Format>)
    ensures r.None? <==> forall f :: f in fs ==> Id(f) != id
    ensures r.Some? ==> r.value in fs && Id(r.value) == id
  {
    if fs == [] then None
    else if Id(fs[0]) == id then Some(fs[0])
    else FirstById(fs[1..], id)
  }

  /** In a list without repeated ids, the lookup by a member's id finds that member. */
  lemma {:induction false} FirstByIdFinds(fs: seq<Format>, f: Format)
    requires f in fs
    requires forall i, j :: 0 <= i < j < |fs| ==> Id(fs[i]) != Id(fs[j])
    ensures FirstById(fs, Id(f)) == Some(f)
  {
    if fs[0] != f {
      assert f in fs[1..];
      var k :| 0 <= k < |fs| && fs[k] == f;
      assert Id(fs[0]) != Id(fs[k]);
      FirstByIdFinds(fs[1..], f);
    }
  }

  /** `get(String)`: the first format with the given id, or none. */
  function GetById(id: string): (r: Option<Format>)
    ensures r.None? <==> forall f: Format :: Id(f) != id
    ensures r.Some? ==> Id(r.value) == id
  {
    AllListed();
    FirstById(Values, id)
  }

  /** The first format of `fs` whose Jena languages contain `lang`. */
  function FirstByLang(fs: seq<Format>, lang: Lang): (r: Option<Format>)
    ensures r.None? <==> forall f :: f in fs ==> lang !in JenaLangs(f)
    ensures r.Some? ==> r.value in fs && lang in JenaLangs(r.value)
  {
    if fs == [] then None
    else if lang in JenaLangs(fs[0]) then Some(fs[0])
    else FirstByLang(fs[1..], lang)
  }

  /** `get(Lang)`: the first format listing the Jena language, or none. */
  function GetByLang(lang: Lang): (r: Option<Format>)
    ensures r.None? <==> forall f: Format :: lang !in JenaLangs(f)
    ensures r.Some? ==> lang in JenaLangs(r.value)
  {
    AllListed();
    FirstByLang(Values, lang)
  }

  /** The table lists every format once, and no two formats share an id. */
  lemma IdsAreDistinct()
    ensures |Values| == 22
    ensures forall i, j :: 0 <= i < j < |Values| ==> Id(Values[i]) != Id(Values[j])
  {
  }

  /** No two formats share a primary extension, so a file extension names at most one format. */
  lemma ExtsAreDistinct()
    ensures forall i, j :: 0 <= i < j < |Values| ==> Ext(Values[i]) != Ext(Values[j])
  {
  }

  /** Looking a format up by its own id finds that format. */
  lemma GetByIdOfId(f: Format)
    ensures GetById(Id(f)) == Some(f)
  {
    IdsAreDistinct();
    assert Values[Ordinal(f)] == f;
    FirstByIdFinds(Values, f);
  }

  /** The one format whose Jena languages contain a given language. */
  function LangOwner(lang: Lang): (r: Format)
    ensures lang in JenaLangs(r)
  {
    match lang
    case LangTurtle => Turtle
    case LangTtl => Turtle
    case LangN3 => Turtle
    case LangRdfXml => RdfXml
    case LangRdfJson => RdfJson
    case LangJsonLd => JsonLd
    case LangNTriples => NTriples
    case LangNt => NTriples
    case LangNQuads => NQuads
    case LangNq => NQuads
    case LangTriG => TriG
    case LangTriX => TriX
    case LangRdfThrift => RdfThrift
    case LangCsv => Csv
    case LangTsv => Tsv
  }

  /** No Jena language is listed by two formats. */
  lemma LangOwnerUnique(f: Format, lang: Lang)
    requires lang in JenaLangs(f)
    ensures f == LangOwner(lang)
  {
    match f {
      case Turtle =>
      case RdfXml =>
      case RdfJson =>
      case JsonLd =>
      case NTriples =>
      case NQuads =>
      case TriG =>
      case TriX =>
      case RdfThrift =>
      case Csv =>
      case Tsv =>
      case OwlXml =>
      case ManchesterSyntax =>
      case FunctionalSyntax =>
      case BinaryRdf =>
      case Rdfa =>
      case Obo =>
      case Krss =>
      case Krss2 =>
      case Dl =>
      case DlHtml =>
      case Latex =>
    }
  }

  lemma {:induction false} FirstByLangFinds(fs: seq<Format>, lang: Lang)
    requires LangOwner(lang) in fs
    ensures FirstByLang(fs, lang) == Some(LangOwner(lang))
  {
    if fs[0] != LangOwner(lang) {
      if lang in JenaLangs(fs[0]) {
        LangOwnerUnique(fs[0], lang);
        assert false;
      }
      assert LangOwner(lang) in fs[1..];
      FirstByLangFinds(fs[1..], lang);
    }
  }

  /** Looking a format up by any of its Jena languages finds that format; N3 is read as Turtle. */
  lemma GetByLangOfLang(f: Format, lang: Lang)
    requires lang in JenaLangs(f)
    ensures GetByLang(lang) == Some(f)
    ensures GetByLang(LangN3) == Some(Turtle)
  {
    LangOwnerUnique(f, lang);
    assert Values[Ordinal(f)] == f;
    FirstByLangFinds(Values, lang);
    assert Values[0] == Turtle;
    FirstByLangFinds(Values, LangN3);
  }

  /** Jena-only and OWL-only are exclusive; RDF-THRIFT, CSV and TSV are exactly the Jena-only formats. */
  lemma Classification(f: Format)
    ensures !(IsJenaOnly(f) && IsOwlOnly(f))
    ensures IsJena(f) || IsOwl(f)
    ensures IsJenaOnly(f) <==> f in {RdfThrift, Csv, Tsv}
  {
  }

  /** `getLang` and `get(Lang)` are inverse: a format's primary Jena language looks the format up again. */
  lemma GetLangRoundTrip(f: Format)
    ensures GetLang(f).Some? ==> GetByLang(GetLang(f).value) == Some(f)
    ensures GetLang(f).None? <==> !IsJena(f)
  {
    if GetLang(f).Some? {
      GetByLangOfLang(f, GetLang(f).value);
    }
  }

  /**
    The XML formats (RDF/XML, OWL/XML) and the JSON formats (RDF/JSON,
    JSON-LD) all have OWL-API keys, so none is Jena-only; the JSON formats
    and RDF/XML are also Jena formats, while OWL/XML is OWL-only.
   */
  lemma XmlJsonClassification(f: Format)
    ensures IsXml(f) || IsJson(f) ==> IsOwl(f) && !IsJenaOnly(f)
    ensures IsJson(f) ==> IsJena(f) && !IsOwlOnly(f)
    ensures IsXml(f) ==> (IsOwlOnly(f) <==> f == OwlXml)
    ensures !(IsXml(f) && IsJson(f))
  {
  }

  /**
    Support through the Jena side only: a Jena-only format is supported
    exactly when one of its Jena languages has a parser and one has a writer.
   */
  lemma JenaOnlySupport(f: Format, reg: Registries)
    requires IsJenaOnly(f)
    ensures IsSupported(f, reg) <==> (exists l :: l in JenaLangs(f) && reg.jenaReadable(l))
                                     && (exists l :: l in JenaLangs(f) && reg.jenaWritable(l))
  {
    assert OwlLangs(f, reg.owl) == [];
  }

  /**
    Support through the OWL-API side only: an OWL-only format other than
    OBO, DL and KRSS2 is supported exactly when one of its registered
    languages is readable and one is writable.
   */
  lemma OwlOnlySupport(f: Format, reg: Registries)
    requires IsOwlOnly(f) && f !in {Obo, Dl, Krss2}
    ensures IsSupported(f, reg) <==> (exists d :: d in OwlLangs(f, reg.owl) && d.readable)
                                     && (exists d :: d in OwlLangs(f, reg.owl) && d.writable)
  {
    assert JenaLangs(f) == [];
  }

  /** `computeOrder`: 1, lowered by one for a writable and by one for a readable language. */
  function ComputeOrder(d: OwlLang): (r: int)
    ensures -1 <= r <= 1
    ensures r == -1 <==> d.readable && d.writable
    ensures r == 1 <==> !d.readable && !d.writable
  {
    var res := 1;
    var res := if d.writable then res - 1 else res;
    if d.readable then res - 1 else res
  }

  /** `owlLangs`: the registered languages of the format's keys, in key order. */
  function OwlLangs(f: Format, registry: LangKey -> Option<OwlLang>): (r: seq<OwlLang>)
    ensures forall d :: d in r <==> exists k :: k in OwlKeys(f) && registry(k) == Some(d)
    ensures |r| <= |OwlKeys(f)|
  {
    Registered(OwlKeys(f), registry)
  }

  function Registered(keys: seq<LangKey>, registry: LangKey -> Option<OwlLang>): (r: seq<OwlLang>)
    ensures forall d :: d in r <==> exists k :: k in keys && registry(k) == Some(d)
    ensures |r| <= |keys|
  {
    if keys == [] then []
    else (if registry(keys[0]).Some? then [registry(keys[0]).value] else []) + Registered(keys[1..], registry)
  }

  /**
    `getOWLLang`: the first registered language of minimal order (the most
    capable one), or none when no key of the format is registered.
   */
  method GetOwlLang(f: Format, registry: LangKey -> Option<OwlLang>) returns (r: Option<OwlLang>)
    ensures r.None? <==> forall k :: k in OwlKeys(f) ==> registry(k).None?
    ensures r.Some? ==> exists k :: k in OwlKeys(f) && registry(k) == r
    ensures r.Some? ==> exists i :: 0 <= i < |OwlLangs(f, registry)| && OwlLangs(f, registry)[i] == r.value
                          && (forall j :: 0 <= j < i ==> ComputeOrder(OwlLangs(f, registry)[j]) > ComputeOrder(r.value))
    ensures r.Some? ==> forall d :: d in OwlLangs(f, registry) ==> ComputeOrder(r.value) <= ComputeOrder(d)
  {
    var langs := OwlLangs(f, registry);
    if langs != [] {
      assert langs[0] in langs;
    }
    r := FirstMinimal(langs);
  }

  /** `min` over a stream: the first element of minimal order. */
  method FirstMinimal(langs: seq<OwlLang>) returns (r: Option<OwlLang>)
    ensures r.None? <==> langs == []
    ensures r.Some? ==> exists i :: 0 <= i < |langs| && langs[i] == r.value
                          && (forall j :: 0 <= j < i ==> ComputeOrder(langs[j]) > ComputeOrder(r.value))
    ensures r.Some? ==> forall d :: d in langs ==> ComputeOrder(r.value) <= ComputeOrder(d)
  {
    if langs == [] {
      return None;
    }
    var best := 0;
    var k := 1;
    while k < |langs|
      invariant 0 <= best < k <= |langs|
      invariant forall j :: 0 <= j < k ==> ComputeOrder(langs[best]) <= ComputeOrder(langs[j])
      invariant forall j :: 0 <= j < best ==> ComputeOrder(langs[j]) > ComputeOrder(langs[best])
    {
      if ComputeOrder(langs[k]) < ComputeOrder(langs[best]) {
        best := k;
      }
      k := k + 1;
    }
    return Some(langs[best]);
  }
}
