/** The format bridges: each one is a reader into JSON followed by a writer
    out of it, and an error thrown by the reader reaches the caller
    unchanged. Out of TOON they read with `toonToJson` as written; the
    `Fixed` bridges read with the corrected decoder instead, so that a key
    after a nested block is not lost on the way to another format. */
module Bridges {
  import opened Wrappers
  import opened Text
  import opened Values
  import opened Encoder
  import opened Decoder
  import opened RoundTrip
  import opened ToonFixed
  import opened FixedRoundTrip
  import opened Csv
  import opened Xml
  import opened Yaml
  import opened YamlRoundTrip

  /** Options that name every setting, so that they resolve to exactly `o`. */
  function Explicit(o: Options): (u: Option<Overrides>)
    ensures Resolve(u) == o
  {
    Some(Overrides(Some(o.delimiter), Some(o.indentation), Some(o.showLengthMarkers)))
  }

  // ---------------------------------------------------------------------
  // Into TOON.

  /** `xmlToToon(xml, options)`, given what `DOMParser` made of the text. */
  function XmlToToon(doc: Option<XmlNode>, u: Option<Overrides>): (r: Result<string, Error>)
    requires doc.Some? ==> doc.value.Element?
    ensures r.Failure? <==> doc.None? || HasElement(doc.value, ParserErrorTag)
    ensures r.Failure? ==> r.error == InvalidXml
  {
    match XmlToJson(doc)
    case Failure(e) => Failure(e)
    case Success(v) => Success(JsonToToon(v, Resolve(u)))
  }

  /** `csvToToon(csv, options)` */
  function CsvToToon(csv: string, u: Option<Overrides>): (r: Result<string, Error>)
    ensures r.Failure? <==> CsvToJson(csv).Failure?
  {
    match CsvToJson(csv)
    case Failure(e) => Failure(e)
    case Success(v) => Success(JsonToToon(v, Resolve(u)))
  }

  /** `yamlToToon(yaml, options)` */
  function YamlToToon(yaml: string, u: Option<Overrides>): (r: Result<string, Error>)
    ensures r.Failure? <==> YamlToJson(yaml).Failure?
    ensures r.Failure? ==> r.error.TypeError?
  {
    match YamlToJson(yaml)
    case Failure(e) => Failure(e)
    case Success(v) => Success(JsonToToon(v, Resolve(u)))
  }

  // ---------------------------------------------------------------------
  // Out of TOON.

  /** `toonToXml(toon)`: it fails when the TOON text has a misplaced root
      header, or when the value holds a null or undefined `@attributes`. */
  function ToonToXml(toon: string): (r: Result<string, Error>)
    ensures r.Failure? <==> ToonToJson(toon).Failure? || ThrowsIn(ToonToJson(toon).value)
  {
    match ToonToJson(toon)
    case Failure(e) => Failure(e)
    case Success(v) => JsonToXml(v)
  }

  /** `toonToCsv(toon)` */
  function ToonToCsv(toon: string): (r: Result<string, Error>)
    ensures ToonToJson(toon).Failure? ==> r == ToonToJson(toon).PropagateFailure()
  {
    match ToonToJson(toon)
    case Failure(e) => Failure(e)
    case Success(v) => JsonToCsv(v)
  }

  /** `toonToYaml(toon)`: it fails only where `toonToJson` does. */
  function ToonToYaml(toon: string): (r: Result<string, Error>)
    ensures r.Failure? <==> ToonToJson(toon).Failure?
  {
    match ToonToJson(toon)
    case Failure(e) => Failure(e)
    case Success(v) => Success(JsonToYaml(v))
  }

  /** `toonToXml` reading with the corrected decoder. */
  function FixedToonToXml(toon: string): (r: Result<string, Error>)
    ensures r.Failure? <==> FixedToonToJson(toon).Failure? || ThrowsIn(FixedToonToJson(toon).value)
  {
    match FixedToonToJson(toon)
    case Failure(e) => Failure(e)
    case Success(v) => JsonToXml(v)
  }

  /** `toonToYaml` reading with the corrected decoder. */
  function FixedToonToYaml(toon: string): (r: Result<string, Error>)
    ensures r.Failure? <==> FixedToonToJson(toon).Failure?
  {
    match FixedToonToJson(toon)
    case Failure(e) => Failure(e)
    case Success(v) => Success(JsonToYaml(v))
  }

  // ---------------------------------------------------------------------
  // What the bridges keep.

  /** A CSV export needs an array, and `toonToJson` gives one only for a
      text that opens with a keyless header on its first line: any other
      text fails, with the CSV error when it reads as an object and with the
      TOON error when its root header is misplaced. */
  lemma {:induction false} ToonToCsvNeedsRootArray(toon: string)
    ensures var lines := Split(toon, '\n');
      ToonToCsv(toon).Success? ==> FirstNonBlank(lines) == Some(0) && MatchHeader(lines[0]).Some?
    ensures ToonToJson(toon).Success? && ToonToJson(toon).value.Obj? ==>
      ToonToCsv(toon) == Failure(CsvExportRequiresArray)
    ensures ToonToJson(toon).Failure? ==> ToonToCsv(toon) == Failure(InvalidToon("Invalid root array format"))
  {
    ToonShape(toon);
  }

  /** The TOON of a good object goes to YAML and back to the same TOON, when
      the second step is given the options of the first. A nested object
      must come last, as the source's decoder needs. */
  lemma {:induction false} ToonYamlToon(f: seq<Entry>, o: Options)
    requires o.indentation > 0 && EntriesOk(f, o.delimiter.Char()) && YamlOk(f)
    ensures ToonToYaml(JsonToToon(Obj(f), o)) == Success(JsonToYaml(Obj(f)))
    ensures YamlToToon(ToonToYaml(JsonToToon(Obj(f), o)).value, Explicit(o)) == Success(JsonToToon(Obj(f), o))
  {
    RoundTripObject(f, o);
    YamlRoundTrip.YamlRoundTrip(f);
  }

  /** The TOON of a good table goes to CSV and back to the same TOON. */
  lemma {:induction false} ToonCsvToon(xs: seq<Value>, o: Options)
    requires TableOk(xs, o.delimiter.Char()) && CsvTableOk(xs)
    ensures ToonToCsv(JsonToToon(Arr(xs), o)) == JsonToCsv(Arr(xs))
    ensures ToonToCsv(JsonToToon(Arr(xs), o)).Success?
    ensures CsvToToon(ToonToCsv(JsonToToon(Arr(xs), o)).value, Explicit(o)) == Success(JsonToToon(Arr(xs), o))
  {
    RoundTripRoot(xs, o);
    CsvRoundTrip(xs);
  }

  /** The TOON of a good object goes to XML and, through the element tree
      the XML describes, back to the same TOON. A nested object must come
      last, as the source's decoder needs. */
  lemma {:induction false} ToonXmlToon(f: seq<Entry>, o: Options)
    requires o.indentation > 0 && EntriesOk(f, o.delimiter.Char()) && XmlOk(f)
    ensures |Nodes(Obj(f), "root")| == 1 && Nodes(Obj(f), "root")[0].Element?
    ensures ToonToXml(JsonToToon(Obj(f), o)) == Success(Declaration + Markup(Nodes(Obj(f), "root")[0]))
    ensures XmlToToon(Some(Nodes(Obj(f), "root")[0]), Explicit(o)) == Success(JsonToToon(Obj(f), o))
  {
    RoundTripObject(f, o);
    XmlRoundTrip(f);
  }

  /** With the corrected decoder the YAML round trip holds for nested
      objects in any place. */
  lemma {:induction false} FixedToonYamlToon(f: seq<Entry>, o: Options)
    requires o.indentation > 0 && NestedOk(f, o.delimiter.Char()) && YamlOk(f)
    ensures FixedToonToYaml(JsonToToon(Obj(f), o)) == Success(JsonToYaml(Obj(f)))
    ensures YamlToToon(FixedToonToYaml(JsonToToon(Obj(f), o)).value, Explicit(o)) == Success(JsonToToon(Obj(f), o))
  {
    FixedRoundTripObject(f, o);
    YamlRoundTrip.YamlRoundTrip(f);
  }

  /** With the corrected decoder the XML round trip holds for nested
      objects in any place. */
  lemma {:induction false} FixedToonXmlToon(f: seq<Entry>, o: Options)
    requires o.indentation > 0 && NestedOk(f, o.delimiter.Char()) && XmlOk(f)
    ensures |Nodes(Obj(f), "root")| == 1 && Nodes(Obj(f), "root")[0].Element?
    ensures FixedToonToXml(JsonToToon(Obj(f), o)) == Success(Declaration + Markup(Nodes(Obj(f), "root")[0]))
    ensures XmlToToon(Some(Nodes(Obj(f), "root")[0]), Explicit(o)) == Success(JsonToToon(Obj(f), o))
  {
    FixedRoundTripObject(f, o);
    XmlRoundTrip(f);
  }
}
