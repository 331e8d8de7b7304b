# TOON converter, modelled in Dafny

This project models `src/lib/toon-converter.ts`, the converter between JSON
and TOON (Token-Oriented Object Notation). TOON is a line-based format:

- an object is one `key: value` line per scalar member;
- a nested object is a `key:` line followed by its members, indented one level deeper;
- an array of flat objects is a header `key[n]{f1,f2}:` followed by one delimited row per element;
- a root array of objects is the same header without a key.

The model covers:

- `jsonToToon`, the encoder, with its options (delimiter, indentation, length markers);
- `toonToJson`, the decoder, with `parseToonLines`, `parseRootArray` and `parseValue`;
- the CSV, XML and YAML bridges, which all pass through JSON;
- `countTokens` and `calculateTokenSavings`.

JSON values are the datatype `Values.Value`. An object is a sequence of
entries in insertion order, and JavaScript `undefined` is the constructor
`Undef`. A thrown error is the `Failure` side of `Wrappers.Result`, so a
bridge passes on the reader's error exactly as the source's exception does.

Numbers are exact decimals (`Numbers.Decimal`). `LexNumber` is the grammar of
`Number(text)`:

- decimal literals with an optional sign, fraction and exponent;
- unsigned `0x`, `0o` and `0b` literals.

`DecimalText` is `String(n)` in positional form.

Modules follow the source: Text, Numbers, Values, Scalars, Encoder, Decoder,
Csv, Xml, Yaml and Tokens, with Bridges on top. The round-trip proofs are in
RoundTrip, YamlRoundTrip and FixedRoundTrip. ToonQuirks and YamlQuirks hold
lemmas that pin down where the source loses data.

The source decoder's rule for ending a nested block loses data (see
Findings). Decoder keeps the source's rule as written, and the bridges out
of TOON (`toonToXml`, `toonToCsv`, `toonToYaml`) read through it, as the
source does. ToonFixed defines the decoder with that rule corrected, and
FixedRoundTrip proves that it reads back every object the encoder writes.
Bridges.FixedToonToXml and Bridges.FixedToonToYaml are the same bridges over
the corrected decoder.

## Model

| member | source | states |
|---|---|---|
| Encoder.Resolve | src/lib/toon-converter.ts:7-11 | Without options, the options are comma, indentation 2 and length markers on. Each option the caller gives replaces its default. Each option the caller leaves out keeps its default. |
| Encoder.ConvertObjectLines | src/lib/toon-converter.ts:148-180 | An object's TOON is its entries' line groups joined by newlines. That list of lines is empty exactly when the object has no entries. |
| Encoder.InlineLine | src/lib/toon-converter.ts:162-166 | A non-empty array of scalars goes on its key's line as `key: [` + `#n` (only with length markers) + the elements' `String` forms joined by commas + `]`. There is no separator after the count. |
| Encoder.InlineIgnoresDelimiter | src/lib/toon-converter.ts:133-135 | An inline array is written the same whatever delimiter is chosen: its elements are always comma-separated. |
| Decoder.MatchHeader | src/lib/toon-converter.ts:57 | A header match starts with `[` or `{` and ends at a `:`. Its field list is non-empty and holds no `}`. |
| Decoder.MatchHeaderAgree | src/lib/toon-converter.ts:57 | The anchored header pattern looks only at the prefix it matched. Two lines that agree on that prefix match alike. |
| Decoder.TrimKeepsHeader | src/lib/toon-converter.ts:73-75 | Trimming a line that opens with a header keeps the same match. So the test in `toonToJson` and the one in `parseRootArray` agree on such a line. |
| Decoder.Classify | src/lib/toon-converter.ts:240-290 | Every key that a tabular, nested or key-value line is read under is a non-empty run of word characters. A key-value line's value is non-empty and holds no line terminator. |
| Decoder.ParseRows | src/lib/toon-converter.ts:250-269 | The row loop stops at the end of the input or at the first line no deeper than the header. Every line it passes is deeper. The rows it returns are those lines read as objects, blank ones skipped. |
| Decoder.ParseBlock | src/lib/toon-converter.ts:219-237 | The block loop stops inside the input and past its first line. It stops only at the end, or at a non-blank line indented less than the line just before it. |
| Decoder.FirstNonBlank | src/lib/toon-converter.ts:55 | Gives the first line with non-space content, every line before it being blank. Otherwise it says that every line is blank. |
| Decoder.ParseRootArray | src/lib/toon-converter.ts:72-105 | Fails with "Invalid root array format" exactly when the trimmed first line has no header. Otherwise it gives an array of objects with exactly one object per non-blank later line, in order: the k-th object is the k-th non-blank line read under the header's fields and delimiter. |
| Decoder.NonBlankLines | src/lib/toon-converter.ts:88-89 | The lines the row loop reads: no more than it is given, and a line is among them exactly when it is among the input lines and not blank. |
| Decoder.BlockRowsRead | src/lib/toon-converter.ts:87-102 | The root table's row loop skips blank lines and reads each other line as one object: the k-th object comes from the k-th non-blank line. |
| Decoder.ToonShape | src/lib/toon-converter.ts:50-67 | `toonToJson` fails exactly when the first non-blank line has a header but is not line 0. It gives an array exactly when line 0 itself has a header. Every other text gives an object. |
| Decoder.LengthMarkerIgnored | src/lib/toon-converter.ts:57 | A `[n]` marker before the braces only lengthens the match. The count is never checked against the rows. |
| Decoder.EmptyMarkerUnreadable | src/lib/toon-converter.ts:154-157 | The marker `[0]{}:` or `{}:` that the encoder writes for an empty array never matches the header pattern. |
| Decoder.RowFields | src/lib/toon-converter.ts:261-264 | A row object has exactly the header's fields, each once. Field j holds cell j parsed, or `undefined` when the row has fewer cells. |
| Scalars.ParseValue | src/lib/toon-converter.ts:305-321 | `null`, `true` and `false` become literals. Text that `Number()` accepts (and that is not all spaces) becomes that number. Any other text stays unchanged as a string. |
| Scalars.ParseValueString | src/lib/toon-converter.ts:305-321 | `parseValue` returns its input as a string exactly when the input is neither a literal nor a number. |
| Scalars.ParseValueNumber | src/lib/toon-converter.ts:311-317 | The printed text of every number parses back to that number. |
| Scalars.ParseValueScalar | src/lib/toon-converter.ts:305-321 | Reading back the `String` form of null, a boolean, a number or a plain string gives the same value. |
| Scalars.ParseYamlValue | src/lib/toon-converter.ts:609-626 | `null` and `~` are null, and `true`/`false` are booleans. Number text is a number. Text in matching quotes loses its quotes. Any other text is kept. |
| Scalars.QuoteNotNumber | src/lib/toon-converter.ts:614-622 | Text that starts with a quote is never a number, so the unquoting branch is reached for it. |
| Scalars.ParseYamlQuoted | src/lib/toon-converter.ts:620-623 | Text in matching single or double quotes reads as the text inside them. |
| Numbers.LexDecimalText | src/lib/toon-converter.ts:311 | `Number()` reads every text that `DecimalText` prints back as the same decimal. This is the partner of the printer. |
| Numbers.LexRadix | src/lib/toon-converter.ts:311 | A `0x`, `0o` or `0b` body is accepted exactly when it is a non-empty run of digits of that base. Its value is the positional value. |
| Numbers.ScaleValue | src/lib/toon-converter.ts:311 | An exponent e multiplies the mantissa by 10^e, or divides by 10^-e. |
| Numbers.LexNumberStart | src/lib/toon-converter.ts:311 | Text that `Number()` accepts starts with a digit, a sign or a point. |
| Pinned.LexTrailingZero | src/lib/toon-converter.ts:314-316 | `1200.50` is 1200.5. The trailing-zero branch gives the same value as `Number`. |
| Pinned.LexZeroFraction | src/lib/toon-converter.ts:314-316 | `50.00` is 50. |
| Pinned.ParseValueTrailingZero | src/lib/toon-converter.ts:314-316 | `parseValue("1200.50")` is the number 1200.5. |
| Pinned.LexExponentForm | src/lib/toon-converter.ts:311 | `1e3` is 1000. |
| Pinned.LexNegativeExponent | src/lib/toon-converter.ts:311 | `2.5e-3` is 0.0025. |
| Pinned.LexHex | src/lib/toon-converter.ts:311 | `0x1F` is 31. |
| Pinned.SignedHexNaN | src/lib/toon-converter.ts:311 | `-0x1F` is not a number, because `Number()` rejects a sign before a radix prefix. |
| Pinned.ParseValueExponent | src/lib/toon-converter.ts:311 | `parseValue("1e3")` is the number 1000, not the text. |
| Pinned.ParseValueHex | src/lib/toon-converter.ts:311 | `parseValue("0x1F")` is the number 31. |
| Values.PutLookup | src/lib/toon-converter.ts:291 | After `result[key] = value` the key holds the new value and every other key keeps its value. The key set gains exactly that key, and keys stay unique. |
| Values.PutKeys | src/lib/toon-converter.ts:291 | Assigning an existing key leaves the key order alone. A new key goes last. |
| Values.RowObjectKeys | src/lib/toon-converter.ts:96-99 | The object built from a row has exactly the field names as keys, each once. |
| Values.RowObjectLookup | src/lib/toon-converter.ts:96-99 | Under a repeated field name, the last cell written wins. |
| RoundTrip.HeaderMatches | src/lib/toon-converter.ts:197 | The header the encoder writes matches the decoder's pattern, giving back the keys joined by commas and the delimiter. |
| RoundTrip.TableRows | src/lib/toon-converter.ts:199-207 | The rows the encoder writes read back as the objects they were written from, when their cells survive the split. |
| RoundTrip.RoundTripObject | src/lib/toon-converter.ts:215-300 | The source decoder reads back the encoder's text of an object. Conditions: word keys, each once; scalar values; a nested object or a table only as the last member, at every level; and indentation above 0. |
| RoundTrip.RoundTripRoot | src/lib/toon-converter.ts:72-105 | A root array of flat objects that share the first one's keys reads back as itself. |
| ToonFixed.FixedBlock | src/lib/toon-converter.ts:229-237 | The corrected block loop ends at the end of the input, or at the first non-blank line no deeper than the line that opened the block. |
| ToonFixed.FixedShape | src/lib/toon-converter.ts:50-67 | The corrected decoder keeps the source's top-level behaviour: the same failures, the same root arrays, and an object for every other text. |
| ToonFixed.FixedRootAgrees | src/lib/toon-converter.ts:72-105 | On a text whose first non-blank line is a header, the corrected and source decoders give the same result. |
| FixedRoundTrip.FixedRoundTripObject | src/lib/toon-converter.ts:215-300 | The corrected decoder reads back the encoder's text of every object with word keys (each once) and scalar, nested or table values in any order, when indentation is above 0. |
| FixedRoundTrip.FixedRoundTripRoot | src/lib/toon-converter.ts:72-105 | The corrected decoder reads back a root array of flat objects. |
| FixedRoundTrip.FixedExtends | src/lib/toon-converter.ts:229-237 | For every object that satisfies RoundTripObject's conditions (nested member only last), the corrected decoder reads the encoder's text back to the same object as the source decoder. |
| FixedRoundTrip.KeyAfterNestedKept | src/lib/toon-converter.ts:229-237 | With the corrected rule, `{a: {b: v}, c: w}` reads back whole. |
| FixedRoundTrip.EmptyNestedKept | src/lib/toon-converter.ts:169-171 | With the corrected rule, `{a: {}, b: v}` reads back whole. |
| ToonQuirks.KeyAfterNestedLost | src/lib/toon-converter.ts:229-237 | The source decoder reads `{a: {b: v}, c: w}` back as `{a: {b: v}}`: the key after the nested block is lost. |
| ToonQuirks.EmptyNestedAbsorbs | src/lib/toon-converter.ts:169-171 | An empty nested object is written as `a:` plus an empty line. The next key then reads back inside it: `{a: {}, b: v}` becomes `{a: {b: v}}`. |
| Csv.CsvToJson | src/lib/toon-converter.ts:484-505 | Fails exactly when the trimmed text has no newline. Otherwise it gives one object per later line: object k is line k + 1 read under the trimmed headers of line 0, whose keys and cells CsvRecordFields describes. |
| Csv.DataRecords | src/lib/toon-converter.ts:493-502 | The loop over the data lines gives one record per line after the header, record k from line k + 1. |
| Csv.CsvRecordFields | src/lib/toon-converter.ts:494-499 | A record has exactly the headers as keys, each once. Header j holds cell j parsed, or `""` when the line has fewer cells. |
| Csv.JsonToCsv | src/lib/toon-converter.ts:510-528 | Fails with "CSV export requires an array of objects" for a non-array or an empty one. It fails with a TypeError exactly when the first element is null or undefined, or when there is at least one header and some element is null or undefined. |
| Csv.CsvLineFields | src/lib/toon-converter.ts:518-524 | Split back on commas, an element's line holds under each header that member's text: empty for null, undefined or a missing member, `String(value)` otherwise, when no cell text holds a comma. |
| Csv.CsvBlankCell | src/lib/toon-converter.ts:497-499 | A null, undefined or missing member is written as an empty cell, and reading that line back gives the empty string under its header. |
| Csv.CsvRoundTrip | src/lib/toon-converter.ts:484-528 | CSV written from an array of flat objects with comma-free cells reads back as the same array. |
| Xml.JsonToXml | src/lib/toon-converter.ts:424-461 | The output starts with the XML declaration. It fails, with a TypeError, exactly when some object on the way has a null or undefined `@attributes`, on which `Object.entries` throws. |
| Xml.WriterMarkup | src/lib/toon-converter.ts:430-461 | The serialiser's string is the markup of the element tree it describes. |
| Xml.ParseXmlNode | src/lib/toon-converter.ts:377-419 | An element reads as its text or as an object. |
| Xml.XmlToJson | src/lib/toon-converter.ts:366-375 | Fails with "Invalid XML format" exactly when the text does not parse or some element of the tree, the root included, is named `parsererror`, which is what the test at line 370 looks for. Otherwise it gives a string or an object. |
| Xml.ParserErrorElementRejected | src/lib/toon-converter.ts:370-372 | Well-formed `<root><parsererror>x</parsererror></root>` is still rejected. |
| Xml.NodesFree | src/lib/toon-converter.ts:430-461 | The serialiser writes no element named `parsererror` for a readable value under another tag, so the test at line 370 never rejects what it writes. |
| Xml.ReadBack | src/lib/toon-converter.ts:377-419 | The tree written for a readable object is one element, and it reads back as the object. |
| Xml.XmlRoundTrip | src/lib/toon-converter.ts:424-428 | `jsonToXml` of a readable object (no key named `parsererror` at any depth) is the declaration plus one element. `xmlToJson` accepts that element and reads it back as the object. |
| Yaml.PopTo | src/lib/toon-converter.ts:588-591 | Popping leaves the root open, and stops once the top is indented less than the line. |
| Yaml.Item | src/lib/toon-converter.ts:565-579 | A `- ` line fails with a TypeError exactly when only the root is open. Otherwise it replaces the parent's entry for the top's last key with a one-element array, and leaves the rest unchanged. |
| Yaml.Member | src/lib/toon-converter.ts:593-602 | `key: value` assigns the parsed value in the top object. `key:` assigns `{}` and opens it as a new frame. |
| Yaml.Step | src/lib/toon-converter.ts:558-603 | A line fails exactly when it is a `- ` item while only the root is open. |
| Yaml.YamlToJson | src/lib/toon-converter.ts:551-607 | The result is an object, or a TypeError. |
| YamlQuirks.RootArrayThrows | src/lib/toon-converter.ts:569-574 | The YAML written for a root array of scalars cannot be read: the reader throws. |
| YamlQuirks.ArrayMemberLost | src/lib/toon-converter.ts:565-579 | `{key: [x1..xn]}` written to YAML reads back as `{key: {}, undefined: [xn]}`. |
| YamlQuirks.ItemDetaches | src/lib/toon-converter.ts:571-574 | After a `- ` line the open object is no longer reachable from the result, so what is later written into it is lost. |
| YamlQuirks.DetachedLost | src/lib/toon-converter.ts:571-574 | A detached object's members never reach the result. |
| YamlQuirks.AfterItemsTwice | src/lib/toon-converter.ts:574 | A second item overwrites the first: only the last item of a list survives. |
| YamlRoundTrip.YamlLinesJoin | src/lib/toon-converter.ts:643-652 | An object's YAML is its members' lines joined by newlines. It is empty exactly when the object has no members. |
| YamlRoundTrip.YamlRoundTrip | src/lib/toon-converter.ts:551-656 | YAML written from an object of word keys, plain scalars and non-empty nested objects reads back as the object. |
| YamlRoundTrip.EmptyRoundTrip | src/lib/toon-converter.ts:553 | The empty object's YAML reads back as the empty object. |
| Tokens.TokensMatch | src/lib/toon-converter.ts:20 | Every token is a run of word characters or a single symbol. |
| Tokens.TokensSpell | src/lib/toon-converter.ts:20 | The tokens, concatenated, spell the text with its whitespace removed. |
| Tokens.CountBounds | src/lib/toon-converter.ts:17-22 | The count is at most the number of non-space characters. It is 0 exactly for empty or all-space text. |
| Tokens.TokensSplit | src/lib/toon-converter.ts:20 | Across a whitespace character, the tokens of the two sides add up. |
| Tokens.WordIsOneToken | src/lib/toon-converter.ts:20 | A run of word characters is one token. |
| Tokens.RoundPercent | src/lib/toon-converter.ts:335 | The exact ratio 100·p/q rounded to the nearest integer, halves rounded up (the double arithmetic of the source is not modelled; see Left out). |
| Tokens.CalculateTokenSavings | src/lib/toon-converter.ts:326-343 | The counts are `countTokens` of each text. The saving is their difference. The percentage is that saving over the JSON count, rounded, or 0 for no JSON tokens. |
| Tokens.PercentBounds | src/lib/toon-converter.ts:335 | The percentage is at most 100. It is exactly 100 when the TOON has no tokens, and 0 when the counts are equal. |
| Text.Split | src/lib/toon-converter.ts:52 | `split` gives at least one piece, none holding the separator. Joining the pieces gives back the text. |
| Text.SplitJoin | src/lib/toon-converter.ts:52 | Splitting a join of separator-free pieces gives back the pieces. |
| Bridges.Explicit | src/lib/toon-converter.ts:28 | Every resolved option set can be passed back in as overrides. |
| Bridges.XmlToToon | src/lib/toon-converter.ts:350-353 | Fails, with the XML error, exactly when the XML does not parse or its tree holds an element named `parsererror`. |
| Bridges.CsvToToon | src/lib/toon-converter.ts:468-471 | Fails exactly when `csvToJson` does. |
| Bridges.YamlToToon | src/lib/toon-converter.ts:535-538 | Fails exactly when `yamlToJson` does, with a TypeError. |
| Bridges.ToonToXml | src/lib/toon-converter.ts:358-361 | Fails exactly when decoding fails, or when the decoded value has a null or undefined `@attributes`. |
| Bridges.ToonToCsv | src/lib/toon-converter.ts:476-479 | A decoding error reaches the caller unchanged. |
| Bridges.ToonToYaml | src/lib/toon-converter.ts:543-546 | Fails exactly when decoding fails. |
| Bridges.ToonToCsvNeedsRootArray | src/lib/toon-converter.ts:476-479 | CSV comes out only of TOON whose line 0 is a root header. An object gives "CSV export requires an array of objects". |
| Bridges.ToonYamlToon | src/lib/toon-converter.ts:535-546 | TOON of an object whose only nested member, if any, comes last goes to YAML through the source decoder and comes back as the same TOON. |
| Bridges.ToonCsvToon | src/lib/toon-converter.ts:468-479 | TOON of a root table goes to CSV and comes back as the same TOON. |
| Bridges.ToonXmlToon | src/lib/toon-converter.ts:350-361 | TOON of a readable object (no key named `parsererror`) whose only nested member, if any, comes last goes to XML through the source decoder, and that tree comes back as the same TOON. |
| Bridges.FixedToonToXml | src/lib/toon-converter.ts:358-361 | The XML bridge over the corrected decoder fails exactly when that decoder fails, or when its value has a null or undefined `@attributes`. |
| Bridges.FixedToonToYaml | src/lib/toon-converter.ts:543-546 | The YAML bridge over the corrected decoder fails exactly when that decoder fails. |
| Bridges.FixedToonYamlToon | src/lib/toon-converter.ts:535-546 | Over the corrected decoder, TOON of an object with nested members in any order goes to YAML and comes back as the same TOON. |
| Bridges.FixedToonXmlToon | src/lib/toon-converter.ts:350-361 | Over the corrected decoder, TOON of a readable object (no key named `parsererror`) with nested members in any order goes to XML, and that tree comes back as the same TOON. |

## Left out

- I/O and the UI: the converter is pure, and the model has no I/O either.
- XmlToJson: `DOMParser` is not part of this model. The reader takes the parser's outcome, either an element tree or "parse error", as a parameter. XmlRoundTrip therefore proves that the written tree reads back. It does not prove that the written markup parses to that tree.
- ParseValue: `Number()` also accepts `Infinity` and `-Infinity`. Here those stay strings, because the value has no infinities.
- ParseYamlValue: the same `Infinity` gap as ParseValue.
- CsvToJson: the same `Infinity` gap as ParseValue.
- ParseValue: `Number()` rounds to the nearest double. Here numbers are exact decimals, so very long mantissas and out-of-range exponents are not rounded.
- DecimalText: `String(n)` in JavaScript switches to exponent form for magnitudes from 1e21 up and below 1e-6 (`1e+21`, `1e-7`), and prints at most 17 significant digits. DecimalText always prints exact positional digits.
- Values.JsString: prints numbers through DecimalText, so it inherits the same exponent-form and 17-digit gap.
- IsSpace: covers the ASCII whitespace characters only. JavaScript's `\s` and `trim()` also cover U+00A0, U+FEFF, U+2028, U+2029 and the other Unicode space separators. IsWordChar is exactly JavaScript's `\w` (ASCII letters, digits and `_`).
- Resolve: `indentation` is a `nat`. In the source a negative indentation makes `' '.repeat` throw a RangeError, and an option explicitly set to `undefined` overrides its default; neither is modelled. The delimiter is one of the three the option type allows.
- Put: models an object as an insertion-ordered entry list. JavaScript lists integer-like keys first in ascending order, and an assignment to `__proto__` does not create an own key. Neither is modelled.
- JsonToCsv: an element that is a string or an array is modelled as having no keys. JavaScript would enumerate its indices.
- RoundTripObject, FixedRoundTripObject: with indentation 0 a nested member is written at its parent's depth, so the round trip is stated for indentation above 0 only.
- YAML reader: RootArrayThrows, ArrayMemberLost, ItemDetaches and DetachedLost show that sequences are lost. No corrected reader is modelled. The source calls this reader "very basic" (line 552), and the code fixes no intended YAML semantics for sequences; a correction would be a new YAML parser, not a repair of one line. YamlRoundTrip covers the part the reader is built for.
- RoundPercent, CalculateTokenSavings: round the exact ratio. The source rounds the double `(savedTokens / jsonTokens) * 100`, which can fall just below a half: 23/40 gives 57 in the source where the exact ratio 57.5 gives 58.
- CountTokens: a character is a Unicode scalar value. JavaScript strings are UTF-16 code units, so a symbol outside the Basic Multilingual Plane (an emoji) is two non-word characters and counts 2 in the source, 1 here.
- ParseXmlNode: element names that name `Object.prototype` members (`constructor`, `toString`, `valueOf`, `__proto__`) are not modelled. In the source the child-grouping lookup (lines 402-405) finds the inherited member, and `.push` on it throws a TypeError.
- XmlToJson: inherits the same `Object.prototype` gap as ParseXmlNode.
- XmlToToon: inherits the same `Object.prototype` gap as ParseXmlNode.
- CellText, Csv.Member: a CSV header or object key that names an `Object.prototype` member reads the inherited method in the source (`item[key]`, line 201; `obj[header]`, line 520). Here a missing key is `undefined`.
- Error texts: the model keeps each error as a constructor of `Values.Error`, not as a string. `Error.Message()` gives the text the source throws; for a decoding error it adds the "Invalid TOON format: " prefix that the `catch` in `toonToJson` puts in front of every message.

## Findings

| source | as written | input that shows it | evidently intended | confidence | as-written member | corrected member |
|---|---|---|---|---|---|---|
| src/lib/toon-converter.ts:229-237 | A nested block ends at the first line indented less than the line just before it. After a nested block, the parent's loop meets the next line, compares it with the block's last line, and returns as well, so every key after the block at the parent's level is dropped. | `{"a": {"b": 1}, "c": 2}` encodes to `a:` / `  b: 1` / `c: 2` and decodes to `{"a": {"b": 1}}` | A block ends at the first non-blank line no deeper than its `key:` line, which is the rule the tabular-row loop (line 254) already follows. | not executed | ToonQuirks.KeyAfterNestedLost | FixedRoundTrip.KeyAfterNestedKept |
| src/lib/toon-converter.ts:169-171 | An empty nested object is written as `a:` and an empty line. The decoder then reads the following key, at the same depth, as a member of `a`. | `{"a": {}, "b": 1}` encodes to `a:`, an empty line and `b: 1`, and decodes to `{"a": {"b": 1}}` | `b` stays beside `a`: a line no deeper than `a:` closes the block. | not executed | ToonQuirks.EmptyNestedAbsorbs | FixedRoundTrip.EmptyNestedKept |
