# toml2lua rendering core in Dafny

toml2lua turns a TOML document into the source text of a Lua table
literal. It has two steps. The `toml` crate parses the document into an
ordered tree of values. `src/lib.rs` then renders that tree with four
functions:

- `parse` wraps the root entries in `{\n` … `}`;
- `walk` emits one indented line per value (`["key"] = <literal>,\n`),
  recursing into arrays and tables one tab deeper;
- `get_indent` builds the tab indentation;
- `validate_string` escapes newline, tab, carriage return, backslash and
  double quote.

This project models the rendering step. Modules:

- `Values`: the parsed tree (`Value`). Tables are ordered lists of
  key/value pairs, in the order the parsed map yields them. `i64` is the
  source's integer width.
- `Escape`: `validate_string`, as the method `ValidateString`, proved equal
  to the function `Escaped`. Its partner is a reader of Lua short-string
  escapes (`ReadQuoted`, `Unescaped`).
- `Indentation`: `get_indent` as `GetIndent`, proved equal to `Indent`.
- `Render`: `walk` and `parse` as methods (`Walk`, `PushLiteral`,
  `PushItems`, `PushEntries`, `Parse`). They append to a buffer in the
  source's loops and are proved equal to the functions `Entry`, `Literal`,
  `Items`, `Entries` and `Document`.
- `Reader`: an independent decoder of the rendered layout (`Decode`). It is
  the rendering's partner: every rendered document reads back as the Lua value
  the tree stands for (`Erase`), with one exception, the top-level key (see Findings).
- `DocTests`: the crate's own example and unit tests. Each expected output
  is derived from the rendering functions, character for character.
- `Wrappers` and `Sequences`: `Option` and small facts about sequence
  concatenation.

`src/lib.rs:95` only quotes a datetime's text (`format!("\"{}\"", d)`), so
`Literal(Datetime(t), _)` is `"` + t + `"`, and
`Render.DatetimeIsQuotedNotEscaped` states exactly when this differs from a
string. A TOML datetime's text never contains a special character, so
the difference cannot show with real input.

## Model

| member | source | states |
|---|---|---|
| Escape.ValidateString | src/lib.rs:133-148 | the per-character loop returns exactly `Escaped(s)`: each of `\n`, `\t`, `\r`, `\\`, `"` is replaced by its two-character escape, every other character is copied |
| Escape.EscapedLength | src/lib.rs:136-145 | the output is as long as the input plus the number of the five special characters |
| Escape.EscapedAppend | src/lib.rs:136-147 | escaping distributes over concatenation |
| Escape.EscapedPlain | src/lib.rs:143 | a string with no special character is left unchanged |
| Escape.EscapedIsIdentityIff | src/lib.rs:136-147 | escaping leaves a string unchanged if and only if it has no special character |
| Escape.CountSpecialPositive | src/lib.rs:137-142 | a string with a special character has at least one character to escape |
| Escape.EscapedHasNoRawControl | src/lib.rs:138-140 | the escaped text contains no raw newline, tab or carriage return |
| Escape.ReadQuotedEscaped | src/lib.rs:133-148 | the escaped text, followed by a closing quote and anything, reads back as the original string by Lua's short-string rules, stopping at that quote; the escaping is a single pass that is never re-scanned |
| Escape.UnescapedEscaped | src/lib.rs:133-148 | unescaping the escaped text gives back the original |
| Escape.EscapedInjective | src/lib.rs:133-148 | two different strings never escape to the same text |
| Escape.UnescapeChar | src/lib.rs:138-142 | each recognised escape letter is the escape of a special character |
| Indentation.GetIndent | src/lib.rs:123-131 | the loop returns exactly `depth` characters, all tabs, equal to `Indent(depth)` |
| Values.DigitsCorrect | src/lib.rs:92 | the decimal digits of a natural number are digits, have no leading zero and read back as the number |
| Values.IntTextShape | src/lib.rs:92 | an integer's text is non-empty, starts with `-` if and only if the integer is negative, and is otherwise digits |
| Values.IntTextRoundTrip | src/lib.rs:92 | an integer's text reads back as the integer |
| Render.Walk | src/lib.rs:81-121 | `walk` returns exactly `Entry(key, value, depth)`: indentation, optional escaped key, literal, `,\n` |
| Render.PushLiteral | src/lib.rs:90-116 | appends exactly the value's literal to the buffer; containers recurse at `depth + 1` and close with the indentation and `}` |
| Render.PushItems | src/lib.rs:99-101 | appends the entries of the array's elements, without keys, in order |
| Render.PushEntries | src/lib.rs:109-111 | appends the entries of the table's pairs, with their keys, in order |
| Render.Parse | src/lib.rs:68-79 | `parse` returns exactly `Document(root)`: `{\n`, the root entries at depth 1 with keys escaped before `walk`, `}` |
| Render.EscapeKeysIdentity | src/lib.rs:73 | escaping the root keys changes nothing if and only if every root key is free of special characters |
| Render.EntryShape | src/lib.rs:84-88 | every entry starts with the indentation and, when keyed, `["` + escaped key + `"] = `, and ends with `,\n` |
| Render.EmptyContainers | src/lib.rs:96-115 | an empty array or table renders as `{\n`, the indentation and `}` |
| Render.DatetimeIsQuotedNotEscaped | src/lib.rs:91-95 | a datetime's literal equals the literal of the string with the same text if and only if the text has no special character |
| Render.DocumentDelimiters | src/lib.rs:70-76 | the document opens with `{\n` and ends with `}`, with no trailing newline |
| Render.ItemsSnoc | src/lib.rs:99-101 | one more array element appends its entry at the end |
| Render.EntriesSnoc | src/lib.rs:109-111 | one more table pair appends its entry at the end |
| Render.IntendedDocumentIsRootTable | src/lib.rs:70-76 | the corrected document is the root rendered as a table at depth 0, without the entry's trailing `,\n` |
| Reader.ReadLiteral | src/lib.rs:90-116 | the literal of every well-formed value, followed by `,\n`, reads back as that value: strings unescaped, scalars as words, containers as tables of their children |
| Reader.ReadEntryOf | src/lib.rs:81-121 | a rendered entry reads back as its key, unescaped, and its value |
| Reader.ReadItems | src/lib.rs:96-105 | an array's rendered children, followed by the closing indentation and `}`, read back as its elements in order |
| Reader.ReadEntries | src/lib.rs:106-115 | a table's rendered children, followed by the closing indentation and `}`, read back as its pairs in order |
| Reader.ReadKeyOf | src/lib.rs:86-88 | the key part reads back as the key; no key part is never taken for one |
| Reader.EntryIsNotClose | src/lib.rs:84 | an entry's indentation keeps it from being read as the parent's closing brace |
| Reader.DocumentReadsBack | src/lib.rs:68-79 | the document `parse` returns reads back as the root table, but with every root key escaped once more |
| Reader.IntendedDocumentReadsBack | src/lib.rs:68-79 | the corrected document reads back as the root table itself |
| Reader.DocumentKeyAt | src/lib.rs:72-73 | the i-th root key reads back from `parse`'s document as its escape, and from the corrected document as itself |
| Reader.DocumentDiffers | src/lib.rs:73 | a root key with a special character makes `parse`'s document differ from the corrected one |
| Reader.DocumentIsIntendedIff | src/lib.rs:73 | `parse`'s document equals the corrected one if and only if no root key has a special character |
| Reader.TopLevelKeyDoubleEscaped | src/lib.rs:73 | the root key `a"b` reads back from `parse`'s document as `a\"b`, and from the corrected document as `a"b` |
| DocTests.PlainStringLine | src/lib.rs:57-64 | a key and a string value without special characters appear verbatim as `["k"] = "s",` after the indentation |
| DocTests.MalformedStringLine | src/lib.rs:191-212 | a special character inside a string value appears as its two-character escape, as the `malformed_strings` test expects |
| DocTests.StringLine | src/lib.rs:84-91 | a string value after a key without special characters: the key verbatim, the value escaped, between the indentation and `,` |
| DocTests.TableLine | src/lib.rs:106-118 | a keyed table renders as its opening line `["k"] = {`, its pairs one level deeper, and `},` at its own indentation |
| DocTests.ArrayLine | src/lib.rs:96-105 | a keyed array renders as its opening line `["k"] = {`, its elements one level deeper without keys, and `},` at its own indentation |
| DocTests.PlainRootDocument | src/lib.rs:68-79 | when no root key has a special character, the document is `{\n`, the root entries at depth 1, `}` |
| DocTests.MalformedStringsDocument | src/lib.rs:191-212 | the `malformed_strings` test: the five keys with `..\n..`, `..\t..`, `..\r..`, `..\\..`, `..\"..` render as exactly the expected Lua text |
| DocTests.ExampleDocument | src/lib.rs:45-67 | the crate's example (string, integer, boolean and a nested table) renders as exactly the expected Lua text |
| DocTests.AllValuesDocument | src/lib.rs:152-189 | the `all_values` test (every kind of value, an array and a nested table) renders as exactly the expected Lua text |

## Left out

- TOML parsing (`toml::from_str`, src/lib.rs:69) and its `Error` result. This is a foreign library. The model starts from the parsed, ordered list of root entries.
- `IndexMap` internals. Tables are sequences of pairs in document order. Key uniqueness is not needed by any property.
- Float formatting (`f.to_string()`, src/lib.rs:93) is Rust's standard-library formatter. A float is its already-formatted text (`Flt(text)`). The read-back lemmas require that text to be a bare token (`IsWord`), which the formatter's output is (`inf` and `NaN` included, although Lua reads those as names rather than numbers).
- Datetime `Display` (src/lib.rs:95) is foreign formatting. A datetime is its already-formatted text. The read-back lemmas require that text to have no special character (`WellFormed`), which a TOML datetime never has.
- UTF-8 encoding: strings are sequences of `char`, and `chars()` is a walk over that sequence.
- `Reader.ReadLiteral`, `Reader.ReadEntryOf`, `Reader.ReadItems`, `Reader.ReadEntries`, `Reader.DocumentReadsBack`, `Reader.IntendedDocumentReadsBack`, `Reader.DocumentKeyAt`, `Reader.DocumentDiffers`, `Reader.DocumentIsIntendedIff`: these require `WellFormed`, for the two reasons above. Rendering itself has no precondition.
- `i64` is the source's integer type. `Value.Int` holds an `i64`, so every rendered integer is in range. Nothing in the renderer does arithmetic on it.
- DocTests starts each test from its parsed tree, not from its TOML text, since parsing is left out. The float `6.9` and the datetime of `all_values` are given as the text their formatters produce.

## Findings

| source | as written | input that shows it | evidently intended | confidence | as-written member | corrected member |
|---|---|---|---|---|---|---|
| src/lib.rs:73 | `parse` escapes each root key with `validate_string` and passes it as the key to `walk`, which escapes it again at src/lib.rs:87; nested keys (src/lib.rs:110) are escaped only once | root key `a"b`: the output has `["a\\\"b"]`, which Lua reads as the key `a\"b` | each key escaped once, so the root key reads back as `a"b`, as nested keys do | not executed | Reader.TopLevelKeyDoubleEscaped | Reader.IntendedDocumentReadsBack |

The as-written behaviour is `Render.Document`, which `Render.Parse` implements.
`Reader.DocumentReadsBack` and `Reader.DocumentIsIntendedIff` state its
effect for all inputs. The corrected behaviour is `Render.IntendedDocument`,
the root rendered as a table (`Render.IntendedDocumentIsRootTable`).
