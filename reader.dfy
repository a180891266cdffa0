/**
 * A reader for the text `walk` and `parse` produce: the partner that says
 * what the rendering means. `Erase` gives the Lua value a TOML value stands
 * for (strings stay strings, a datetime becomes the string of its text,
 * integers, floats and booleans become bare words, arrays and tables become
 * Lua tables), and the reader recovers exactly that value from the text, in
 * order, for every nesting depth.
 */
module Reader {
  import opened Wrappers
  import opened Sequences
  import opened Escape
  import opened Indentation
  import opened Values
  import opened Render

  /** A Lua value as the rendered table literal denotes it. */
  datatype Lua =
    | LStr(s: string)
    | LWord(w: string)
    | LTable(fields: seq<Field>)

  /** One field of a Lua table constructor: `["key"] = value` or a positional value. */
  datatype Field = Field(key: Option<string>, val: Lua)

  /** A bare token: non-empty, without commas, and not starting like a string,
      a table or a bracketed key. Integers, booleans and the float texts of
      Rust's formatter all have this form. */
  predicate IsWord(t: string) {
    && |t| > 0
    && t[0] != '"' && t[0] != '{' && t[0] != '['
    && forall i | 0 <= i < |t| :: t[i] != ','
  }

  /** What the tree must satisfy for its rendering to be readable: float
      texts are bare tokens and datetime texts need no escaping, as the text
      of a TOML datetime never does. */
  predicate WellFormed(v: Value)
    decreases v, 0
  {
    match v
    case Flt(t) => IsWord(t)
    case Datetime(t) => Plain(t)
    case Array(items) => ItemsWellFormed(items)
    case Table(entries) => EntriesWellFormed(entries)
    case _ => true
  }

  predicate ItemsWellFormed(items: seq<Value>)
    decreases items
  {
    items != [] ==> WellFormed(items[0]) && ItemsWellFormed(items[1..])
  }

  predicate EntriesWellFormed(entries: seq<(string, Value)>)
    decreases entries
  {
    entries != [] ==>
      assert (entries decreases to entries[0]) && (entries[0] decreases to entries[0].1);
      WellFormed(entries[0].1) && EntriesWellFormed(entries[1..])
  }

  /** The Lua value a TOML value stands for. */
  function Erase(v: Value): Lua
    decreases v, 0
  {
    match v
    case Str(s) => LStr(s)
    case Int(i) => LWord(IntText(i as int))
    case Flt(t) => LWord(t)
    case Bool(b) => LWord(BoolText(b))
    case Datetime(t) => LStr(t)
    case Array(items) => LTable(EraseItems(items))
    case Table(entries) => LTable(EraseEntries(entries))
  }

  function EraseItems(items: seq<Value>): seq<Field>
    decreases items
  {
    if items == [] then [] else [Field(None, Erase(items[0]))] + EraseItems(items[1..])
  }

  function EraseEntries(entries: seq<(string, Value)>): seq<Field>
    decreases entries
  {
    if entries == [] then []
    else
      assert (entries decreases to entries[0]) && (entries[0] decreases to entries[0].1);
      [Field(Some(entries[0].0), Erase(entries[0].1))] + EraseEntries(entries[1..])
  }

  /** The length of the longest prefix of `s` without a comma. */
  function WordLength(s: string): (n: nat)
    ensures n <= |s|
  {
    if s == [] || s[0] == ',' then 0 else 1 + WordLength(s[1..])
  }

  /** Reads one value: a quoted string, a braced table or a bare word. */
  function ReadValue(s: string, depth: nat): (r: Option<(Lua, string)>)
    ensures r.Some? ==> |r.value.1| < |s|
    decreases |s|, 0
  {
    if s == [] then None
    else if s[0] == '"' then
      var q :- ReadQuoted(s[1..]);
      Some((LStr(q.0), q.1))
    else if s[0] == '{' then
      if |s| < 2 || s[1] != '\n' then None
      else
        var fs :- ReadFields(s[2..], depth + 1);
        Some((LTable(fs.0), fs.1))
    else
      var n := WordLength(s);
      if n == 0 then None else Some((LWord(s[..n]), s[n..]))
  }

  /** Reads the fields of a table whose fields are indented `depth` tabs, up
      to and including the closing brace one tab further out. */
  function ReadFields(s: string, depth: nat): (r: Option<(seq<Field>, string)>)
    ensures r.Some? ==> |r.value.1| <= |s|
    decreases |s|, 2
  {
    if depth == 0 then None
    else if Indent(depth - 1) + "}" <= s then Some(([], s[depth..]))
    else
      var e :- ReadEntry(s, depth);
      var more :- ReadFields(e.1, depth);
      Some(([e.0] + more.0, more.1))
  }

  /** Reads one line: the indentation, an optional `["key"] = `, the value and
      the closing `,\n`. */
  function ReadEntry(s: string, depth: nat): (r: Option<(Field, string)>)
    ensures r.Some? ==> |r.value.1| < |s|
    decreases |s|, 1
  {
    if !(Indent(depth) <= s) then None
    else
      var k :- ReadKey(s[depth..]);
      var v :- ReadValue(k.1, depth);
      if ",\n" <= v.1 then Some((Field(k.0, v.0), v.1[2..])) else None
  }

  /** Reads `["<escaped key>"] = ` back to the key, or finds no key. */
  function ReadKey(t: string): (r: Option<(Option<string>, string)>)
    ensures r.Some? ==> |r.value.1| <= |t|
  {
    if |t| >= 2 && t[0] == '[' && t[1] == '"' then
      var q :- ReadQuoted(t[2..]);
      if "] = " <= q.1 then Some((Some(q.0), q.1[4..])) else None
    else Some((None, t))
  }

  /** Reads a whole document: one value and nothing after it. */
  function Decode(text: string): Option<Lua> {
    match ReadValue(text, 0)
    case Some((v, rest)) => if rest == [] then Some(v) else None
    case None => None
  }

  /** The rendered integer text and the boolean texts are bare words. */
  lemma IntTextIsWord(i: int)
    ensures IsWord(IntText(i))
  {
    IntTextShape(i);
  }

  lemma {:induction false} WordLengthOf(w: string, tail: string)
    requires forall i | 0 <= i < |w| :: w[i] != ','
    requires tail != [] && tail[0] == ','
    ensures WordLength(w + tail) == |w|
  {
    if w != [] {
      assert (w + tail)[1..] == w[1..] + tail;
      WordLengthOf(w[1..], tail);
    } else {
      assert w + tail == tail;
    }
  }

  /** A bare word followed by the entry's `,\n` reads back as itself. */
  lemma ReadWord(w: string, tail: string, depth: nat)
    requires IsWord(w) && tail != [] && tail[0] == ','
    ensures ReadValue(w + tail, depth) == Some((LWord(w), tail))
  {
    WordLengthOf(w, tail);
    DropAppend(w, tail);
    assert (w + tail)[..|w|] == w;
  }

  /** A quoted literal followed by anything starts with the quote, and the
      rest is the body, the closing quote and what follows. */
  lemma QuotedAppend(e: string, tail: string)
    ensures ("\"" + e + "\"" + tail)[0] == '"'
    ensures ("\"" + e + "\"" + tail)[1..] == e + "\"" + tail
  {
    assert "\"" + e + "\"" + tail == "\"" + (e + "\"" + tail);
  }

  /** A braced literal followed by anything starts with `{\n`, and the rest
      is the children, the indentation, `}` and what follows. */
  lemma BracedAppend(children: string, indent: string, tail: string)
    ensures ("{\n" + children + indent + "}" + tail)[..2] == "{\n"
    ensures ("{\n" + children + indent + "}" + tail)[2..] == children + ((indent + "}") + tail)
  {
    assert "{\n" + children + indent + "}" + tail == "{\n" + (children + ((indent + "}") + tail));
  }

  /** A key part followed by anything starts with `["`, and the rest is the
      escaped key, its closing quote and `] = ` before what follows. */
  lemma KeyAppend(k: string, after: string)
    ensures (KeyPart(Some(k)) + after)[..2] == "[\""
    ensures (KeyPart(Some(k)) + after)[2..] == Escaped(k) + "\"" + ("] = " + after)
  {
    assert KeyPart(Some(k)) + after == "[\"" + (Escaped(k) + "\"" + ("] = " + after));
  }

  /** The literal of a well-formed value is never empty and never starts
      with `[`, so the reader never takes it for a key. */
  lemma LiteralStart(v: Value, depth: nat)
    requires WellFormed(v)
    ensures |Literal(v, depth)| > 0 && Literal(v, depth)[0] != '['
  {
    match v
    case Int(i) => IntTextIsWord(i as int);
    case _ =>
  }

  /** An entry at `depth` starts with `depth` tabs, so it is never taken for
      the closing brace one level out. */
  lemma EntryIsNotClose(key: Option<string>, v: Value, depth: nat, rest: string)
    requires depth >= 1
    ensures !(Indent(depth - 1) + "}" <= Entry(key, v, depth) + rest)
  {
    var s := Entry(key, v, depth) + rest;
    Regroup(Indent(depth), KeyPart(key), Literal(v, depth), ",\n", rest);
    assert s[depth - 1] == Indent(depth)[depth - 1] == '\t';
  }

  /** A quoted escaped string followed by anything reads back as the string. */
  lemma ReadStringLiteral(s: string, tail: string, depth: nat)
    ensures ReadValue("\"" + Escaped(s) + "\"" + tail, depth) == Some((LStr(s), tail))
  {
    QuotedAppend(Escaped(s), tail);
    ReadQuotedEscaped(s, tail);
  }

  /** A braced literal whose children read back as `fields` reads back as
      the table of those fields. */
  lemma ReadBraced(children: string, depth: nat, tail: string, fields: seq<Field>)
    requires ReadFields(children + ((Indent(depth) + "}") + tail), depth + 1) == Some((fields, tail))
    ensures ReadValue("{\n" + children + Indent(depth) + "}" + tail, depth) == Some((LTable(fields), tail))
  {
    BracedAppend(children, Indent(depth), tail);
  }

  /** The literal of a well-formed value, followed by the `,\n` that ends
      its entry, reads back as the Lua value the TOML value stands for. */
  lemma {:induction false} ReadLiteral(v: Value, depth: nat, rest: string)
    requires WellFormed(v)
    ensures ReadValue(Literal(v, depth) + (",\n" + rest), depth) == Some((Erase(v), ",\n" + rest))
    decreases v, 0
  {
    var tail := ",\n" + rest;
    match v
    case Str(s) =>
      ReadStringLiteral(s, tail, depth);
    case Datetime(t) =>
      EscapedPlain(t);
      ReadStringLiteral(t, tail, depth);
    case Int(i) =>
      IntTextIsWord(i as int);
      ReadWord(IntText(i as int), tail, depth);
    case Flt(t) =>
      ReadWord(t, tail, depth);
    case Bool(b) =>
      ReadWord(BoolText(b), tail, depth);
    case Array(items) =>
      ReadItems(items, depth + 1, tail);
      ReadBraced(Items(items, depth + 1), depth, tail, EraseItems(items));
    case Table(entries) =>
      ReadEntries(entries, depth + 1, tail);
      ReadBraced(Entries(entries, depth + 1), depth, tail, EraseEntries(entries));
  }

  /** The key part of an entry reads back as its key, unescaped; without a
      key the reader finds none, because no literal starts with `[`. */
  lemma ReadKeyOf(key: Option<string>, after: string)
    requires after != [] && after[0] != '['
    ensures ReadKey(KeyPart(key) + after) == Some((key, after))
  {
    match key
    case None =>
      assert KeyPart(key) + after == after;
    case Some(k) =>
      KeyAppend(k, after);
      ReadQuotedEscaped(k, "] = " + after);
      DropAppend("] = ", after);
  }

  /** A line made of the indentation, a key part, a literal that reads back
      as `x` and `,\n` reads back as the field of that key and `x`. */
  lemma ReadLine(key: Option<string>, lit: string, x: Lua, depth: nat, rest: string)
    requires lit != [] && lit[0] != '['
    requires ReadValue(lit + (",\n" + rest), depth) == Some((x, ",\n" + rest))
    ensures ReadEntry(Indent(depth) + KeyPart(key) + lit + ",\n" + rest, depth) == Some((Field(key, x), rest))
  {
    var tail := ",\n" + rest;
    var after := lit + tail;
    Regroup(Indent(depth), KeyPart(key), lit, ",\n", rest);
    AppendAssoc(KeyPart(key), lit, tail);
    DropAppend(Indent(depth), KeyPart(key) + after);
    ReadKeyOf(key, after);
    DropAppend(",\n", rest);
  }

  /** One rendered entry reads back as its key, unescaped, and its value. */
  lemma {:induction false} ReadEntryOf(key: Option<string>, v: Value, depth: nat, rest: string)
    requires WellFormed(v) && depth >= 1
    ensures ReadEntry(Entry(key, v, depth) + rest, depth) == Some((Field(key, Erase(v)), rest))
    decreases v, 1
  {
    LiteralStart(v, depth);
    ReadLiteral(v, depth, rest);
    ReadLine(key, Literal(v, depth), Erase(v), depth, rest);
  }

  /** The entries of an array's elements, followed by the closing brace,
      read back as the elements, in order and without keys. */
  lemma {:induction false} ReadItems(items: seq<Value>, depth: nat, rest: string)
    requires ItemsWellFormed(items) && depth >= 1
    ensures ReadFields(Items(items, depth) + ((Indent(depth - 1) + "}") + rest), depth)
         == Some((EraseItems(items), rest))
    decreases items
  {
    var close := (Indent(depth - 1) + "}") + rest;
    DropAppend(Indent(depth - 1) + "}", rest);
    if items == [] {
      assert Items(items, depth) + close == close;
    } else {
      var later := Items(items[1..], depth) + close;
      AppendAssoc(Entry(None, items[0], depth), Items(items[1..], depth), close);
      EntryIsNotClose(None, items[0], depth, later);
      ReadEntryOf(None, items[0], depth, later);
      ReadItems(items[1..], depth, rest);
    }
  }

  /** The entries of a table, followed by the closing brace, read back as
      its keys and values, in document order. */
  lemma {:induction false} ReadEntries(entries: seq<(string, Value)>, depth: nat, rest: string)
    requires EntriesWellFormed(entries) && depth >= 1
    ensures ReadFields(Entries(entries, depth) + ((Indent(depth - 1) + "}") + rest), depth)
         == Some((EraseEntries(entries), rest))
    decreases entries
  {
    var close := (Indent(depth - 1) + "}") + rest;
    DropAppend(Indent(depth - 1) + "}", rest);
    if entries == [] {
      assert Entries(entries, depth) + close == close;
    } else {
      var (k, v) := entries[0];
      assert (entries decreases to entries[0]) && (entries[0] decreases to v);
      var later := Entries(entries[1..], depth) + close;
      AppendAssoc(Entry(Some(k), v, depth), Entries(entries[1..], depth), close);
      EntryIsNotClose(Some(k), v, depth, later);
      ReadEntryOf(Some(k), v, depth, later);
      ReadEntries(entries[1..], depth, rest);
    }
  }

  /** `{\n`, the entries at depth 1 and `}` read back as the table of the
      entries: the shape shared by `parse` and its intended form. */
  lemma ReadTopLevel(entries: seq<(string, Value)>)
    requires EntriesWellFormed(entries)
    ensures Decode("{\n" + Entries(entries, 1) + "}") == Some(LTable(EraseEntries(entries)))
  {
    var body := Entries(entries, 1);
    assert Indent(0) == [];
    assert (Indent(0) + "}") + [] == "}";
    ReadEntries(entries, 1, []);
    ReadBraced(body, 0, [], EraseEntries(entries));
    assert "{\n" + body + Indent(0) == "{\n" + body;
    assert "{\n" + body + "}" + [] == "{\n" + body + "}";
  }

  /** Escaping the keys does not change the values, so it keeps the tree
      well formed. */
  lemma {:induction false} EscapeKeysWellFormed(root: seq<(string, Value)>)
    requires EntriesWellFormed(root)
    ensures EntriesWellFormed(EscapeKeys(root))
  {
    if root != [] {
      assert EscapeKeys(root)[1..] == EscapeKeys(root[1..]);
      EscapeKeysWellFormed(root[1..]);
    }
  }

  /** The fields read back from a table are its entries, one for one. */
  lemma {:induction false} EraseEntriesAt(entries: seq<(string, Value)>, i: nat)
    requires i < |entries|
    ensures |EraseEntries(entries)| == |entries|
    ensures EraseEntries(entries)[i] == Field(Some(entries[i].0), Erase(entries[i].1))
  {
    if i > 0 {
      EraseEntriesAt(entries[1..], i - 1);
    } else if |entries| > 1 {
      EraseEntriesAt(entries[1..], 0);
    }
  }

  /** What `parse` returns reads back as the root table with every key
      escaped once: a key holding a newline, tab, carriage return, backslash
      or double quote does not come back as itself. */
  lemma DocumentReadsBack(root: seq<(string, Value)>)
    requires EntriesWellFormed(root)
    ensures Decode(Document(root)) == Some(LTable(EraseEntries(EscapeKeys(root))))
  {
    EscapeKeysWellFormed(root);
    ReadTopLevel(EscapeKeys(root));
  }

  /** The intended document reads back as the root table itself. */
  lemma IntendedDocumentReadsBack(root: seq<(string, Value)>)
    requires EntriesWellFormed(root)
    ensures Decode(IntendedDocument(root)) == Some(Erase(Table(root)))
  {
    ReadTopLevel(root);
  }

  /** The key `parse` renders at position `i` reads back as the root key
      escaped once; the intended document gives back the key itself. */
  lemma DocumentKeyAt(root: seq<(string, Value)>, i: nat)
    requires EntriesWellFormed(root) && i < |root|
    ensures Decode(Document(root)).Some? && Decode(Document(root)).value.LTable?
    ensures |Decode(Document(root)).value.fields| == |root|
    ensures Decode(Document(root)).value.fields[i].key == Some(Escaped(root[i].0))
    ensures Decode(IntendedDocument(root)).Some? && Decode(IntendedDocument(root)).value.LTable?
    ensures |Decode(IntendedDocument(root)).value.fields| == |root|
    ensures Decode(IntendedDocument(root)).value.fields[i].key == Some(root[i].0)
  {
    DocumentReadsBack(root);
    IntendedDocumentReadsBack(root);
    EraseEntriesAt(root, i);
    EraseEntriesAt(EscapeKeys(root), i);
  }

  /** A root key that needs escaping makes `parse` differ from its intended
      form. */
  lemma DocumentDiffers(root: seq<(string, Value)>, i: nat)
    requires EntriesWellFormed(root)
    requires i < |root| && !Plain(root[i].0)
    ensures Document(root) != IntendedDocument(root)
  {
    EscapedIsIdentityIff(root[i].0);
    DocumentKeyAt(root, i);
  }

  /** `parse` renders the intended document exactly when no root key needs
      escaping. */
  lemma DocumentIsIntendedIff(root: seq<(string, Value)>)
    requires EntriesWellFormed(root)
    ensures Document(root) == IntendedDocument(root) <==> forall i | 0 <= i < |root| :: Plain(root[i].0)
  {
    EscapeKeysIdentity(root);
    if i :| 0 <= i < |root| && !Plain(root[i].0) {
      DocumentDiffers(root, i);
    }
  }

  /** Escaping `a"b` once gives `a\"b`. */
  lemma EscapedQuoteKey()
    ensures Escaped("a\"b") == "a\\\"b"
  {
    assert "a\"b"[1..] == "\"b";
    assert "\"b"[1..] == "b";
    assert "b"[1..] == [];
  }

  /** A concrete input: the root key `a"b` comes back from `parse` as
      `a\"b`, while the intended document gives it back as `a"b`. */
  lemma TopLevelKeyDoubleEscaped()
    ensures Decode(Document([("a\"b", Bool(true))])).Some?
    ensures Decode(Document([("a\"b", Bool(true))])).value.fields[0].key == Some("a\\\"b")
    ensures Decode(IntendedDocument([("a\"b", Bool(true))])).Some?
    ensures Decode(IntendedDocument([("a\"b", Bool(true))])).value.fields[0].key == Some("a\"b")
  {
    var root := [("a\"b", Bool(true))];
    assert EntriesWellFormed(root);
    DocumentKeyAt(root, 0);
    EscapedQuoteKey();
  }
}
