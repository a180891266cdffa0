/**
 * `walk` (src/lib.rs:81-121) and the rendering half of `parse`
 * (src/lib.rs:68-79): the specification as pure functions over the value
 * tree, and the source's buffer-building loops as methods proved equal to it.
 */
module Render {
  import opened Wrappers
  import opened Escape
  import opened Indentation
  import opened Values
  import opened Sequences

  /** `["<escaped key>"] = ` when a key is present, nothing otherwise
      (src/lib.rs:86-88). */
  function KeyPart(key: Option<string>): string {
    match key
    case None => ""
    case Some(k) => "[\"" + Escaped(k) + "\"] = "
  }

  /** `b.to_string()` (src/lib.rs:94). */
  function BoolText(b: bool): string {
    if b then "true" else "false"
  }

  /** The text `walk(key, v, depth)` returns: indentation, the optional key,
      the value's literal and the trailing `,\n`. */
  function Entry(key: Option<string>, v: Value, depth: nat): string
    decreases v, 1
  {
    Indent(depth) + KeyPart(key) + Literal(v, depth) + ",\n"
  }

  /** The literal of one value at nesting level `depth` (src/lib.rs:90-116). */
  function Literal(v: Value, depth: nat): string
    decreases v, 0
  {
    match v
    case Str(s) => "\"" + Escaped(s) + "\""
    case Int(i) => IntText(i as int)
    case Flt(t) => t
    case Bool(b) => BoolText(b)
    case Datetime(t) => "\"" + t + "\""
    case Array(items) => "{\n" + Items(items, depth + 1) + Indent(depth) + "}"
    case Table(entries) => "{\n" + Entries(entries, depth + 1) + Indent(depth) + "}"
  }

  /** The entries of an array's elements, which carry no key, in order. */
  function Items(items: seq<Value>, depth: nat): string
    decreases items
  {
    if items == [] then "" else Entry(None, items[0], depth) + Items(items[1..], depth)
  }

  /** The entries of a table's key/value pairs, in order. */
  function Entries(entries: seq<(string, Value)>, depth: nat): string
    decreases entries
  {
    if entries == [] then ""
    else
      assert (entries decreases to entries[0]) && (entries[0] decreases to entries[0].1);
      Entry(Some(entries[0].0), entries[0].1, depth) + Entries(entries[1..], depth)
  }

  /** The root entries with each key escaped once, as `parse` passes them on
      (src/lib.rs:73). */
  function EscapeKeys(root: seq<(string, Value)>): seq<(string, Value)> {
    seq(|root|, i requires 0 <= i < |root| => (Escaped(root[i].0), root[i].1))
  }

  /** The text `parse` returns for the root entries: `{\n`, the entries at
      depth 1 with their keys escaped before `walk` escapes them again, and
      `}` with no trailing newline. */
  function Document(root: seq<(string, Value)>): string {
    "{\n" + Entries(EscapeKeys(root), 1) + "}"
  }

  /** Pushing `{\n`, the children, the indentation and `}` one after the
      other gives the buffer followed by the container's literal. */
  lemma ContainerAssoc(lua: string, children: string, indent: string)
    ensures lua + "{\n" + children + indent + "}" == lua + ("{\n" + children + indent + "}")
  {
    AppendAssoc(lua, "{\n", children);
    AppendAssoc(lua, "{\n" + children, indent);
    AppendAssoc(lua, "{\n" + children + indent, "}");
  }

  /** What `parse` evidently means to return: the root table rendered like
      any nested table, each key escaped once. */
  function IntendedDocument(root: seq<(string, Value)>): string {
    "{\n" + Entries(root, 1) + "}"
  }

  /** The intended document is `walk` of the root table at depth 0 without
      the entry's trailing `,\n`: the root is rendered as the table it is. */
  lemma IntendedDocumentIsRootTable(root: seq<(string, Value)>)
    ensures IntendedDocument(root) + ",\n" == Entry(None, Table(root), 0)
  {
    assert Indent(0) == "";
    assert KeyPart(None) == "";
  }

  /** The two agree exactly when escaping leaves every root key unchanged. */
  lemma {:induction false} EscapeKeysIdentity(root: seq<(string, Value)>)
    ensures EscapeKeys(root) == root <==> forall i | 0 <= i < |root| :: Plain(root[i].0)
  {
    if forall i | 0 <= i < |root| :: Plain(root[i].0) {
      forall i | 0 <= i < |root| ensures EscapeKeys(root)[i] == root[i] {
        EscapedPlain(root[i].0);
      }
    } else {
      var i :| 0 <= i < |root| && !Plain(root[i].0);
      EscapedIsIdentityIff(root[i].0);
      assert EscapeKeys(root)[i].0 != root[i].0;
    }
  }

  /** Every entry starts with its indentation, then the escaped key in
      brackets when there is one, and ends with `,\n`. */
  lemma EntryShape(key: Option<string>, v: Value, depth: nat)
    ensures Indent(depth) + KeyPart(key) <= Entry(key, v, depth)
    ensures key.Some? ==> Indent(depth) + "[\"" + Escaped(key.value) + "\"] = " <= Entry(key, v, depth)
    ensures |Entry(key, v, depth)| >= depth + 2
    ensures Entry(key, v, depth)[|Entry(key, v, depth)| - 2..] == ",\n"
  {
    var e := Entry(key, v, depth);
    var head := Indent(depth) + KeyPart(key);
    AppendAssoc(head, Literal(v, depth), ",\n");
    DropAppend(head, Literal(v, depth) + ",\n");
    DropAppend(head + Literal(v, depth), ",\n");
    if key.Some? {
      assert head == Indent(depth) + "[\"" + Escaped(key.value) + "\"] = ";
    }
  }

  /** An empty array or table is `{\n`, the indentation and `}`. */
  lemma EmptyContainers(depth: nat)
    ensures Literal(Array([]), depth) == "{\n" + Indent(depth) + "}"
    ensures Literal(Table([]), depth) == "{\n" + Indent(depth) + "}"
  {
  }

  /** A datetime is quoted but not escaped: its literal is that of the string
      with the same text exactly when the text has no special character. */
  lemma DatetimeIsQuotedNotEscaped(t: string, depth: nat)
    ensures Literal(Datetime(t), depth) == Literal(Str(t), depth) <==> Plain(t)
  {
    EscapedIsIdentityIff(t);
    var a, b := Literal(Datetime(t), depth), Literal(Str(t), depth);
    if a == b {
      assert a[1..|a| - 1] == t;
      assert b[1..|b| - 1] == Escaped(t);
    }
  }

  /** The document opens with `{\n` and ends with `}`, with no newline after. */
  lemma DocumentDelimiters(root: seq<(string, Value)>)
    ensures "{\n" <= Document(root)
    ensures Document(root)[|Document(root)| - 1] == '}'
  {
    AppendAssoc("{\n", Entries(EscapeKeys(root), 1), "}");
  }

  lemma {:induction false} ItemsSnoc(items: seq<Value>, x: Value, depth: nat)
    ensures Items(items + [x], depth) == Items(items, depth) + Entry(None, x, depth)
  {
    if items == [] {
      assert items + [x] == [x];
    } else {
      assert (items + [x])[1..] == items[1..] + [x];
      ItemsSnoc(items[1..], x, depth);
    }
  }

  lemma {:induction false} EntriesSnoc(entries: seq<(string, Value)>, e: (string, Value), depth: nat)
    ensures Entries(entries + [e], depth) == Entries(entries, depth) + Entry(Some(e.0), e.1, depth)
  {
    if entries == [] {
      assert entries + [e] == [e];
    } else {
      assert (entries + [e])[1..] == entries[1..] + [e];
      EntriesSnoc(entries[1..], e, depth);
    }
  }

  /** `walk` as the source writes it: pushes the indentation, the escaped key,
      the value's literal and `,\n` onto a local buffer (src/lib.rs:82-120). */
  method Walk(key: Option<string>, value: Value, depth: nat) returns (lua: string)
    ensures lua == Entry(key, value, depth)
    decreases value, 2
  {
    lua := GetIndent(depth);
    if key.Some? {
      var k := ValidateString(key.value);
      lua := lua + ("[\"" + k + "\"] = ");
    }
    lua := PushLiteral(lua, value, depth);
    lua := lua + ",\n";
  }

  /** The `match` of `walk` (src/lib.rs:90-116): pushes the literal of `value`
      onto the buffer `lua`. */
  method PushLiteral(lua: string, value: Value, depth: nat) returns (out: string)
    ensures out == lua + Literal(value, depth)
    decreases value, 1
  {
    match value {
      case Str(s) =>
        var e := ValidateString(s);
        out := lua + ("\"" + e + "\"");
      case Int(i) =>
        out := lua + IntText(i as int);
      case Flt(t) =>
        out := lua + t;
      case Bool(b) =>
        out := lua + BoolText(b);
      case Datetime(t) =>
        out := lua + ("\"" + t + "\"");
      case Array(a) =>
        out := PushItems(lua + "{\n", a, depth + 1);
        var indent := GetIndent(depth);
        out := out + indent + "}";
        ContainerAssoc(lua, Items(a, depth + 1), indent);
      case Table(t) =>
        out := PushEntries(lua + "{\n", t, depth + 1);
        var indent := GetIndent(depth);
        out := out + indent + "}";
        ContainerAssoc(lua, Entries(t, depth + 1), indent);
    }
  }

  /** The loop over an array's elements (src/lib.rs:99-101): pushes the
      rendering of each element, without a key, in order. */
  method PushItems(lua: string, items: seq<Value>, depth: nat) returns (out: string)
    ensures out == lua + Items(items, depth)
    decreases items, 0
  {
    out := lua;
    for j := 0 to |items|
      invariant out == lua + Items(items[..j], depth)
    {
      assert items[j] in items;
      var child := Walk(None, items[j], depth);
      PrefixSnoc(items, j);
      ItemsSnoc(items[..j], items[j], depth);
      AppendAssoc(lua, Items(items[..j], depth), child);
      out := out + child;
    }
    assert items[..|items|] == items;
  }

  /** The loop over a table's entries (src/lib.rs:109-111): pushes the
      rendering of each key/value pair, in order. */
  method PushEntries(lua: string, entries: seq<(string, Value)>, depth: nat) returns (out: string)
    ensures out == lua + Entries(entries, depth)
    decreases entries, 0
  {
    out := lua;
    for j := 0 to |entries|
      invariant out == lua + Entries(entries[..j], depth)
    {
      var e := entries[j];
      assert (entries decreases to e) && (e decreases to e.1);
      var child := Walk(Some(e.0), e.1, depth);
      PrefixSnoc(entries, j);
      EntriesSnoc(entries[..j], e, depth);
      AppendAssoc(lua, Entries(entries[..j], depth), child);
      out := out + child;
    }
    assert entries[..|entries|] == entries;
  }

  /** The rendering half of `parse`: `{\n`, each root entry rendered at depth 1
      with its key escaped first, then `}`. */
  method Parse(root: seq<(string, Value)>) returns (lua: string)
    ensures lua == Document(root)
  {
    ghost var escaped := EscapeKeys(root);
    lua := "{\n";
    for i := 0 to |root|
      invariant lua == "{\n" + Entries(escaped[..i], 1)
    {
      var (key, value) := root[i];
      var k := ValidateString(key);
      var entry := Walk(Some(k), value, 1);
      assert escaped[i] == (k, value);
      PrefixSnoc(escaped, i);
      EntriesSnoc(escaped[..i], escaped[i], 1);
      AppendAssoc("{\n", Entries(escaped[..i], 1), entry);
      lua := lua + entry;
    }
    assert escaped[..|root|] == escaped;
    lua := lua + "}";
  }
}
