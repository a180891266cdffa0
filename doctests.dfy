/**
 * Lines of the source's own expected outputs, derived from the rendering
 * functions.
 */
module DocTests {
  import opened Wrappers
  import opened Sequences
  import opened Escape
  import opened Indentation
  import opened Values
  import opened Render

  /** Regrouping of a rendered `key = "string"` line, for any texts. */
  lemma LineShape(indent: string, k: string, s: string)
    ensures indent + ("[\"" + k + "\"] = ") + ("\"" + s + "\"") + ",\n"
         == indent + "[\"" + k + "\"] = \"" + s + "\",\n"
  {
    var a, b, q, c := "[\"", "\"] = ", "\"", ",\n";
    assert b + q == "\"] = \"" && q + c == "\",\n";
    Regroup(indent, a + k + b, q + s + q, c, []);
    Regroup(indent + a + k, b + q, s, q + c, []);
    AppendAssoc(a + k, b, q + s + q + c);
    AppendAssoc(b, q, s + (q + c));
    AppendAssoc(q + s, q, c);
    AppendAssoc(q, s, q + c);
    AppendAssoc(indent, a + k, b + (q + (s + (q + c))));
    AppendAssoc(indent, a, k);
    AppendAssoc(indent + a, k, b + (q + (s + (q + c))));
  }

  /** The lines of the crate's example (`["string"] = "abc"`, `["key"] =
      "value"`): a key and a string value without special characters come
      out verbatim between the indentation and the trailing `,`. */
  lemma PlainStringLine(k: string, s: string, depth: nat)
    requires Plain(k) && Plain(s)
    ensures Entry(Some(k), Str(s), depth) == Indent(depth) + "[\"" + k + "\"] = \"" + s + "\",\n"
  {
    EscapedPlain(k);
    EscapedPlain(s);
    LineShape(Indent(depth), k, s);
  }

  /** The escape of `..c..`: the dots unchanged around the escape of `c`. */
  lemma EscapedDots(c: char)
    ensures Escaped(['.', '.', c, '.', '.']) == ".." + EscapeChar(c) + ".."
  {
    EscapedAppend(['.', '.'], [c, '.', '.']);
    assert ['.', '.', c, '.', '.'] == ['.', '.'] + [c, '.', '.'];
    EscapedPlain(['.', '.']);
    assert Escaped([c, '.', '.']) == EscapeChar(c) + Escaped(['.', '.']);
  }

  /** The `malformed_strings` expectation: each special character inside a
      string value comes out as its two-character Lua escape. */
  lemma MalformedStringLine(c: char)
    requires IsSpecial(c)
    ensures Literal(Str(['.', '.', c, '.', '.']), 1)
         == ['"', '.', '.'] + EscapeChar(c) + ['.', '.', '"']
  {
    EscapedDots(c);
  }

  /** Any string value after a plain key: the key verbatim, the value escaped. */
  lemma StringLine(k: string, s: string, depth: nat)
    requires Plain(k)
    ensures Entry(Some(k), Str(s), depth) == Indent(depth) + "[\"" + k + "\"] = \"" + Escaped(s) + "\",\n"
  {
    EscapedPlain(k);
    LineShape(Indent(depth), k, Escaped(s));
  }

  lemma EntriesCons(e: (string, Value), rest: seq<(string, Value)>, depth: nat)
    ensures Entries([e] + rest, depth) == Entry(Some(e.0), e.1, depth) + Entries(rest, depth)
  {
    assert ([e] + rest)[1..] == rest;
  }

  /** The entries of a list are the entries of its two parts, one after the
      other. */
  lemma {:induction false} EntriesAppend(a: seq<(string, Value)>, b: seq<(string, Value)>, depth: nat)
    ensures Entries(a + b, depth) == Entries(a, depth) + Entries(b, depth)
    decreases a
  {
    if a == [] {
      assert a + b == b;
    } else {
      assert (a + b)[0] == a[0];
      assert (a + b)[1..] == a[1..] + b;
      EntriesAppend(a[1..], b, depth);
      AppendAssoc(Entry(Some(a[0].0), a[0].1, depth), Entries(a[1..], depth), Entries(b, depth));
    }
  }

  lemma EntriesSingle(e: (string, Value), depth: nat)
    ensures Entries([e], depth) == Entry(Some(e.0), e.1, depth)
  {
    EntriesCons(e, [], depth);
    assert [e] + [] == [e];
  }

  lemma ItemsCons(v: Value, rest: seq<Value>, depth: nat)
    ensures Items([v] + rest, depth) == Entry(None, v, depth) + Items(rest, depth)
  {
    assert ([v] + rest)[1..] == rest;
  }

  /** The entries of an array's elements are those of its two parts. */
  lemma {:induction false} ItemsAppend(a: seq<Value>, b: seq<Value>, depth: nat)
    ensures Items(a + b, depth) == Items(a, depth) + Items(b, depth)
    decreases a
  {
    if a == [] {
      assert a + b == b;
    } else {
      assert (a + b)[0] == a[0];
      assert (a + b)[1..] == a[1..] + b;
      ItemsAppend(a[1..], b, depth);
      AppendAssoc(Entry(None, a[0], depth), Items(a[1..], depth), Items(b, depth));
    }
  }

  lemma ItemsSingle(v: Value, depth: nat)
    ensures Items([v], depth) == Entry(None, v, depth)
  {
    ItemsCons(v, [], depth);
    assert [v] + [] == [v];
  }

  /** A line with a plain key: indentation, the key verbatim, the literal. */
  lemma KeyedLine(k: string, v: Value, depth: nat)
    requires Plain(k)
    ensures Entry(Some(k), v, depth) == Indent(depth) + "[\"" + k + "\"] = " + Literal(v, depth) + ",\n"
  {
    EscapedPlain(k);
    Flatten3(Indent(depth), "[\"", k, "\"] = ");
  }

  /** An array element's line: indentation, literal, `,`. */
  lemma KeylessLine(v: Value, depth: nat)
    ensures Entry(None, v, depth) == Indent(depth) + Literal(v, depth) + ",\n"
  {
    assert Indent(depth) + KeyPart(None) == Indent(depth);
  }

  /** A container literal closing a keyed line, regrouped into its opening
      line, its children and its closing line. */
  lemma BlockShape(k: string, children: string, indent: string)
    ensures indent + "[\"" + k + "\"] = " + ("{\n" + children + indent + "}") + ",\n"
         == indent + "[\"" + k + "\"] = {\n" + children + (indent + "},\n")
  {
    var head := indent + "[\"" + k + "\"] = ";
    Flatten3(head, "{\n", children, indent);
    AppendAssoc(head + "{\n" + children + indent, "}", ",\n");
    AppendAssoc(head + "{\n" + children, indent, "}" + ",\n");
    AppendAssoc(indent, "}", ",\n");
    assert "}" + ",\n" == "},\n";
    assert head + "{\n" == indent + "[\"" + k + "\"] = {\n" by {
      AppendAssoc(indent + "[\"" + k, "\"] = ", "{\n");
    }
  }

  /** A keyed table: its opening line, its entries one level in, its
      closing line. */
  lemma TableLine(k: string, entries: seq<(string, Value)>, depth: nat)
    requires Plain(k)
    ensures Entry(Some(k), Table(entries), depth)
         == Indent(depth) + "[\"" + k + "\"] = {\n" + Entries(entries, depth + 1) + (Indent(depth) + "},\n")
  {
    KeyedLine(k, Table(entries), depth);
    BlockShape(k, Entries(entries, depth + 1), Indent(depth));
  }

  /** A keyed array: its opening line, its elements one level in, its
      closing line. */
  lemma ArrayLine(k: string, items: seq<Value>, depth: nat)
    requires Plain(k)
    ensures Entry(Some(k), Array(items), depth)
         == Indent(depth) + "[\"" + k + "\"] = {\n" + Items(items, depth + 1) + (Indent(depth) + "},\n")
  {
    KeyedLine(k, Array(items), depth);
    BlockShape(k, Items(items, depth + 1), Indent(depth));
  }

  /** The keys and string values of the tests have no special character. */
  lemma PlainWords()
    ensures Plain("string") && Plain("abc") && Plain("str") && Plain("int") && Plain("float")
    ensures Plain("bool") && Plain("datetime") && Plain("array") && Plain("object")
    ensures Plain("key") && Plain("value")
  {
  }

  /** With no special character in any root key, the second escaping done by
      `parse` changes nothing. */
  lemma PlainRootDocument(root: seq<(string, Value)>)
    requires forall i | 0 <= i < |root| :: Plain(root[i].0)
    ensures Document(root) == "{\n" + Entries(root, 1) + "}"
  {
    EscapeKeysIdentity(root);
  }

  // The `malformed_strings` test (src/lib.rs:191-212).

  const MalformedRoot: seq<(string, Value)> := [
    ("1", Str("..\n..")), ("2", Str("..\t..")), ("3", Str("..\r..")),
    ("4", Str("..\\..")), ("5", Str("..\".."))]

  const MalformedLua: string :=
    "{\n"
    + "\t[\"1\"] = \"..\\n..\",\n"
    + "\t[\"2\"] = \"..\\t..\",\n"
    + "\t[\"3\"] = \"..\\r..\",\n"
    + "\t[\"4\"] = \"..\\\\..\",\n"
    + "\t[\"5\"] = \"..\\\"..\",\n"
    + "}"

  /** One line of the test's output: key `k`, the string `..c..`. */
  lemma MalformedLine(k: char, c: char)
    requires !IsSpecial(k) && IsSpecial(c)
    ensures Entry(Some([k]), Str(['.', '.', c, '.', '.']), 1)
         == "\t[\"" + [k] + "\"] = \"" + (".." + EscapeChar(c) + "..") + "\",\n"
  {
    StringLine([k], ['.', '.', c, '.', '.'], 1);
    EscapedDots(c);
    assert Indent(1) + "[\"" == "\t[\"";
  }

  lemma MalformedNewline()
    ensures Entry(Some("1"), Str("..\n.."), 1) == "\t[\"1\"] = \"..\\n..\",\n"
  {
    MalformedLine('1', '\n');
    assert EscapeChar('\n') == "\\n";
    JoinMalformedNewline();
  }

  lemma MalformedTab()
    ensures Entry(Some("2"), Str("..\t.."), 1) == "\t[\"2\"] = \"..\\t..\",\n"
  {
    MalformedLine('2', '\t');
    assert EscapeChar('\t') == "\\t";
    JoinMalformedTab();
  }

  lemma MalformedReturn()
    ensures Entry(Some("3"), Str("..\r.."), 1) == "\t[\"3\"] = \"..\\r..\",\n"
  {
    MalformedLine('3', '\r');
    assert EscapeChar('\r') == "\\r";
    JoinMalformedReturn();
  }

  lemma MalformedBackslash()
    ensures Entry(Some("4"), Str("..\\.."), 1) == "\t[\"4\"] = \"..\\\\..\",\n"
  {
    MalformedLine('4', '\\');
    assert EscapeChar('\\') == "\\\\";
    JoinMalformedBackslash();
  }

  lemma MalformedQuote()
    ensures Entry(Some("5"), Str("..\".."), 1) == "\t[\"5\"] = \"..\\\"..\",\n"
  {
    MalformedLine('5', '"');
    assert EscapeChar('"') == "\\\"";
    JoinMalformedQuote();
  }

  lemma MalformedEntries()
    ensures Entries(MalformedRoot, 1)
         == "\t[\"1\"] = \"..\\n..\",\n" + "\t[\"2\"] = \"..\\t..\",\n" + "\t[\"3\"] = \"..\\r..\",\n"
          + "\t[\"4\"] = \"..\\\\..\",\n" + "\t[\"5\"] = \"..\\\"..\",\n"
  {
    var e1, e2, e3 := ("1", Str("..\n..")), ("2", Str("..\t..")), ("3", Str("..\r.."));
    var e4, e5 := ("4", Str("..\\..")), ("5", Str("..\".."));
    assert MalformedRoot == [e1] + [e2] + [e3] + [e4] + [e5];
    EntriesAppend([e1] + [e2] + [e3] + [e4], [e5], 1);
    EntriesAppend([e1] + [e2] + [e3], [e4], 1);
    EntriesAppend([e1] + [e2], [e3], 1);
    EntriesAppend([e1], [e2], 1);
    EntriesSingle(e1, 1);
    EntriesSingle(e2, 1);
    EntriesSingle(e3, 1);
    EntriesSingle(e4, 1);
    EntriesSingle(e5, 1);
    MalformedNewline();
    MalformedTab();
    MalformedReturn();
    MalformedBackslash();
    MalformedQuote();
  }

  /** The test's whole expected output, character for character. */
  lemma MalformedStringsDocument()
    ensures Document(MalformedRoot) == MalformedLua
  {
    assert forall i | 0 <= i < |MalformedRoot| :: Plain(MalformedRoot[i].0);
    PlainRootDocument(MalformedRoot);
    MalformedEntries();
    Flatten5("{\n", "\t[\"1\"] = \"..\\n..\",\n", "\t[\"2\"] = \"..\\t..\",\n", "\t[\"3\"] = \"..\\r..\",\n",
      "\t[\"4\"] = \"..\\\\..\",\n", "\t[\"5\"] = \"..\\\"..\",\n");
  }

  // Lines shared by the crate's example (src/lib.rs:57-64) and the
  // `all_values` test (src/lib.rs:172-186). Each line is derived from the
  // rendering functions; a separate lemma joins its pieces into one text.

  lemma BoolLine()
    ensures Entry(Some("bool"), Bool(true), 1) == "\t[\"bool\"] = true,\n"
  {
    KeyedLine("bool", Bool(true), 1);
    assert Indent(1) == "\t";
    JoinBoolLine();
  }

  lemma KeyLine()
    ensures Entries([("key", Str("value"))], 2) == "\t\t[\"key\"] = \"value\",\n"
  {
    EntriesSingle(("key", Str("value")), 2);
    PlainStringLine("key", "value", 2);
    assert Indent(2) == "\t\t";
    JoinKeyLine();
  }

  /** The `[object]` table, one level in: `{`, its line, `},`. */
  lemma ObjectBlock()
    ensures Entry(Some("object"), Table([("key", Str("value"))]), 1)
         == "\t[\"object\"] = {\n" + "\t\t[\"key\"] = \"value\",\n" + "\t},\n"
  {
    KeyLine();
    assert Indent(1) == "\t";
    PlainWords();
    TableLine("object", [("key", Str("value"))], 1);
    JoinObjectBlock();
  }

  // The crate's example (src/lib.rs:45-67).

  const ExampleRoot: seq<(string, Value)> := [
    ("string", Str("abc")), ("int", Int(123)), ("bool", Bool(true)),
    ("object", Table([("key", Str("value"))]))]

  const ExampleLua: string :=
    "{\n"
    + "\t[\"string\"] = \"abc\",\n"
    + "\t[\"int\"] = 123,\n"
    + "\t[\"bool\"] = true,\n"
    + "\t[\"object\"] = {\n"
    + "\t\t[\"key\"] = \"value\",\n"
    + "\t},\n"
    + "}"

  lemma ExampleStringLine()
    ensures Entry(Some("string"), Str("abc"), 1) == "\t[\"string\"] = \"abc\",\n"
  {
    PlainStringLine("string", "abc", 1);
    assert Indent(1) == "\t";
    JoinExampleStringLine();
  }

  lemma ExampleIntLine()
    ensures Entry(Some("int"), Int(123), 1) == "\t[\"int\"] = 123,\n"
  {
    KeyedLine("int", Int(123), 1);
    assert Digits(1) == "1" && Digits(12) == "12" && Digits(123) == "123";
    assert Indent(1) == "\t";
    JoinExampleIntLine();
  }

  lemma ExampleEntries()
    ensures Entries(ExampleRoot, 1)
         == "\t[\"string\"] = \"abc\",\n" + "\t[\"int\"] = 123,\n" + "\t[\"bool\"] = true,\n"
          + ("\t[\"object\"] = {\n" + "\t\t[\"key\"] = \"value\",\n" + "\t},\n")
  {
    var e1, e2, e3 := ("string", Str("abc")), ("int", Int(123)), ("bool", Bool(true));
    var e4 := ("object", Table([("key", Str("value"))]));
    assert ExampleRoot == [e1] + [e2] + [e3] + [e4];
    EntriesAppend([e1] + [e2] + [e3], [e4], 1);
    EntriesAppend([e1] + [e2], [e3], 1);
    EntriesAppend([e1], [e2], 1);
    EntriesSingle(e1, 1);
    EntriesSingle(e2, 1);
    EntriesSingle(e3, 1);
    EntriesSingle(e4, 1);
    ExampleStringLine();
    ExampleIntLine();
    BoolLine();
    ObjectBlock();
  }

  /** The example's whole expected output, character for character. */
  lemma ExampleDocument()
    ensures Document(ExampleRoot) == ExampleLua
  {
    assert forall i | 0 <= i < |ExampleRoot| :: Plain(ExampleRoot[i].0);
    PlainRootDocument(ExampleRoot);
    ExampleEntries();
    var l1, l2, l3 := "\t[\"string\"] = \"abc\",\n", "\t[\"int\"] = 123,\n", "\t[\"bool\"] = true,\n";
    var o1, o2, o3 := "\t[\"object\"] = {\n", "\t\t[\"key\"] = \"value\",\n", "\t},\n";
    Flatten4("{\n", l1, l2, l3, o1 + o2 + o3);
    Flatten3("{\n" + l1 + l2 + l3, o1, o2, o3);
  }

  // The `all_values` test (src/lib.rs:152-189). The float and the datetime
  // carry the text their formatters give.

  const AllValuesRoot: seq<(string, Value)> := [
    ("string", Str("str")), ("int", Int(420)), ("float", Flt("6.9")), ("bool", Bool(true)),
    ("datetime", Datetime("1979-05-27T00:32:00.999999-07:00")),
    ("array", Array([Str("string"), Int(12345), Bool(false)])),
    ("object", Table([("key", Str("value"))]))]

  const AllValuesLua: string :=
    "{\n"
    + "\t[\"string\"] = \"str\",\n"
    + "\t[\"int\"] = 420,\n"
    + "\t[\"float\"] = 6.9,\n"
    + "\t[\"bool\"] = true,\n"
    + "\t[\"datetime\"] = \"1979-05-27T00:32:00.999999-07:00\",\n"
    + "\t[\"array\"] = {\n"
    + "\t\t\"string\",\n"
    + "\t\t12345,\n"
    + "\t\tfalse,\n"
    + "\t},\n"
    + "\t[\"object\"] = {\n"
    + "\t\t[\"key\"] = \"value\",\n"
    + "\t},\n"
    + "}"

  lemma AllValuesStringLine()
    ensures Entry(Some("string"), Str("str"), 1) == "\t[\"string\"] = \"str\",\n"
  {
    PlainStringLine("string", "str", 1);
    assert Indent(1) == "\t";
    JoinAllValuesStringLine();
  }

  lemma AllValuesIntLine()
    ensures Entry(Some("int"), Int(420), 1) == "\t[\"int\"] = 420,\n"
  {
    KeyedLine("int", Int(420), 1);
    assert Digits(4) == "4" && Digits(42) == "42" && Digits(420) == "420";
    assert Indent(1) == "\t";
    JoinAllValuesIntLine();
  }

  lemma AllValuesFloatLine()
    ensures Entry(Some("float"), Flt("6.9"), 1) == "\t[\"float\"] = 6.9,\n"
  {
    KeyedLine("float", Flt("6.9"), 1);
    assert Indent(1) == "\t";
    JoinAllValuesFloatLine();
  }

  /** A quoted literal closing a line, regrouped around its text. */
  lemma QuotedTail(head: string, t: string)
    ensures head + ("\"" + t + "\"") + ",\n" == head + "\"" + t + "\",\n"
  {
    Flatten3(head, "\"", t, "\"");
    AppendAssoc(head + "\"" + t, "\"", ",\n");
    assert "\"" + ",\n" == "\",\n";
  }

  /** The datetime is quoted and its text copied as it is. */
  lemma AllValuesDatetimeLine()
    ensures Entry(Some("datetime"), Datetime("1979-05-27T00:32:00.999999-07:00"), 1)
         == "\t[\"datetime\"] = \"1979-05-27T00:32:00.999999-07:00\",\n"
  {
    var t := "1979-05-27T00:32:00.999999-07:00";
    KeyedLine("datetime", Datetime(t), 1);
    assert Indent(1) == "\t";
    QuotedTail("\t" + "[\"" + "datetime" + "\"] = ", t);
    JoinDatetimeHead();
    JoinDatetimeText();
    JoinDatetimeTail();
  }

  /** An array element that is a string without special characters. */
  lemma PlainItemLine(s: string, depth: nat)
    requires Plain(s)
    ensures Entry(None, Str(s), depth) == Indent(depth) + ("\"" + s + "\"") + ",\n"
  {
    KeylessLine(Str(s), depth);
    EscapedPlain(s);
  }

  lemma ArrayStringItem()
    ensures Entry(None, Str("string"), 2) == "\t\t\"string\",\n"
  {
    PlainItemLine("string", 2);
    assert Indent(2) == "\t\t";
    JoinArrayStringItem();
  }

  lemma ArrayIntItem()
    ensures Entry(None, Int(12345), 2) == "\t\t12345,\n"
  {
    KeylessLine(Int(12345), 2);
    assert Digits(1) == "1" && Digits(12) == "12" && Digits(123) == "123";
    assert Digits(1234) == "1234" && Digits(12345) == "12345";
    assert Indent(2) == "\t\t";
    JoinArrayIntItem();
  }

  lemma ArrayBoolItem()
    ensures Entry(None, Bool(false), 2) == "\t\tfalse,\n"
  {
    KeylessLine(Bool(false), 2);
    assert Indent(2) == "\t\t";
    JoinArrayBoolItem();
  }

  /** The array's elements, two tabs in and without keys. */
  lemma AllValuesArrayItems()
    ensures Items([Str("string"), Int(12345), Bool(false)], 2)
         == "\t\t\"string\",\n" + "\t\t12345,\n" + "\t\tfalse,\n"
  {
    var v1, v2, v3 := Str("string"), Int(12345), Bool(false);
    assert [v1, v2, v3] == [v1] + [v2] + [v3];
    ItemsAppend([v1] + [v2], [v3], 2);
    ItemsAppend([v1], [v2], 2);
    ItemsSingle(v1, 2);
    ItemsSingle(v2, 2);
    ItemsSingle(v3, 2);
    ArrayStringItem();
    ArrayIntItem();
    ArrayBoolItem();
  }

  lemma AllValuesArrayBlock()
    ensures Entry(Some("array"), Array([Str("string"), Int(12345), Bool(false)]), 1)
         == "\t[\"array\"] = {\n" + ("\t\t\"string\",\n" + "\t\t12345,\n" + "\t\tfalse,\n") + "\t},\n"
  {
    AllValuesArrayItems();
    assert Indent(1) == "\t";
    PlainWords();
    ArrayLine("array", [Str("string"), Int(12345), Bool(false)], 1);
    JoinAllValuesArrayBlock();
  }

  lemma AllValuesEntries()
    ensures Entries(AllValuesRoot, 1)
         == "\t[\"string\"] = \"str\",\n" + "\t[\"int\"] = 420,\n" + "\t[\"float\"] = 6.9,\n"
          + "\t[\"bool\"] = true,\n" + "\t[\"datetime\"] = \"1979-05-27T00:32:00.999999-07:00\",\n"
          + ("\t[\"array\"] = {\n" + ("\t\t\"string\",\n" + "\t\t12345,\n" + "\t\tfalse,\n") + "\t},\n")
          + ("\t[\"object\"] = {\n" + "\t\t[\"key\"] = \"value\",\n" + "\t},\n")
  {
    var e1, e2, e3, e4 := ("string", Str("str")), ("int", Int(420)), ("float", Flt("6.9")), ("bool", Bool(true));
    var e5 := ("datetime", Datetime("1979-05-27T00:32:00.999999-07:00"));
    var e6 := ("array", Array([Str("string"), Int(12345), Bool(false)]));
    var e7 := ("object", Table([("key", Str("value"))]));
    assert AllValuesRoot == [e1] + [e2] + [e3] + [e4] + [e5] + [e6] + [e7];
    EntriesAppend([e1] + [e2] + [e3] + [e4] + [e5] + [e6], [e7], 1);
    EntriesAppend([e1] + [e2] + [e3] + [e4] + [e5], [e6], 1);
    EntriesAppend([e1] + [e2] + [e3] + [e4], [e5], 1);
    EntriesAppend([e1] + [e2] + [e3], [e4], 1);
    EntriesAppend([e1] + [e2], [e3], 1);
    EntriesAppend([e1], [e2], 1);
    EntriesSingle(e1, 1);
    EntriesSingle(e2, 1);
    EntriesSingle(e3, 1);
    EntriesSingle(e4, 1);
    EntriesSingle(e5, 1);
    EntriesSingle(e6, 1);
    EntriesSingle(e7, 1);
    AllValuesStringLine();
    AllValuesIntLine();
    AllValuesFloatLine();
    BoolLine();
    AllValuesDatetimeLine();
    AllValuesArrayBlock();
    ObjectBlock();
  }

  /** The test's whole expected output, character for character. */
  lemma AllValuesDocument()
    ensures Document(AllValuesRoot) == AllValuesLua
  {
    assert forall i | 0 <= i < |AllValuesRoot| :: Plain(AllValuesRoot[i].0);
    PlainRootDocument(AllValuesRoot);
    AllValuesEntries();
    AllValuesShape("{\n", "\t[\"string\"] = \"str\",\n", "\t[\"int\"] = 420,\n", "\t[\"float\"] = 6.9,\n",
      "\t[\"bool\"] = true,\n", "\t[\"datetime\"] = \"1979-05-27T00:32:00.999999-07:00\",\n",
      "\t[\"array\"] = {\n", "\t\t\"string\",\n", "\t\t12345,\n", "\t\tfalse,\n", "\t},\n",
      "\t[\"object\"] = {\n", "\t\t[\"key\"] = \"value\",\n", "\t},\n", "}");
  }

  /** The layout of the `all_values` output, for any texts of its lines. */
  lemma AllValuesShape(o: string, l1: string, l2: string, l3: string, l4: string, l5: string,
                       a1: string, a2: string, a3: string, a4: string, a5: string,
                       o1: string, o2: string, o3: string, c: string)
    ensures o + (l1 + l2 + l3 + l4 + l5 + (a1 + (a2 + a3 + a4) + a5) + (o1 + o2 + o3)) + c
         == o + l1 + l2 + l3 + l4 + l5 + a1 + a2 + a3 + a4 + a5 + o1 + o2 + o3 + c
  {
    Flatten7(o, l1, l2, l3, l4, l5, a1 + (a2 + a3 + a4) + a5, o1 + o2 + o3);
    var before := o + l1 + l2 + l3 + l4 + l5;
    AppendAssoc(before, a1 + (a2 + a3 + a4), a5);
    AppendAssoc(before, a1, a2 + a3 + a4);
    Flatten3(before + a1, a2, a3, a4);
    Flatten3(before + a1 + a2 + a3 + a4 + a5, o1, o2, o3);
  }

  // Joins of literal pieces into the lines the tests spell out.

  lemma JoinMalformedNewline()
    ensures "\t[\"" + "1" + "\"] = \"" + (".." + "\\n" + "..") + "\",\n" == "\t[\"1\"] = \"..\\n..\",\n"
  {
  }

  lemma JoinMalformedTab()
    ensures "\t[\"" + "2" + "\"] = \"" + (".." + "\\t" + "..") + "\",\n" == "\t[\"2\"] = \"..\\t..\",\n"
  {
  }

  lemma JoinMalformedReturn()
    ensures "\t[\"" + "3" + "\"] = \"" + (".." + "\\r" + "..") + "\",\n" == "\t[\"3\"] = \"..\\r..\",\n"
  {
  }

  lemma JoinMalformedBackslash()
    ensures "\t[\"" + "4" + "\"] = \"" + (".." + "\\\\" + "..") + "\",\n" == "\t[\"4\"] = \"..\\\\..\",\n"
  {
  }

  lemma JoinMalformedQuote()
    ensures "\t[\"" + "5" + "\"] = \"" + (".." + "\\\"" + "..") + "\",\n" == "\t[\"5\"] = \"..\\\"..\",\n"
  {
  }

  lemma JoinBoolLine()
    ensures "\t" + "[\"" + "bool" + "\"] = " + "true" + ",\n" == "\t[\"bool\"] = true,\n"
  {
  }

  lemma JoinKeyLine()
    ensures "\t\t" + "[\"" + "key" + "\"] = \"" + "value" + "\",\n" == "\t\t[\"key\"] = \"value\",\n"
  {
  }

  lemma JoinObjectBlock()
    ensures "\t" + "[\"" + "object" + "\"] = {\n" == "\t[\"object\"] = {\n"
    ensures "\t" + "},\n" == "\t},\n"
  {
  }

  lemma JoinExampleStringLine()
    ensures "\t" + "[\"" + "string" + "\"] = \"" + "abc" + "\",\n" == "\t[\"string\"] = \"abc\",\n"
  {
  }

  lemma JoinExampleIntLine()
    ensures "\t" + "[\"" + "int" + "\"] = " + "123" + ",\n" == "\t[\"int\"] = 123,\n"
  {
  }

  lemma JoinAllValuesStringLine()
    ensures "\t" + "[\"" + "string" + "\"] = \"" + "str" + "\",\n" == "\t[\"string\"] = \"str\",\n"
  {
  }

  lemma JoinAllValuesIntLine()
    ensures "\t" + "[\"" + "int" + "\"] = " + "420" + ",\n" == "\t[\"int\"] = 420,\n"
  {
  }

  lemma JoinAllValuesFloatLine()
    ensures "\t" + "[\"" + "float" + "\"] = " + "6.9" + ",\n" == "\t[\"float\"] = 6.9,\n"
  {
  }

  lemma JoinDatetimeHead()
    ensures "\t" + "[\"" + "datetime" + "\"] = " + "\"" == "\t[\"datetime\"] = \""
  {
  }

  lemma JoinDatetimeText()
    ensures "\t[\"datetime\"] = \"" + "1979-05-27T00:32:00.999999-07:00"
         == "\t[\"datetime\"] = \"1979-05-27T00:32:00.999999-07:00"
  {
  }

  lemma JoinDatetimeTail()
    ensures "\t[\"datetime\"] = \"1979-05-27T00:32:00.999999-07:00" + "\",\n"
         == "\t[\"datetime\"] = \"1979-05-27T00:32:00.999999-07:00\",\n"
  {
  }

  lemma JoinArrayStringItem()
    ensures "\t\t" + ("\"" + "string" + "\"") + ",\n" == "\t\t\"string\",\n"
  {
  }

  lemma JoinArrayIntItem()
    ensures "\t\t" + "12345" + ",\n" == "\t\t12345,\n"
  {
  }

  lemma JoinArrayBoolItem()
    ensures "\t\t" + "false" + ",\n" == "\t\tfalse,\n"
  {
  }

  lemma JoinAllValuesArrayBlock()
    ensures "\t" + "[\"" + "array" + "\"] = {\n" == "\t[\"array\"] = {\n"
    ensures "\t" + "},\n" == "\t},\n"
  {
  }
}
