/**
 * `validate_string` (src/lib.rs:133-148): a single left-to-right pass that
 * replaces newline, tab, carriage return, backslash and double quote by their
 * two-character escapes and copies every other character unchanged.
 */
module Escape {
  import opened Wrappers

  /** The five characters that `validate_string` rewrites. */
  predicate IsSpecial(c: char) {
    c == '\n' || c == '\t' || c == '\r' || c == '\\' || c == '"'
  }

  /** No character of `s` is rewritten by escaping. */
  predicate Plain(s: string) {
    forall i | 0 <= i < |s| :: !IsSpecial(s[i])
  }

  /** The text pushed for one character (src/lib.rs:137-144). */
  function EscapeChar(c: char): string {
    match c
    case '\n' => "\\n"
    case '\t' => "\\t"
    case '\r' => "\\r"
    case '\\' => "\\\\"
    case '"' => "\\\""
    case _ => [c]
  }

  /** The escaped form of `s`: the escapes of its characters, in order. */
  function Escaped(s: string): string {
    if s == [] then [] else EscapeChar(s[0]) + Escaped(s[1..])
  }

  /** How many characters of `s` are special. */
  function CountSpecial(s: string): nat {
    if s == [] then 0 else (if IsSpecial(s[0]) then 1 else 0) + CountSpecial(s[1..])
  }

  /** The character that follows a backslash in an escape, decoded; `None` for
      anything `validate_string` never emits after a backslash. */
  function UnescapeChar(c: char): (r: Option<char>)
    ensures r.Some? ==> IsSpecial(r.value) && EscapeChar(r.value) == ['\\', c]
  {
    match c
    case 'n' => Some('\n')
    case 't' => Some('\t')
    case 'r' => Some('\r')
    case '\\' => Some('\\')
    case '"' => Some('"')
    case _ => None
  }

  /**
   * Reads the body of a Lua short string literal whose opening quote has
   * already been consumed: decodes the five escapes, stops at the first
   * unescaped double quote and returns the decoded text and what follows the
   * closing quote. A raw newline or carriage return, an unknown escape or a
   * missing closing quote makes it fail, as they would make the Lua string
   * token unfinished or different.
   */
  function ReadQuoted(t: string): (r: Option<(string, string)>)
    ensures r.Some? ==> |r.value.1| < |t|
    decreases |t|
  {
    if t == [] then None
    else if t[0] == '"' then Some(([], t[1..]))
    else if t[0] == '\n' || t[0] == '\r' then None
    else if t[0] == '\\' then
      if |t| < 2 then None
      else
        var c :- UnescapeChar(t[1]);
        var tail :- ReadQuoted(t[2..]);
        Some(([c] + tail.0, tail.1))
    else
      var tail :- ReadQuoted(t[1..]);
      Some(([t[0]] + tail.0, tail.1))
  }

  /** Decodes a whole escaped text (no closing quote expected). */
  function Unescaped(t: string): Option<string> {
    match ReadQuoted(t + "\"")
    case Some((s, rest)) => if rest == [] then Some(s) else None
    case None => None
  }

  /** `validate_string` as the source writes it: a loop that pushes the escape
      of each character onto a growing buffer. */
  method ValidateString(s: string) returns (validated: string)
    ensures validated == Escaped(s)
  {
    validated := "";
    for i := 0 to |s|
      invariant validated == Escaped(s[..i])
    {
      EscapedAppend(s[..i], [s[i]]);
      assert s[..i + 1] == s[..i] + [s[i]];
      validated := validated + EscapeChar(s[i]);
    }
    assert s[..|s|] == s;
  }

  /** Escaping distributes over concatenation. */
  lemma {:induction false} EscapedAppend(a: string, b: string)
    ensures Escaped(a + b) == Escaped(a) + Escaped(b)
  {
    if a == [] {
      assert a + b == b;
    } else {
      assert (a + b)[1..] == a[1..] + b;
      EscapedAppend(a[1..], b);
    }
  }

  /** Each special character grows by one, every other character is copied. */
  lemma {:induction false} EscapedLength(s: string)
    ensures |Escaped(s)| == |s| + CountSpecial(s)
  {
    if s != [] {
      EscapedLength(s[1..]);
    }
  }

  /** A string with no special character is its own escape. */
  lemma {:induction false} EscapedPlain(s: string)
    requires Plain(s)
    ensures Escaped(s) == s
  {
    if s != [] {
      assert Plain(s[1..]) by {
        forall i | 0 <= i < |s[1..]| ensures !IsSpecial(s[1..][i]) {
          assert s[1..][i] == s[i + 1];
        }
      }
      EscapedPlain(s[1..]);
      assert !IsSpecial(s[0]);
    }
  }

  /** Escaping changes exactly the strings that hold a special character. */
  lemma EscapedIsIdentityIff(s: string)
    ensures Escaped(s) == s <==> Plain(s)
  {
    if Plain(s) {
      EscapedPlain(s);
    } else {
      EscapedLength(s);
      CountSpecialPositive(s);
    }
  }

  lemma {:induction false} CountSpecialPositive(s: string)
    requires !Plain(s)
    ensures CountSpecial(s) > 0
  {
    if !IsSpecial(s[0]) {
      assert !Plain(s[1..]) by {
        var i :| 0 <= i < |s| && IsSpecial(s[i]);
        assert s[1..][i - 1] == s[i];
      }
      CountSpecialPositive(s[1..]);
    }
  }

  /** The escaped text holds no raw newline, tab or carriage return, so it
      fits on one line of a Lua short string. */
  lemma {:induction false} EscapedHasNoRawControl(s: string)
    ensures forall i | 0 <= i < |Escaped(s)| ::
      Escaped(s)[i] != '\n' && Escaped(s)[i] != '\t' && Escaped(s)[i] != '\r'
  {
    if s != [] {
      EscapedHasNoRawControl(s[1..]);
      var e := Escaped(s);
      assert e == EscapeChar(s[0]) + Escaped(s[1..]);
      forall i | 0 <= i < |e| ensures e[i] != '\n' && e[i] != '\t' && e[i] != '\r' {
        if i >= |EscapeChar(s[0])| {
          assert e[i] == Escaped(s[1..])[i - |EscapeChar(s[0])|];
        }
      }
    }
  }

  /** Reading an escaped text back, up to the quote that closes it, gives the
      original string and leaves what follows the quote untouched: escaping is
      one pass that never rescans its own output. */
  lemma {:induction false} ReadQuotedEscaped(s: string, rest: string)
    ensures ReadQuoted(Escaped(s) + "\"" + rest) == Some((s, rest))
  {
    var t := Escaped(s) + "\"" + rest;
    if s == [] {
      assert t == "\"" + rest;
      assert t[1..] == rest;
    } else {
      var c := s[0];
      var e := EscapeChar(c);
      ReadQuotedEscaped(s[1..], rest);
      assert t == e + (Escaped(s[1..]) + "\"" + rest);
      assert [c] + s[1..] == s;
      if IsSpecial(c) {
        assert t[2..] == Escaped(s[1..]) + "\"" + rest;
      } else {
        assert t[1..] == Escaped(s[1..]) + "\"" + rest;
      }
    }
  }

  /** Unescaping inverts escaping. */
  lemma UnescapedEscaped(s: string)
    ensures Unescaped(Escaped(s)) == Some(s)
  {
    ReadQuotedEscaped(s, []);
    assert Escaped(s) + "\"" + [] == Escaped(s) + "\"";
  }

  /** Hence escaping is injective: distinct strings have distinct escapes. */
  lemma EscapedInjective(a: string, b: string)
    requires Escaped(a) == Escaped(b)
    ensures a == b
  {
    UnescapedEscaped(a);
    UnescapedEscaped(b);
  }
}
