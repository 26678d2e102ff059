/**
 * The on-disk form of the todo list: `JSON.stringify(todos, null, 2)` and the
 * `JSON.parse` that reads it back.
 *
 * The encoder produces exactly the pretty-printed layout with two-space
 * indentation. The decoder accepts the JSON documents of this shape: an array
 * of objects whose keys are "text" (a string) and then "done" (a boolean),
 * with any JSON whitespace between tokens and any JSON string escape.
 *
 * Encoders are written with an explicit continuation `rest` (what follows the
 * encoded value), so that each decoding step meets the text it expects at the
 * front of its input.
 */
module TodoJson {
  import opened Wrappers
  import opened TodoList

  // ---------------------------------------------------------------------------
  // Encoding

  /** Lower-case hexadecimal digit, as used in `\u00XX` escapes. */
  function HexDigit(n: nat): char
    requires n < 16
  {
    if n < 10 then ('0' as int + n) as char else ('a' as int + n - 10) as char
  }

  /** One character inside a JSON string literal, as JSON.stringify writes it. */
  function EscapeCharThen(c: char, rest: string): string
  {
    if c == '"' then ['\\', '"'] + rest
    else if c == '\\' then ['\\', '\\'] + rest
    else if c == '\U{8}' then ['\\', 'b'] + rest
    else if c == '\U{C}' then ['\\', 'f'] + rest
    else if c == '\n' then ['\\', 'n'] + rest
    else if c == '\r' then ['\\', 'r'] + rest
    else if c == '\t' then ['\\', 't'] + rest
    else if c < ' ' then ['\\', 'u', '0', '0', HexDigit(c as int / 16), HexDigit(c as int % 16)] + rest
    else [c] + rest
  }

  function EscapeThen(s: string, rest: string): string
  {
    if s == [] then rest else EscapeCharThen(s[0], EscapeThen(s[1..], rest))
  }

  /** The JSON string literal of `s`. */
  function QuoteThen(s: string, rest: string): string
  {
    ['"'] + EscapeThen(s, ['"'] + rest)
  }

  function BoolThen(b: bool, rest: string): string
  {
    (if b then "true" else "false") + rest
  }

  const Indent2 := "\n  "
  const Indent4 := "\n    "

  /** One array element at indentation level 1: its object and two properties. */
  function TodoThen(t: Todo, rest: string): string
  {
    Indent2 + ("{" +
      (Indent4 + QuoteThen("text", ":" + (" " + QuoteThen(t.text, "," +
      (Indent4 + QuoteThen("done", ":" + (" " + BoolThen(t.done,
      Indent2 + ("}" + rest))))))))))
  }

  /** The elements of a non-empty array, separated by commas. */
  function ItemsThen(todos: seq<Todo>, rest: string): string
    requires |todos| > 0
  {
    TodoThen(todos[0], if |todos| == 1 then rest else "," + ItemsThen(todos[1..], rest))
  }

  /** `JSON.stringify(todos, null, 2)`. */
  function Encode(todos: seq<Todo>): string
  {
    if todos == [] then "[]" else "[" + ItemsThen(todos, "\n" + ("]" + ""))
  }

  // ---------------------------------------------------------------------------
  // Decoding

  predicate IsWs(c: char)
  {
    c == ' ' || c == '\t' || c == '\n' || c == '\r'
  }

  predicate AllWs(w: string)
  {
    forall i :: 0 <= i < |w| ==> IsWs(w[i])
  }

  /** Drops the JSON whitespace at the front of `s`. */
  function SkipWs(s: string): (r: string)
    ensures |r| <= |s|
    ensures r == [] || !IsWs(r[0])
  {
    if |s| > 0 && IsWs(s[0]) then SkipWs(s[1..]) else s
  }

  /** Reads the one-character token `c` after optional whitespace. */
  function Token(c: char, s: string): (r: Option<string>)
    ensures r.Some? ==> |r.value| < |s|
  {
    var t := SkipWs(s);
    if |t| > 0 && t[0] == c then Some(t[1..]) else None
  }

  function HexValue(c: char): (r: Option<nat>)
    ensures r.Some? ==> r.value < 16
  {
    if '0' <= c <= '9' then Some(c as int - '0' as int)
    else if 'a' <= c <= 'f' then Some(c as int - 'a' as int + 10)
    else if 'A' <= c <= 'F' then Some(c as int - 'A' as int + 10)
    else None
  }

  /**
   * The character an escape sequence stands for; `s` is what follows the
   * backslash. A `\u` escape naming a surrogate code unit is refused, since
   * surrogate pairs are not modelled.
   */
  function Unescape(s: string): (r: Option<(char, string)>)
    ensures r.Some? ==> |r.value.1| < |s|
  {
    if |s| == 0 then None
    else if s[0] == '"' || s[0] == '\\' || s[0] == '/' then Some((s[0], s[1..]))
    else if s[0] == 'b' then Some(('\U{8}', s[1..]))
    else if s[0] == 'f' then Some(('\U{C}', s[1..]))
    else if s[0] == 'n' then Some(('\n', s[1..]))
    else if s[0] == 'r' then Some(('\r', s[1..]))
    else if s[0] == 't' then Some(('\t', s[1..]))
    else if s[0] == 'u' && |s| >= 5 then
      var h1 :- HexValue(s[1]);
      var h2 :- HexValue(s[2]);
      var h3 :- HexValue(s[3]);
      var h4 :- HexValue(s[4]);
      var code := 4096 * h1 + 256 * h2 + 16 * h3 + h4;
      if 0xD800 <= code < 0xE000 then None else Some((code as char, s[5..]))
    else None
  }

  function Prepend(c: char, r: Option<(string, string)>): Option<(string, string)>
  {
    match r
    case None => None
    case Some((s, rest)) => Some(([c] + s, rest))
  }

  /** The characters of a string literal up to its closing quote, and what follows it. */
  function ParseChars(s: string): (r: Option<(string, string)>)
    ensures r.Some? ==> |r.value.1| < |s|
    decreases |s|
  {
    if |s| == 0 then None
    else if s[0] == '"' then Some(([], s[1..]))
    else if s[0] == '\\' then
      match Unescape(s[1..])
      case None => None
      case Some((c, rest)) => Prepend(c, ParseChars(rest))
    else if s[0] < ' ' then None
    else Prepend(s[0], ParseChars(s[1..]))
  }

  /** A JSON string literal after optional whitespace. */
  function ParseString(s: string): (r: Option<(string, string)>)
    ensures r.Some? ==> |r.value.1| < |s|
  {
    var t := SkipWs(s);
    if |t| > 0 && t[0] == '"' then ParseChars(t[1..]) else None
  }

  /** The literal `true` or `false` after optional whitespace. */
  function ParseBool(s: string): (r: Option<(bool, string)>)
    ensures r.Some? ==> |r.value.1| < |s|
  {
    var t := SkipWs(s);
    if "true" <= t then Some((true, t[4..]))
    else if "false" <= t then Some((false, t[5..]))
    else None
  }

  /** The property name `key` as a string literal, then its colon. */
  function ParseKey(key: string, s: string): (r: Option<string>)
    ensures r.Some? ==> |r.value| < |s|
  {
    var k :- ParseString(s);
    if k.0 == key then Token(':', k.1) else None
  }

  /** One object `{ "text": <string>, "done": <boolean> }`. */
  function ParseTodo(s: string): (r: Option<(Todo, string)>)
    ensures r.Some? ==> |r.value.1| < |s|
  {
    var s1 :- Token('{', s);
    var s2 :- ParseKey("text", s1);
    var text :- ParseString(s2);
    var s4 :- Token(',', text.1);
    var s5 :- ParseKey("done", s4);
    var done :- ParseBool(s5);
    var s7 :- Token('}', done.1);
    Some((Todo(text.0, done.0), s7))
  }

  /** The elements of a non-empty array and its closing bracket. */
  function ParseItems(s: string): (r: Option<(seq<Todo>, string)>)
    ensures r.Some? ==> |r.value.1| < |s| && |r.value.0| > 0
    decreases |s|
  {
    var first :- ParseTodo(s);
    var u := SkipWs(first.1);
    if |u| > 0 && u[0] == ',' then
      var more :- ParseItems(u[1..]);
      Some(([first.0] + more.0, more.1))
    else if |u| > 0 && u[0] == ']' then Some(([first.0], u[1..]))
    else None
  }

  /** `JSON.parse(raw)` for a todo file; `None` where JSON.parse would throw. */
  function Decode(s: string): Option<seq<Todo>>
  {
    var r :- Token('[', s);
    var u := SkipWs(r);
    if |u| > 0 && u[0] == ']' then
      if SkipWs(u[1..]) == [] then Some([]) else None
    else
      var items :- ParseItems(r);
      if SkipWs(items.1) == [] then Some(items.0) else None
  }

  // ---------------------------------------------------------------------------
  // Round trip

  lemma {:induction false} SkipWsOver(w: string, t: string)
    requires AllWs(w)
    requires t == [] || !IsWs(t[0])
    ensures SkipWs(w + t) == t
  {
    if w != [] {
      assert (w + t)[1..] == w[1..] + t;
      SkipWsOver(w[1..], t);
    }
  }

  lemma TokenAfter(w: string, c: char, rest: string)
    requires AllWs(w) && !IsWs(c)
    ensures Token(c, w + ([c] + rest)) == Some(rest)
  {
    SkipWsOver(w, [c] + rest);
  }

  lemma HexRoundTrip(n: nat)
    requires n < 16
    ensures HexValue(HexDigit(n)) == Some(n)
  {
  }

  /** Decoding the escaped form of one character yields that character. */
  lemma EscapeCharStep(c: char, tail: string)
    ensures ParseChars(EscapeCharThen(c, tail)) == Prepend(c, ParseChars(tail))
  {
    var e := EscapeCharThen(c, tail);
    if c == '"' || c == '\\' || c == '\U{8}' || c == '\U{C}' || c == '\n' || c == '\r' || c == '\t' {
      assert e[1..][1..] == tail;
    } else if c < ' ' {
      var n := c as int;
      HexRoundTrip(n / 16);
      HexRoundTrip(n % 16);
      assert e[1..][5..] == tail;
    } else {
      assert e[1..] == tail;
    }
  }

  lemma {:induction false} EscapeRoundTrip(s: string, rest: string)
    ensures ParseChars(EscapeThen(s, ['"'] + rest)) == Some((s, rest))
  {
    if s == [] {
      assert (['"'] + rest)[1..] == rest;
    } else {
      EscapeRoundTrip(s[1..], rest);
      EscapeCharStep(s[0], EscapeThen(s[1..], ['"'] + rest));
      assert [s[0]] + s[1..] == s;
    }
  }

  lemma QuoteRoundTrip(w: string, s: string, rest: string)
    requires AllWs(w)
    ensures ParseString(w + QuoteThen(s, rest)) == Some((s, rest))
  {
    SkipWsOver(w, QuoteThen(s, rest));
    EscapeRoundTrip(s, rest);
    assert QuoteThen(s, rest)[1..] == EscapeThen(s, ['"'] + rest);
  }

  lemma BoolRoundTrip(b: bool, rest: string)
    ensures ParseBool(" " + BoolThen(b, rest)) == Some((b, rest))
  {
    SkipWsOver(" ", BoolThen(b, rest));
  }

  lemma KeyRoundTrip(w: string, key: string, rest: string)
    requires AllWs(w)
    ensures ParseKey(key, w + QuoteThen(key, ":" + rest)) == Some(rest)
  {
    QuoteRoundTrip(w, key, ":" + rest);
    TokenAfter([], ':', rest);
  }

  lemma TodoRoundTrip(t: Todo, rest: string)
    ensures ParseTodo(TodoThen(t, rest)) == Some((t, rest))
  {
    var r6 := Indent2 + ("}" + rest);
    var r5 := " " + BoolThen(t.done, r6);
    var r4 := Indent4 + QuoteThen("done", ":" + r5);
    var r2 := " " + QuoteThen(t.text, "," + r4);
    var r1 := Indent4 + QuoteThen("text", ":" + r2);
    assert TodoThen(t, rest) == Indent2 + ("{" + r1);
    TokenAfter(Indent2, '{', r1);
    assert Token('{', TodoThen(t, rest)) == Some(r1);
    KeyRoundTrip(Indent4, "text", r2);
    QuoteRoundTrip(" ", t.text, "," + r4);
    TokenAfter([], ',', r4);
    KeyRoundTrip(Indent4, "done", r5);
    BoolRoundTrip(t.done, r6);
    TokenAfter(Indent2, '}', rest);
  }

  lemma {:induction false} ItemsRoundTrip(todos: seq<Todo>, rest: string)
    requires |todos| > 0
    ensures ParseItems(ItemsThen(todos, "\n" + ("]" + rest))) == Some((todos, rest))
  {
    var tail := "\n" + ("]" + rest);
    if |todos| == 1 {
      TodoRoundTrip(todos[0], tail);
      SkipWsOver("\n", "]" + rest);
      assert ("]" + rest)[1..] == rest;
      assert [todos[0]] == todos;
    } else {
      var more := ItemsThen(todos[1..], tail);
      TodoRoundTrip(todos[0], "," + more);
      ItemsRoundTrip(todos[1..], rest);
      assert ("," + more)[1..] == more;
      assert [todos[0]] + todos[1..] == todos;
    }
  }

  /** What the first element of a non-empty array starts with after whitespace. */
  lemma ItemsStart(todos: seq<Todo>, rest: string)
    requires |todos| > 0
    ensures SkipWs(ItemsThen(todos, rest)) != [] && SkipWs(ItemsThen(todos, rest))[0] == '{'
  {
    var t := todos[0];
    var tail := if |todos| == 1 then rest else "," + ItemsThen(todos[1..], rest);
    var r6 := Indent2 + ("}" + tail);
    var r5 := " " + BoolThen(t.done, r6);
    var r4 := Indent4 + QuoteThen("done", ":" + r5);
    var r2 := " " + QuoteThen(t.text, "," + r4);
    var r1 := Indent4 + QuoteThen("text", ":" + r2);
    assert ItemsThen(todos, rest) == Indent2 + ("{" + r1);
    SkipWsOver(Indent2, "{" + r1);
  }

  /** Reading back what was written gives the list that was written. */
  lemma DecodeEncode(todos: seq<Todo>)
    ensures Decode(Encode(todos)) == Some(todos)
  {
    if todos != [] {
      var body := ItemsThen(todos, "\n" + ("]" + ""));
      TokenAfter([], '[', body);
      ItemsStart(todos, "\n" + ("]" + ""));
      ItemsRoundTrip(todos, "");
    }
  }

  /** Distinct lists are written as distinct files. */
  lemma EncodeInjective(a: seq<Todo>, b: seq<Todo>)
    requires Encode(a) == Encode(b)
    ensures a == b
  {
    DecodeEncode(a);
    DecodeEncode(b);
  }

  /** The file the extension creates on first use, `[]`, reads as the empty list. */
  lemma DecodeEmptyFile()
    ensures Decode("[]") == Some([])
  {
    assert Token('[', "[]") == Some("]");
  }
}
