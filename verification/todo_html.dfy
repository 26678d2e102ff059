/**
 * The markup of the todo panel (`getHtml`): a fixed page around one `<li>`
 * fragment per entry, in list order. A fragment's checkbox carries the
 * entry's position in `data-index`, and `checked` and a line-through style
 * exactly when the entry is done. The entry's text is inserted as it is.
 */
module TodoHtml {
  import opened Wrappers
  import opened TodoList

  // ---------------------------------------------------------------------------
  // Decimal numbers: `${i}` in the template and `parseInt` in the page's script

  predicate IsDigit(c: char)
  {
    '0' <= c <= '9'
  }

  predicate AllDigits(s: string)
  {
    forall k :: 0 <= k < |s| ==> IsDigit(s[k])
  }

  /** `${n}` for a non-negative integer. */
  function Decimal(n: nat): (s: string)
    ensures |s| > 0 && AllDigits(s)
  {
    if n < 10 then [('0' as int + n) as char]
    else Decimal(n / 10) + [('0' as int + n % 10) as char]
  }

  /** `parseInt` of a string of decimal digits. */
  function DecimalValue(s: string): nat
    requires AllDigits(s)
  {
    if s == [] then 0 else 10 * DecimalValue(s[..|s| - 1]) + (s[|s| - 1] as int - '0' as int)
  }

  lemma {:induction false} DecimalRoundTrip(n: nat)
    ensures DecimalValue(Decimal(n)) == n
  {
    if n >= 10 {
      var s := Decimal(n / 10) + [('0' as int + n % 10) as char];
      assert s[..|s| - 1] == Decimal(n / 10);
      DecimalRoundTrip(n / 10);
    }
  }

  /** The longest run of digits at the front of `s`, and what follows it. */
  function TakeDigits(s: string): (r: (string, string))
    ensures AllDigits(r.0) && r.0 + r.1 == s
    ensures r.1 == [] || !IsDigit(r.1[0])
  {
    if |s| > 0 && IsDigit(s[0]) then
      var (d, rest) := TakeDigits(s[1..]);
      ([s[0]] + d, rest)
    else ([], s)
  }

  lemma {:induction false} TakeDigitsOf(digits: string, rest: string)
    requires AllDigits(digits)
    requires rest == [] || !IsDigit(rest[0])
    ensures TakeDigits(digits + rest) == (digits, rest)
  {
    var s := digits + rest;
    if digits != [] {
      assert s[0] == digits[0] && IsDigit(s[0]);
      assert s[1..] == digits[1..] + rest;
      TakeDigitsOf(digits[1..], rest);
      assert [digits[0]] + digits[1..] == digits;
    } else {
      assert s == rest;
    }
  }

  // ---------------------------------------------------------------------------
  // The markup

  const ItemOpen := "\n        <li>\n          <input type=\"checkbox\" "
  const IndexAttr := " data-index=\""
  const SpanOpen := "\"" + " />\n          <span style=\"text-decoration: "
  const StyleClose := ";\">"
  const ItemClose := "</span>\n        </li>\n      "

  /** The fragment the template literal produces for entry `t` at position `i`. */
  function ItemHtml(t: Todo, i: nat): string
  {
    ItemOpen + ((if t.done then "checked" else "") + (IndexAttr + (Decimal(i) +
      (SpanOpen + ((if t.done then "line-through" else "none") + (StyleClose + (t.text + ItemClose)))))))
  }

  /** `todos.map((t, i) => ...)` for the entries numbered from `from` on. */
  function Fragments(todos: seq<Todo>, from: nat): (fs: seq<string>)
    ensures |fs| == |todos|
    ensures forall k :: 0 <= k < |todos| ==> fs[k] == ItemHtml(todos[k], from + k)
  {
    seq(|todos|, k requires 0 <= k < |todos| => ItemHtml(todos[k], from + k))
  }

  /** `join("")`. */
  function Join(fs: seq<string>): string
  {
    if fs == [] then "" else fs[0] + Join(fs[1..])
  }

  /** The fragments of the entries numbered from `from` on, joined. */
  function Items(todos: seq<Todo>, from: nat): string
  {
    Join(Fragments(todos, from))
  }

  const PageHead :=
    "\n" +
    "      <html>\n" +
    "        <body style=\"padding: 10px;\">\n" +
    "          <form id=\"todo-form\">\n" +
    "            <input type=\"text\" id=\"new-todo\" placeholder=\"Add a task\" style=\"width: 80%;\" />\n" +
    "            <button type=\"submit\">Add</button>\n" +
    "          </form>\n" +
    "          <ul id=\"todo-list\">"

  const PageTail :=
    "</ul>\n" +
    "\n" +
    "          <script>\n" +
    "            const vscode = acquireVsCodeApi();\n" +
    "            document.getElementById('todo-form').addEventListener('submit', e => {\n" +
    "              e.preventDefault();\n" +
    "              const input = document.getElementById('new-todo');\n" +
    "              if (input.value.trim()) {\n" +
    "                vscode.postMessage({ type: 'add', text: input.value.trim() });\n" +
    "                input.value = '';\n" +
    "              }\n" +
    "            });\n" +
    "\n" +
    "            document.querySelectorAll('input[type=\"checkbox\"]').forEach(box => {\n" +
    "              box.addEventListener('change', () => {\n" +
    "                const index = parseInt(box.dataset.index);\n" +
    "                vscode.postMessage({ type: 'toggle', index });\n" +
    "              });\n" +
    "            });\n" +
    "          </script>\n" +
    "        </body>\n" +
    "      </html>\n" +
    "    "

  /** `getHtml(todos)`. */
  function GetHtml(todos: seq<Todo>): string
  {
    PageHead + Items(todos, 0) + PageTail
  }

  // ---------------------------------------------------------------------------
  // Reading a fragment back

  /** What a fragment shows: the checkbox state, its index, the style and the text. */
  datatype ItemView = ItemView(checked: bool, index: nat, lineThrough: bool, text: string)

  /** The checkbox: whether it is `checked`, its `data-index`, and what follows the tag. */
  function ParseCheckbox(a: string): Option<(bool, nat, string)>
  {
    var checked := "checked" <= a;
    var b := if checked then a[7..] else a;
    if !(IndexAttr <= b) then None
    else
      var (digits, c) := TakeDigits(b[|IndexAttr|..]);
      if digits == [] || !(SpanOpen <= c) then None
      else Some((checked, DecimalValue(digits), c[|SpanOpen|..]))
  }

  /** The span: whether it is struck through, and its text. */
  function ParseSpan(e: string): Option<(bool, string)>
  {
    var lineThrough := "line-through" <= e;
    if !lineThrough && !("none" <= e) then None
    else
      var g := if lineThrough then e[12..] else e[4..];
      if !(StyleClose <= g) then None
      else
        var h := g[|StyleClose|..];
        if |h| < |ItemClose| || h[|h| - |ItemClose|..] != ItemClose then None
        else Some((lineThrough, h[..|h| - |ItemClose|]))
  }

  /** Reads the fields back out of one `<li>` fragment. */
  function ParseItem(f: string): Option<ItemView>
  {
    if !(ItemOpen <= f) then None
    else
      var box :- ParseCheckbox(f[|ItemOpen|..]);
      var span :- ParseSpan(box.2);
      Some(ItemView(box.0, box.1, span.0, span.1))
  }

  lemma {:induction false} ParseCheckboxOf(done: bool, i: nat, rest: string)
    ensures ParseCheckbox((if done then "checked" else "") + (IndexAttr + (Decimal(i) + (SpanOpen + rest))))
         == Some((done, i, rest))
  {
    var c := SpanOpen + rest;
    var b1 := Decimal(i) + c;
    var b := IndexAttr + b1;
    var a := (if done then "checked" else "") + b;
    assert ("checked" <= a) == done by {
      if !done {
        assert a[0] == ' ';
      }
    }
    assert (if done then a[7..] else a) == b;
    assert b[|IndexAttr|..] == b1;
    assert c[0] == '"';
    TakeDigitsOf(Decimal(i), c);
    DecimalRoundTrip(i);
    assert c[|SpanOpen|..] == rest;
  }

  lemma {:induction false} ParseSpanOf(done: bool, text: string)
    ensures ParseSpan((if done then "line-through" else "none") + (StyleClose + (text + ItemClose)))
         == Some((done, text))
  {
    var h := text + ItemClose;
    var g := StyleClose + h;
    var e := (if done then "line-through" else "none") + g;
    assert ("line-through" <= e) == done by {
      if !done {
        assert e[0] == 'n';
      }
    }
    assert (if done then e[12..] else e[4..]) == g;
    assert g[|StyleClose|..] == h;
    assert h[|h| - |ItemClose|..] == ItemClose;
    assert h[..|h| - |ItemClose|] == text;
  }

  /**
   * The fragment of entry `t` at position `i` shows exactly `t`: its checkbox
   * is checked and its text struck through exactly when `t.done`, the page's
   * `parseInt(box.dataset.index)` reads `i`, and the text is `t.text`.
   */
  lemma {:induction false} ParseItemHtml(t: Todo, i: nat)
    ensures ParseItem(ItemHtml(t, i)) == Some(ItemView(t.done, i, t.done, t.text))
  {
    var span := (if t.done then "line-through" else "none") + (StyleClose + (t.text + ItemClose));
    var a := (if t.done then "checked" else "") + (IndexAttr + (Decimal(i) + (SpanOpen + span)));
    assert ItemHtml(t, i) == ItemOpen + a;
    assert (ItemOpen + a)[|ItemOpen|..] == a;
    ParseCheckboxOf(t.done, i, span);
    ParseSpanOf(t.done, t.text);
  }

  // ---------------------------------------------------------------------------
  // The list of fragments

  lemma {:induction false} JoinConcat(x: seq<string>, y: seq<string>)
    ensures Join(x + y) == Join(x) + Join(y)
  {
    if x != [] {
      assert (x + y)[0] == x[0] && (x + y)[1..] == x[1..] + y;
      JoinConcat(x[1..], y);
    } else {
      assert x + y == y;
    }
  }

  lemma ItemsConcat(a: seq<Todo>, b: seq<Todo>, from: nat)
    ensures Items(a + b, from) == Items(a, from) + Items(b, from + |a|)
  {
    assert Fragments(a + b, from) == Fragments(a, from) + Fragments(b, from + |a|);
    JoinConcat(Fragments(a, from), Fragments(b, from + |a|));
  }

  lemma ItemsSingle(t: Todo, n: nat)
    ensures Items([t], n) == ItemHtml(t, n)
  {
    assert Fragments([t], n) == [ItemHtml(t, n)];
    assert Join([ItemHtml(t, n)]) == ItemHtml(t, n) + Join([]);
  }

  /**
   * The markup holds one fragment per entry in list order: entry `i`'s
   * fragment sits between those of the entries before and after it.
   */
  lemma {:induction false} ItemsAt(todos: seq<Todo>, i: nat)
    requires i < |todos|
    ensures Items(todos, 0) == Items(todos[..i], 0) + ItemHtml(todos[i], i) + Items(todos[i + 1..], i + 1)
  {
    var fs := Fragments(todos, 0);
    JoinAt(fs, i);
    FragmentsPrefix(todos, i);
    FragmentsSuffix(todos, i + 1);
    assert fs[i] == ItemHtml(todos[i], i);
  }

  /** The fragments of the entries before `k` are the first `k` fragments. */
  lemma FragmentsPrefix(todos: seq<Todo>, k: nat)
    requires k <= |todos|
    ensures Fragments(todos, 0)[..k] == Fragments(todos[..k], 0)
  {
  }

  /** The fragments of the entries from `k` on are the fragments from `k` on, numbered from `k`. */
  lemma FragmentsSuffix(todos: seq<Todo>, k: nat)
    requires k <= |todos|
    ensures Fragments(todos, 0)[k..] == Fragments(todos[k..], k)
  {
  }

  /** A joined list is the join of the strings before `i`, then string `i`, then the join of those after it. */
  lemma JoinAt(fs: seq<string>, i: nat)
    requires i < |fs|
    ensures Join(fs) == Join(fs[..i]) + fs[i] + Join(fs[i + 1..])
  {
    assert fs == fs[..i] + fs[i..];
    JoinConcat(fs[..i], fs[i..]);
    assert fs[i..][1..] == fs[i + 1..];
    Regroup(Join(fs[..i]), fs[i], Join(fs[i + 1..]));
  }

  lemma Regroup(x: string, y: string, z: string)
    ensures x + (y + z) == x + y + z
  {
  }

  /** Appending an entry appends exactly its fragment to the markup. */
  lemma {:induction false} RenderAppended(todos: seq<Todo>, t: Todo)
    ensures Items(todos + [t], 0) == Items(todos, 0) + ItemHtml(t, |todos|)
  {
    ItemsConcat(todos, [t], 0);
    ItemsSingle(t, |todos|);
  }

  /** Toggling entry `i` changes only its fragment, and only its checkbox and style. */
  lemma {:induction false} RenderToggled(todos: seq<Todo>, i: nat)
    requires i < |todos|
    ensures Items(Toggled(todos, i), 0)
         == Items(todos[..i], 0) + ItemHtml(Todo(todos[i].text, !todos[i].done), i) + Items(todos[i + 1..], i + 1)
  {
    var t' := Toggled(todos, i);
    ItemsAt(t', i);
    assert t'[..i] == todos[..i];
    assert t'[i + 1..] == todos[i + 1..];
  }
}
