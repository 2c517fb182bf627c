/** Canonical JSON of conversion schemas: object keys sorted at every depth, no white space. */
module CanonicalJson {
  import opened Outcomes
  import opened Sequences
  import opened CanonicalOrder
  import opened Joining
  import opened Decimals

  /** A finite double: mantissa times two to the exponent, in lowest terms so that each value has one form. */
  datatype Dyadic = Dyadic(mantissa: int, exponent: int)
  type Double = d: Dyadic | (if d.mantissa == 0 then d.exponent == 0 else d.mantissa % 2 == 1) witness Dyadic(0, 0)

  datatype Number = NonFinite | Finite(value: Double)

  /** A script value. An object lists its fields in insertion order; `JOther` is any value JSON has no form for. */
  datatype Json =
    | JNull | JBool(flag: bool) | JString(text: string) | JNumber(number: Number)
    | JArray(items: seq<Json>) | JObject(fields: seq<Field>) | JOther
  datatype Field = Field(key: string, value: Json)

  /** Object keys are unique, which the language guarantees. */
  predicate WellFormed(j: Json) {
    match j
    case JArray(items) => forall i :: 0 <= i < |items| ==> WellFormed(items[i])
    case JObject(fields) =>
      && (forall i, k :: 0 <= i < k < |fields| ==> fields[i].key != fields[k].key)
      && (forall i :: 0 <= i < |fields| ==> WellFormed(fields[i].value))
    case _ => true
  }

  predicate Printable(j: Json) {
    match j
    case JNumber(n) => n.Finite?
    case JOther => false
    case JArray(items) => forall i :: 0 <= i < |items| ==> Printable(items[i])
    case JObject(fields) => forall i :: 0 <= i < |fields| ==> Printable(fields[i].value)
    case _ => true
  }

  // ---- String and number printing ----

  function Hex(d: nat): char
    requires d < 16
  {
    if d < 10 then '0' + d as char else 'a' + (d - 10) as char
  }

  function Escape(c: char): string {
    if c == '"' then "\\\"" else if c == '\\' then "\\\\"
    else if c == '\n' then "\\n" else if c == '\r' then "\\r" else if c == '\t' then "\\t"
    else if c as int == 8 then "\\b" else if c as int == 12 then "\\f"
    else if (c as int) < 0x20 then "\\u00" + [Hex(c as int / 16), Hex(c as int % 16)]
    else [c]
  }

  function EscapeAll(s: string): string {
    if s == "" then "" else Escape(s[0]) + EscapeAll(s[1..])
  }

  function Quote(s: string): string { "\"" + EscapeAll(s) + "\"" }

  predicate NumberChar(c: char) { '0' <= c <= '9' || c == '-' || c == '+' || c == '.' || c == 'e' }

  /** Number printing is taken from outside: it tells values apart and writes a number's characters only. */
  ghost predicate PrintsNumbers(render: Double -> string) {
    && (forall x, y :: render(x) == render(y) ==> x == y)
    && (forall x :: render(x) != "" && (forall c :: c in render(x) ==> NumberChar(c)))
  }

  // ---- The printer ----

  function EntryKey(): ((string, string)) -> Key { (e: (string, string)) => [Utf16(e.0)] }

  function EntryText(e: (string, string)): string { Quote(e.0) + ":" + e.1 }

  function Print(render: Double -> string, j: Json): Result<string>
    decreases j
  {
    match j
    case JNull => Ok("null")
    case JBool(flag) => Ok(if flag then "true" else "false")
    case JString(text) => Ok(Quote(text))
    case JNumber(number) => if number.NonFinite? then Err else Ok(render(number.value))
    case JArray(items) =>
      var parts :- PrintItems(render, items);
      Ok("[" + Join(parts, ",") + "]")
    case JObject(fields) =>
      var entries :- PrintFields(render, fields);
      Ok("{" + Join(Map(Sort(entries, EntryKey()), EntryText), ",") + "}")
    case JOther => Err
  }

  function PrintItems(render: Double -> string, items: seq<Json>): Result<seq<string>>
    decreases items
  {
    if items == [] then Ok([])
    else
      var head :- Print(render, items[0]);
      var tail :- PrintItems(render, items[1..]);
      Ok([head] + tail)
  }

  /** Each key with its printed value, in insertion order; the caller sorts them by key. */
  function PrintFields(render: Double -> string, fields: seq<Field>): Result<seq<(string, string)>>
    decreases fields
  {
    if fields == [] then Ok([])
    else
      var head :- Print(render, fields[0].value);
      var tail :- PrintFields(render, fields[1..]);
      Ok([(fields[0].key, head)] + tail)
  }

  function CanonicalConversionSchema(render: Double -> string, definition: Json): Result<string> {
    if definition.JObject? then Print(render, definition) else Err
  }

  // ---- What a value means, regardless of key order ----

  datatype Value =
    | VNull | VBool(flag: bool) | VString(text: string) | VNumber(number: Number)
    | VArray(items: seq<Value>) | VObject(fields: map<string, Value>) | VOther

  function Meaning(j: Json): Value
    decreases j
  {
    match j
    case JNull => VNull
    case JBool(flag) => VBool(flag)
    case JString(text) => VString(text)
    case JNumber(number) => VNumber(number)
    case JArray(items) => VArray(Meanings(items))
    case JObject(fields) => VObject(FieldMeanings(fields))
    case JOther => VOther
  }

  function Meanings(items: seq<Json>): seq<Value>
    decreases items
  {
    if items == [] then [] else [Meaning(items[0])] + Meanings(items[1..])
  }

  function FieldMeanings(fields: seq<Field>): map<string, Value>
    decreases fields
  {
    if fields == [] then map[] else FieldMeanings(fields[1..])[fields[0].key := Meaning(fields[0].value)]
  }

  // ---- Canonical trees: the same value with every object's fields in key order ----

  function FieldKey(): Field -> Key { (f: Field) => [Utf16(f.key)] }

  function Canon(j: Json): Json
    decreases j
  {
    match j
    case JArray(items) => JArray(CanonItems(items))
    case JObject(fields) => JObject(Sort(CanonFields(fields), FieldKey()))
    case _ => j
  }

  function CanonItems(items: seq<Json>): seq<Json>
    decreases items
  {
    if items == [] then [] else [Canon(items[0])] + CanonItems(items[1..])
  }

  function CanonFields(fields: seq<Field>): seq<Field>
    decreases fields
  {
    if fields == [] then [] else [Field(fields[0].key, Canon(fields[0].value))] + CanonFields(fields[1..])
  }

  /** The text of a tree with its fields in the order they stand. */
  function Text(render: Double -> string, j: Json): string
    decreases j
  {
    match j
    case JNull => "null"
    case JBool(flag) => if flag then "true" else "false"
    case JString(text) => Quote(text)
    case JNumber(number) => if number.NonFinite? then "" else render(number.value)
    case JArray(items) => "[" + ItemsText(render, items) + "]"
    case JObject(fields) => "{" + FieldsText(render, fields) + "}"
    case JOther => ""
  }

  function ItemsText(render: Double -> string, items: seq<Json>): string
    decreases items
  {
    if |items| == 0 then ""
    else if |items| == 1 then Text(render, items[0])
    else Text(render, items[0]) + "," + ItemsText(render, items[1..])
  }

  function FieldsText(render: Double -> string, fields: seq<Field>): string
    decreases fields
  {
    if |fields| == 0 then ""
    else
      var entry := Quote(fields[0].key) + ":" + Text(render, fields[0].value);
      if |fields| == 1 then entry else entry + "," + FieldsText(render, fields[1..])
  }

  // ---- The printer prints the canonical tree ----

  lemma {:induction false} ItemsTextIsJoin(render: Double -> string, items: seq<Json>)
    ensures ItemsText(render, items) == Join(Map(items, (j: Json) => Text(render, j)), ",")
  {
    var text := (j: Json) => Text(render, j);
    MapAt(items, text);
    if |items| > 1 {
      ItemsTextIsJoin(render, items[1..]);
      MapAt(items[1..], text);
    }
  }

  function TextEntry(render: Double -> string): Field -> (string, string) {
    (f: Field) => (f.key, Text(render, f.value))
  }

  lemma {:induction false} FieldsTextIsJoin(render: Double -> string, fields: seq<Field>)
    ensures FieldsText(render, fields) == Join(Map(Map(fields, TextEntry(render)), EntryText), ",")
  {
    var entries := Map(fields, TextEntry(render));
    MapAt(fields, TextEntry(render));
    MapAt(entries, EntryText);
    if |fields| > 1 {
      FieldsTextIsJoin(render, fields[1..]);
      var rest := Map(fields[1..], TextEntry(render));
      assert entries[1..] == rest;
      MapAt(rest, EntryText);
      assert Map(entries, EntryText)[1..] == Map(rest, EntryText);
    }
  }

  lemma {:induction false} InsertMap<T, U>(x: T, s: seq<T>, f: T -> U, key: T -> Key, keyOut: U -> Key)
    requires forall y :: keyOut(f(y)) == key(y)
    ensures Insert(f(x), Map(s, f), keyOut) == Map(Insert(x, s, key), f)
  {
    if s != [] {
      InsertMap(x, s[1..], f, key, keyOut);
      assert Map(s, f)[1..] == Map(s[1..], f);
      assert ([x] + s)[1..] == s;
    }
  }

  /** Sorting commutes with a map that keeps the key. */
  lemma {:induction false} SortMap<T, U>(xs: seq<T>, f: T -> U, key: T -> Key, keyOut: U -> Key)
    requires forall y :: keyOut(f(y)) == key(y)
    ensures Sort(Map(xs, f), keyOut) == Map(Sort(xs, key), f)
  {
    if xs != [] {
      SortMap(xs[1..], f, key, keyOut);
      assert Map(xs, f)[1..] == Map(xs[1..], f);
      InsertMap(xs[0], Sort(xs[1..], key), f, key, keyOut);
    }
  }

  /** Printing succeeds exactly for printable values, and prints the text of the canonical tree. */
  lemma {:induction false} PrintIsTextOfCanon(render: Double -> string, j: Json)
    ensures Print(render, j) == if Printable(j) then Ok(Text(render, Canon(j))) else Err
    decreases j
  {
    match j
    case JArray(items) =>
      PrintItemsIsText(render, items);
      ItemsTextIsJoin(render, CanonItems(items));
    case JObject(fields) =>
      PrintFieldsIsText(render, fields);
      var canon := CanonFields(fields);
      SortMap(canon, TextEntry(render), FieldKey(), EntryKey());
      FieldsTextIsJoin(render, Sort(canon, FieldKey()));
    case _ =>
  }

  lemma {:induction false} PrintItemsIsText(render: Double -> string, items: seq<Json>)
    ensures PrintItems(render, items)
         == if forall i :: 0 <= i < |items| ==>
              Printable(items[i]) then Ok(Map(CanonItems(items), (j: Json) => Text(render, j))) else Err
    decreases items
  {
    if items != [] {
      PrintIsTextOfCanon(render, items[0]);
      PrintItemsIsText(render, items[1..]);
      assert (forall i :: 0 <= i < |items| ==> Printable(items[i]))
        <==> Printable(items[0]) && forall i :: 0 <= i < |items[1..]| ==> Printable(items[1..][i]);
      assert CanonItems(items)[1..] == CanonItems(items[1..]);
    }
  }

  lemma {:induction false} PrintFieldsIsText(render: Double -> string, fields: seq<Field>)
    ensures PrintFields(render, fields)
         == if forall i :: 0 <= i < |fields| ==>
              Printable(fields[i].value) then Ok(Map(CanonFields(fields), TextEntry(render))) else Err
    decreases fields
  {
    if fields != [] {
      PrintIsTextOfCanon(render, fields[0].value);
      PrintFieldsIsText(render, fields[1..]);
      assert (forall i :: 0 <= i < |fields| ==> Printable(fields[i].value))
        <==> Printable(fields[0].value) && forall i :: 0 <= i < |fields[1..]| ==> Printable(fields[1..][i].value);
      assert CanonFields(fields)[1..] == CanonFields(fields[1..]);
    }
  }

  // ---- Texts can be read back: no text of a tree is a proper prefix of another where a tree must end ----

  predicate Stops(x: string) { x == "" || x[0] == ',' || x[0] == ']' || x[0] == '}' }

  lemma EscapePrefixFree(c: char, d: char, x: string, y: string)
    requires Escape(c) + x == Escape(d) + y
    ensures c == d && x == y
  {
    var s, t := Escape(c) + x, Escape(d) + y;
    assert s[0] == Escape(c)[0] && t[0] == Escape(d)[0];
    if |Escape(c)| > 1 {
      assert s[1] == Escape(c)[1];
    }
    if |Escape(d)| > 1 {
      assert t[1] == Escape(d)[1];
    }
    if |Escape(c)| > 4 {
      assert s[4] == Escape(c)[4] && s[5] == Escape(c)[5];
    }
    if |Escape(d)| > 4 {
      assert t[4] == Escape(d)[4] && t[5] == Escape(d)[5];
    }
    assert c == d;
    assert x == s[|Escape(c)|..] && y == t[|Escape(d)|..];
  }

  /** Only the empty text starts with the closing quote once escaped. */
  lemma EscapedStart(s: string, x: string)
    ensures EscapeAll(s) + "\"" + x != "" && ((EscapeAll(s) + "\"" + x)[0] == '"' <==> s == "")
  {
    if s != "" {
      assert Escape(s[0]) != "" && Escape(s[0])[0] != '"';
      assert (EscapeAll(s) + "\"" + x)[0] == Escape(s[0])[0];
    }
  }

  lemma EscapeAllStep(s: string, x: string)
    requires s != ""
    ensures EscapeAll(s) + "\"" + x == Escape(s[0]) + (EscapeAll(s[1..]) + "\"" + x)
  {
  }

  lemma {:induction false} EscapeAllUnique(s: string, t: string, x: string, y: string)
    requires EscapeAll(s) + "\"" + x == EscapeAll(t) + "\"" + y
    ensures s == t && x == y
  {
    EscapedStart(s, x);
    EscapedStart(t, y);
    if s == "" {
      assert (EscapeAll(s) + "\"" + x)[1..] == x && (EscapeAll(t) + "\"" + y)[1..] == y;
    } else {
      EscapeAllStep(s, x);
      EscapeAllStep(t, y);
      EscapePrefixFree(s[0], t[0], EscapeAll(s[1..]) + "\"" + x, EscapeAll(t[1..]) + "\"" + y);
      EscapeAllUnique(s[1..], t[1..], x, y);
      assert s == [s[0]] + s[1..] && t == [t[0]] + t[1..];
    }
  }

  lemma QuoteUnique(s: string, t: string, x: string, y: string)
    requires Quote(s) + x == Quote(t) + y
    ensures s == t && x == y
  {
    assert (Quote(s) + x)[1..] == EscapeAll(s) + "\"" + x;
    assert (Quote(t) + y)[1..] == EscapeAll(t) + "\"" + y;
    EscapeAllUnique(s, t, x, y);
  }

  lemma NumberStart(a: string, x: string)
    requires Stops(x) && forall c :: c in a ==> NumberChar(c)
    ensures Stops(a + x) <==> a == ""
  {
    if a == "" {
      assert a + x == x;
    } else {
      assert a[0] in a && (a + x)[0] == a[0];
    }
  }

  lemma {:induction false} NumberUnique(a: string, b: string, x: string, y: string)
    requires (forall c :: c in a ==> NumberChar(c)) && (forall c :: c in b ==> NumberChar(c))
    requires Stops(x) && Stops(y) && a + x == b + y
    ensures a == b && x == y
  {
    NumberStart(a, x);
    NumberStart(b, y);
    if a == "" {
      assert a + x == x && b + y == y;
    } else {
      assert (a + x)[0] == a[0] && (b + y)[0] == b[0];
      assert (a + x)[1..] == a[1..] + x && (b + y)[1..] == b[1..] + y;
      assert forall c :: c in a[1..] ==> c in a;
      assert forall c :: c in b[1..] ==> c in b;
      NumberUnique(a[1..], b[1..], x, y);
      assert a == [a[0]] + a[1..] && b == [b[0]] + b[1..];
    }
  }

  datatype Kind = KNull | KTrue | KFalse | KString | KNumber | KArray | KObject

  function KindOf(j: Json): Kind
    requires Printable(j)
  {
    match j
    case JNull => KNull
    case JBool(flag) => if flag then KTrue else KFalse
    case JString(_) => KString
    case JNumber(_) => KNumber
    case JArray(_) => KArray
    case JObject(_) => KObject
  }

  function KindOfChar(c: char): Kind {
    if c == 'n' then KNull else if c == 't' then KTrue else if c == 'f' then KFalse
    else if c == '"' then KString else if c == '[' then KArray else if c == '{' then KObject else KNumber
  }

  /** The first character of a text tells what kind of value it is, and is never one that ends a value. */
  lemma TextStart(render: Double -> string, j: Json)
    requires PrintsNumbers(render) && Printable(j)
    ensures Text(render, j) != "" && KindOfChar(Text(render, j)[0]) == KindOf(j)
    ensures !Stops(Text(render, j))
  {
    if j.JNumber? {
      var text := render(j.number.value);
      assert text != "" && text[0] in text;
    }
  }

  /** What follows the first item, or the first field, when `x` follows the whole list. */
  function ItemsRest(render: Double -> string, items: seq<Json>, x: string): string
    requires items != []
  {
    if |items| == 1 then x else "," + (ItemsText(render, items[1..]) + x)
  }

  function FieldsRest(render: Double -> string, fields: seq<Field>, x: string): string
    requires fields != []
  {
    if |fields| == 1 then x else "," + (FieldsText(render, fields[1..]) + x)
  }

  lemma ItemsSplit(render: Double -> string, items: seq<Json>, x: string)
    requires items != []
    ensures ItemsText(render, items) + x == Text(render, items[0]) + ItemsRest(render, items, x)
  {
  }

  lemma FieldsSplit(render: Double -> string, fields: seq<Field>, x: string)
    requires fields != []
    ensures FieldsText(render, fields) + x
         == Quote(fields[0].key) + (":" + (Text(render, fields[0].value) + FieldsRest(render, fields, x)))
  {
  }

  lemma ItemsStart(render: Double -> string, items: seq<Json>, x: string)
    requires PrintsNumbers(render) && (forall i :: 0 <= i < |items| ==> Printable(items[i])) && x != "" && x[0] == ']'
    ensures ItemsText(render, items) + x != ""
    ensures (ItemsText(render, items) + x)[0] == ']' <==> items == []
  {
    if items == [] {
      assert ItemsText(render, items) + x == x;
    } else {
      TextStart(render, items[0]);
      ItemsSplit(render, items, x);
      assert (Text(render, items[0]) + ItemsRest(render, items, x))[0] == Text(render, items[0])[0];
    }
  }

  lemma FieldsStart(render: Double -> string, fields: seq<Field>, x: string)
    requires x != "" && x[0] == '}'
    ensures FieldsText(render, fields) + x != ""
    ensures (FieldsText(render, fields) + x)[0] == '}' <==> fields == []
  {
    if fields == [] {
      assert FieldsText(render, fields) + x == x;
    } else {
      FieldsSplit(render, fields, x);
    }
  }

  /** Two texts of trees, each followed by something that cannot continue it, are equal only for equal trees. */
  lemma {:induction false} TextUnique(render: Double -> string, v: Json, w: Json, x: string, y: string)
    requires PrintsNumbers(render) && Printable(v) && Printable(w) && Stops(x) && Stops(y)
    requires Text(render, v) + x == Text(render, w) + y
    ensures v == w && x == y
    decreases v
  {
    SameKind(render, v, w, x, y);
    match v
    case JArray(items) => ArrayUnique(render, items, w.items, x, y);
    case JObject(fields) => ObjectUnique(render, fields, w.fields, x, y);
    case JString(text) => QuoteUnique(text, w.text, x, y);
    case JNumber(number) => NumberUnique(render(number.value), render(w.number.value), x, y);
    case _ => SameHead(Text(render, v), Text(render, w), x, y);
  }

  lemma SameKind(render: Double -> string, v: Json, w: Json, x: string, y: string)
    requires PrintsNumbers(render) && Printable(v) && Printable(w) && Text(render, v) + x == Text(render, w) + y
    ensures KindOf(v) == KindOf(w)
  {
    TextStart(render, v);
    TextStart(render, w);
    assert (Text(render, v) + x)[0] == Text(render, v)[0] && (Text(render, w) + y)[0] == Text(render, w)[0];
  }

  lemma SameHead(s: string, t: string, x: string, y: string)
    requires s == t && s + x == t + y
    ensures x == y
  {
    assert x == (s + x)[|s|..] && y == (t + y)[|t|..];
  }

  lemma Unwrapped(open: string, inner: string, close: string, x: string)
    requires |open| == 1
    ensures (open + inner + close + x)[1..] == inner + (close + x)
  {
  }

  lemma {:induction false} ArrayUnique(render: Double -> string, v: seq<Json>, w: seq<Json>, x: string, y: string)
    requires PrintsNumbers(render)
    requires (forall i :: 0 <= i < |v| ==> Printable(v[i])) && (forall i :: 0 <= i < |w| ==> Printable(w[i]))
    requires "[" + ItemsText(render, v) + "]" + x == "[" + ItemsText(render, w) + "]" + y
    ensures v == w && x == y
    decreases v, 1
  {
    Unwrapped("[", ItemsText(render, v), "]", x);
    Unwrapped("[", ItemsText(render, w), "]", y);
    ItemsUnique(render, v, w, "]" + x, "]" + y);
    SameHead("]", "]", x, y);
  }

  lemma {:induction false} ObjectUnique(render: Double -> string, v: seq<Field>, w: seq<Field>, x: string, y: string)
    requires PrintsNumbers(render)
    requires (forall i :: 0 <= i < |v| ==> Printable(v[i].value))
    requires (forall i :: 0 <= i < |w| ==> Printable(w[i].value))
    requires "{" + FieldsText(render, v) + "}" + x == "{" + FieldsText(render, w) + "}" + y
    ensures v == w && x == y
    decreases v, 1
  {
    Unwrapped("{", FieldsText(render, v), "}", x);
    Unwrapped("{", FieldsText(render, w), "}", y);
    FieldsUnique(render, v, w, "}" + x, "}" + y);
    SameHead("}", "}", x, y);
  }

  lemma {:induction false} ItemsUnique(render: Double -> string, v: seq<Json>, w: seq<Json>, x: string, y: string)
    requires PrintsNumbers(render)
    requires (forall i :: 0 <= i < |v| ==> Printable(v[i])) && (forall i :: 0 <= i < |w| ==> Printable(w[i]))
    requires x != "" && y != "" && x[0] == y[0] == ']'
    requires ItemsText(render, v) + x == ItemsText(render, w) + y
    ensures v == w && x == y
    decreases v, 0
  {
    ItemsStart(render, v, x);
    ItemsStart(render, w, y);
    if v == [] {
      assert ItemsText(render, v) + x == x && ItemsText(render, w) + y == y;
    } else {
      ItemsSplit(render, v, x);
      ItemsSplit(render, w, y);
      var restV, restW := ItemsRest(render, v, x), ItemsRest(render, w, y);
      TextUnique(render, v[0], w[0], restV, restW);
      if |v| > 1 {
        SameHead(",", ",", restV[1..], restW[1..]);
        ItemsUnique(render, v[1..], w[1..], x, y);
      }
      assert v == [v[0]] + v[1..] && w == [w[0]] + w[1..];
    }
  }

  lemma {:induction false} FieldsUnique(render: Double -> string, v: seq<Field>, w: seq<Field>, x: string, y: string)
    requires PrintsNumbers(render)
    requires (forall i :: 0 <= i < |v| ==> Printable(v[i].value))
    requires (forall i :: 0 <= i < |w| ==> Printable(w[i].value))
    requires x != "" && y != "" && x[0] == y[0] == '}'
    requires FieldsText(render, v) + x == FieldsText(render, w) + y
    ensures v == w && x == y
    decreases v, 0
  {
    FieldsStart(render, v, x);
    FieldsStart(render, w, y);
    if v == [] {
      assert FieldsText(render, v) + x == x && FieldsText(render, w) + y == y;
    } else {
      var restV, restW := FieldsRest(render, v, x), FieldsRest(render, w, y);
      FirstKeySame(render, v, w, x, y);
      TextUnique(render, v[0].value, w[0].value, restV, restW);
      if |v| > 1 {
        SameHead(",", ",", restV[1..], restW[1..]);
        FieldsUnique(render, v[1..], w[1..], x, y);
      }
      assert v == [v[0]] + v[1..] && w == [w[0]] + w[1..];
    }
  }

  lemma FirstKeySame(render: Double -> string, v: seq<Field>, w: seq<Field>, x: string, y: string)
    requires v != [] && w != [] && FieldsText(render, v) + x == FieldsText(render, w) + y
    ensures v[0].key == w[0].key
    ensures Text(render, v[0].value) + FieldsRest(render, v, x) == Text(render, w[0].value) + FieldsRest(render, w, y)
  {
    FieldsSplit(render, v, x);
    FieldsSplit(render, w, y);
    var valueV := Text(render, v[0].value) + FieldsRest(render, v, x);
    var valueW := Text(render, w[0].value) + FieldsRest(render, w, y);
    QuoteUnique(v[0].key, w[0].key, ":" + valueV, ":" + valueW);
    SameHead(":", ":", valueV, valueW);
  }

  // ---- Canonical trees stand for values up to key order ----

  lemma {:induction false} CanonItemsAt(items: seq<Json>)
    ensures |CanonItems(items)| == |items| && forall i :: 0 <= i < |items| ==> CanonItems(items)[i] == Canon(items[i])
    decreases items
  {
    if items != [] {
      CanonItemsAt(items[1..]);
    }
  }

  lemma {:induction false} CanonFieldsAt(fields: seq<Field>)
    ensures |CanonFields(fields)| == |fields|
    ensures forall i :: 0 <= i < |fields| ==> CanonFields(fields)[i] == Field(fields[i].key, Canon(fields[i].value))
    decreases fields
  {
    if fields != [] {
      CanonFieldsAt(fields[1..]);
    }
  }

  lemma {:induction false} CanonPrintable(j: Json)
    requires Printable(j)
    ensures Printable(Canon(j))
    decreases j
  {
    match j
    case JArray(items) =>
      CanonItemsAt(items);
      forall i | 0 <= i < |items| ensures Printable(Canon(items[i])) {
        CanonPrintable(items[i]);
      }
    case JObject(fields) =>
      CanonFieldsAt(fields);
      forall i | 0 <= i < |fields| ensures Printable(Canon(fields[i].value)) {
        CanonPrintable(fields[i].value);
      }
      var sorted := Sort(CanonFields(fields), FieldKey());
      forall i | 0 <= i < |sorted| ensures Printable(sorted[i].value) {
        assert sorted[i] in sorted;
        SortMember(CanonFields(fields), FieldKey(), sorted[i]);
      }
    case _ =>
  }

  lemma {:induction false} MeaningsAt(items: seq<Json>)
    ensures |Meanings(items)| == |items| && forall i :: 0 <= i < |items| ==> Meanings(items)[i] == Meaning(items[i])
    decreases items
  {
    if items != [] {
      MeaningsAt(items[1..]);
    }
  }

  ghost predicate KeysDiffer(fields: seq<Field>) {
    forall i, k :: 0 <= i < k < |fields| ==> fields[i].key != fields[k].key
  }

  lemma {:induction false} FieldMeaningsAt(fields: seq<Field>)
    requires KeysDiffer(fields)
    ensures forall i :: 0 <= i < |fields| ==>
              fields[i].key in FieldMeanings(fields) && FieldMeanings(fields)[fields[i].key] == Meaning(fields[i].value)
    ensures forall k :: k in FieldMeanings(fields) ==> exists i :: 0 <= i < |fields| && fields[i].key == k
    decreases fields
  {
    if fields != [] {
      FieldMeaningsAt(fields[1..]);
      forall k | k in FieldMeanings(fields) ensures exists i :: 0 <= i < |fields| && fields[i].key == k {
        if k != fields[0].key {
          var i :| 0 <= i < |fields| - 1 && fields[1..][i].key == k;
          assert fields[i + 1].key == k;
        } else {
          assert fields[0].key == k;
        }
      }
    }
  }

  lemma {:induction false} KeysDifferPermuted(a: seq<Field>, b: seq<Field>)
    requires multiset(a) == multiset(b) && KeysDiffer(a)
    ensures KeysDiffer(b)
  {
    var key := (f: Field) => f.key;
    MapAt(a, key);
    MapAt(b, key);
    MapPermuted(a, b, key);
    DistinctPermuted(Map(a, key), Map(b, key));
    assert forall i, k :: 0 <= i < k < |b| ==> Map(b, key)[i] != Map(b, key)[k];
  }

  /** The canonical tree means what the value means. */
  lemma {:induction false} CanonKeepsMeaning(j: Json)
    requires WellFormed(j)
    ensures Meaning(Canon(j)) == Meaning(j)
    decreases j
  {
    match j
    case JArray(items) =>
      forall i | 0 <= i < |items| ensures Meaning(Canon(items[i])) == Meaning(items[i]) {
        CanonKeepsMeaning(items[i]);
      }
      ItemsKeepMeaning(items);
    case JObject(fields) =>
      forall i | 0 <= i < |fields| ensures Meaning(Canon(fields[i].value)) == Meaning(fields[i].value) {
        CanonKeepsMeaning(fields[i].value);
      }
      FieldsKeepMeaning(fields);
    case _ =>
  }

  lemma ItemsKeepMeaning(items: seq<Json>)
    requires forall i :: 0 <= i < |items| ==> Meaning(Canon(items[i])) == Meaning(items[i])
    ensures Meanings(CanonItems(items)) == Meanings(items)
  {
    CanonItemsAt(items);
    MeaningsAt(items);
    MeaningsAt(CanonItems(items));
  }

  lemma FieldsKeepMeaning(fields: seq<Field>)
    requires KeysDiffer(fields)
    requires forall i :: 0 <= i < |fields| ==> Meaning(Canon(fields[i].value)) == Meaning(fields[i].value)
    ensures FieldMeanings(Sort(CanonFields(fields), FieldKey())) == FieldMeanings(fields)
  {
    var canon := CanonFields(fields);
    CanonFieldsAt(fields);
    SortPermutes(canon, FieldKey());
    assert KeysDiffer(canon);
    KeysDifferPermuted(canon, Sort(canon, FieldKey()));
    SameFieldsMean(canon, Sort(canon, FieldKey()));
    CanonFieldsMean(fields);
  }

  lemma {:induction false} CanonFieldsMean(fields: seq<Field>)
    requires forall i :: 0 <= i < |fields| ==> Meaning(Canon(fields[i].value)) == Meaning(fields[i].value)
    ensures FieldMeanings(CanonFields(fields)) == FieldMeanings(fields)
  {
    if fields != [] {
      var canon := CanonFields(fields);
      CanonFieldsMean(fields[1..]);
      assert canon[0] == Field(fields[0].key, Canon(fields[0].value)) && canon[1..] == CanonFields(fields[1..]);
    }
  }

  lemma SameFieldsMean(canon: seq<Field>, sorted: seq<Field>)
    requires KeysDiffer(canon) && KeysDiffer(sorted) && multiset(canon) == multiset(sorted)
    ensures FieldMeanings(sorted) == FieldMeanings(canon)
  {
    FieldMeaningsAt(canon);
    FieldMeaningsAt(sorted);
    PermutedMembers(canon, sorted);
    forall k | k in FieldMeanings(canon) ensures SameAt(sorted, canon, k) {
      var i :| 0 <= i < |canon| && canon[i].key == k;
      assert canon[i] in sorted;
      var m :| 0 <= m < |sorted| && sorted[m] == canon[i];
    }
    forall k | k in FieldMeanings(sorted) ensures k in FieldMeanings(canon) {
      var m :| 0 <= m < |sorted| && sorted[m].key == k;
      assert sorted[m] in canon;
    }
  }

  ghost predicate SameAt(a: seq<Field>, b: seq<Field>, k: string) {
    k in FieldMeanings(a) && k in FieldMeanings(b) && FieldMeanings(a)[k] == FieldMeanings(b)[k]
  }

  lemma WithoutOne<T>(ys: seq<T>, i: nat, x: T)
    requires Distinct(ys) && i < |ys|
    ensures x in ys[..i] + ys[i + 1..] <==> x in ys && x != ys[i]
  {
    var rest := ys[..i] + ys[i + 1..];
    if x in ys && x != ys[i] {
      var k :| 0 <= k < |ys| && ys[k] == x;
      assert rest[if k < i then k else k - 1] == x;
    }
    if x in rest {
      var k :| 0 <= k < |rest| && rest[k] == x;
      assert ys[if k < i then k else k + 1] == x;
    }
  }

  lemma {:induction false} DistinctSameMembers<T>(xs: seq<T>, ys: seq<T>)
    requires Distinct(xs) && Distinct(ys) && forall x :: x in xs <==> x in ys
    ensures multiset(xs) == multiset(ys)
    decreases |xs|
  {
    assert ys == [] || ys[0] in ys;
    if xs != [] {
      assert xs[0] in ys;
      var i :| 0 <= i < |ys| && ys[i] == xs[0];
      var rest := ys[..i] + ys[i + 1..];
      assert xs[1..] == xs[..0] + xs[0 + 1..];
      forall x ensures x in xs[1..] <==> x in rest {
        WithoutOne(xs, 0, x);
        WithoutOne(ys, i, x);
      }
      assert Distinct(rest) by {
        forall j, k | 0 <= j < k < |rest| ensures rest[j] != rest[k] {
          assert rest[j] == ys[if j < i then j else j + 1] && rest[k] == ys[if k < i then k else k + 1];
        }
      }
      DistinctSameMembers(xs[1..], rest);
      PutBack(xs, ys, i);
    }
  }

  lemma PutBack<T>(xs: seq<T>, ys: seq<T>, i: nat)
    requires xs != [] && i < |ys| && ys[i] == xs[0] && multiset(xs[1..]) == multiset(ys[..i] + ys[i + 1..])
    ensures multiset(xs) == multiset(ys)
  {
    assert ys == ys[..i] + ([ys[i]] + ys[i + 1..]) && xs == [xs[0]] + xs[1..];
    assert multiset(xs) == multiset{xs[0]} + multiset(xs[1..]);
    assert multiset(ys) == multiset{ys[i]} + multiset(ys[..i] + ys[i + 1..]);
  }

  /** Values that mean the same have the same canonical tree. */
  lemma {:induction false} CanonUnique(v: Json, w: Json)
    requires WellFormed(v) && WellFormed(w) && Meaning(v) == Meaning(w)
    ensures Canon(v) == Canon(w)
    decreases v
  {
    match v
    case JArray(items) =>
      CanonItemsAt(items);
      CanonItemsAt(w.items);
      MeaningsAt(items);
      MeaningsAt(w.items);
      forall i | 0 <= i < |items| ensures CanonItems(items)[i] == CanonItems(w.items)[i] {
        assert Meanings(items)[i] == Meanings(w.items)[i];
        CanonUnique(items[i], w.items[i]);
      }
    case JObject(fields) =>
      FieldMeaningsAt(fields);
      FieldMeaningsAt(w.fields);
      forall i, k | 0 <= i < |fields| && 0 <= k < |w.fields| && fields[i].key == w.fields[k].key
        ensures Canon(fields[i].value) == Canon(w.fields[k].value)
      {
        CanonUnique(fields[i].value, w.fields[k].value);
      }
      FieldsCanonUnique(fields, w.fields);
    case _ =>
  }

  lemma FieldsCanonUnique(v: seq<Field>, w: seq<Field>)
    requires KeysDiffer(v) && KeysDiffer(w) && FieldMeanings(v) == FieldMeanings(w)
    requires forall i, k :: 0 <= i < |v| && 0 <= k < |w| && v[i].key == w[k].key ==>
               Canon(v[i].value) == Canon(w[k].value)
    ensures Sort(CanonFields(v), FieldKey()) == Sort(CanonFields(w), FieldKey())
  {
    var a, b := CanonFields(v), CanonFields(w);
    CanonFieldsAt(v);
    CanonFieldsAt(w);
    forall f ensures f in a <==> f in b {
      FieldCarriesOver(v, w, f);
      FieldCarriesOver(w, v, f);
    }
    DistinctSameMembers(a, b);
    forall x, y | x in a && y in a && FieldKey()(x) == FieldKey()(y) ensures x == y {
      assert [Utf16(x.key)][0] == [Utf16(y.key)][0];
      Utf16Injective(x.key, y.key);
    }
    SortCanonical(a, b, FieldKey());
  }

  lemma FieldCarriesOver(v: seq<Field>, w: seq<Field>, f: Field)
    requires KeysDiffer(v) && KeysDiffer(w) && FieldMeanings(v) == FieldMeanings(w)
    requires forall i, k :: 0 <= i < |v| && 0 <= k < |w| && v[i].key == w[k].key ==>
               Canon(v[i].value) == Canon(w[k].value)
    ensures f in CanonFields(v) ==> f in CanonFields(w)
  {
    CanonFieldsAt(v);
    CanonFieldsAt(w);
    FieldMeaningsAt(v);
    FieldMeaningsAt(w);
    if f in CanonFields(v) {
      var i :| 0 <= i < |v| && CanonFields(v)[i] == f;
      assert v[i].key in FieldMeanings(w);
      var k :| 0 <= k < |w| && w[k].key == v[i].key;
      assert CanonFields(w)[k] == f;
    }
  }

  /**
   Two conversion schemas print the same canonical text exactly when they are equal as JSON values up to the order of
   object keys, at any depth.
   */
  lemma CanonicalExactly(render: Double -> string, v: Json, w: Json)
    requires PrintsNumbers(render) && WellFormed(v) && WellFormed(w)
    ensures CanonicalConversionSchema(render, v).Ok? <==> v.JObject? && Printable(v)
    ensures CanonicalConversionSchema(render, v).Ok? && CanonicalConversionSchema(render, w).Ok? ==>
              (CanonicalConversionSchema(render, v) == CanonicalConversionSchema(render, w) <==> Meaning(v) == Meaning(w))
  {
    PrintIsTextOfCanon(render, v);
    PrintIsTextOfCanon(render, w);
    if CanonicalConversionSchema(render, v).Ok? && CanonicalConversionSchema(render, w).Ok? {
      var a, b := Canon(v), Canon(w);
      CanonPrintable(v);
      CanonPrintable(w);
      if Meaning(v) == Meaning(w) {
        CanonUnique(v, w);
      }
      if Text(render, a) == Text(render, b) {
        assert Text(render, a) + "" == Text(render, b) + "";
        TextUnique(render, a, b, "", "");
        CanonKeepsMeaning(v);
        CanonKeepsMeaning(w);
      }
    }
  }

  // ---- Number printers exist ----

  /** Mantissa and exponent, joined by "e". */
  function PlainNumber(d: Double): string { IntText(d.mantissa) + "e" + IntText(d.exponent) }

  lemma IntTextHasNoE(n: int)
    ensures 'e' !in IntText(n) && forall c :: c in IntText(n) ==> NumberChar(c)
  {
    IntTextParses(n);
  }

  lemma PlainNumberInjective(x: Double, y: Double)
    requires PlainNumber(x) == PlainNumber(y)
    ensures x == y
  {
    IntTextHasNoE(x.mantissa);
    IntTextHasNoE(y.mantissa);
    SplitAt('e', IntText(x.mantissa), IntText(x.exponent), IntText(y.mantissa), IntText(y.exponent));
    IntTextParses(x.mantissa);
    IntTextParses(y.mantissa);
    IntTextParses(x.exponent);
    IntTextParses(y.exponent);
  }

  /** Some printer tells all finite doubles apart in number characters. */
  lemma NumbersCanBePrinted()
    ensures PrintsNumbers(PlainNumber)
  {
    forall x: Double, y: Double | PlainNumber(x) == PlainNumber(y) ensures x == y {
      PlainNumberInjective(x, y);
    }
    forall x: Double ensures PlainNumber(x) != "" && forall c :: c in PlainNumber(x) ==> NumberChar(c) {
      IntTextHasNoE(x.mantissa);
      IntTextHasNoE(x.exponent);
    }
  }
}
