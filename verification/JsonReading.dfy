/** Canonical texts read back by a reader of RFC 8259, which knows nothing of the printer. */
module JsonReading {
  import opened Outcomes
  import opened Sequences
  import opened CanonicalOrder
  import opened TextOrder
  import opened CanonicalJson

  // ---- The reader: sections 2 to 7 of RFC 8259, without white space ----

  function HexDigit(c: char): Option<nat> {
    if '0' <= c <= '9' then Some(c as nat - '0' as nat)
    else if 'a' <= c <= 'f' then Some(10 + c as nat - 'a' as nat)
    else if 'A' <= c <= 'F' then Some(10 + c as nat - 'A' as nat)
    else None
  }

  function HexNumber(s: string): Option<nat> {
    if s == "" then Some(0)
    else
      match (HexNumber(s[..|s| - 1]), HexDigit(s[|s| - 1]))
      case (Some(high), Some(low)) => Some(16 * high + low)
      case _ => None
  }

  /** The characters that stand behind a backslash for themselves or for a control character. */
  function Unescaped(c: char): Option<char> {
    match c
    case '"' => Some('"')
    case '\\' => Some('\\')
    case '/' => Some('/')
    case 'b' => Some(8 as char)
    case 'f' => Some(12 as char)
    case 'n' => Some(10 as char)
    case 'r' => Some(13 as char)
    case 't' => Some(9 as char)
    case _ => None
  }

  function ReadChar(s: string): (r: Option<(char, string)>)
    ensures r.Some? ==> |r.value.1| < |s|
  {
    if s == "" || s[0] == '"' || s[0] as int < 0x20 then None
    else if s[0] != '\\' then Some((s[0], s[1..]))
    else if |s| > 1 && Unescaped(s[1]).Some? then Some((Unescaped(s[1]).value, s[2..]))
    else if |s| > 5 && s[1] == 'u' && HexNumber(s[2..6]).Some? && HexNumber(s[2..6]).value < 0xD800 then
      Some((HexNumber(s[2..6]).value as char, s[6..]))
    else None
  }

  /** A string, from behind its opening quote. */
  function ReadString(s: string): (r: Option<(string, string)>)
    ensures r.Some? ==> |r.value.1| < |s|
    decreases |s|
  {
    if s != "" && s[0] == '"' then Some(("", s[1..]))
    else
      match ReadChar(s)
      case None => None
      case Some((c, rest)) =>
        match ReadString(rest)
        case None => None
        case Some((text, after)) => Some(([c] + text, after))
  }

  /** The longest run of number characters. */
  function NumberRun(s: string): (n: nat)
    ensures n <= |s|
  {
    if s == "" || !NumberChar(s[0]) then 0 else 1 + NumberRun(s[1..])
  }

  type Numbers = string -> Option<Double>

  function ReadValue(parse: Numbers, s: string): (r: Option<(Json, string)>)
    ensures r.Some? ==> |r.value.1| < |s|
    decreases |s|, 0
  {
    if s == "" then None
    else if s[0] == '"' then
      match ReadString(s[1..])
      case None => None
      case Some((text, rest)) => Some((JString(text), rest))
    else if s[0] == '[' then
      match ReadItems(parse, s[1..])
      case None => None
      case Some((items, rest)) => Some((JArray(items), rest))
    else if s[0] == '{' then
      match ReadFields(parse, s[1..])
      case None => None
      case Some((fields, rest)) => Some((JObject(fields), rest))
    else if "null" <= s then Some((JNull, s[4..]))
    else if "true" <= s then Some((JBool(true), s[4..]))
    else if "false" <= s then Some((JBool(false), s[5..]))
    else
      var n := NumberRun(s);
      if n > 0 && parse(s[..n]).Some? then Some((JNumber(Finite(parse(s[..n]).value)), s[n..])) else None
  }

  /** The items of an array, up to its bracket. */
  function ReadItems(parse: Numbers, s: string): (r: Option<(seq<Json>, string)>)
    ensures r.Some? ==> |r.value.1| < |s|
    decreases |s|, 1
  {
    if s != "" && s[0] == ']' then Some(([], s[1..]))
    else
      match ReadValue(parse, s)
      case None => None
      case Some((head, rest)) =>
        if rest != "" && rest[0] == ']' then Some(([head], rest[1..]))
        else if rest != "" && rest[0] == ',' then
          match ReadItems(parse, rest[1..])
          case Some((tail, after)) => if tail == [] then None else Some(([head] + tail, after))
          case None => None
        else None
  }

  /** The fields of an object, up to its brace. */
  function ReadFields(parse: Numbers, s: string): (r: Option<(seq<Field>, string)>)
    ensures r.Some? ==> |r.value.1| < |s|
    decreases |s|, 1
  {
    if s != "" && s[0] == '}' then Some(([], s[1..]))
    else
      match ReadField(parse, s)
      case None => None
      case Some((head, rest)) =>
        if rest != "" && rest[0] == '}' then Some(([head], rest[1..]))
        else if rest != "" && rest[0] == ',' then
          match ReadFields(parse, rest[1..])
          case Some((tail, after)) => if tail == [] then None else Some(([head] + tail, after))
          case None => None
        else None
  }

  function ReadField(parse: Numbers, s: string): (r: Option<(Field, string)>)
    ensures r.Some? ==> |r.value.1| < |s|
    decreases |s|, 0
  {
    if s == "" || s[0] != '"' then None
    else
      match ReadString(s[1..])
      case None => None
      case Some((key, rest)) =>
        if rest == "" || rest[0] != ':' then None
        else
          match ReadValue(parse, rest[1..])
          case None => None
          case Some((value, after)) => Some((Field(key, value), after))
  }

  // ---- Strings ----

  lemma ControlDigits(c: char)
    requires (c as int) < 0x20
    ensures HexNumber("00" + [Hex(c as int / 16), Hex(c as int % 16)]) == Some(c as nat)
  {
    var h, l := Hex(c as int / 16), Hex(c as int % 16);
    var s := "00" + [h, l];
    assert s[3] == l && s[..3] == "00" + [h] && s[..3][2] == h && s[..3][..2] == "00" && "00"[..1] == "0" && "0"[..0] == "";
    assert HexDigit(h) == Some(c as nat / 16) && HexDigit(l) == Some(c as nat % 16) && HexDigit('0') == Some(0);
    assert HexNumber("0") == Some(0);
    assert HexNumber("00") == Some(0);
    assert HexNumber(s[..3]) == Some(c as nat / 16);
  }

  lemma ReadsChar(c: char, x: string)
    ensures ReadChar(Escape(c) + x) == Some((c, x))
  {
    var s := Escape(c) + x;
    assert s[|Escape(c)|..] == x && s[0] == Escape(c)[0];
    if |Escape(c)| > 1 {
      assert s[1] == Escape(c)[1];
    }
    if |Escape(c)| > 2 {
      assert s[2..6] == "00" + [Hex(c as int / 16), Hex(c as int % 16)];
      ControlDigits(c);
    }
  }

  lemma {:induction false} ReadsString(text: string, x: string)
    ensures ReadString(EscapeAll(text) + "\"" + x) == Some((text, x))
  {
    var s := EscapeAll(text) + "\"" + x;
    EscapedStart(text, x);
    if text == "" {
      assert s[1..] == x;
    } else {
      EscapeAllStep(text, x);
      ReadsChar(text[0], EscapeAll(text[1..]) + "\"" + x);
      ReadsString(text[1..], x);
      assert [text[0]] + text[1..] == text;
    }
  }

  lemma ReadsQuote(text: string, x: string)
    ensures Quote(text) + x != "" && (Quote(text) + x)[0] == '"'
    ensures ReadString((Quote(text) + x)[1..]) == Some((text, x))
  {
    assert (Quote(text) + x)[1..] == EscapeAll(text) + "\"" + x;
    ReadsString(text, x);
  }

  // ---- Numbers ----

  lemma {:induction false} RunsOver(a: string, x: string)
    requires (forall c :: c in a ==> NumberChar(c)) && Stops(x)
    ensures NumberRun(a + x) == |a|
  {
    if a == "" {
      assert a + x == x;
    } else {
      assert (a + x)[0] == a[0] && (a + x)[1..] == a[1..] + x;
      assert forall c :: c in a[1..] ==> c in a;
      RunsOver(a[1..], x);
    }
  }

  ghost predicate ReadsNumbers(parse: Numbers, render: Double -> string) {
    PrintsNumbers(render) && forall d :: parse(render(d)) == Some(d)
  }

  lemma ReadsNumber(parse: Numbers, render: Double -> string, d: Double, x: string)
    requires ReadsNumbers(parse, render) && Stops(x)
    ensures ReadValue(parse, render(d) + x) == Some((JNumber(Finite(d)), x))
  {
    var a := render(d);
    RunsOver(a, x);
    assert a[0] in a && (a + x)[0] == a[0] && (a + x)[..|a|] == a && (a + x)[|a|..] == x;
  }

  // ---- Values ----

  lemma ReadsWord(parse: Numbers, x: string)
    ensures ReadValue(parse, "null" + x) == Some((JNull, x))
    ensures ReadValue(parse, "true" + x) == Some((JBool(true), x))
    ensures ReadValue(parse, "false" + x) == Some((JBool(false), x))
  {
    assert ("null" + x)[4..] == x && ("true" + x)[4..] == x && ("false" + x)[5..] == x;
    assert ("true" + x)[0] == 't' && ("false" + x)[0] == 'f' && ("null" + x)[0] == 'n';
  }

  /** A tree's text reads back as the tree. */
  lemma ReadsArray(parse: Numbers, inner: string, items: seq<Json>, rest: string)
    requires ReadItems(parse, inner) == Some((items, rest))
    ensures ReadValue(parse, "[" + inner) == Some((JArray(items), rest))
  {
    assert ("[" + inner)[1..] == inner && ("[" + inner)[0] == '[';
  }

  lemma ReadsObject(parse: Numbers, inner: string, fields: seq<Field>, rest: string)
    requires ReadFields(parse, inner) == Some((fields, rest))
    ensures ReadValue(parse, "{" + inner) == Some((JObject(fields), rest))
  {
    assert ("{" + inner)[1..] == inner && ("{" + inner)[0] == '{';
  }

  lemma ReadsText(parse: Numbers, text: string, x: string)
    ensures ReadValue(parse, Quote(text) + x) == Some((JString(text), x))
  {
    ReadsQuote(text, x);
  }

  /** A tree's text reads back as the tree. */
  lemma {:induction false} TextReads(parse: Numbers, render: Double -> string, j: Json, x: string)
    requires ReadsNumbers(parse, render) && Printable(j) && Stops(x)
    ensures ReadValue(parse, Text(render, j) + x) == Some((j, x))
    decreases j, 0
  {
    match j
    case JNull => ReadsWord(parse, x);
    case JBool(_) => ReadsWord(parse, x);
    case JString(text) => ReadsText(parse, text, x);
    case JNumber(number) => ReadsNumber(parse, render, number.value, x);
    case JArray(items) => ArrayReads(parse, render, items, x);
    case JObject(fields) => ObjectReads(parse, render, fields, x);
  }

  lemma {:induction false} ArrayReads(parse: Numbers, render: Double -> string, items: seq<Json>, x: string)
    requires ReadsNumbers(parse, render) && forall i :: 0 <= i < |items| ==> Printable(items[i])
    ensures ReadValue(parse, "[" + ItemsText(render, items) + "]" + x) == Some((JArray(items), x))
    decreases items, 1
  {
    ItemsRead(parse, render, items, "]" + x);
    assert ("]" + x)[1..] == x;
    ReadsArray(parse, ItemsText(render, items) + ("]" + x), items, x);
    assert "[" + ItemsText(render, items) + "]" + x == "[" + (ItemsText(render, items) + ("]" + x));
  }

  lemma {:induction false} ObjectReads(parse: Numbers, render: Double -> string, fields: seq<Field>, x: string)
    requires ReadsNumbers(parse, render) && forall i :: 0 <= i < |fields| ==> Printable(fields[i].value)
    ensures ReadValue(parse, "{" + FieldsText(render, fields) + "}" + x) == Some((JObject(fields), x))
    decreases fields, 1
  {
    FieldsRead(parse, render, fields, "}" + x);
    assert ("}" + x)[1..] == x;
    ReadsObject(parse, FieldsText(render, fields) + ("}" + x), fields, x);
    assert "{" + FieldsText(render, fields) + "}" + x == "{" + (FieldsText(render, fields) + ("}" + x));
  }

  lemma LastItem(parse: Numbers, s: string, head: Json, rest: string)
    requires s != "" && s[0] != ']' && ReadValue(parse, s) == Some((head, rest)) && rest != "" && rest[0] == ']'
    ensures ReadItems(parse, s) == Some(([head], rest[1..]))
  {
  }

  lemma MoreItems(parse: Numbers, s: string, head: Json, rest: string, tail: seq<Json>, after: string)
    requires s != "" && s[0] != ']' && ReadValue(parse, s) == Some((head, rest)) && rest != "" && rest[0] == ','
    requires ReadItems(parse, rest[1..]) == Some((tail, after)) && tail != []
    ensures ReadItems(parse, s) == Some(([head] + tail, after))
  {
  }

  lemma {:induction false} ItemsRead(parse: Numbers, render: Double -> string, items: seq<Json>, x: string)
    requires ReadsNumbers(parse, render) && (forall i :: 0 <= i < |items| ==> Printable(items[i])) && x != ""
    requires x[0] == ']'
    ensures ReadItems(parse, ItemsText(render, items) + x) == Some((items, x[1..]))
    decreases items, 0
  {
    ItemsStart(render, items, x);
    if items == [] {
      assert ItemsText(render, items) + x == x;
    } else {
      var s, rest := ItemsText(render, items) + x, ItemsRest(render, items, x);
      ItemsSplit(render, items, x);
      TextReads(parse, render, items[0], rest);
      if |items| == 1 {
        LastItem(parse, s, items[0], rest);
        assert items == [items[0]] && rest == x;
      } else {
        assert rest[1..] == ItemsText(render, items[1..]) + x;
        ItemsRead(parse, render, items[1..], x);
        MoreItems(parse, s, items[0], rest, items[1..], x[1..]);
      }
      assert [items[0]] + items[1..] == items;
    }
  }

  lemma LastField(parse: Numbers, s: string, head: Field, rest: string)
    requires s != "" && s[0] != '}' && ReadField(parse, s) == Some((head, rest)) && rest != "" && rest[0] == '}'
    ensures ReadFields(parse, s) == Some(([head], rest[1..]))
  {
  }

  lemma MoreFields(parse: Numbers, s: string, head: Field, rest: string, tail: seq<Field>, after: string)
    requires s != "" && s[0] != '}' && ReadField(parse, s) == Some((head, rest)) && rest != "" && rest[0] == ','
    requires ReadFields(parse, rest[1..]) == Some((tail, after)) && tail != []
    ensures ReadFields(parse, s) == Some(([head] + tail, after))
  {
  }

  lemma {:induction false} FieldsRead(parse: Numbers, render: Double -> string, fields: seq<Field>, x: string)
    requires ReadsNumbers(parse, render) && (forall i :: 0 <= i < |fields| ==> Printable(fields[i].value)) && x != ""
    requires x[0] == '}'
    ensures ReadFields(parse, FieldsText(render, fields) + x) == Some((fields, x[1..]))
    decreases fields, 0
  {
    FieldsStart(render, fields, x);
    if fields == [] {
      assert FieldsText(render, fields) + x == x;
    } else {
      var s, rest := FieldsText(render, fields) + x, FieldsRest(render, fields, x);
      TextReads(parse, render, fields[0].value, rest);
      FirstFieldReads(parse, render, fields, x);
      if |fields| == 1 {
        LastField(parse, s, fields[0], rest);
        assert fields == [fields[0]] && rest == x;
      } else {
        FieldsRead(parse, render, fields[1..], x);
        assert rest[1..] == FieldsText(render, fields[1..]) + x;
        MoreFields(parse, s, fields[0], rest, fields[1..], x[1..]);
        assert [fields[0]] + fields[1..] == fields;
      }
    }
  }

  lemma FirstFieldReads(parse: Numbers, render: Double -> string, fields: seq<Field>, x: string)
    requires fields != []
    requires ReadValue(parse, Text(render, fields[0].value) + FieldsRest(render, fields, x))
          == Some((fields[0].value, FieldsRest(render, fields, x)))
    ensures ReadField(parse, FieldsText(render, fields) + x) == Some((fields[0], FieldsRest(render, fields, x)))
  {
    FieldsSplit(render, fields, x);
    FieldReads(parse, render, fields[0], FieldsRest(render, fields, x));
  }

  lemma FieldReads(parse: Numbers, render: Double -> string, f: Field, rest: string)
    requires ReadValue(parse, Text(render, f.value) + rest) == Some((f.value, rest))
    ensures ReadField(parse, Quote(f.key) + (":" + (Text(render, f.value) + rest))) == Some((f, rest))
  {
    var after := ":" + (Text(render, f.value) + rest);
    ReadsQuote(f.key, after);
    assert after[1..] == Text(render, f.value) + rest;
  }

  // ---- The canonical text ----

  /** The fields of every object stand in ascending order of their keys, at every depth. */
  ghost predicate KeysAscend(j: Json)
    decreases j
  {
    match j
    case JArray(items) => forall i :: 0 <= i < |items| ==> KeysAscend(items[i])
    case JObject(fields) =>
      && (forall i, k :: 0 <= i < k < |fields| ==> TextBefore(fields[i].key, fields[k].key))
      && (forall i :: 0 <= i < |fields| ==> KeysAscend(fields[i].value))
    case _ => true
  }

  lemma {:induction false} CanonAscends(j: Json)
    requires WellFormed(j)
    ensures KeysAscend(Canon(j))
    decreases j
  {
    match j
    case JArray(items) =>
      CanonItemsAt(items);
      forall i | 0 <= i < |items| ensures KeysAscend(Canon(items[i])) {
        CanonAscends(items[i]);
      }
    case JObject(fields) =>
      CanonFieldsAt(fields);
      forall i | 0 <= i < |fields| ensures KeysAscend(CanonFields(fields)[i].value) {
        CanonAscends(fields[i].value);
      }
      SortedFieldsAscend(CanonFields(fields));
    case _ =>
  }

  lemma SortedFieldsAscend(fields: seq<Field>)
    requires KeysDiffer(fields) && forall i :: 0 <= i < |fields| ==> KeysAscend(fields[i].value)
    ensures KeysAscend(JObject(Sort(fields, FieldKey())))
  {
    var sorted := Sort(fields, FieldKey());
    SortSorted(fields, FieldKey());
    SortPermutes(fields, FieldKey());
    KeysDifferPermuted(fields, sorted);
    forall i | 0 <= i < |sorted| ensures KeysAscend(sorted[i].value) {
      SortMember(fields, FieldKey(), sorted[i]);
    }
    forall i, k | 0 <= i < k < |sorted| ensures TextBefore(sorted[i].key, sorted[k].key) {
      Utf16OrderMeans(sorted[i].key, sorted[k].key);
      assert KeyLe(FieldKey()(sorted[i]), FieldKey()(sorted[k]));
    }
  }

  /**
   The canonical text of a definition reads back, to the end, as an object with ascending keys at every depth that means
   what the definition means.
   */
  lemma CanonicalReadsBack(parse: Numbers, render: Double -> string, definition: Json)
    requires ReadsNumbers(parse, render) && WellFormed(definition) && CanonicalConversionSchema(render, definition).Ok?
    ensures var read := ReadValue(parse, CanonicalConversionSchema(render, definition).value);
            && read.Some? && read.value.1 == "" && read.value.0.JObject? && KeysAscend(read.value.0)
            && Meaning(read.value.0) == Meaning(definition)
  {
    PrintIsTextOfCanon(render, definition);
    CanonPrintable(definition);
    var text := Text(render, Canon(definition));
    TextReads(parse, render, Canon(definition), "");
    assert text + "" == text;
    CanonAscends(definition);
    CanonKeepsMeaning(definition);
  }
}
