/** `canonical_json_bytes`: JSON with sorted keys, no insignificant whitespace, non-ASCII characters
kept, encoded as UTF-8. Strings are escaped as in section 7 of RFC 8259.

The values are those a contract record dumps to: no floats. An object is a map, so the order in which
Python inserted its keys is not part of a value. */
module CanonicalJson {
  import opened Ordering
  import Decimal
  import opened Utf8

  datatype Value =
    | Null
    | Bool(b: bool)
    | Int(n: int)
    | Text(s: string)
    | List(items: seq<Value>)
    | Dict(fields: map<string, Value>)

  // ---------------------------------------------------------------------------------------------
  // Serialisation
  // ---------------------------------------------------------------------------------------------

  function HexChar(d: nat): char
    requires d < 16
  {
    if d < 10 then ('0' as int + d) as char else ('a' as int + d - 10) as char
  }

  function Escape(c: char): string {
    match c
    case '"' => ['\\', '"']
    case '\\' => ['\\', '\\']
    case '\n' => ['\\', 'n']
    case '\r' => ['\\', 'r']
    case '\t' => ['\\', 't']
    case '\U{08}' => ['\\', 'b']
    case '\U{0C}' => ['\\', 'f']
    case _ =>
      if c as int < 0x20 then ['\\', 'u', '0', '0', HexChar(c as int / 16), HexChar(c as int % 16)]
      else [c]
  }

  function EscapeAll(s: string): string {
    if s == "" then "" else Escape(s[0]) + EscapeAll(s[1..])
  }

  function Quote(s: string): string {
    ['"'] + EscapeAll(s) + ['"']
  }

  function IntText(n: int): string {
    if n < 0 then "-" + Decimal.Text(-n) else Decimal.Text(n)
  }

  function Serialize(v: Value): string
    decreases v, 1, 0
  {
    match v
    case Null => "null"
    case Bool(b) => if b then "true" else "false"
    case Int(n) => IntText(n)
    case Text(s) => Quote(s)
    case List(_) => "[" + (Items(v, 0) + "]")
    case Dict(fields) => "{" + (Members(v, SortedStrings(fields.Keys), 0) + "}")
  }

  /** The items from position `i` on, each but the first preceded by a comma. */
  function Items(v: Value, i: nat): string
    requires v.List? && i <= |v.items|
    decreases v, 0, |v.items| - i
  {
    if i == |v.items| then "" else Comma(i) + (Serialize(v.items[i]) + Items(v, i + 1))
  }

  function Members(v: Value, keys: seq<string>, i: nat): string
    requires v.Dict? && i <= |keys| && forall k :: k in keys ==> k in v.fields
    decreases v, 0, |keys| - i
  {
    if i == |keys| then "" else
      Comma(i) + (Quote(keys[i]) + (":" + (Serialize(v.fields[keys[i]]) + Members(v, keys, i + 1))))
  }

  function Comma(i: nat): string { if i > 0 then "," else "" }

  function CanonicalBytes(v: Value): Bytes {
    Encode(Serialize(v))
  }

  // ---------------------------------------------------------------------------------------------
  // Strings are recovered
  // ---------------------------------------------------------------------------------------------

  function HexValue(c: char): int {
    if c <= '9' then c as int - '0' as int else c as int - 'a' as int + 10
  }

  /** The character an escaped string starts with, and how many characters it takes. */
  function Unescape(s: string): (int, nat)
    requires s != ""
  {
    if s[0] != '\\' then (s[0] as int, 1)
    else if |s| < 2 then (0, 0)
    else match s[1]
      case 'n' => ('\n' as int, 2)
      case 'r' => ('\r' as int, 2)
      case 't' => ('\t' as int, 2)
      case 'b' => (8, 2)
      case 'f' => (12, 2)
      case 'u' => if |s| < 6 then (0, 0) else (HexValue(s[4]) * 16 + HexValue(s[5]), 6)
      case c => (c as int, 2)
  }

  lemma UnescapeEscape(c: char, rest: string)
    ensures Escape(c) != "" && Escape(c)[0] != '"'
    ensures Unescape(Escape(c) + rest) == (c as int, |Escape(c)|)
  {
    var s := Escape(c) + rest;
    assert forall i :: 0 <= i < |Escape(c)| ==> s[i] == Escape(c)[i];
  }

  lemma {:induction false} EscapePrefix(s: string, t: string, x: string, y: string)
    requires EscapeAll(s) + (['"'] + x) == EscapeAll(t) + (['"'] + y)
    ensures s == t && x == y
  {
    var whole := EscapeAll(s) + (['"'] + x);
    if s != "" { EscapedHead(s, ['"'] + x); }
    if t != "" { EscapedHead(t, ['"'] + y); }
    if s == "" || t == "" {
      assert whole[0] == '"';
      assert s == t;
      assert x == whole[1..] && y == whole[1..];
    } else {
      assert s[0] == t[0];
      EscapePrefix(s[1..], t[1..], x, y);
      assert s == [s[0]] + s[1..] && t == [t[0]] + t[1..];
    }
  }

  lemma Reassociate(a: string, b: string, c: string)
    ensures (a + b) + c == a + (b + c)
  {
  }

  /** The head of an escaped, non-empty string is its first character; its tail is the rest, escaped. */
  lemma EscapedHead(s: string, after: string)
    requires s != ""
    ensures var whole := EscapeAll(s) + after;
            && whole != "" && whole[0] != '"'
            && Unescape(whole) == (s[0] as int, |Escape(s[0])|)
            && |Escape(s[0])| <= |whole|
            && EscapeAll(s[1..]) + after == whole[|Escape(s[0])|..]
  {
    var whole := EscapeAll(s) + after;
    var head, tail := Escape(s[0]), EscapeAll(s[1..]) + after;
    assert whole == head + tail by {
      Reassociate(head, EscapeAll(s[1..]), after);
    }
    UnescapeEscape(s[0], tail);
    assert whole[0] == head[0] && whole[|head|..] == tail;
  }

  lemma QuoteShape(s: string, x: string)
    ensures Quote(s) + x == ['"'] + (EscapeAll(s) + (['"'] + x))
  {
    Reassociate(['"'] + EscapeAll(s), ['"'], x);
    Reassociate(['"'], EscapeAll(s), ['"'] + x);
  }

  lemma QuotePrefix(s: string, t: string, x: string, y: string)
    requires Quote(s) + x == Quote(t) + y
    ensures s == t && x == y
  {
    QuoteShape(s, x);
    QuoteShape(t, y);
    Cancel(['"'], EscapeAll(s) + (['"'] + x), EscapeAll(t) + (['"'] + y));
    EscapePrefix(s, t, x, y);
  }

  // ---------------------------------------------------------------------------------------------
  // Values are recovered
  // ---------------------------------------------------------------------------------------------

  /** What may follow a value: nothing, or a character no value starts or continues with. */
  predicate Stops(x: string) {
    x == "" || x[0] in {',', ']', '}'}
  }

  lemma Cancel(p: string, a: string, b: string)
    requires p + a == p + b
    ensures a == b
  {
    assert a == (p + a)[|p|..] && b == (p + b)[|p|..];
  }

  /** The first character of a value tells its constructor. */
  function Opening(v: Value): set<char> {
    match v
    case Null => {'n'}
    case Bool(b) => if b then {'t'} else {'f'}
    case Int(_) => {'-', '0', '1', '2', '3', '4', '5', '6', '7', '8', '9'}
    case Text(_) => {'"'}
    case List(_) => {'['}
    case Dict(_) => {'{'}
  }

  lemma StartsWithOpening(v: Value)
    ensures Serialize(v) != "" && Serialize(v)[0] in Opening(v)
  {
  }

  function Magnitude(n: int): string {
    Decimal.Text(if n < 0 then -n else n)
  }

  lemma IntShape(n: int, x: string)
    ensures var whole := IntText(n) + x;
            && whole != ""
            && (n < 0 <==> whole[0] == '-')
            && Magnitude(n) + x == if whole[0] == '-' then whole[1..] else whole
  {
    if n < 0 {
      Reassociate("-", Magnitude(n), x);
    }
  }

  lemma IntPrefix(m: int, n: int, x: string, y: string)
    requires IntText(m) + x == IntText(n) + y && Stops(x) && Stops(y)
    ensures m == n && x == y
  {
    IntShape(m, x);
    IntShape(n, y);
    Decimal.NumeralPrefix(Magnitude(m), Magnitude(n), x, y);
  }

  lemma ListShape(v: Value, x: string)
    requires v.List?
    ensures Serialize(v) + x == "[" + (Items(v, 0) + ("]" + x))
  {
    Reassociate("[", Items(v, 0) + "]", x);
    Reassociate(Items(v, 0), "]", x);
  }

  lemma DictShape(v: Value, x: string)
    requires v.Dict?
    ensures Serialize(v) + x == "{" + (Members(v, SortedStrings(v.fields.Keys), 0) + ("}" + x))
  {
    var members := Members(v, SortedStrings(v.fields.Keys), 0);
    Reassociate("{", members + "}", x);
    Reassociate(members, "}", x);
  }

  lemma {:induction false} SerializePrefix(v: Value, w: Value, x: string, y: string)
    requires Serialize(v) + x == Serialize(w) + y && Stops(x) && Stops(y)
    ensures v == w && x == y
    decreases v, 1, 0
  {
    StartsWithOpening(v);
    StartsWithOpening(w);
    assert (Serialize(v) + x)[0] in Opening(v) && (Serialize(w) + y)[0] in Opening(w);
    match v
    case Null => Cancel("null", x, y);
    case Bool(b) => Cancel(Serialize(v), x, y);
    case Int(n) => IntPrefix(n, w.n, x, y);
    case Text(s) => QuotePrefix(s, w.s, x, y);
    case List(_) => ListPrefix(v, w, x, y);
    case Dict(_) => DictPrefix(v, w, x, y);
  }

  lemma {:induction false} ListPrefix(v: Value, w: Value, x: string, y: string)
    requires v.List? && w.List? && Serialize(v) + x == Serialize(w) + y
    ensures v == w && x == y
    decreases v, 0, |v.items| + 1
  {
    ListShape(v, x);
    ListShape(w, y);
    Cancel("[", Items(v, 0) + ("]" + x), Items(w, 0) + ("]" + y));
    ItemsPrefix(v, w, 0, x, y);
    assert v.items[0..] == v.items && w.items[0..] == w.items;
  }

  lemma {:induction false} DictPrefix(v: Value, w: Value, x: string, y: string)
    requires v.Dict? && w.Dict? && Serialize(v) + x == Serialize(w) + y
    ensures v == w && x == y
    decreases v, 0, |v.fields| + 1
  {
    var kv, kw := SortedStrings(v.fields.Keys), SortedStrings(w.fields.Keys);
    DictShape(v, x);
    DictShape(w, y);
    Cancel("{", Members(v, kv, 0) + ("}" + x), Members(w, kw, 0) + ("}" + y));
    MembersPrefix(v, w, kv, kw, 0, x, y);
    assert kv[0..] == kv && kw[0..] == kw;
    SameFields(v.fields, w.fields, kv);
  }

  lemma SameFields(a: map<string, Value>, b: map<string, Value>, keys: seq<string>)
    requires a.Keys == Elements(keys) && b.Keys == Elements(keys)
    requires forall j :: 0 <= j < |keys| ==> a[keys[j]] == b[keys[j]]
    ensures a == b
  {
    forall k | k in a ensures a[k] == b[k] {
      assert k in Elements(keys);
      var j :| 0 <= j < |keys| && keys[j] == k;
    }
  }

  lemma Head<T>(s: seq<T>, i: nat)
    requires i < |s|
    ensures s[i..] == [s[i]] + s[i + 1..]
  {
  }

  lemma ItemsStop(v: Value, i: nat, x: string)
    requires v.List? && 0 < i <= |v.items|
    ensures Stops(Items(v, i) + ("]" + x))
  {
  }

  lemma ItemsShape(v: Value, i: nat, x: string)
    requires v.List? && i < |v.items|
    ensures Items(v, i) + ("]" + x) == Comma(i) + (Serialize(v.items[i]) + (Items(v, i + 1) + ("]" + x)))
    ensures Stops(Items(v, i + 1) + ("]" + x))
    ensures (Items(v, i) + ("]" + x))[0] != ']'
  {
    var value, more, after := Serialize(v.items[i]), Items(v, i + 1), "]" + x;
    Reassociate(value, more, after);
    Reassociate(Comma(i), value + more, after);
    ItemsStop(v, i + 1, x);
    StartsWithOpening(v.items[i]);
  }

  lemma {:induction false} ItemsPrefix(v: Value, w: Value, i: nat, x: string, y: string)
    requires v.List? && w.List? && i <= |v.items| && i <= |w.items|
    requires Items(v, i) + ("]" + x) == Items(w, i) + ("]" + y)
    ensures v.items[i..] == w.items[i..] && x == y
    decreases v, 0, |v.items| - i
  {
    if i < |v.items| { ItemsShape(v, i, x); }
    if i < |w.items| { ItemsShape(w, i, y); }
    if i < |v.items| && i < |w.items| {
      var restV, restW := Items(v, i + 1) + ("]" + x), Items(w, i + 1) + ("]" + y);
      Cancel(Comma(i), Serialize(v.items[i]) + restV, Serialize(w.items[i]) + restW);
      SerializePrefix(v.items[i], w.items[i], restV, restW);
      ItemsPrefix(v, w, i + 1, x, y);
      Head(v.items, i);
      Head(w.items, i);
    } else {
      assert i == |v.items| ==> Items(v, i) + ("]" + x) == "]" + x;
      assert i == |w.items| ==> Items(w, i) + ("]" + y) == "]" + y;
      Cancel("]", x, y);
    }
  }

  lemma MembersShape(v: Value, keys: seq<string>, i: nat, x: string)
    requires v.Dict? && i < |keys| && forall k :: k in keys ==> k in v.fields
    ensures var rest := Members(v, keys, i + 1) + ("}" + x);
            && Members(v, keys, i) + ("}" + x)
               == Comma(i) + (Quote(keys[i]) + (":" + (Serialize(v.fields[keys[i]]) + rest)))
            && Stops(rest)
    ensures (Members(v, keys, i) + ("}" + x))[0] != '}'
  {
    var key, value, more := Quote(keys[i]), Serialize(v.fields[keys[i]]), Members(v, keys, i + 1);
    var after := "}" + x;
    Reassociate(value, more, after);
    Reassociate(":", value + more, after);
    Reassociate(key, ":" + (value + more), after);
    Reassociate(Comma(i), key + (":" + (value + more)), after);
  }

  /** Two member texts at the same position start with the same key. */
  lemma MemberKey(v: Value, w: Value, k: string, l: string, i: nat, restV: string, restW: string)
    requires v.Dict? && w.Dict? && k in v.fields && l in w.fields
    requires Comma(i) + (Quote(k) + (":" + (Serialize(v.fields[k]) + restV)))
          == Comma(i) + (Quote(l) + (":" + (Serialize(w.fields[l]) + restW)))
    ensures k == l && Serialize(v.fields[k]) + restV == Serialize(w.fields[l]) + restW
  {
    var valueV, valueW := Serialize(v.fields[k]) + restV, Serialize(w.fields[l]) + restW;
    Cancel(Comma(i), Quote(k) + (":" + valueV), Quote(l) + (":" + valueW));
    QuotePrefix(k, l, ":" + valueV, ":" + valueW);
    Cancel(":", valueV, valueW);
  }

  lemma {:induction false} MembersPrefix(v: Value, w: Value, kv: seq<string>, kw: seq<string>, i: nat,
                                         x: string, y: string)
    requires v.Dict? && w.Dict? && i <= |kv| && i <= |kw|
    requires (forall k :: k in kv ==> k in v.fields) && (forall k :: k in kw ==> k in w.fields)
    requires Members(v, kv, i) + ("}" + x) == Members(w, kw, i) + ("}" + y)
    ensures kv[i..] == kw[i..] && x == y
    ensures forall j :: i <= j < |kv| ==> v.fields[kv[j]] == w.fields[kw[j]]
    decreases v, 0, |kv| - i
  {
    if i < |kv| { MembersShape(v, kv, i, x); }
    if i < |kw| { MembersShape(w, kw, i, y); }
    if i < |kv| && i < |kw| {
      var restV, restW := Members(v, kv, i + 1) + ("}" + x), Members(w, kw, i + 1) + ("}" + y);
      MemberKey(v, w, kv[i], kw[i], i, restV, restW);
      SerializePrefix(v.fields[kv[i]], w.fields[kw[i]], restV, restW);
      MembersPrefix(v, w, kv, kw, i + 1, x, y);
      Head(kv, i);
      Head(kw, i);
    } else {
      assert i == |kv| ==> Members(v, kv, i) + ("}" + x) == "}" + x;
      assert i == |kw| ==> Members(w, kw, i) + ("}" + y) == "}" + y;
      Cancel("}", x, y);
    }
  }

  // ---------------------------------------------------------------------------------------------
  // The texts are those of the grammar
  // ---------------------------------------------------------------------------------------------

  /** Only quotes, backslashes and control characters are escaped. */
  lemma EscapedExactly(c: char)
    ensures Escape(c) == [c] <==> c != '"' && c != '\\' && c as int >= 0x20
  {
  }

  /** The body of a string token, one character or escape at a time. */
  predicate Unescapes(body: string, s: string)
    decreases |s|
  {
    if s == "" then body == ""
    else
      && body != "" && body[0] != '"'
      && var (c, n) := Unescape(body);
         c == s[0] as int && 0 < n <= |body| && Unescapes(body[n..], s[1..])
  }

  predicate IsStringToken(text: string, s: string) {
    |text| >= 2 && text[0] == '"' && text[|text| - 1] == '"' && Unescapes(text[1..|text| - 1], s)
  }

  /** Digits without leading zeros, after a sign if negative. */
  predicate IsNumberToken(text: string, n: int) {
    if n < 0 then text != "" && text[0] == '-' && IsDigits(text[1..], -n) else IsDigits(text, n)
  }

  predicate IsDigits(digits: string, n: int) {
    && digits != "" && (forall i :: 0 <= i < |digits| ==> '0' <= digits[i] <= '9')
    && (digits[0] == '0' ==> |digits| == 1)
    && Decimal.AllDigits(digits) && Decimal.Value(digits) == n
  }

  /** Parts separated by single commas. */
  function Separated(parts: seq<string>): string {
    if parts == [] then "" else if |parts| == 1 then parts[0] else parts[0] + ("," + Separated(parts[1..]))
  }

  /** The text of a value in the grammar of RFC 8259, without whitespace and with members in the order of
  their names. */
  ghost predicate Renders(text: string, v: Value)
    decreases v, 2
  {
    match v
    case Null => text == "null"
    case Bool(b) => text == if b then "true" else "false"
    case Int(n) => IsNumberToken(text, n)
    case Text(s) => IsStringToken(text, s)
    case List(items) =>
      exists parts: seq<string> :: text == "[" + (Separated(parts) + "]") && ItemsRender(parts, v)
    case Dict(fields) =>
      exists names: seq<string>, parts: seq<string> ::
        && text == "{" + (Separated(parts) + "}")
        && StrictlySorted(names) && Elements(names) == fields.Keys
        && MembersRender(parts, names, v)
  }

  ghost predicate ItemsRender(parts: seq<string>, v: Value)
    requires v.List?
    decreases v, 1
  {
    |parts| == |v.items| && forall i :: 0 <= i < |parts| ==> Renders(parts[i], v.items[i])
  }

  ghost predicate MembersRender(parts: seq<string>, names: seq<string>, v: Value)
    requires v.Dict? && Elements(names) == v.fields.Keys
    decreases v, 1
  {
    |parts| == |names| && forall i :: 0 <= i < |parts| ==>
      assert names[i] in Elements(names);
      MemberRenders(parts[i], names[i], v.fields[names[i]])
  }

  ghost predicate MemberRenders(part: string, name: string, v: Value)
    decreases v, 3
  {
    exists key: string, value: string ::
      part == key + (":" + value) && IsStringToken(key, name) && Renders(value, v)
  }

  lemma {:induction false} EscapeAllUnescapes(s: string)
    ensures Unescapes(EscapeAll(s), s)
  {
    if s != "" {
      EscapedHead(s, "");
      assert EscapeAll(s) + "" == EscapeAll(s) && EscapeAll(s[1..]) + "" == EscapeAll(s[1..]);
      EscapeAllUnescapes(s[1..]);
    }
  }

  lemma QuoteIsToken(s: string)
    ensures IsStringToken(Quote(s), s)
  {
    EscapeAllUnescapes(s);
    assert Quote(s)[1..|Quote(s)| - 1] == EscapeAll(s);
  }

  lemma IntTextIsToken(n: int)
    ensures IsNumberToken(IntText(n), n)
  {
    assert |Decimal.Text(0)| == 1;
    if n < 0 {
      assert IntText(n)[1..] == Decimal.Text(-n);
    }
  }

  function ItemTexts(v: Value): seq<string>
    requires v.List?
  {
    seq(|v.items|, i requires 0 <= i < |v.items| => Serialize(v.items[i]))
  }

  function MemberTexts(v: Value, keys: seq<string>): seq<string>
    requires v.Dict? && forall k :: k in keys ==> k in v.fields
  {
    seq(|keys|, i requires 0 <= i < |keys| => Quote(keys[i]) + (":" + Serialize(v.fields[keys[i]])))
  }

  lemma {:induction false} ItemsSeparated(v: Value, i: nat)
    requires v.List? && i <= |v.items|
    ensures i < |v.items| ==> Items(v, i) == Comma(i) + Separated(ItemTexts(v)[i..])
    ensures i == |v.items| ==> Items(v, i) == ""
    decreases |v.items| - i
  {
    if i < |v.items| {
      ItemsSeparated(v, i + 1);
      var parts := ItemTexts(v)[i..];
      assert parts[1..] == ItemTexts(v)[i + 1..];
    }
  }

  lemma {:induction false} MembersSeparated(v: Value, keys: seq<string>, i: nat)
    requires v.Dict? && i <= |keys| && forall k :: k in keys ==> k in v.fields
    ensures i < |keys| ==> Members(v, keys, i) == Comma(i) + Separated(MemberTexts(v, keys)[i..])
    ensures i == |keys| ==> Members(v, keys, i) == ""
    decreases |keys| - i
  {
    if i < |keys| {
      MembersSeparated(v, keys, i + 1);
      var parts := MemberTexts(v, keys)[i..];
      assert parts[1..] == MemberTexts(v, keys)[i + 1..];
      var key, value, more := Quote(keys[i]), Serialize(v.fields[keys[i]]), Members(v, keys, i + 1);
      Reassociate(":", value, more);
      Reassociate(key, ":" + value, more);
    }
  }

  lemma ListRenders(v: Value, parts: seq<string>)
    requires v.List? && ItemsRender(parts, v)
    ensures Renders("[" + (Separated(parts) + "]"), v)
  {
  }

  lemma DictRenders(v: Value, names: seq<string>, parts: seq<string>)
    requires v.Dict? && StrictlySorted(names) && Elements(names) == v.fields.Keys
    requires MembersRender(parts, names, v)
    ensures Renders("{" + (Separated(parts) + "}"), v)
  {
  }

  lemma MemberTextRenders(name: string, v: Value)
    requires Renders(Serialize(v), v)
    ensures MemberRenders(Quote(name) + (":" + Serialize(v)), name, v)
  {
    QuoteIsToken(name);
  }

  /** Serialisation writes every value as the grammar does. */
  lemma {:induction false} SerializeRenders(v: Value)
    ensures Renders(Serialize(v), v)
    decreases v, 1
  {
    match v
    case Null =>
    case Bool(_) =>
    case Int(n) => IntTextIsToken(n);
    case Text(s) => QuoteIsToken(s);
    case List(_) => SerializeListRenders(v);
    case Dict(_) => SerializeDictRenders(v);
  }

  lemma {:induction false} SerializeListRenders(v: Value)
    requires v.List?
    ensures Renders(Serialize(v), v)
    decreases v, 0
  {
    var parts := ItemTexts(v);
    ItemsSeparated(v, 0);
    assert parts[0..] == parts;
    forall i | 0 <= i < |parts| ensures Renders(parts[i], v.items[i]) {
      SerializeRenders(v.items[i]);
    }
    ListRenders(v, parts);
    assert Items(v, 0) == Separated(parts);
  }

  lemma {:induction false} SerializeDictRenders(v: Value)
    requires v.Dict?
    ensures Renders(Serialize(v), v)
    decreases v, 0
  {
    var names := SortedStrings(v.fields.Keys);
    var parts := MemberTexts(v, names);
    MembersSeparated(v, names, 0);
    assert parts[0..] == parts;
    forall i | 0 <= i < |names|
      ensures names[i] in v.fields && MemberRenders(parts[i], names[i], v.fields[names[i]])
    {
      assert names[i] in Elements(names);
      SerializeRenders(v.fields[names[i]]);
      MemberTextRenders(names[i], v.fields[names[i]]);
    }
    DictRenders(v, names, parts);
    assert Members(v, names, 0) == Separated(parts);
  }

  /** The canonical bytes are the encoding of that text. */
  lemma CanonicalBytesRender(v: Value) returns (text: string)
    ensures CanonicalBytes(v) == Encode(text) && Renders(text, v)
  {
    text := Serialize(v);
    SerializeRenders(v);
  }

  /** Distinct values have distinct canonical bytes. */
  lemma CanonicalBytesInjective(v: Value, w: Value)
    requires CanonicalBytes(v) == CanonicalBytes(w)
    ensures v == w
  {
    EncodeInjective(Serialize(v), Serialize(w));
    assert Serialize(v) + "" == Serialize(v) && Serialize(w) + "" == Serialize(w);
    SerializePrefix(v, w, "", "");
  }
}
