/**
 * The text the watchlist keeps in browser storage. `Encode` is a canonical
 * JSON writer for the favourites array over the six fields of `Media.Item`:
 * keys in one fixed order, an absent field omitted (as JSON.stringify does
 * for `undefined`), strings escaped as JSON.stringify escapes them. `Decode`
 * stands for JSON.parse: it reads everything the writer produces, and also
 * `\/`, any `\u` escape of four hexadecimal digits in either case that is
 * not a surrogate, and `-0`; it fails, where JSON.parse may not, on
 * whitespace, other keys, another key order, `null` values, fractional
 * or exponent numbers and `\u` escapes of surrogates.
 */
module Json {
  import opened Wrappers
  import opened Media

  /** What a reader hands back: the value it read and the text after it. */
  datatype Parsed<+T> = Parsed(value: T, rest: string)

  // ---------------------------------------------------------------- integers

  predicate IsDigit(c: char) {
    '0' <= c <= '9'
  }

  function DigitChar(d: nat): (c: char)
    requires d < 10
    ensures IsDigit(c) && c as int - '0' as int == d
  {
    ('0' as int + d) as char
  }

  /** Decimal digits of `n`, most significant first, with no leading zero. */
  function NatText(n: nat): (s: string)
    ensures |s| > 0
    ensures forall i :: 0 <= i < |s| ==> IsDigit(s[i])
    ensures (s[0] == '0') == (n == 0)
    ensures (|s| == 1) == (n < 10)
    decreases n
  {
    if n < 10 then [DigitChar(n)] else NatText(n / 10) + [DigitChar(n % 10)]
  }

  function DigitOf(c: char): nat
    requires IsDigit(c)
  {
    c as int - '0' as int
  }

  /** The number a run of decimal digits denotes. */
  function DigitsValue(ds: string): nat
    requires forall i :: 0 <= i < |ds| ==> IsDigit(ds[i])
  {
    if ds == [] then 0 else DigitsValue(ds[..|ds| - 1]) * 10 + DigitOf(ds[|ds| - 1])
  }

  lemma {:induction false} NatTextValue(n: nat)
    ensures DigitsValue(NatText(n)) == n
    decreases n
  {
    var s := NatText(n);
    if n < 10 {
      assert s[..0] == [];
    } else {
      NatTextValue(n / 10);
      assert s[..|s| - 1] == NatText(n / 10);
    }
  }

  /** Length of the run of digits that starts `s`. */
  function DigitSpan(s: string): (k: nat)
    ensures k <= |s|
    ensures forall i :: 0 <= i < k ==> IsDigit(s[i])
    ensures k < |s| ==> !IsDigit(s[k])
  {
    if s != [] && IsDigit(s[0]) then 1 + DigitSpan(s[1..]) else 0
  }

  /** A JSON natural number: a non-empty digit run that does not start with a redundant zero. */
  function ParseNat(s: string): (r: Option<Parsed<nat>>)
    ensures r.Some? ==> |r.value.rest| < |s|
  {
    var k := DigitSpan(s);
    if k == 0 || (k > 1 && s[0] == '0') then None
    else Some(Parsed(DigitsValue(s[..k]), s[k..]))
  }

  lemma ParseNatText(n: nat, rest: string)
    requires rest == [] || !IsDigit(rest[0])
    ensures ParseNat(NatText(n) + rest) == Some(Parsed(n, rest))
  {
    var ds := NatText(n);
    var s := ds + rest;
    var k := DigitSpan(s);
    assert forall i :: 0 <= i < |ds| ==> s[i] == ds[i];
    assert rest != [] ==> s[|ds|] == rest[0];
    assert k == |ds|;
    assert s[..k] == ds;
    assert s[k..] == rest;
    NatTextValue(n);
  }

  /** How JSON.stringify writes an integer: its decimal digits, after a minus sign when negative. */
  function IntText(i: int): string {
    if i < 0 then "-" + NatText(-i) else NatText(i)
  }

  function ParseInt(s: string): (r: Option<Parsed<int>>)
    ensures r.Some? ==> |r.value.rest| < |s|
  {
    var negative := s != [] && s[0] == '-';
    match ParseNat(if negative then s[1..] else s)
    case None => None
    case Some(p) =>
      var value: int := if negative then -(p.value as int) else p.value;
      Some(Parsed(value, p.rest))
  }

  /** Writing an integer and reading it back gives the integer and leaves what follows untouched. */
  lemma ParseIntText(i: int, rest: string)
    requires rest == [] || !IsDigit(rest[0])
    ensures ParseInt(IntText(i) + rest) == Some(Parsed(i, rest))
  {
    var n: nat := if i < 0 then -i else i;
    ParseNatText(n, rest);
    var digits := NatText(n) + rest;
    assert IsDigit(digits[0]);
    if i < 0 {
      assert IntText(i) + rest == "-" + digits;
      ParseNegative("-" + digits);
    } else {
      assert IntText(i) + rest == digits;
    }
  }

  /** A leading minus sign negates the natural number after it. */
  lemma ParseNegative(s: string)
    requires s != [] && s[0] == '-' && ParseNat(s[1..]).Some?
    ensures ParseInt(s) == Some(Parsed(-(ParseNat(s[1..]).value.value as int), ParseNat(s[1..]).value.rest))
  {
  }

  // ----------------------------------------------------------------- strings

  function HexValue(c: char): (r: Option<nat>)
    ensures r.Some? ==> r.value < 16
  {
    if '0' <= c <= '9' then Some(c as int - '0' as int)
    else if 'a' <= c <= 'f' then Some(c as int - 'a' as int + 10)
    else if 'A' <= c <= 'F' then Some(c as int - 'A' as int + 10)
    else None
  }

  /** JSON.stringify writes hexadecimal in lower case. */
  function HexDigit(d: nat): (c: char)
    requires d < 16
    ensures HexValue(c) == Some(d)
  {
    if d < 10 then ('0' as int + d) as char else ('a' as int + d - 10) as char
  }

  /** The code unit written by the four hexadecimal digits of a `\u` escape. */
  function Hex4(s: string): (r: Option<nat>)
    requires |s| >= 4
    ensures r.Some? ==> r.value < 0x1_0000
  {
    var a :- HexValue(s[0]);
    var b :- HexValue(s[1]);
    var c :- HexValue(s[2]);
    var d :- HexValue(s[3]);
    Some(((a * 16 + b) * 16 + c) * 16 + d)
  }

  const Backspace: char := 8 as char
  const FormFeed: char := 12 as char

  /** The letter of the two-character escape JSON.stringify writes for `c`, if `c` has one. */
  function ShortEscape(c: char): (r: Option<char>)
    ensures r.Some? ==> r.value != 'u' && ShortUnescape(r.value) == Some(c)
    ensures r.None? ==> c != '"' && c != '\\'
  {
    if c == '"' then Some('"')
    else if c == '\\' then Some('\\')
    else if c == Backspace then Some('b')
    else if c == FormFeed then Some('f')
    else if c == '\n' then Some('n')
    else if c == '\r' then Some('r')
    else if c == '\t' then Some('t')
    else None
  }

  /** The character a two-character escape with letter `e` stands for. */
  function ShortUnescape(e: char): Option<char> {
    if e == '"' then Some('"')
    else if e == '\\' then Some('\\')
    else if e == '/' then Some('/')
    else if e == 'b' then Some(Backspace)
    else if e == 'f' then Some(FormFeed)
    else if e == 'n' then Some('\n')
    else if e == 'r' then Some('\r')
    else if e == 't' then Some('\t')
    else None
  }

  /** How JSON.stringify writes one character inside a string literal. */
  function EscapeChar(c: char): string {
    match ShortEscape(c)
    case Some(e) => ['\\', e]
    case None =>
      if c < ' ' then ['\\', 'u', '0', '0', HexDigit(c as int / 16), HexDigit(c as int % 16)]
      else [c]
  }

  function EscapeText(s: string): string {
    if s == [] then [] else EscapeChar(s[0]) + EscapeText(s[1..])
  }

  /** A JSON string literal. */
  function Quote(s: string): string {
    "\"" + EscapeText(s) + "\""
  }

  /** The character an escape sequence stands for; `s` starts just after the backslash. */
  function Unescape(s: string): (r: Option<Parsed<char>>)
    ensures r.Some? ==> |r.value.rest| < |s|
  {
    if s == [] then None
    else if s[0] == 'u' then
      if |s| < 5 then None
      else
        var code :- Hex4(s[1..5]);
        if 0xD800 <= code < 0xE000 then None else Some(Parsed(code as char, s[5..]))
    else
      var c :- ShortUnescape(s[0]);
      Some(Parsed(c, s[1..]))
  }

  /** One character of a string literal's contents, written plainly or as an escape. */
  function ReadChar(s: string): (r: Option<Parsed<char>>)
    ensures r.Some? ==> |r.value.rest| < |s|
  {
    if s == [] || s[0] == '"' || s[0] < ' ' then None
    else if s[0] == '\\' then Unescape(s[1..])
    else Some(Parsed(s[0], s[1..]))
  }

  function Prepend(c: char, r: Option<Parsed<string>>): Option<Parsed<string>> {
    match r
    case None => None
    case Some(p) => Some(Parsed([c] + p.value, p.rest))
  }

  /** The contents of a string literal up to and including its closing quote. */
  function ParseChars(s: string): (r: Option<Parsed<string>>)
    ensures r.Some? ==> |r.value.rest| < |s|
    decreases |s|
  {
    if s != [] && s[0] == '"' then Some(Parsed([], s[1..]))
    else
      match ReadChar(s)
      case None => None
      case Some(head) => Prepend(head.value, ParseChars(head.rest))
  }

  function ParseString(s: string): (r: Option<Parsed<string>>)
    ensures r.Some? ==> |r.value.rest| < |s|
  {
    if s != [] && s[0] == '"' then ParseChars(s[1..]) else None
  }

  /** The escape of one character reads back as that character. */
  lemma ReadEscapedChar(c: char, tail: string)
    ensures (EscapeChar(c) + tail)[0] != '"'
    ensures ReadChar(EscapeChar(c) + tail) == Some(Parsed(c, tail))
  {
    var s := EscapeChar(c) + tail;
    match ShortEscape(c)
    case Some(e) =>
      assert s[0] == '\\' && s[1..] == [e] + tail;
    case None =>
      if c < ' ' {
        var hi, lo := HexDigit(c as int / 16), HexDigit(c as int % 16);
        assert s[0] == '\\' && s[1..] == ['u', '0', '0', hi, lo] + tail;
        assert s[1..][1..5] == ['0', '0', hi, lo];
        assert s[1..][5..] == tail;
      } else {
        assert s[0] == c && s[1..] == tail;
      }
  }

  lemma {:induction false} EscapeTextRoundTrip(t: string, rest: string)
    ensures ParseChars(EscapeText(t) + "\"" + rest) == Some(Parsed(t, rest))
    decreases |t|
  {
    if t == [] {
      assert EscapeText(t) + "\"" + rest == "\"" + rest;
    } else {
      var tail := EscapeText(t[1..]) + "\"" + rest;
      assert EscapeText(t) + "\"" + rest == EscapeChar(t[0]) + tail;
      ReadEscapedChar(t[0], tail);
      EscapeTextRoundTrip(t[1..], rest);
      assert [t[0]] + t[1..] == t;
    }
  }

  /** Reading a quoted string gives the string back, whatever text follows it. */
  lemma QuoteRoundTrip(t: string, rest: string)
    ensures ParseString(Quote(t) + rest) == Some(Parsed(t, rest))
  {
    assert (Quote(t) + rest)[1..] == EscapeText(t) + "\"" + rest;
    EscapeTextRoundTrip(t, rest);
  }

  // ------------------------------------------------------------------- items

  const IdTag := "{\"id\":"

  /** The optional members of an item, in the order they are written. */
  const FieldKeys: seq<string> := ["title", "name", "release_date", "first_air_date", "poster_path"]

  function FieldValues(m: Item): (vs: seq<Option<string>>)
    ensures |vs| == |FieldKeys|
  {
    [m.title, m.name, m.releaseDate, m.firstAirDate, m.posterPath]
  }

  function FieldTag(key: string): string {
    ",\"" + key + "\":"
  }

  /** An optional string member; an absent one is omitted. */
  function EncodeField(key: string, v: Option<string>): string {
    match v
    case None => ""
    case Some(t) => FieldTag(key) + Quote(t)
  }

  function EncodeFields(keys: seq<string>, vs: seq<Option<string>>): string
    requires |keys| == |vs|
  {
    if keys == [] then "" else EncodeField(keys[0], vs[0]) + EncodeFields(keys[1..], vs[1..])
  }

  function EncodeItem(m: Item): string {
    IdTag + (IntText(m.id) + (EncodeFields(FieldKeys, FieldValues(m)) + "}"))
  }

  /** An optional member: its value when the text starts with the member's key, `None` otherwise. */
  function ParseField(key: string, s: string): (r: Option<Parsed<Option<string>>>)
    ensures r.Some? ==> |r.value.rest| <= |s|
  {
    var tag := FieldTag(key);
    if tag <= s then
      match ParseString(s[|tag|..])
      case None => None
      case Some(p) => Some(Parsed(Some(p.value), p.rest))
    else
      Some(Parsed(None, s))
  }

  function ParseFields(keys: seq<string>, s: string): (r: Option<Parsed<seq<Option<string>>>>)
    ensures r.Some? ==> |r.value.value| == |keys| && |r.value.rest| <= |s|
  {
    if keys == [] then Some(Parsed([], s))
    else
      match ParseField(keys[0], s)
      case None => None
      case Some(f) =>
        match ParseFields(keys[1..], f.rest)
        case None => None
        case Some(more) => Some(Parsed([f.value] + more.value, more.rest))
  }

  function ParseItem(s: string): (r: Option<Parsed<Item>>)
    ensures r.Some? ==> |r.value.rest| < |s|
  {
    if !(IdTag <= s) then None
    else
      var id :- ParseInt(s[|IdTag|..]);
      var fs :- ParseFields(FieldKeys, id.rest);
      var f := fs.value;
      if fs.rest != [] && fs.rest[0] == '}' then
        Some(Parsed(Item(id.value, f[0], f[1], f[2], f[3], f[4]), fs.rest[1..]))
      else None
  }

  /** The first letters of `keys`. */
  function Initials(keys: seq<string>): (r: string)
    requires forall i :: 0 <= i < |keys| ==> keys[i] != []
    ensures |r| == |keys|
  {
    if keys == [] then [] else [keys[0][0]] + Initials(keys[1..])
  }

  /** No two keys share a first letter, so one key's tag never starts another key's member. */
  predicate DistinctInitials(keys: seq<string>) {
    && (forall i :: 0 <= i < |keys| ==> keys[i] != [])
    && (forall i, j :: 0 <= i < j < |keys| ==> keys[i][0] != keys[j][0])
  }

  /** `t` starts with the closing brace or with a member whose key begins with one of `initials`. */
  predicate OpensWith(t: string, initials: string) {
    t != [] && (t[0] == '}' || (t[0] == ',' && |t| > 2 && t[2] in initials))
  }

  lemma {:induction false} FieldsOpen(keys: seq<string>, vs: seq<Option<string>>, tail: string)
    requires |keys| == |vs| && (forall i :: 0 <= i < |keys| ==> keys[i] != [])
    requires tail != [] && tail[0] == '}'
    ensures OpensWith(EncodeFields(keys, vs) + tail, Initials(keys))
  {
    if keys != [] {
      var later := EncodeFields(keys[1..], vs[1..]) + tail;
      FieldsOpen(keys[1..], vs[1..], tail);
      assert EncodeFields(keys, vs) + tail == EncodeField(keys[0], vs[0]) + later;
      assert Initials(keys) == [keys[0][0]] + Initials(keys[1..]);
    }
  }

  lemma FieldRoundTrip(key: string, v: Option<string>, tail: string, initials: string)
    requires key != [] && OpensWith(tail, initials) && key[0] !in initials
    ensures ParseField(key, EncodeField(key, v) + tail) == Some(Parsed(v, tail))
  {
    var tag := FieldTag(key);
    match v
    case None =>
      assert EncodeField(key, v) + tail == tail;
      assert tag[0] == ',' && tag[2] == key[0];
      assert tail[0] != tag[0] || tail[2] != tag[2];
    case Some(t) =>
      var s := EncodeField(key, v) + tail;
      assert s == tag + (Quote(t) + tail);
      assert s[|tag|..] == Quote(t) + tail;
      QuoteRoundTrip(t, tail);
  }

  lemma {:induction false} FieldsRoundTrip(keys: seq<string>, vs: seq<Option<string>>, tail: string)
    requires |keys| == |vs| && DistinctInitials(keys)
    requires tail != [] && tail[0] == '}'
    ensures ParseFields(keys, EncodeFields(keys, vs) + tail) == Some(Parsed(vs, tail))
  {
    if keys == [] {
      assert EncodeFields(keys, vs) + tail == tail;
    } else {
      var later := EncodeFields(keys[1..], vs[1..]) + tail;
      assert EncodeFields(keys, vs) + tail == EncodeField(keys[0], vs[0]) + later;
      FieldsOpen(keys[1..], vs[1..], tail);
      var initials := Initials(keys[1..]);
      assert keys[0][0] !in initials by {
        forall i | 0 <= i < |keys[1..]|
          ensures initials[i] == keys[1..][i][0]
        {
          InitialsAt(keys[1..], i);
        }
      }
      FieldRoundTrip(keys[0], vs[0], later, initials);
      FieldsRoundTrip(keys[1..], vs[1..], tail);
      assert [vs[0]] + vs[1..] == vs;
    }
  }

  lemma {:induction false} InitialsAt(keys: seq<string>, i: nat)
    requires (forall j :: 0 <= j < |keys| ==> keys[j] != []) && i < |keys|
    ensures Initials(keys)[i] == keys[i][0]
  {
    if i > 0 {
      InitialsAt(keys[1..], i - 1);
    }
  }

  /** Reading a written item gives the item back, whatever text follows it. */
  lemma ItemRoundTrip(m: Item, rest: string)
    ensures ParseItem(EncodeItem(m) + rest) == Some(Parsed(m, rest))
  {
    var tail := "}" + rest;
    var fields := EncodeFields(FieldKeys, FieldValues(m)) + tail;
    var s := EncodeItem(m) + rest;
    assert s == IdTag + (IntText(m.id) + fields);
    assert IdTag <= s;
    assert s[|IdTag|..] == IntText(m.id) + fields;
    assert DistinctInitials(FieldKeys);
    FieldsOpen(FieldKeys, FieldValues(m), tail);
    ParseIntText(m.id, fields);
    FieldsRoundTrip(FieldKeys, FieldValues(m), tail);
  }

  // ------------------------------------------------------------------- lists

  /** The items of a non-empty array, separated by commas. */
  function EncodeItems(xs: seq<Item>): string
    requires xs != []
    decreases |xs|
  {
    if |xs| == 1 then EncodeItem(xs[0]) else EncodeItem(xs[0]) + ("," + EncodeItems(xs[1..]))
  }

  /** The canonical text of the favourites array: the members above, in array order. */
  function Encode(xs: seq<Item>): (text: string)
    ensures Decode(text) == Some(xs)
  {
    if xs == [] then "[]"
    else
      var text := "[" + (EncodeItems(xs) + "]");
      assert EncodeItems(xs)[0] == '{';
      assert text[1..] == EncodeItems(xs) + ("]" + "");
      ItemsRoundTrip(xs, "");
      text
  }

  /** Items up to and including the closing bracket of a non-empty array. */
  function ParseItems(s: string): (r: Option<Parsed<seq<Item>>>)
    ensures r.Some? ==> |r.value.rest| < |s|
    decreases |s|
  {
    match ParseItem(s)
    case None => None
    case Some(first) =>
      if first.rest != [] && first.rest[0] == ',' then
        match ParseItems(first.rest[1..])
        case None => None
        case Some(others) => Some(Parsed([first.value] + others.value, others.rest))
      else if first.rest != [] && first.rest[0] == ']' then
        Some(Parsed([first.value], first.rest[1..]))
      else None
  }

  function ParseList(s: string): (r: Option<Parsed<seq<Item>>>)
    ensures r.Some? ==> |r.value.rest| < |s| && s[0] == '['
    ensures r.Some? && r.value.value == [] ==> |s| >= 2 && s[1] == ']' && r.value.rest == s[2..]
  {
    if |s| >= 2 && s[0] == '[' && s[1] == ']' then Some(Parsed([], s[2..]))
    else if s != [] && s[0] == '[' then
      ParseItemsNonEmpty(s[1..]);
      ParseItems(s[1..])
    else None
  }

  /** A non-empty array yields at least one item. */
  lemma ParseItemsNonEmpty(s: string)
    ensures ParseItems(s).Some? ==> ParseItems(s).value.value != []
  {
  }

  /** JSON.parse of the stored text; `None` where it fails. Only `[]` reads as the empty list. */
  function Decode(text: string): (r: Option<seq<Item>>)
    ensures r.Some? ==> text != [] && text[0] == '['
    ensures r == Some([]) <==> text == "[]"
  {
    var p :- ParseList(text);
    if p.rest == [] then Some(p.value) else None
  }

  lemma {:induction false} ItemsRoundTrip(xs: seq<Item>, rest: string)
    requires xs != []
    ensures ParseItems(EncodeItems(xs) + ("]" + rest)) == Some(Parsed(xs, rest))
    decreases |xs|
  {
    if |xs| == 1 {
      ParseLastItem(xs[0], rest);
      assert [xs[0]] == xs;
    } else {
      var tail := EncodeItems(xs[1..]) + ("]" + rest);
      assert EncodeItems(xs) + ("]" + rest) == EncodeItem(xs[0]) + ("," + tail);
      ItemsRoundTrip(xs[1..], rest);
      ParseNextItem(xs[0], tail);
      assert [xs[0]] + xs[1..] == xs;
    }
  }

  /** The last element of an array is followed by `]`. */
  lemma ParseLastItem(m: Item, rest: string)
    ensures ParseItems(EncodeItem(m) + ("]" + rest)) == Some(Parsed([m], rest))
  {
    ItemRoundTrip(m, "]" + rest);
    assert ("]" + rest)[0] == ']' && ("]" + rest)[1..] == rest;
  }

  /** An element followed by `,` is put in front of the elements after the comma. */
  lemma ParseNextItem(m: Item, tail: string)
    requires ParseItems(tail).Some?
    ensures ParseItems(EncodeItem(m) + ("," + tail))
      == Some(Parsed([m] + ParseItems(tail).value.value, ParseItems(tail).value.rest))
  {
    ItemRoundTrip(m, "," + tail);
    assert ("," + tail)[0] == ',' && ("," + tail)[1..] == tail;
  }

  /** Different lists are stored as different texts. */
  lemma EncodeInjective(xs: seq<Item>, ys: seq<Item>)
    requires Encode(xs) == Encode(ys)
    ensures xs == ys
  {
  }
}
