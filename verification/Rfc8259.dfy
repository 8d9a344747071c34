// The texts of RFC 8259, sections 2 to 7, byte by byte: trees that keep every
// byte of the text they stand for.

module Rfc8259 {
  import opened Results
  import opened Blocks
  import opened Scan

  datatype StrItem = Plain(b: Byte) | Esc(e: Byte) | Uni(hex: seq<Byte>)

  datatype ExpText = ExpText(letter: Byte, sign: Option<Byte>, digits: Bytes)

  datatype NumText = NumText(neg: bool, whole: Bytes, frac: Option<Bytes>, exp: Option<ExpText>)

  datatype Key = Key(before: Bytes, text: seq<StrItem>, after: Bytes)

  // Objects and arrays differ only in their brackets and in having keys.
  datatype Json =
    | Str(chars: seq<StrItem>)
    | Num(n: NumText)
    | True | False | Null
    | Cont(obj: bool, gap: Bytes, items: Items)

  datatype Items = Nil | Cons(key: Option<Key>, before: Bytes, v: Json, after: Bytes, rest: Items)

  // ---------- Texts ----------

  function ItemText(it: StrItem): Bytes {
    match it
    case Plain(b) => [b]
    case Esc(e) => [BACKSLASH, e]
    case Uni(hex) => [BACKSLASH, LETTER_U] + hex
  }

  function CharsText(chars: seq<StrItem>): Bytes {
    if chars == [] then [] else ItemText(chars[0]) + CharsText(chars[1..])
  }

  function StrText(chars: seq<StrItem>): Bytes {
    [QUOTE] + CharsText(chars) + [QUOTE]
  }

  function FracText(f: Option<Bytes>): Bytes {
    if f.None? then [] else [DOT] + f.value
  }

  function SignText(s: Option<Byte>): Bytes {
    if s.None? then [] else [s.value]
  }

  function ExpTail(e: Option<ExpText>): Bytes {
    if e.None? then [] else [e.value.letter] + SignText(e.value.sign) + e.value.digits
  }

  function NumberText(n: NumText): Bytes {
    (if n.neg then [MINUS] else []) + n.whole + FracText(n.frac) + ExpTail(n.exp)
  }

  function Open(obj: bool): Byte { if obj then OPEN_BRACE else OPEN_BRACKET }
  function Close(obj: bool): Byte { if obj then CLOSE_BRACE else CLOSE_BRACKET }

  function JsonText(t: Json): Bytes
    decreases t, 2
  {
    match t
    case Str(chars) => StrText(chars)
    case Num(n) => NumberText(n)
    case True => TRUE_TEXT
    case False => FALSE_TEXT
    case Null => NULL_TEXT
    case Cont(obj, gap, items) => [Open(obj)] + Inside(gap, items) + [Close(obj)]
  }

  function Inside(gap: Bytes, items: Items): Bytes
    decreases items, 1
  {
    if items.Nil? then gap else ItemsText(items)
  }

  function KeyText(key: Option<Key>): Bytes {
    if key.None? then [] else key.value.before + StrText(key.value.text) + key.value.after + [COLON]
  }

  function ItemsText(items: Items): Bytes
    requires items.Cons?
    decreases items, 0
  {
    KeyText(items.key) + items.before + JsonText(items.v) + items.after + TailText(items.rest)
  }

  function TailText(rest: Items): Bytes
    decreases rest, 1
  {
    if rest.Nil? then [] else [COMMA] + ItemsText(rest)
  }

  // ---------- Well-formed trees ----------

  predicate ValidItem(it: StrItem) {
    match it
    case Plain(b) => b >= 0x20 && b != QUOTE && b != BACKSLASH
    case Esc(e) => IsEscape(e)
    case Uni(hex) => |hex| == 4 && forall k :: 0 <= k < 4 ==> IsHex(hex[k])
  }

  predicate ValidChars(chars: seq<StrItem>) {
    forall it :: it in chars ==> ValidItem(it)
  }

  predicate AllDigits(s: Bytes) { forall c :: c in s ==> IsDigit(c) }
  predicate AllWs(s: Bytes) { forall c :: c in s ==> IsWs(c) }

  predicate ValidWhole(w: Bytes) {
    w == [0x30] || (w != [] && AllDigits(w) && w[0] != 0x30)
  }

  predicate ValidNumber(n: NumText) {
    && ValidWhole(n.whole)
    && (n.frac.Some? ==> n.frac.value != [] && AllDigits(n.frac.value))
    && (n.exp.Some? ==>
          && IsExp(n.exp.value.letter) && n.exp.value.digits != [] && AllDigits(n.exp.value.digits)
          && (n.exp.value.sign.Some? ==> n.exp.value.sign.value == PLUS || n.exp.value.sign.value == MINUS))
  }

  predicate Valid(t: Json)
    decreases t, 1
  {
    match t
    case Str(chars) => ValidChars(chars)
    case Num(n) => ValidNumber(n)
    case Cont(obj, gap, items) => AllWs(gap) && ValidItems(obj, items)
    case _ => true
  }

  predicate ValidItems(obj: bool, items: Items)
    decreases items, 0
  {
    items.Nil? ||
    (&& (items.key.Some? <==> obj)
     && (items.key.Some? ==>
           AllWs(items.key.value.before) && ValidChars(items.key.value.text) && AllWs(items.key.value.after))
     && AllWs(items.before) && Valid(items.v) && AllWs(items.after)
     && ValidItems(obj, items.rest))
  }

  function Kind(t: Json): ValueKind {
    match t
    case Str(_) => KString
    case Num(_) => KNumber
    case Null => KNull
    case Cont(obj, _, _) => if obj then KObject else KArray
    case _ => KBool
  }

  // How many containers deep the text nests.
  function Depth(t: Json): nat
    decreases t, 1
  {
    if t.Cont? then 1 + ItemsDepth(t.items) else 0
  }

  function ItemsDepth(items: Items): nat
    decreases items, 0
  {
    if items.Nil? then 0
    else
      var d, r := Depth(items.v), ItemsDepth(items.rest);
      if d > r then d else r
  }

  // ---------- Surrogates ----------

  // Every high surrogate is followed by a low one, and low ones only come so.
  predicate Paired(chars: seq<StrItem>)
    requires ValidChars(chars)
  {
    if chars == [] then true
    else if !chars[0].Uni? then Paired(chars[1..])
    else
      var cp := CodePoint(chars[0]);
      if IsLow(cp) then false
      else if !IsHigh(cp) then Paired(chars[1..])
      else |chars| >= 2 && chars[1].Uni? && IsLow(CodePoint(chars[1])) && Paired(chars[2..])
  }

  function CodePoint(it: StrItem): nat
    requires it.Uni? && ValidItem(it)
  {
    Hex4(it.hex)
  }

  // The bytes a string stands for, with no replacement character anywhere.
  function Logical(chars: seq<StrItem>): Bytes
    requires ValidChars(chars) && Paired(chars)
  {
    if chars == [] then []
    else
      assert chars[0] in chars;
      match chars[0]
      case Plain(b) => [b] + Logical(chars[1..])
      case Esc(e) => [Unescaped(e)] + Logical(chars[1..])
      case Uni(_) =>
        var cp := CodePoint(chars[0]);
        if IsHigh(cp) then Utf8(Combine(cp, CodePoint(chars[1]))) + Logical(chars[2..])
        else Utf8(cp) + Logical(chars[1..])
  }

  predicate AllPaired(t: Json)
    requires Valid(t)
    decreases t, 1
  {
    match t
    case Str(chars) => Paired(chars)
    case Cont(obj, _, items) => ItemsPaired(obj, items)
    case _ => true
  }

  predicate ItemsPaired(obj: bool, items: Items)
    requires ValidItems(obj, items)
    decreases items, 0
  {
    items.Nil? ||
    (&& (items.key.Some? ==> Paired(items.key.value.text))
     && AllPaired(items.v) && ItemsPaired(obj, items.rest))
  }
}
