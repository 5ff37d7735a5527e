/** The text that carts and orders are stored as (storagesystem.cpp), and `split` (common.h). */
module CartText {
  import opened Wrappers
  import Ascending

  const TWO_32 := 0x1_0000_0000
  const TWO_64 := 0x1_0000_0000_0000_0000

  type Quantities = map<nat, nat>

  // ----- numbers -----

  predicate IsDigit(c: char) { '0' <= c <= '9' }

  predicate AllDigits(s: string) { forall i :: 0 <= i < |s| ==> IsDigit(s[i]) }

  /** std::to_string of an unsigned number */
  function ToString(n: nat): (s: string)
    ensures s != "" && AllDigits(s)
  {
    var last := ('0' as int + n % 10) as char;
    if n < 10 then [last] else ToString(n / 10) + [last]
  }

  function Value(s: string): nat
    requires AllDigits(s)
  {
    if s == "" then 0 else Value(s[..|s| - 1]) * 10 + (s[|s| - 1] as int - '0' as int)
  }

  lemma {:induction false} ValueOfToString(n: nat)
    ensures Value(ToString(n)) == n
  {
    var s := ToString(n);
    if n >= 10 {
      ValueOfToString(n / 10);
      assert s[..|s| - 1] == ToString(n / 10);
    } else {
      assert s[..|s| - 1] == "";
    }
  }

  /** How many characters at the front are digits. */
  function DigitPrefix(s: string): (k: nat)
    ensures k <= |s| && AllDigits(s[..k]) && (k < |s| ==> !IsDigit(s[k]))
  {
    if s == "" || !IsDigit(s[0]) then 0
    else
      var k := DigitPrefix(s[1..]);
      assert forall i :: 0 < i < 1 + k ==> s[i] == s[1..][..k][i - 1];
      1 + k
  }

  /** isspace in the C locale */
  predicate IsSpace(c: char) { c == ' ' || '\t' <= c <= '\r' }

  function Trimmed(s: string): string {
    if s == "" || !IsSpace(s[0]) then s else Trimmed(s[1..])
  }

  /** std::stoul: spaces, a sign and digits, with anything behind; None where it throws.  A negative
      number wraps around. */
  function Stoul(s: string): (r: Option<nat>)
    ensures r.Some? ==> r.value < TWO_64
  {
    Signed(Trimmed(s))
  }

  function Signed(t: string): (r: Option<nat>)
    ensures r.Some? ==> r.value < TWO_64
  {
    if t == "" || t[0] !in "+-" then Unsigned(t)
    else
      var n := Unsigned(t[1..]);
      if n.Some? && t[0] == '-' then Some((TWO_64 - n.value) % TWO_64) else n
  }

  function Unsigned(s: string): (r: Option<nat>)
    ensures r.Some? ==> r.value < TWO_64
  {
    var k := DigitPrefix(s);
    if k == 0 || Value(s[..k]) >= TWO_64 then None else Some(Value(s[..k]))
  }

  lemma UnsignedReads(n: nat, rest: string)
    requires rest == "" || !IsDigit(rest[0])
    ensures Unsigned(ToString(n) + rest) == if n >= TWO_64 then None else Some(n)
    ensures IsDigit((ToString(n) + rest)[0])
  {
    PrefixOfDigits(ToString(n), rest);
    ValueOfToString(n);
  }

  lemma StoulOfToString(n: nat)
    requires n < TWO_64
    ensures Stoul(ToString(n)) == Some(n)
  {
    UnsignedReads(n, "");
    assert ToString(n) + "" == ToString(n);
  }

  lemma {:induction false} TrimmedSpaces(spaces: string, rest: string)
    requires (forall i :: 0 <= i < |spaces| ==> IsSpace(spaces[i])) && (rest == "" || !IsSpace(rest[0]))
    ensures Trimmed(spaces + rest) == rest
    decreases |spaces|
  {
    if spaces == "" {
      assert spaces + rest == rest;
    } else {
      assert (spaces + rest)[1..] == spaces[1..] + rest;
      TrimmedSpaces(spaces[1..], rest);
    }
  }

  lemma {:induction false} PrefixOfDigits(digits: string, rest: string)
    requires AllDigits(digits) && (rest == "" || !IsDigit(rest[0]))
    ensures DigitPrefix(digits + rest) == |digits| && (digits + rest)[..|digits|] == digits
    decreases |digits|
  {
    if digits == "" {
      assert digits + rest == rest;
    } else {
      assert (digits + rest)[1..] == digits[1..] + rest;
      PrefixOfDigits(digits[1..], rest);
    }
  }

  /** What stoul makes of any text that has a number: spaces and a sign before it and anything behind it
      are allowed, a negative number wraps around, and one of 2^64 or more is refused. */
  lemma StoulReads(spaces: string, sign: string, n: nat, rest: string)
    requires (forall i :: 0 <= i < |spaces| ==> IsSpace(spaces[i])) && sign in ["", "+", "-"]
    requires rest == "" || !IsDigit(rest[0])
    ensures Stoul(spaces + (sign + (ToString(n) + rest))) ==
      if n >= TWO_64 then None else Some(if sign == "-" then (TWO_64 - n) % TWO_64 else n)
  {
    var number := ToString(n) + rest;
    UnsignedReads(n, rest);
    if sign == "" {
      assert sign + number == number;
      SpacesSkipped(spaces, number);
    } else {
      SpacesSkipped(spaces, sign + number);
      assert (sign + number)[1..] == number && (sign + number)[0] == sign[0];
    }
  }

  lemma SpacesSkipped(spaces: string, t: string)
    requires (forall i :: 0 <= i < |spaces| ==> IsSpace(spaces[i])) && t != "" && !IsSpace(t[0])
    ensures Stoul(spaces + t) == Signed(t)
  {
    TrimmedSpaces(spaces, t);
  }

  /** A text without a number in that place is refused. */
  lemma StoulRefuses(spaces: string, sign: string, rest: string)
    requires (forall i :: 0 <= i < |spaces| ==> IsSpace(spaces[i])) && sign in ["", "+", "-"]
    requires rest == "" || (!IsDigit(rest[0]) && (sign == "" ==> !IsSpace(rest[0]) && rest[0] !in "+-"))
    ensures Stoul(spaces + (sign + rest)) == None
  {
    TrimmedSpaces(spaces, sign + rest);
    if sign == "" { assert sign + rest == rest; } else { assert (sign + rest)[1..] == rest; }
  }

  // ----- split -----

  /** The non-empty pieces of s between delimiters; `current` is the piece being read. */
  function Pieces(s: string, delim: char, current: string): seq<string> {
    if s == "" then (if current == "" then [] else [current])
    else if s[0] == delim then (if current == "" then [] else [current]) + Pieces(s[1..], delim, "")
    else Pieces(s[1..], delim, current + [s[0]])
  }

  function Fields(s: string, delim: char): seq<string> { Pieces(s, delim, "") }

  lemma {:induction false} PieceRead(w: string, rest: string, delim: char, current: string)
    requires delim !in w
    ensures Pieces(w + rest, delim, current) == Pieces(rest, delim, current + w)
    decreases |w|
  {
    if w == "" {
      assert w + rest == rest && current + w == current;
    } else {
      PieceRead(w[1..], rest, delim, current + [w[0]]);
      assert (w + rest)[1..] == w[1..] + rest && current + [w[0]] + w[1..] == current + w;
    }
  }

  /** What split does: a delimiter separates, a text without one is a piece by itself, and nothing is none. */
  lemma FieldsSplit(a: string, b: string, delim: char)
    ensures Fields(a + [delim] + b, delim) == Fields(a, delim) + Fields(b, delim)
    ensures delim !in a ==> Fields(a, delim) == if a == "" then [] else [a]
  {
    PiecesSplit(a, b, delim, "");
    if delim !in a {
      PieceRead(a, "", delim, "");
      assert a + "" == a && "" + a == a;
    }
  }

  lemma {:induction false} PiecesSplit(a: string, b: string, delim: char, current: string)
    ensures Pieces(a + [delim] + b, delim, current) == Pieces(a, delim, current) + Pieces(b, delim, "")
    decreases |a|
  {
    if a == "" {
      assert a + [delim] + b == [delim] + b && ([delim] + b)[1..] == b;
    } else {
      assert (a + [delim] + b)[1..] == a[1..] + [delim] + b && (a + [delim] + b)[0] == a[0];
      PiecesSplit(a[1..], b, delim, if a[0] == delim then "" else current + [a[0]]);
    }
  }

  /** split: a getline loop that drops empty elements. */
  method Split(s: string, delim: char) returns (ret: seq<string>)
    ensures ret == Fields(s, delim)
  {
    ret := [];
    var pos := 0;
    while pos < |s|
      invariant 0 <= pos <= |s| && ret + Fields(s[pos..], delim) == Fields(s, delim)
    {
      var end := pos;
      while end < |s| && s[end] != delim
        invariant pos <= end <= |s| && delim !in s[pos..end]
      {
        end := end + 1;
      }
      var elem := s[pos..end];
      assert s[pos..] == elem + s[end..];
      PieceRead(elem, s[end..], delim, "");
      assert "" + elem == elem;
      if elem != "" {
        ret := ret + [elem];
      }
      pos := if end < |s| then end + 1 else end;
    }
  }

  // ----- carts -----

  function Line(upc: nat, qty: nat): string { ToString(upc) + ":" + ToString(qty) }

  /** A text with one more item. */
  function WithItem(text: string, upc: nat, qty: nat): string {
    text + (if text == "" then "" else "\n") + Line(upc, qty)
  }

  /** A text with the items of the given keys of a cart, in ascending order. */
  ghost function WithItems(text: string, keys: set<nat>, cart: Quantities): string
    requires keys <= cart.Keys
    decreases keys
  {
    if keys == {} then text
    else
      var upc := Ascending.Least(keys);
      WithItems(WithItem(text, upc, cart[upc]), keys - {upc}, cart)
  }

  ghost function Encode(cart: Quantities): string { WithItems("", cart.Keys, cart) }

  /** One line back: upc and quantity, the latter cut to 32 bits; None where reading it fails. */
  function ParseLine(line: string): Option<(nat, nat)> {
    var parts := Fields(line, ':');
    if |parts| < 2 || Stoul(parts[0]).None? || Stoul(parts[1]).None? then None
    else Some((Stoul(parts[0]).value, Stoul(parts[1]).value % TWO_32))
  }

  function Collect(lines: seq<string>): Option<Quantities> {
    if lines == [] then Some(map[])
    else
      var n := |lines| - 1;
      var before, last := Collect(lines[..n]), ParseLine(lines[n]);
      if before.None? || last.None? then None
      else Some(before.value[last.value.0 := last.value.1])
  }

  function Decode(text: string): Option<Quantities> { Collect(Fields(text, '\n')) }

  lemma LineReadsBack(upc: nat, qty: nat)
    requires upc < TWO_64 && qty < TWO_32
    ensures Line(upc, qty) != "" && '\n' !in Line(upc, qty)
    ensures ParseLine(Line(upc, qty)) == Some((upc, qty))
  {
    var a, b := ToString(upc), ToString(qty);
    assert ':' !in a && ':' !in b && '\n' !in a && '\n' !in b;
    assert a + ":" + b == a + [':'] + b;
    FieldsSplit(a, b, ':');
    FieldsSplit(b, "", ':');
    StoulOfToString(upc);
    StoulOfToString(qty);
  }

  predicate Storable(cart: Quantities) {
    forall k :: k in cart ==> k < TWO_64 && cart[k] < TWO_32
  }

  function Restrict(cart: Quantities, keys: set<nat>): Quantities { map k | k in cart && k in keys :: cart[k] }

  lemma ItemReadsBack(text: string, read: Quantities, upc: nat, qty: nat)
    requires Decode(text) == Some(read) && upc < TWO_64 && qty < TWO_32
    ensures Decode(WithItem(text, upc, qty)) == Some(read[upc := qty])
  {
    var lines, line := Fields(text, '\n'), Line(upc, qty);
    LineReadsBack(upc, qty);
    assert Fields(WithItem(text, upc, qty), '\n') == lines + [line] by {
      if text == "" {
        assert WithItem(text, upc, qty) == line;
        FieldsSplit(line, "", '\n');
      } else {
        assert text + "\n" + line == text + ['\n'] + line;
        FieldsSplit(text, line, '\n');
        FieldsSplit(line, "", '\n');
      }
    }
    assert (lines + [line])[..|lines|] == lines;
  }

  lemma {:induction false} ItemsReadBack(text: string, read: Quantities, keys: set<nat>, cart: Quantities)
    requires Decode(text) == Some(read) && Storable(cart) && keys <= cart.Keys
    ensures Decode(WithItems(text, keys, cart)) == Some(read + Restrict(cart, keys))
    decreases keys
  {
    if keys == {} {
      assert read + Restrict(cart, keys) == read;
    } else {
      var upc := Ascending.Least(keys);
      var rest := keys - {upc};
      ItemReadsBack(text, read, upc, cart[upc]);
      ItemsReadBack(WithItem(text, upc, cart[upc]), read[upc := cart[upc]], rest, cart);
      RestrictLess(read, cart, keys, upc);
    }
  }

  lemma RestrictLess(read: Quantities, cart: Quantities, keys: set<nat>, upc: nat)
    requires upc in keys && keys <= cart.Keys
    ensures read[upc := cart[upc]] + Restrict(cart, keys - {upc}) == read + Restrict(cart, keys)
  {
  }

  /** The format: items by colons, lines by newlines, numbers in decimal. */
  lemma TwoItems(a: nat, m: nat, b: nat, n: nat)
    requires a < TWO_64 && b < TWO_64 && m < TWO_32 && n < TWO_32
    ensures Decode(ToString(a) + ":" + ToString(m) + "\n" + (ToString(b) + ":" + ToString(n))) == Some(map[a := m][b := n])
  {
    var one := ToString(a) + ":" + ToString(m);
    OneItem(a, m);
    ItemReadsBack(one, map[a := m], b, n);
    assert WithItem(one, b, n) == one + "\n" + (ToString(b) + ":" + ToString(n));
  }

  lemma OneItem(a: nat, m: nat)
    requires a < TWO_64 && m < TWO_32
    ensures Decode(ToString(a) + ":" + ToString(m)) == Some(map[a := m])
  {
    assert WithItem("", a, m) == ToString(a) + ":" + ToString(m);
    assert Decode("") == Some(map[]);
    ItemReadsBack("", map[], a, m);
  }

  /** The last digit of a number is its remainder by ten. */
  lemma DecimalDigits(n: nat)
    ensures ToString(n)[|ToString(n)| - 1] == "0123456789"[n % 10]
    ensures n >= 10 ==> ToString(n)[..|ToString(n)| - 1] == ToString(n / 10)
    ensures n < 10 ==> |ToString(n)| == 1
  {
  }

  /** A stored cart reads back as it was, zero quantities included. */
  lemma RoundTrip(cart: Quantities)
    requires Storable(cart)
    ensures Decode(Encode(cart)) == Some(cart)
  {
    ItemsReadBack("", map[], cart.Keys, cart);
    assert map[] + Restrict(cart, cart.Keys) == cart;
  }

  /** Different carts are stored as different texts. */
  lemma EncodeInjective(a: Quantities, b: Quantities)
    requires Storable(a) && Storable(b) && Encode(a) == Encode(b)
    ensures a == b
  {
    RoundTrip(a);
    RoundTrip(b);
  }

  /** The loop of storeUser and storeTransaction over a cart. */
  method CartToText(cart: Quantities) returns (text: string)
    ensures text == Encode(cart)
  {
    text := "";
    var left := cart.Keys;
    while left != {}
      invariant left <= cart.Keys && WithItems(text, left, cart) == Encode(cart)
      decreases left
    {
      var upc := Ascending.FindLeast(left);
      left := left - {upc};
      text := AppendItem(text, upc, cart[upc]);
    }
  }

  method AppendItem(before: string, upc: nat, qty: nat) returns (text: string)
    ensures text == WithItem(before, upc, qty)
  {
    text := before;
    if text != "" {
      text := text + "\n";
    }
    text := text + ToString(upc);
    text := text + ":";
    text := text + ToString(qty);
  }

  /** The loop of getUser and getTransaction over the stored text. */
  method TextToCart(text: string) returns (cart: Option<Quantities>)
    ensures cart == Decode(text)
  {
    var lines := Split(text, '\n');
    var items: Quantities := map[];
    for i := 0 to |lines|
      invariant Collect(lines[..i]) == Some(items)
    {
      assert lines[..i + 1][..i] == lines[..i];
      var parts := Split(lines[i], ':');
      if |parts| < 2 || Stoul(parts[0]).None? || Stoul(parts[1]).None? {
        CollectFails(lines, i);
        return None;
      }
      items := items[Stoul(parts[0]).value := Stoul(parts[1]).value % TWO_32];
    }
    assert lines[..|lines|] == lines;
    cart := Some(items);
  }

  lemma {:induction false} CollectFails(lines: seq<string>, i: nat)
    requires i < |lines| && ParseLine(lines[i]).None?
    ensures Collect(lines).None?
    decreases |lines|
  {
    var n := |lines| - 1;
    if i < n { CollectFails(lines[..n], i); }
  }
}
