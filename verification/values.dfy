/** Runtime values (src/value.go): the tagged value, its two renderings,
    truthiness, `negate`, subscripting, equality and the range stepper.

    A Go map is modelled as a list of entries with distinct keys. The order of
    the list stands for the order Go happens to iterate in, which is
    unspecified; nothing proved here depends on it. Values are immutable: the
    in-place writes of `setKey` return the updated container. */
module Values {
  import opened Errors
  import opened Numerals
  import opened Ast

  /** `ValueTag`, in declaration order. */
  datatype ValueTag = ValNil | ValStr | ValNum | ValArray | ValMap | ValRange | ValNativeFn | ValFn

  /** The names `stringer -linecomment` gives the tags. */
  function TagString(t: ValueTag): string
  {
    match t
    case ValNil => "nil"
    case ValStr => "string"
    case ValNum => "number"
    case ValArray => "array"
    case ValMap => "map"
    case ValRange => "range"
    case ValNativeFn => "<nativeFn>"
    case ValFn => "<fn>"
  }

  /** `Range`: a numeric iteration from `current` towards `end`, exclusive. */
  datatype Range = Range(current: int, end: int, step: int)

  /** A value. A native function is known by an opaque identifier, a closure
      by its fn literal (its captured environment is not modelled). */
  datatype Value =
    | VNil
    | VStr(str: string)
    | VNum(num: int)
    | VArray(items: seq<Value>)
    | VMap(entries: seq<Entry>)
    | VRange(rng: Range)
    | VNativeFn(native: nat)
    | VFn(fn: Expr)

  datatype Entry = Entry(key: string, val: Value)

  function TagOf(v: Value): ValueTag
  {
    match v
    case VNil => ValNil
    case VStr(_) => ValStr
    case VNum(_) => ValNum
    case VArray(_) => ValArray
    case VMap(_) => ValMap
    case VRange(_) => ValRange
    case VNativeFn(_) => ValNativeFn
    case VFn(_) => ValFn
  }

  //
  // Maps
  //

  function Keys(es: seq<Entry>): set<string>
  {
    set i | 0 <= i < |es| :: es[i].key
  }

  lemma KeysCons(e: Entry, rest: seq<Entry>)
    ensures Keys([e] + rest) == {e.key} + Keys(rest)
  {
    var s := [e] + rest;
    forall x | x in Keys(s)
      ensures x in {e.key} + Keys(rest)
    {
      var i :| 0 <= i < |s| && s[i].key == x;
      if i > 0 {
        assert rest[i - 1].key == x;
      }
    }
    forall x | x in Keys(rest)
      ensures x in Keys(s)
    {
      var i :| 0 <= i < |rest| && rest[i].key == x;
      assert s[i + 1].key == x;
    }
    assert s[0].key == e.key;
  }

  /** No key occurs twice, as in a Go map. */
  predicate UniqueKeys(es: seq<Entry>)
  {
    forall i, j | 0 <= i < j < |es| :: es[i].key != es[j].key
  }

  /** The value stored under `k`, if any. */
  function Lookup(es: seq<Entry>, k: string): (r: Option<Value>)
    ensures r.Some? <==> k in Keys(es)
    ensures r.Some? ==> Entry(k, r.value) in es
  {
    if |es| == 0 then None
    else if es[0].key == k then Some(es[0].val)
    else
      var r := Lookup(es[1..], k);
      assert es == [es[0]] + es[1..];
      KeysCons(es[0], es[1..]);
      r
  }

  /** Store `v` under `k`: in place when `k` is present, as a new entry
      otherwise. */
  function Put(es: seq<Entry>, k: string, v: Value): (r: seq<Entry>)
    ensures Keys(r) == Keys(es) + {k}
    ensures |r| == if k in Keys(es) then |es| else |es| + 1
  {
    if |es| == 0 then
      assert [Entry(k, v)][0].key == k;
      [Entry(k, v)]
    else if es[0].key == k then
      var r := [Entry(k, v)] + es[1..];
      assert es == [es[0]] + es[1..];
      KeysCons(es[0], es[1..]);
      KeysCons(Entry(k, v), es[1..]);
      r
    else
      var rest := Put(es[1..], k, v);
      assert es == [es[0]] + es[1..];
      KeysCons(es[0], es[1..]);
      KeysCons(es[0], rest);
      [es[0]] + rest
  }

  /** A lookup after a `Put` finds what was put under that key, and what was
      there before under every other key. */
  lemma {:induction false} LookupPut(es: seq<Entry>, k: string, v: Value, k': string)
    ensures Lookup(Put(es, k, v), k') == if k' == k then Some(v) else Lookup(es, k')
  {
    if |es| > 0 && es[0].key != k {
      LookupPut(es[1..], k, v, k');
      assert ([es[0]] + Put(es[1..], k, v))[1..] == Put(es[1..], k, v);
    }
  }

  /** `Put` keeps keys distinct. */
  lemma {:induction false} PutUnique(es: seq<Entry>, k: string, v: Value)
    requires UniqueKeys(es)
    ensures UniqueKeys(Put(es, k, v))
  {
    if |es| > 0 {
      assert es == [es[0]] + es[1..];
      KeysCons(es[0], es[1..]);
      var r := Put(es, k, v);
      if es[0].key == k {
        forall i, j | 0 <= i < j < |r|
          ensures r[i].key != r[j].key
        {
          assert r[j] == es[j];
          if i > 0 {
            assert r[i] == es[i];
          }
        }
      } else {
        PutUnique(es[1..], k, v);
        var rest := Put(es[1..], k, v);
        assert r == [es[0]] + rest;
        forall i, j | 0 <= i < j < |r|
          ensures r[i].key != r[j].key
        {
          if i == 0 {
            assert r[j].key in Keys(rest) && r[j].key == rest[j - 1].key;
            assert es[0].key !in Keys(es[1..]);
          } else {
            assert r[i] == rest[i - 1] && r[j] == rest[j - 1];
          }
        }
      }
    }
  }

  /** The map key a subscript stands for: a number's decimal text, or the
      string itself; other values are not map keys. */
  function KeyString(key: Value): (r: Option<string>)
    ensures r.Some? <==> key.VNum? || key.VStr?
  {
    match key
    case VNum(n) => Some(IntToString(n))
    case VStr(s) => Some(s)
    case _ => None
  }

  //
  // Rendering
  //

  /** The backspace character `Repr` writes over the last ", " of a map. */
  const Backspace: char := 8 as char

  /** `Repr`: nil, quoted strings, decimal numbers, arrays as their items'
      renderings between brackets, maps as `key: value, ` entries with the
      last separator backspaced over, and `<tag>` plus a newline for the
      rest. */
  function Repr(v: Value): string
    decreases v, 1
  {
    match v
    case VNil => "nil"
    case VStr(s) => "'" + s + "'"
    case VNum(n) => IntToString(n)
    case VArray(items) => "[" + ReprItems(items) + "]"
    case VMap(es) => if |es| == 0 then "{}" else "{" + ReprEntries(es) + [Backspace, Backspace] + "}"
    case _ => "<" + TagString(TagOf(v)) + ">\n"
  }

  /** The renderings of `items`, separated by ", ". */
  function ReprItems(items: seq<Value>): string
    decreases items, 0
  {
    if |items| == 0 then ""
    else if |items| == 1 then Repr(items[0])
    else Repr(items[0]) + ", " + ReprItems(items[1..])
  }

  function ReprEntries(es: seq<Entry>): string
    decreases es, 0
  {
    if |es| == 0 then ""
    else es[0].key + ": " + Repr(es[0].val) + ", " + ReprEntries(es[1..])
  }

  /** `String`: like `Repr`, but a string is its own text. */
  function String(v: Value): string
  {
    match v
    case VNil => "nil"
    case VStr(s) => s
    case VNum(n) => IntToString(n)
    case _ => Repr(v)
  }

  /** `String` and `Repr` differ on strings only, and only by the quotes. */
  lemma StringAndRepr(v: Value)
    ensures v.VStr? ==> Repr(v) == "'" + String(v) + "'"
    ensures !v.VStr? ==> String(v) == Repr(v)
  {
  }

  /** The rendering of a number reads back as that number. */
  lemma ReprNumReadsBack(n: int)
    requires MinInt64 <= n <= MaxInt64
    ensures Atoi(Repr(VNum(n))) == Parsed(n) && Atoi(String(VNum(n))) == Parsed(n)
  {
    AtoiOfIntToString(n);
  }

  /** An array renders as the renderings of its items joined by ", ". */
  lemma {:induction false} ReprArray(items: seq<Value>)
    ensures Repr(VArray(items)) == "[" + JoinStrings(RenderAll(items), ", ") + "]"
  {
    ReprItemsJoin(items);
  }

  function RenderAll(items: seq<Value>): (r: seq<string>)
    ensures |r| == |items| && forall i | 0 <= i < |items| :: r[i] == Repr(items[i])
  {
    if |items| == 0 then [] else [Repr(items[0])] + RenderAll(items[1..])
  }

  /** The `key: value` text of each map entry, in the map's order. */
  function RenderEntries(es: seq<Entry>): (r: seq<string>)
    ensures |r| == |es| && forall i | 0 <= i < |es| :: r[i] == es[i].key + ": " + Repr(es[i].val)
  {
    if |es| == 0 then [] else [es[0].key + ": " + Repr(es[0].val)] + RenderEntries(es[1..])
  }

  /** A map renders as its entries joined by ", " between braces: the loop
      writes ", " after every entry and backspaces over the last one. The
      empty map is `{}`. */
  lemma {:induction false} ReprMap(es: seq<Entry>)
    ensures |es| == 0 ==> Repr(VMap(es)) == "{}"
    ensures |es| > 0 ==> Repr(VMap(es)) == "{" + JoinStrings(RenderEntries(es), ", ") + ", " + [Backspace, Backspace] + "}"
  {
    if |es| > 0 {
      ReprEntriesJoin(es);
    }
  }

  lemma {:induction false} ReprEntriesJoin(es: seq<Entry>)
    requires |es| > 0
    ensures ReprEntries(es) == JoinStrings(RenderEntries(es), ", ") + ", "
  {
    var head := es[0].key + ": " + Repr(es[0].val);
    assert RenderEntries(es)[1..] == RenderEntries(es[1..]);
    if |es| == 1 {
      assert ReprEntries(es[1..]) == "";
    } else {
      ReprEntriesJoin(es[1..]);
    }
  }

  /** `strings.Join`. */
  function JoinStrings(parts: seq<string>, sep: string): string
  {
    if |parts| == 0 then ""
    else if |parts| == 1 then parts[0]
    else parts[0] + sep + JoinStrings(parts[1..], sep)
  }

  lemma {:induction false} ReprItemsJoin(items: seq<Value>)
    ensures ReprItems(items) == JoinStrings(RenderAll(items), ", ")
  {
    if |items| > 1 {
      ReprItemsJoin(items[1..]);
      assert RenderAll(items)[1..] == RenderAll(items[1..]);
    }
  }

  //
  // Truthiness and negation
  //

  /** `isTruthy`: only a nonzero number is true. */
  predicate IsTruthy(v: Value)
  {
    v.VNum? && v.num != 0
  }

  /** Truthiness in terms of equality: a value is true exactly when it is a
      number that `Compare` finds unequal to 0, so nil, strings and every
      container are false. */
  lemma Truthiness(v: Value)
    ensures IsTruthy(v) <==> v.VNum? && Compare(v, VNum(0)) == Ok(false)
    ensures IsTruthy(v) ==> String(v) != "0"
  {
    if IsTruthy(v) && v.num > 0 {
      assert String(v)[0] != '0';
    }
  }

  /** `negate`: the distance of a number from 1, computed in 64-bit
      arithmetic; nil for anything else. */
  function Negate(v: Value): (r: Value)
    ensures v.VNum? <==> r.VNum?
    ensures !v.VNum? ==> r == VNil
  {
    match v
    case VNum(n) =>
      var m := Wrap64(n - 1);
      VNum(if m < 0 then Wrap64(-m) else m)
    case _ => VNil
  }

  /** On numbers whose distance from 1 fits in 64 bits, `negate` is that
      distance: it swaps 0 and 1. */
  lemma NegateIsDistance(n: int)
    requires MinInt64 + 1 < n <= MaxInt64
    ensures Negate(VNum(n)) == VNum(if n >= 1 then n - 1 else 1 - n)
    ensures n == 0 || n == 1 ==> Negate(Negate(VNum(n))) == VNum(n)
  {
  }

  /** Negation is logical negation of the 64-bit number: the result is true
      exactly when the number was not 1. */
  lemma NegateTruthiness(v: Value)
    requires v.VNum? ==> MinInt64 <= v.num <= MaxInt64
    ensures IsTruthy(Negate(v)) <==> v.VNum? && v.num != 1
  {
  }

  //
  // Subscripts
  //

  /** The containers and key kinds `getKey` handles. */
  predicate Subscriptable(v: Value, key: Value)
  {
    (v.VArray? && key.VNum?) || (v.VMap? && KeyString(key).Some?) || (v.VStr? && key.VNum?)
  }

  /** `getKey`: an array element by index, a map value by key (nil when the
      key is missing), a one-character string by index. An index past the
      end is an error, and so is any other container or key kind. */
  function GetKey(v: Value, key: Value): (r: Result<Value>)
    requires v.VStr? && key.VNum? ==> key.num >= 0
    ensures r.Err? ==> r.error.tag == RuntimeError
    ensures r.Ok? <==> Subscriptable(v, key) && (v.VArray? ==> 0 <= key.num < |v.items|) && (v.VStr? ==> key.num < |v.str|)
    ensures v.VArray? && r.Ok? ==> 0 <= key.num < |v.items| && r.value == v.items[key.num]
    ensures v.VStr? && r.Ok? ==> r.value == VStr([v.str[key.num]])
    ensures v.VMap? && r.Ok? ==>
      var k := KeyString(key).value;
      (k in Keys(v.entries) ==> Entry(k, r.value) in v.entries) && (k !in Keys(v.entries) ==> r.value == VNil)
  {
    if v.VArray? && key.VNum? then
      var index := key.num;
      if index >= |v.items| || index < 0 then RuntimeFailure("index " + IntToString(index) + " out of range")
      else Ok(v.items[index])
    else if v.VMap? && KeyString(key).Some? then
      var found := Lookup(v.entries, KeyString(key).value);
      Ok(if found.Some? then found.value else VNil)
    else if v.VStr? && key.VNum? then
      var index := key.num;
      if index >= |v.str| then RuntimeFailure("index " + IntToString(index) + " out of range")
      else Ok(VStr([v.str[index]]))
    else
      RuntimeFailure("cannot subscript a " + TagString(TagOf(v)) + " with a " + TagString(TagOf(key)))
  }

  /** `setKey`: writes an array element or a map entry and reports whether it
      did; any other container or key kind is left alone. The second
      component is the container after the write. */
  function SetKey(v: Value, key: Value, val: Value): (r: (bool, Value))
    requires v.VArray? && key.VNum? ==> 0 <= key.num < |v.items|
    ensures r.0 <==> (v.VArray? && key.VNum?) || (v.VMap? && KeyString(key).Some?)
    ensures !r.0 ==> r.1 == v
    ensures TagOf(r.1) == TagOf(v)
    ensures v.VArray? ==> |r.1.items| == |v.items|
  {
    if v.VArray? && key.VNum? then (true, VArray(v.items[key.num := val]))
    else if v.VMap? && KeyString(key).Some? then (true, VMap(Put(v.entries, KeyString(key).value, val)))
    else (false, v)
  }

  /** A key a map does not hold reads as nil, and one it holds as the value
      stored under it. */
  lemma GetMissingKey(m: seq<Entry>, key: Value)
    requires KeyString(key).Some?
    ensures Lookup(m, KeyString(key).value).None? ==> GetKey(VMap(m), key) == Ok(VNil)
    ensures Lookup(m, KeyString(key).value).Some? ==> GetKey(VMap(m), key) == Ok(Lookup(m, KeyString(key).value).value)
  {
  }

  /** Reading a map back under the key just written gives the value written. */
  lemma GetAfterSetMap(m: seq<Entry>, key: Value, val: Value)
    requires KeyString(key).Some?
    ensures GetKey(SetKey(VMap(m), key, val).1, key) == Ok(val)
  {
    LookupPut(m, KeyString(key).value, val, KeyString(key).value);
  }

  /** Writing a map entry leaves every other key as it was. */
  lemma GetAfterSetMapOther(m: seq<Entry>, key: Value, other: Value, val: Value)
    requires KeyString(key).Some? && KeyString(other).Some? && KeyString(other) != KeyString(key)
    ensures GetKey(SetKey(VMap(m), key, val).1, other) == GetKey(VMap(m), other)
  {
    LookupPut(m, KeyString(key).value, val, KeyString(other).value);
  }

  /** A number key and its decimal text name the same map entry. */
  lemma NumKeyIsText(m: seq<Entry>, n: int)
    ensures GetKey(VMap(m), VNum(n)) == GetKey(VMap(m), VStr(IntToString(n)))
  {
  }

  /** Writing an array element changes that element only. */
  lemma GetAfterSetArray(a: seq<Value>, i: int, j: int, val: Value)
    requires 0 <= i < |a| && 0 <= j < |a|
    ensures GetKey(SetKey(VArray(a), VNum(i), val).1, VNum(j)) == (if j == i then Ok(val) else Ok(a[j]))
  {
  }

  //
  // Equality
  //

  /** `Compare`: equality of two numbers, two strings or two nils; nil
      against anything else is unequal, and every other pairing is an
      error. */
  function Compare(a: Value, b: Value): (r: Result<bool>)
    ensures r.Ok? <==> (a.VNum? && b.VNum?) || (a.VStr? && b.VStr?) || a.VNil? || b.VNil?
    ensures r.Ok? ==> (r.value <==> a == b)
    ensures r.Err? ==> r.error.tag == RuntimeError
  {
    if a.VNum? && b.VNum? then Ok(a.num == b.num)
    else if a.VStr? && b.VStr? then Ok(a.str == b.str)
    else if a.VNil? && b.VNil? then Ok(true)
    else if a.VNil? || b.VNil? then Ok(false)
    else RuntimeFailure("cannot compare " + TagString(TagOf(a)) + " and " + TagString(TagOf(b)))
  }

  /** The order of the operands does not matter, except in the wording of
      the error. */
  lemma CompareSymmetric(a: Value, b: Value)
    ensures Compare(a, b).Ok? <==> Compare(b, a).Ok?
    ensures Compare(a, b).Ok? ==> Compare(a, b) == Compare(b, a)
  {
  }

  //
  // Ranges
  //

  /** `done`: the iteration has reached its end. */
  predicate Done(r: Range)
  {
    r.current == r.end
  }

  /** `next`: one step towards the end, in 64-bit arithmetic, unless done. */
  function Next(r: Range): (r': Range)
    ensures r'.end == r.end && r'.step == r.step
    ensures Done(r) ==> r' == r
  {
    if Done(r) then r else r.(current := Wrap64(r.current + r.step))
  }

  /** Once done, stepping again changes nothing. */
  lemma NextIdempotentWhenDone(r: Range)
    requires Done(r)
    ensures Next(Next(r)) == Next(r) && Done(Next(r))
  {
  }
}
