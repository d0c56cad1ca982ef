/** The built-in functions of src/runtime.go that compute without side
    effects: the shared argument checker, `num`, `split`, `len`, `push`,
    `delete`, `range`, `rangei` and `sort`.

    A Go `panic` inside a built-in becomes an `Err` carrying a runtime error
    whose line is 0. Strings are ASCII, so a character is a byte. */
module Runtime {
  import opened Errors
  import opened Numerals
  import opened Values

  //
  // Argument checking
  //

  /** The text `checkArgs` panics with when an argument has the wrong tag. */
  function MismatchMessage(expected: ValueTag, got: ValueTag): string
  {
    "arg type mismatch: expected " + TagString(expected) + " got " + TagString(got)
  }

  /** The error `checkArgs` raises for argument `j`. */
  function MismatchError(args: seq<Value>, tags: seq<ValueTag>, j: nat): Error
    requires |args| == |tags| && j < |tags|
  {
    E(RuntimeError, MismatchMessage(tags[j], TagOf(args[j])), 0)
  }

  /** Argument `j` is the first from `from` on whose tag is wrong. */
  predicate FirstMismatch(args: seq<Value>, tags: seq<ValueTag>, from: nat, j: nat)
    requires |args| == |tags|
  {
    from <= j < |tags| && TagOf(args[j]) != tags[j] && forall k | from <= k < j :: TagOf(args[k]) == tags[k]
  }

  /** `e` is the error for the first wrong argument from `from` on. */
  ghost predicate ReportsFirstMismatch(args: seq<Value>, tags: seq<ValueTag>, from: nat, e: Error)
    requires |args| == |tags|
  {
    exists j: nat :: FirstMismatch(args, tags, from, j) && e == MismatchError(args, tags, j)
  }

  /** `checkArgs`: exactly as many arguments as tags, each with its tag. The
      count is checked first; then the first argument with a wrong tag is
      reported. */
  function CheckArgs(args: seq<Value>, tags: seq<ValueTag>): (r: Outcome)
    ensures r.Pass? <==> |args| == |tags| && forall i | 0 <= i < |tags| :: TagOf(args[i]) == tags[i]
    ensures |args| != |tags| ==> r == Fail(E(RuntimeError, "arg count mismatch", 0))
    ensures |args| == |tags| && r.Fail? ==> ReportsFirstMismatch(args, tags, 0, r.error)
  {
    if |args| != |tags| then Fail(E(RuntimeError, "arg count mismatch", 0))
    else CheckTags(args, tags, 0)
  }

  /** The tag loop of `checkArgs`, from argument `i` on. */
  function CheckTags(args: seq<Value>, tags: seq<ValueTag>, i: nat): (r: Outcome)
    requires |args| == |tags| && i <= |tags|
    ensures r.Pass? <==> forall j | i <= j < |tags| :: TagOf(args[j]) == tags[j]
    ensures r.Fail? ==> ReportsFirstMismatch(args, tags, i, r.error)
    decreases |tags| - i
  {
    if i == |tags| then Pass
    else if TagOf(args[i]) != tags[i] then
      assert FirstMismatch(args, tags, i, i);
      Fail(MismatchError(args, tags, i))
    else
      var r := CheckTags(args, tags, i + 1);
      if r.Fail? then
        ReportsEarlier(args, tags, i, r.error);
        r
      else
        r
  }

  /** A first mismatch after a matching argument `i` is the first mismatch from `i`. */
  lemma ReportsEarlier(args: seq<Value>, tags: seq<ValueTag>, i: nat, e: Error)
    requires |args| == |tags| && i < |tags| && TagOf(args[i]) == tags[i]
    requires ReportsFirstMismatch(args, tags, i + 1, e)
    ensures ReportsFirstMismatch(args, tags, i, e)
  {
    var j: nat :| FirstMismatch(args, tags, i + 1, j) && e == MismatchError(args, tags, j);
    assert FirstMismatch(args, tags, i, j);
  }

  //
  // num
  //

  /** The ASCII characters `unicode.IsSpace` accepts. */
  predicate IsSpace(c: char)
  {
    c == ' ' || c == '\t' || c == '\n' || c == '\r' || c == 11 as char || c == 12 as char
  }

  /** The first position at or after `i` that is not white space. */
  function SkipSpaces(s: string, i: nat): (r: nat)
    requires i <= |s|
    ensures i <= r <= |s|
    ensures forall k | i <= k < r :: IsSpace(s[k])
    ensures r < |s| ==> !IsSpace(s[r])
    decreases |s| - i
  {
    if i < |s| && IsSpace(s[i]) then SkipSpaces(s, i + 1) else i
  }

  /** The start of the white space that ends `s[..j]`, looking no further
      back than `lo`. */
  function SkipSpacesBack(s: string, lo: nat, j: nat): (r: nat)
    requires lo <= j <= |s|
    ensures lo <= r <= j
    ensures forall k | r <= k < j :: IsSpace(s[k])
    ensures r > lo ==> !IsSpace(s[r - 1])
    decreases j
  {
    if j > lo && IsSpace(s[j - 1]) then SkipSpacesBack(s, lo, j - 1) else j
  }

  /** `strings.TrimSpace`: the text without its leading and trailing white
      space. */
  function TrimSpace(s: string): (r: string)
    ensures |r| > 0 ==> !IsSpace(r[0]) && !IsSpace(r[|r| - 1])
    ensures exists i, j | 0 <= i <= j <= |s| ::
      (r == s[i..j] && (forall k | 0 <= k < i :: IsSpace(s[k])) && (forall k | j <= k < |s| :: IsSpace(s[k])))
  {
    var i := SkipSpaces(s, 0);
    var j := SkipSpacesBack(s, i, |s|);
    assert j > i ==> s[i..j][0] == s[i] && s[i..j][j - i - 1] == s[j - 1];
    s[i..j]
  }

  /** `nativeNum`: one string argument, read as a decimal number once white
      space is trimmed from both ends; text that is not a number gives nil. */
  function Num(args: seq<Value>): (r: Result<Value>)
    ensures r.Ok? <==> |args| == 1 && args[0].VStr?
    ensures r.Ok? ==> r.value.VNil? || r.value.VNum?
    ensures r.Ok? && r.value.VNum? ==> Atoi(TrimSpace(args[0].str)) == Parsed(r.value.num)
    ensures r.Ok? && r.value.VNil? ==> !Atoi(TrimSpace(args[0].str)).Parsed?
  {
    var check := CheckArgs(args, [ValStr]);
    if check.Fail? then Err(check.error)
    else
      match Atoi(TrimSpace(args[0].str))
      case Parsed(n) => Ok(VNum(n))
      case _ => Ok(VNil)
  }

  /** A number rendered by the language, with white space around it, reads
      back through `num` as that number. */
  lemma NumReadsRendered(n: int, before: string, after: string)
    requires MinInt64 <= n <= MaxInt64
    requires forall k | 0 <= k < |before| :: IsSpace(before[k])
    requires forall k | 0 <= k < |after| :: IsSpace(after[k])
    ensures Num([VStr(before + String(VNum(n)) + after)]) == Ok(VNum(n))
  {
    var t := IntToString(n);
    assert String(VNum(n)) == t;
    RenderedEnds(n);
    TrimAround(before, t, after);
    AtoiOfIntToString(n);
  }

  /** A rendered number neither starts nor ends with white space. */
  lemma RenderedEnds(n: int)
    ensures var t := IntToString(n); |t| > 0 && !IsSpace(t[0]) && !IsSpace(t[|t| - 1])
  {
    var d := NatToString(if n < 0 then -n else n);
    assert IsDigitChar(d[0]) && IsDigitChar(d[|d| - 1]);
    if n < 0 {
      assert IntToString(n) == "-" + d;
    }
  }

  /** Trimming white space off text that starts and ends with something else
      gives that text. */
  lemma TrimAround(before: string, t: string, after: string)
    requires |t| > 0 && !IsSpace(t[0]) && !IsSpace(t[|t| - 1])
    requires forall k | 0 <= k < |before| :: IsSpace(before[k])
    requires forall k | 0 <= k < |after| :: IsSpace(after[k])
    ensures TrimSpace(before + t + after) == t
  {
    var s := before + t + after;
    var r := TrimSpace(s);
    var i, j :| 0 <= i <= j <= |s| && r == s[i..j] &&
      (forall k | 0 <= k < i :: IsSpace(s[k])) && (forall k | j <= k < |s| :: IsSpace(s[k]));
    TrimmedCore(before, t, after, i, j);
  }

  /** Trimming white space off text that starts and ends with something else
      leaves exactly that text. */
  lemma TrimmedCore(before: string, t: string, after: string, i: int, j: int)
    requires |t| > 0 && !IsSpace(t[0]) && !IsSpace(t[|t| - 1])
    requires forall k | 0 <= k < |before| :: IsSpace(before[k])
    requires forall k | 0 <= k < |after| :: IsSpace(after[k])
    requires 0 <= i <= j <= |before + t + after|
    requires var s := before + t + after;
      (forall k | 0 <= k < i :: IsSpace(s[k])) && (forall k | j <= k < |s| :: IsSpace(s[k]))
    requires var r := (before + t + after)[i..j]; |r| > 0 ==> !IsSpace(r[0]) && !IsSpace(r[|r| - 1])
    ensures (before + t + after)[i..j] == t
  {
    var s := before + t + after;
    var r := s[i..j];
    assert forall k | 0 <= k < |before| :: s[k] == before[k];
    assert forall k | |before| + |t| <= k < |s| :: s[k] == after[k - |before| - |t|];
    assert !IsSpace(s[|before|]) && !IsSpace(s[|before| + |t| - 1]);
    assert i <= |before| && |before| + |t| <= j;
    assert r[0] == s[i] && r[|r| - 1] == s[j - 1];
    assert s[i..j] == t;
  }

  //
  // split
  //

  /** `sep` occurs in `s` at offset `i`. */
  predicate OccursAt(s: string, sep: string, i: int)
  {
    0 <= i && i + |sep| <= |s| && s[i..i + |sep|] == sep
  }

  /** `strings.Index` from offset `from` on: the first occurrence. */
  function IndexFrom(s: string, sep: string, from: nat): (r: Option<nat>)
    ensures r.Some? ==> from <= r.value && OccursAt(s, sep, r.value)
    ensures r.Some? ==> forall j | from <= j < r.value :: !OccursAt(s, sep, j)
    ensures r.None? ==> forall j | from <= j :: !OccursAt(s, sep, j)
    decreases |s| - from
  {
    if from + |sep| > |s| then None
    else if s[from..from + |sep|] == sep then Some(from)
    else IndexFrom(s, sep, from + 1)
  }

  /** `strings.Split` with a non-empty separator: the text between the
      leftmost non-overlapping occurrences. */
  function SplitOn(s: string, sep: string): (r: seq<string>)
    requires |sep| > 0
    ensures |r| >= 1
    decreases |s|
  {
    match IndexFrom(s, sep, 0)
    case None => [s]
    case Some(i) => [s[..i]] + SplitOn(s[i + |sep|..], sep)
  }

  /** `strings.Split` with an empty separator: one piece per character. */
  function Explode(s: string): (r: seq<string>)
    ensures |r| == |s|
  {
    if |s| == 0 then [] else [s[..1]] + Explode(s[1..])
  }

  function Split(s: string, sep: string): (r: seq<string>)
  {
    if |sep| == 0 then Explode(s) else SplitOn(s, sep)
  }

  /** `nativeSplit`: two strings; the pieces as an array of strings. */
  function SplitNative(args: seq<Value>): (r: Result<Value>)
    ensures r.Ok? <==> |args| == 2 && args[0].VStr? && args[1].VStr?
    ensures r.Ok? ==> r.value.VArray? && |r.value.items| == |Split(args[0].str, args[1].str)|
    ensures r.Ok? ==> forall k | 0 <= k < |r.value.items| :: r.value.items[k] == VStr(Split(args[0].str, args[1].str)[k])
  {
    var check := CheckArgs(args, [ValStr, ValStr]);
    if check.Fail? then Err(check.error)
    else
      var pieces := Split(args[0].str, args[1].str);
      Ok(VArray(seq(|pieces|, k requires 0 <= k < |pieces| => VStr(pieces[k]))))
  }

  /** `SplitOn` at its first occurrence of the separator. */
  lemma SplitOnFound(s: string, sep: string, i: nat)
    requires |sep| > 0 && IndexFrom(s, sep, 0) == Some(i)
    ensures i + |sep| <= |s|
    ensures SplitOn(s, sep) == [s[..i]] + SplitOn(s[i + |sep|..], sep)
    ensures s == s[..i] + sep + s[i + |sep|..]
    ensures forall j :: !OccursAt(s[..i], sep, j)
  {
    Around(s, sep, i);
    PrefixFree(s, sep, i);
  }

  lemma Around(s: string, sep: string, i: nat)
    requires OccursAt(s, sep, i)
    ensures s == s[..i] + sep + s[i + |sep|..]
  {
    assert s == s[..i] + s[i..i + |sep|] + s[i + |sep|..];
  }

  /** The text before a first occurrence does not contain the separator. */
  lemma PrefixFree(s: string, sep: string, i: nat)
    requires |sep| > 0 && i <= |s| && forall j | 0 <= j < i :: !OccursAt(s, sep, j)
    ensures forall j :: !OccursAt(s[..i], sep, j)
  {
    forall j ensures !OccursAt(s[..i], sep, j) {
      if 0 <= j && j + |sep| <= i {
        assert s[..i][j..j + |sep|] == s[j..j + |sep|];
        assert !OccursAt(s, sep, j);
      }
    }
  }

  /** Joining the pieces with the separator gives back the text. */
  lemma {:induction false} SplitJoin(s: string, sep: string)
    requires |sep| > 0
    ensures JoinStrings(SplitOn(s, sep), sep) == s
    decreases |s|
  {
    var found := IndexFrom(s, sep, 0);
    if found.Some? {
      var i := found.value;
      var rest := s[i + |sep|..];
      SplitOnFound(s, sep, i);
      SplitJoin(rest, sep);
      JoinCons(s[..i], SplitOn(rest, sep), sep);
    }
  }

  lemma JoinCons(p: string, tail: seq<string>, sep: string)
    requires |tail| >= 1
    ensures JoinStrings([p] + tail, sep) == p + sep + JoinStrings(tail, sep)
  {
    assert ([p] + tail)[1..] == tail;
  }

  /** No piece contains the separator. */
  lemma {:induction false} SplitPiecesFree(s: string, sep: string)
    requires |sep| > 0
    ensures forall k, j | 0 <= k < |SplitOn(s, sep)| :: !OccursAt(SplitOn(s, sep)[k], sep, j)
    decreases |s|
  {
    var r := SplitOn(s, sep);
    var found := IndexFrom(s, sep, 0);
    if found.Some? {
      var i := found.value;
      var rest := s[i + |sep|..];
      SplitOnFound(s, sep, i);
      SplitPiecesFree(rest, sep);
      var tail := SplitOn(rest, sep);
      forall k, j | 0 <= k < |r| ensures !OccursAt(r[k], sep, j) {
        if k > 0 {
          assert r[k] == tail[k - 1];
          assert !OccursAt(tail[k - 1], sep, j);
        }
      }
    }
  }

  /** With an empty separator every piece is one character, and the pieces
      run together give back the text. */
  lemma {:induction false} ExplodeJoin(s: string)
    ensures forall k | 0 <= k < |Explode(s)| :: Explode(s)[k] == [s[k]]
    ensures JoinStrings(Explode(s), "") == s
  {
    if |s| > 0 {
      ExplodeJoin(s[1..]);
      var r := Explode(s);
      assert r == [s[..1]] + Explode(s[1..]);
      forall k | 0 <= k < |r| ensures r[k] == [s[k]] {
        if k > 0 { assert r[k] == Explode(s[1..])[k - 1]; }
      }
      if |s| > 1 {
        assert JoinStrings(r, "") == s[..1] + "" + JoinStrings(Explode(s[1..]), "");
      }
    }
  }

  //
  // len, push, delete
  //

  /** `nativeLen`: the element count of an array, the length of a string,
      and 0 for anything else. Only the first argument is looked at. */
  function Len(args: seq<Value>): (r: Value)
    requires |args| >= 1
    ensures r.VNum? && r.num >= 0
    ensures args[0].VArray? ==> r.num == |args[0].items|
    ensures args[0].VStr? ==> r.num == |args[0].str|
    ensures !args[0].VArray? && !args[0].VStr? ==> r.num == 0
  {
    match args[0]
    case VArray(items) => VNum(|items|)
    case VStr(s) => VNum(|s|)
    case _ => VNum(0)
  }

  /** `nativePush`: a new array of the first argument's elements followed by
      the second argument; arguments past the second are ignored. */
  function Push(args: seq<Value>): (r: Result<Value>)
    ensures r.Ok? <==> |args| >= 2 && args[0].VArray?
    ensures |args| < 2 ==> r == RuntimeFailure("arg count mismatch")
    ensures |args| >= 2 && !args[0].VArray? ==> r == RuntimeFailure("can only push to an array")
    ensures r.Ok? ==> r.value.VArray? && |r.value.items| == |args[0].items| + 1
    ensures r.Ok? ==> r.value.items[..|args[0].items|] == args[0].items && r.value.items[|args[0].items|] == args[1]
  {
    if |args| < 2 then RuntimeFailure("arg count mismatch")
    else if !args[0].VArray? then RuntimeFailure("can only push to an array")
    else Ok(VArray(args[0].items + [args[1]]))
  }

  /** The array without its element at index `i`; unchanged when `i` is not
      an index of it. */
  function Without(items: seq<Value>, i: int): seq<Value>
  {
    if 0 <= i < |items| then items[..i] + items[i + 1..] else items
  }

  /** `nativeDelete`: an array and a number; copies every element whose index
      is not that number into a kept array. */
  method Delete(args: seq<Value>) returns (r: Result<Value>)
    ensures r.Ok? <==> CheckArgs(args, [ValArray, ValNum]).Pass?
    ensures r.Err? ==> r.error == CheckArgs(args, [ValArray, ValNum]).error
    ensures r.Ok? ==> r == Ok(VArray(Without(args[0].items, args[1].num)))
  {
    var check := CheckArgs(args, [ValArray, ValNum]);
    if check.Fail? {
      return Err(check.error);
    }
    var items := args[0].items;
    var skip := args[1].num;
    var kept: seq<Value> := [];
    var index := 0;
    while index < |items|
      invariant 0 <= index <= |items|
      invariant kept == if 0 <= skip < index then items[..skip] + items[skip + 1..index] else items[..index]
    {
      if index != skip {
        kept := kept + [items[index]];
      }
      index := index + 1;
    }
    assert items[..index] == items;
    return Ok(VArray(kept));
  }

  /** Deleting an index of the array removes exactly that element; every
      element after it moves down one place. */
  lemma DeleteInRange(items: seq<Value>, i: int)
    requires 0 <= i < |items|
    ensures |Without(items, i)| == |items| - 1
    ensures forall k | 0 <= k < i :: Without(items, i)[k] == items[k]
    ensures forall k | i <= k < |items| - 1 :: Without(items, i)[k] == items[k + 1]
    ensures multiset(Without(items, i)) + multiset{items[i]} == multiset(items)
  {
    assert items == items[..i] + [items[i]] + items[i + 1..];
  }

  /** Deleting anything else changes nothing. */
  lemma DeleteOutOfRange(items: seq<Value>, i: int)
    requires i < 0 || i >= |items|
    ensures Without(items, i) == items
  {
  }

  //
  // range, rangei
  //

  /** The step `range` and `rangei` choose: down when the end is below the
      start, up otherwise. */
  function StepFor(from: int, to: int): (step: int)
    ensures step == 1 || step == -1
    ensures step == -1 <==> to < from
  {
    if to < from then -1 else 1
  }

  /** `nativeRange`: from the first number up or down to the second,
      exclusive. */
  function RangeOf(args: seq<Value>): (r: Result<Value>)
    ensures r.Ok? <==> CheckArgs(args, [ValNum, ValNum]).Pass?
    ensures r.Ok? ==> r.value == VRange(Range(args[0].num, args[1].num, StepFor(args[0].num, args[1].num)))
  {
    var check := CheckArgs(args, [ValNum, ValNum]);
    if check.Fail? then Err(check.error)
    else
      var from := args[0].num;
      var to := args[1].num;
      Ok(VRange(Range(from, to, StepFor(from, to))))
  }

  /** `nativeRangeI`: like `range`, but the end moved one step further (in
      64-bit arithmetic), so that the second number is included. */
  function RangeInclusive(args: seq<Value>): (r: Result<Value>)
    ensures r.Ok? <==> CheckArgs(args, [ValNum, ValNum]).Pass?
    ensures r.Ok? ==> r.value.VRange? && r.value.rng.current == args[0].num
    ensures r.Ok? ==> r.value.rng.step == StepFor(args[0].num, args[1].num)
    ensures r.Ok? ==> r.value.rng.end == Wrap64(args[1].num + r.value.rng.step)
  {
    var check := CheckArgs(args, [ValNum, ValNum]);
    if check.Fail? then Err(check.error)
    else
      var from := args[0].num;
      var to := args[1].num;
      var step := StepFor(from, to);
      Ok(VRange(Range(from, Wrap64(to + step), step)))
  }

  /** The range after `k` calls of `next`. */
  function Steps(r: Range, k: nat): Range
    decreases k
  {
    if k == 0 then r else Steps(Next(r), k - 1)
  }

  /** How many steps of ±1 separate the current position from the end. */
  function Distance(r: Range): int
  {
    (r.end - r.current) * r.step
  }

  /** A range stepping by one towards an end it can reach passes through
      every number on the way and is done exactly when it arrives. */
  lemma {:induction false} StepsTowardsEnd(r: Range, k: nat)
    requires r.step == 1 || r.step == -1
    requires MinInt64 <= r.current <= MaxInt64 && MinInt64 <= r.end <= MaxInt64
    requires Distance(r) >= 0 && k <= Distance(r)
    ensures Steps(r, k) == r.(current := r.current + k * r.step)
    ensures Done(Steps(r, k)) <==> k == Distance(r)
    decreases k
  {
    if k > 0 {
      var n := Next(r);
      if r.step == 1 {
        assert n == r.(current := r.current + 1) && Distance(n) == Distance(r) - 1;
        StepsTowardsEnd(n, k - 1);
        assert r.current + k * r.step == n.current + (k - 1) * n.step;
      } else {
        assert n == r.(current := r.current - 1) && Distance(n) == Distance(r) - 1;
        StepsTowardsEnd(n, k - 1);
        assert r.current + k * r.step == n.current + (k - 1) * n.step;
      }
    }
  }

  /** `range(a, b)` visits a, a ± 1, … and is done after exactly |b - a|
      steps, so b itself is never visited. */
  lemma RangeVisits(a: int, b: int, k: nat)
    requires MinInt64 <= a <= MaxInt64 && MinInt64 <= b <= MaxInt64
    requires k <= if b >= a then b - a else a - b
    ensures var r := RangeOf([VNum(a), VNum(b)]).value.rng;
      Steps(r, k).current == a + k * r.step &&
      (Done(Steps(r, k)) <==> k == if b >= a then b - a else a - b)
  {
    var r := RangeOf([VNum(a), VNum(b)]).value.rng;
    StepsTowardsEnd(r, k);
  }

  /** `rangei(a, b)` visits b as its last number, when b ± 1 still fits in 64
      bits. */
  lemma RangeInclusiveVisitsEnd(a: int, b: int)
    requires MinInt64 <= a <= MaxInt64 && MinInt64 <= b <= MaxInt64
    requires MinInt64 <= b + StepFor(a, b) <= MaxInt64
    ensures var r := RangeInclusive([VNum(a), VNum(b)]).value.rng;
      var d := if b >= a then b - a else a - b;
      Steps(r, d).current == b && !Done(Steps(r, d)) && Done(Steps(r, d + 1))
  {
    var r := RangeInclusive([VNum(a), VNum(b)]).value.rng;
    var d := if b >= a then b - a else a - b;
    assert Distance(r) == d + 1;
    StepsTowardsEnd(r, d);
    StepsTowardsEnd(r, d + 1);
  }

  //
  // sort
  //

  predicate AllNumbers(items: seq<Value>)
  {
    forall i | 0 <= i < |items| :: items[i].VNum?
  }

  predicate Sorted(items: seq<Value>)
    requires AllNumbers(items)
  {
    forall i, j | 0 <= i < j < |items| :: items[i].num <= items[j].num
  }

  function Insert(x: Value, items: seq<Value>): (r: seq<Value>)
    requires x.VNum? && AllNumbers(items) && Sorted(items)
    ensures AllNumbers(r) && Sorted(r)
    ensures multiset(r) == multiset(items) + multiset{x}
    ensures |r| == |items| + 1
    ensures |items| > 0 ==> r[0] == x || r[0] == items[0]
  {
    if |items| == 0 then [x]
    else if x.num <= items[0].num then
      SortedCons(x, items);
      [x] + items
    else
      var rest := Insert(x, items[1..]);
      assert items == [items[0]] + items[1..];
      SortedCons(items[0], rest);
      [items[0]] + rest
  }

  /** A number no greater than the head of a sorted sequence may go in
      front of it. */
  lemma SortedCons(h: Value, rest: seq<Value>)
    requires h.VNum? && AllNumbers(rest) && Sorted(rest)
    requires |rest| > 0 ==> h.num <= rest[0].num
    ensures AllNumbers([h] + rest) && Sorted([h] + rest)
  {
    var r := [h] + rest;
    forall i, j | 0 <= i < j < |r| ensures r[i].num <= r[j].num {
      if i == 0 && j > 1 {
        assert r[j] == rest[j - 1];
      }
    }
  }

  /** Insertion sort on numbers. */
  function SortNumbers(items: seq<Value>): (r: seq<Value>)
    requires AllNumbers(items)
    ensures AllNumbers(r) && Sorted(r) && multiset(r) == multiset(items)
  {
    if |items| == 0 then []
    else
      assert items == [items[0]] + items[1..];
      Insert(items[0], SortNumbers(items[1..]))
  }

  /** `nativeSort`: a new array with the numbers of the argument in
      nondecreasing order. An array of at most one element is copied as it
      is, whatever it holds, since the comparator is never consulted. */
  function Sort(args: seq<Value>): (r: Result<Value>)
    requires |args| == 1 && args[0].VArray? ==> |args[0].items| <= 1 || AllNumbers(args[0].items)
    ensures r.Ok? <==> |args| == 1 && args[0].VArray?
    ensures r.Ok? ==> r.value.VArray? && multiset(r.value.items) == multiset(args[0].items)
    ensures r.Ok? && AllNumbers(args[0].items) ==> AllNumbers(r.value.items) && Sorted(r.value.items)
    ensures r.Ok? && |args[0].items| <= 1 ==> r.value.items == args[0].items
  {
    var check := CheckArgs(args, [ValArray]);
    if check.Fail? then Err(check.error)
    else if |args[0].items| <= 1 || !AllNumbers(args[0].items) then Ok(VArray(args[0].items))
    else Ok(VArray(SortNumbers(args[0].items)))
  }

  /** There is only one sorted arrangement of a collection of numbers, so
      `sort` gives the same array as any other sort of it, stable or not. */
  lemma {:induction false} SortedUnique(a: seq<Value>, b: seq<Value>)
    requires AllNumbers(a) && AllNumbers(b) && Sorted(a) && Sorted(b)
    requires multiset(a) == multiset(b)
    ensures a == b
    decreases |a|
  {
    assert |a| == |multiset(a)| == |b|;
    if |a| > 0 {
      LeastFirst(b, a[0]);
      LeastFirst(a, b[0]);
      assert a[0] == b[0];
      Tail(a);
      Tail(b);
      SortedUnique(a[1..], b[1..]);
    }
  }

  /** The first element of a sorted sequence is its least. */
  lemma LeastFirst(a: seq<Value>, x: Value)
    requires AllNumbers(a) && Sorted(a) && x in multiset(a)
    ensures a[0].num <= x.num
  {
    var j :| 0 <= j < |a| && a[j] == x;
  }

  lemma Tail(a: seq<Value>)
    requires |a| > 0
    ensures multiset(a[1..]) == multiset(a) - multiset{a[0]}
  {
    assert a == [a[0]] + a[1..];
  }
}
