/**
 * The part of PHP's value model that the queue client relies on: scalars and
 * ordered arrays, reading an offset (`$v[$k]`), `isset`, `empty`, `??`, the
 * cast of a string offset to an array key, and `explode('.', ...)`.
 */
module Php {
  import opened Wrappers

  /** An array key: PHP arrays are keyed by integers or by strings. */
  datatype Key = IntKey(i: int) | StrKey(s: string)

  /**
   * A PHP value. Integers are unbounded here (PHP's are 64-bit). A float is
   * kept as its IEEE 754 bit pattern, which is all the client ever looks at
   * (through truthiness). An array is its entries in insertion order.
   */
  datatype Value =
    | Null
    | Bool(b: bool)
    | Int(i: int)
    | Float(bits: bv64)
    | Str(s: string)
    | Opaque(handle: nat)   // an object or a resource: passed through, never inspected
    | Arr(entries: seq<(Key, Value)>)

  /** The exceptions the client can raise or let through. */
  datatype Error =
    | TypeError                          // a declared parameter type was not met
    | InvalidArgument(message: string)   // \InvalidArgumentException
    | Thrown(message: string)            // anything the database driver throws

  /** The value stored under `k`: that of the first entry with key `k` (a PHP array holds each key once). */
  function Lookup(entries: seq<(Key, Value)>, k: Key): (r: Option<Value>)
    ensures r.None? <==> forall i | 0 <= i < |entries| :: entries[i].0 != k
    ensures r.Some? ==> (k, r.value) in entries
  {
    if |entries| == 0 then None
    else if entries[0].0 == k then Some(entries[0].1)
    else Lookup(entries[1..], k)
  }

  lemma {:induction false} LookupFirst(entries: seq<(Key, Value)>, i: nat)
    requires i < |entries|
    requires forall j | 0 <= j < i :: entries[j].0 != entries[i].0
    ensures Lookup(entries, entries[i].0) == Some(entries[i].1)
  {
    if i > 0 {
      LookupFirst(entries[1..], i - 1);
    }
  }

  /** `$v[$k]` read as a value: null (with a notice) when `v` is not an array or has no key `k`. */
  function Index(v: Value, k: Key): Value
  {
    if v.Arr? then Lookup(v.entries, k).GetOr(Null) else Null
  }

  /** `isset($v[$k])`: `v` is an array with key `k` and the value there is not null. */
  predicate IsSet(v: Value, k: Key)
  {
    v.Arr? && Lookup(v.entries, k).Some? && Lookup(v.entries, k).value != Null
  }

  /** `$v[$k] ?? $otherwise`. */
  function Coalesce(v: Value, k: Key, otherwise: Value): Value
  {
    if IsSet(v, k) then Index(v, k) else otherwise
  }

  /** The conversion to bool yields false: null, false, 0, 0.0 and -0.0, "", "0" and the empty array. */
  predicate Falsy(v: Value)
  {
    match v
    case Null => true
    case Bool(b) => !b
    case Int(i) => i == 0
    case Float(bits) => bits & 0x7FFF_FFFF_FFFF_FFFF == 0
    case Str(s) => s == "" || s == "0"
    case Opaque(_) => false
    case Arr(entries) => |entries| == 0
  }

  /** `empty($v[$k])`: the offset is not set, or it holds a falsy value. */
  predicate EmptyAt(v: Value, k: Key)
  {
    !IsSet(v, k) || Falsy(Index(v, k))
  }

  /** An offset is set exactly when reading it gives something other than null. */
  lemma IsSetIffIndex(v: Value, k: Key)
    ensures IsSet(v, k) <==> Index(v, k) != Null
    ensures EmptyAt(v, k) <==> Falsy(Index(v, k))
  {
  }

  /** `$a + $b` on arrays: the entries of `a`, then those entries of `b` whose key `a` lacks. */
  function Union(a: seq<(Key, Value)>, b: seq<(Key, Value)>): (r: seq<(Key, Value)>)
    ensures |a| <= |r| <= |a| + |b| && r[..|a|] == a
    ensures forall e | e in r[|a|..] :: e in b && Lookup(a, e.0).None?
  {
    a + Missing(a, b)
  }

  /** The entries of `b` whose key does not occur in `a`, in order. */
  function Missing(a: seq<(Key, Value)>, b: seq<(Key, Value)>): (m: seq<(Key, Value)>)
    ensures |m| <= |b|
    ensures forall e | e in m :: e in b && Lookup(a, e.0).None?
  {
    if |b| == 0 then []
    else (if Lookup(a, b[0].0).None? then [b[0]] else []) + Missing(a, b[1..])
  }

  lemma {:induction false} LookupAppend(x: seq<(Key, Value)>, y: seq<(Key, Value)>, k: Key)
    ensures Lookup(x + y, k) == if Lookup(x, k).Some? then Lookup(x, k) else Lookup(y, k)
  {
    if |x| > 0 {
      assert (x + y)[1..] == x[1..] + y;
      LookupAppend(x[1..], y, k);
    } else {
      assert x + y == y;
    }
  }

  lemma {:induction false} LookupMissing(a: seq<(Key, Value)>, b: seq<(Key, Value)>, k: Key)
    requires Lookup(a, k).None?
    ensures Lookup(Missing(a, b), k) == Lookup(b, k)
  {
    if |b| > 0 {
      LookupMissing(a, b[1..], k);
      var head := if Lookup(a, b[0].0).None? then [b[0]] else [];
      LookupAppend(head, Missing(a, b[1..]), k);
    }
  }

  /** In `$a + $b` a key keeps its value from `a`; only keys that `a` lacks take theirs from `b`. */
  lemma UnionLookup(a: seq<(Key, Value)>, b: seq<(Key, Value)>, k: Key)
    ensures Lookup(Union(a, b), k) == if Lookup(a, k).Some? then Lookup(a, k) else Lookup(b, k)
  {
    LookupAppend(a, Missing(a, b), k);
    if Lookup(a, k).None? {
      LookupMissing(a, b, k);
    }
  }

  /** The list literal `[v0, v1, ...]`: keys 0, 1, ... in order. */
  function List(vs: seq<Value>): (r: Value)
    ensures r.Arr? && |r.entries| == |vs|
  {
    Arr(seq(|vs|, i requires 0 <= i < |vs| => (IntKey(i), vs[i])))
  }

  /** Reading offset `k` of a list literal gives the element at that position, and null off the end or for a string key. */
  lemma ListIndex(vs: seq<Value>, k: Key)
    ensures Index(List(vs), k) == if k.IntKey? && 0 <= k.i < |vs| then vs[k.i] else Null
    ensures IsSet(List(vs), k) <==> k.IntKey? && 0 <= k.i < |vs| && vs[k.i] != Null
  {
    if k.IntKey? && 0 <= k.i < |vs| {
      LookupFirst(List(vs).entries, k.i);
    }
  }

  // ---------------------------------------------------------------------------
  // String offsets. `$a["7"]` and `$a[7]` address the same element: a string
  // that is a canonical decimal integer within the 64-bit range is cast to an
  // integer key; every other string stays a string key.

  const MinInt: int := -0x8000_0000_0000_0000
  const MaxInt: int := 0x7FFF_FFFF_FFFF_FFFF

  predicate IsDigit(c: char) { '0' <= c <= '9' }

  predicate AllDigits(s: string) { forall i | 0 <= i < |s| :: IsDigit(s[i]) }

  function DigitsValue(s: string): nat
    requires AllDigits(s)
  {
    if |s| == 0 then 0 else DigitsValue(s[..|s| - 1]) * 10 + (s[|s| - 1] as int - '0' as int)
  }

  /** Decimal digits without a superfluous leading zero: "0", "7", "42", but neither "" nor "007". */
  predicate IsCanonicalDigits(s: string)
  {
    |s| > 0 && AllDigits(s) && (s[0] == '0' ==> |s| == 1)
  }

  /** An integer literal as an array offset recognises it: canonical digits, optionally after '-', but not "-0". */
  predicate IsIntegerString(s: string)
  {
    IsCanonicalDigits(s) || (|s| >= 2 && s[0] == '-' && s[1] != '0' && IsCanonicalDigits(s[1..]))
  }

  function IntegerValue(s: string): int
    requires IsIntegerString(s)
  {
    if s[0] == '-' then -(DigitsValue(s[1..]) as int) else DigitsValue(s)
  }

  /** The key that the string offset `s` selects. */
  function ArrayKey(s: string): (k: Key)
    ensures k.StrKey? ==> k.s == s
    ensures k.IntKey? ==> MinInt <= k.i <= MaxInt
  {
    if IsIntegerString(s) && MinInt <= IntegerValue(s) <= MaxInt then IntKey(IntegerValue(s)) else StrKey(s)
  }

  /** The digits of `n` in base ten, as PHP prints an integer. */
  function NatDecimal(n: nat): (s: string)
    ensures IsCanonicalDigits(s) && DigitsValue(s) == n
    ensures n > 0 ==> s[0] != '0'
  {
    if n < 10 then [('0' as int + n) as char]
    else
      var t := NatDecimal(n / 10);
      var s := t + [('0' as int + n % 10) as char];
      assert s[..|s| - 1] == t;
      s
  }

  function Decimal(i: int): string
  {
    if i < 0 then "-" + NatDecimal(-i) else NatDecimal(i)
  }

  /** A canonical digit string is the decimal form of its own value. */
  lemma {:induction false} CanonicalDigitsUnique(s: string)
    requires IsCanonicalDigits(s)
    ensures NatDecimal(DigitsValue(s)) == s
  {
    var n := DigitsValue(s);
    if |s| == 1 {
      assert s[..|s| - 1] == [];
      assert DigitsValue(s[..|s| - 1]) == 0;
      assert IsDigit(s[0]) && n == s[0] as int - '0' as int;
    } else {
      var t := s[..|s| - 1];
      assert IsCanonicalDigits(t);
      DigitsAtLeastOne(t);
      CanonicalDigitsUnique(t);
      assert n / 10 == DigitsValue(t) && n % 10 == s[|s| - 1] as int - '0' as int;
      assert s == t + [s[|s| - 1]];
    }
  }

  lemma {:induction false} DigitsAtLeastOne(s: string)
    requires IsCanonicalDigits(s) && s[0] != '0'
    ensures DigitsValue(s) >= 1
  {
    if |s| > 1 {
      var t := s[..|s| - 1];
      assert t[0] == s[0];
      DigitsAtLeastOne(t);
    }
  }

  /** The decimal form of a 64-bit integer, used as an offset, selects that integer key. */
  lemma ArrayKeyOfDecimal(i: int)
    requires MinInt <= i <= MaxInt
    ensures ArrayKey(Decimal(i)) == IntKey(i)
  {
    var s := Decimal(i);
    if i < 0 {
      assert s[1..] == NatDecimal(-i);
      assert IsIntegerString(s);
    }
  }

  /** Conversely, a string offset selects an integer key only when it is that integer's decimal form. */
  lemma ArrayKeyIntIsDecimal(s: string)
    requires ArrayKey(s).IntKey?
    ensures s == Decimal(ArrayKey(s).i)
  {
    if s[0] == '-' {
      CanonicalDigitsUnique(s[1..]);
      DigitsAtLeastOne(s[1..]);
      assert s == "-" + s[1..];
    } else {
      CanonicalDigitsUnique(s);
    }
  }

  // ---------------------------------------------------------------------------
  // explode('.', s) and its inverse implode('.', parts).

  /** `explode('.', s)`: the pieces of `s` between dots, in order; there is always at least one. */
  function Explode(s: string): (parts: seq<string>)
    ensures |parts| >= 1
    ensures forall i | 0 <= i < |parts| :: '.' !in parts[i]
  {
    if |s| == 0 then [""]
    else
      var rest := Explode(s[1..]);
      if s[0] == '.' then [""] + rest
      else [[s[0]] + rest[0]] + rest[1..]
  }

  /** `implode('.', parts)`. */
  function Implode(parts: seq<string>): string
  {
    if |parts| == 0 then ""
    else if |parts| == 1 then parts[0]
    else parts[0] + "." + Implode(parts[1..])
  }

  /** Joining the pieces with dots gives back the exploded string. */
  lemma {:induction false} ImplodeExplode(s: string)
    ensures Implode(Explode(s)) == s
  {
    if |s| > 0 {
      var rest := Explode(s[1..]);
      ImplodeExplode(s[1..]);
      if s[0] == '.' {
        assert s == "." + s[1..];
      } else if |rest| == 1 {
        assert s == [s[0]] + s[1..];
      } else {
        var parts := Explode(s);
        assert parts[1..] == rest[1..];
        assert s == [s[0]] + s[1..];
      }
    }
  }

  /** A string without dots explodes to itself alone. */
  lemma {:induction false} ExplodeNoDot(a: string)
    requires '.' !in a
    ensures Explode(a) == [a]
  {
    if |a| > 0 {
      ExplodeNoDot(a[1..]);
      assert a == [a[0]] + a[1..];
    }
  }

  /** A dot-free first piece, a dot, then anything: the first piece is split off. */
  lemma {:induction false} ExplodeConcat(a: string, b: string)
    requires '.' !in a
    ensures Explode(a + "." + b) == [a] + Explode(b)
  {
    var s := a + "." + b;
    if |a| == 0 {
      assert s[0] == '.' && s[1..] == b;
    } else {
      assert s[0] == a[0] && s[1..] == a[1..] + "." + b;
      ExplodeConcat(a[1..], b);
      assert a == [a[0]] + a[1..];
    }
  }

  /** Exploding the dot-joined pieces gives the pieces back, when none of them holds a dot. */
  lemma {:induction false} ExplodeImplode(parts: seq<string>)
    requires |parts| >= 1
    requires forall i | 0 <= i < |parts| :: '.' !in parts[i]
    ensures Explode(Implode(parts)) == parts
  {
    if |parts| == 1 {
      ExplodeNoDot(parts[0]);
    } else {
      ExplodeImplode(parts[1..]);
      ExplodeConcat(parts[0], Implode(parts[1..]));
    }
  }
}
