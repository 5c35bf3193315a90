/** The conventional optional value; `None` stands for a Java `null` value. */
module Optional {
  datatype Option<T> = None | Some(value: T)
}

/**
 * The few `java.lang.String` operations the exercises rely on, restricted to
 * ASCII: lower-casing, `equalsIgnoreCase`, `trim`, `split("\\s+")` and the
 * decimal rendering of a `long`.
 */
module Text {

  /** Java's `\s` character class: space, tab, line feed, vertical tab, form feed, carriage return. */
  predicate IsWhitespace(c: char) {
    c == ' ' || 9 <= c as int <= 13
  }

  function LowerChar(c: char): (r: char)
    ensures 'A' <= c <= 'Z' ==> r as int == c as int + 32
    ensures !('A' <= c <= 'Z') ==> r == c
  {
    if 'A' <= c <= 'Z' then (c as int + 32) as char else c
  }

  /** `String.toLowerCase` on ASCII letters; every other character is kept. */
  function ToLower(s: string): (r: string)
    ensures |r| == |s|
    ensures forall i :: 0 <= i < |s| ==> r[i] == LowerChar(s[i])
  {
    if s == [] then [] else [LowerChar(s[0])] + ToLower(s[1..])
  }

  /** `String.equalsIgnoreCase`: same length and the characters agree up to case. */
  predicate EqualsIgnoreCase(a: string, b: string) {
    |a| == |b| && forall i :: 0 <= i < |a| ==> LowerChar(a[i]) == LowerChar(b[i])
  }

  /** Comparing while ignoring case is comparing the lower-cased strings. */
  lemma EqualsIgnoreCaseIsLowerEquality(a: string, b: string)
    ensures EqualsIgnoreCase(a, b) <==> ToLower(a) == ToLower(b)
  {
    if ToLower(a) == ToLower(b) {
      forall i | 0 <= i < |a| ensures LowerChar(a[i]) == LowerChar(b[i]) {
        assert ToLower(a)[i] == ToLower(b)[i];
      }
    }
  }

  /** `String.trim`: drops every leading and trailing character at or below U+0020. */
  function Trim(s: string): (r: string)
    ensures |r| <= |s|
    ensures r != [] ==> ' ' < r[0] && ' ' < r[|r| - 1]
  {
    TrimEnd(TrimStart(s))
  }

  function TrimStart(s: string): (r: string)
    ensures |r| <= |s| && r == s[|s| - |r|..]
    ensures r != [] ==> ' ' < r[0]
  {
    if s != [] && s[0] <= ' ' then TrimStart(s[1..]) else s
  }

  function TrimEnd(s: string): (r: string)
    ensures |r| <= |s| && r == s[..|r|]
    ensures r != [] ==> ' ' < r[|r| - 1]
    ensures s != [] && ' ' < s[0] ==> r != [] && r[0] == s[0]
  {
    if s != [] && s[|s| - 1] <= ' ' then TrimEnd(s[..|s| - 1]) else s
  }

  /** Length of the longest whitespace-free prefix of `s`. */
  function WordLength(s: string): (n: nat)
    ensures n <= |s|
    ensures forall i :: 0 <= i < n ==> !IsWhitespace(s[i])
    ensures n < |s| ==> IsWhitespace(s[n])
  {
    if s == [] || IsWhitespace(s[0]) then 0 else 1 + WordLength(s[1..])
  }

  /** The maximal runs of non-whitespace characters of `s`, in order. */
  function Tokens(s: string): (ws: seq<string>)
    decreases |s|
  {
    if s == [] then []
    else if IsWhitespace(s[0]) then Tokens(s[1..])
    else
      var n := WordLength(s);
      [s[..n]] + Tokens(s[n..])
  }

  /**
   * `s.split("\\s+")`: the empty string splits into one empty word; a string
   * that starts with whitespace yields a leading empty word; trailing empty
   * words are dropped, so a string of whitespace alone yields no word.
   */
  function SplitOnWhitespace(s: string): seq<string> {
    if s == [] then [""]
    else (if IsWhitespace(s[0]) && Tokens(s) != [] then [""] else []) + Tokens(s)
  }

  /** Every token is a non-empty word without whitespace. */
  lemma {:induction false} TokensAreWords(s: string)
    ensures forall k :: 0 <= k < |Tokens(s)| ==>
      Tokens(s)[k] != [] && forall i :: 0 <= i < |Tokens(s)[k]| ==> !IsWhitespace(Tokens(s)[k][i])
    decreases |s|
  {
    if s == [] {
    } else if IsWhitespace(s[0]) {
      TokensAreWords(s[1..]);
    } else {
      var n := WordLength(s);
      TokensAreWords(s[n..]);
      assert Tokens(s) == [s[..n]] + Tokens(s[n..]);
    }
  }

  predicate IsDigit(c: char) {
    '0' <= c <= '9'
  }

  function DigitChar(d: nat): (c: char)
    requires d < 10
    ensures IsDigit(c) && c as int - '0' as int == d
  {
    ('0' as int + d) as char
  }

  /** The decimal digits of `n`, most significant first, without leading zeros. */
  function NatToString(n: nat): (s: string)
    ensures s != [] && forall i :: 0 <= i < |s| ==> IsDigit(s[i])
  {
    if n < 10 then [DigitChar(n)] else NatToString(n / 10) + [DigitChar(n % 10)]
  }

  /** `Long.toString`: a minus sign before the digits of a negative number. */
  function IntToString(i: int): (s: string)
    ensures s != []
  {
    if i < 0 then "-" + NatToString(-i) else NatToString(i)
  }

  /** Reads a string of decimal digits back as a number. */
  function ParseNat(s: string): nat
    requires forall i :: 0 <= i < |s| ==> IsDigit(s[i])
  {
    if s == [] then 0
    else
      assert IsDigit(s[|s| - 1]);
      10 * ParseNat(s[..|s| - 1]) + (s[|s| - 1] as int - '0' as int)
  }

  lemma {:induction false} ParseNatToString(n: nat)
    ensures ParseNat(NatToString(n)) == n
  {
    if n >= 10 {
      ParseNatToString(n / 10);
      var s := NatToString(n);
      assert s[..|s| - 1] == NatToString(n / 10);
    }
  }

  /** A rendering starts with a minus sign exactly for a negative number, and has only digits after it. */
  lemma IntToStringShape(a: int)
    ensures IntToString(a)[0] == '-' <==> a < 0
    ensures a < 0 ==> IntToString(a)[1..] == NatToString(-a)
    ensures forall i :: 1 <= i < |IntToString(a)| ==> IsDigit(IntToString(a)[i])
  {
    var s := IntToString(a);
    if a < 0 {
      assert s[1..] == NatToString(-a);
      assert forall i :: 1 <= i < |s| ==> s[i] == s[1..][i - 1];
    } else {
      assert IsDigit(s[0]);
    }
  }

  /** Distinct numbers are rendered as distinct strings. */
  lemma IntToStringInjective(a: int, b: int)
    ensures IntToString(a) == IntToString(b) <==> a == b
  {
    if IntToString(a) == IntToString(b) {
      IntToStringShape(a);
      IntToStringShape(b);
      if a < 0 {
        ParseNatToString(-a);
        ParseNatToString(-b);
      } else {
        ParseNatToString(a);
        ParseNatToString(b);
      }
    }
  }
}

/** Sequence helpers shared by the models of Java lists. */
module Lists {

  predicate NoDuplicates<T(==)>(s: seq<T>) {
    forall i, j :: 0 <= i < j < |s| ==> s[i] != s[j]
  }

  /** Appends `x` unless it is already present, as `if (!l.contains(x)) l.add(x)` does. */
  function AddIfAbsent<T(==)>(s: seq<T>, x: T): (r: seq<T>)
    ensures x in r
  {
    if x in s then s else s + [x]
  }

  /** Adding keeps the list free of duplicates, is idempotent and keeps earlier entries in order. */
  lemma AddIfAbsentProperties<T>(s: seq<T>, x: T)
    ensures NoDuplicates(s) ==> NoDuplicates(AddIfAbsent(s, x))
    ensures AddIfAbsent(AddIfAbsent(s, x), x) == AddIfAbsent(s, x)
    ensures AddIfAbsent(s, x)[..|s|] == s
    ensures forall y :: y in AddIfAbsent(s, x) <==> y in s || y == x
  {
  }

  /** Removes the first occurrence of `x`, as a list's `remove(Object)` does. */
  function RemoveFirst<T(==)>(s: seq<T>, x: T): seq<T> {
    if s == [] then []
    else if s[0] == x then s[1..]
    else [s[0]] + RemoveFirst(s[1..], x)
  }

  lemma {:induction false} RemoveFirstMultiset<T>(s: seq<T>, x: T)
    ensures multiset(RemoveFirst(s, x)) == multiset(s) - multiset{x}
  {
    if s != [] {
      assert s == [s[0]] + s[1..];
      if s[0] != x {
        RemoveFirstMultiset(s[1..], x);
      }
    }
  }

  lemma {:induction false} RemoveFirstKeepsOthers<T>(s: seq<T>, x: T)
    ensures forall y :: y in RemoveFirst(s, x) ==> y in s
  {
    RemoveFirstMultiset(s, x);
    forall y | y in RemoveFirst(s, x)
      ensures y in s
    {
      assert multiset(RemoveFirst(s, x))[y] > 0;
    }
  }

  lemma {:induction false} RemoveAbsentIsIdentity<T>(s: seq<T>, x: T)
    requires x !in s
    ensures RemoveFirst(s, x) == s
  {
    if s != [] {
      assert s == [s[0]] + s[1..];
      RemoveAbsentIsIdentity(s[1..], x);
    }
  }

  /** In a list without duplicates, removing `x` removes every occurrence of it. */
  lemma {:induction false} RemoveFirstFromDistinct<T>(s: seq<T>, x: T)
    requires NoDuplicates(s)
    ensures x !in RemoveFirst(s, x)
    ensures NoDuplicates(RemoveFirst(s, x))
    ensures forall y :: y in RemoveFirst(s, x) <==> y in s && y != x
  {
    RemoveFirstMultiset(s, x);
    forall y
      ensures y in RemoveFirst(s, x) <==> y in s && y != x
    {
      assert y in RemoveFirst(s, x) <==> multiset(RemoveFirst(s, x))[y] > 0;
      assert y in s <==> multiset(s)[y] > 0;
      if y == x && x in s {
        MultisetOfDistinct(s, x);
      }
    }
    RemoveFirstKeepsDistinct(s, x);
  }

  lemma {:induction false} MultisetOfDistinct<T>(s: seq<T>, x: T)
    requires NoDuplicates(s) && x in s
    ensures multiset(s)[x] == 1
  {
    if s[0] == x {
      assert s == [s[0]] + s[1..];
      assert x !in s[1..];
    } else {
      assert s == [s[0]] + s[1..];
      MultisetOfDistinct(s[1..], x);
    }
  }

  lemma {:induction false} RemoveFirstKeepsDistinct<T>(s: seq<T>, x: T)
    requires NoDuplicates(s)
    ensures NoDuplicates(RemoveFirst(s, x))
  {
    if s != [] && s[0] != x {
      RemoveFirstKeepsDistinct(s[1..], x);
      RemoveFirstKeepsOthers(s[1..], x);
      var t := RemoveFirst(s[1..], x);
      assert s[0] !in t;
    }
  }

  // ---------------------------------------------------------------------------
  // Maps from keys to lists, as `getOrDefault(k, new ArrayList<>())` and
  // `computeIfAbsent(k, ...).add(v)` use them.

  /** The list stored under `k`, or the empty list when `k` is absent. */
  function Lookup<K, V>(m: map<K, seq<V>>, k: K): seq<V> {
    if k in m then m[k] else []
  }

  /** Appends `v` to the list under `k`, creating that list when it is absent. */
  function AppendAt<K(!new), V>(m: map<K, seq<V>>, k: K, v: V): (r: map<K, seq<V>>)
    ensures Lookup(r, k) == Lookup(m, k) + [v]
    ensures forall j :: j != k ==> Lookup(r, j) == Lookup(m, j)
    ensures r.Keys == m.Keys + {k}
  {
    m[k := Lookup(m, k) + [v]]
  }

  /** Appends `v` under each key of `keys` in turn. */
  function AppendAll<K(!new), V>(m: map<K, seq<V>>, keys: seq<K>, v: V): map<K, seq<V>> {
    if keys == [] then m
    else AppendAt(AppendAll(m, keys[..|keys| - 1], v), keys[|keys| - 1], v)
  }

  /** `n` copies of `v`. */
  function Repeat<V>(v: V, n: nat): (r: seq<V>)
    ensures |r| == n && forall i :: 0 <= i < n ==> r[i] == v
  {
    if n == 0 then [] else Repeat(v, n - 1) + [v]
  }

  /** The number of times `k` occurs in `keys`. */
  function Occurrences<K(==)>(keys: seq<K>, k: K): (n: nat)
    ensures n <= |keys|
    ensures n == 0 <==> k !in keys
  {
    if keys == [] then 0
    else Occurrences(keys[..|keys| - 1], k) + (if keys[|keys| - 1] == k then 1 else 0)
  }

  /** Each key receives `v` once per occurrence in `keys`, and nothing else changes. */
  lemma {:induction false} AppendAllLookup<K(!new), V>(m: map<K, seq<V>>, keys: seq<K>, v: V, k: K)
    ensures Lookup(AppendAll(m, keys, v), k) == Lookup(m, k) + Repeat(v, Occurrences(keys, k))
  {
    if keys == [] {
      assert Lookup(m, k) + [] == Lookup(m, k);
    } else {
      var init := keys[..|keys| - 1];
      var last := keys[|keys| - 1];
      AppendAllLookup(m, init, v, k);
      var before := AppendAll(m, init, v);
      var n := Occurrences(init, k);
      if k == last {
        calc {
          Lookup(AppendAll(m, keys, v), k);
          Lookup(before, k) + [v];
          Lookup(m, k) + (Repeat(v, n) + [v]);
        }
      }
    }
  }

  /** The keys after appending are the old keys and every key appended under. */
  lemma {:induction false} AppendAllKeys<K(!new), V>(m: map<K, seq<V>>, keys: seq<K>, v: V)
    ensures AppendAll(m, keys, v).Keys == m.Keys + set j | j in keys
  {
    if keys != [] {
      var init := keys[..|keys| - 1];
      assert keys == init + [keys[|keys| - 1]];
      AppendAllKeys(m, init, v);
    }
  }
}
