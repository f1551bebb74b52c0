/**
 * `Iterable.toMutableMap` and `Iterable.toMap`: fold the items into a map
 * that starts empty, letting an accumulator alter it once per item.
 */
module CollectionExtensions {

  /**
   * The accumulator alters the running map in place; here it returns the
   * altered map.
   */
  type Accumulator<!T, !R, !U> = (map<R, U>, T) -> map<R, U>

  /** `fold` from a given running map, visiting the items left to right. */
  function FoldFrom<T, R, U>(running: map<R, U>, items: seq<T>, accumulator: Accumulator<T, R, U>): (r: map<R, U>)
    ensures items == [] ==> r == running
    ensures |items| == 1 ==> r == accumulator(running, items[0])
    decreases |items|
  {
    if items == [] then running else FoldFrom(accumulator(running, items[0]), items[1..], accumulator)
  }

  /** Folding over a concatenation folds the second part from the result of the first. */
  lemma {:induction false} FoldFromAppend<T, R, U>(running: map<R, U>, xs: seq<T>, ys: seq<T>, accumulator: Accumulator<T, R, U>)
    ensures FoldFrom(running, xs + ys, accumulator) == FoldFrom(FoldFrom(running, xs, accumulator), ys, accumulator)
    decreases |xs|
  {
    if xs != [] {
      assert (xs + ys)[1..] == xs[1..] + ys;
      FoldFromAppend(accumulator(running, xs[0]), xs[1..], ys, accumulator);
    } else {
      assert xs + ys == ys;
    }
  }

  /** Folding over one more item applies the accumulator once more, to the result so far. */
  lemma FoldFromSnoc<T, R, U>(running: map<R, U>, items: seq<T>, item: T, accumulator: Accumulator<T, R, U>)
    ensures FoldFrom(running, items + [item], accumulator) == accumulator(FoldFrom(running, items, accumulator), item)
  {
    FoldFromAppend(running, items, [item], accumulator);
  }

  /** `toMutableMap`: the fold from an empty map. */
  function ToMutableMap<T, R, U>(items: seq<T>, accumulator: Accumulator<T, R, U>): (r: map<R, U>)
    ensures items == [] ==> r == map[]
  {
    FoldFrom(map[], items, accumulator)
  }

  /** The loop the Kotlin `fold` runs: one accumulator call per item, in order. */
  method RunToMutableMap<T, R, U>(items: seq<T>, accumulator: Accumulator<T, R, U>) returns (running: map<R, U>)
    ensures running == ToMutableMap(items, accumulator)
  {
    running := map[];
    var i := 0;
    while i < |items|
      invariant 0 <= i <= |items|
      invariant running == FoldFrom(map[], items[..i], accumulator)
    {
      FoldFromSnoc(map[], items[..i], items[i], accumulator);
      assert items[..i + 1] == items[..i] + [items[i]];
      running := accumulator(running, items[i]);
      i := i + 1;
    }
    assert items[..i] == items;
  }

  /** `toMap`: a read-only copy of `toMutableMap`'s result, with the same entries. */
  function ToMap<T, R, U>(items: seq<T>, accumulator: Accumulator<T, R, U>): (r: map<R, U>)
    ensures r.Keys == ToMutableMap(items, accumulator).Keys
    ensures forall k :: k in r ==> r[k] == ToMutableMap(items, accumulator)[k]
  {
    var m := ToMutableMap(items, accumulator);
    map k | k in m :: m[k]
  }

  /** The usual accumulator `this[key(item)] = value(item)`. */
  function Put<T, R, U>(key: T -> R, value: T -> U): Accumulator<T, R, U> {
    (running: map<R, U>, item: T) => running[key(item) := value(item)]
  }

  /** One `Put` adds the item's key with the item's value and leaves every other key as it was. */
  lemma PutSetsOneKey<T, R, U>(key: T -> R, value: T -> U, running: map<R, U>, item: T)
    ensures Put(key, value)(running, item).Keys == running.Keys + {key(item)}
    ensures Put(key, value)(running, item)[key(item)] == value(item)
    ensures forall k :: k in running && k != key(item) ==> Put(key, value)(running, item)[k] == running[k]
  {
  }

  /** With `Put`, the last item with a given key decides its value. */
  ghost predicate LastWith<T, R>(items: seq<T>, key: T -> R, k: R, i: int) {
    0 <= i < |items| && key(items[i]) == k && forall j :: i < j < |items| ==> key(items[j]) != k
  }

  /**
   * With `Put`, the map holds exactly the keys of the items, and each key
   * maps to the value of the last item carrying it.
   */
  lemma {:induction false} PutLastWriteWins<T, R, U>(running: map<R, U>, items: seq<T>, key: T -> R, value: T -> U)
    ensures var r := FoldFrom(running, items, Put(key, value));
      r.Keys == running.Keys + set i | 0 <= i < |items| :: key(items[i])
    ensures var r := FoldFrom(running, items, Put(key, value));
      forall i :: 0 <= i < |items| && LastWith(items, key, key(items[i]), i) ==> r[key(items[i])] == value(items[i])
    ensures var r := FoldFrom(running, items, Put(key, value));
      forall k :: k in running && (forall i :: 0 <= i < |items| ==> key(items[i]) != k) ==> r[k] == running[k]
    decreases |items|
  {
    if items != [] {
      var last := |items| - 1;
      var init := items[..last];
      assert items == init + [items[last]];
      FoldFromSnoc(running, init, items[last], Put(key, value));
      PutLastWriteWins(running, init, key, value);
      var before := FoldFrom(running, init, Put(key, value));
      var r := FoldFrom(running, items, Put(key, value));
      assert r == before[key(items[last]) := value(items[last])];
      KeysOfSnoc(init, items[last], key);
      forall i | 0 <= i < |items| && LastWith(items, key, key(items[i]), i)
        ensures r[key(items[i])] == value(items[i])
      {
        if i < last {
          assert key(items[last]) != key(items[i]);
          assert init[i] == items[i];
          assert LastWith(init, key, key(init[i]), i);
        }
      }
      forall k | k in running && (forall i :: 0 <= i < |items| ==> key(items[i]) != k)
        ensures r[k] == running[k]
      {
        assert key(items[last]) != k;
        assert forall i :: 0 <= i < |init| ==> key(init[i]) != k by {
          forall i | 0 <= i < |init| ensures key(init[i]) != k {
            assert init[i] == items[i];
          }
        }
      }
    }
  }

  /** The keys of a list with one more item are its keys plus that item's key. */
  lemma KeysOfSnoc<T, R>(init: seq<T>, last: T, key: T -> R)
    ensures (set i | 0 <= i < |init + [last]| :: key((init + [last])[i]))
      == (set i | 0 <= i < |init| :: key(init[i])) + {key(last)}
  {
    var items := init + [last];
    var all := set i | 0 <= i < |items| :: key(items[i]);
    var initial := set i | 0 <= i < |init| :: key(init[i]);
    assert key(items[|init|]) in all;
    forall k | k in all
      ensures k in initial + {key(last)}
    {
      var i :| 0 <= i < |items| && key(items[i]) == k;
      if i < |init| {
        assert init[i] == items[i];
      }
    }
    forall k | k in initial
      ensures k in all
    {
      var i :| 0 <= i < |init| && key(init[i]) == k;
      assert items[i] == init[i];
    }
  }

  /** Whether a character is one UTF-16 code unit: it lies in the Basic Multilingual Plane. */
  predicate InBmp(c: char) {
    (c as int) < 0x10000
  }

  /**
   * Kotlin's `String.length`: the number of UTF-16 code units, one per
   * character of the Basic Multilingual Plane and two (a surrogate pair)
   * per character above it.
   */
  function Utf16Length(s: string): (n: nat)
    ensures |s| <= n <= 2 * |s|
    ensures n == |s| <==> forall i :: 0 <= i < |s| ==> InBmp(s[i])
    ensures n == 2 * |s| <==> forall i :: 0 <= i < |s| ==> !InBmp(s[i])
    decreases |s|
  {
    if s == [] then 0
    else
      var rest := Utf16Length(s[1..]);
      assert forall i :: 1 <= i < |s| ==> s[i] == s[1..][i - 1];
      (if InBmp(s[0]) then 1 else 2) + rest
  }

  /** The code units of a concatenation are those of its parts. */
  lemma {:induction false} Utf16LengthAppend(a: string, b: string)
    ensures Utf16Length(a + b) == Utf16Length(a) + Utf16Length(b)
    decreases |a|
  {
    if a == [] {
      assert a + b == b;
    } else {
      var ab := a + b;
      assert ab[0] == a[0] && ab[1..] == a[1..] + b;
      Utf16LengthAppend(a[1..], b);
      assert Utf16Length(ab) == (if InBmp(ab[0]) then 1 else 2) + Utf16Length(ab[1..]);
    }
  }

  /** A character above the Basic Multilingual Plane counts twice: `"😀".length` is 2. */
  lemma EmojiIsTwoCodeUnits()
    ensures Utf16Length("\U{1F600}") == 2
    ensures Utf16Length("a\U{1F600}") == 3
  {
    Utf16LengthAppend("a", "\U{1F600}");
  }

  /** `iterable.toMap { this[it] = it.length }`: each string maps to its UTF-16 length. */
  lemma ToMapByLength(items: seq<string>)
    ensures var r := ToMap(items, Put((s: string) => s, Utf16Length));
      r.Keys == (set i | 0 <= i < |items| :: items[i]) && forall s :: s in r ==> r[s] == Utf16Length(s)
  {
    var key := (s: string) => s;
    PutLastWriteWins(map[], items, key, Utf16Length);
    var r := FoldFrom(map[], items, Put(key, Utf16Length));
    forall s | s in r ensures r[s] == Utf16Length(s) {
      var i :| 0 <= i < |items| && key(items[i]) == s;
      var j := LastIndex(items, key, s, i);
    }
  }

  /** The last index carrying key `k`, searching from a known one. */
  lemma {:induction false} LastIndex<T, R>(items: seq<T>, key: T -> R, k: R, i: int) returns (j: int)
    requires 0 <= i < |items| && key(items[i]) == k
    ensures i <= j && LastWith(items, key, k, j)
    decreases |items| - i
  {
    if j' :| i < j' < |items| && key(items[j']) == k {
      j := LastIndex(items, key, k, j');
    } else {
      j := i;
    }
  }

  /** A map with the strings as keys, each mapped to its UTF-16 length, is the one `toMap { this[it] = it.length }` builds. */
  lemma ToMapByLengthIs(items: seq<string>, expected: map<string, int>)
    requires expected.Keys == (set i | 0 <= i < |items| :: items[i])
    requires forall s :: s in expected ==> expected[s] == Utf16Length(s)
    ensures ToMap(items, Put((s: string) => s, Utf16Length)) == expected
  {
    ToMapByLength(items);
  }

  /** `(1..10).map { "0".repeat(it) }`. */
  const TenZeroStrings: seq<string> :=
    ["0", "00", "000", "0000", "00000", "000000", "0000000", "00000000", "000000000", "0000000000"]

  /** The expected map of the example. */
  const TenZeroStringLengths: map<string, int> :=
    map["0" := 1, "00" := 2, "000" := 3, "0000" := 4, "00000" := 5, "000000" := 6,
        "0000000" := 7, "00000000" := 8, "000000000" := 9, "0000000000" := 10]

  /** Every character of the example's strings is `'0'`, inside the Basic Multilingual Plane. */
  lemma TenZeroStringsAreBmp(items: seq<string>)
    requires items == TenZeroStrings
    ensures forall i, j :: 0 <= i < |items| && 0 <= j < |items[i]| ==> InBmp(items[i][j])
  {
  }

  /** The example's items and expected map agree: each string is a key and maps to its length. */
  lemma ExampleMatchesLengths(items: seq<string>)
    requires items == TenZeroStrings
    ensures TenZeroStringLengths.Keys == (set i | 0 <= i < |items| :: items[i])
    ensures forall s :: s in TenZeroStringLengths ==> TenZeroStringLengths[s] == Utf16Length(s)
  {
    var keys := set i | 0 <= i < |items| :: items[i];
    forall k | k in TenZeroStringLengths.Keys ensures k in keys && TenZeroStringLengths[k] == |k| {
      assert items[|k| - 1] == k;
    }
    TenZeroStringsAreBmp(items);
    forall k | k in TenZeroStringLengths.Keys ensures TenZeroStringLengths[k] == Utf16Length(k) {
      var i :| 0 <= i < |items| && items[i] == k;
      assert forall j :: 0 <= j < |k| ==> InBmp(k[j]);
    }
  }

  /** The example: `toMap { this[it] = it.length }` over "0" to "0000000000" gives the expected map. */
  lemma {:induction false} TenZeroStringsByLength(items: seq<string>)
    requires items == TenZeroStrings
    ensures ToMap(items, Put((s: string) => s, Utf16Length)) == TenZeroStringLengths
  {
    ExampleMatchesLengths(items);
    ToMapByLengthIs(items, TenZeroStringLengths);
  }
}
