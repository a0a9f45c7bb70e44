/** The day-keyed records the dashboard builds: `dailyStatus[day.toString().padStart(2, '0')]`
    for day = 1 .. n, with the keys "01", "02", ... */
module DayMaps {
  import opened JsText

  /** The keys of a month of `n` days. */
  function DayKeys(n: int): set<string> {
    set day | 1 <= day <= n :: Pad2(day)
  }

  /** The day a two-digit key stands for: the inverse of `Pad2` on 0 .. 99. */
  function DayOfKey(k: string): int {
    if |k| == 2 then (k[0] as int - '0' as int) * 10 + (k[1] as int - '0' as int) else -1
  }

  lemma DayOfKeyInverse(day: int)
    requires 0 <= day < 100
    ensures DayOfKey(Pad2(day)) == day
  {
    Pad2Digits(day);
  }

  /** The record holding `f(day)` under the key of each day 1 .. n. */
  function DayMap<V>(n: int, f: int -> V): (m: map<string, V>)
    requires n < 100
    ensures m.Keys == DayKeys(n)
  {
    map k | k in DayKeys(n) :: f(DayOfKey(k))
  }

  /** Day `day` of the record holds `f(day)`. */
  lemma DayMapAt<V>(n: int, f: int -> V, day: int)
    requires n < 100 && 1 <= day <= n
    ensures Pad2(day) in DayMap(n, f) && DayMap(n, f)[Pad2(day)] == f(day)
  {
    assert Pad2(day) in DayKeys(n);
    DayOfKeyInverse(day);
  }

  /** Filling day `day` after days 1 .. day - 1 gives the record of days 1 .. day. */
  lemma DayMapNext<V>(day: int, f: int -> V)
    requires 1 <= day < 100
    ensures DayMap(day - 1, f)[Pad2(day) := f(day)] == DayMap(day, f)
  {
    var a := DayMap(day, f);
    var b := DayMap(day - 1, f)[Pad2(day) := f(day)];
    forall k | k in a ensures k in b && a[k] == b[k] {
      DayMapValueNext(day, f, k);
    }
    DayMapKeysNext(day, f);
    SameMap(a, b);
  }

  lemma DayMapKeysNext<V>(day: int, f: int -> V)
    requires 1 <= day < 100
    ensures DayMap(day, f).Keys == DayMap(day - 1, f).Keys + {Pad2(day)}
  {
    DayKeysNext(day);
  }

  lemma DayMapValueNext<V>(day: int, f: int -> V, k: string)
    requires 1 <= day < 100 && k in DayMap(day, f)
    ensures k in DayMap(day - 1, f)[Pad2(day) := f(day)]
    ensures DayMap(day, f)[k] == DayMap(day - 1, f)[Pad2(day) := f(day)][k]
  {
    DayKeysNext(day);
    if k == Pad2(day) {
      DayOfKeyInverse(day);
    } else {
      assert k in DayKeys(day - 1);
    }
  }

  lemma SameMap<K, V>(a: map<K, V>, b: map<K, V>)
    requires a.Keys == b.Keys && forall k :: k in a ==> a[k] == b[k]
    ensures a == b
  {
  }

  /** A month of `n` days has `n` distinct keys. */
  lemma {:induction false} DayKeysCard(n: int)
    requires 0 <= n < 100
    ensures |DayKeys(n)| == n
  {
    if n == 0 {
      assert DayKeys(0) == {};
    } else {
      DayKeysCard(n - 1);
      DayKeysNext(n);
    }
  }

  /** The keys of `n` days are those of `n - 1` days and one new key. */
  lemma DayKeysNext(n: int)
    requires 1 <= n < 100
    ensures DayKeys(n) == DayKeys(n - 1) + {Pad2(n)}
    ensures Pad2(n) !in DayKeys(n - 1)
  {
    forall d | 1 <= d <= n ensures Pad2(d) in DayKeys(n - 1) + {Pad2(n)} {
      if d < n { assert Pad2(d) in DayKeys(n - 1); }
    }
    if Pad2(n) in DayKeys(n - 1) {
      var d :| 1 <= d <= n - 1 && Pad2(d) == Pad2(n);
      Pad2Injective(d, n);
    }
  }
}
