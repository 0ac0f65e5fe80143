// What the JSON and YAML loaders share: decimal indices in error paths,
// first-match key lookup in a parsed mapping, and the walk over a
// document array that builds one spec per entry and stops at the first
// entry that fails.

module Documents {
  import opened Types

  // ---------------------------------------------------------------------------
  // Decimal indices

  function DigitChar(d: nat): char
    requires d < 10
  {
    "0123456789"[d]
  }

  function DigitValue(c: char): nat {
    if '0' <= c <= '9' then (c as int - '0' as int) as nat else 0
  }

  /** `std::to_string` of an index: its decimal digits, most significant first. */
  function Decimal(n: nat): (r: string)
    ensures |r| >= 1 && forall i :: 0 <= i < |r| ==> '0' <= r[i] <= '9'
    decreases n
  {
    if n < 10 then [DigitChar(n)] else Decimal(n / 10) + [DigitChar(n % 10)]
  }

  /** The number a string of decimal digits denotes. */
  function DecimalValue(s: string): nat
    decreases |s|
  {
    if s == [] then 0 else 10 * DecimalValue(s[..|s| - 1]) + DigitValue(s[|s| - 1])
  }

  /** Reading an index back from its digits gives the index: distinct
      entries are named by distinct paths. */
  lemma {:induction false} DecimalRoundTrip(n: nat)
    ensures DecimalValue(Decimal(n)) == n
    decreases n
  {
    var r := Decimal(n);
    if n >= 10 {
      DecimalRoundTrip(n / 10);
      assert r[..|r| - 1] == Decimal(n / 10);
    }
    assert DigitValue(DigitChar(n % 10)) == n % 10 by {
      assert "0123456789"[n % 10] as int == '0' as int + n % 10;
    }
  }

  /** The path of entry `index` below `base`, as "/edges/3". */
  function IndexPath(base: string, index: nat): string {
    base + "/" + Decimal(index)
  }

  // ---------------------------------------------------------------------------
  // Mappings

  /** The value of the first entry named `key`. */
  function Lookup<V>(entries: seq<(string, V)>, key: string): (r: Option<V>)
    ensures r.None? <==> forall i :: 0 <= i < |entries| ==> entries[i].0 != key
    ensures r.Some? ==> exists i :: 0 <= i < |entries| && entries[i] == (key, r.value)
                                    && forall j :: 0 <= j < i ==> entries[j].0 != key
    decreases |entries|
  {
    if entries == [] then None
    else if entries[0].0 == key then Some(entries[0].1)
    else
      var r := Lookup(entries[1..], key);
      assert forall i :: 1 <= i < |entries| ==> entries[i] == entries[1..][i - 1];
      if r.Some? then
        ghost var i :| 0 <= i < |entries[1..]| && entries[1..][i] == (key, r.value)
                       && forall j :: 0 <= j < i ==> entries[1..][j].0 != key;
        assert entries[i + 1] == (key, r.value);
        r
      else r
  }

  /** The keys an entry list names. */
  function KeysOf<V>(entries: seq<(string, V)>): set<string> {
    set i | 0 <= i < |entries| :: entries[i].0
  }

  /** Entry `i` is the last one with its key. */
  predicate LastOfKey<V>(entries: seq<(string, V)>, i: nat)
    requires i < |entries|
  {
    forall k :: i < k < |entries| ==> entries[k].0 != entries[i].0
  }

  // ---------------------------------------------------------------------------
  // Arrays of entries

  /** One spec per entry of `items`, in order, each built by `f` from the
      section path, the entry and its index; the first failing entry's error
      ends the walk. */
  function Each<A, T>(items: seq<A>, base: string, f: (string, A, nat) -> Result<T, string>): Result<seq<T>, string>
    decreases |items|
  {
    if items == [] then Ok([])
    else
      match Each(items[..|items| - 1], base, f)
      case Err(e) => Err(e)
      case Ok(done) =>
        match f(base, items[|items| - 1], |items| - 1)
        case Err(e) => Err(e)
        case Ok(x) => Ok(done + [x])
  }

  /** One more entry: a walk that read the first `i` entries into `done`
      goes on with entry `i`. */
  lemma EachStep<A, T>(items: seq<A>, base: string, f: (string, A, nat) -> Result<T, string>, i: nat, done: seq<T>)
    requires i < |items| && Each(items[..i], base, f) == Ok(done)
    ensures f(base, items[i], i).Err? ==> Each(items[..i + 1], base, f) == Err(f(base, items[i], i).error)
    ensures f(base, items[i], i).Ok? ==> Each(items[..i + 1], base, f) == Ok(done + [f(base, items[i], i).value])
  {
    assert items[..i + 1][..i] == items[..i];
  }

  /** The walk succeeds exactly when every entry does, and then keeps the
      entries' order one for one. */
  lemma {:induction false} EachOk<A, T>(items: seq<A>, base: string, f: (string, A, nat) -> Result<T, string>)
    ensures Each(items, base, f).Ok? <==> forall i :: 0 <= i < |items| ==> f(base, items[i], i).Ok?
    ensures Each(items, base, f).Ok? ==>
      && |Each(items, base, f).value| == |items|
      && forall i :: 0 <= i < |items| ==> Each(items, base, f).value[i] == f(base, items[i], i).value
    decreases |items|
  {
    if items != [] {
      var init := items[..|items| - 1];
      EachOk(init, base, f);
      assert forall i :: 0 <= i < |init| ==> init[i] == items[i];
    }
  }

  /** A failed walk reports the error of its first failing entry. */
  lemma {:induction false} EachFirstError<A, T>(items: seq<A>, base: string, f: (string, A, nat) -> Result<T, string>)
    requires Each(items, base, f).Err?
    ensures exists i :: 0 <= i < |items| && f(base, items[i], i).Err?
                        && Each(items, base, f).error == f(base, items[i], i).error
                        && forall j :: 0 <= j < i ==> f(base, items[j], j).Ok?
    decreases |items|
  {
    var init := items[..|items| - 1];
    var last := |items| - 1;
    assert forall i :: 0 <= i < |init| ==> init[i] == items[i];
    if Each(init, base, f).Err? {
      EachFirstError(init, base, f);
      var i :| 0 <= i < |init| && f(base, init[i], i).Err?
               && Each(init, base, f).error == f(base, init[i], i).error
               && forall j :: 0 <= j < i ==> f(base, init[j], j).Ok?;
      assert f(base, items[i], i).Err?;
    } else {
      EachOk(init, base, f);
      assert f(base, items[last], last).Err?;
    }
  }

  /** Once the walk over an array has failed, later entries do not matter. */
  lemma {:induction false} EachStop<A, T>(items: seq<A>, base: string, f: (string, A, nat) -> Result<T, string>, k: nat)
    requires k <= |items| && Each(items[..k], base, f).Err?
    ensures Each(items, base, f) == Each(items[..k], base, f)
    decreases |items| - k
  {
    if k < |items| {
      assert items[..k + 1][..k] == items[..k];
      EachStop(items, base, f, k + 1);
    } else {
      assert items[..k] == items;
    }
  }
}
