/** Facts about the world and the collection operations the GOAP core uses on them.

    A C# `HashSet<KeyValuePair<string, bool>>` is modelled as a duplicate-free
    sequence: the sequence order is the (fixed) iteration order, `HashSet.Add`
    appends an element that is not yet present, and `Remove`/`RemoveWhere`
    filter the sequence and keep the order of what remains. */
module Facts {

  datatype Option<T> = None | Some(value: T)

  /** A fact: a fact name and its truth value (a `KeyValuePair<string, bool>`). */
  datatype Fact = Fact(key: string, value: bool)

  /** Identity of an engine object (a `GameObject` reference); only equality is used. */
  type ObjectId = nat

  /** No element occurs twice, as in a `HashSet` or a duplicate-free `List`. */
  predicate NoDup<T(==)>(s: seq<T>) {
    forall i, j :: 0 <= i < j < |s| ==> s[i] != s[j]
  }

  /** Some entry of `s` has name `k`. */
  predicate HasKey(s: seq<Fact>, k: string) {
    exists i :: 0 <= i < |s| && s[i].key == k
  }

  /** At most one entry per fact name. */
  predicate UniqueKeys(s: seq<Fact>) {
    forall i, j :: 0 <= i < j < |s| ==> s[i].key != s[j].key
  }

  lemma UniqueKeysNoDup(s: seq<Fact>)
    requires UniqueKeys(s)
    ensures NoDup(s)
  {
  }

  /** `HashSet.Add`: insert `x` unless it is already present. */
  function SetAdd<T(==,!new)>(s: seq<T>, x: T): (r: seq<T>)
    ensures forall y :: y in r <==> y in s || y == x
    ensures x in s ==> r == s
    ensures x !in s ==> r == s + [x]
    ensures NoDup(s) ==> NoDup(r)
  {
    if x in s then s else s + [x]
  }

  /** `HashSet.Remove` / `List.Remove` on a duplicate-free collection: drop `x`, keep the order. */
  function Remove<T(==,!new)>(s: seq<T>, x: T): (r: seq<T>)
    ensures forall y :: y in r <==> y in s && y != x
    ensures |r| <= |s|
    ensures x in s ==> |r| < |s|
    ensures x !in s ==> r == s
    ensures NoDup(s) ==> NoDup(r)
    ensures NoDup(s) && x in s ==> |r| == |s| - 1
  {
    if s == [] then []
    else if s[0] == x then Remove(s[1..], x)
    else
      var rest := Remove(s[1..], x);
      assert NoDup(s) ==> NoDup([s[0]] + rest) by {
        if NoDup(s) { NoDupCons(s[0], rest); }
      }
      [s[0]] + rest
  }

  /** Prepending an absent element keeps a sequence duplicate-free. */
  lemma NoDupCons<T>(x: T, t: seq<T>)
    requires x !in t && NoDup(t)
    ensures NoDup([x] + t)
  {
    forall i, j | 0 <= i < j < |[x] + t| ensures ([x] + t)[i] != ([x] + t)[j] {
      if i > 0 {
        assert ([x] + t)[i] == t[i - 1];
      }
    }
  }

  /** Removing a fact keeps names unique. */
  lemma {:induction false} RemoveUniqueKeys(s: seq<Fact>, x: Fact)
    requires UniqueKeys(s)
    ensures UniqueKeys(Remove(s, x))
  {
    if s != [] && s[0] != x {
      RemoveUniqueKeys(s[1..], x);
      var rest := Remove(s[1..], x);
      forall i, j | 0 <= i < j < |[s[0]] + rest| ensures ([s[0]] + rest)[i].key != ([s[0]] + rest)[j].key {
        assert ([s[0]] + rest)[j] == rest[j - 1];
        if i > 0 {
          assert ([s[0]] + rest)[i] == rest[i - 1];
        } else {
          assert rest[j - 1] in s[1..];
        }
      }
    } else if s != [] {
      RemoveUniqueKeys(s[1..], x);
    }
  }

  /** In a store with unique names, an entry is determined by its name. */
  lemma SameKeySameFact(s: seq<Fact>, f: Fact, g: Fact)
    requires UniqueKeys(s) && f in s && g in s && f.key == g.key
    ensures f == g
  {
    var i :| 0 <= i < |s| && s[i] == f;
    var j :| 0 <= j < |s| && s[j] == g;
    assert !(i < j) && !(j < i);
  }

  /** Appending an entry with a new name keeps names unique. */
  lemma UniqueKeysSnoc(t: seq<Fact>, x: Fact)
    requires UniqueKeys(t) && !HasKey(t, x.key)
    ensures UniqueKeys(t + [x])
  {
    forall i, j | 0 <= i < j < |t + [x]| ensures (t + [x])[i].key != (t + [x])[j].key {
      assert (t + [x])[i] == t[i];
      if j < |t| {
        assert (t + [x])[j] == t[j];
      }
    }
  }

  /** Removing the element just appended gives back the original sequence. */
  lemma {:induction false} RemoveAppended<T(!new)>(t: seq<T>, x: T)
    requires x !in t
    ensures Remove(t + [x], x) == t
  {
    if t != [] {
      assert (t + [x])[1..] == t[1..] + [x];
      RemoveAppended(t[1..], x);
    } else {
      assert ([x])[1..] == [];
    }
  }

  /** `RemoveWhere(kvp => kvp.Key.Equals(k))`: drop every entry named `k`, keep the order. */
  function RemoveKey(s: seq<Fact>, k: string): (r: seq<Fact>)
    ensures forall y :: y in r <==> y in s && y.key != k
    ensures !HasKey(r, k)
    ensures NoDup(s) ==> NoDup(r)
    ensures UniqueKeys(s) ==> UniqueKeys(r)
  {
    if s == [] then []
    else if s[0].key == k then RemoveKey(s[1..], k)
    else [s[0]] + RemoveKey(s[1..], k)
  }

  /** The first entry named `k`, in iteration order. */
  function FirstWithKey(s: seq<Fact>, k: string): (r: Option<Fact>)
    ensures r.None? <==> !HasKey(s, k)
    ensures r.Some? ==> r.value in s && r.value.key == k
  {
    if s == [] then None
    else if s[0].key == k then Some(s[0])
    else FirstWithKey(s[1..], k)
  }

  /** The first entry named `k` is the one a scan from the front stops at. */
  lemma {:induction false} FirstWithKeyAt(s: seq<Fact>, k: string, i: nat)
    requires i < |s| && s[i].key == k
    requires forall j :: 0 <= j < i ==> s[j].key != k
    ensures FirstWithKey(s, k) == Some(s[i])
  {
    if i > 0 {
      FirstWithKeyAt(s[1..], k, i - 1);
    }
  }

  /** Position `i` holds the last entry named `k`. */
  predicate LastAt(s: seq<Fact>, k: string, i: int)
  {
    0 <= i < |s| && s[i].key == k && forall j :: i < j < |s| ==> s[j].key != k
  }

  /** The last entry named `k`, in iteration order. */
  function LastWithKey(s: seq<Fact>, k: string): (r: Option<Fact>)
    ensures r.None? <==> !HasKey(s, k)
    ensures r.Some? ==> r.value in s && r.value.key == k
    ensures r.Some? ==> exists i :: LastAt(s, k, i) && s[i] == r.value
  {
    if s == [] then None
    else if s[|s| - 1].key == k then
      assert LastAt(s, k, |s| - 1);
      Some(s[|s| - 1])
    else
      var r := LastWithKey(s[..|s| - 1], k);
      assert r.Some? ==> exists i :: LastAt(s, k, i) && s[i] == r.value by {
        if r.Some? {
          var i :| LastAt(s[..|s| - 1], k, i) && s[..|s| - 1][i] == r.value;
          assert LastAt(s, k, i);
        }
      }
      r
  }

  /** A fact store after reading fact `k`: an unknown name is created with value false. */
  function Vivify(s: seq<Fact>, k: string): (r: seq<Fact>)
    ensures HasKey(r, k)
    ensures forall f :: f in s ==> f in r
    ensures forall f :: f in r && f.key != k ==> f in s
    ensures UniqueKeys(s) ==> UniqueKeys(r)
  {
    if HasKey(s, k) then s
    else
      assert (s + [Fact(k, false)])[|s|].key == k;
      s + [Fact(k, false)]
  }
}
