/** An id-keyed list, as the data manager keeps activities and shop
    products: linear search by id, replace-or-append on save, filter on
    delete (src/services/DataManager.ts). `key` projects an entry to its id. */
module Directory {
  import opened Optional
  import opened SeqUtil

  /** `findIndex(e => key(e) === k)`: the first index holding key `k`. */
  function FindIndex<T>(xs: seq<T>, k: string, key: T -> string): (r: Option<nat>)
    ensures r.Some? ==> r.value < |xs| && key(xs[r.value]) == k
    ensures r.Some? ==> forall j :: 0 <= j < r.value ==> key(xs[j]) != k
    ensures r.None? <==> forall j :: 0 <= j < |xs| ==> key(xs[j]) != k
    decreases |xs|
  {
    if |xs| == 0 then None
    else if key(xs[0]) == k then Some(0)
    else
      match FindIndex(xs[1..], k, key)
      case None => None
      case Some(i) => Some(i + 1)
  }

  /** `i` is the first index whose entry has key `k`. */
  ghost predicate IsFirst<T>(xs: seq<T>, k: string, key: T -> string, i: int)
  {
    0 <= i < |xs| && key(xs[i]) == k && forall j :: 0 <= j < i ==> key(xs[j]) != k
  }

  /** `find(e => key(e) === k)`: the first entry with key `k`, or none. */
  function Find<T>(xs: seq<T>, k: string, key: T -> string): (r: Option<T>)
    ensures r.Some? ==> r.value in xs && key(r.value) == k
    ensures r.None? <==> forall j :: 0 <= j < |xs| ==> key(xs[j]) != k
    ensures forall i :: IsFirst(xs, k, key, i) ==> r == Some(xs[i])
  {
    match FindIndex(xs, k, key)
    case None => None
    case Some(i) => Some(xs[i])
  }

  /** Save: replaces the first entry with the same key in place, otherwise
      appends. */
  function Upsert<T>(xs: seq<T>, x: T, key: T -> string): (r: seq<T>)
    ensures (forall j :: 0 <= j < |xs| ==> key(xs[j]) != key(x)) ==> r == xs + [x]
    ensures forall i :: IsFirst(xs, key(x), key, i) ==> r == xs[i := x]
  {
    match FindIndex(xs, key(x), key)
    case Some(i) => xs[i := x]
    case None => xs + [x]
  }

  /** Delete: `filter(e => key(e) !== k)`. */
  function Delete<T>(xs: seq<T>, k: string, key: T -> string): (r: seq<T>)
    ensures forall i :: 0 <= i < |r| ==> key(r[i]) != k
    ensures forall i :: 0 <= i < |xs| && key(xs[i]) != k ==> xs[i] in r
    ensures forall y :: y in r ==> y in xs
    ensures (forall j :: 0 <= j < |xs| ==> key(xs[j]) != k) ==> r == xs
    ensures multiset(r) <= multiset(xs)
    ensures forall i :: 0 <= i < |xs| && key(xs[i]) != k ==> multiset(r)[xs[i]] == multiset(xs)[xs[i]]
  {
    FilterKeepsMultiplicity(xs, (e: T) => key(e) != k);
    Filter(xs, (e: T) => key(e) != k)
  }

  /** Deleting keeps the surviving entries in their original order. */
  lemma DeletePreservesOrder<T>(xs: seq<T>, k: string, key: T -> string)
    ensures IsSubsequence(Delete(xs, k, key), xs)
  {
    FilterIsSubsequence(xs, (e: T) => key(e) != k);
  }

  /** No two entries share a key. */
  ghost predicate UniqueKeys<T>(xs: seq<T>, key: T -> string)
  {
    forall i, j :: 0 <= i < j < |xs| ==> key(xs[i]) != key(xs[j])
  }

  ghost function Keys<T>(xs: seq<T>, key: T -> string): set<string>
  {
    set i | 0 <= i < |xs| :: key(xs[i])
  }

  /** The first index holding a key is what `FindIndex` reports. */
  lemma {:induction false} FindIndexIsFirst<T>(xs: seq<T>, k: string, key: T -> string, i: nat)
    requires i < |xs| && key(xs[i]) == k
    requires forall j :: 0 <= j < i ==> key(xs[j]) != k
    ensures FindIndex(xs, k, key) == Some(i)
    decreases i
  {
    if i > 0 {
      assert key(xs[0]) != k;
      FindIndexIsFirst(xs[1..], k, key, i - 1);
    }
  }

  /** A saved entry is what a later lookup of its key finds. */
  lemma FindAfterUpsert<T>(xs: seq<T>, x: T, key: T -> string)
    ensures Find(Upsert(xs, x, key), key(x), key) == Some(x)
  {
    var r := Upsert(xs, x, key);
    match FindIndex(xs, key(x), key)
    case Some(i) =>
      FindIndexIsFirst(r, key(x), key, i);
    case None =>
      FindIndexIsFirst(r, key(x), key, |xs|);
  }

  /** Saving an entry does not change what any other key looks up. */
  lemma FindOtherAfterUpsert<T>(xs: seq<T>, x: T, k: string, key: T -> string)
    requires k != key(x)
    ensures Find(Upsert(xs, x, key), k, key) == Find(xs, k, key)
  {
    var r := Upsert(xs, x, key);
    assert forall j :: 0 <= j < |xs| && key(xs[j]) == k ==> r[j] == xs[j];
    match FindIndex(xs, k, key)
    case Some(i) =>
      FindIndexIsFirst(r, k, key, i);
    case None =>
      assert forall j :: 0 <= j < |r| ==> key(r[j]) != k;
  }

  /** After a delete the key is gone; other keys look up as before. */
  lemma FindAfterDelete<T>(xs: seq<T>, k: string, k': string, key: T -> string)
    ensures Find(Delete(xs, k, key), k, key) == None
    ensures k' != k ==> Find(Delete(xs, k, key), k', key) == Find(xs, k', key)
  {
    if k' != k {
      FindInFilter(xs, k, k', key);
    }
  }

  lemma {:induction false} FindInFilter<T>(xs: seq<T>, k: string, k': string, key: T -> string)
    requires k' != k
    ensures Find(Delete(xs, k, key), k', key) == Find(xs, k', key)
    decreases |xs|
  {
    if |xs| > 0 {
      FindInFilter(xs[1..], k, k', key);
      var p := (e: T) => key(e) != k;
      assert Delete(xs, k, key) == if p(xs[0]) then [xs[0]] + Delete(xs[1..], k, key) else Delete(xs[1..], k, key);
      if key(xs[0]) == k' {
        assert Find(xs, k', key) == Some(xs[0]);
      } else {
        FindSkipsHead(xs, k', key);
        if p(xs[0]) {
          FindSkipsHead([xs[0]] + Delete(xs[1..], k, key), k', key);
          assert ([xs[0]] + Delete(xs[1..], k, key))[1..] == Delete(xs[1..], k, key);
        }
      }
    }
  }

  lemma FindSkipsHead<T>(xs: seq<T>, k: string, key: T -> string)
    requires |xs| > 0 && key(xs[0]) != k
    ensures Find(xs, k, key) == Find(xs[1..], k, key)
  {
  }

  /** Saves keep keys unique, and the key set grows by exactly the saved key
      (the collection holds one entry per distinct id ever saved). */
  lemma UpsertKeepsKeysUnique<T>(xs: seq<T>, x: T, key: T -> string)
    requires UniqueKeys(xs, key)
    ensures UniqueKeys(Upsert(xs, x, key), key)
    ensures Keys(Upsert(xs, x, key), key) == Keys(xs, key) + {key(x)}
  {
    var r := Upsert(xs, x, key);
    match FindIndex(xs, key(x), key)
    case Some(i) =>
      assert r == xs[i := x];
      assert forall j :: 0 <= j < |r| ==> key(r[j]) == key(xs[j]);
      assert Keys(r, key) == Keys(xs, key) by {
        forall s | s in Keys(r, key) ensures s in Keys(xs, key) {
          var j :| 0 <= j < |r| && key(r[j]) == s;
          assert key(xs[j]) == s;
        }
        forall s | s in Keys(xs, key) ensures s in Keys(r, key) {
          var j :| 0 <= j < |xs| && key(xs[j]) == s;
          assert key(r[j]) == s;
        }
      }
      assert key(x) in Keys(xs, key) by { assert key(xs[i]) == key(x); }
    case None =>
      assert r == xs + [x];
      assert Keys(r, key) == Keys(xs, key) + {key(x)} by {
        forall s | s in Keys(r, key) ensures s in Keys(xs, key) + {key(x)} {
          var j :| 0 <= j < |r| && key(r[j]) == s;
          if j < |xs| { assert key(xs[j]) == s; }
        }
        forall s | s in Keys(xs, key) + {key(x)} ensures s in Keys(r, key) {
          if s == key(x) {
            assert key(r[|xs|]) == s;
          } else {
            var j :| 0 <= j < |xs| && key(xs[j]) == s;
            assert key(r[j]) == s;
          }
        }
      }
  }

  /** A run of saves, oldest first. */
  function SaveAll<T>(xs: seq<T>, saves: seq<T>, key: T -> string): seq<T>
    decreases |saves|
  {
    if |saves| == 0 then xs else SaveAll(Upsert(xs, saves[0], key), saves[1..], key)
  }

  /** `saves[i]` is the last save of its key. */
  ghost predicate LastSaveOfKey<T>(saves: seq<T>, key: T -> string, i: int)
  {
    0 <= i < |saves| && forall j :: i < j < |saves| ==> key(saves[j]) != key(saves[i])
  }

  /** After any run of saves the collection holds exactly one entry per
      distinct key, and each saved key looks up its most recent save. */
  lemma {:induction false} SaveAllIsUpsertMap<T>(xs: seq<T>, saves: seq<T>, key: T -> string)
    requires UniqueKeys(xs, key)
    ensures UniqueKeys(SaveAll(xs, saves, key), key)
    ensures Keys(SaveAll(xs, saves, key), key) == Keys(xs, key) + Keys(saves, key)
    ensures forall i :: LastSaveOfKey(saves, key, i) ==> Find(SaveAll(xs, saves, key), key(saves[i]), key) == Some(saves[i])
    decreases |saves|
  {
    if |saves| > 0 {
      var ys := Upsert(xs, saves[0], key);
      UpsertKeepsKeysUnique(xs, saves[0], key);
      SaveAllIsUpsertMap(ys, saves[1..], key);
      var tail := saves[1..];
      assert Keys(saves, key) == {key(saves[0])} + Keys(tail, key) by {
        forall s | s in Keys(saves, key) ensures s in {key(saves[0])} + Keys(tail, key) {
          var j :| 0 <= j < |saves| && key(saves[j]) == s;
          if j > 0 { assert key(tail[j - 1]) == s; }
        }
        forall s | s in Keys(tail, key) ensures s in Keys(saves, key) {
          var j :| 0 <= j < |tail| && key(tail[j]) == s;
          assert key(saves[j + 1]) == s;
        }
      }
      forall i | LastSaveOfKey(saves, key, i)
        ensures Find(SaveAll(xs, saves, key), key(saves[i]), key) == Some(saves[i])
      {
        if i > 0 {
          assert LastSaveOfKey(tail, key, i - 1);
        } else {
          FindAfterUpsert(xs, saves[0], key);
          SaveAllKeepsUntouchedKey(ys, tail, key(saves[0]), key);
        }
      }
    }
  }

  /** Saves of other keys leave a key's lookup alone. */
  lemma {:induction false} SaveAllKeepsUntouchedKey<T>(xs: seq<T>, saves: seq<T>, k: string, key: T -> string)
    requires forall j :: 0 <= j < |saves| ==> key(saves[j]) != k
    ensures Find(SaveAll(xs, saves, key), k, key) == Find(xs, k, key)
    decreases |saves|
  {
    if |saves| > 0 {
      FindOtherAfterUpsert(xs, saves[0], k, key);
      SaveAllKeepsUntouchedKey(Upsert(xs, saves[0], key), saves[1..], k, key);
    }
  }
}
