/** Shrinking a list or a dict until its JSON text fits a token budget. */
module Truncation {
  // ---- lists ----

  /** The longest tail that fits, but at least one item: what is given up does not fit, tail by tail. */
  method TruncateList<T>(data: seq<T>, maxTokens: int, count: seq<T> -> nat) returns (r: seq<T>)
    ensures |r| <= |data| && r == data[|data| - |r|..]
    ensures data != [] ==> r != []
    ensures |r| > 1 ==> count(r) <= maxTokens
    ensures forall i :: 0 <= i < |data| - |r| ==> count(data[i..]) > maxTokens
  {
    r := data;
    while |r| > 1 && count(r) > maxTokens
      invariant |r| <= |data| && r == data[|data| - |r|..]
      invariant data != [] ==> r != []
      invariant forall i :: 0 <= i < |data| - |r| ==> count(data[i..]) > maxTokens
    {
      r := r[1..];
    }
  }

  // ---- dicts, as their entries in insertion order ----

  datatype Entry = Entry(key: string, value: string)

  function Evictable(data: seq<Entry>, protected: set<string>): seq<string> {
    if data == [] then []
    else (if data[0].key in protected then [] else [data[0].key]) + Evictable(data[1..], protected)
  }

  function Without(data: seq<Entry>, keys: seq<string>): seq<Entry> {
    if data == [] then []
    else if data[0].key in keys then Without(data[1..], keys)
    else [data[0]] + Without(data[1..], keys)
  }

  lemma WithoutHead(e: Entry, rest: seq<Entry>, keys: seq<string>)
    ensures Without([e] + rest, keys) == if e.key in keys then Without(rest, keys) else [e] + Without(rest, keys)
  {
    assert ([e] + rest)[1..] == rest;
  }

  lemma {:induction false} WithoutOneMore(data: seq<Entry>, keys: seq<string>, key: string)
    ensures Without(Without(data, keys), [key]) == Without(data, keys + [key])
  {
    if data == [] {
    } else {
      var rest := Without(data[1..], keys);
      WithoutOneMore(data[1..], keys, key);
      assert data[0].key in keys + [key] <==> data[0].key in keys || data[0].key == key;
      if data[0].key !in keys {
        assert Without(data, keys) == [data[0]] + rest;
        WithoutHead(data[0], rest, [key]);
      }
    }
  }

  lemma {:induction false} WithoutNothing(data: seq<Entry>)
    ensures Without(data, []) == data
  {
    if data == [] {
    } else {
      WithoutNothing(data[1..]);
    }
  }

  /** Exactly the entries whose keys are not taken out stay. */
  lemma {:induction false} WithoutMembers(data: seq<Entry>, keys: seq<string>, e: Entry)
    ensures e in Without(data, keys) <==> e in data && e.key !in keys
  {
    if data == [] {
    } else {
      WithoutMembers(data[1..], keys, e);
    }
  }

  lemma {:induction false} EvictableMembers(data: seq<Entry>, protected: set<string>, key: string)
    ensures key in Evictable(data, protected) <==> key !in protected && exists e :: e in data && e.key == key
  {
    if data == [] {
    } else {
      EvictableMembers(data[1..], protected, key);
      assert data[0] in data;
    }
  }

  lemma {:induction false} EvictableSplits(a: seq<Entry>, b: seq<Entry>, protected: set<string>)
    ensures Evictable(a + b, protected) == Evictable(a, protected) + Evictable(b, protected)
  {
    if a == [] {
      assert a + b == b;
    } else {
      assert (a + b)[0] == a[0] && (a + b)[1..] == a[1..] + b;
      EvictableSplits(a[1..], b, protected);
    }
  }

  ghost predicate IsDict(data: seq<Entry>) { forall i, j :: 0 <= i < j < |data| ==> data[i].key != data[j].key }

  /** Eviction is by age: where an entry is among the first m to go, so is every unprotected older one. */
  lemma OldestGoFirst(data: seq<Entry>, protected: set<string>, m: nat, i: nat, j: nat)
    requires IsDict(data) && i < j < |data| && m <= |Evictable(data, protected)|
    requires data[i].key !in protected && data[j].key in Evictable(data, protected)[..m]
    ensures data[i].key in Evictable(data, protected)[..m]
  {
    var older, all := Evictable(data[..j], protected), Evictable(data, protected);
    assert data == data[..j] + data[j..];
    EvictableSplits(data[..j], data[j..], protected);
    EvictableMembers(data[..j], protected, data[j].key);
    EvictableMembers(data[..j], protected, data[i].key);
    assert data[i] in data[..j];
    var q :| 0 <= q < m && all[q] == data[j].key;
    if q < |older| {
      assert false;
    }
    var p :| 0 <= p < |older| && older[p] == data[i].key;
    assert all[p] == older[p] && all[..m][p] == all[p];
  }

  /** The oldest unprotected entries go, m of them: as few as it takes, unless all of them are not enough. */
  method TruncateDict(data: seq<Entry>, maxTokens: int, protected: set<string>, count: seq<Entry> -> nat)
    returns (r: seq<Entry>, ghost m: nat)
    ensures m <= |Evictable(data, protected)| && r == Without(data, Evictable(data, protected)[..m])
    ensures |r| <= 1 || count(r) <= maxTokens || m == |Evictable(data, protected)|
    ensures forall k :: 0 <= k < m ==>
              |Without(data, Evictable(data, protected)[..k])| > 1 && count(Without(data, Evictable(data, protected)[..k])) > maxTokens
    ensures forall e :: e in data && e.key in protected ==> e in r
  {
    var evictable := Evictable(data, protected);
    r := data;
    var idx := 0;
    WithoutNothing(data);
    while |r| > 1 && count(r) > maxTokens
      invariant idx <= |evictable| && r == Without(data, evictable[..idx])
      invariant forall k :: 0 <= k < idx ==>
                  |Without(data, evictable[..k])| > 1 && count(Without(data, evictable[..k])) > maxTokens
      decreases |evictable| - idx
    {
      if idx == |evictable| {
        break;
      }
      WithoutOneMore(data, evictable[..idx], evictable[idx]);
      assert evictable[..idx + 1] == evictable[..idx] + [evictable[idx]];
      r := Without(r, [evictable[idx]]);
      idx := idx + 1;
    }
    m := idx;
    forall e | e in data && e.key in protected ensures e in r {
      EvictableMembers(data, protected, e.key);
      WithoutMembers(data, evictable[..idx], e);
    }
  }
}
