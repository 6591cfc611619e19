/** A `URLSearchParams` object as the ordered list of its name/value pairs.
    Percent-encoding is not modelled: `Serialize` joins the pairs as they
    are. */
module UrlParams {
  import opened Wrappers

  type Param = (string, string)

  function Keys(ps: seq<Param>): (r: seq<string>)
    ensures |r| == |ps| && forall i :: 0 <= i < |ps| ==> r[i] == ps[i].0
  {
    seq(|ps|, i requires 0 <= i < |ps| => ps[i].0)
  }

  /** `params.get(k)`: the value of the first pair named `k`. */
  function Lookup(ps: seq<Param>, k: string): (r: Option<string>)
    ensures r.None? <==> k !in Keys(ps)
  {
    if ps == [] then None
    else if ps[0].0 == k then Some(ps[0].1)
    else
      assert Keys(ps) == [ps[0].0] + Keys(ps[1..]);
      Lookup(ps[1..], k)
  }

  lemma LookupAppend(ps: seq<Param>, k: string, v: string, j: string)
    ensures Lookup(ps + [(k, v)], j) ==
      if j in Keys(ps) then Lookup(ps, j) else if j == k then Some(v) else None
  {
    if ps != [] {
      assert (ps + [(k, v)])[1..] == ps[1..] + [(k, v)];
      assert Keys(ps) == [ps[0].0] + Keys(ps[1..]);
      LookupAppend(ps[1..], k, v, j);
    }
  }

  /** Every pair named `k` removed. */
  function RemoveKey(ps: seq<Param>, k: string): (r: seq<Param>)
    ensures k !in Keys(r)
    ensures forall j :: j != k ==> Lookup(r, j) == Lookup(ps, j)
  {
    if ps == [] then []
    else if ps[0].0 == k then RemoveKey(ps[1..], k)
    else
      var r := [ps[0]] + RemoveKey(ps[1..], k);
      assert r[1..] == RemoveKey(ps[1..], k);
      r
  }

  function ReplaceKey(ps: seq<Param>, k: string, v: string): (r: seq<Param>)
    requires k in Keys(ps)
    ensures Lookup(r, k) == Some(v)
    ensures forall j :: j != k ==> Lookup(r, j) == Lookup(ps, j)
  {
    assert Keys(ps) == [ps[0].0] + Keys(ps[1..]);
    if ps[0].0 == k then
      var r := [(k, v)] + RemoveKey(ps[1..], k);
      assert r[1..] == RemoveKey(ps[1..], k);
      r
    else
      var r := [ps[0]] + ReplaceKey(ps[1..], k, v);
      assert r[1..] == ReplaceKey(ps[1..], k, v);
      r
  }

  /** `params.set(k, v)`: the first pair named `k` gets the value `v` and
      later pairs of that name go; without such a pair, `(k, v)` is
      appended. */
  function Set(ps: seq<Param>, k: string, v: string): (r: seq<Param>)
    ensures Lookup(r, k) == Some(v)
    ensures forall j :: j != k ==> Lookup(r, j) == Lookup(ps, j)
    ensures k !in Keys(ps) ==> r == ps + [(k, v)]
  {
    if k in Keys(ps) then ReplaceKey(ps, k, v)
    else
      LookupAppendAll(ps, k, v);
      ps + [(k, v)]
  }

  lemma LookupAppendAll(ps: seq<Param>, k: string, v: string)
    requires k !in Keys(ps)
    ensures Lookup(ps + [(k, v)], k) == Some(v)
    ensures forall j :: j != k ==> Lookup(ps + [(k, v)], j) == Lookup(ps, j)
  {
    LookupAppend(ps, k, v, k);
    forall j | j != k ensures Lookup(ps + [(k, v)], j) == Lookup(ps, j) {
      LookupAppend(ps, k, v, j);
    }
  }

  /** The names occur in increasing `rank`, so in particular each at most
      once. */
  predicate KeysOrderedBy(ps: seq<Param>, rank: string -> nat)
  {
    forall i, j :: 0 <= i < j < |ps| ==> rank(ps[i].0) < rank(ps[j].0)
  }

  /** A candidate parameter: a name and the value it would be set to, if
      any. */
  type Entry = (string, Option<string>)

  function Names(entries: seq<Entry>): (r: seq<string>)
    ensures |r| == |entries| && forall i :: 0 <= i < |entries| ==> r[i] == entries[i].0
  {
    seq(|entries|, i requires 0 <= i < |entries| => entries[i].0)
  }

  /** The pair an entry contributes: one pair if it has a value, none
      otherwise. */
  function Pair(k: string, v: Option<string>): seq<Param>
  {
    if v.Some? then [(k, v.value)] else []
  }

  /** The pairs of the entries that have a value, in entry order: what a
      run of `if (value) params.set(name, value)` statements produces on
      an empty object when the names are distinct. */
  function Present(entries: seq<Entry>): (r: seq<Param>)
    ensures |r| <= |entries|
    ensures forall i :: 0 <= i < |r| ==> r[i].0 in Names(entries)
  {
    if entries == [] then []
    else
      var r := Pair(entries[0].0, entries[0].1) + Present(entries[1..]);
      assert Names(entries) == [entries[0].0] + Names(entries[1..]);
      r
  }

  /** `Present` of two entries, unfolded. */
  lemma PresentTwo(a: Entry, b: Entry)
    ensures Present([a, b]) == Pair(a.0, a.1) + Pair(b.0, b.1)
  {
    var e := [a, b];
    assert e[1..] == [b] && e[1..][1..] == [];
    assert Present([b]) == Pair(b.0, b.1) + Present([]);
  }

  /** `Present` of three entries, unfolded. */
  lemma PresentThree(a: Entry, b: Entry, c: Entry)
    ensures Present([a, b, c]) == Pair(a.0, a.1) + Pair(b.0, b.1) + Pair(c.0, c.1)
  {
    var e := [a, b, c];
    assert e[1..] == [b, c];
    PresentTwo(b, c);
  }

  /** The value the first entry named `k` holds. */
  function EntryValue(entries: seq<Entry>, k: string): Option<string>
  {
    if entries == [] then None
    else if entries[0].0 == k then entries[0].1
    else EntryValue(entries[1..], k)
  }

  /** Entry names occur in strictly increasing `rank`. */
  predicate EntriesRanked(entries: seq<Entry>, rank: string -> nat)
  {
    forall i, j :: 0 <= i < j < |entries| ==> rank(entries[i].0) < rank(entries[j].0)
  }

  /** Appending one more entry appends its pair. */
  lemma {:induction false} PresentSnoc(entries: seq<Entry>, e: Entry)
    ensures Present(entries + [e]) == Present(entries) + Pair(e.0, e.1)
  {
    if entries != [] {
      assert (entries + [e])[1..] == entries[1..] + [e];
      PresentSnoc(entries[1..], e);
    } else {
      assert Present([e]) == Pair(e.0, e.1) + Present([]);
    }
  }

  /** Pairs produced from rank-ordered entries have rank-ordered names. */
  lemma {:induction false} PresentOrdered(entries: seq<Entry>, rank: string -> nat)
    requires EntriesRanked(entries, rank)
    ensures KeysOrderedBy(Present(entries), rank)
  {
    if entries != [] {
      var rest := entries[1..];
      PresentOrdered(rest, rank);
      var tail := Present(rest);
      var head := Pair(entries[0].0, entries[0].1);
      forall m | 0 <= m < |rest| ensures rank(entries[0].0) < rank(rest[m].0) {
        assert rest[m] == entries[m + 1];
      }
      PresentRanksAbove(rest, rank, rank(entries[0].0));
      var r := head + tail;
      assert r == Present(entries);
      forall i, j | 0 <= i < j < |r| ensures rank(r[i].0) < rank(r[j].0) {
        if i < |head| {
          assert r[i].0 == entries[0].0;
          assert r[j] == tail[j - |head|];
        } else {
          assert r[i] == tail[i - |head|] && r[j] == tail[j - |head|];
        }
      }
    }
  }

  /** Every pair's name ranks above a bound that all entry names rank
      above. */
  lemma PresentRanksAbove(entries: seq<Entry>, rank: string -> nat, lo: int)
    requires forall m :: 0 <= m < |entries| ==> lo < rank(entries[m].0)
    ensures forall j :: 0 <= j < |Present(entries)| ==> lo < rank(Present(entries)[j].0)
  {
    var r := Present(entries);
    forall j | 0 <= j < |r| ensures lo < rank(r[j].0) {
      assert r[j].0 in Names(entries);
      var m :| 0 <= m < |entries| && Names(entries)[m] == r[j].0;
    }
  }

  /** A name no entry holds is absent from the pairs. */
  lemma PresentLacks(entries: seq<Entry>, k: string)
    requires k !in Names(entries)
    ensures k !in Keys(Present(entries))
  {
    var r := Present(entries);
    forall i | 0 <= i < |r| ensures Keys(r)[i] != k {
      assert r[i].0 in Names(entries);
    }
  }

  /** Reading a name back from rank-ordered entries' pairs gives the value
      its entry holds, and nothing for a name without a value. */
  lemma {:induction false} LookupPresent(entries: seq<Entry>, rank: string -> nat, k: string)
    requires EntriesRanked(entries, rank)
    ensures Lookup(Present(entries), k) == EntryValue(entries, k)
  {
    if entries != [] {
      var rest := entries[1..];
      var e := entries[0];
      assert EntriesRanked(rest, rank);
      var r := Present(entries);
      if e.1.Some? {
        assert r == [(e.0, e.1.value)] + Present(rest);
        if k != e.0 {
          assert r[1..] == Present(rest);
          LookupPresent(rest, rank, k);
        }
      } else {
        assert r == Present(rest);
        if k == e.0 {
          assert k !in Names(rest) by {
            forall m | 0 <= m < |rest| ensures Names(rest)[m] != k {
              assert rest[m] == entries[m + 1];
            }
          }
          PresentLacks(rest, k);
        } else {
          LookupPresent(rest, rank, k);
        }
      }
    }
  }

  /** In rank-ordered entries, the value held under entry `i`'s name is
      that entry's. */
  lemma {:induction false} EntryValueAt(entries: seq<Entry>, rank: string -> nat, i: nat)
    requires EntriesRanked(entries, rank) && i < |entries|
    ensures EntryValue(entries, entries[i].0) == entries[i].1
  {
    if i > 0 {
      assert rank(entries[0].0) < rank(entries[i].0);
      assert entries[1..][i - 1] == entries[i];
      EntryValueAt(entries[1..], rank, i - 1);
    }
  }

  /** Reading back entry `i`'s name gives exactly the value that entry
      holds: the value set, or absence. */
  lemma LookupPresentAt(entries: seq<Entry>, rank: string -> nat, i: nat)
    requires EntriesRanked(entries, rank) && i < |entries|
    ensures Lookup(Present(entries), entries[i].0) == entries[i].1
  {
    LookupPresent(entries, rank, entries[i].0);
    EntryValueAt(entries, rank, i);
  }

  /** The next entry's name is not yet among the pairs of the entries
      before it, so setting it appends. */
  lemma PresentPrefixLacksNext(entries: seq<Entry>, rank: string -> nat, i: nat)
    requires EntriesRanked(entries, rank) && i < |entries|
    ensures entries[i].0 !in Keys(Present(entries[..i]))
    ensures Present(entries[..i + 1]) == Present(entries[..i]) + Pair(entries[i].0, entries[i].1)
  {
    assert entries[i].0 !in Names(entries[..i]) by {
      forall m | 0 <= m < i ensures Names(entries[..i])[m] != entries[i].0 {
        assert rank(entries[m].0) < rank(entries[i].0);
      }
    }
    PresentLacks(entries[..i], entries[i].0);
    assert entries[..i + 1] == entries[..i] + [entries[i]];
    PresentSnoc(entries[..i], entries[i]);
  }

  function SerializePair(p: Param): (r: string)
    ensures r != []
  {
    p.0 + "=" + p.1
  }

  /** `params.toString()`, without percent-encoding. */
  function Serialize(ps: seq<Param>): (r: string)
    ensures r == [] <==> ps == []
  {
    if ps == [] then ""
    else if |ps| == 1 then SerializePair(ps[0])
    else SerializePair(ps[0]) + "&" + Serialize(ps[1..])
  }

  /** `queryString ? "?" + queryString : ""` */
  function QuerySuffix(ps: seq<Param>): (r: string)
    ensures r == [] <==> ps == []
    ensures ps != [] ==> r[0] == '?'
  {
    var text := Serialize(ps);
    if text == [] then "" else "?" + text
  }
}
