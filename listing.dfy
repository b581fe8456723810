/** How the wrappers reshape listings: pulling one field out of every record,
    building a Python dict from key/value pairs (insertion order, last value wins),
    and concatenating the records of successive pages. */
module Listing {
  import opened Values

  /** names[i] is the `key` field of records[i], for every i. */
  predicate Aligned(names: seq<Value>, records: seq<Value>, key: string) {
    && |names| == |records|
    && forall i :: 0 <= i < |records| ==> HasField(records[i], key) && names[i] == records[i].entries[key]
  }

  /** `[x[key] for x in items]`: fails exactly when some item has no such field. */
  function Pluck(items: seq<Value>, key: string): (r: Result<seq<Value>>)
    ensures r.Ok? <==> forall i :: 0 <= i < |items| ==> HasField(items[i], key)
    ensures r.Err? ==> r.failure == LookupFailed
    ensures r.Ok? ==> Aligned(r.value, items, key)
    decreases |items|
  {
    if items == [] then Ok([])
    else
      var first :- Subscript(items[0], key);
      var rest :- Pluck(items[1..], key);
      Ok([first] + rest)
  }

  lemma AlignedConcat(a: seq<Value>, b: seq<Value>, c: seq<Value>, d: seq<Value>, key: string)
    requires Aligned(a, b, key) && Aligned(c, d, key)
    ensures Aligned(a + c, b + d, key)
  {
    forall i | 0 <= i < |b + d|
      ensures HasField((b + d)[i], key) && (a + c)[i] == (b + d)[i].entries[key]
    {
      if i >= |b| {
        assert (b + d)[i] == d[i - |b|] && (a + c)[i] == c[i - |a|];
      }
    }
  }

  predicate NoDuplicates<T(==)>(s: seq<T>) {
    forall i, j :: 0 <= i < j < |s| ==> s[i] != s[j]
  }

  /** The position of the first occurrence of x in xs. */
  function FirstIndex<T(==)>(xs: seq<T>, x: T): (i: nat)
    requires x in xs
    ensures i < |xs| && xs[i] == x && x !in xs[..i]
    decreases |xs|
  {
    var front := xs[..|xs| - 1];
    if x in front then
      var i := FirstIndex(front, x);
      assert xs[..i] == front[..i];
      i
    else |xs| - 1
  }

  /** The keys of a Python dict filled from `xs` in order: each element once, where it first occurs. */
  function FirstOccurrences<T(==)>(xs: seq<T>): seq<T>
    decreases |xs|
  {
    if xs == [] then []
    else
      var front := xs[..|xs| - 1];
      var x := xs[|xs| - 1];
      if x in front then FirstOccurrences(front) else FirstOccurrences(front) + [x]
  }

  /** The key list of a dict built from `xs` has no duplicates, holds exactly the
      elements of `xs`, and lists them in the order of their first occurrence. */
  lemma {:induction false} FirstOccurrencesSpec<T>(xs: seq<T>)
    ensures NoDuplicates(FirstOccurrences(xs))
    ensures forall y :: y in FirstOccurrences(xs) <==> y in xs
    ensures forall i, j :: 0 <= i < j < |FirstOccurrences(xs)| ==>
              FirstIndex(xs, FirstOccurrences(xs)[i]) < FirstIndex(xs, FirstOccurrences(xs)[j])
    decreases |xs|
  {
    if xs != [] {
      var front := xs[..|xs| - 1];
      var x := xs[|xs| - 1];
      FirstOccurrencesSpec(front);
      var r0 := FirstOccurrences(front);
      assert xs == front + [x];
      forall y | y in front ensures FirstIndex(xs, y) == FirstIndex(front, y) {
      }
      var r := FirstOccurrences(xs);
      if x !in front {
        assert r == r0 + [x];
        forall i, j | 0 <= i < j < |r| ensures FirstIndex(xs, r[i]) < FirstIndex(xs, r[j]) {
          assert r[i] == r0[i] && r0[i] in r0;
          if j == |r0| {
            assert FirstIndex(front, r[i]) < |front|;
          } else {
            assert r[j] == r0[j] && r0[j] in r0;
          }
        }
      } else {
        assert r == r0;
        forall i, j | 0 <= i < j < |r| ensures FirstIndex(xs, r[i]) < FirstIndex(xs, r[j]) {
          assert r0[i] in r0 && r0[j] in r0;
        }
      }
    }
  }

  /** The position of the last occurrence of k in ks. */
  function LastIndex<K(==)>(ks: seq<K>, k: K): (i: nat)
    requires k in ks
    ensures i < |ks| && ks[i] == k
    ensures forall j :: i < j < |ks| ==> ks[j] != k
    decreases |ks|
  {
    if ks[|ks| - 1] == k then |ks| - 1 else LastIndex(ks[..|ks| - 1], k)
  }

  /** `{ks[i]: vs[i] for i in ...}`: a later pair overwrites an earlier one with the same key. */
  function LastWins<K(==), V>(ks: seq<K>, vs: seq<V>): (m: map<K, V>)
    requires |ks| == |vs|
    decreases |ks|
  {
    if ks == [] then map[]
    else LastWins(ks[..|ks| - 1], vs[..|vs| - 1])[ks[|ks| - 1] := vs[|vs| - 1]]
  }

  /** The dict has one key per distinct element of `ks`, and maps it to the value
      paired with its last occurrence. */
  lemma {:induction false} LastWinsSpec<K, V>(ks: seq<K>, vs: seq<V>)
    requires |ks| == |vs|
    ensures LastWins(ks, vs).Keys == Elems(ks)
    ensures forall k :: k in ks ==> LastWins(ks, vs)[k] == vs[LastIndex(ks, k)]
    decreases |ks|
  {
    if ks != [] {
      var n := |ks|;
      LastWinsSpec(ks[..n - 1], vs[..n - 1]);
      assert ks == ks[..n - 1] + [ks[n - 1]];
      assert Elems(ks) == Elems(ks[..n - 1]) + {ks[n - 1]};
      forall k | k in ks ensures LastWins(ks, vs)[k] == vs[LastIndex(ks, k)] {
        if k != ks[n - 1] {
          assert k in ks[..n - 1];
        }
      }
    }
  }

  /** `m` is what Python yields for `m = {ks[i]: vs[i] for i ...}`: one entry per
      distinct key, holding the value paired with the key's last occurrence. */
  ghost predicate IsLastWins<K, V>(ks: seq<K>, vs: seq<V>, m: map<K, V>) {
    && |ks| == |vs|
    && m.Keys == Elems(ks)
    && forall i :: 0 <= i < |ks| ==> m[ks[i]] == vs[LastIndex(ks, ks[i])]
  }

  /** ... and `keys` is `list(m.keys())`: each key once, in order of first occurrence. */
  ghost predicate IsDictOf<K, V>(ks: seq<K>, vs: seq<V>, keys: seq<K>, m: map<K, V>) {
    && IsLastWins(ks, vs, m)
    && NoDuplicates(keys)
    && (forall i :: 0 <= i < |keys| ==> keys[i] in ks)
    && (forall i :: 0 <= i < |ks| ==> ks[i] in keys)
    && (forall i, j :: 0 <= i < j < |keys| ==> FirstIndex(ks, keys[i]) < FirstIndex(ks, keys[j]))
  }

  /** Filling a dict pair by pair produces exactly that. */
  lemma DictFromPairs<K, V>(ks: seq<K>, vs: seq<V>)
    requires |ks| == |vs|
    ensures IsDictOf(ks, vs, FirstOccurrences(ks), LastWins(ks, vs))
  {
    FirstOccurrencesSpec(ks);
    LastWinsSpec(ks, vs);
  }

  /** The `key` field of every record, for use as dict keys: fails when a record
      lacks the field (KeyError) or the field is a list or dict (TypeError). */
  function KeyNames(records: seq<Value>, key: string): (r: Result<seq<Value>>)
    ensures r.Ok? <==> forall i :: 0 <= i < |records| ==>
                         HasField(records[i], key) && Hashable(records[i].entries[key])
    ensures r.Err? ==> r.failure == LookupFailed
    ensures r.Ok? ==> Aligned(r.value, records, key)
  {
    var names :- Pluck(records, key);
    if forall i :: 0 <= i < |names| ==> Hashable(names[i]) then Ok(names) else Err(LookupFailed)
  }

  /** Reads one page of a paginated listing: the names and the records on it. */
  type PageReader = Dict -> Result<(seq<Value>, seq<Value>)>

  /** The names and records of all pages, in page order; the first page that
      cannot be read ends the listing with its failure. */
  function Paged(pages: seq<Dict>, read: PageReader): Result<(seq<Value>, seq<Value>)>
    decreases |pages|
  {
    if pages == [] then Ok(([], []))
    else
      var before :- Paged(pages[..|pages| - 1], read);
      var last :- read(pages[|pages| - 1]);
      Ok((before.0 + last.0, before.1 + last.1))
  }

  /** Once a prefix of the pages fails, the whole listing fails the same way. */
  lemma {:induction false} PagedErrPersists(pages: seq<Dict>, read: PageReader, q: nat)
    requires q <= |pages| && Paged(pages[..q], read).Err?
    ensures Paged(pages, read) == Paged(pages[..q], read)
    decreases |pages|
  {
    if q == |pages| {
      assert pages[..q] == pages;
    } else {
      var front := pages[..|pages| - 1];
      assert front[..q] == pages[..q];
      PagedErrPersists(front, read, q);
    }
  }

  /** If every page pairs names with records by `key`, so does the whole listing. */
  lemma {:induction false} PagedAligned(pages: seq<Dict>, read: PageReader, key: string)
    requires forall i :: 0 <= i < |pages| && read(pages[i]).Ok? ==>
               Aligned(read(pages[i]).value.0, read(pages[i]).value.1, key)
    ensures Paged(pages, read).Ok? ==> Aligned(Paged(pages, read).value.0, Paged(pages, read).value.1, key)
    decreases |pages|
  {
    if pages != [] && Paged(pages, read).Ok? {
      var front := pages[..|pages| - 1];
      PagedAligned(front, read, key);
      var before := Paged(front, read).value;
      var last := read(pages[|pages| - 1]).value;
      AlignedConcat(before.0, before.1, last.0, last.1, key);
    }
  }

  /** A page that reads as empty adds nothing: the listing is the same without it. */
  lemma {:induction false} EmptyPageAddsNothing(pages: seq<Dict>, read: PageReader, i: nat)
    requires i < |pages| && read(pages[i]) == Ok(([], []))
    ensures Paged(pages, read) == Paged(pages[..i] + pages[i + 1..], read)
    decreases |pages|
  {
    var n := |pages|;
    var front := pages[..n - 1];
    var rest := pages[..i] + pages[i + 1..];
    if i == n - 1 {
      assert rest == front;
      var before := Paged(front, read);
      if before.Ok? {
        assert before.value.0 + [] == before.value.0;
        assert before.value.1 + [] == before.value.1;
      }
    } else {
      assert front[i] == pages[i];
      EmptyPageAddsNothing(front, read, i);
      assert rest[..|rest| - 1] == front[..i] + front[i + 1..];
      assert rest[|rest| - 1] == pages[n - 1];
    }
  }

  /** Two name lists aligned with the same records are equal. */
  lemma AlignedUnique(a: seq<Value>, b: seq<Value>, records: seq<Value>, key: string)
    requires Aligned(a, records, key) && Aligned(b, records, key)
    ensures a == b
  {
  }

  /** One more page: a page that reads extends the listing by its names and
      records; a page that fails ends the whole listing with its failure. */
  lemma PagedExtend(pages: seq<Dict>, read: PageReader, k: nat, names: seq<Value>, items: seq<Value>)
    requires k < |pages| && Paged(pages[..k], read) == Ok((names, items))
    ensures read(pages[k]).Ok? ==>
              Paged(pages[..k + 1], read) == Ok((names + read(pages[k]).value.0, items + read(pages[k]).value.1))
    ensures read(pages[k]).Err? ==> Paged(pages, read) == Err(read(pages[k]).failure)
  {
    assert pages[..k + 1][..k] == pages[..k] && pages[..k + 1][k] == pages[k];
    if read(pages[k]).Err? {
      PagedErrPersists(pages, read, k + 1);
    }
  }

  /** The append loop of the listings: `key` of every record, in order; the first
      record without it ends the loop with a lookup failure. */
  method NamesOf(items: seq<Value>, key: string) returns (r: Result<seq<Value>>)
    ensures r == Pluck(items, key)
    ensures r.Ok? <==> forall i :: 0 <= i < |items| ==> HasField(items[i], key)
    ensures r.Ok? ==> Aligned(r.value, items, key)
  {
    var names: seq<Value> := [];
    var i := 0;
    while i < |items|
      invariant 0 <= i <= |items|
      invariant Aligned(names, items[..i], key)
    {
      if !HasField(items[i], key) {
        return Err(LookupFailed);
      }
      names := names + [items[i].entries[key]];
      i := i + 1;
    }
    assert items[..i] == items;
    AlignedUnique(names, Pluck(items, key).value, items, key);
    return Ok(names);
  }
}
