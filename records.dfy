/**
 * Data group records and the three record helpers of the route synchroniser:
 * building records from paths, looking a record up by name, and filtering a
 * record list by name. Each helper is a method that works step by step, as in
 * the Go code, proved against a specification function.
 */
module Records {

  /** One entry of the load balancer's data group: a path and the backend pattern. */
  datatype Record = Record(name: string, data: string)

  /** Some record of `target` carries `name` (the data part is not compared). */
  predicate HasName(target: seq<Record>, name: string) {
    exists i :: 0 <= i < |target| && target[i].name == name
  }

  /** The records built from `paths`: one per non-empty path, in order. */
  function RecordsFor(paths: seq<string>, pattern: string): (r: seq<Record>)
    ensures |r| <= |paths|
    decreases |paths|
  {
    if paths == [] then []
    else
      var last := paths[|paths| - 1];
      RecordsFor(paths[..|paths| - 1], pattern) + (if last == "" then [] else [Record(last, pattern)])
  }

  /**
   * Every built record is named by a non-empty path and carries the pattern,
   * and every non-empty path has its record.
   */
  lemma {:induction false} RecordsForMembers(paths: seq<string>, pattern: string)
    ensures forall i :: 0 <= i < |RecordsFor(paths, pattern)| ==>
      var r := RecordsFor(paths, pattern)[i]; r.name in paths && r.name != "" && r.data == pattern
    ensures forall p :: p in paths && p != "" ==> Record(p, pattern) in RecordsFor(paths, pattern)
    decreases |paths|
  {
    if paths != [] {
      var front := paths[..|paths| - 1];
      RecordsForMembers(front, pattern);
      assert paths == front + [paths[|paths| - 1]];
    }
  }

  /** The records of `from`, in order, whose name matches no record of `remove`. */
  function Without(from: seq<Record>, remove: seq<Record>): (r: seq<Record>)
    ensures |r| <= |from|
    decreases |from|
  {
    if from == [] then []
    else
      var last := from[|from| - 1];
      Without(from[..|from| - 1], remove) + (if HasName(remove, last.name) then [] else [last])
  }

  /** Exactly the records of `from` whose name is not to be removed survive the filter. */
  lemma {:induction false} WithoutMembers(from: seq<Record>, remove: seq<Record>)
    ensures forall x :: x in Without(from, remove) <==> x in from && !HasName(remove, x.name)
    decreases |from|
  {
    if from != [] {
      var front := from[..|from| - 1];
      WithoutMembers(front, remove);
      assert from == front + [from[|from| - 1]];
    }
  }

  /** Building records distributes over concatenation of path lists (input order is kept). */
  lemma {:induction false} RecordsForAppend(a: seq<string>, b: seq<string>, pattern: string)
    ensures RecordsFor(a + b, pattern) == RecordsFor(a, pattern) + RecordsFor(b, pattern)
    decreases |b|
  {
    if b == [] {
      assert a + b == a;
    } else {
      var front := b[..|b| - 1];
      assert (a + b)[..|a + b| - 1] == a + front;
      assert (a + b)[|a + b| - 1] == b[|b| - 1];
      RecordsForAppend(a, front, pattern);
    }
  }

  /** A single path builds a record exactly when it is non-empty. */
  lemma RecordsForSingle(path: string, pattern: string)
    ensures RecordsFor([path], pattern) == if path == "" then [] else [Record(path, pattern)]
  {
    assert [path][..0] == [];
  }

  /** Two non-empty paths build two records, in order. */
  lemma RecordsForPair(first: string, second: string, pattern: string)
    requires first != "" && second != ""
    ensures RecordsFor([first, second], pattern) == [Record(first, pattern), Record(second, pattern)]
  {
    assert [first, second] == [first] + [second];
    RecordsForAppend([first], [second], pattern);
    RecordsForSingle(first, pattern);
    RecordsForSingle(second, pattern);
  }

  /** Filtering distributes over concatenation (original order is kept). */
  lemma {:induction false} WithoutAppend(a: seq<Record>, b: seq<Record>, remove: seq<Record>)
    ensures Without(a + b, remove) == Without(a, remove) + Without(b, remove)
    decreases |b|
  {
    if b == [] {
      assert a + b == a;
    } else {
      var front := b[..|b| - 1];
      assert (a + b)[..|a + b| - 1] == a + front;
      assert (a + b)[|a + b| - 1] == b[|b| - 1];
      WithoutAppend(a, front, remove);
    }
  }

  /** Filtering a list extended by one record filters that record on its own. */
  lemma WithoutSnoc(front: seq<Record>, x: Record, remove: seq<Record>)
    ensures Without(front + [x], remove) == Without(front, remove) + (if HasName(remove, x.name) then [] else [x])
  {
    assert (front + [x])[..|front|] == front;
  }

  /** A list none of whose names is to be removed comes back unchanged. */
  lemma {:induction false} WithoutNoMatch(from: seq<Record>, remove: seq<Record>)
    requires forall i :: 0 <= i < |from| ==> !HasName(remove, from[i].name)
    ensures Without(from, remove) == from
    decreases |from|
  {
    if from != [] {
      var front := from[..|from| - 1];
      WithoutNoMatch(front, remove);
      assert from == front + [from[|from| - 1]];
    }
  }

  /** A list every name of which is to be removed vanishes entirely. */
  lemma {:induction false} WithoutAllMatch(from: seq<Record>, remove: seq<Record>)
    requires forall i :: 0 <= i < |from| ==> HasName(remove, from[i].name)
    ensures Without(from, remove) == []
    decreases |from|
  {
    if from != [] {
      WithoutAllMatch(from[..|from| - 1], remove);
      assert HasName(remove, from[|from| - 1].name);
    }
  }

  /** Filtering a list against itself leaves nothing. */
  lemma WithoutSelf(records: seq<Record>)
    ensures Without(records, records) == []
  {
    forall i | 0 <= i < |records|
      ensures HasName(records, records[i].name)
    {
    }
    WithoutAllMatch(records, records);
  }

  /**
   * Removing a batch of routes from a data group that was extended with
   * exactly those routes restores the data group, provided none of its
   * records already carried one of the (non-empty) paths.
   */
  lemma RemoveUndoesAppend(existing: seq<Record>, paths: seq<string>, pattern: string)
    requires forall i :: 0 <= i < |existing| ==> existing[i].name == "" || existing[i].name !in paths
    ensures Without(existing + RecordsFor(paths, pattern), RecordsFor(paths, pattern)) == existing
  {
    var added := RecordsFor(paths, pattern);
    RecordsForMembers(paths, pattern);
    WithoutAppend(existing, added, added);
    forall i | 0 <= i < |existing|
      ensures !HasName(added, existing[i].name)
    {
    }
    WithoutNoMatch(existing, added);
    WithoutSelf(added);
  }

  /** Records appended under names already scheduled for removal are all dropped again. */
  lemma WithoutDropsMatched(from: seq<Record>, extra: seq<Record>, remove: seq<Record>)
    requires forall i :: 0 <= i < |extra| ==> HasName(remove, extra[i].name)
    ensures Without(from + extra, remove) == Without(from, remove)
  {
    WithoutAppend(from, extra, remove);
    WithoutAllMatch(extra, remove);
  }

  /** `getRecords`: one record per non-empty path, named by the path, carrying the pattern. */
  method GetRecords(paths: seq<string>, pattern: string) returns (records: seq<Record>)
    ensures records == RecordsFor(paths, pattern)
  {
    records := [];
    for i := 0 to |paths|
      invariant records == RecordsFor(paths[..i], pattern)
    {
      var path := paths[i];
      assert paths[..i + 1][..i] == paths[..i];
      if |path| > 0 {
        records := records + [Record(path, pattern)];
      }
    }
    assert paths[..|paths|] == paths;
  }

  /** `containsRecord`: whether some record of `target` has `candidate`'s name. */
  method ContainsRecord(target: seq<Record>, candidate: Record) returns (found: bool)
    ensures found <==> HasName(target, candidate.name)
  {
    for i := 0 to |target|
      invariant forall j :: 0 <= j < i ==> target[j].name != candidate.name
    {
      if target[i].name == candidate.name {
        return true;
      }
    }
    return false;
  }

  /**
   * `removeRecords`: compacts `from` in place, keeping the records whose
   * name is not in `remove`, and returns the length of the kept prefix.
   * The write index never passes the read index, so the cells past the
   * prefix are never written.
   */
  method RemoveRecords(from: array<Record>, remove: seq<Record>) returns (kept: nat)
    modifies from
    ensures kept <= from.Length
    ensures from[..kept] == Without(old(from[..]), remove)
    ensures from[kept..] == old(from[kept..])
  {
    ghost var original := from[..];
    kept := 0;
    for i := 0 to from.Length
      invariant kept <= i
      invariant from[..kept] == Without(original[..i], remove)
      invariant forall k :: kept <= k < from.Length ==> from[k] == original[k]
    {
      var r := from[i];
      assert original[..i + 1] == original[..i] + [r];
      WithoutSnoc(original[..i], r, remove);
      var matched := ContainsRecord(remove, r);
      if !matched {
        ghost var prefix := from[..kept];
        from[kept] := r;
        assert from[..kept + 1] == prefix + [r];
        kept := kept + 1;
      }
    }
    assert original[..from.Length] == original;
  }
}
