/**
 * `detect_delta` of HomeTest/main.py (lines 40-74): the sorted markdown files
 * are split, against the hashes saved by the previous run, into added,
 * updated and skipped names, and the current hashes are collected.
 *
 * Globbing, sorting and SHA-256 are left to the caller: the input is the
 * sorted list of (file name, hash of its content) pairs.
 */
module Delta {
  type Name = string
  type Digest = string

  datatype FileHash = FileHash(name: Name, hash: Digest)

  function Names(files: seq<FileHash>): seq<Name> {
    seq(|files|, k requires 0 <= k < |files| => files[k].name)
  }

  predicate DistinctNames(files: seq<FileHash>) {
    forall i, j :: 0 <= i < j < |files| ==> files[i].name != files[j].name
  }

  /** Python's `<` on `str`: lexicographic by code point. */
  predicate Below(a: string, b: string) {
    if a == [] then b != []
    else if b == [] then false
    else if a[0] != b[0] then a[0] < b[0]
    else Below(a[1..], b[1..])
  }

  predicate Sorted(s: seq<string>) {
    forall i, j :: 0 <= i < j < |s| ==> Below(s[i], s[j])
  }

  // ---------------------------------------------------------------------------
  // The three lists and the map, as functions of a prefix of the files
  // ---------------------------------------------------------------------------

  /** Which list a file goes to, given the previous hashes. */
  datatype Kind = New | Changed | Unchanged

  function KindOf(f: FileHash, prev: map<Name, Digest>): Kind {
    if f.name !in prev then New
    else if prev[f.name] != f.hash then Changed
    else Unchanged
  }

  /** The names of the files of kind `kind`, in input order. */
  function Select(files: seq<FileHash>, prev: map<Name, Digest>, kind: Kind): seq<Name>
    decreases |files|
  {
    if files == [] then []
    else
      var f := files[|files| - 1];
      Select(files[..|files| - 1], prev, kind) + (if KindOf(f, prev) == kind then [f.name] else [])
  }

  function Added(files: seq<FileHash>, prev: map<Name, Digest>): seq<Name> {
    Select(files, prev, New)
  }

  function Updated(files: seq<FileHash>, prev: map<Name, Digest>): seq<Name> {
    Select(files, prev, Changed)
  }

  function Skipped(files: seq<FileHash>, prev: map<Name, Digest>): seq<Name> {
    Select(files, prev, Unchanged)
  }

  function Hashes(files: seq<FileHash>): map<Name, Digest>
    decreases |files|
  {
    if files == [] then map[]
    else
      var f := files[|files| - 1];
      Hashes(files[..|files| - 1])[f.name := f.hash]
  }

  // ---------------------------------------------------------------------------
  // detect_delta
  // ---------------------------------------------------------------------------

  method DetectDelta(files: seq<FileHash>, oldHashes: map<Name, Digest>)
    returns (added: seq<Name>, updated: seq<Name>, skipped: seq<Name>, currentHashes: map<Name, Digest>)
    ensures added == Added(files, oldHashes)
    ensures updated == Updated(files, oldHashes)
    ensures skipped == Skipped(files, oldHashes)
    ensures currentHashes == Hashes(files)
    ensures files == [] ==> added == [] && updated == [] && skipped == [] && currentHashes == map[]
  {
    currentHashes := map[];
    added, updated, skipped := [], [], [];
    if files == [] {
      return;
    }
    for i := 0 to |files|
      invariant added == Added(files[..i], oldHashes)
      invariant updated == Updated(files[..i], oldHashes)
      invariant skipped == Skipped(files[..i], oldHashes)
      invariant currentHashes == Hashes(files[..i])
    {
      assert files[..i + 1][..i] == files[..i];
      var filename := files[i].name;
      var currentHash := files[i].hash;
      currentHashes := currentHashes[filename := currentHash];
      if filename !in oldHashes {
        added := added + [filename];
      } else if oldHashes[filename] != currentHash {
        updated := updated + [filename];
      } else {
        skipped := skipped + [filename];
      }
    }
    assert files[..|files|] == files;
  }

  // ---------------------------------------------------------------------------
  // Properties
  // ---------------------------------------------------------------------------

  lemma SelectStep(files: seq<FileHash>, prev: map<Name, Digest>, kind: Kind)
    requires files != []
    ensures var f := files[|files| - 1];
      multiset(Select(files, prev, kind))
        == multiset(Select(files[..|files| - 1], prev, kind)) + (if KindOf(f, prev) == kind then multiset{f.name} else multiset{})
  {
  }

  lemma NamesStep(files: seq<FileHash>)
    requires files != []
    ensures var n := |files| - 1;
      multiset(Names(files)) == multiset(Names(files[..n])) + multiset{files[n].name}
  {
    var n := |files| - 1;
    assert Names(files) == Names(files[..n]) + [files[n].name];
  }

  /** Adding one name to the list of its kind adds it once to the union of the three lists. */
  lemma UnionStep(a: multiset<Name>, u: multiset<Name>, sk: multiset<Name>, all: multiset<Name>, x: Name, kind: Kind)
    requires a + u + sk == all
    ensures (a + (if kind == New then multiset{x} else multiset{}))
          + (u + (if kind == Changed then multiset{x} else multiset{}))
          + (sk + (if kind == Unchanged then multiset{x} else multiset{}))
         == all + multiset{x}
  {
  }

  /** The three lists together hold every input name exactly as often as the input does. */
  lemma {:induction false} Partition(files: seq<FileHash>, prev: map<Name, Digest>)
    ensures multiset(Added(files, prev)) + multiset(Updated(files, prev)) + multiset(Skipped(files, prev))
         == multiset(Names(files))
    decreases |files|
  {
    if files != [] {
      var n := |files| - 1;
      var front, f := files[..n], files[n];
      Partition(front, prev);
      SelectStep(files, prev, New);
      SelectStep(files, prev, Changed);
      SelectStep(files, prev, Unchanged);
      NamesStep(files);
      UnionStep(multiset(Added(front, prev)), multiset(Updated(front, prev)), multiset(Skipped(front, prev)),
                multiset(Names(front)), f.name, KindOf(f, prev));
    }
  }

  /** Every file of a kind is listed in the list of that kind. */
  lemma {:induction false} SelectContains(files: seq<FileHash>, prev: map<Name, Digest>, kind: Kind, k: nat)
    requires k < |files| && KindOf(files[k], prev) == kind
    ensures files[k].name in Select(files, prev, kind)
    decreases |files|
  {
    var n := |files| - 1;
    if k < n {
      SelectContains(files[..n], prev, kind, k);
    }
  }

  /** Every listed name is the name of some file of that kind. */
  lemma {:induction false} SelectFrom(files: seq<FileHash>, prev: map<Name, Digest>, kind: Kind, x: Name)
    requires x in Select(files, prev, kind)
    ensures exists k :: 0 <= k < |files| && files[k].name == x && KindOf(files[k], prev) == kind
    decreases |files|
  {
    var n := |files| - 1;
    var front := files[..n];
    if x in Select(front, prev, kind) {
      SelectFrom(front, prev, kind, x);
      var k :| 0 <= k < n && front[k].name == x && KindOf(front[k], prev) == kind;
      assert files[k] == front[k];
    } else {
      assert files[n].name == x && KindOf(files[n], prev) == kind;
    }
  }

  /** A name is in the list of a kind iff some input file of that name has that kind. */
  lemma Membership(files: seq<FileHash>, prev: map<Name, Digest>, kind: Kind, x: Name)
    ensures x in Select(files, prev, kind)
        <==> exists k :: 0 <= k < |files| && files[k].name == x && KindOf(files[k], prev) == kind
  {
    if x in Select(files, prev, kind) {
      SelectFrom(files, prev, kind, x);
    }
    if exists k :: 0 <= k < |files| && files[k].name == x && KindOf(files[k], prev) == kind {
      var k :| 0 <= k < |files| && files[k].name == x && KindOf(files[k], prev) == kind;
      SelectContains(files, prev, kind, k);
    }
  }

  /** With distinct names (a directory listing), every name is in exactly one of the lists. */
  lemma ExactlyOne(files: seq<FileHash>, prev: map<Name, Digest>, k: nat)
    requires DistinctNames(files) && k < |files|
    ensures var x := files[k].name;
      && (x in Added(files, prev) <==> x !in prev)
      && (x in Updated(files, prev) <==> x in prev && prev[x] != files[k].hash)
      && (x in Skipped(files, prev) <==> x in prev && prev[x] == files[k].hash)
  {
    var x := files[k].name;
    Membership(files, prev, New, x);
    Membership(files, prev, Changed, x);
    Membership(files, prev, Unchanged, x);
  }

  /** `current_hashes` has exactly the input names as keys; old entries are dropped. */
  lemma {:induction false} HashesKeys(files: seq<FileHash>)
    ensures Hashes(files).Keys == set k | 0 <= k < |files| :: files[k].name
    decreases |files|
  {
    if files != [] {
      var n := |files| - 1;
      HashesKeys(files[..n]);
      assert (set k | 0 <= k < |files| :: files[k].name)
          == (set k | 0 <= k < n :: files[..n][k].name) + {files[n].name};
    }
  }

  /** With distinct names, every name is mapped to its own hash. */
  lemma {:induction false} HashesValues(files: seq<FileHash>, k: nat)
    requires DistinctNames(files) && k < |files|
    ensures files[k].name in Hashes(files) && Hashes(files)[files[k].name] == files[k].hash
    decreases |files|
  {
    var n := |files| - 1;
    if k < n {
      HashesValues(files[..n], k);
    }
  }

  lemma {:induction false} AllUnchanged(files: seq<FileHash>, prev: map<Name, Digest>)
    requires forall k :: 0 <= k < |files| ==> KindOf(files[k], prev) == Unchanged
    ensures Added(files, prev) == [] && Updated(files, prev) == [] && Skipped(files, prev) == Names(files)
    decreases |files|
  {
    if files != [] {
      var n := |files| - 1;
      AllUnchanged(files[..n], prev);
      assert Names(files) == Names(files[..n]) + [files[n].name];
    }
  }

  /**
   * Running again with the returned `current_hashes` as the old hashes and
   * unchanged files finds nothing added or updated: every file is skipped.
   */
  lemma RerunFindsNothing(files: seq<FileHash>)
    requires DistinctNames(files)
    ensures Added(files, Hashes(files)) == [] && Updated(files, Hashes(files)) == []
    ensures Skipped(files, Hashes(files)) == Names(files)
  {
    forall k | 0 <= k < |files|
      ensures KindOf(files[k], Hashes(files)) == Unchanged
    {
      HashesValues(files, k);
    }
    AllUnchanged(files, Hashes(files));
  }

  /** Each list keeps the sorted order of the input names. */
  lemma {:induction false} SelectSorted(files: seq<FileHash>, prev: map<Name, Digest>, kind: Kind)
    requires Sorted(Names(files))
    ensures Sorted(Select(files, prev, kind))
    decreases |files|
  {
    if files != [] {
      var n := |files| - 1;
      var front := files[..n];
      assert Names(front) == Names(files)[..n];
      SelectSorted(front, prev, kind);
      var s := Select(front, prev, kind);
      forall x | x in s ensures Below(x, files[n].name) {
        Membership(front, prev, kind, x);
        var k :| 0 <= k < n && front[k].name == x && KindOf(front[k], prev) == kind;
        assert Names(files)[k] == x && Names(files)[n] == files[n].name;
      }
    }
  }

  lemma ListsSorted(files: seq<FileHash>, prev: map<Name, Digest>)
    requires Sorted(Names(files))
    ensures Sorted(Added(files, prev)) && Sorted(Updated(files, prev)) && Sorted(Skipped(files, prev))
  {
    SelectSorted(files, prev, New);
    SelectSorted(files, prev, Changed);
    SelectSorted(files, prev, Unchanged);
  }
}
