/**
 The metadata benchmark of file_meta.c: three loops create, rename and delete N files
 in one directory. All file operations succeed when POSIX lets them.
 */
module FileMeta {
  import opened Decimal
  import opened Options

  const DIR_NAME := "meta_test_dir"

  function FilePath(i: nat): string { DIR_NAME + "/file_" + (Print(i) + ".txt") }

  function RenamedPath(i: nat): string { DIR_NAME + "/renamed_" + (Print(i) + ".txt") }

  /** After the literal prefix both names hold the index in decimal, and the suffix. */
  lemma NamesNumbered(i: nat)
    ensures "meta_test_dir/file_" <= FilePath(i) && Scan(FilePath(i)[|"meta_test_dir/file_"|..]) == Some((i, ".txt"))
    ensures "meta_test_dir/renamed_" <= RenamedPath(i)
    ensures Scan(RenamedPath(i)[|"meta_test_dir/renamed_"|..]) == Some((i, ".txt"))
  {
    ScanPrint(i, ".txt");
    hide Scan;
    assert DIR_NAME + "/file_" == "meta_test_dir/file_" && DIR_NAME + "/renamed_" == "meta_test_dir/renamed_";
    assert FilePath(i)[|"meta_test_dir/file_"|..] == Print(i) + ".txt";
    assert RenamedPath(i)[|"meta_test_dir/renamed_"|..] == Print(i) + ".txt";
  }

  /** Different files have different names, before and after, and no old name is a new one. */
  lemma NamesDistinct(i: nat, j: nat)
    ensures FilePath(i) == FilePath(j) ==> i == j
    ensures RenamedPath(i) == RenamedPath(j) ==> i == j
    ensures FilePath(i) != RenamedPath(j)
  {
    AtoIPrint(i, ".txt");
    AtoIPrint(j, ".txt");
    var files, renamed := DIR_NAME + "/file_", DIR_NAME + "/renamed_";
    assert FilePath(i)[|files|..] == Print(i) + ".txt" && FilePath(j)[|files|..] == Print(j) + ".txt";
    assert RenamedPath(i)[|renamed|..] == Print(i) + ".txt" && RenamedPath(j)[|renamed|..] == Print(j) + ".txt";
    assert FilePath(i)[|DIR_NAME| + 1] == 'f' && RenamedPath(j)[|DIR_NAME| + 1] == 'r';
  }

  /** No path is cut off by the 256-byte buffers, for any int index. */
  lemma PathsFit(i: nat)
    requires i <= 0x7fff_ffff
    ensures |FilePath(i)| < 256 && |RenamedPath(i)| < 256
  {
    IntLength(i);
  }

  /** Old names for the files from `lo` to `hi`, and new ones. */
  function Files(lo: nat, hi: nat): set<string> { set j: nat | lo <= j < hi :: FilePath(j) }

  function Renamed(lo: nat, hi: nat): set<string> { set j: nat | lo <= j < hi :: RenamedPath(j) }

  lemma NamesGrow(i: nat, n: nat)
    requires i < n
    ensures Files(0, i + 1) == Files(0, i) + {FilePath(i)} && FilePath(i) !in Files(0, i)
    ensures Renamed(0, i + 1) == Renamed(0, i) + {RenamedPath(i)} && RenamedPath(i) !in Renamed(0, i)
    ensures Files(i, n) == Files(i + 1, n) + {FilePath(i)} && FilePath(i) !in Files(i + 1, n)
    ensures Renamed(i, n) == Renamed(i + 1, n) + {RenamedPath(i)} && RenamedPath(i) !in Renamed(i + 1, n)
    ensures FilePath(i) !in Renamed(0, i) && RenamedPath(i) !in Files(i, n)
  {
    forall j: nat
      ensures FilePath(i) == FilePath(j) ==> i == j
      ensures RenamedPath(i) == RenamedPath(j) ==> i == j
      ensures FilePath(i) != RenamedPath(j) && FilePath(j) != RenamedPath(i)
    {
      NamesDistinct(i, j);
      NamesDistinct(j, i);
    }
  }

  /** The names in use after `i` of `n` renames. */
  function Names(i: nat, n: nat): set<string> { Renamed(0, i) + Files(i, n) }

  /** There are `n` files: the first `i` under their new names, the others under their old ones, and each name its own file. */
  ghost predicate RenamedUpTo(entries: map<string, nat>, i: nat, n: nat)
  {
    && i <= n
    && entries.Keys == Names(i, n) && |entries| == n
    && (forall j: nat :: j < i ==> RenamedPath(j) in entries && entries[RenamedPath(j)] == j)
    && (forall j: nat :: i <= j < n ==> FilePath(j) in entries && entries[FilePath(j)] == j)
  }

  lemma NothingRenamed(n: nat)
    ensures Renamed(0, 0) == {} && Files(n, n) == {} && Renamed(n, n) == {}
  {
  }

  lemma NewName(i: nat)
    ensures FilePath(i) !in Names(0, i) && Names(0, i + 1) == Names(0, i) + {FilePath(i)}
  {
    NamesGrow(i, i + 1);
    NothingRenamed(i);
  }

  lemma CreateStep(entries: map<string, nat>, i: nat)
    requires RenamedUpTo(entries, 0, i)
    ensures FilePath(i) !in entries && RenamedUpTo(entries[FilePath(i) := i], 0, i + 1)
  {
    hide Names;
    NewName(i);
    var entries' := entries[FilePath(i) := i];
    forall j: nat | j < i + 1
      ensures FilePath(j) in entries' && entries'[FilePath(j)] == j
    {
      NamesDistinct(i, j);
    }
  }

  function Moved(entries: map<string, nat>, from: string, to: string): map<string, nat>
    requires from in entries
  {
    (entries - {from})[to := entries[from]]
  }

  lemma MovedNames(entries: map<string, nat>, from: string, to: string)
    requires from in entries && to !in entries
    ensures Moved(entries, from, to).Keys == entries.Keys - {from} + {to}
    ensures |Moved(entries, from, to)| == |entries|
  {
    var others := entries.Keys - {from};
    assert Moved(entries, from, to).Keys == others + {to};
    assert |Moved(entries, from, to).Keys| == |others| + 1 == |entries.Keys|;
  }

  lemma NamesStep(i: nat, n: nat)
    requires i < n
    ensures FilePath(i) in Names(i, n) && RenamedPath(i) !in Names(i, n)
    ensures Names(i + 1, n) == Names(i, n) - {FilePath(i)} + {RenamedPath(i)}
  {
    NamesGrow(i, n);
    NamesDistinct(i, i);
  }

  lemma MovedOthers(entries: map<string, nat>, i: nat, path: string)
    requires FilePath(i) in entries && path in entries && path != FilePath(i) && path != RenamedPath(i)
    ensures var entries' := Moved(entries, FilePath(i), RenamedPath(i)); path in entries' && entries'[path] == entries[path]
  {
  }

  lemma RenameStep(entries: map<string, nat>, i: nat, n: nat)
    requires RenamedUpTo(entries, i, n) && i < n
    ensures FilePath(i) in entries && RenamedPath(i) !in entries
    ensures RenamedUpTo(Moved(entries, FilePath(i), RenamedPath(i)), i + 1, n)
  {
    hide Names;
    NamesStep(i, n);
    var entries' := Moved(entries, FilePath(i), RenamedPath(i));
    MovedNames(entries, FilePath(i), RenamedPath(i));
    forall j: nat | j < i
      ensures RenamedPath(j) in entries' && entries'[RenamedPath(j)] == j
    {
      MovedOthers(entries, i, RenamedPath(j)) by { NamesDistinct(i, j); }
    }
    forall j: nat | i + 1 <= j < n
      ensures FilePath(j) in entries' && entries'[FilePath(j)] == j
    {
      MovedOthers(entries, i, FilePath(j)) by { NamesDistinct(i, j); NamesDistinct(j, i); }
    }
  }

  /**
   A directory: the file each name refers to. `mishaps` counts operations that met an
   existing target or missed their source.
   */
  class Directory {
    var entries: map<string, nat>
    var created: nat
    var mishaps: nat

    constructor ()
      ensures entries == map[] && created == 0 && mishaps == 0
    {
      entries, created, mishaps := map[], 0, 0;
    }

    /** fopen(path, "w"): a new file, unless the name exists. */
    method Create(path: string)
      modifies this
      ensures path !in old(entries) ==>
        entries == old(entries)[path := old(created)] && created == old(created) + 1 && mishaps == old(mishaps)
      ensures path in old(entries) ==> entries == old(entries) && created == old(created) && mishaps == old(mishaps) + 1
    {
      if path in entries {
        mishaps := mishaps + 1;
      } else {
        entries, created := entries[path := created], created + 1;
      }
    }

    /** rename(from, to): fails without its source, and replaces an existing target. */
    method Rename(from: string, to: string)
      modifies this
      ensures created == old(created)
      ensures from in old(entries) ==> entries == Moved(old(entries), from, to)
      ensures from in old(entries) && to !in old(entries) ==> mishaps == old(mishaps)
      ensures from !in old(entries) ==> entries == old(entries)
      ensures from !in old(entries) || to in old(entries) ==> mishaps == old(mishaps) + 1
    {
      if from !in entries || to in entries {
        mishaps := mishaps + 1;
      }
      if from in entries {
        entries := (entries - {from})[to := entries[from]];
      }
    }

    method Unlink(path: string)
      modifies this
      ensures created == old(created)
      ensures entries == old(entries) - {path}
      ensures mishaps == old(mishaps) + if path in old(entries) then 0 else 1
    {
      if path !in entries {
        mishaps := mishaps + 1;
      }
      entries := entries - {path};
    }

    method CreateAll(n: nat)
      requires entries == map[] && created == 0
      modifies this
      ensures RenamedUpTo(entries, 0, n) && mishaps == old(mishaps)
    {
      NothingRenamed(0);
      for i := 0 to n
        invariant created == i && mishaps == old(mishaps)
        invariant RenamedUpTo(entries, 0, i)
      {
        CreateStep(entries, i);
        Create(FilePath(i));
      }
    }

    /** At every step exactly `n` files exist, each under one name, and no rename meets an existing name. */
    method RenameAll(n: nat)
      requires RenamedUpTo(entries, 0, n)
      modifies this
      ensures RenamedUpTo(entries, n, n) && mishaps == old(mishaps)
    {
      for i := 0 to n
        invariant RenamedUpTo(entries, i, n) && mishaps == old(mishaps)
      {
        RenameStep(entries, i, n);
        Rename(FilePath(i), RenamedPath(i));
      }
    }

    method DeleteAll(n: nat)
      requires RenamedUpTo(entries, n, n)
      modifies this
      ensures entries == map[] && mishaps == old(mishaps)
    {
      NothingRenamed(n);
      for i := 0 to n
        invariant entries.Keys == Renamed(i, n) && mishaps == old(mishaps)
      {
        NamesGrow(i, n);
        Unlink(RenamedPath(i));
      }
    }

    /** The whole benchmark: nothing is overwritten or missed, and the directory ends empty, ready for rmdir. */
    method Benchmark(n: nat)
      requires entries == map[] && created == 0
      modifies this
      ensures entries == map[] && mishaps == old(mishaps)
    {
      CreateAll(n);
      RenameAll(n);
      DeleteAll(n);
    }
  }
}
