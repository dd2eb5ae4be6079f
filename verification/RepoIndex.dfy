/**
  The rows `RepoIndexDb` keeps for the scanner (src/core/cache/RepoIndexDb.cpp). A row carries
  only the columns the scan protocol reads: its base folder, the generation that last saw it and
  whether it is marked missing. Each SQL statement is one atomic update of a map.
*/
module RepoIndex {
  import opened Basics
  import Like

  datatype RowKey = RowKey(gitDir: string, workDir: string)
  datatype Row = Row(base: int, lastSeen: int, missing: bool)
  datatype Record = Record(key: RowKey, base: int, lastSeen: int)
  datatype Signature = Signature(mtime: int, childDirs: nat, hadRepo: bool)

  type Rows = map<RowKey, Row>
  type Signatures = map<(int, string), Signature>

  /** Insert, or on a (git_dir, work_dir) conflict take the row over and bring it back. */
  function Upsert(rows: Rows, r: Record): Rows {
    rows[r.key := Row(r.base, r.lastSeen, false)]
  }

  function UpsertAll(rows: Rows, batch: seq<Record>): Rows {
    if batch == [] then rows else Upsert(UpsertAll(rows, batch[..|batch| - 1]), batch[|batch| - 1])
  }

  predicate Outdated(row: Row, base: int, generation: int) {
    row.base == base && row.lastSeen < generation && !row.missing
  }

  function MarkMissing(rows: Rows, base: int, generation: int): Rows {
    map k | k in rows :: if Outdated(rows[k], base, generation) then rows[k].(missing := true) else rows[k]
  }

  /** The row's work or git directory is matched by the pattern built from `prefix`. */
  predicate Under(prefix: string, k: RowKey) {
    var pattern := Like.Escaped(prefix) + "%";
    Like.Matches(pattern, k.workDir) || Like.Matches(pattern, k.gitDir)
  }

  function Touch(rows: Rows, base: int, prefix: string, generation: int): Rows {
    map k | k in rows ::
      if rows[k].base == base && Under(prefix, k) then rows[k].(lastSeen := generation) else rows[k]
  }

  // ----- directory signatures and generations -----

  function Saved(signatures: Signatures, base: int, path: string, s: Signature): Signatures {
    signatures[(base, path) := s]
  }

  function Cleared(signatures: Signatures, base: int): Signatures {
    map k | k in signatures && k.0 != base :: signatures[k]
  }

  function Begun(generations: map<int, int>, base: int): map<int, int> {
    if base in generations then generations[base := generations[base] + 1] else generations
  }

  /** The three tables the scan uses. */
  datatype Db = Db(generations: map<int, int>, rows: Rows, signatures: Signatures)

  /** What `touchReposUnder` matches is decided by plain, case-folded prefixes of the two paths. */
  lemma UnderIsPrefix(prefix: string, k: RowKey)
    ensures Under(prefix, k) <==> Like.HasPrefix(prefix, k.workDir) || Like.HasPrefix(prefix, k.gitDir)
  {
    Like.PrefixPattern(prefix, k.workDir);
    Like.PrefixPattern(prefix, k.gitDir);
  }

  // ----- what a touch was meant for -----

  /** The path is the directory itself or lies below it. */
  predicate AtOrBelow(dir: string, sep: char, path: string) {
    dir <= path && (|path| == |dir| || path[|dir|] == sep || (dir != [] && dir[|dir| - 1] == sep))
  }

  predicate RowAtOrBelow(dir: string, sep: char, k: RowKey) {
    AtOrBelow(dir, sep, k.workDir) || AtOrBelow(dir, sep, k.gitDir)
  }

  /** The path goes on from the directory's name as a sibling's does, or differs from it in case. */
  ghost predicate Strays(dir: string, sep: char, path: string) {
    |dir| <= |path| && Like.Fold(path[..|dir|]) == Like.Fold(dir) && !AtOrBelow(dir, sep, path)
  }

  /** Neither path of the row lies in the directory, and one strays from it. */
  ghost predicate RowStrays(dir: string, sep: char, k: RowKey) {
    !RowAtOrBelow(dir, sep, k) && (Strays(dir, sep, k.workDir) || Strays(dir, sep, k.gitDir))
  }

  lemma FoldPrefix(dir: string, path: string)
    requires dir <= path
    ensures Like.HasPrefix(dir, path)
  {
    assert path[..|dir|] == dir;
  }

  /** A touch reaches the rows of the directory, and the strays. */
  lemma UnderIsBelowOrStray(dir: string, sep: char, k: RowKey)
    ensures Under(dir, k) <==> RowAtOrBelow(dir, sep, k) || RowStrays(dir, sep, k)
  {
    UnderIsPrefix(dir, k);
    if AtOrBelow(dir, sep, k.workDir) {
      FoldPrefix(dir, k.workDir);
    }
    if AtOrBelow(dir, sep, k.gitDir) {
      FoldPrefix(dir, k.gitDir);
    }
  }

  /** Only rows of the directory have changed. */
  ghost predicate ChangesOnlyBelow(before: Rows, after: Rows, dir: string, sep: char) {
    forall k :: k in before && k in after && after[k] != before[k] ==> RowAtOrBelow(dir, sep, k)
  }

  /** A touch with a new generation changes only rows at or below the directory if and only if no row
      of the folder strays from it: no separator is asked for after the prefix, and case is ignored. */
  lemma TouchStaysBelowIff(rows: Rows, base: int, dir: string, sep: char, generation: int)
    requires forall k :: k in rows && rows[k].base == base ==> rows[k].lastSeen < generation
    ensures ChangesOnlyBelow(rows, Touch(rows, base, dir, generation), dir, sep) <==>
      forall k :: k in rows && rows[k].base == base ==> !RowStrays(dir, sep, k)
  {
    var after := Touch(rows, base, dir, generation);
    forall k | k in rows
      ensures after[k] != rows[k] <==> rows[k].base == base && (RowAtOrBelow(dir, sep, k) || RowStrays(dir, sep, k))
    {
      UnderIsBelowOrStray(dir, sep, k);
    }
  }

  const SIBLING := RowKey("/a/bc/.git", "/a/bc")

  /** Such rows exist: "/a/bc" strays from "/a/b". */
  lemma SiblingStrays()
    ensures RowStrays("/a/b", '/', SIBLING)
  {
    assert SIBLING.workDir[..4] == "/a/b" && SIBLING.gitDir[..4] == "/a/b";
    assert SIBLING.workDir[4] == 'c' && SIBLING.gitDir[4] == 'c' && "/a/b"[3] == 'b';
  }

  class RepoIndexDb {
    var generations: map<int, int>
    var rows: Rows
    var signatures: Signatures

    ghost function View(): Db
      reads this
    {
      Db(generations, rows, signatures)
    }

    /** None is the NotFound error. */
    method BeginScan(base: int) returns (generation: Option<int>)
      modifies this`generations
      ensures View() == old(View()).(generations := Begun(old(generations), base))
      ensures generation == if base in old(generations) then Some(old(generations)[base] + 1) else None
      ensures generations ==
        if base in old(generations) then old(generations)[base := old(generations)[base] + 1] else old(generations)
    {
      if base !in generations {
        return None;
      }
      generations := generations[base := generations[base] + 1];
      return Some(generations[base]);
    }

    method UpsertRepo(r: Record)
      modifies this`rows
      ensures View() == old(View()).(rows := Upsert(old(rows), r))
      ensures rows == old(rows)[r.key := Row(r.base, r.lastSeen, false)]
    {
      if r.key in rows {
        rows := rows[r.key := rows[r.key].(base := r.base, lastSeen := r.lastSeen, missing := false)];
      } else {
        rows := rows[r.key := Row(r.base, r.lastSeen, false)];
      }
    }

    /** The body of `flushPending`'s transaction. */
    method CommitBatch(batch: seq<Record>)
      modifies this`rows
      ensures View() == old(View()).(rows := UpsertAll(old(rows), batch))
    {
      for i := 0 to |batch|
        invariant rows == UpsertAll(old(rows), batch[..i])
      {
        UpsertRepo(batch[i]);
        assert batch[..i + 1][..i] == batch[..i];
      }
      assert batch[..|batch|] == batch;
    }

    method MarkMissingRows(base: int, generation: int) returns (changed: nat)
      modifies this`rows
      ensures View() == old(View()).(rows := MarkMissing(old(rows), base, generation))
      ensures rows.Keys == old(rows).Keys && forall k :: k in rows ==>
        rows[k] == if old(rows)[k].base == base && old(rows)[k].lastSeen < generation
                   then old(rows)[k].(missing := true) else old(rows)[k]
      ensures changed == |set k | k in rows && rows[k].missing && !old(rows)[k].missing|
    {
      var hit := set k | k in rows && Outdated(rows[k], base, generation);
      changed := |hit|;
      rows := map k | k in rows :: if k in hit then rows[k].(missing := true) else rows[k];
      assert hit == set k | k in rows && rows[k].missing && !old(rows)[k].missing;
    }

    method TouchReposUnder(base: int, prefix: string, generation: int)
      modifies this`rows
      ensures View() == old(View()).(rows := Touch(old(rows), base, prefix, generation))
      ensures rows.Keys == old(rows).Keys && forall k :: k in rows ==>
        var matches := Like.HasPrefix(prefix, k.workDir) || Like.HasPrefix(prefix, k.gitDir);
        rows[k] == if old(rows)[k].base == base && matches
                   then old(rows)[k].(lastSeen := generation) else old(rows)[k]
    {
      var escaped := Like.EscapeLike(prefix);
      var pattern := escaped + "%";
      rows := map k | k in rows ::
        if rows[k].base == base && (Like.Matches(pattern, k.workDir) || Like.Matches(pattern, k.gitDir))
        then rows[k].(lastSeen := generation) else rows[k];
      forall k | k in rows {
        UnderIsPrefix(prefix, k);
      }
    }

    method SaveDirSignature(base: int, path: string, s: Signature)
      modifies this`signatures
      ensures View() == old(View()).(signatures := Saved(old(signatures), base, path, s))
      ensures signatures == old(signatures)[(base, path) := s]
    {
      signatures := signatures[(base, path) := s];
    }

    method ClearDirSignatures(base: int)
      modifies this`signatures
      ensures View() == old(View()).(signatures := Cleared(old(signatures), base))
      ensures forall k :: k in signatures <==> k in old(signatures) && k.0 != base
      ensures forall k :: k in signatures ==> signatures[k] == old(signatures)[k]
    {
      signatures := map k | k in signatures && k.0 != base :: signatures[k];
    }
  }
}
