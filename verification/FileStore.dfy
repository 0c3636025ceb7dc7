/** voucher_file_store.go: voucher files on disk, one per GUID, with pre-assignment backups. */
module FileStore {
  import opened Common
  import opened Vouchers

  type Files = map<string, Bytes>

  const EXTENSION: string := ".fdoov"
  const BACKUP_SUFFIX: string := ".preassign"
  const TEMP_SUFFIX: string := ".tmp"

  function FilePath(directory: string, guid: string): string {
    if directory == "" || guid == "" then "" else directory + "/" + Lower(guid) + EXTENSION
  }

  function BackupPath(directory: string, guid: string): string {
    FilePath(directory, guid) + BACKUP_SUFFIX
  }

  function TempPath(directory: string, guid: string): string {
    FilePath(directory, guid) + TEMP_SUFFIX
  }

  /** A GUID in the form the application stores it: lower case and not empty. */
  predicate Canonical(guid: string) {
    guid != "" && Lower(guid) == guid
  }

  lemma HexIsCanonical(g: Guid)
    ensures Canonical(Hex(g))
  {
    LowerOfHex(g);
  }

  /** Voucher, backup and temporary files of canonical GUIDs never share a path. */
  lemma PathsDistinct(directory: string, g: string, h: string)
    requires directory != "" && Canonical(g) && Canonical(h)
    ensures FilePath(directory, g) == FilePath(directory, h) <==> g == h
    ensures BackupPath(directory, g) == BackupPath(directory, h) <==> g == h
    ensures TempPath(directory, g) == TempPath(directory, h) <==> g == h
    ensures FilePath(directory, g) != BackupPath(directory, h)
    ensures FilePath(directory, g) != TempPath(directory, h)
    ensures BackupPath(directory, g) != TempPath(directory, h)
  {
    var p, q := FilePath(directory, g), FilePath(directory, h);
    FilePathShape(directory, g);
    FilePathShape(directory, h);
    AppendInjective(p, q, BACKUP_SUFFIX);
    AppendInjective(p, q, TEMP_SUFFIX);
    LastOfAppend(p, BACKUP_SUFFIX);
    LastOfAppend(q, BACKUP_SUFFIX);
    LastOfAppend(q, TEMP_SUFFIX);
  }

  /** GUIDs that differ in case only share a file, named after the lower-case GUID. */
  lemma CaseDoesNotMatter(directory: string, guid: string)
    requires directory != "" && guid != ""
    ensures FilePath(directory, guid) == directory + "/" + Lower(guid) + ".fdoov"
    ensures FilePath(directory, Lower(guid)) == FilePath(directory, guid)
    ensures BackupPath(directory, guid) == directory + "/" + Lower(guid) + ".fdoov.preassign"
    ensures TempPath(directory, guid) == directory + "/" + Lower(guid) + ".fdoov.tmp"
  {
    LowerTwice(guid);
    var p := directory + "/" + Lower(guid);
    assert p + ".fdoov" + ".preassign" == p + ".fdoov.preassign" && p + ".fdoov" + ".tmp" == p + ".fdoov.tmp";
  }

  lemma LowerTwice(s: string)
    ensures Lower(Lower(s)) == Lower(s) && (s != "" ==> Lower(s) != "")
  {
    assert forall i :: 0 <= i < |s| ==> Lower(Lower(s))[i] == Lower(s)[i];
  }

  lemma FilePathShape(directory: string, g: string)
    requires directory != "" && Canonical(g)
    ensures
      var p, d := FilePath(directory, g), |directory| + 1;
      |p| == d + |g| + 6 && p[d..d + |g|] == g && p[|p| - 1] == 'v'
  {
  }

  lemma AppendInjective(p: string, q: string, suffix: string)
    ensures p + suffix == q + suffix <==> p == q
  {
    if p + suffix == q + suffix {
      assert |p| == |q|;
      assert (p + suffix)[..|p|] == p && (q + suffix)[..|q|] == q;
    }
  }

  lemma LastOfAppend(p: string, suffix: string)
    requires suffix != ""
    ensures (p + suffix)[|p| + |suffix| - 1] == suffix[|suffix| - 1]
  {
  }

  /** The files after a backup; `writeOk` is false when the write fails and leaves the old bytes. */
  function BackedUp(files: Files, directory: string, guid: string): Files
    requires FilePath(directory, guid) in files
  {
    files[BackupPath(directory, guid) := files[FilePath(directory, guid)]]
  }

  predicate CanBackup(files: Files, directory: string, guid: string, readOk: bool, writeOk: bool) {
    FilePath(directory, guid) != "" && readOk && FilePath(directory, guid) in files && writeOk
  }

  predicate CanRestore(files: Files, directory: string, guid: string, readOk: bool, writeOk: bool) {
    FilePath(directory, guid) != "" && readOk && BackupPath(directory, guid) in files && writeOk
  }

  function Restored(files: Files, directory: string, guid: string, removeOk: bool): Files
    requires BackupPath(directory, guid) in files
  {
    var written := files[FilePath(directory, guid) := files[BackupPath(directory, guid)]];
    if removeOk then written - {BackupPath(directory, guid)} else written
  }

  /** A backup followed, after any overwrites of the voucher file, by a restore brings the bytes back. */
  lemma BackupRestoreRoundTrip(files: Files, directory: string, guid: string, overwrite: Bytes, removeOk: bool)
    requires FilePath(directory, guid) != "" && FilePath(directory, guid) in files
    ensures
      var path, backup := FilePath(directory, guid), BackupPath(directory, guid);
      var mid := BackedUp(files, directory, guid)[path := overwrite];
      && backup in mid
      && Restored(mid, directory, guid, removeOk) ==
           (if removeOk then files - {backup} else files[backup := files[path]])
  {
    var path, backup := FilePath(directory, guid), BackupPath(directory, guid);
    assert |backup| == |path| + 10;
  }

  class VoucherFileStore {
    const directory: string
    var files: Files

    constructor (directory: string)
      ensures this.directory == if directory == "" then "data/vouchers" else directory
      ensures files == map[]
    {
      this.directory := if directory == "" then "data/vouchers" else directory;
      files := map[];
    }

    method SaveVoucher(lib: Library, ov: Voucher, writeOk: bool) returns (path: Option<string>)
      modifies this
      ensures path.Some? <==> FilePath(directory, Hex(ov.guid)) != "" && writeOk
      ensures path.Some? ==> path.value == FilePath(directory, Hex(ov.guid))
      ensures files == if path.Some? then old(files)[path.value := lib.format(ov)] else old(files)
    {
      var target := FilePath(directory, Hex(ov.guid));
      if target == "" || !writeOk {
        return None;
      }
      files := files[target := lib.format(ov)];
      return Some(target);
    }

    method BackupVoucher(guid: string, readOk: bool, writeOk: bool) returns (ok: bool)
      modifies this
      ensures ok <==> CanBackup(old(files), directory, guid, readOk, writeOk)
      ensures ok <==> readOk && writeOk && directory != "" && guid != "" && FilePath(directory, guid) in old(files)
      ensures files == if ok then BackedUp(old(files), directory, guid) else old(files)
    {
      var src := FilePath(directory, guid);
      if src == "" {
        return false;
      }
      if !readOk || src !in files {
        return false;
      }
      var data := files[src];
      if !writeOk {
        return false;
      }
      files := files[src + BACKUP_SUFFIX := data];
      return true;
    }

    method RestoreVoucher(guid: string, readOk: bool, writeOk: bool, removeOk: bool) returns (ok: bool)
      modifies this
      ensures ok <==> CanRestore(old(files), directory, guid, readOk, writeOk)
      ensures ok <==> readOk && writeOk && directory != "" && guid != "" && BackupPath(directory, guid) in old(files)
      ensures files == if ok then Restored(old(files), directory, guid, removeOk) else old(files)
    {
      var path := FilePath(directory, guid);
      if path == "" {
        return false;
      }
      var backup := path + BACKUP_SUFFIX;
      if !readOk || backup !in files {
        return false;
      }
      var data := files[backup];
      if !writeOk {
        return false;
      }
      files := files[path := data];
      if removeOk {
        files := files - {backup};
      }
      return true;
    }
  }
}
