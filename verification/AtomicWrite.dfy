/** sops.WriteEncryptedAtomic: a temporary file beside the destination, renamed into place. */
module AtomicWrite {
  datatype Stage = Mkdir | CreateTemp | Chmod | Write(partial: string) | Sync | Close | Rename | NoStage

  /** What a reader of the directory may find: everything as it was, or the destination replaced; never a part of it. */
  predicate OldOrNew(found: map<string, string>, was: map<string, string>, tmp: string, path: string, body: string) {
    found - {tmp} == was || found - {tmp} == was[path := body]
  }

  class Directory {
    var files: map<string, string>

    /** Every content the directory has had, so that a crash between two calls can be spoken of. */
    ghost var seen: seq<map<string, string>>

    constructor (files: map<string, string>)
      ensures this.files == files && seen == []
    {
      this.files, this.seen := files, [];
    }

    method Become(now: map<string, string>)
      modifies this
      ensures files == now && seen == old(seen) + [now]
    {
      files, seen := now, seen + [now];
    }

    /**
     `failing` is the call that reports an error, if any; `stuck` says that removing the temporary file fails too.
     Success replaces the destination; an error leaves it alone; and no reader ever sees anything in between.
     */
    method WriteEncryptedAtomic(path: string, body: string, tmp: string, failing: Stage, stuck: bool) returns (ok: bool)
      requires tmp !in files && tmp != path
      modifies this
      ensures ok <==> failing.NoStage?
      ensures ok ==> files == old(files)[path := body]
      ensures !ok ==> files - {tmp} == old(files) && (!stuck ==> tmp !in files)
      ensures |old(seen)| <= |seen|
      ensures forall k :: |old(seen)| <= k < |seen| ==> OldOrNew(seen[k], old(files), tmp, path, body)
    {
      ghost var was := files;
      assert was - {tmp} == was;
      if failing.Mkdir? || failing.CreateTemp? {
        return false;
      }
      Become(files[tmp := ""]);
      assert files - {tmp} == was;
      var failed := failing.Chmod?;
      if !failed {
        failed := failing.Write?;
        Become(files[tmp := if failing.Write? then failing.partial else body]);
        assert files - {tmp} == was;
      }
      if failed || failing.Sync? || failing.Close? || failing.Rename? {
        if !stuck {
          Become(files - {tmp});
          assert files - {tmp} == was;
        }
        return false;
      }
      Become((files - {tmp})[path := files[tmp]]);
      assert files - {tmp} == files == was[path := body];
      return true;
    }
  }
}
