/** Saving by backup and rename (source/iptv/iptv.c), on a file system whose
    operations may fail at any point. A failed operation changes nothing, so a
    crash is the case in which every later operation fails. */
module SavedFile {
  import opened Options

  datatype Node = Regular(contents: string) | Other

  type Files = map<string, Node>

  datatype Found = Exists(regular: bool) | Missing | Unknown

  /** Names used to save one file. */
  datatype Names = Names(path: string, backup: string, temporary: string)

  ghost predicate Separate(n: Names) {
    n.path != n.backup && n.path != n.temporary && n.backup != n.temporary
  }

  ghost predicate Holds(files: Files, name: string, contents: string) {
    name in files && files[name] == Regular(contents)
  }

  /** What was committed last is at the path, or the path is free and the backup
      holds it. With nothing committed the path holds no regular file. */
  ghost predicate Recoverable(files: Files, n: Names, committed: Option<string>) {
    match committed
    case Some(c) => Holds(files, n.path, c) || (n.path !in files && Holds(files, n.backup, c))
    case None => n.path in files ==> files[n.path] == Other
  }

  datatype Moment = Moment(files: Files, committed: Option<string>)

  /** `committed` and `history` are history: the contents put at the path last,
      and the state after each operation. */
  class FileSystem {
    const names: Names
    var files: Files
    ghost var committed: Option<string>
    ghost var history: seq<Moment>

    ghost predicate Valid()
      reads this
    {
      && Separate(names)
      && Recoverable(files, names, committed)
      && forall k :: 0 <= k < |history| ==> Recoverable(history[k].files, names, history[k].committed)
    }

    /** Any start from which `committed` can be recovered: the file at its path,
        only its backup after an earlier crash, or nothing saved yet. */
    constructor (names: Names, files: Files, ghost committed: Option<string>)
      requires Separate(names) && Recoverable(files, names, committed)
      ensures Valid() && this.names == names && this.files == files
      ensures this.committed == committed && history == []
    {
      this.names, this.files, this.committed, history := names, files, committed, [];
    }

    method Stat(name: string, works: bool) returns (found: Found)
      ensures found == if !works then Unknown
                       else if name in files then Exists(files[name].Regular?) else Missing
    {
      found := if !works then Unknown
               else if name in files then Exists(files[name].Regular?) else Missing;
    }

    /** Removing anything is safe that leaves the last commit where it is. */
    method Remove(name: string, works: bool) returns (removed: bool)
      requires Valid() && Recoverable(files - {name}, names, committed)
      modifies this`files, this`history
      ensures Valid() && removed == (works && name in old(files))
      ensures files == if removed then old(files) - {name} else old(files)
      ensures history == old(history) + [Moment(files, committed)]
    {
      removed := works && name in files;
      if removed {
        files := files - {name};
      }
      history := history + [Moment(files, committed)];
    }

    /** rename() of a regular file; a rename onto the path is a commit of what it
        puts there, unless it brings the backup back. */
    method Rename(from: string, to: string, works: bool) returns (renamed: bool)
      requires Valid() && from != to
      requires from in files ==> Recoverable(Renamed(files, from, to), names, AfterRename(from, to))
      modifies this`files, this`committed, this`history
      ensures Valid() && renamed == (works && from in old(files))
      ensures files == if renamed then Renamed(old(files), from, to) else old(files)
      ensures committed == if renamed then old(AfterRename(from, to)) else old(committed)
      ensures history == old(history) + [Moment(files, committed)]
    {
      renamed := works && from in files;
      if renamed {
        committed := AfterRename(from, to);
        files := Renamed(files, from, to);
      }
      history := history + [Moment(files, committed)];
    }

    ghost function AfterRename(from: string, to: string): Option<string>
      requires from in files
      reads this
    {
      if to == names.path && from == names.temporary && files[from].Regular? then Some(files[from].contents)
      else committed
    }

    /** Nothing in the way of a save: no other kind of file at the path, and a
        backup only beside the file it backs up. */
    ghost predicate Clear()
      reads this
    {
      && (names.path in files ==> files[names.path].Regular?)
      && (names.backup in files ==> names.path in files && files[names.backup].Regular?)
    }

    /** The operations a save cannot do without, up to the rename that commits. */
    predicate WayWorks(before: Files, works: nat -> bool) {
      && works(0) && works(1)
      && (names.backup in before ==> works(2)) && (names.path in before ==> works(3))
    }

    /** iptv_replace_saved_file. `nameFits` is the length test of the backup's
        name, `works(k)` whether the k-th operation succeeds if it can. */
    method Replace(nameFits: bool, works: nat -> bool) returns (saved: bool)
      requires Valid() && (names.temporary in files ==> files[names.temporary].Regular?)
      modifies this`files, this`committed, this`history
      ensures Valid() && old(history) <= history
      ensures saved ==>
        && names.temporary in old(files) && committed == Some(old(files[names.temporary]).contents)
        && Holds(files, names.path, committed.value)
      ensures !saved ==> committed == old(committed)
      ensures saved <==>
        nameFits && old(Clear()) && WayWorks(old(files), works) && names.temporary in old(files) && works(5)
      ensures !saved && works(6) ==> SameAt(names.path, old(files), files)
      ensures saved ==> (names.backup in files <==> names.path in old(files) && !works(8))
      ensures saved || (works(4) && works(7)) ==> names.temporary !in files
    {
      saved := false;
      var ready, existed := MakeWay(nameFits, works);
      if !ready {
        var _ := Remove(names.temporary, works(4));
        return;
      }
      saved := Rename(names.temporary, names.path, works(5));
      if !saved {
        if existed {
          var _ := Rename(names.backup, names.path, works(6));
        }
        var _ := Remove(names.temporary, works(7));
        return;
      }
      if existed {
        var _ := Remove(names.backup, works(8));
      }
    }

    predicate SameAt(name: string, before: Files, after: Files) {
      (name in before <==> name in after) && (name in before ==> before[name] == after[name])
    }

    /** The first half: the path is free, and what was there is the backup. */
    method MakeWay(nameFits: bool, works: nat -> bool) returns (ready: bool, existed: bool)
      requires Valid()
      modifies this`files, this`committed, this`history
      ensures Valid() && old(history) <= history && committed == old(committed)
      ensures names.temporary in files <==> names.temporary in old(files)
      ensures names.temporary in files ==> files[names.temporary] == old(files[names.temporary])
      ensures ready ==> names.path !in files && (existed <==> names.backup in files)
      ensures ready && existed ==> committed.Some?
      ensures !ready ==> SameAt(names.path, old(files), files)
      ensures ready ==> (existed <==> names.path in old(files))
      ensures ready && existed ==> files[names.backup] == old(files[names.path])
      ensures ready <==> nameFits && old(Clear()) && WayWorks(old(files), works)
    {
      if !nameFits {
        return false, false;
      }
      var found := Stat(names.path, works(0));
      existed := found.Exists?;
      if found == Unknown || found == Exists(false) {
        return false, existed;
      }
      var other := Stat(names.backup, works(1));
      if other == Unknown || (other.Exists? && (!existed || !other.regular)) {
        return false, existed;
      }
      if other.Exists? {
        var removed := Remove(names.backup, works(2));
        if !removed {
          return false, existed;
        }
      }
      if existed {
        var movedAway := Rename(names.path, names.backup, works(3));
        if !movedAway {
          return false, existed;
        }
      }
      return true, existed;
    }

    /** iptv_write_id_file and its like: write the temporary file, which may come
        out as anything, then put it in place. */
    method Save(call: SaveCall) returns (saved: bool)
      requires Valid()
      modifies this`files, this`committed, this`history
      ensures Valid() && old(history) <= history
      ensures saved ==> committed == Some(call.text) && Holds(files, names.path, call.text)
      ensures !saved ==> committed == old(committed)
      ensures saved <==>
        && call.canOpen && call.written && call.nameFits
        && old(Clear()) && WayWorks(old(files), call.works) && call.works(5)
      ensures !saved && call.works(6) ==> SameAt(names.path, old(files), files)
      ensures saved ==> (names.backup in files <==> names.path in old(files) && !call.works(8))
      ensures call.canOpen && (saved || (call.works(4) && call.works(7) && call.works(9))) ==>
        names.temporary !in files
    {
      if !call.canOpen {
        return false;
      }
      files := files[names.temporary := Regular(if call.written then call.text else call.left)];
      history := history + [Moment(files, committed)];
      if !call.written {
        var _ := Remove(names.temporary, call.works(9));
        return false;
      }
      saved := Replace(call.nameFits, call.works);
    }

    /** Any number of saves, each failing or cut short by a crash anywhere: at
        every moment what was committed last can be recovered, and in the end it
        is the text of the last save that answered true. */
    method SaveAll(calls: seq<SaveCall>) returns (answers: seq<bool>)
      requires Valid()
      modifies this`files, this`committed, this`history
      ensures Valid() && old(history) <= history && |answers| == |calls|
      ensures true !in answers ==> committed == old(committed)
      ensures forall k :: LastTrue(answers, k) ==> k < |calls| && committed == Some(calls[k].text)
    {
      answers := [];
      while |answers| < |calls|
        invariant Valid() && old(history) <= history && |answers| <= |calls|
        invariant true !in answers ==> committed == old(committed)
        invariant forall k :: LastTrue(answers, k) ==> k < |calls| && committed == Some(calls[k].text)
        decreases |calls| - |answers|
      {
        var saved := Save(calls[|answers|]);
        LastTrueAfter(answers, saved);
        answers := answers + [saved];
      }
    }
  }

  /** The k-th answer is true and none after it. */
  ghost predicate LastTrue(answers: seq<bool>, k: int) {
    0 <= k < |answers| && answers[k] && forall i :: k < i < |answers| ==> !answers[i]
  }

  lemma LastTrueAfter(answers: seq<bool>, next: bool)
    ensures next ==> forall k :: LastTrue(answers + [next], k) ==> k == |answers|
    ensures !next ==> forall k :: LastTrue(answers + [next], k) ==> LastTrue(answers, k)
    ensures true in answers + [next] <==> true in answers || next
  {
    var all := answers + [next];
    assert all[|answers|] == next && forall i :: 0 <= i < |answers| ==> all[i] == answers[i];
  }

  /** One save: the text, whether the temporary file could be opened and written,
      what a failed write leaves in it, and which operations succeed. */
  datatype SaveCall = SaveCall(
    text: string, canOpen: bool, written: bool, left: string, nameFits: bool, works: nat -> bool)

  function Renamed(files: Files, from: string, to: string): Files
    requires from in files
  {
    (files - {from})[to := files[from]]
  }
}
