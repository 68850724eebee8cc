/**
 * `delete_old_files` of `auto_delete.py`: sweep one folder, deleting the regular files whose age is
 * strictly over a threshold, and count the deletions.
 *
 * The folder is a value: its entries in the order `os.listdir` gives them. Times are whole seconds.
 */
module AutoDelete {
  import opened Wrappers

  /**
   * One directory entry. `isFile` is what `os.path.isfile` says; `mtime` is what
   * `os.path.getmtime` returns, `None` when it raises `OSError`; `removable` says whether
   * `os.remove` succeeds.
   */
  datatype Entry = Entry(name: string, isFile: bool, mtime: Option<int>, removable: bool)

  /** The folder: missing (then created empty), one that cannot be created or listed, or its entries. */
  datatype Folder = Missing | Unlistable | Listed(entries: seq<Entry>)

  /** `current_time - file_time > time_threshold_minutes * 60` for a regular file whose time could be read. */
  predicate Expired(e: Entry, now: int, thresholdMinutes: int) {
    e.isFile && e.mtime.Some? && now - e.mtime.value > thresholdMinutes * 60
  }

  /** The entry is deleted: it is expired and its removal succeeds. */
  predicate Deleted(e: Entry, now: int, thresholdMinutes: int) {
    Expired(e, now, thresholdMinutes) && e.removable
  }

  /** The entries left after sweeping `entries`, in listing order. */
  function Survivors(entries: seq<Entry>, now: int, thresholdMinutes: int): seq<Entry> {
    if entries == [] then []
    else
      var last := entries[|entries| - 1];
      Survivors(entries[..|entries| - 1], now, thresholdMinutes) + (if Deleted(last, now, thresholdMinutes) then [] else [last])
  }

  /** The number of entries sweeping `entries` deletes. */
  function DeletedCount(entries: seq<Entry>, now: int, thresholdMinutes: int): nat {
    if entries == [] then 0
    else DeletedCount(entries[..|entries| - 1], now, thresholdMinutes) + (if Deleted(entries[|entries| - 1], now, thresholdMinutes) then 1 else 0)
  }

  /** What `delete_old_files(folder, threshold)` returns and leaves, at time `now`. */
  function SweepSpec(folder: Folder, thresholdMinutes: int, now: int): (r: (nat, Folder))
    ensures !folder.Listed? ==> r.0 == 0
    ensures folder.Missing? ==> r.1 == Listed([])
    ensures folder.Listed? ==> r.1.Listed? && r.0 + |r.1.entries| == |folder.entries|
  {
    CountIsRemovals(if folder.Listed? then folder.entries else [], now, thresholdMinutes);
    match folder
    case Missing => (0, Listed([]))
    case Unlistable => (0, Unlistable)
    case Listed(entries) => (DeletedCount(entries, now, thresholdMinutes), Listed(Survivors(entries, now, thresholdMinutes)))
  }

  /** `delete_old_files`: `now` is `time.time()`, read once before the loop. */
  method DeleteOldFiles(folder: Folder, thresholdMinutes: int, now: int) returns (deletedCount: nat, after: Folder)
    ensures (deletedCount, after) == SweepSpec(folder, thresholdMinutes, now)
  {
    match folder
    case Missing =>
      return 0, Listed([]);
    case Unlistable =>
      return 0, Unlistable;
    case Listed(entries) =>
      var thresholdSeconds := thresholdMinutes * 60;
      deletedCount := 0;
      var kept: seq<Entry> := [];
      var i := 0;
      while i < |entries|
        invariant 0 <= i <= |entries|
        invariant deletedCount == DeletedCount(entries[..i], now, thresholdMinutes)
        invariant kept == Survivors(entries[..i], now, thresholdMinutes)
      {
        var e := entries[i];
        assert entries[..i + 1][..i] == entries[..i];
        if e.isFile && e.mtime.Some? && now - e.mtime.value > thresholdSeconds && e.removable {
          deletedCount := deletedCount + 1;
        } else {
          kept := kept + [e];
        }
        i := i + 1;
      }
      assert entries[..i] == entries;
      after := Listed(kept);
  }

  /** The count is the number of entries that disappeared. */
  lemma {:induction false} CountIsRemovals(entries: seq<Entry>, now: int, thresholdMinutes: int)
    ensures |Survivors(entries, now, thresholdMinutes)| + DeletedCount(entries, now, thresholdMinutes) == |entries|
  {
    if entries != [] {
      CountIsRemovals(entries[..|entries| - 1], now, thresholdMinutes);
    }
  }

  /**
   * An entry survives exactly when it is not deleted: a directory, a file whose time could not be
   * read, a file not strictly older than the threshold, or one whose removal raised.
   */
  lemma {:induction false} SurvivorsExact(entries: seq<Entry>, now: int, thresholdMinutes: int, e: Entry)
    ensures e in Survivors(entries, now, thresholdMinutes) <==> e in entries && !Deleted(e, now, thresholdMinutes)
  {
    if entries != [] {
      var init := entries[..|entries| - 1];
      SurvivorsExact(init, now, thresholdMinutes, e);
      assert entries == init + [entries[|entries| - 1]];
    }
  }

  /** Sweeping a folder a second time at the same time deletes nothing and changes nothing. */
  lemma SecondSweepDeletesNothing(folder: Folder, thresholdMinutes: int, now: int)
    ensures var (_, after) := SweepSpec(folder, thresholdMinutes, now);
      SweepSpec(after, thresholdMinutes, now) == (0, after)
  {
    if folder.Listed? {
      NothingLeftToDelete(folder.entries, now, thresholdMinutes);
    }
  }

  lemma {:induction false} NothingLeftToDelete(entries: seq<Entry>, now: int, thresholdMinutes: int)
    ensures var kept := Survivors(entries, now, thresholdMinutes);
      DeletedCount(kept, now, thresholdMinutes) == 0 && Survivors(kept, now, thresholdMinutes) == kept
  {
    if entries != [] {
      var init := entries[..|entries| - 1];
      var last := entries[|entries| - 1];
      NothingLeftToDelete(init, now, thresholdMinutes);
      var keptInit := Survivors(init, now, thresholdMinutes);
      if !Deleted(last, now, thresholdMinutes) {
        var kept := keptInit + [last];
        assert kept[..|kept| - 1] == keptInit;
      } else {
        assert Survivors(entries, now, thresholdMinutes) == keptInit + [];
        assert keptInit + [] == keptInit;
      }
    }
  }

  /** A longer threshold never deletes more. */
  lemma {:induction false} LongerThresholdDeletesLess(entries: seq<Entry>, now: int, shorter: int, longer: int)
    requires shorter <= longer
    ensures DeletedCount(entries, now, longer) <= DeletedCount(entries, now, shorter)
  {
    if entries != [] {
      LongerThresholdDeletesLess(entries[..|entries| - 1], now, shorter, longer);
    }
  }
}
