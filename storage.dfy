/**
 * Persistent storage: one file per key under a root directory. The
 * directory is a map from file name (the key) to file content; a failing
 * filesystem call is a parameter saying whether that call fails.
 */
module PersistentStorage {
  import opened Wrappers
  import opened Lines

  /**
   * `NotFound` is a `FileNotFoundException`: the "Specified key not found"
   * error, also raised when an existing file cannot be opened;
   * `FileSystemFailure` is any other I/O error ("Unable to create key",
   * "Unable to delete key", a failing read).
   */
  datatype StorageError = NotFound | FileSystemFailure

  /**
   * Which filesystem calls of one operation fail: opening a file to read
   * it, reading its first line, creating a missing file, opening a file to
   * write it, deleting a file.
   */
  datatype FsFaults = FsFaults(openFails: bool, readFails: bool, createFails: bool,
                               writeFails: bool, deleteFails: bool)

  /** A filesystem on which every call succeeds. */
  const NoFaults := FsFaults(false, false, false, false, false)

  /**
   * Reading a key: not found when there is no file or it cannot be opened,
   * a failure when the read fails, otherwise the first line of the file,
   * which is none for an empty file.
   */
  function Lookup(directory: map<string, string>, key: string, faults: FsFaults)
    : (r: Result<Option<string>, StorageError>)
    ensures r == Failure(NotFound) <==> key !in directory || faults.openFails
    ensures r == Failure(FileSystemFailure) <==> key in directory && !faults.openFails && faults.readFails
    ensures r.Success? ==> r.value == FirstLine(directory[key])
  {
    if key !in directory || faults.openFails then Failure(NotFound)
    else if faults.readFails then Failure(FileSystemFailure)
    else Success(FirstLine(directory[key]))
  }

  /** A stored single-line, non-empty value reads back as itself. */
  lemma LookupAfterStore(directory: map<string, string>, key: string, value: string)
    requires IsLine(value) && value != ""
    ensures Lookup(directory[key := value], key, NoFaults) == Success(Some(value))
  {
    FirstLineOfLine(value);
  }

  /** Storing one key does not change what any other key reads as. */
  lemma LookupOtherKey(directory: map<string, string>, key: string, value: string,
                       other: string, faults: FsFaults)
    requires other != key
    ensures Lookup(directory[key := value], other, faults) == Lookup(directory, other, faults)
  {
  }

  /**
   * How writing a key ends: creating the missing file may fail
   * ("Unable to create key"), and then opening the file for writing may
   * fail with a `FileNotFoundException`.
   */
  function WriteOutcome(directory: map<string, string>, key: string, faults: FsFaults)
    : (r: Outcome<StorageError>)
    ensures r == Fail(FileSystemFailure) <==> key !in directory && faults.createFails
    ensures r == Fail(NotFound) <==> !(key !in directory && faults.createFails) && faults.writeFails
  {
    if key !in directory && faults.createFails then Fail(FileSystemFailure)
    else if faults.writeFails then Fail(NotFound)
    else Pass
  }

  /**
   * The directory after writing a key. Only that key's file changes; it
   * holds the value after a successful write, a file that could not be
   * created stays missing, and a file created but not opened for writing
   * stays empty.
   */
  function Written(directory: map<string, string>, key: string, value: string, faults: FsFaults)
    : (d: map<string, string>)
    ensures forall k :: k != key ==> (k in d <==> k in directory)
    ensures forall k :: k != key && k in d ==> d[k] == directory[k]
    ensures WriteOutcome(directory, key, faults).Pass? ==> key in d && d[key] == value
    ensures WriteOutcome(directory, key, faults) == Fail(FileSystemFailure) ==> d == directory
    ensures WriteOutcome(directory, key, faults) == Fail(NotFound) ==>
              key in d && d[key] == (if key in directory then directory[key] else "")
  {
    if key !in directory && faults.createFails then directory
    else if faults.writeFails then (if key in directory then directory else directory[key := ""])
    else directory[key := value]
  }

  /** Without faults a write stores exactly the value. */
  lemma WrittenWithoutFaults(directory: map<string, string>, key: string, value: string)
    ensures WriteOutcome(directory, key, NoFaults) == Pass
    ensures Written(directory, key, value, NoFaults) == directory[key := value]
  {
  }

  class Storage {
    const rootDir: string
    var directory: map<string, string>

    /** Opens the root directory; files left by an earlier run (`existing`) are still there. */
    constructor (rootDir: string, existing: map<string, string>)
      ensures this.rootDir == rootDir && directory == existing
    {
      this.rootDir := rootDir;
      directory := existing;
    }

    /** Whether a file for the key exists; changes nothing. */
    method InStorage(key: string) returns (b: bool)
      ensures b <==> key in directory
    {
      b := key in directory;
    }

    /** Reads the first line of the key's file, or fails. */
    method GetKV(key: string, faults: FsFaults) returns (r: Result<Option<string>, StorageError>)
      ensures r == Lookup(directory, key, faults)
    {
      var present := InStorage(key);
      if !present || faults.openFails {
        return Failure(NotFound);
      }
      if faults.readFails {
        return Failure(FileSystemFailure);
      }
      r := Success(FirstLine(directory[key]));
    }

    /**
     * Creates the file if it is missing (which may fail), then opens it for
     * writing (which may fail) and overwrites it with the value.
     */
    method PutKV(key: string, value: string, faults: FsFaults) returns (r: Outcome<StorageError>)
      modifies this`directory
      ensures r == WriteOutcome(old(directory), key, faults)
      ensures directory == Written(old(directory), key, value, faults)
    {
      var present := InStorage(key);
      if !present {
        if faults.createFails {
          return Fail(FileSystemFailure);
        }
        directory := directory[key := ""];
      }
      if faults.writeFails {
        return Fail(NotFound);
      }
      directory := directory[key := value];
      r := Pass;
    }

    /** Deletes the key's file: not found when missing, a failure when the delete fails. */
    method DeleteKV(key: string, faults: FsFaults) returns (r: Outcome<StorageError>)
      modifies this`directory
      ensures r == Fail(NotFound) <==> key !in old(directory)
      ensures r == Fail(FileSystemFailure) <==> key in old(directory) && faults.deleteFails
      ensures r.Fail? ==> directory == old(directory)
      ensures r.Pass? ==> directory == old(directory) - {key}
    {
      var present := InStorage(key);
      if !present {
        return Fail(NotFound);
      }
      if faults.deleteFails {
        return Fail(FileSystemFailure);
      }
      directory := directory - {key};
      r := Pass;
    }

    /**
     * Deletes every file, in an unspecified order, stopping at the first
     * one that cannot be deleted (a key in `undeletable`). It succeeds
     * exactly when no stored key is undeletable, and then nothing is left;
     * after a failure, what remains is untouched and includes every
     * undeletable key that was stored.
     */
    method Clear(undeletable: set<string>) returns (r: Outcome<StorageError>)
      modifies this`directory
      ensures r.Pass? <==> old(directory).Keys !! undeletable
      ensures r.Pass? ==> directory == map[]
      ensures r.Fail? ==> r.error == FileSystemFailure
      ensures r.Fail? ==> exists k :: k in directory && k in undeletable
      ensures forall k :: k in old(directory) && k in undeletable ==> k in directory
      ensures directory.Keys <= old(directory).Keys
      ensures forall k :: k in directory ==> directory[k] == old(directory)[k]
    {
      var files := directory.Keys;
      while files != {}
        invariant files == directory.Keys
        invariant directory.Keys <= old(directory).Keys
        invariant forall k :: k in directory ==> directory[k] == old(directory)[k]
        invariant old(directory).Keys - directory.Keys !! undeletable
        decreases files
      {
        var file :| file in files;
        if file in undeletable {
          return Fail(FileSystemFailure);
        }
        directory := directory - {file};
        files := files - {file};
      }
      assert directory.Keys == {};
      r := Pass;
    }
  }
}
