/** The integrity checks of the worker's own files (worker/worker.py,
    `generate_sri`, `verify_sri`, `verify_remote_sri`). An "sri" is a
    dictionary from file names to content hashes plus a "__version" entry.
    Hashing the files, reading sri.txt and downloading the published sri
    are I/O; their results are inputs here. */
module Integrity {
  import opened Wrappers

  /** A value of an sri dictionary as JSON gives it: a number or a string. */
  datatype SriValue = Num(n: int) | Str(s: seq<char>)

  type Sri = map<seq<char>, SriValue>

  const WorkerVersion: int := 286
  const VersionKey: seq<char> := "__version"
  const FileList: seq<seq<char>> := ["updater.py", "worker.py", "games.py"]

  /** The sri `generate_sri` builds: the worker version and the hash of
      every file of `FileList`, or `None` when one file cannot be hashed. */
  function SriOf(hash: seq<char> -> Option<seq<char>>): (r: Option<Sri>)
    ensures r.None? <==> exists i :: 0 <= i < |FileList| && hash(FileList[i]).None?
    ensures r.Some? ==> r.value.Keys == {VersionKey} + set i | 0 <= i < |FileList| :: FileList[i]
    ensures r.Some? ==> r.value[VersionKey] == Num(WorkerVersion)
    ensures r.Some? ==> forall i :: 0 <= i < |FileList| ==> r.value[FileList[i]] == Str(hash(FileList[i]).value)
  {
    var h0, h1, h2 := hash(FileList[0]), hash(FileList[1]), hash(FileList[2]);
    if h0.None? || h1.None? || h2.None? then None
    else Some(map[VersionKey := Num(WorkerVersion), FileList[0] := Str(h0.value),
                  FileList[1] := Str(h1.value), FileList[2] := Str(h2.value)])
  }

  /** `generate_sri`: hash the listed files one by one, giving up at the
      first that cannot be hashed. */
  method GenerateSri(hash: seq<char> -> Option<seq<char>>) returns (r: Option<Sri>)
    ensures r == SriOf(hash)
  {
    var sri: Sri := map[VersionKey := Num(WorkerVersion)];
    for i := 0 to |FileList|
      invariant sri.Keys == {VersionKey} + set j | 0 <= j < i :: FileList[j]
      invariant sri[VersionKey] == Num(WorkerVersion)
      invariant forall j :: 0 <= j < i ==> hash(FileList[j]).Some? && sri[FileList[j]] == Str(hash(FileList[j]).value)
    {
      var h := hash(FileList[i]);
      if h.None? {
        return None;
      }
      sri := sri[FileList[i] := Str(h.value)];
    }
    var expected := SriOf(hash).value;
    assert sri.Keys == expected.Keys;
    forall k | k in sri ensures sri[k] == expected[k] {
      if k != VersionKey {
        var j :| 0 <= j < |FileList| && k == FileList[j];
      }
    }
    assert sri == expected;
    return Some(sri);
  }

  /** What `verify_sri` checks: every entry of the computed sri except the
      version is in the stored one with the same value. */
  predicate SriMatches(computed: Sri, stored: Sri)
  {
    forall k :: k in computed && k != VersionKey ==> k in stored && stored[k] == computed[k]
  }

  /** `verify_sri`: false when the files cannot be hashed or sri.txt cannot
      be read as a dictionary (`stored` is `None`), otherwise whether the
      stored hashes match. */
  method VerifySri(computed: Option<Sri>, stored: Option<Sri>) returns (ok: bool)
    ensures ok <==> computed.Some? && stored.Some? && SriMatches(computed.value, stored.value)
  {
    if computed.None? || stored.None? {
      return false;
    }
    var sri, sri' := computed.value, stored.value;
    var keys := sri.Keys;
    while keys != {}
      invariant keys <= sri.Keys
      invariant forall k :: k in sri && k !in keys && k != VersionKey ==> k in sri' && sri'[k] == sri[k]
      decreases keys
    {
      var k :| k in keys;
      if k != VersionKey {
        if k !in sri' || sri[k] != sri'[k] {
          return false;
        }
      }
      keys := keys - {k};
    }
    return true;
  }

  /** The published sri is for this worker version: its "__version" entry,
      read as -1 when missing, is `WorkerVersion`. */
  predicate SameVersion(remote: Sri)
  {
    VersionKey in remote && remote[VersionKey] == Num(WorkerVersion)
  }

  /** No published entry is missing from, or different in, the local sri. */
  predicate Untainted(local: Sri, remote: Sri)
  {
    forall k :: k in remote ==> k in local && local[k] == remote[k]
  }

  /** `verify_remote_sri`: `None` when the published sri cannot be
      downloaded, true when it is for another version, and otherwise
      whether the worker is untainted. Every entry is visited, so each
      modified file would be reported. */
  method VerifyRemoteSri(local: Sri, remote: Option<Sri>) returns (r: Option<bool>)
    ensures remote.None? ==> r.None?
    ensures remote.Some? && !SameVersion(remote.value) ==> r == Some(true)
    ensures remote.Some? && SameVersion(remote.value) ==> r == Some(Untainted(local, remote.value))
  {
    if remote.None? {
      return None;
    }
    var sri' := remote.value;
    if !(VersionKey in sri' && sri'[VersionKey] == Num(WorkerVersion)) {
      return Some(true);
    }
    var tainted := false;
    var keys := sri'.Keys;
    while keys != {}
      invariant keys <= sri'.Keys
      invariant tainted <==> exists k :: k in sri' && k !in keys && (k !in local || sri'[k] != local[k])
      decreases keys
    {
      var k :| k in keys;
      if k !in local || sri'[k] != local[k] {
        tainted := true;
      }
      keys := keys - {k};
    }
    return Some(!tainted);
  }

  /** The local check compares the files only, the published check every
      published entry: for sris of this version made of the same files the
      two agree. */
  lemma ChecksAgree(local: Sri, remote: Sri)
    requires local.Keys == remote.Keys && SameVersion(remote) && SameVersion(local)
    ensures SriMatches(local, remote) <==> Untainted(local, remote)
  {
  }

  /** A worker whose files hash to what was recorded passes both checks:
      `verify_sri` against an sri.txt holding those hashes (whatever its
      version and other entries), and `verify_remote_sri` against a
      published sri of this version listing only those hashes. */
  lemma GeneratedSriPasses(hash: seq<char> -> Option<seq<char>>, stored: Sri, remote: Sri)
    requires SriOf(hash).Some?
    requires forall i :: 0 <= i < |FileList| ==>
      FileList[i] in stored && stored[FileList[i]] == Str(hash(FileList[i]).value)
    requires remote.Keys <= {VersionKey} + set i | 0 <= i < |FileList| :: FileList[i]
    requires VersionKey in remote ==> remote[VersionKey] == Num(WorkerVersion)
    requires forall i :: 0 <= i < |FileList| && FileList[i] in remote ==>
      remote[FileList[i]] == Str(hash(FileList[i]).value)
    ensures SriMatches(SriOf(hash).value, stored)
    ensures SameVersion(SriOf(hash).value)
    ensures Untainted(SriOf(hash).value, remote)
  {
    var local := SriOf(hash).value;
    forall k | k in local && k != VersionKey ensures k in stored && stored[k] == local[k] {
      var i :| 0 <= i < |FileList| && k == FileList[i];
    }
    forall k | k in remote ensures k in local && local[k] == remote[k] {
      if k != VersionKey {
        var i :| 0 <= i < |FileList| && k == FileList[i];
      }
    }
  }

  /** Changing the hash of one listed file is detected by both checks. */
  lemma ModifiedFileDetected(hash: seq<char> -> Option<seq<char>>, hash': seq<char> -> Option<seq<char>>, i: nat)
    requires i < |FileList|
    requires SriOf(hash).Some? && SriOf(hash').Some?
    requires hash(FileList[i]) != hash'(FileList[i])
    ensures !SriMatches(SriOf(hash').value, SriOf(hash).value)
    ensures !Untainted(SriOf(hash').value, SriOf(hash).value)
  {
    var f := FileList[i];
    assert SriOf(hash).value[f] != SriOf(hash').value[f];
    assert f != VersionKey;
  }
}
