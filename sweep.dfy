/**
 * The backup sweep of backup_to_s3.py: upload every listed file whose name
 * carries today's stamp (lines 15-16), then remove every listed file that was
 * not selected (lines 18-20).
 *
 * The storage SDK is replaced by an upload log and a set `rejected` of names
 * whose `upload_file` call raises; the local directory `/backup/` is a set of
 * names. An exception escapes the script, so the first rejected upload ends
 * the run before the delete loop starts.
 */
module Sweep {
  import opened Wrappers
  import opened DateStamp
  import opened Selection

  /** The local directory the backups are written to. */
  const BackupDir: string := "/backup/"
  /** The destination bucket (`BUCKET`). */
  const Bucket: string := "Bucket Name"
  /** The key prefix inside the bucket (`KEY_FOLDER`). */
  const KeyFolder: string := "Some Folder in above Bucket"

  /** One `upload_file(source, bucket, key)` call. */
  datatype Upload = Upload(source: string, bucket: string, key: string)

  /** How a run ends: normally, or with the exception of the upload of `failed`. */
  datatype Outcome = Completed | Aborted(failed: string)

  /** The local path `'/backup/' + name`, which ends in the name itself. */
  function SourcePath(name: string): (p: string)
    ensures |p| == |BackupDir| + |name| && p[..|BackupDir|] == BackupDir && p[|BackupDir|..] == name
  {
    BackupDir + name
  }

  /** The object key `KEY_FOLDER + name`. */
  function ObjectKey(name: string): (k: string)
    ensures |k| == |KeyFolder| + |name| && k[..|KeyFolder|] == KeyFolder && k[|KeyFolder|..] == name
  {
    KeyFolder + name
  }

  /** The file name an object key was built from, if it was built by `ObjectKey`. */
  function NameOfKey(key: string): (r: Option<string>)
    ensures r.Some? ==> |key| == |KeyFolder| + |r.value|
  {
    if |KeyFolder| <= |key| && key[..|KeyFolder|] == KeyFolder then Some(key[|KeyFolder|..]) else None
  }

  lemma KeyRoundTrip(name: string)
    ensures NameOfKey(ObjectKey(name)) == Some(name)
  {
    assert (KeyFolder + name)[..|KeyFolder|] == KeyFolder;
    assert (KeyFolder + name)[|KeyFolder|..] == name;
  }

  lemma NameRoundTrip(key: string)
    requires NameOfKey(key).Some?
    ensures ObjectKey(NameOfKey(key).value) == key
  {
    assert key == key[..|KeyFolder|] + key[|KeyFolder|..];
  }

  /** The upload line 16 issues for `name`. */
  function UploadOf(name: string): (u: Upload)
    ensures u.bucket == Bucket && NameOfKey(u.key) == Some(name)
    ensures |BackupDir| <= |u.source| && u.source[..|BackupDir|] == BackupDir && u.source[|BackupDir|..] == name
  {
    KeyRoundTrip(name);
    Upload(SourcePath(name), Bucket, ObjectKey(name))
  }

  /** Different files go to different objects: plain concatenation is injective. */
  lemma UploadOfInjective(n1: string, n2: string)
    requires UploadOf(n1) == UploadOf(n2)
    ensures n1 == n2
  {
    KeyRoundTrip(n1);
    KeyRoundTrip(n2);
  }

  /** The uploads of the loop at lines 15-16: one per name, in order. */
  function UploadsFor(names: seq<string>): (log: seq<Upload>)
    ensures |log| == |names|
    ensures forall i :: 0 <= i < |names| ==> log[i] == UploadOf(names[i])
  {
    if names == [] then [] else [UploadOf(names[0])] + UploadsFor(names[1..])
  }

  /** Whether `name` was uploaded by a log. */
  predicate Uploaded(log: seq<Upload>, name: string) {
    UploadOf(name) in log
  }

  lemma UploadedFor(names: seq<string>, name: string)
    ensures Uploaded(UploadsFor(names), name) <==> name in names
  {
    var log := UploadsFor(names);
    if UploadOf(name) in log {
      var i :| 0 <= i < |log| && log[i] == UploadOf(name);
      UploadOfInjective(name, names[i]);
    }
    if name in names {
      var i :| 0 <= i < |names| && names[i] == name;
      assert log[i] == UploadOf(name);
    }
  }

  /** The index of the first selected name whose upload raises, or `|sel|` when none does. */
  function FirstRejected(sel: seq<string>, rejected: set<string>): (k: nat)
    ensures k <= |sel|
    ensures forall i :: 0 <= i < k ==> sel[i] !in rejected
    ensures k < |sel| ==> sel[k] in rejected
  {
    if sel == [] || sel[0] in rejected then 0 else 1 + FirstRejected(sel[1..], rejected)
  }

  /** The first rejected name is the one the loop stops at. */
  lemma FirstRejectedAt(sel: seq<string>, rejected: set<string>, i: int)
    requires 0 <= i <= |sel|
    requires forall j :: 0 <= j < i ==> sel[j] !in rejected
    requires i < |sel| ==> sel[i] in rejected
    ensures FirstRejected(sel, rejected) == i
  {
  }

  /** The listed names the delete loop removes: those not in `FILES_TO_MOVE`. */
  function Doomed(listing: seq<string>, sel: seq<string>): (r: set<string>)
    ensures forall n :: n in r ==> n in listing
    ensures forall n :: n in sel ==> n !in r
    ensures forall n :: n in listing && n !in sel ==> n in r
  {
    set n | n in listing && n !in sel
  }

  /** One more iteration of the delete loop dooms at most the name it visits. */
  lemma DoomedStep(listing: seq<string>, sel: seq<string>, j: int)
    requires 0 <= j < |listing|
    ensures Doomed(listing[..j + 1], sel)
              == Doomed(listing[..j], sel) + (if listing[j] in sel then {} else {listing[j]})
  {
    assert listing[..j + 1] == listing[..j] + [listing[j]];
  }

  /** The local directory and the upload log after a run, with how it ended. */
  datatype Effect = Effect(outcome: Outcome, local: set<string>, uploads: seq<Upload>)

  /**
   * What one run does to a directory `local` and an upload log `uploads`,
   * given the listing `os.listdir` returned, today's date and the names whose
   * upload raises.
   */
  function RunEffect(local: set<string>, uploads: seq<Upload>, listing: seq<string>,
                     today: Date, rejected: set<string>): (r: Effect)
    requires ValidDate(today)
    ensures r.local <= local
    ensures r.outcome.Aborted? ==> r.local == local
    ensures |uploads| <= |r.uploads| && r.uploads[..|uploads|] == uploads
    ensures |r.uploads| - |uploads| <= |listing|
  {
    var sel := Select(listing, FormatDate(today));
    var k := FirstRejected(sel, rejected);
    if k < |sel| then Effect(Aborted(sel[k]), local, uploads + UploadsFor(sel[..k]))
    else Effect(Completed, local - Doomed(listing, sel), uploads + UploadsFor(sel))
  }

  /** What `os.listdir` hands the script: each entry once, all of them in the directory. */
  predicate ListedFrom(listing: seq<string>, local: set<string>) {
    Distinct(listing) && forall n :: n in listing ==> n in local
  }

  /** The machine the script runs on: the backup directory and the bucket's upload log. */
  class Host {
    /** The entries of `/backup/`. */
    var local: set<string>
    /** The `upload_file` calls made so far, oldest first. */
    var uploads: seq<Upload>

    constructor (files: set<string>)
      ensures local == files && uploads == []
    {
      local := files;
      uploads := [];
    }

    /**
     * The loop at lines 15-16: upload each selected name in order, stopping
     * at the first upload that raises.
     */
    method UploadAll(toMove: seq<string>, rejected: set<string>) returns (outcome: Outcome)
      modifies this
      ensures local == old(local)
      ensures var k := FirstRejected(toMove, rejected);
              if k < |toMove|
              then outcome == Aborted(toMove[k]) && uploads == old(uploads) + UploadsFor(toMove[..k])
              else outcome == Completed && uploads == old(uploads) + UploadsFor(toMove)
    {
      var i := 0;
      while i < |toMove|
        invariant 0 <= i <= |toMove|
        invariant forall j :: 0 <= j < i ==> toMove[j] !in rejected
        invariant local == old(local)
        invariant uploads == old(uploads) + UploadsFor(toMove[..i])
      {
        var name := toMove[i];
        if name in rejected {
          FirstRejectedAt(toMove, rejected, i);
          return Aborted(name);
        }
        uploads := uploads + [Upload(SourcePath(name), Bucket, ObjectKey(name))];
        assert toMove[..i + 1] == toMove[..i] + [name];
        i := i + 1;
      }
      assert toMove[..i] == toMove;
      FirstRejectedAt(toMove, rejected, i);
      outcome := Completed;
    }

    /**
     * The loop at lines 18-20: remove every listed name that is not in
     * `toMove`. The test is membership in the precomputed selection only.
     */
    method DeleteUnselected(listing: seq<string>, toMove: seq<string>)
      requires ListedFrom(listing, local)
      modifies this
      ensures local == old(local) - Doomed(listing, toMove)
      ensures uploads == old(uploads)
    {
      var j := 0;
      while j < |listing|
        invariant 0 <= j <= |listing|
        invariant local == old(local) - Doomed(listing[..j], toMove)
        invariant uploads == old(uploads)
      {
        var name := listing[j];
        if name !in toMove {
          assert name !in listing[..j];
          assert name in local;
          local := local - {name};
        }
        DoomedStep(listing, toMove, j);
        j := j + 1;
      }
      assert listing[..j] == listing;
    }

    /**
     * One run of the script on `today`, where `os.listdir` returned `listing`
     * and `upload_file` raises for the names in `rejected`.
     */
    method Run(today: Date, listing: seq<string>, rejected: set<string>) returns (outcome: Outcome)
      requires ValidDate(today) && ListedFrom(listing, local)
      modifies this
      ensures Effect(outcome, local, uploads) == RunEffect(old(local), old(uploads), listing, today, rejected)
    {
      var stamp := FormatDate(today);
      var toMove := Select(listing, stamp);
      outcome := UploadAll(toMove, rejected);
      if outcome.Completed? {
        DeleteUnselected(listing, toMove);
      }
    }
  }

}
