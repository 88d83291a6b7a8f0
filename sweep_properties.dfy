/**
 * What a run of the sweep guarantees, stated about `RunEffect`, the function
 * `Host.Run` is proved to implement.
 */
module SweepProperties {
  import opened DateStamp
  import opened Selection
  import opened Sweep

  /** The uploads a run added to the log it started from. */
  function NewUploads(before: seq<Upload>, e: Effect): seq<Upload> {
    if |before| <= |e.uploads| then e.uploads[|before|..] else []
  }

  /**
   * A completed run removes exactly the listed names without the stamp,
   * whatever the uploads did; names that were not listed are untouched.
   */
  lemma RunDeletes(local: set<string>, uploads: seq<Upload>, listing: seq<string>,
                   today: Date, rejected: set<string>)
    requires ValidDate(today)
    ensures var e := RunEffect(local, uploads, listing, today, rejected);
            e.outcome.Completed? ==>
              e.local == local - set n | n in listing && !Contains(n, FormatDate(today))
  {
    var stamp := FormatDate(today);
    var sel := Select(listing, stamp);
    forall n | n in listing
      ensures n in sel <==> Contains(n, stamp)
    {
      SelectMembership(listing, stamp, n);
    }
  }

  /**
   * After a completed run, a listed name is still on disk exactly when it
   * carries the stamp, and it was uploaded exactly when it carries the stamp:
   * the uploaded names and the deleted names partition the listing.
   */
  lemma RunCompletedPartition(local: set<string>, uploads: seq<Upload>, listing: seq<string>,
                              today: Date, rejected: set<string>)
    requires ValidDate(today) && ListedFrom(listing, local)
    ensures var e := RunEffect(local, uploads, listing, today, rejected);
            e.outcome.Completed? ==>
              (forall n :: n in listing ==> (n in e.local <==> Contains(n, FormatDate(today)))) &&
              (forall n :: n in listing ==> (Uploaded(NewUploads(uploads, e), n) <==> Contains(n, FormatDate(today)))) &&
              (forall n :: n !in listing ==> (n in e.local <==> n in local))
  {
    var stamp := FormatDate(today);
    var sel := Select(listing, stamp);
    var e := RunEffect(local, uploads, listing, today, rejected);
    if e.outcome.Completed? {
      RunDeletes(local, uploads, listing, today, rejected);
      assert NewUploads(uploads, e) == UploadsFor(sel);
      forall n | n in listing
        ensures Uploaded(NewUploads(uploads, e), n) <==> Contains(n, stamp)
      {
        UploadedFor(sel, n);
        SelectMembership(listing, stamp, n);
      }
    }
  }

  /**
   * No file is both uploaded and deleted, however the run ends: every name a
   * run uploads from the directory is still in the directory afterwards.
   */
  lemma RunNeverUploadsAndDeletes(local: set<string>, uploads: seq<Upload>, listing: seq<string>,
                                  today: Date, rejected: set<string>, n: string)
    requires ValidDate(today)
    requires n in local
    ensures var e := RunEffect(local, uploads, listing, today, rejected);
            Uploaded(NewUploads(uploads, e), n) ==> n in e.local
  {
    var stamp := FormatDate(today);
    var sel := Select(listing, stamp);
    var k := FirstRejected(sel, rejected);
    var e := RunEffect(local, uploads, listing, today, rejected);
    if Uploaded(NewUploads(uploads, e), n) && k == |sel| {
      assert NewUploads(uploads, e) == UploadsFor(sel);
      UploadedFor(sel, n);
    }
  }

  /**
   * An upload that raises ends the run: nothing is deleted, the failing name
   * is a selected one, and the uploads made are the selected names before it,
   * none of which raised.
   */
  lemma RunAbortKeepsEverything(local: set<string>, uploads: seq<Upload>, listing: seq<string>,
                                today: Date, rejected: set<string>)
    requires ValidDate(today)
    ensures var e := RunEffect(local, uploads, listing, today, rejected);
            e.outcome.Aborted? ==>
              e.local == local &&
              e.outcome.failed in rejected && e.outcome.failed in listing &&
              Contains(e.outcome.failed, FormatDate(today)) &&
              forall n :: Uploaded(NewUploads(uploads, e), n) ==>
                n in listing && Contains(n, FormatDate(today)) && n !in rejected
  {
    var stamp := FormatDate(today);
    var sel := Select(listing, stamp);
    var k := FirstRejected(sel, rejected);
    var e := RunEffect(local, uploads, listing, today, rejected);
    if k < |sel| {
      assert NewUploads(uploads, e) == UploadsFor(sel[..k]);
      forall n | Uploaded(NewUploads(uploads, e), n)
        ensures n in listing && Contains(n, stamp) && n !in rejected
      {
        UploadedFor(sel[..k], n);
        var i :| 0 <= i < k && sel[..k][i] == n;
        assert sel[i] == n;
      }
    }
  }

  /** An empty directory: no uploads, no deletions, and the run completes. */
  lemma RunEmptyListing(local: set<string>, uploads: seq<Upload>, today: Date, rejected: set<string>)
    requires ValidDate(today)
    ensures RunEffect(local, uploads, [], today, rejected) == Effect(Completed, local, uploads)
  {
    assert Doomed([], []) == {};
  }

  /**
   * A second run on the same day over what a completed first run left
   * deletes nothing, whichever uploads raise in either run: protection from
   * deletion is idempotent.
   */
  lemma RunTwiceSameDayKeeps(local: set<string>, uploads: seq<Upload>, listing: seq<string>,
                             listing2: seq<string>, today: Date, rej1: set<string>, rej2: set<string>)
    requires ValidDate(today) && ListedFrom(listing, local)
    requires forall n :: n in local ==> n in listing
    requires RunEffect(local, uploads, listing, today, rej1).outcome.Completed?
    requires ListedFrom(listing2, RunEffect(local, uploads, listing, today, rej1).local)
    ensures var e := RunEffect(local, uploads, listing, today, rej1);
            var stamp := FormatDate(today);
            Select(listing2, stamp) == listing2 &&
            RunEffect(e.local, e.uploads, listing2, today, rej2).local == e.local
  {
    var stamp := FormatDate(today);
    var e := RunEffect(local, uploads, listing, today, rej1);
    RunDeletes(local, uploads, listing, today, rej1);
    forall n | n in listing2
      ensures Contains(n, stamp)
    {
      assert n in e.local;
    }
    SelectAllMatching(listing2, stamp);
    assert Doomed(listing2, listing2) == {};
  }

  /**
   * When no upload raises, that second run also completes and uploads every
   * remaining file again: uploads are not idempotent.
   */
  lemma RunTwiceSameDay(local: set<string>, uploads: seq<Upload>, listing: seq<string>,
                        listing2: seq<string>, today: Date)
    requires ValidDate(today) && ListedFrom(listing, local)
    requires forall n :: n in local ==> n in listing
    requires var e := RunEffect(local, uploads, listing, today, {});
             ListedFrom(listing2, e.local)
    ensures var e := RunEffect(local, uploads, listing, today, {});
            RunEffect(e.local, e.uploads, listing2, today, {})
              == Effect(Completed, e.local, e.uploads + UploadsFor(listing2))
  {
    var e := RunEffect(local, uploads, listing, today, {});
    assert e.outcome.Completed?;
    RunTwiceSameDayKeeps(local, uploads, listing, listing2, today, {}, {});
  }

  /** The stamp of 1 January 2024. */
  lemma ScenarioStamp()
    ensures FormatDate(Date(2024, 1, 1)) == "2024-01-01"
  {
    assert Pad4(2024) == "2024";
    assert Pad2(1) == "01";
  }

  /**
   * Of the example listing, the two names carrying the stamp are selected, in
   * order. The names arrive as parameters pinned by `requires` because Dafny
   * unfolds `Contains` on string literals without bound, which is too costly.
   */
  lemma ScenarioSelect(a: string, b: string, stale: string, stamp: string)
    requires stamp == "2024-01-01"
    requires a == "a-2024-01-01.tar" && b == "b-2024-01-01.tar" && stale == "old.tar"
    ensures Select([a, b, stale], stamp) == [a, b]
  {
    assert a == "a-" + stamp + ".tar";
    assert b == "b-" + stamp + ".tar";
    ContainsInfix("a-", stamp, ".tar");
    ContainsInfix("b-", stamp, ".tar");
    ShorterNeverContains(stale, stamp);
    SelectAppend([a], [b, stale], stamp);
    SelectAppend([b], [stale], stamp);
    assert [a, b, stale] == [a] + [b, stale];
    assert [b, stale] == [b] + [stale];
  }

  /**
   * The worked example: on 2024-01-01, of `a-2024-01-01.tar`,
   * `b-2024-01-01.tar` and `old.tar`, the first two are uploaded and kept
   * and `old.tar` is removed. The names are parameters for the same reason
   * as in `ScenarioSelect`.
   */
  lemma RunScenario(a: string, b: string, stale: string, today: Date)
    requires a == "a-2024-01-01.tar" && b == "b-2024-01-01.tar" && stale == "old.tar"
    requires today == Date(2024, 1, 1)
    ensures RunEffect({a, b, stale}, [], [a, b, stale], today, {})
              == Effect(Completed, {a, b}, [UploadOf(a), UploadOf(b)])
  {
    var listing := [a, b, stale];
    ScenarioStamp();
    ScenarioSelect(a, b, stale, "2024-01-01");
    var sel := Select(listing, FormatDate(today));
    assert sel == [a, b];
    FirstRejectedAt(sel, {}, 2);
    assert a != stale && b != stale;
    assert Doomed(listing, sel) == {stale};
    assert {a, b, stale} - {stale} == {a, b};
    assert UploadsFor(sel) == [UploadOf(a), UploadOf(b)];
  }

}
