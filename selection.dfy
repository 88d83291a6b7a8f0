/**
 * The selection of today's backups:
 * `FILES_TO_MOVE = [files for files in ALL_FILES if DATE in files]`
 * (backup_to_s3.py, line 12). `DATE in files` is Python's substring test:
 * the stamp may sit anywhere in the name, not only at its end.
 */
module Selection {

  /** `sub` occurs in `s` starting at index `i`. */
  predicate OccursAt(s: string, sub: string, i: int) {
    0 <= i && i + |sub| <= |s| && s[i..i + |sub|] == sub
  }

  /** Python's `sub in s` on strings: try every start position, left to right. */
  predicate Contains(s: string, sub: string)
    ensures Contains(s, sub) ==> |sub| <= |s|
    ensures |sub| == 0 ==> Contains(s, sub)
    decreases |s|
  {
    (|sub| <= |s| && s[..|sub|] == sub) || (|s| > 0 && Contains(s[1..], sub))
  }

  /** `sub in s` holds exactly when `sub` occurs somewhere in `s`. */
  lemma {:induction false} ContainsIff(s: string, sub: string)
    ensures Contains(s, sub) <==> exists i :: OccursAt(s, sub, i)
    decreases |s|
  {
    if |s| > 0 {
      ContainsIff(s[1..], sub);
      forall i | OccursAt(s[1..], sub, i)
        ensures OccursAt(s, sub, i + 1)
      {
        assert s[1..][i..i + |sub|] == s[i + 1..i + 1 + |sub|];
      }
      forall i | OccursAt(s, sub, i) && i > 0
        ensures OccursAt(s[1..], sub, i - 1)
      {
        assert s[1..][i - 1..i - 1 + |sub|] == s[i..i + |sub|];
      }
    }
    if OccursAt(s, sub, 0) {
      assert s[..|sub|] == s[0..|sub|];
    }
  }

  /** A name that carries the stamp anywhere (prefix, middle or suffix) matches. */
  lemma ContainsInfix(a: string, sub: string, b: string)
    ensures Contains(a + sub + b, sub)
  {
    var s := a + sub + b;
    assert s[|a|..|a| + |sub|] == sub;
    assert OccursAt(s, sub, |a|);
    ContainsIff(s, sub);
  }

  /** A name shorter than the stamp cannot carry it. */
  lemma ShorterNeverContains(s: string, sub: string)
    requires |s| < |sub|
    ensures !Contains(s, sub)
  {
    ContainsIff(s, sub);
  }

  /** The comprehension at line 12: the listed names containing `stamp`, in listing order. */
  function Select(files: seq<string>, stamp: string): (r: seq<string>)
    ensures |r| <= |files|
    ensures forall n :: n in r ==> n in files && Contains(n, stamp)
  {
    if files == [] then []
    else (if Contains(files[0], stamp) then [files[0]] else []) + Select(files[1..], stamp)
  }

  /** Nothing that matches is left out. */
  lemma {:induction false} SelectComplete(files: seq<string>, stamp: string)
    ensures forall n :: n in files && Contains(n, stamp) ==> n in Select(files, stamp)
  {
    if files != [] {
      SelectComplete(files[1..], stamp);
      assert forall n :: n in files ==> n == files[0] || n in files[1..];
    }
  }

  /** For a listed name, `name in FILES_TO_MOVE` is the same test as `DATE in name`. */
  lemma SelectMembership(files: seq<string>, stamp: string, n: string)
    requires n in files
    ensures n in Select(files, stamp) <==> Contains(n, stamp)
  {
    SelectComplete(files, stamp);
  }

  /**
   * The selection keeps listing order: filtering a concatenation filters each
   * part. With `Select([n], stamp)` this determines `Select` completely.
   */
  lemma {:induction false} SelectAppend(a: seq<string>, b: seq<string>, stamp: string)
    ensures Select(a + b, stamp) == Select(a, stamp) + Select(b, stamp)
  {
    if a != [] {
      assert (a + b)[1..] == a[1..] + b;
      SelectAppend(a[1..], b, stamp);
    } else {
      assert a + b == b;
    }
  }

  /** Every name is listed once by `os.listdir`. */
  predicate Distinct(s: seq<string>) {
    forall i, j :: 0 <= i < j < |s| ==> s[i] != s[j]
  }

  /** A listing without repeats gives a selection without repeats, so no file is uploaded twice. */
  lemma {:induction false} SelectDistinct(files: seq<string>, stamp: string)
    requires Distinct(files)
    ensures Distinct(Select(files, stamp))
  {
    if files != [] {
      SelectDistinct(files[1..], stamp);
      assert files[0] !in files[1..];
    }
  }

  /** A listing whose every name carries the stamp is selected whole. */
  lemma {:induction false} SelectAllMatching(files: seq<string>, stamp: string)
    requires forall n :: n in files ==> Contains(n, stamp)
    ensures Select(files, stamp) == files
  {
    if files != [] {
      assert files[0] in files;
      SelectAllMatching(files[1..], stamp);
      assert [files[0]] + files[1..] == files;
    }
  }

}
