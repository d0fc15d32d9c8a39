/**
 * The screenshot namer of reCam: make sure the screenshot folder exists,
 * then try `screenshot_<timestamp>_<suffix>.png` for suffix 1, 2, ... and
 * write the frame under the first name that is not taken.
 */
module ScreenshotNamer {
  import opened Format

  /** What `os.path.exists(folder)` and, when it is absent, `os.makedirs(folder)` do. */
  datatype FolderStatus = Present | Absent(mkdir: MkdirResult)
  datatype MkdirResult = Created | PermissionDenied | OtherFailure

  /** Where a save ended: a name written, or the folder could not be made (which error was caught). */
  datatype SaveOutcome = Saved(name: string, suffix: nat) | FolderUnavailable(permission: bool)

  function FileName(timestamp: string, suffix: nat): (name: string)
    ensures |name| == |"screenshot_" + timestamp + "_"| + |Decimal(suffix)| + |".png"|
  {
    "screenshot_" + timestamp + "_" + Decimal(suffix) + ".png"
  }

  /** Different suffixes give different names for the same timestamp. */
  lemma FileNamesDiffer(timestamp: string, a: nat, b: nat)
    requires a != b
    ensures FileName(timestamp, a) != FileName(timestamp, b)
  {
    var prefix := "screenshot_" + timestamp + "_";
    var na, nb := FileName(timestamp, a), FileName(timestamp, b);
    if na == nb {
      assert |Decimal(a)| == |Decimal(b)|;
      var end := |prefix| + |Decimal(a)|;
      assert na[|prefix|..end] == Decimal(a);
      assert nb[|prefix|..end] == Decimal(b);
      DecimalInjective(a, b);
    }
  }

  /** `suffix` is the first free one: its name is free and every smaller positive suffix is taken. */
  ghost predicate FirstFree<F>(timestamp: string, files: map<string, F>, suffix: nat) {
    && 1 <= suffix
    && FileName(timestamp, suffix) !in files
    && forall k :: 1 <= k < suffix ==> FileName(timestamp, k) in files
  }

  /**
   * `files` is the folder's content before the call (name to image); `after`
   * is its content afterwards.  A failed folder creation writes nothing.
   * The source returns nothing on any path; `outcome` only records which
   * branch ran and which suffix was chosen, so that the contract can name them.
   */
  method CaptureScreenshot<F>(frame: F, timestamp: string, folder: FolderStatus, files: map<string, F>)
    returns (outcome: SaveOutcome, after: map<string, F>)
    ensures folder == Absent(PermissionDenied) ==> outcome == FolderUnavailable(true) && after == files
    ensures folder == Absent(OtherFailure) ==> outcome == FolderUnavailable(false) && after == files
    ensures folder.Present? || folder == Absent(Created) ==>
      && outcome.Saved?
      && outcome.name == FileName(timestamp, outcome.suffix)
      && FirstFree(timestamp, files, outcome.suffix)
      && after == files[outcome.name := frame]
  {
    if folder.Absent? {
      match folder.mkdir
      case PermissionDenied =>
        return FolderUnavailable(true), files;
      case OtherFailure =>
        return FolderUnavailable(false), files;
      case Created =>
    }
    var suffix: nat := 1;
    ghost var taken: set<string> := {};
    while FileName(timestamp, suffix) in files
      invariant 1 <= suffix
      invariant forall k :: 1 <= k < suffix ==> FileName(timestamp, k) in files
      invariant taken == set k | 1 <= k < suffix :: FileName(timestamp, k)
      invariant taken <= files.Keys
      decreases files.Keys - taken
    {
      var name := FileName(timestamp, suffix);
      forall k | 1 <= k < suffix
        ensures FileName(timestamp, k) != name
      {
        FileNamesDiffer(timestamp, k, suffix);
      }
      taken := taken + {name};
      suffix := suffix + 1;
    }
    var name := FileName(timestamp, suffix);
    outcome := Saved(name, suffix);
    after := files[name := frame];
  }

  /** A save never overwrites: the chosen name was not in the folder, and it is the only name added. */
  lemma SaveAddsOneFreshName<F>(timestamp: string, files: map<string, F>, suffix: nat, frame: F)
    requires FirstFree(timestamp, files, suffix)
    ensures FileName(timestamp, suffix) !in files
    ensures files[FileName(timestamp, suffix) := frame].Keys == files.Keys + {FileName(timestamp, suffix)}
    ensures |files[FileName(timestamp, suffix) := frame]| == |files| + 1
  {
  }

  /** The first free suffix is unique. */
  lemma FirstFreeUnique<F>(timestamp: string, files: map<string, F>, s: nat, t: nat)
    requires FirstFree(timestamp, files, s) && FirstFree(timestamp, files, t)
    ensures s == t
  {
  }

  /**
   * A second save in the same second, after the first one's file was
   * written, picks a strictly larger suffix; if that next name was free,
   * it picks the very next suffix.
   */
  lemma NextSaveInSameSecond<F>(timestamp: string, files: map<string, F>, s: nat, frame: F, t: nat)
    requires FirstFree(timestamp, files, s)
    requires FirstFree(timestamp, files[FileName(timestamp, s) := frame], t)
    ensures s < t
    ensures FileName(timestamp, s + 1) !in files ==> t == s + 1
  {
    FileNamesDiffer(timestamp, s, s + 1);
  }

  /** With names 1 and 2 taken and 3 free for the same second, the save uses suffix 3. */
  lemma ThirdSuffixAfterTwo<F>(timestamp: string, files: map<string, F>, s: nat)
    requires FileName(timestamp, 1) in files && FileName(timestamp, 2) in files
    requires FileName(timestamp, 3) !in files
    requires FirstFree(timestamp, files, s)
    ensures s == 3
  {
  }
}
