/**
 * The worker's intake step for one archive: sorting its members into the
 * C-family and Java-family lists (students' files and the whitelist) by
 * top-level folder and extension, taking the owner from the student
 * folder name, and naming the job after the archive.
 */
module JobIntake {
  import opened Wrappers
  import opened StringOps

  /** `HookFileType`: how a student's file takes part in the comparison. */
  datatype FileKind = PreviousYear | CurrentYear

  /** A classified file: archive-relative name, owner, and kind (none for the whitelist). Contents are not modelled. */
  datatype HookFile = HookFile(name: string, owner: string, kind: Option<FileKind>)

  /** An archive member: its name, that name already split into path components, and whether it is a regular file. */
  datatype Member = Member(name: string, parts: seq<string>, isFile: bool)

  datatype Language = Java | CFamily | Unrecognised

  /** The four lists a member can be appended to. */
  datatype Bucket = CFiles | CWhitelist | JavaFiles | JavaWhitelist

  /** What happens to one member: skipped, appended to a list, or the job fails for want of an owner folder. */
  datatype Placement = Skip | Put(bucket: Bucket, file: HookFile) | MissingOwnerFolder

  /** The four lists and the member count the loop leaves behind. */
  datatype Intake = Intake(cFiles: seq<HookFile>, cWhitelist: seq<HookFile>,
                           javaFiles: seq<HookFile>, javaWhitelist: seq<HookFile>, numFiles: nat)

  const PreviousYearsRoot: string := "PreviousYears"
  const CurrentYearRoot: string := "CurrentYear"
  const ExclusionsRoot: string := "Exclusions"
  const ArchiveSuffix: string := ".tar.gz"

  /** A top-level folder holding students' submissions. */
  predicate IsYearRoot(root: string) {
    root == PreviousYearsRoot || root == CurrentYearRoot
  }

  function KindOf(root: string): FileKind {
    if root == PreviousYearsRoot then PreviousYear else CurrentYear
  }

  /** `fileName[fileName.rfind('.'):]`: from the last dot on; with no dot this is the last character. */
  function Extension(name: string): (e: string)
    ensures EndsWith(name, e)
    ensures '.' in name ==> |e| >= 1 && e[0] == '.' && '.' !in e[1..]
    ensures '.' !in name ==> |e| == (if |name| == 0 then 0 else 1)
  {
    var k := RFind(name, '.');
    var e := SliceFrom(name, k);
    assert k != -1 ==> e == name[k..] && e[1..] == name[k + 1..];
    e
  }

  function LanguageOf(ext: string): Language {
    if ext == ".java" then Java
    else if ext == ".cpp" || ext == ".c" || ext == ".hpp" || ext == ".h" then CFamily
    else Unrecognised
  }

  /** A name ending in one of the C-family extensions. */
  predicate HasCSuffix(name: string) {
    EndsWith(name, ".c") || EndsWith(name, ".cpp") || EndsWith(name, ".h") || EndsWith(name, ".hpp")
  }

  /** The owner recorded for a student folder: the text after its last `_`. */
  function OwnerOf(folder: string): (o: string)
    ensures '_' !in o && EndsWith(folder, o)
    ensures '_' !in folder ==> o == folder
    ensures '_' in folder ==> |o| < |folder| && folder[|folder| - |o| - 1] == '_'
  {
    LastSegment(folder, '_')
  }

  /**
   * The placement of one member, in the order the loop body tests things.
   * Only a regular file whose whole name is a year folder has no second
   * component to take the owner from.
   */
  function PlaceMember(m: Member): Placement
  {
    // A split path always has a first component; an empty one is skipped.
    if !m.isFile || |m.parts| == 0 then Skip
    else
      var lang := LanguageOf(Extension(m.name));
      var root := m.parts[0];
      if IsYearRoot(root) then
        if |m.parts| < 2 then MissingOwnerFolder
        else
          var f := HookFile(m.name, OwnerOf(m.parts[1]), Some(KindOf(root)));
          match lang
          case Java => Put(JavaFiles, f)
          case CFamily => Put(CFiles, f)
          case Unrecognised => Skip
      else if root == ExclusionsRoot then
        var f := HookFile(m.name, "", None);
        match lang
        case Java => Put(JavaWhitelist, f)
        case CFamily => Put(CWhitelist, f)
        case Unrecognised => Skip
      else Skip
  }

  /** What one placement appends to list `b`: its file when it is put there, nothing otherwise. */
  function Contribution(p: Placement, b: Bucket): seq<HookFile> {
    if p.Put? && p.bucket == b then [p.file] else []
  }

  /** The files the loop appends to list `b`, in member order. */
  function Collect(ms: seq<Member>, b: Bucket): seq<HookFile>
    decreases |ms|
  {
    if |ms| == 0 then []
    else Collect(ms[..|ms| - 1], b) + Contribution(PlaceMember(ms[|ms| - 1]), b)
  }

  /** Index of the first member that makes the job fail, or `|ms|`. */
  function FirstFailure(ms: seq<Member>): (k: nat)
    ensures k <= |ms|
    ensures forall i :: 0 <= i < k ==> !PlaceMember(ms[i]).MissingOwnerFolder?
    ensures k < |ms| ==> PlaceMember(ms[k]).MissingOwnerFolder?
    decreases |ms|
  {
    if |ms| == 0 then 0
    else if PlaceMember(ms[0]).MissingOwnerFolder? then 0
    else 1 + FirstFailure(ms[1..])
  }

  /**
   * The member loop of `processQueue`: counts every member and appends each
   * regular file to the list its top-level folder and extension select
   * (the tests of the loop body are those of `PlaceMember`).
   * A regular file named exactly like a year folder has no owner component;
   * the source then raises and abandons the job, here reported as the
   * member's index.
   */
  method ClassifyMembers(members: seq<Member>) returns (r: Result<Intake, nat>)
    ensures FirstFailure(members) < |members| ==> r == Failure(FirstFailure(members))
    ensures FirstFailure(members) == |members| ==>
              r == Success(Intake(Collect(members, CFiles), Collect(members, CWhitelist),
                                  Collect(members, JavaFiles), Collect(members, JavaWhitelist), |members|))
  {
    var cFiles: seq<HookFile> := [];
    var cWhitelist: seq<HookFile> := [];
    var javaFiles: seq<HookFile> := [];
    var javaWhitelist: seq<HookFile> := [];
    var numFiles := 0;
    var i := 0;
    while i < |members|
      invariant 0 <= i <= FirstFailure(members)
      invariant numFiles == i
      invariant cFiles == Collect(members[..i], CFiles)
      invariant cWhitelist == Collect(members[..i], CWhitelist)
      invariant javaFiles == Collect(members[..i], JavaFiles)
      invariant javaWhitelist == Collect(members[..i], JavaWhitelist)
    {
      CollectStep(members, i, CFiles);
      CollectStep(members, i, CWhitelist);
      CollectStep(members, i, JavaFiles);
      CollectStep(members, i, JavaWhitelist);
      numFiles := numFiles + 1;
      var placement := PlaceMember(members[i]);
      if placement.MissingOwnerFolder? {
        return Failure(i);
      }
      assert i < FirstFailure(members);
      cFiles, cWhitelist, javaFiles, javaWhitelist :=
        AppendPlaced(placement, cFiles, cWhitelist, javaFiles, javaWhitelist);
      i := i + 1;
    }
    assert members[..i] == members;
    r := Success(Intake(cFiles, cWhitelist, javaFiles, javaWhitelist, numFiles));
  }

  /** The loop body's `if`/`elif` chain of appends: the placed file goes to its own list only. */
  method AppendPlaced(p: Placement, cFiles: seq<HookFile>, cWhitelist: seq<HookFile>,
                      javaFiles: seq<HookFile>, javaWhitelist: seq<HookFile>)
    returns (cFiles': seq<HookFile>, cWhitelist': seq<HookFile>,
             javaFiles': seq<HookFile>, javaWhitelist': seq<HookFile>)
    ensures cFiles' == cFiles + Contribution(p, CFiles)
    ensures cWhitelist' == cWhitelist + Contribution(p, CWhitelist)
    ensures javaFiles' == javaFiles + Contribution(p, JavaFiles)
    ensures javaWhitelist' == javaWhitelist + Contribution(p, JavaWhitelist)
  {
    cFiles', cWhitelist', javaFiles', javaWhitelist' := cFiles, cWhitelist, javaFiles, javaWhitelist;
    match p {
      case Put(bucket, f) =>
        match bucket {
          case JavaFiles => javaFiles' := javaFiles + [f];
          case CFiles => cFiles' := cFiles + [f];
          case JavaWhitelist => javaWhitelist' := javaWhitelist + [f];
          case CWhitelist => cWhitelist' := cWhitelist + [f];
        }
      case _ =>
    }
  }

  /** `os.path.split(filePath)[1]`: the archive's file name. */
  function ArchiveName(filePath: string): (n: string)
    ensures '/' !in n && EndsWith(filePath, n)
    ensures '/' !in filePath ==> n == filePath
    ensures '/' in filePath ==> |n| < |filePath| && filePath[|filePath| - |n| - 1] == '/'
  {
    LastSegment(filePath, '/')
  }

  /** `tarFilename.replace('.tar.gz', '')`: the job id. */
  function JobId(filePath: string): (id: string)
    ensures |id| <= |ArchiveName(filePath)|
    ensures Find(ArchiveName(filePath), ArchiveSuffix) == -1 ==> id == ArchiveName(filePath)
  {
    var n := ArchiveName(filePath);
    assert Find(n, ArchiveSuffix) == -1 ==> RemoveAll(n, ArchiveSuffix) == n by {
      if Find(n, ArchiveSuffix) == -1 { RemoveAllAbsent(n, ArchiveSuffix); }
    }
    RemoveAll(n, ArchiveSuffix)
  }

  /** Taking the extension is the same as testing for a suffix, for any dot-led extension with no further dot. */
  lemma ExtensionIsSuffix(name: string, e: string)
    requires |e| >= 2 && e[0] == '.' && forall j :: 1 <= j < |e| ==> e[j] != '.'
    ensures Extension(name) == e <==> EndsWith(name, e)
  {
    var d := RFind(name, '.');
    if EndsWith(name, e) {
      var p := |name| - |e|;
      assert name[p] == e[0];
      assert forall j :: p < j < |name| ==> name[j] == e[j - p];
      assert d == p;
    }
  }

  /** An extension is recognised exactly when the name ends in it; a name without a dot is never recognised. */
  lemma LanguageBySuffix(name: string)
    ensures LanguageOf(Extension(name)) == Java <==> EndsWith(name, ".java")
    ensures LanguageOf(Extension(name)) == CFamily <==> HasCSuffix(name)
  {
    ExtensionIsSuffix(name, ".java");
    ExtensionIsSuffix(name, ".c");
    ExtensionIsSuffix(name, ".cpp");
    ExtensionIsSuffix(name, ".h");
    ExtensionIsSuffix(name, ".hpp");
  }

  /** Which list a member joins, stated by folder and suffix. */
  lemma PlacementRules(m: Member)
    ensures !PlaceMember(m).Skip? ==> m.isFile && |m.parts| >= 1
    ensures PlaceMember(m).MissingOwnerFolder? <==> m.isFile && |m.parts| == 1 && IsYearRoot(m.parts[0])
    ensures PlaceMember(m) == Put(JavaFiles, HookFile(m.name, OwnerOf(m.parts[1]), Some(KindOf(m.parts[0]))))
              <== m.isFile && |m.parts| >= 2 && IsYearRoot(m.parts[0]) && EndsWith(m.name, ".java")
    ensures PlaceMember(m) == Put(CFiles, HookFile(m.name, OwnerOf(m.parts[1]), Some(KindOf(m.parts[0]))))
              <== m.isFile && |m.parts| >= 2 && IsYearRoot(m.parts[0]) && HasCSuffix(m.name)
    ensures PlaceMember(m) == Put(JavaWhitelist, HookFile(m.name, "", None))
              <== m.isFile && |m.parts| >= 1 && m.parts[0] == ExclusionsRoot && EndsWith(m.name, ".java")
    ensures PlaceMember(m) == Put(CWhitelist, HookFile(m.name, "", None))
              <== m.isFile && |m.parts| >= 1 && m.parts[0] == ExclusionsRoot && HasCSuffix(m.name)
    ensures PlaceMember(m).Put? ==>
              |m.parts| >= 1 && (IsYearRoot(m.parts[0]) || m.parts[0] == ExclusionsRoot) &&
              (EndsWith(m.name, ".java") <==> PlaceMember(m).bucket in {JavaFiles, JavaWhitelist}) &&
              (HasCSuffix(m.name) <==> PlaceMember(m).bucket in {CFiles, CWhitelist}) &&
              (IsYearRoot(m.parts[0]) <==> PlaceMember(m).bucket in {JavaFiles, CFiles})
    ensures m.isFile && |m.parts| >= 1 && !IsYearRoot(m.parts[0]) && m.parts[0] != ExclusionsRoot ==> PlaceMember(m) == Skip
    ensures m.isFile && |m.parts| >= 1 && !EndsWith(m.name, ".java") && !HasCSuffix(m.name) ==> !PlaceMember(m).Put?
  {
    LanguageBySuffix(m.name);
  }

  /** One more member extends each list by that member's file, if it is placed there. */
  lemma CollectStep(ms: seq<Member>, i: nat, b: Bucket)
    requires i < |ms|
    ensures Collect(ms[..i + 1], b) == Collect(ms[..i], b) + Contribution(PlaceMember(ms[i]), b)
  {
    assert ms[..i + 1][..i] == ms[..i];
  }

  /** Collecting over a concatenation collects each part in turn: member order is kept within every list. */
  lemma {:induction false} CollectAppend(ms1: seq<Member>, ms2: seq<Member>, b: Bucket)
    ensures Collect(ms1 + ms2, b) == Collect(ms1, b) + Collect(ms2, b)
    decreases |ms2|
  {
    if |ms2| == 0 {
      assert ms1 + ms2 == ms1;
    } else {
      var n := |ms2|;
      assert (ms1 + ms2)[..|ms1 + ms2| - 1] == ms1 + ms2[..n - 1];
      assert (ms1 + ms2)[|ms1 + ms2| - 1] == ms2[n - 1];
      CollectAppend(ms1, ms2[..n - 1], b);
    }
  }

  /** A file is in list `b` exactly when some member is placed there as that file. */
  lemma {:induction false} CollectMembership(ms: seq<Member>, b: Bucket, f: HookFile)
    ensures f in Collect(ms, b) <==> exists i :: 0 <= i < |ms| && PlaceMember(ms[i]) == Put(b, f)
    decreases |ms|
  {
    if |ms| > 0 {
      var n := |ms|;
      CollectMembership(ms[..n - 1], b, f);
      assert forall i :: 0 <= i < n - 1 ==> ms[..n - 1][i] == ms[i];
      if exists i :: 0 <= i < n && PlaceMember(ms[i]) == Put(b, f) {
        var i :| 0 <= i < n && PlaceMember(ms[i]) == Put(b, f);
        if i < n - 1 {
          assert ms[..n - 1][i] == ms[i];
        }
      }
    }
  }

  /** The job id of `dir/x.tar.gz`, or of a bare `x.tar.gz`, is `x`, when `x` holds no `/` and no `.tar.gz`. */
  lemma JobIdOfArchive(dir: string, x: string)
    requires '/' !in x && Find(x, ArchiveSuffix) == -1
    ensures JobId(dir + "/" + x + ArchiveSuffix) == x
    ensures JobId(x + ArchiveSuffix) == x
  {
    var name := x + ArchiveSuffix;
    assert '/' !in name;
    assert dir + "/" + x + ArchiveSuffix == dir + ['/'] + name;
    LastSegmentAround(dir, name, '/');
    SplitWithoutSeparator(name, '/');
    RemoveSuffixPattern(x);
  }

  /** Removing `.tar.gz` from `x + ".tar.gz"` gives back `x` when `x` has no occurrence of it. */
  lemma {:induction false} RemoveSuffixPattern(x: string)
    requires forall k :: 0 <= k <= |x| ==> !OccursAt(x, ArchiveSuffix, k)
    ensures RemoveAll(x + ArchiveSuffix, ArchiveSuffix) == x
    decreases |x|
  {
    var s := x + ArchiveSuffix;
    if |x| == 0 {
      assert s == ArchiveSuffix;
      assert s[|ArchiveSuffix|..] == [];
    } else {
      assert s[..7] != ArchiveSuffix by {
        if |x| >= 7 {
          assert s[..7] == x[..7];
          assert !OccursAt(x, ArchiveSuffix, 0);
        } else {
          // `.tar.gz` has no prefix that is also a suffix, so it cannot straddle the end of `x`.
          var j := |x|;
          assert s[j] == '.';
          if j == 4 {
            assert s[..7][5] == 't' != ArchiveSuffix[5];
          } else {
            assert s[..7][j] != ArchiveSuffix[j];
          }
        }
      }
      forall k | 0 <= k <= |x[1..]| ensures !OccursAt(x[1..], ArchiveSuffix, k) {
        if OccursAt(x[1..], ArchiveSuffix, k) {
          assert x[k + 1..k + 1 + 7] == x[1..][k..k + 7];
          assert OccursAt(x, ArchiveSuffix, k + 1);
        }
      }
      assert s[1..] == x[1..] + ArchiveSuffix;
      RemoveSuffixPattern(x[1..]);
      assert x == [x[0]] + x[1..];
    }
  }
}
