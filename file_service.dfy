/**
 * The client's storage-path convention for a submission: the course code
 * split into two halves, and the student folder `First_Last_Number` that
 * the processor later splits on `_` to find the owner. A path is the
 * sequence of components handed to `Path.Combine`.
 */
module FileService {
  import opened StringOps

  /** The fields of a submission (with its assignment and course) that the path is built from. */
  datatype Submission = Submission(
    year: int,
    courseCode: string,
    assignmentName: string,
    submissionId: int,
    studentFirstname: string,
    studentLastname: string,
    studentNumber: string)

  /** The two course-code components of the path. */
  datatype CourseParts = CourseParts(courseCode: string, courseNumber: string)

  function DigitChar(d: nat): (c: char)
    requires d < 10
    ensures '0' <= c <= '9' && c as int - '0' as int == d
  {
    ('0' as int + d) as char
  }

  /** The number a string of decimal digits denotes, most significant digit first. */
  function DigitsValue(r: string): int
    decreases |r|
  {
    if |r| == 0 then 0 else 10 * DigitsValue(r[..|r| - 1]) + (r[|r| - 1] as int - '0' as int)
  }

  /** Decimal rendering of a natural number, as `n + ""` gives it. */
  function NatToString(n: nat): (r: string)
    ensures |r| >= 1
    ensures forall i :: 0 <= i < |r| ==> '0' <= r[i] <= '9'
    decreases n
  {
    if n < 10 then [DigitChar(n)] else NatToString(n / 10) + [DigitChar(n % 10)]
  }

  /** The rendering reads back as `n`, and only zero is rendered with a leading `0`. */
  lemma {:induction false} NatToStringValue(n: nat)
    ensures DigitsValue(NatToString(n)) == n
    ensures NatToString(n)[0] == '0' <==> n == 0
    decreases n
  {
    if n >= 10 {
      NatToStringValue(n / 10);
      var r := NatToString(n);
      assert r[..|r| - 1] == NatToString(n / 10);
      assert r[0] == NatToString(n / 10)[0];
    }
  }

  /** Decimal rendering of an integer, with a leading `-` when negative. */
  function IntToString(n: int): string {
    if n < 0 then "-" + NatToString(-n) else NatToString(n)
  }

  /** `GetSubmissionFolderName`. */
  function SubmissionFolderName(s: Submission): (r: string)
    ensures |r| == |s.studentFirstname| + |s.studentLastname| + |s.studentNumber| + 2
    ensures r[..|s.studentFirstname|] == s.studentFirstname && r[|s.studentFirstname|] == '_'
    ensures r[|s.studentFirstname| + 1..|r| - |s.studentNumber| - 1] == s.studentLastname
    ensures r[|r| - |s.studentNumber| - 1] == '_' && r[|r| - |s.studentNumber|..] == s.studentNumber
  {
    s.studentFirstname + "_" + s.studentLastname + "_" + s.studentNumber
  }

  /**
   * The course-code halves of `GetSubmissionPath`: `half = length / 2`
   * rounds down, the first half is replaced by `"z"` when it would be
   * empty, and the second half is the rest of the code.
   */
  function SplitCourseCode(orig: string): (r: CourseParts)
    ensures |r.courseNumber| == |orig| - |orig| / 2 && EndsWith(orig, r.courseNumber)
    ensures |orig| >= 2 ==> r.courseCode + r.courseNumber == orig
    ensures |orig| >= 2 ==> |r.courseCode| <= |r.courseNumber| <= |r.courseCode| + 1
    ensures |orig| < 2 ==> r.courseCode == "z" && r.courseNumber == orig
  {
    var length := |orig|;
    var half := length / 2;
    var courseCode := orig[0..half];
    var courseCode' := if half < 1 then "z" else courseCode;
    var courseNumber := orig[half..half + (length - half)];
    assert orig == orig[0..half] + orig[half..];
    CourseParts(courseCode', courseNumber)
  }

  /** `GetSubmissionPath`: the six components Year, course code, course number, assignment, submission id, folder. */
  function SubmissionPath(s: Submission): (path: seq<string>)
    ensures |path| == 6
    ensures path[0] == IntToString(s.year) && path[3] == s.assignmentName &&
            path[4] == IntToString(s.submissionId) && path[5] == SubmissionFolderName(s)
    ensures path[1] == SplitCourseCode(s.courseCode).courseCode && path[2] == SplitCourseCode(s.courseCode).courseNumber
  {
    [IntToString(s.year), SplitCourseCode(s.courseCode).courseCode, SplitCourseCode(s.courseCode).courseNumber,
     s.assignmentName, IntToString(s.submissionId), SubmissionFolderName(s)]
  }

  /** Splitting a folder name on `_` yields the pieces of the first name, the last name and the number, in that order. */
  lemma FolderNamePieces(s: Submission)
    ensures Split(SubmissionFolderName(s), '_') ==
              Split(s.studentFirstname, '_') + Split(s.studentLastname, '_') + Split(s.studentNumber, '_')
    ensures '_' !in s.studentFirstname && '_' !in s.studentLastname && '_' !in s.studentNumber ==>
              Split(SubmissionFolderName(s), '_') == [s.studentFirstname, s.studentLastname, s.studentNumber]
  {
    var f, l, n := s.studentFirstname, s.studentLastname, s.studentNumber;
    assert SubmissionFolderName(s) == (f + ['_'] + l) + ['_'] + n;
    SplitAround(f + ['_'] + l, n, '_');
    SplitAround(f, l, '_');
    if '_' !in f && '_' !in l && '_' !in n {
      SplitWithoutSeparator(f, '_');
      SplitWithoutSeparator(l, '_');
      SplitWithoutSeparator(n, '_');
    }
  }

  /** What the path gives back: the course code from its two components when it is long enough, and the folder's last `_` piece. */
  lemma SubmissionPathRecovers(s: Submission)
    ensures |s.courseCode| >= 2 ==> SubmissionPath(s)[1] + SubmissionPath(s)[2] == s.courseCode
    ensures |s.courseCode| < 2 ==> SubmissionPath(s)[1] == "z" && SubmissionPath(s)[2] == s.courseCode
    ensures LastSegment(SubmissionPath(s)[5], '_') == LastSegment(s.studentNumber, '_')
  {
    assert SubmissionFolderName(s) == (s.studentFirstname + ['_'] + s.studentLastname) + ['_'] + s.studentNumber;
    LastSegmentAround(s.studentFirstname + ['_'] + s.studentLastname, s.studentNumber, '_');
  }
}
