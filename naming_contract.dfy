/**
 * The link between the client's folder naming and the processor's owner
 * extraction: the owner read back from `First_Last_Number` is the student
 * number, provided the number itself holds no `_`.
 */
module NamingContract {
  import opened StringOps
  import opened Wrappers
  import FileService
  import JobIntake

  /** The processor's owner of a client-named folder is the student number. */
  lemma OwnerOfFolderName(s: FileService.Submission)
    requires '_' !in s.studentNumber
    ensures JobIntake.OwnerOf(FileService.SubmissionFolderName(s)) == s.studentNumber
  {
    FileService.SubmissionPathRecovers(s);
    SplitWithoutSeparator(s.studentNumber, '_');
  }

  /** A current-year Java file inside a client-named folder joins the Java list owned by the student number. */
  lemma CurrentYearFileOwnedByStudent(s: FileService.Submission, name: string, rest: seq<string>)
    requires '_' !in s.studentNumber && EndsWith(name, ".java")
    ensures JobIntake.PlaceMember(JobIntake.Member(name, [JobIntake.CurrentYearRoot, FileService.SubmissionFolderName(s)] + rest, true))
            == JobIntake.Put(JobIntake.JavaFiles, JobIntake.HookFile(name, s.studentNumber, Some(JobIntake.CurrentYear)))
  {
    OwnerOfFolderName(s);
    JobIntake.LanguageBySuffix(name);
  }
}
