/** The size check shared by handleNoteFileSelect and handleAssignmentFileSelect: with no file
    selected nothing happens; a file larger than 10 MB is refused (alert, and the file input is
    cleared); any other file goes on to be read. */
module Uploads {
  import opened JsText

  /** 10 * 1024 * 1024 bytes. */
  const MaxFileBytes: nat := 10 * 1024 * 1024

  datatype FileCheck = NoFile | TooLarge | Accepted(size: nat)

  /** The check on the first selected file, given by its size in bytes. */
  function CheckFile(file: Option<nat>): (c: FileCheck)
    ensures c == NoFile <==> file.None?
    ensures c == TooLarge <==> file.Some? && file.value > MaxFileBytes
    ensures c.Accepted? <==> file.Some? && file.value <= MaxFileBytes
    ensures c.Accepted? ==> c.size == file.value
  {
    match file
    case None => NoFile
    case Some(size) => if size > MaxFileBytes then TooLarge else Accepted(size)
  }

  /** The limit is inclusive: a file of exactly 10 MB is read, one byte more is refused, even
      though the alert speaks of files "less than 10MB". */
  lemma LimitIsInclusive()
    ensures MaxFileBytes == 10485760
    ensures CheckFile(Some(MaxFileBytes)) == Accepted(10485760)
    ensures CheckFile(Some(MaxFileBytes + 1)) == TooLarge
  {
  }

  /** Any file no larger than an accepted one is accepted too. */
  lemma SmallerFilesAccepted(smaller: nat, larger: nat)
    requires smaller <= larger && CheckFile(Some(larger)).Accepted?
    ensures CheckFile(Some(smaller)) == Accepted(smaller)
  {
  }
}
