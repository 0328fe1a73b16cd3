/**
 * The Courier-IMAP backend (src/server_courier.c): detection by Courier's
 * own metadata files and POP3 detection by the POP3 size list.
 */
module Courier {
  import opened Wrappers
  import opened Fs
  import opened TypeRecord

  const UidDb := "courierimapuiddb"
  const Pop3SizeList := "courierpop3dsizelist"

  /** fstatat(dirfd, name, &st, 0) == 0. */
  predicate Present(s: State, dirfd: int, name: string)
  {
    FStatAt(s, dirfd, [name]).Ok?
  }

  /**
   * courier_detect(folder): None when the folder cannot be opened (the
   * process exits with status 1), otherwise whether the folder holds either
   * Courier metadata file.
   */
  function Detect(s: State, cwd: int, folder: Path): (r: Option<bool>)
    ensures r.None? <==> OpenAt(s, cwd, folder, false).Err?
    ensures r.Some? ==> (r.value <==> var d := OpenAt(s, cwd, folder, false).value;
                                      Present(s, d, UidDb) || Present(s, d, Pop3SizeList))
  {
    match OpenAt(s, cwd, folder, false)
      case Err(_) => None
      case Ok(d) => Some(Present(s, d, UidDb) || Present(s, d, Pop3SizeList))
  }

  /** courier_open: the data records the folder and the descriptor it was given. */
  function Open(folder: Path, dirfd: int): (p: Pvt)
    ensures p.CourierData? && p.folder == folder && p.dirfd == dirfd
  {
    CourierData(folder, dirfd)
  }

  /** courier_is_pop3: the POP3 size list is present in the folder. */
  predicate IsPop3(s: State, p: Pvt)
    requires p.CourierData?
  {
    Present(s, p.dirfd, Pop3SizeList)
  }

  /** A folder Courier calls a POP3 folder is one Courier detects. */
  lemma Pop3Detected(s: State, cwd: int, folder: Path)
    requires OpenAt(s, cwd, folder, false).Ok?
    requires IsPop3(s, Open(folder, OpenAt(s, cwd, folder, false).value))
    ensures Detect(s, cwd, folder) == Some(true)
  {
  }

  /** The descriptor registered at start-up. */
  const Descriptor := MaildirType(
    "Courier-IMAP", CourierDetect, None, Some(CourierOpen), Some(CourierIsPop3),
    None, None, None, None, Some(CourierClose))
}
