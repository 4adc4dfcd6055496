/** Replacing a file through a temporary file and a rename. */
module Files {

  /** How it can end: a call that reports failure may already have renamed the new file into place. */
  datatype SaveOutcome = Installed | NotInstalled | InstalledButFailed

  const MAX_METADATA_BYTES: nat := 0x10_0000
}
