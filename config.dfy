/** The loaded settings of the program (`Config` in lib/reader.py) and the
    one path rule they apply to a book file name. */
module Settings {
  import opened Paths

  /** The settings as `Config.load` leaves them: the data file paths are
      already joined onto the base directory. */
  datatype Config = Config(
    baseDir: string,
    bookName: string,
    bookPath: string,
    endPage: int,
    logPath: string,
    notePath: string,
    errataPath: string,
    pageNumDiff: int,
    pagePerDay: int)

  /** `fixupBookPath`: an absolute name is used as it is, a relative one is
      taken relative to the base directory. */
  function FixupBookPath(baseDir: string, name: string): (path: string)
    ensures IsAbs(name) ==> path == name
    ensures IsAbs(baseDir) ==> IsAbs(path)
    ensures |name| <= |path| && path[|path| - |name|..] == name
  {
    JoinKeepsName(baseDir, name);
    JoinOntoAbsolute(baseDir, name);
    if IsAbs(name) then name else PathJoin(baseDir, name)
  }

  /** Under an absolute base directory, fixing up a fixed-up path changes
      nothing. */
  lemma FixupIdempotent(baseDir: string, name: string)
    requires IsAbs(baseDir)
    ensures FixupBookPath(baseDir, FixupBookPath(baseDir, name)) == FixupBookPath(baseDir, name)
  {
  }
}
