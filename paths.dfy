/** Windows path helpers used when the configuration builds its paths. */
module Paths {

  /** The separator `ntpath` inserts between path components. */
  const Sep: char := '\\'

  predicate IsSep(c: char) {
    c == '\\' || c == '/'
  }

  /** Python's `str.startswith`. */
  predicate StartsWith(s: string, prefix: string) {
    |prefix| <= |s| && s[..|prefix|] == prefix
  }

  /** A base that is only a drive, such as `C:`: `ntpath.join` appends to it without a separator. */
  predicate IsBareDrive(base: string) {
    |base| == 2 && base[1] == ':'
  }

  /**
   * `ntpath.join(base, name)` for a `name` that is relative and carries no drive
   * (every name the configuration joins is of this kind). A separator is inserted
   * unless the base is empty, already ends in a separator, or is a bare drive.
   */
  function JoinPath(base: string, name: string): (p: string)
    ensures StartsWith(p, base)
    ensures |p| >= |name| && p[|p| - |name|..] == name
    ensures |p| == |base| + |name| || (|p| == |base| + 1 + |name| && p[|base|] == Sep)
    ensures |p| == |base| + |name| <==> base == [] || IsSep(base[|base| - 1]) || IsBareDrive(base)
  {
    if base == [] || IsSep(base[|base| - 1]) || IsBareDrive(base) then base + name
    else base + [Sep] + name
  }
}
