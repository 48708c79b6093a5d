/** Where things live inside the memory repository (siatt/memory/layout.py). */
module Layout {
  import opened Text

  type Path = string

  const MEMORY_DIR := "memory"
  const ARCHIVE_PREFIX := "memory/archive/"

  /** Soft-deleted: the path starts with the archive directory. */
  predicate IsArchived(path: Path) {
    ARCHIVE_PREFIX <= path
  }

  /** `Path(p).parts` of a relative path: empty and `.` components vanish. */
  function Parts(path: Path): seq<string> {
    NonTrivial(SplitOn(path, '/'))
  }

  function NonTrivial(parts: seq<string>): seq<string> {
    if parts == [] then []
    else if parts[0] in {"", "."} then NonTrivial(parts[1..])
    else [parts[0]] + NonTrivial(parts[1..])
  }

  /** `Path(p).name`. */
  function Name(path: Path): string {
    var parts := Parts(path);
    if parts == [] then "" else parts[|parts| - 1]
  }

  /** `Path(p).stem`: the name without its last suffix. */
  function Stem(path: Path): string {
    var name := Name(path);
    var pieces := SplitOn(name, '.');
    var last := pieces[|pieces| - 1];
    if |pieces| > 1 && last != "" && |last| + 1 < |name| then name[..|name| - |last| - 1] else name
  }
}
