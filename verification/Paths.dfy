/** Path arithmetic of lib/comm_utils.h and the two TransformPath functions. */
module Paths {
  import opened Geometry

  predicate EndsWithSlash(p: string) {
    |p| > 0 && p[|p| - 1] == '/'
  }

  predicate IsMountPoint(p: string) {
    p == "/"
  }

  /** Position of the last '/', or -1. */
  function LastSlash(p: string): (i: int)
    ensures -1 <= i < |p|
    ensures i >= 0 ==> p[i] == '/'
    ensures forall j :: i < j < |p| ==> p[j] != '/'
  {
    if p == [] then -1
    else if p[|p| - 1] == '/' then |p| - 1
    else LastSlash(p[..|p| - 1])
  }

  function GetFileName(p: string): string {
    p[LastSlash(p) + 1..]
  }

  function StripSlashes(p: string): (r: string)
    ensures |r| <= |p|
  {
    if EndsWithSlash(p) then StripSlashes(p[..|p| - 1]) else p
  }

  /** std::filesystem::path::parent_path; repeated separators count as one. */
  function ParentPath(p: string): (r: string)
    ensures |r| < |p| || r == "/" || p == ""
  {
    var i := LastSlash(p);
    if i < 0 then ""
    else
      var q := StripSlashes(p[..i]);
      if q == "" then "/" else q
  }

  function GetDirName(p: string): (r: string)
    requires |p| > 0
    ensures EndsWithSlash(r)
    ensures IsMountPoint(p) ==> r == p
    ensures EndsWithSlash(p) && !IsMountPoint(p) ==> |r| < |p|
  {
    if p == "/" then p
    else
      var t := if EndsWithSlash(p) then p[..|p| - 1] else p;
      var q := ParentPath(t);
      if q == "/" then q else q + "/"
  }

  /** DirHandle::TransformPath without its length test. */
  function AsDir(p: string): (r: string)
    ensures EndsWithSlash(r)
  {
    if EndsWithSlash(p) then p else p + "/"
  }

  /** What set_file_name leaves in the 64-byte name field. */
  function StoredName(n: string): string {
    if |n| > MAX_FILE_NAME then n[..MAX_FILE_NAME] else n
  }
}
