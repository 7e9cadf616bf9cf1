// The decisions the command-line front end makes on its own: the log level
// chosen from the global flags, the restriction of user-supplied output
// paths to the working directory, and the required-field check of
// `validate`. Paths are modelled as sequences of components below the root
// (`/home/user` is ["home", "user"]); resolving the user's path against the
// file system (symbolic links, the process's working directory) is outside
// the model, so callers pass in the already resolved path.
module Cli {
  import opened Wrappers
  import opened PyValues

  // ---------------------------------------------------------------------
  // Log level
  // ---------------------------------------------------------------------

  /** The root logger's level: verbose wins over quiet. */
  function LogLevel(verbose: bool, quiet: bool): (level: string)
    ensures level == "DEBUG" <==> verbose
    ensures level == "ERROR" <==> !verbose && quiet
    ensures level == "INFO" <==> !verbose && !quiet
  {
    if verbose then "DEBUG" else if quiet then "ERROR" else "INFO"
  }

  /** Passing `--quiet` together with `--verbose` changes nothing. */
  lemma VerboseOverridesQuiet(quiet: bool)
    ensures LogLevel(true, quiet) == LogLevel(true, !quiet) == "DEBUG"
  {
  }

  // ---------------------------------------------------------------------
  // Paths
  // ---------------------------------------------------------------------

  /** An absolute path as its components below the root. */
  type Path = seq<string>

  /** A component as `Path.resolve()` leaves it: not empty, not `.` or `..`,
      and free of the separator. */
  predicate NormalName(name: string) {
    name != "" && name != "." && name != ".." && '/' !in name
  }

  /** A fully resolved path: every component is a normal name. */
  predicate Normal(p: Path) {
    forall i :: 0 <= i < |p| ==> NormalName(p[i])
  }

  /** `p.relative_to(dir)` succeeds: `dir` is a leading part of `p`. */
  predicate Under(p: Path, dir: Path) {
    |dir| <= |p| && p[..|dir|] == dir
  }

  /** `dir / name` for a name without separators: pathlib drops empty and
      `.` components but keeps `..` as written. */
  function Child(dir: Path, name: string): (p: Path)
    requires '/' !in name
    ensures name == "" || name == "." ==> p == dir
    ensures name != "" && name != "." ==> p == dir + [name]
  {
    if name == "" || name == "." then dir else dir + [name]
  }

  /** `os.path.basename`: the text after the last `/`. */
  function Basename(s: string): (b: string)
    ensures '/' !in b
    ensures |b| <= |s| && s[|s| - |b|..] == b
    ensures |b| < |s| ==> s[|s| - |b| - 1] == '/'
  {
    if s == [] then []
    else if s[|s| - 1] == '/' then []
    else Basename(s[..|s| - 1]) + [s[|s| - 1]]
  }

  /** The fallback file name: the basename with both kinds of separator
      replaced by `_`. */
  function SafeName(userPath: string): string {
    ReplaceAll(ReplaceAll(Basename(userPath), '/', "_"), '\\', "_")
  }

  /** Replacing one character never brings back another that was absent. */
  lemma {:induction false} ReplaceKeepsAbsent(s: string, c: char, rep: string, d: char)
    requires d !in s && d !in rep
    ensures d !in ReplaceAll(s, c, rep)
    decreases |s|
  {
    if s != [] {
      ReplaceKeepsAbsent(s[1..], c, rep, d);
    }
  }

  /** The fallback name contains neither separator. */
  lemma SafeNameHasNoSeparators(userPath: string)
    ensures '/' !in SafeName(userPath) && '\\' !in SafeName(userPath)
  {
    ReplaceKeepsAbsent(ReplaceAll(Basename(userPath), '/', "_"), '\\', "_", '/');
  }

  /** The fallback of `_safe_path`, as written: the name is joined to the
      working directory without resolving the result again. */
  function Fallback(cwd: Path, userPath: string): (p: Path)
    ensures Under(p, cwd) && |p| <= |cwd| + 1
    ensures forall i :: |cwd| <= i < |p| ==>
              '/' !in p[i] && '\\' !in p[i] && p[i] != "" && p[i] != "."
  {
    SafeNameHasNoSeparators(userPath);
    Child(cwd, SafeName(userPath))
  }

  /** `_safe_path(user_path)` given `resolved = Path(user_path).resolve()`
      and the resolved working directory. */
  function SafePath(resolved: Path, cwd: Path, userPath: string): (p: Path)
    ensures Under(resolved, cwd) ==> p == resolved
    ensures !Under(resolved, cwd) ==> p == Fallback(cwd, userPath)
  {
    if Under(resolved, cwd) then resolved else Fallback(cwd, userPath)
  }

  /** Whatever the input, the result starts with the working directory and,
      when the input escaped it, names at most one component more. */
  lemma SafePathUnderCwd(resolved: Path, cwd: Path, userPath: string)
    ensures Under(SafePath(resolved, cwd, userPath), cwd)
    ensures !Under(resolved, cwd) ==>
              SafePath(resolved, cwd, userPath) == cwd ||
              SafePath(resolved, cwd, userPath) == cwd + [SafeName(userPath)]
  {
  }

  /** Applying `_safe_path` to a path it already accepted changes nothing. */
  lemma SafePathKeepsInside(resolved: Path, cwd: Path, userPath: string, other: string)
    requires Under(resolved, cwd)
    ensures SafePath(SafePath(resolved, cwd, userPath), cwd, other) == resolved
  {
  }

  /** The path a sequence of components names once `..`, `.` and empty
      components are resolved lexically (`..` at the root stays at the root). */
  function Normalize(p: Path): (n: Path)
    requires forall i :: 0 <= i < |p| ==> '/' !in p[i]
    ensures Normal(n)
    ensures |n| <= |p|
  {
    if p == [] then []
    else
      var front := Normalize(p[..|p| - 1]);
      var last := p[|p| - 1];
      if last == "" || last == "." then front
      else if last == ".." then (if front == [] then [] else front[..|front| - 1])
      else front + [last]
  }

  /** A resolved path names itself. */
  lemma {:induction false} NormalizeNormal(p: Path)
    requires Normal(p)
    ensures Normalize(p) == p
  {
    if p != [] {
      NormalizeNormal(p[..|p| - 1]);
    }
  }

  /** As written, the user path `..` escapes: it resolves to the parent of
      the working directory, the fallback keeps `..` as its file name, and
      the returned path names the parent, outside the working directory. */
  lemma DotDotEscapes(cwd: Path)
    requires cwd != [] && Normal(cwd)
    ensures SafePath(cwd[..|cwd| - 1], cwd, "..") == cwd + [".."]
    ensures Normalize(SafePath(cwd[..|cwd| - 1], cwd, "..")) == cwd[..|cwd| - 1]
    ensures !Under(Normalize(SafePath(cwd[..|cwd| - 1], cwd, "..")), cwd)
  {
    var parent := cwd[..|cwd| - 1];
    assert !Under(parent, cwd);
    DotDotName();
    assert SafePath(parent, cwd, "..") == cwd + [".."];
    NormalizeUp(cwd);
  }

  /** A trailing `..` after a resolved path names its parent. */
  lemma NormalizeUp(cwd: Path)
    requires cwd != [] && Normal(cwd)
    ensures Normalize(cwd + [".."]) == cwd[..|cwd| - 1]
  {
    var p := cwd + [".."];
    assert p[..|p| - 1] == cwd;
    NormalizeNormal(cwd);
  }

  /** The basename of `..` is `..`, and no replacement touches it. */
  lemma DotDotName()
    ensures SafeName("..") == ".."
  {
    var b := Basename("..");
    assert Basename(".") == ".";
    assert b == "..";
    assert ReplaceAll(b, '/', "_") == b;
  }

  /** The fallback with `..` dropped, as it is for an empty basename. */
  function FixedFallback(cwd: Path, userPath: string): (p: Path)
    ensures SafeName(userPath) != ".." ==> p == Fallback(cwd, userPath)
    ensures SafeName(userPath) == ".." ==> p == cwd
  {
    SafeNameHasNoSeparators(userPath);
    var name := SafeName(userPath);
    Child(cwd, if name == ".." then "" else name)
  }

  /** `_safe_path` with the corrected fallback. */
  function FixedSafePath(resolved: Path, cwd: Path, userPath: string): (p: Path)
    ensures Under(resolved, cwd) ==> p == resolved
    ensures !Under(resolved, cwd) ==> p == FixedFallback(cwd, userPath)
  {
    if Under(resolved, cwd) then resolved else FixedFallback(cwd, userPath)
  }

  /** With the correction the returned path, once resolved, always lies in
      the working directory, as the function's documentation promises. */
  lemma FixedSafePathStaysInside(resolved: Path, cwd: Path, userPath: string)
    requires Normal(resolved) && Normal(cwd)
    ensures Under(Normalize(FixedSafePath(resolved, cwd, userPath)), cwd)
  {
    var p := FixedSafePath(resolved, cwd, userPath);
    if !Under(resolved, cwd) {
      SafeNameHasNoSeparators(userPath);
      assert Normal(p);
    }
    NormalizeNormal(p);
  }

  // ---------------------------------------------------------------------
  // validate
  // ---------------------------------------------------------------------

  const RequiredFields: seq<string> := ["vcenter_host", "username", "password"]

  /** `fields[i]` is falsy in `d` and every field before it is truthy. */
  predicate FirstFalsyAt(d: Dict, fields: seq<string>, i: int) {
    0 <= i < |fields| && !Truthy(Get(d, fields[i])) &&
    forall j :: 0 <= j < i ==> Truthy(Get(d, fields[j]))
  }

  /** The first of `fields` whose value in `d` is missing or falsy. */
  function FirstMissing(d: Dict, fields: seq<string>): (r: Option<string>)
    ensures r == None <==> forall i :: 0 <= i < |fields| ==> Truthy(Get(d, fields[i]))
    ensures r.Some? ==> exists i :: FirstFalsyAt(d, fields, i) && fields[i] == r.value
  {
    if fields == [] then None
    else if !Truthy(Get(d, fields[0])) then Some(fields[0])
    else
      var rest := FirstMissing(d, fields[1..]);
      if rest.None? then None
      else
        ghost var k :| FirstFalsyAt(d, fields[1..], k) && fields[1..][k] == rest.value;
        assert FirstFalsyAt(d, fields, k + 1);
        rest
  }

  /** `validate`'s configuration check: the name of the first missing
      required VMware field, or `None` when it passes. */
  function ValidateRequired(config: Dict): (missing: Option<string>)
    requires NestedIsDict(config, "vmware")
    ensures missing.Some? ==> missing.value in RequiredFields
    ensures missing == None <==>
              var vmware := GetOr(config, "vmware", VDict(map[])).entries;
              Truthy(Get(vmware, "vcenter_host")) && Truthy(Get(vmware, "username")) &&
              Truthy(Get(vmware, "password"))
    // the fields are checked in order, and the first falsy one is reported
    ensures var vmware := GetOr(config, "vmware", VDict(map[])).entries;
            !Truthy(Get(vmware, "vcenter_host")) ==> missing == Some("vcenter_host")
    ensures var vmware := GetOr(config, "vmware", VDict(map[])).entries;
            Truthy(Get(vmware, "vcenter_host")) && !Truthy(Get(vmware, "username")) ==>
              missing == Some("username")
    ensures var vmware := GetOr(config, "vmware", VDict(map[])).entries;
            (Truthy(Get(vmware, "vcenter_host")) && Truthy(Get(vmware, "username")) &&
             !Truthy(Get(vmware, "password"))) ==> missing == Some("password")
  {
    assert RequiredFields[0] == "vcenter_host" && RequiredFields[1] == "username" &&
      RequiredFields[2] == "password";
    FirstMissing(GetOr(config, "vmware", VDict(map[])).entries, RequiredFields)
  }

  /** A configuration without a `vmware` section fails on `vcenter_host`. */
  lemma NoVmwareSection(config: Dict)
    requires "vmware" !in config
    ensures ValidateRequired(config) == Some("vcenter_host")
  {
  }

  /** An empty password is reported only once host and user are present. */
  lemma EmptyPasswordReported(vmware: Dict)
    requires Truthy(Get(vmware, "vcenter_host")) && Truthy(Get(vmware, "username"))
    requires Get(vmware, "password") == VStr("")
    ensures ValidateRequired(map["vmware" := VDict(vmware)]) == Some("password")
  {
  }
}
