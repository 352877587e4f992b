/** The `Folder` helper: a named directory that, on a name collision the user
    accepts, is created as `path_copy_(i)` for the first free i below 20.
    `os.makedirs` becomes a set of existing paths; the yes/no dialog becomes
    the boolean `accept`. */
module FolderManager {
  import opened Outcomes

  datatype FolderError = FileExists   // `os.makedirs` on an existing path

  datatype Folder = Folder(name: string, path: string, children: set<Folder>)

  /** A constructed folder and the existing paths afterwards. */
  datatype Created = Created(folder: Folder, disk: set<string>)

  /** How many `_copy_(i)` candidates the constructor tries. */
  const Attempts := 20

  /** The decimal digits of `n`, as an f-string prints them. */
  function Decimal(n: nat): (s: string)
    ensures |s| >= 1
    ensures forall i :: 0 <= i < |s| ==> '0' <= s[i] <= '9'
    ensures n < 10 ==> |s| == 1
    ensures n >= 10 ==> |s| >= 2
  {
    var d := ['0' + (n % 10) as char];
    if n < 10 then d else Decimal(n / 10) + d
  }

  /** The number a string of decimal digits denotes. */
  function DigitsValue(s: string): nat
    requires forall i :: 0 <= i < |s| ==> '0' <= s[i] <= '9'
  {
    if s == [] then 0 else DigitsValue(s[..|s| - 1]) * 10 + (s[|s| - 1] - '0') as nat
  }

  /** Reading the printed index back gives the index, so distinct candidates
      carry distinct suffixes. */
  lemma {:induction false} DecimalRoundTrip(n: nat)
    ensures DigitsValue(Decimal(n)) == n
  {
    var s := Decimal(n);
    assert s[|s| - 1] == '0' + (n % 10) as char;
    if n >= 10 {
      assert s[..|s| - 1] == Decimal(n / 10);
      DecimalRoundTrip(n / 10);
    }
  }

  /** The text appended to a name and a path for the i-th candidate. */
  function CopySuffix(i: nat): string {
    "_copy_(" + Decimal(i) + ")"
  }

  /** `save_to_disk`: `os.makedirs` raises when the path already exists. */
  function MakeDirs(path: string, disk: set<string>): (r: Result<set<string>, FolderError>)
    ensures r.Ok? <==> path !in disk
    ensures r.Ok? ==> r.value == disk + {path}
  {
    if path in disk then Err(FileExists) else Ok(disk + {path})
  }

  /** `get_name`: writing back what it returns changes nothing. */
  function GetName(f: Folder): (r: string)
    ensures SetName(f, r) == f
  {
    f.name
  }

  /** `get_path`: writing back what it returns changes nothing. */
  function GetPath(f: Folder): (r: string)
    ensures SetPath(f, r) == f
  {
    f.path
  }

  function SetName(f: Folder, name: string): (r: Folder)
    ensures r.name == name && r.path == f.path && r.children == f.children
  {
    f.(name := name)
  }

  function SetPath(f: Folder, path: string): (r: Folder)
    ensures r.path == path && r.name == f.name && r.children == f.children
  {
    f.(path := path)
  }

  /** `get_children`: exactly the folders whose adding changes nothing. */
  function GetChildren(f: Folder): (r: set<Folder>)
    ensures forall c :: c in r <==> AddChild(f, c) == f
  {
    f.children
  }

  /** `add_child`: the children gain exactly `child`. */
  function AddChild(f: Folder, child: Folder): (r: Folder)
    ensures r.children == f.children + {child}
    ensures child in r.children && |r.children| <= |f.children| + 1
    ensures r.name == f.name && r.path == f.path
  {
    f.(children := f.children + {child})
  }

  /** Adding a child a second time changes nothing. */
  lemma AddChildIdempotent(f: Folder, child: Folder)
    ensures AddChild(AddChild(f, child), child) == AddChild(f, child)
  {
  }

  /** `path_copy_(k)` is free and every candidate before it is taken. */
  predicate FirstFreeCandidate(path: string, disk: set<string>, k: int) {
    && 0 <= k < Attempts
    && path + CopySuffix(k) !in disk
    && forall j :: 0 <= j < k ==> path + CopySuffix(j) in disk
  }

  /** Every one of the candidates `path_copy_(0)` .. `path_copy_(19)` exists. */
  predicate AllCandidatesTaken(path: string, disk: set<string>) {
    forall j :: 0 <= j < Attempts ==> path + CopySuffix(j) in disk
  }

  /** Unless every candidate is taken, exactly one candidate is the first free one. */
  lemma FirstFreeCandidateExists(path: string, disk: set<string>)
    requires !AllCandidatesTaken(path, disk)
    ensures exists k :: FirstFreeCandidate(path, disk, k)
    ensures forall k1, k2 :: FirstFreeCandidate(path, disk, k1) && FirstFreeCandidate(path, disk, k2) ==> k1 == k2
  {
    var free :| 0 <= free < Attempts && path + CopySuffix(free) !in disk;
    var k := 0;
    while path + CopySuffix(k) in disk
      invariant 0 <= k <= free
      invariant forall j :: 0 <= j < k ==> path + CopySuffix(j) in disk
      decreases free - k
    {
      k := k + 1;
    }
    assert FirstFreeCandidate(path, disk, k);
  }

  /** `Folder.__init__`. The first `makedirs` succeeds or raises; on a raise a
      declining user sees the error re-raised, an accepting one gets the
      candidate loop: each try appends the suffix to the saved name and path,
      and a failed try restores them before the next. */
  method NewFolder(name: string, path: string, disk: set<string>, accept: bool)
    returns (r: Result<Created, FolderError>)
    ensures path !in disk ==> r == Ok(Created(Folder(name, path, {}), disk + {path}))
    ensures path in disk && !accept ==> r == Err(FileExists)
    ensures path in disk && accept ==> r.Ok? && r.value.folder.children == {}
    ensures path in disk && accept ==> forall k :: FirstFreeCandidate(path, disk, k) ==>
      && r.value.folder.name == name + CopySuffix(k)
      && r.value.folder.path == path + CopySuffix(k)
      && r.value.disk == disk + {path + CopySuffix(k)}
    ensures path in disk && accept && AllCandidatesTaken(path, disk) ==>
      r.value.folder.name == name && r.value.folder.path == path && r.value.disk == disk
  {
    var f := Folder(name, path, {});
    var first := MakeDirs(f.path, disk);
    if first.Ok? {
      return Ok(Created(f, first.value));
    }
    if !accept {
      return Err(FileExists);
    }
    var current := disk;
    var i := 0;
    while i < Attempts
      invariant 0 <= i <= Attempts
      invariant f == Folder(name, path, {})
      invariant current == disk
      invariant forall j :: 0 <= j < i ==> path + CopySuffix(j) in disk
    {
      var oldName := GetName(f);
      var oldPath := GetPath(f);
      f := SetName(f, oldName + CopySuffix(i));
      f := SetPath(f, oldPath + CopySuffix(i));
      var attempt := MakeDirs(f.path, current);
      if attempt.Ok? {
        return Ok(Created(f, attempt.value));
      }
      f := SetName(f, oldName);
      f := SetPath(f, oldPath);
      i := i + 1;
    }
    return Ok(Created(f, current));
  }

  /** `os.path.join(a, b)` on POSIX: an absolute `b` replaces `a`; otherwise a
      separator is added unless `a` is empty or already ends with one. */
  function Join(a: string, b: string): (r: string)
    ensures |b| > 0 && b[0] == '/' ==> r == b
    ensures (|b| == 0 || b[0] != '/') ==> (a <= r && (r == a + b || r == a + "/" + b))
    ensures |b| <= |r| && r[|r| - |b|..] == b
  {
    if |b| > 0 && b[0] == '/' then b
    else if a == [] || a[|a| - 1] == '/' then a + b
    else a + "/" + b
  }

  /** The file name `f'{image_name}.{file_format}'`. */
  function FileName(imageName: string, fileFormat: string): (r: string)
    ensures |r| == |imageName| + 1 + |fileFormat|
    ensures r[..|imageName|] == imageName && r[|imageName|] == '.' && r[|imageName| + 1..] == fileFormat
  {
    imageName + "." + fileFormat
  }

  /** The module-level `save_image_to_folder`: the path the image is written
      to, inside `folderPath` unless the name is absolute. */
  function SaveImageToFolder(folderPath: string, imageName: string, fileFormat: string := "jpg"): (r: string)
    ensures var file := imageName + "." + fileFormat;
      && |file| <= |r| && r[|r| - |file|..] == file
      && ((|imageName| == 0 || imageName[0] != '/') ==> folderPath <= r)
  {
    Join(folderPath, FileName(imageName, fileFormat))
  }

  /** `Folder.save_image_to_folder`: the same path, always as JPEG. */
  function SaveImageToFolderOf(f: Folder, imageName: string): (r: string)
    ensures var file := imageName + ".jpg";
      && |file| <= |r| && r[|r| - |file|..] == file
      && ((|imageName| == 0 || imageName[0] != '/') ==> f.path <= r)
  {
    Join(f.path, imageName + ".jpg")
  }

  /** The method of a folder saves where the module function with its default
      format would. */
  lemma SaveMethodUsesDefaultFormat(f: Folder, imageName: string)
    ensures SaveImageToFolderOf(f, imageName) == SaveImageToFolder(f.path, imageName)
  {
    calc {
      SaveImageToFolder(f.path, imageName);
      Join(f.path, FileName(imageName, "jpg"));
      { assert FileName(imageName, "jpg") == imageName + ".jpg"; }
      Join(f.path, imageName + ".jpg");
      SaveImageToFolderOf(f, imageName);
    }
  }
}
