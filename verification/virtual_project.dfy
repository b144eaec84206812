/**
 * The in-memory project both diagram generators build before parsing: every
 * uploaded file is created at `/virtual/<originalname>` with overwriting
 * allowed, so a later upload with the same name replaces the earlier one.
 * What the parser then makes of the project is not modelled; only the
 * path-to-content map it is handed is.
 */
module VirtualProject {
  import opened JsString

  /** An uploaded (or downloaded) source file as the generators receive it. */
  datatype UploadedFile = UploadedFile(originalname: string, path: string, content: string)

  const VirtualRoot: string := "/virtual/"

  function VirtualPath(name: string): (p: string)
    ensures StartsWith(p, VirtualRoot) && p[|VirtualRoot|..] == name
  {
    VirtualRoot + name
  }

  /** Distinct names never share a virtual path. */
  lemma VirtualPathInjective(a: string, b: string)
    requires VirtualPath(a) == VirtualPath(b)
    ensures a == b
  {
    assert a == VirtualPath(a)[|VirtualRoot|..];
  }

  function NamesOf(files: seq<UploadedFile>): (paths: set<string>)
  {
    set i | 0 <= i < |files| :: VirtualPath(files[i].originalname)
  }

  /** The project after creating each file in turn, overwriting any file already at its path. */
  function ProjectOf(files: seq<UploadedFile>): (project: map<string, string>)
    ensures project.Keys == NamesOf(files)
  {
    if files == [] then map[]
    else
      var init := files[..|files| - 1];
      var last := files[|files| - 1];
      assert NamesOf(files) == NamesOf(init) + {VirtualPath(last.originalname)} by {
        forall p | p in NamesOf(files) ensures p in NamesOf(init) + {VirtualPath(last.originalname)} {
          var i :| 0 <= i < |files| && p == VirtualPath(files[i].originalname);
          if i < |files| - 1 { assert files[i] == init[i]; }
        }
        forall p | p in NamesOf(init) ensures p in NamesOf(files) {
          var i :| 0 <= i < |init| && p == VirtualPath(init[i].originalname);
          assert init[i] == files[i];
        }
      }
      ProjectOf(init)[VirtualPath(last.originalname) := last.content]
  }

  /** The loop that creates the source files one by one (`overwrite: true`). */
  method BuildProject(files: seq<UploadedFile>) returns (project: map<string, string>)
    ensures project == ProjectOf(files)
  {
    project := map[];
    var i := 0;
    while i < |files|
      invariant 0 <= i <= |files|
      invariant project == ProjectOf(files[..i])
    {
      assert files[..i + 1][..i] == files[..i];
      project := project[VirtualPath(files[i].originalname) := files[i].content];
      i := i + 1;
    }
    assert files[..|files|] == files;
  }

  /** The last file uploaded under a name is the one the project holds under that name. */
  lemma {:induction false} LastUploadWins(files: seq<UploadedFile>, i: nat)
    requires i < |files|
    requires forall j :: i < j < |files| ==> files[j].originalname != files[i].originalname
    ensures VirtualPath(files[i].originalname) in ProjectOf(files)
    ensures ProjectOf(files)[VirtualPath(files[i].originalname)] == files[i].content
  {
    var init := files[..|files| - 1];
    var last := files[|files| - 1];
    if i < |files| - 1 {
      assert init[i] == files[i];
      forall j | i < j < |init| ensures init[j].originalname != init[i].originalname {
        assert init[j] == files[j];
      }
      LastUploadWins(init, i);
      if VirtualPath(last.originalname) == VirtualPath(files[i].originalname) {
        VirtualPathInjective(last.originalname, files[i].originalname);
      }
    }
  }
}
