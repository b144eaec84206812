/**
 * The file-selection rules of the GitHub import: reading owner and repository
 * from a URL's path, the whitelist of source-file extensions (with Node's
 * `path.extname` rules), the size and count limits on the downloaded batch,
 * and the depth-bounded walk over the repository's contents listing.
 *
 * The GitHub contents API is a parameter: a function from the request URL and
 * the branch to either a listing, a single item, or a failure message.
 */
module GithubService {
  import opened Wrappers
  import opened JsString

  /** 500 KiB: the largest accepted total size of the downloaded files. */
  const MaxTotalSize: nat := 500 * 1024
  /** The largest accepted number of downloaded files. */
  const MaxFiles: nat := 20
  /** The default bound on directory nesting for the walk. */
  const DefaultMaxDepth: nat := 3
  /** The default sub-directory the walk starts from. */
  const DefaultCodePath: string := "./src"

  const InvalidUrlMessage: string := "Invalid GitHub repository URL"
  const ApiRoot: string := "https://api.github.com/repos/"
  const GitSuffix: string := ".git"

  // ---------------------------------------------------------------------------
  // Owner and repository from the URL path
  // ---------------------------------------------------------------------------

  datatype RepoRef = RepoRef(owner: string, repo: string)

  /** `filter(Boolean)` on strings: the non-empty ones, in order. */
  function NonEmpty(parts: seq<string>): (r: seq<string>)
    ensures |r| <= |parts|
    ensures forall k :: 0 <= k < |r| ==> r[k] != [] && r[k] in parts
  {
    if parts == [] then []
    else if parts[0] == [] then NonEmpty(parts[1..])
    else [parts[0]] + NonEmpty(parts[1..])
  }

  /**
   * The owner and repository named by a repository URL. `pathname` is the
   * path of the parsed URL, or None when the text is not a URL at all; both
   * that and a path with fewer than two non-empty segments are rejected with
   * the same message.
   */
  function ParseRepoUrl(pathname: Option<string>): (r: Result<RepoRef, string>)
    ensures r.Failure? ==> r.error == InvalidUrlMessage
    ensures r.Success? ==> r.value.owner != [] && '/' !in r.value.owner
    ensures r.Success? ==> r.value.repo != [] && '/' !in r.value.repo
  {
    match pathname
    case None => Failure(InvalidUrlMessage)
    case Some(p) =>
      var parts := NonEmpty(Split(p, '/'));
      if |parts| < 2 then Failure(InvalidUrlMessage)
      else Success(RepoRef(parts[0], parts[1]))
  }

  lemma SplitWithoutSeparator(a: string, c: char)
    requires c !in a
    ensures Split(a, c) == [a]
  {
    if a != [] {
      SplitWithoutSeparator(a[1..], c);
      assert [a[0]] + a[1..] == a;
    }
  }

  /**
   * The path `/owner/repo` followed by nothing or by further segments names
   * that owner and repository, whatever those further segments are.
   */
  lemma ParseRepoUrlReadsFirstSegments(owner: string, repo: string, more: string)
    requires owner != [] && '/' !in owner
    requires repo != [] && '/' !in repo
    requires more == [] || more[0] == '/'
    ensures ParseRepoUrl(Some("/" + owner + "/" + repo + more)) == Success(RepoRef(owner, repo))
  {
    var p := "/" + owner + "/" + repo + more;
    assert p == [] + ['/'] + (owner + ['/'] + (repo + more));
    SplitAfterPiece([], '/', owner + ['/'] + (repo + more));
    SplitAfterPiece(owner, '/', repo + more);
    var tail: seq<string>;
    if more == [] {
      assert repo + more == repo;
      SplitWithoutSeparator(repo, '/');
      tail := [repo];
    } else {
      assert repo + more == repo + ['/'] + more[1..];
      SplitAfterPiece(repo, '/', more[1..]);
      tail := [repo] + Split(more[1..], '/');
    }
    assert Split(p, '/') == [[]] + ([owner] + tail);
    assert NonEmpty(Split(p, '/')) == NonEmpty([owner] + tail);
    assert ([owner] + tail)[1..] == tail;
    assert NonEmpty(Split(p, '/'))[0] == owner;
    assert tail[1..] == tail[1..];
    assert NonEmpty(tail)[0] == repo;
  }

  /** A path holding a single segment is not a repository. */
  lemma OwnerAloneIsInvalid(owner: string)
    requires '/' !in owner
    ensures ParseRepoUrl(Some("/" + owner)) == Failure(InvalidUrlMessage)
  {
    assert "/" + owner == [] + ['/'] + owner;
    SplitAfterPiece([], '/', owner);
    SplitWithoutSeparator(owner, '/');
    assert Split("/" + owner, '/') == [[], owner];
    assert NonEmpty([[], owner]) == NonEmpty([owner]);
  }

  // ---------------------------------------------------------------------------
  // The `.git` strip in the request URLs
  // ---------------------------------------------------------------------------

  /** `repo.replace('.git', '')` as written: removes the FIRST occurrence, wherever it is. */
  function StripGitAsWritten(repo: string): (r: string)
    ensures IndexOf(repo, GitSuffix) == -1 ==> r == repo
    ensures IndexOf(repo, GitSuffix) != -1 ==> |r| + 4 == |repo|
  {
    var i := IndexOf(repo, GitSuffix);
    if i == -1 then repo else repo[..i] + repo[i + 4..]
  }

  /** With no dot before it, the first `.git` is the one right after the dot-free prefix. */
  lemma StripGitAsWrittenCutsFirst(a: string, b: string)
    requires '.' !in a
    ensures StripGitAsWritten(a + GitSuffix + b) == a + b
  {
    var s := a + GitSuffix + b;
    assert OccursAt(s, GitSuffix, |a|) by {
      assert s[|a|..|a| + 4] == GitSuffix;
    }
    forall i | 0 <= i < |a| ensures !OccursAt(s, GitSuffix, i) {
      assert s[i] == a[i];
    }
    assert s[..|a|] == a;
    assert s[|a| + 4..] == b;
  }

  /**
   * A GitHub Pages repository such as `octocat.github.io` loses the `.git`
   * inside its name, so the request goes to a repository that does not exist.
   */
  lemma PagesRepositoryIsMangled()
    ensures StripGitAsWritten("octocat.github.io") == "octocathub.io"
  {
    var owner, rest := "octocat", "hub.io";
    assert '.' !in owner;
    assert owner + GitSuffix + rest == "octocat.github.io";
    StripGitAsWrittenCutsFirst(owner, rest);
    assert owner + rest == "octocathub.io";
  }

  predicate EndsWithGit(repo: string)
  {
    |repo| >= 4 && repo[|repo| - 4..] == GitSuffix
  }

  /** The evidently intended strip: only a trailing `.git` (a clone URL) is removed. */
  function StripGitSuffix(repo: string): (r: string)
    ensures EndsWithGit(repo) ==> r + GitSuffix == repo
    ensures !EndsWithGit(repo) ==> r == repo
  {
    if EndsWithGit(repo) then repo[..|repo| - 4] else repo
  }

  /** The clone-URL name and the plain name lead to the same repository. */
  lemma StripGitSuffixOfCloneName(name: string)
    ensures StripGitSuffix(name + GitSuffix) == name
  {
    assert (name + GitSuffix)[|name|..] == GitSuffix;
    assert (name + GitSuffix)[..|name|] == name;
  }

  /** The Pages name, which does not end in `.git`, is left alone by the corrected strip. */
  lemma PagesRepositoryIsKept()
    ensures StripGitSuffix("octocat.github.io") == "octocat.github.io"
    ensures StripGitSuffix("octocat.github.io") != StripGitAsWritten("octocat.github.io")
  {
    assert "octocat.github.io"[13..] == "b.io";
    PagesRepositoryIsMangled();
  }

  // ---------------------------------------------------------------------------
  // Path normalisation and request URLs
  // ---------------------------------------------------------------------------

  /** A leading `./` is removed, once. */
  function NormalizePath(path: string): (r: string)
    ensures StartsWith(path, "./") ==> "./" + r == path
    ensures !StartsWith(path, "./") ==> r == path
  {
    if StartsWith(path, "./") then path[2..] else path
  }

  /** Only one `./` is removed, so `././a` becomes `./a`. */
  lemma NormalizeStripsOnce(p: string)
    ensures NormalizePath("./" + p) == p
  {
    assert ("./" + p)[..2] == "./";
    assert ("./" + p)[2..] == p;
  }

  /** A path that does not begin with `./` is used as it is. */
  lemma NormalizeKeepsPlainPath(p: string)
    requires p == [] || p[0] != '.'
    ensures NormalizePath(p) == p
  {
  }

  /** The URL of the contents request for one path of the repository: the owner's API root, and the path at the end. */
  function ContentsUrl(owner: string, repo: string, normalizedPath: string): (u: string)
    ensures StartsWith(u, ApiRoot + owner + "/")
    ensures |u| >= |normalizedPath| && u[|u| - |normalizedPath|..] == normalizedPath
  {
    ApiRoot + owner + "/" + StripGitSuffix(repo) + "/contents/" + normalizedPath
  }

  /** A clone URL and a plain repository name request the same contents. */
  lemma ContentsUrlIgnoresCloneSuffix(owner: string, name: string, path: string)
    requires !EndsWithGit(name)
    ensures ContentsUrl(owner, name + GitSuffix, path) == ContentsUrl(owner, name, path)
  {
    StripGitSuffixOfCloneName(name);
  }

  // ---------------------------------------------------------------------------
  // File types
  // ---------------------------------------------------------------------------

  /** The path with its trailing slashes removed. */
  function DropTrailingSlashes(path: string): (r: string)
  {
    if path != [] && path[|path| - 1] == '/' then DropTrailingSlashes(path[..|path| - 1]) else path
  }

  /** Where the last segment of `t[..i]` begins: just after its last slash, or 0. */
  function SegmentStart(t: string, i: nat): (r: nat)
    requires i <= |t|
    ensures r <= i
  {
    if i == 0 then 0 else if t[i - 1] == '/' then i else SegmentStart(t, i - 1)
  }

  /** The index of the last dot in `b[..i]`, or -1. */
  function LastDot(b: string, i: nat): (k: int)
    requires i <= |b|
    ensures -1 <= k < i
  {
    if i == 0 then -1 else if b[i - 1] == '.' then i - 1 else LastDot(b, i - 1)
  }

  /** The last segment of the path, trailing slashes ignored (Node's `path.basename`, posix). */
  function BaseName(path: string): string
  {
    var t := DropTrailingSlashes(path);
    t[SegmentStart(t, |t|)..]
  }

  /**
   * Node's `path.extname` (posix): from the last dot of the last segment to
   * its end; the empty string when that segment has no dot, when its last
   * dot is its first character (a dotfile such as `.bashrc`), or when it is `..`.
   */
  function ExtName(path: string): (e: string)
    ensures |e| <= |path|
    ensures e != [] ==> e[0] == '.'
  {
    var b := BaseName(path);
    var k := LastDot(b, |b|);
    LastDotSpec(b, |b|);
    DropTrailingSlashesSpec(path);
    if k <= 0 || b == ".." then "" else b[k..]
  }

  lemma {:induction false} DropTrailingSlashesSpec(path: string)
    ensures var r := DropTrailingSlashes(path);
            |r| <= |path| && r == path[..|r|] && (r == [] || r[|r| - 1] != '/')
    ensures (path == [] || path[|path| - 1] != '/') ==> DropTrailingSlashes(path) == path
  {
    if path != [] && path[|path| - 1] == '/' {
      DropTrailingSlashesSpec(path[..|path| - 1]);
    }
  }

  lemma {:induction false} SegmentStartSpec(t: string, i: nat)
    requires i <= |t|
    ensures var r := SegmentStart(t, i);
            r <= i && (r > 0 ==> t[r - 1] == '/') && forall j :: r <= j < i ==> t[j] != '/'
  {
    if i > 0 && t[i - 1] != '/' {
      SegmentStartSpec(t, i - 1);
    }
  }

  lemma {:induction false} LastDotSpec(b: string, i: nat)
    requires i <= |b|
    ensures var k := LastDot(b, i);
            -1 <= k < i && (k >= 0 ==> b[k] == '.') && forall j :: k < j < i ==> b[j] != '.'
  {
    if i > 0 && b[i - 1] != '.' {
      LastDotSpec(b, i - 1);
    }
  }

  /** The base name holds no slash, and every character of it comes from the path. */
  lemma BaseNameWithinPath(path: string)
    ensures '/' !in BaseName(path)
    ensures forall j :: 0 <= j < |BaseName(path)| ==> BaseName(path)[j] in path
  {
    var t := DropTrailingSlashes(path);
    DropTrailingSlashesSpec(path);
    SegmentStartSpec(t, |t|);
    var st := SegmentStart(t, |t|);
    var b := BaseName(path);
    forall j | 0 <= j < |b| ensures b[j] != '/' && b[j] in path {
      assert b[j] == t[st + j] == path[st + j];
    }
  }

  /** The extension is empty or begins with its dot, and never holds a slash. */
  lemma ExtNameShape(path: string)
    ensures var e := ExtName(path); (e == [] || e[0] == '.') && '/' !in e
  {
    var b := BaseName(path);
    BaseNameWithinPath(path);
    LastDotSpec(b, |b|);
  }

  lemma BaseNameOfPlainName(name: string)
    requires '/' !in name
    ensures BaseName(name) == name
  {
    DropTrailingSlashesSpec(name);
    SegmentStartSpec(name, |name|);
  }

  /** The 25 accepted extensions, in lower case. */
  const ValidExtensions: seq<string> := [
    ".js", ".jsx", ".ts", ".tsx", ".java", ".py", ".html", ".css", ".json", ".md",
    ".php", ".go", ".rb", ".rs", ".c", ".cpp", ".h", ".hpp", ".cs", ".swift",
    ".kt", ".kts", ".scala", ".sh", ".bash"]

  /** `validExtensions.includes(ext)`, looking from position `i` on. */
  predicate ListedFrom(ext: string, i: nat)
    decreases |ValidExtensions| - i
  {
    i < |ValidExtensions| && (ValidExtensions[i] == ext || ListedFrom(ext, i + 1))
  }

  lemma {:induction false} ListedFromIff(ext: string, i: nat)
    ensures ListedFrom(ext, i) <==> exists k :: i <= k < |ValidExtensions| && ValidExtensions[k] == ext
    decreases |ValidExtensions| - i
  {
    if i < |ValidExtensions| {
      ListedFromIff(ext, i + 1);
      if ValidExtensions[i] != ext {
        forall k | i <= k < |ValidExtensions| && ValidExtensions[k] == ext
          ensures i + 1 <= k
        {
        }
      }
    }
  }

  /** `isValidFileType`; an accepted name always has an extension, a dot and at least one more character. */
  predicate IsValidFileType(filename: string)
    ensures IsValidFileType(filename) ==> |ExtName(filename)| >= 2
  {
    ListedFromIff(ToLower(ExtName(filename)), 0);
    assert forall x :: x in ValidExtensions ==> |x| >= 2;
    ListedFrom(ToLower(ExtName(filename)), 0)
  }

  /** A file is accepted exactly when its lower-cased extension is one of the 25. */
  lemma ValidFileTypeIff(filename: string)
    ensures IsValidFileType(filename) <==> ToLower(ExtName(filename)) in ValidExtensions
  {
    ListedFromIff(ToLower(ExtName(filename)), 0);
  }

  /** A name with no dot has no extension and is never accepted. */
  lemma NoExtensionIsInvalid(name: string)
    requires '.' !in name
    ensures ExtName(name) == ""
    ensures !IsValidFileType(name)
  {
    var b := BaseName(name);
    BaseNameWithinPath(name);
    LastDotSpec(b, |b|);
    assert ToLower("") == "";
    ValidFileTypeIff(name);
  }

  /**
   * For a file name `stem + ext` with a dot-free, non-empty stem and an
   * extension made of one dot and no other, the extension decides: the name
   * is accepted exactly when the lower-cased extension is listed.
   */
  lemma ExtensionDecides(stem: string, ext: string)
    requires stem != [] && '.' !in stem && '/' !in stem
    requires |ext| >= 1 && ext[0] == '.' && '.' !in ext[1..] && '/' !in ext
    ensures ExtName(stem + ext) == ext
    ensures IsValidFileType(stem + ext) <==> ToLower(ext) in ValidExtensions
  {
    var b := stem + ext;
    assert '/' !in b by {
      forall j | 0 <= j < |b| ensures b[j] != '/' {
        if j >= |stem| { assert b[j] == ext[j - |stem|]; }
      }
    }
    BaseNameOfPlainName(b);
    LastDotSpec(b, |b|);
    var k := LastDot(b, |b|);
    forall j | |stem| < j < |b| ensures b[j] != '.' {
      assert b[j] == ext[1..][j - |stem| - 1];
    }
    assert b[|stem|] == '.';
    assert k == |stem|;
    assert b != ".." by { assert b[0] == stem[0]; }
    assert b[k..] == ext;
    ValidFileTypeIff(b);
  }

  /** A dotfile with no second dot, `.ts` say, has no extension, so it is never accepted. */
  lemma DotfileIsInvalid(rest: string)
    requires '.' !in rest && '/' !in rest
    ensures ExtName("." + rest) == ""
    ensures !IsValidFileType("." + rest)
  {
    var b := "." + rest;
    assert '/' !in b;
    BaseNameOfPlainName(b);
    LastDotSpec(b, |b|);
    forall j | 0 < j < |b| ensures b[j] != '.' {
      assert b[j] == rest[j - 1];
    }
    assert b[0] == '.';
    assert LastDot(b, |b|) == 0;
    assert ToLower("") == "";
    ValidFileTypeIff(b);
  }

  /** `.\u212At` lower-cases to `.kt`, so a Kotlin file written with the Kelvin sign is accepted. */
  lemma KelvinExtensionAccepted()
    ensures IsValidFileType("Main" + ['.', KelvinSign, 't'])
  {
    var ext := ['.', KelvinSign, 't'];
    KelvinExtensionShape(ext);
    ExtensionDecides("Main", ext);
    KelvinLowersToKt(ext);
  }

  lemma KelvinExtensionShape(ext: string)
    requires ext == ['.', KelvinSign, 't']
    ensures |ext| >= 1 && ext[0] == '.' && '.' !in ext[1..] && '/' !in ext
  {
    assert ext[1..] == [KelvinSign, 't'];
  }

  lemma KelvinLowersToKt(ext: string)
    requires ext == ['.', KelvinSign, 't']
    ensures ToLower(ext) in ValidExtensions
  {
    var low := ToLower(ext);
    assert low[0] == '.' && low[1] == 'k' && low[2] == 't';
    assert low == ValidExtensions[20];
  }

  /** Upper-case extensions are accepted like lower-case ones. */
  lemma ExtensionCaseIgnored(stem: string, ext: string)
    requires stem != [] && '.' !in stem && '/' !in stem
    requires |ext| >= 1 && ext[0] == '.' && '.' !in ext[1..] && '/' !in ext
    ensures IsValidFileType(stem + ext) <==> IsValidFileType(stem + ToLower(ext))
  {
    var low := ToLower(ext);
    assert low[0] == '.';
    assert '.' !in low[1..] by {
      forall j | 0 <= j < |low| - 1 ensures low[1..][j] != '.' {
        assert low[1..][j] == LowerChar(ext[1..][j]);
      }
    }
    assert '/' !in low by {
      forall j | 0 <= j < |low| ensures low[j] != '/' {
        assert low[j] == LowerChar(ext[j]);
      }
    }
    ExtensionDecides(stem, ext);
    ExtensionDecides(stem, low);
    ToLowerIdempotent(ext);
  }

  // ---------------------------------------------------------------------------
  // The downloaded batch and its limits
  // ---------------------------------------------------------------------------

  /** One downloaded file; `size` is the byte length of its UTF-8 content. */
  datatype DownloadedFile = DownloadedFile(originalname: string, path: string, content: string, size: nat)

  /** `files.reduce((total, file) => total + file.size, 0)`. */
  function CalculateTotalSize(files: seq<DownloadedFile>): (total: nat)
    ensures files == [] ==> total == 0
    ensures forall k :: 0 <= k < |files| ==> files[k].size <= total
  {
    if files == [] then 0
    else
      var init := CalculateTotalSize(files[..|files| - 1]);
      assert forall k :: 0 <= k < |files| - 1 ==> files[..|files| - 1][k] == files[k];
      init + files[|files| - 1].size
  }

  /** The total of a concatenated batch is the sum of the totals of its halves. */
  lemma {:induction false} TotalSizeAppend(a: seq<DownloadedFile>, b: seq<DownloadedFile>)
    ensures CalculateTotalSize(a + b) == CalculateTotalSize(a) + CalculateTotalSize(b)
    decreases |b|
  {
    if b == [] {
      assert a + b == a;
    } else {
      assert (a + b)[..|a + b| - 1] == a + b[..|b| - 1];
      TotalSizeAppend(a, b[..|b| - 1]);
    }
  }

  /** The two rejections, with the figures they carry. */
  datatype LimitError =
    | SizeTooLarge(totalSize: nat, maxSize: nat)
    | TooManyFiles(fileCount: nat, maxFiles: nat)

  /** The size limit is checked first, then the count limit; a batch within both passes through. */
  function CheckLimits(files: seq<DownloadedFile>): (r: Result<seq<DownloadedFile>, LimitError>)
    ensures r.Success? ==> r.value == files && CalculateTotalSize(files) <= MaxTotalSize && |files| <= MaxFiles
  {
    var total := CalculateTotalSize(files);
    if total > MaxTotalSize then Failure(SizeTooLarge(total, MaxTotalSize))
    else if |files| > MaxFiles then Failure(TooManyFiles(|files|, MaxFiles))
    else Success(files)
  }

  /** The batch is accepted, unchanged, exactly when it is within both limits. */
  lemma LimitsAdmitExactly(files: seq<DownloadedFile>)
    ensures CheckLimits(files).Success? <==>
            CalculateTotalSize(files) <= 512000 && |files| <= 20
    ensures CheckLimits(files).Success? ==> CheckLimits(files).value == files
  {
  }

  /** An oversized batch is reported as oversized even when it also has too many files. */
  lemma SizeCheckedFirst(files: seq<DownloadedFile>)
    requires CalculateTotalSize(files) > MaxTotalSize
    ensures CheckLimits(files) == Failure(SizeTooLarge(CalculateTotalSize(files), 512000))
  {
  }

  /** The count rejection carries the count and happens only for a batch within the size limit. */
  lemma CountCheckedSecond(files: seq<DownloadedFile>)
    ensures CheckLimits(files).Failure? && CheckLimits(files).error.TooManyFiles? <==>
            CalculateTotalSize(files) <= MaxTotalSize && |files| > 20
    ensures CheckLimits(files).Failure? && CheckLimits(files).error.TooManyFiles? ==>
            CheckLimits(files).error == TooManyFiles(|files|, 20)
  {
  }

  /** Dropping files from the end of an accepted batch keeps it accepted. */
  lemma AcceptedPrefixAccepted(a: seq<DownloadedFile>, b: seq<DownloadedFile>)
    requires CheckLimits(a + b).Success?
    ensures CheckLimits(a).Success?
  {
    TotalSizeAppend(a, b);
  }

  // ---------------------------------------------------------------------------
  // The walk over the contents listing
  // ---------------------------------------------------------------------------

  datatype ItemType = FileItem | DirItem | OtherItem

  /** An entry of a contents listing: its name, its path in the repository and its type. */
  datatype ContentItem = ContentItem(name: string, path: string, itemType: ItemType)

  /** What the contents request answers: a directory listing, one item, or a failure message. */
  datatype ContentsResponse =
    | Listing(items: seq<ContentItem>)
    | Single(item: ContentItem)
    | RequestFailed(message: string)

  /** The contents API: request URL and branch to response. */
  type ContentsApi = (string, string) -> ContentsResponse

  const PathErrorPrefix: string := "Error fetching files from path "

  /** The message a failure under `path` is re-raised with; a nested failure gains one prefix per level. */
  function PathError(path: string, message: string): string
  {
    PathErrorPrefix + path + ": " + message
  }

  /** An item the walk keeps as a file. */
  predicate Kept(item: ContentItem)
  {
    item.itemType == FileItem && IsValidFileType(item.name)
  }

  /**
   * The files under `path` at nesting `depth`: nothing when the depth bound is
   * passed; otherwise the kept items of the listing in order, with each
   * sub-directory's files in its place, or the single kept item; any failure
   * below is re-raised with this path's prefix.
   */
  function Collect(api: ContentsApi, owner: string, repo: string, path: string, branch: string,
                   maxDepth: nat, depth: nat): (r: Result<seq<ContentItem>, string>)
    ensures r.Success? ==> AllKept(r.value)
    decreases maxDepth + 1 - depth, 1, 0
  {
    if depth > maxDepth then Success([])
    else
      match api(ContentsUrl(owner, repo, NormalizePath(path)), branch)
      case RequestFailed(message) => Failure(PathError(path, message))
      case Single(item) => Success(if Kept(item) then [item] else [])
      case Listing(items) =>
        match CollectItems(api, owner, repo, items, branch, maxDepth, depth)
        case Success(files) => Success(files)
        case Failure(message) => Failure(PathError(path, message))
  }

  /** What one entry of a listing at `depth` contributes: itself if kept, a sub-directory's walk one level deeper, or nothing. */
  function ItemFiles(api: ContentsApi, owner: string, repo: string, item: ContentItem,
                     branch: string, maxDepth: nat, depth: nat): (r: Result<seq<ContentItem>, string>)
    requires depth <= maxDepth
    ensures r.Success? ==> AllKept(r.value)
    decreases maxDepth + 1 - depth, 0, 0
  {
    if Kept(item) then Success([item])
    else if item.itemType == DirItem then Collect(api, owner, repo, item.path, branch, maxDepth, depth + 1)
    else Success([])
  }

  /** The files of one listing at `depth`, the first failure in listing order aborting the rest. */
  function CollectItems(api: ContentsApi, owner: string, repo: string, items: seq<ContentItem>,
                        branch: string, maxDepth: nat, depth: nat): (r: Result<seq<ContentItem>, string>)
    requires depth <= maxDepth
    ensures r.Success? ==> AllKept(r.value)
    decreases maxDepth + 1 - depth, 0, |items|
  {
    if items == [] then Success([])
    else
      match CollectItems(api, owner, repo, items[..|items| - 1], branch, maxDepth, depth)
      case Failure(message) => Failure(message)
      case Success(files) =>
        match ItemFiles(api, owner, repo, items[|items| - 1], branch, maxDepth, depth)
        case Failure(message) => Failure(message)
        case Success(more) =>
          AllKeptAppend(files, more);
          Success(files + more)
  }

  /**
   * `fetchFilesRecursively`: the loop over the listing pushes each kept file
   * and splices in each sub-directory's files.
   */
  method FetchFilesRecursively(api: ContentsApi, owner: string, repo: string, path: string, branch: string,
                               maxDepth: nat, depth: nat)
    returns (r: Result<seq<ContentItem>, string>)
    ensures r == Collect(api, owner, repo, path, branch, maxDepth, depth)
    decreases maxDepth + 1 - depth, 1
  {
    if depth > maxDepth {
      return Success([]);
    }
    var url := ContentsUrl(owner, repo, NormalizePath(path));
    var response := api(url, branch);
    match response {
      case RequestFailed(message) =>
        return Failure(PathError(path, message));
      case Single(item) =>
        var files: seq<ContentItem> := [];
        if Kept(item) {
          files := files + [item];
          assert files == [item];
        }
        return Success(files);
      case Listing(items) =>
        var files: seq<ContentItem> := [];
        var i := 0;
        while i < |items|
          invariant 0 <= i <= |items|
          invariant CollectItems(api, owner, repo, items[..i], branch, maxDepth, depth) == Success(files)
        {
          var next := FetchItem(api, owner, repo, items[i], branch, maxDepth, depth);
          CollectItemsNext(api, owner, repo, items, branch, maxDepth, depth, i);
          if next.Failure? {
            CollectItemsStops(api, owner, repo, items, branch, maxDepth, depth, i + 1);
            return Failure(PathError(path, next.error));
          }
          files := files + next.value;
          i := i + 1;
        }
        assert items[..|items|] == items;
        return Success(files);
    }
  }

  /**
   * The body of the listing loop for one entry: a kept file is pushed, a
   * sub-directory is walked one level deeper, anything else is skipped.
   */
  method FetchItem(api: ContentsApi, owner: string, repo: string, item: ContentItem, branch: string,
                   maxDepth: nat, depth: nat)
    returns (r: Result<seq<ContentItem>, string>)
    requires depth <= maxDepth
    ensures r == ItemFiles(api, owner, repo, item, branch, maxDepth, depth)
    decreases maxDepth + 1 - depth, 0
  {
    if Kept(item) {
      r := Success([item]);
    } else if item.itemType == DirItem {
      r := FetchFilesRecursively(api, owner, repo, item.path, branch, maxDepth, depth + 1);
    } else {
      r := Success([]);
    }
  }

  /** One more entry of the listing: its contribution is appended, or its failure ends the walk. */
  lemma CollectItemsNext(api: ContentsApi, owner: string, repo: string, items: seq<ContentItem>,
                         branch: string, maxDepth: nat, depth: nat, i: nat)
    requires depth <= maxDepth && i < |items|
    requires CollectItems(api, owner, repo, items[..i], branch, maxDepth, depth).Success?
    ensures var done := CollectItems(api, owner, repo, items[..i], branch, maxDepth, depth).value;
            var next := ItemFiles(api, owner, repo, items[i], branch, maxDepth, depth);
            CollectItems(api, owner, repo, items[..i + 1], branch, maxDepth, depth)
            == if next.Failure? then Failure(next.error) else Success(done + next.value)
  {
    assert items[..i + 1][..i] == items[..i];
  }

  /** Once a prefix of the listing fails, the whole listing fails with the same message. */
  lemma {:induction false} CollectItemsStops(api: ContentsApi, owner: string, repo: string, items: seq<ContentItem>,
                                             branch: string, maxDepth: nat, depth: nat, n: nat)
    requires depth <= maxDepth && n <= |items|
    requires CollectItems(api, owner, repo, items[..n], branch, maxDepth, depth).Failure?
    ensures CollectItems(api, owner, repo, items, branch, maxDepth, depth)
            == CollectItems(api, owner, repo, items[..n], branch, maxDepth, depth)
    decreases |items| - n
  {
    if n < |items| {
      assert items[..n + 1][..n] == items[..n];
      CollectItemsStops(api, owner, repo, items, branch, maxDepth, depth, n + 1);
    } else {
      assert items[..n] == items;
    }
  }

  /** Past the depth bound nothing is requested and nothing is returned. */
  /**
   * With the defaults, the walk asks for `src`, and a sub-directory listed at
   * the deepest level is not descended into: it contributes nothing.
   */
  lemma DefaultWalk(api: ContentsApi, owner: string, repo: string, branch: string, item: ContentItem)
    requires item.itemType == DirItem
    ensures ContentsUrl(owner, repo, NormalizePath(DefaultCodePath)) == ContentsUrl(owner, repo, "src")
    ensures ItemFiles(api, owner, repo, item, branch, DefaultMaxDepth, DefaultMaxDepth) == Success([])
  {
    assert DefaultCodePath[..2] == "./" && DefaultCodePath[2..] == "src";
    DepthBoundStopsWalk(api, owner, repo, item.path, branch, DefaultMaxDepth, DefaultMaxDepth + 1);
  }

  lemma DepthBoundStopsWalk(api: ContentsApi, owner: string, repo: string, path: string, branch: string,
                            maxDepth: nat, depth: nat)
    requires depth > maxDepth
    ensures Collect(api, owner, repo, path, branch, maxDepth, depth) == Success([])
  {
  }

  /** Every file the walk returns is a file item of an accepted type. */
  lemma {:induction false} CollectKeepsValidFiles(api: ContentsApi, owner: string, repo: string, path: string,
                                                  branch: string, maxDepth: nat, depth: nat)
    ensures var r := Collect(api, owner, repo, path, branch, maxDepth, depth);
            r.Success? ==> AllKept(r.value)
    decreases maxDepth + 1 - depth, 1, 0
  {
    if depth <= maxDepth {
      var response := api(ContentsUrl(owner, repo, NormalizePath(path)), branch);
      if response.Listing? {
        CollectItemsKeepsValidFiles(api, owner, repo, response.items, branch, maxDepth, depth);
      }
    }
  }

  /** Every file in the batch is kept. */
  predicate AllKept(files: seq<ContentItem>)
  {
    forall k :: 0 <= k < |files| ==> Kept(files[k])
  }

  lemma AllKeptAppend(x: seq<ContentItem>, y: seq<ContentItem>)
    requires AllKept(x) && AllKept(y)
    ensures AllKept(x + y)
  {
    forall k | 0 <= k < |x + y| ensures Kept((x + y)[k]) {
      if k < |x| {
        assert (x + y)[k] == x[k];
      } else {
        assert (x + y)[k] == y[k - |x|];
      }
    }
  }

  lemma {:induction false} ItemFilesKeepsValidFiles(api: ContentsApi, owner: string, repo: string,
                                                    item: ContentItem, branch: string,
                                                    maxDepth: nat, depth: nat)
    requires depth <= maxDepth
    ensures var r := ItemFiles(api, owner, repo, item, branch, maxDepth, depth);
            r.Success? ==> AllKept(r.value)
    decreases maxDepth + 1 - depth, 0, 0
  {
    if !Kept(item) && item.itemType == DirItem {
      CollectKeepsValidFiles(api, owner, repo, item.path, branch, maxDepth, depth + 1);
    }
  }

  lemma {:induction false} CollectItemsKeepsValidFiles(api: ContentsApi, owner: string, repo: string,
                                                       items: seq<ContentItem>, branch: string,
                                                       maxDepth: nat, depth: nat)
    requires depth <= maxDepth
    ensures var r := CollectItems(api, owner, repo, items, branch, maxDepth, depth);
            r.Success? ==> AllKept(r.value)
    decreases maxDepth + 1 - depth, 0, |items|
  {
    if items != [] {
      var init := items[..|items| - 1];
      CollectItemsKeepsValidFiles(api, owner, repo, init, branch, maxDepth, depth);
      ItemFilesKeepsValidFiles(api, owner, repo, items[|items| - 1], branch, maxDepth, depth);
      var front := CollectItems(api, owner, repo, init, branch, maxDepth, depth);
      var more := ItemFiles(api, owner, repo, items[|items| - 1], branch, maxDepth, depth);
      if front.Success? && more.Success? {
        AllKeptAppend(front.value, more.value);
      }
    }
  }

  /**
   * Listing order is kept: the files of a listing `a + b` are those of `a`
   * followed by those of `b`, and a failure in `a` is the failure of the whole.
   */
  lemma {:induction false} CollectItemsAppend(api: ContentsApi, owner: string, repo: string,
                                              a: seq<ContentItem>, b: seq<ContentItem>, branch: string,
                                              maxDepth: nat, depth: nat)
    requires depth <= maxDepth
    ensures var ra := CollectItems(api, owner, repo, a, branch, maxDepth, depth);
            var rb := CollectItems(api, owner, repo, b, branch, maxDepth, depth);
            var rab := CollectItems(api, owner, repo, a + b, branch, maxDepth, depth);
            (ra.Failure? ==> rab == ra)
            && (ra.Success? && rb.Success? ==> rab == Success(ra.value + rb.value))
            && (ra.Success? && rb.Failure? ==> rab == rb)
    decreases |b|
  {
    var ra := CollectItems(api, owner, repo, a, branch, maxDepth, depth);
    if b == [] {
      assert a + b == a;
      if ra.Success? {
        assert ra.value + [] == ra.value;
      }
    } else {
      var ab, b', item := a + b, b[..|b| - 1], b[|b| - 1];
      assert ab[..|ab| - 1] == a + b';
      assert ab[|ab| - 1] == item;
      CollectItemsAppend(api, owner, repo, a, b', branch, maxDepth, depth);
      var rb' := CollectItems(api, owner, repo, b', branch, maxDepth, depth);
      var more := ItemFiles(api, owner, repo, item, branch, maxDepth, depth);
      var rb := CollectItems(api, owner, repo, b, branch, maxDepth, depth);
      var rab := CollectItems(api, owner, repo, ab, branch, maxDepth, depth);
      if ra.Success? && rb'.Success? && more.Success? {
        assert rb == Success(rb'.value + more.value);
        assert rab == Success((ra.value + rb'.value) + more.value);
        AppendAssoc(ra.value, rb'.value, more.value, rab.value, rb.value);
      }
    }
  }

  /** A listing of one entry yields exactly that entry's contribution. */
  lemma CollectItemsSingle(api: ContentsApi, owner: string, repo: string, item: ContentItem,
                           branch: string, maxDepth: nat, depth: nat)
    requires depth <= maxDepth
    ensures CollectItems(api, owner, repo, [item], branch, maxDepth, depth)
            == ItemFiles(api, owner, repo, item, branch, maxDepth, depth)
  {
    assert [item][..0] == [];
    var more := ItemFiles(api, owner, repo, item, branch, maxDepth, depth);
    if more.Success? {
      assert [] + more.value == more.value;
    }
  }

  /** A sub-directory entry contributes exactly the walk of that directory one level deeper. */
  lemma SubdirectorySplicedIn(api: ContentsApi, owner: string, repo: string,
                              a: seq<ContentItem>, dir: ContentItem, b: seq<ContentItem>,
                              branch: string, maxDepth: nat, depth: nat)
    requires depth <= maxDepth && dir.itemType == DirItem
    requires CollectItems(api, owner, repo, a + [dir] + b, branch, maxDepth, depth).Success?
    ensures var sub := Collect(api, owner, repo, dir.path, branch, maxDepth, depth + 1);
            sub.Success?
            && CollectItems(api, owner, repo, a, branch, maxDepth, depth).Success?
            && CollectItems(api, owner, repo, b, branch, maxDepth, depth).Success?
            && CollectItems(api, owner, repo, a + [dir] + b, branch, maxDepth, depth).value
               == CollectItems(api, owner, repo, a, branch, maxDepth, depth).value + sub.value
                  + CollectItems(api, owner, repo, b, branch, maxDepth, depth).value
  {
    CollectItemsAppend(api, owner, repo, a, [dir], branch, maxDepth, depth);
    CollectItemsAppend(api, owner, repo, a + [dir], b, branch, maxDepth, depth);
    CollectItemsSingle(api, owner, repo, dir, branch, maxDepth, depth);
  }

  /** Every kept file of a listing appears, in its place, in the result of a walk that succeeds. */
  lemma KeptFileInPlace(api: ContentsApi, owner: string, repo: string,
                        a: seq<ContentItem>, file: ContentItem, b: seq<ContentItem>,
                        branch: string, maxDepth: nat, depth: nat)
    requires depth <= maxDepth && Kept(file)
    requires CollectItems(api, owner, repo, a + [file] + b, branch, maxDepth, depth).Success?
    ensures CollectItems(api, owner, repo, a, branch, maxDepth, depth).Success?
    ensures CollectItems(api, owner, repo, b, branch, maxDepth, depth).Success?
    ensures CollectItems(api, owner, repo, a + [file] + b, branch, maxDepth, depth).value
            == CollectItems(api, owner, repo, a, branch, maxDepth, depth).value + [file]
               + CollectItems(api, owner, repo, b, branch, maxDepth, depth).value
  {
    CollectItemsAppend(api, owner, repo, a, [file], branch, maxDepth, depth);
    CollectItemsAppend(api, owner, repo, a + [file], b, branch, maxDepth, depth);
    CollectItemsSingle(api, owner, repo, file, branch, maxDepth, depth);
  }

  /** A failure anywhere below is reported under the path the walk started from. */
  lemma CollectFailureNamesPath(api: ContentsApi, owner: string, repo: string, path: string,
                                branch: string, maxDepth: nat, depth: nat)
    requires Collect(api, owner, repo, path, branch, maxDepth, depth).Failure?
    ensures StartsWith(Collect(api, owner, repo, path, branch, maxDepth, depth).error,
                       PathErrorPrefix + path + ": ")
  {
    var head := PathErrorPrefix + path + ": ";
    var response := api(ContentsUrl(owner, repo, NormalizePath(path)), branch);
    if response.RequestFailed? {
      StartsWithSelf(head);
      StartsWithExtend(head, head, response.message);
    } else if response.Listing? {
      var inner := CollectItems(api, owner, repo, response.items, branch, maxDepth, depth);
      StartsWithSelf(head);
      StartsWithExtend(head, head, inner.error);
    }
  }
}
