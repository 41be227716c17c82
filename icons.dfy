/** Icon selection of `IconBundler`: the name normalisation, the `<W>x<H>`
    size read from a path, the search of one directory tree (an SVG wins at
    once, otherwise the largest PNG, later ones winning ties) and the search
    order over the AppDir and `XDG_DATA_DIRS`. `os.walk` is a parameter that
    gives, for a directory, its walk as `(root, files)` entries. */
module Icons {
  import opened Wrappers
  import opened Text
  import opened Paths

  // ------------------------------------------------------ name normalisation

  predicate HasImageExtension(icon: string) {
    EndsWith(icon, ".ico") || EndsWith(icon, ".png") || EndsWith(icon, ".svg")
  }

  /** The icon name `IconBundler.__init__` keeps: `.ico`, `.png` and `.svg`
      are cut off (the first is unsupported, the others are implied). */
  function NormaliseIconName(icon: string): (r: string)
    ensures StartsWith(icon, r)
    ensures |r| == |icon| || |r| == |icon| - 4
  {
    if HasImageExtension(icon) then icon[..|icon| - 4] else icon
  }

  /** The extension is removed, whichever of the three it is. */
  lemma NormaliseRemovesExtension(name: string, ext: string)
    requires ext == ".ico" || ext == ".png" || ext == ".svg"
    ensures NormaliseIconName(name + ext) == name
  {
    var icon := name + ext;
    assert icon[|icon| - 4..] == ext;
    assert icon[..|icon| - 4] == name;
  }

  /** Any other name is kept as it is. */
  lemma NormaliseKeepsOtherNames(icon: string)
    requires !EndsWith(icon, ".ico") && !EndsWith(icon, ".png") && !EndsWith(icon, ".svg")
    ensures NormaliseIconName(icon) == icon
  {
  }

  // -------------------------------------------------- size from the path

  predicate IsDigit(c: char) {
    '0' <= c <= '9'
  }

  /** The end of the longest run of digits starting at `i`. */
  function DigitRunEnd(s: string, i: nat): (j: nat)
    requires i <= |s|
    ensures i <= j <= |s|
    ensures forall k :: i <= k < j ==> IsDigit(s[k])
    ensures j < |s| ==> !IsDigit(s[j])
    decreases |s| - i
  {
    if i < |s| && IsDigit(s[i]) then DigitRunEnd(s, i + 1) else i
  }

  /** `int()` of a string of decimal digits. */
  function DecimalValue(ds: string): nat
  {
    if ds == [] then 0
    else 10 * DecimalValue(ds[..|ds| - 1]) + (ds[|ds| - 1] as int - '0' as int) % 10
  }

  /** The width of the component `/<W>x<H>/` (or `X`) whose `/` is at `q`, if
      there is one. Digit runs are maximal, as the regular expression's
      backtracking cannot end them anywhere else before an `x` or a `/`. */
  function SizeComponentAt(s: string, q: nat): Option<nat>
  {
    if q < |s| && s[q] == '/' then
      var e1 := DigitRunEnd(s, q + 1);
      if e1 > q + 1 && e1 < |s| && (s[e1] == 'x' || s[e1] == 'X') then
        var e2 := DigitRunEnd(s, e1 + 1);
        if e2 > e1 + 1 && e2 < |s| && s[e2] == '/' then Some(DecimalValue(s[q + 1..e1])) else None
      else None
    else None
  }

  // `_extract_icon_size_from_path`: the width, or 0 when the path has none. The
  // case-insensitive search (any text, a slash, digits, x, digits, a slash, any
  // text) is read as one left-to-right scan from `i`: `.` stops at a newline, so
  // the first line holding a component decides, and within that line the last
  // component, as the leading run of any text is greedy. `lineSize` is the last
  // component seen on the current line.
  function ExtractIconSizeFromPath(path: string, i: nat := 0, lineSize: Option<nat> := None): nat
    requires i <= |path|
    decreases |path| - i
  {
    if i == |path| then (if lineSize.Some? then lineSize.value else 0)
    else if path[i] == '\n' then (if lineSize.Some? then lineSize.value else ExtractIconSizeFromPath(path, i + 1, None))
    else ExtractIconSizeFromPath(path, i + 1, if SizeComponentAt(path, i).Some? then SizeComponentAt(path, i) else lineSize)
  }

  /** The size comes from the last component of the first line that has one:
      here the line ends at `n`, lies before any other newline, and its last
      component is at `q`. */
  lemma SizeFromFirstLineWithComponent(path: string, q: nat, n: nat)
    requires q < n <= |path| && (n < |path| ==> path[n] == '\n')
    requires forall k :: 0 <= k < n ==> path[k] != '\n'
    requires SizeComponentAt(path, q).Some?
    requires forall k :: q < k < n ==> SizeComponentAt(path, k).None?
    ensures ExtractIconSizeFromPath(path) == SizeComponentAt(path, q).value
  {
    ScanReachesComponent(path, 0, None, q, n);
  }

  lemma {:induction false} ScanReachesComponent(s: string, i: nat, acc: Option<nat>, q: nat, n: nat)
    requires i <= q < n <= |s| && (n < |s| ==> s[n] == '\n')
    requires forall k :: i <= k < n ==> s[k] != '\n'
    requires SizeComponentAt(s, q).Some?
    requires forall k :: q < k < n ==> SizeComponentAt(s, k).None?
    ensures ExtractIconSizeFromPath(s, i, acc) == SizeComponentAt(s, q).value
    decreases q - i
  {
    var next := if SizeComponentAt(s, i).Some? then SizeComponentAt(s, i) else acc;
    if i < q {
      ScanReachesComponent(s, i + 1, next, q, n);
    } else {
      ScanKeepsToLineEnd(s, i + 1, next, n);
    }
  }

  lemma {:induction false} ScanKeepsToLineEnd(s: string, i: nat, acc: Option<nat>, n: nat)
    requires i <= n <= |s| && (n < |s| ==> s[n] == '\n') && acc.Some?
    requires forall k :: i <= k < n ==> s[k] != '\n' && SizeComponentAt(s, k).None?
    ensures ExtractIconSizeFromPath(s, i, acc) == acc.value
    decreases n - i
  {
    if i < n {
      ScanKeepsToLineEnd(s, i + 1, acc, n);
    }
  }

  /** A first line without a component is passed over: the search goes on
      after its newline at `n`. */
  lemma {:induction false} LineWithoutComponentSkipped(path: string, i: nat, n: nat)
    requires i <= n < |path| && path[n] == '\n'
    requires forall k :: i <= k < n ==> path[k] != '\n' && SizeComponentAt(path, k).None?
    ensures ExtractIconSizeFromPath(path, i, None) == ExtractIconSizeFromPath(path, n + 1, None)
    decreases n - i
  {
    if i < n {
      LineWithoutComponentSkipped(path, i + 1, n);
    }
  }

  /** Without any `/<W>x<H>/` component the size is 0. */
  lemma {:induction false} SizeWithoutComponent(path: string, i: nat)
    requires i <= |path|
    requires forall k :: i <= k < |path| ==> SizeComponentAt(path, k).None?
    ensures ExtractIconSizeFromPath(path, i, None) == 0
    decreases |path| - i
  {
    if i < |path| {
      SizeWithoutComponent(path, i + 1);
    }
  }

  // ---------------------------------------------- searching one directory

  /** One step of `os.walk`: a directory and the names of the files in it. */
  datatype WalkEntry = WalkEntry(root: string, files: seq<string>)

  /** The icon as bundled: a directory moves here, the name under a given root. */
  datatype IconBundler = IconBundler(appDir: string, icon: string)
  {
    function SvgName(): string { icon + ".svg" }
    function PngName(): string { icon + ".png" }

    function PngPath(entry: WalkEntry): string {
      PathJoin(entry.root, PngName())
    }

    function PngSize(entry: WalkEntry): nat {
      ExtractIconSizeFromPath(PngPath(entry))
    }

    predicate NoSvgFrom(entries: seq<WalkEntry>, i: nat) {
      forall j :: i <= j < |entries| ==> SvgName() !in entries[j].files
    }

    /** What `_search_icon` returns once the entries from `k` on are read, when
        it has kept `path` of size `size` from those before. */
    function SearchFrom(entries: seq<WalkEntry>, k: nat, path: Option<string>, size: nat): Option<string>
      requires k <= |entries|
      decreases |entries| - k
    {
      if k == |entries| then path
      else if SvgName() in entries[k].files then Some(PathJoin(entries[k].root, SvgName()))
      else SearchFrom(entries, k + 1, Kept(entries[k], path, size).0, Kept(entries[k], path, size).1)
    }

    /** The PNG kept, and its size, after looking at `entry` with no SVG in it:
        its PNG replaces the one kept unless it is smaller. */
    function Kept(entry: WalkEntry, path: Option<string>, size: nat): (r: (Option<string>, nat))
      ensures r == (path, size) || (PngName() in entry.files && size <= PngSize(entry) && r == (Some(PngPath(entry)), PngSize(entry)))
    {
      if PngName() in entry.files && PngSize(entry) >= size then (Some(PngPath(entry)), PngSize(entry)) else (path, size)
    }

    /** What `_search_icon` finds in a walk. */
    function SearchResult(entries: seq<WalkEntry>): Option<string>
    {
      SearchFrom(entries, 0, None, 0)
    }

    /** `_search_icon`: the walk is read in order; an SVG returns at once, a PNG
        replaces the one kept so far unless it is smaller. */
    method SearchIcon(entries: seq<WalkEntry>) returns (path: Option<string>)
      ensures path == SearchResult(entries)
    {
      path := None;
      var size := 0;
      var svgIconName := SvgName();
      var pngIconName := PngName();
      for k := 0 to |entries|
        invariant SearchFrom(entries, k, path, size) == SearchResult(entries)
      {
        var entry := entries[k];
        if svgIconName in entry.files {
          path := Some(PathJoin(entry.root, svgIconName));
          return;
        }
        if pngIconName in entry.files {
          var newPath := PathJoin(entry.root, pngIconName);
          var newSize := ExtractIconSizeFromPath(newPath);
          if newSize >= size {
            size := newSize;
            path := Some(newPath);
          }
        }
      }
    }

    /** An SVG anywhere in the walk wins over every PNG, found before it or not. */
    lemma SvgWins(entries: seq<WalkEntry>, k: nat)
      requires k < |entries| && SvgName() in entries[k].files
      requires forall j :: 0 <= j < k ==> SvgName() !in entries[j].files
      ensures SearchResult(entries) == Some(PathJoin(entries[k].root, SvgName()))
    {
      SearchReachesSvg(entries, 0, None, 0, k);
    }

    lemma {:induction false} SearchReachesSvg(entries: seq<WalkEntry>, i: nat, path: Option<string>, size: nat, k: nat)
      requires i <= k < |entries| && SvgName() in entries[k].files
      requires forall j :: i <= j < k ==> SvgName() !in entries[j].files
      ensures SearchFrom(entries, i, path, size) == Some(PathJoin(entries[k].root, SvgName()))
      decreases k - i
    {
      if i < k {
        var next := Kept(entries[i], path, size);
        SearchReachesSvg(entries, i + 1, next.0, next.1, k);
      }
    }

    /** Without an SVG the largest PNG is found, ties going to the later one. */
    lemma LargestPngWins(entries: seq<WalkEntry>, m: nat)
      requires m < |entries| && PngName() in entries[m].files && NoSvgFrom(entries, 0)
      requires forall j :: 0 <= j < |entries| && PngName() in entries[j].files ==>
                 PngSize(entries[j]) <= PngSize(entries[m])
      requires forall j :: m < j < |entries| && PngName() in entries[j].files ==>
                 PngSize(entries[j]) < PngSize(entries[m])
      ensures SearchResult(entries) == Some(PngPath(entries[m]))
    {
      SearchReachesLargest(entries, 0, None, 0, m);
    }

    lemma {:induction false} SearchReachesLargest(entries: seq<WalkEntry>, i: nat, path: Option<string>, size: nat, m: nat)
      requires i <= m < |entries| && PngName() in entries[m].files && NoSvgFrom(entries, i)
      requires size <= PngSize(entries[m])
      requires forall j :: i <= j < |entries| && PngName() in entries[j].files ==>
                 PngSize(entries[j]) <= PngSize(entries[m])
      requires forall j :: m < j < |entries| && PngName() in entries[j].files ==>
                 PngSize(entries[j]) < PngSize(entries[m])
      ensures SearchFrom(entries, i, path, size) == Some(PngPath(entries[m]))
      decreases m - i
    {
      if i < m {
        var next := Kept(entries[i], path, size);
        SearchReachesLargest(entries, i + 1, next.0, next.1, m);
      } else {
        SearchTakesLargest(entries, m, path, size);
      }
    }

    lemma SearchTakesLargest(entries: seq<WalkEntry>, m: nat, path: Option<string>, size: nat)
      requires m < |entries| && PngName() in entries[m].files && NoSvgFrom(entries, m)
      requires size <= PngSize(entries[m])
      requires forall j :: m < j < |entries| && PngName() in entries[j].files ==>
                 PngSize(entries[j]) < PngSize(entries[m])
      ensures SearchFrom(entries, m, path, size) == Some(PngPath(entries[m]))
    {
      SearchKeeps(entries, m + 1, Some(PngPath(entries[m])), PngSize(entries[m]));
    }

    /** Once no SVG and no PNG as large as the kept one follows, the kept one is returned. */
    lemma {:induction false} SearchKeeps(entries: seq<WalkEntry>, i: nat, path: Option<string>, size: nat)
      requires i <= |entries| && NoSvgFrom(entries, i)
      requires forall j :: i <= j < |entries| && PngName() in entries[j].files ==> PngSize(entries[j]) < size
      ensures SearchFrom(entries, i, path, size) == path
      decreases |entries| - i
    {
      if i < |entries| {
        SearchKeeps(entries, i + 1, path, size);
      }
    }

    /** A walk without the icon finds nothing, and one with it finds something. */
    lemma SearchFindsNothingIffNoHit(entries: seq<WalkEntry>)
      ensures SearchResult(entries).None? <==>
                forall j :: 0 <= j < |entries| ==> SvgName() !in entries[j].files && PngName() !in entries[j].files
    {
      SearchNoneIffNoHit(entries, 0, None, 0);
    }

    lemma {:induction false} SearchNoneIffNoHit(entries: seq<WalkEntry>, i: nat, path: Option<string>, size: nat)
      requires i <= |entries| && (path.None? ==> size == 0)
      ensures SearchFrom(entries, i, path, size).None? <==>
                path.None? && forall j :: i <= j < |entries| ==> SvgName() !in entries[j].files && PngName() !in entries[j].files
      decreases |entries| - i
    {
      if i < |entries| {
        var next := Kept(entries[i], path, size);
        SearchNoneIffNoHit(entries, i + 1, next.0, next.1);
      }
    }

    /** A hit is the path of the icon file under the root it was found in. */
    lemma {:induction false} SearchFromNotEmpty(entries: seq<WalkEntry>, i: nat, path: Option<string>, size: nat)
      requires i <= |entries| && (path.Some? ==> path.value != [])
      ensures SearchFrom(entries, i, path, size).Some? ==> SearchFrom(entries, i, path, size).value != []
      decreases |entries| - i
    {
      if i < |entries| {
        if SvgName() in entries[i].files {
          assert EndsWith(PathJoin(entries[i].root, SvgName()), SvgName());
        } else {
          assert EndsWith(PngPath(entries[i]), PngName());
          var next := Kept(entries[i], path, size);
          SearchFromNotEmpty(entries, i + 1, next.0, next.1);
        }
      }
    }

    // -------------------------------------------------- the search order

    /** The directories searched, in order: the AppDir's `usr/share` and
        `usr/local/share`, then each `XDG_DATA_DIRS` entry (unset reads as ""). */
    function SearchRoots(xdgDataDirs: Option<string>): (r: seq<string>)
      ensures |r| >= 3
      ensures r[0] == PathJoin(PathJoin(appDir, "usr"), "share")
      ensures r[1] == PathJoin(PathJoin(PathJoin(appDir, "usr"), "local"), "share")
      ensures r[2..] == Split(if xdgDataDirs.Some? then xdgDataDirs.value else "", ':')
    {
      var dataDirs := if xdgDataDirs.Some? then xdgDataDirs.value else "";
      [PathJoin(PathJoin(appDir, "usr"), "share"), PathJoin(PathJoin(PathJoin(appDir, "usr"), "local"), "share")]
        + Split(dataDirs, ':')
    }

    /** `_get_icon_path`: the first directory, in search order, whose walk holds
        the icon gives the result. */
    method GetIconPath(xdgDataDirs: Option<string>, walk: string -> seq<WalkEntry>) returns (r: Option<string>)
      ensures var dirs := IconDirs(SearchRoots(xdgDataDirs));
        r.None? <==> forall i :: 0 <= i < |dirs| ==> SearchResult(walk(dirs[i])).None?
      ensures var dirs := IconDirs(SearchRoots(xdgDataDirs));
        r.Some? ==> exists i :: 0 <= i < |dirs| && SearchResult(walk(dirs[i])) == r &&
                      forall j :: 0 <= j < i ==> SearchResult(walk(dirs[j])).None?
    {
      var searchPaths := SearchRoots(xdgDataDirs);
      var refinedSearchPaths := RefineSearchPaths(searchPaths);
      r := SearchInTurn(refinedSearchPaths, walk);
    }

    /** The first result of `_search_icon` over `dirs`, in order. */
    method SearchInTurn(dirs: seq<string>, walk: string -> seq<WalkEntry>) returns (r: Option<string>)
      ensures r.None? <==> forall i :: 0 <= i < |dirs| ==> SearchResult(walk(dirs[i])).None?
      ensures r.Some? ==> exists i :: 0 <= i < |dirs| && SearchResult(walk(dirs[i])) == r &&
                            forall j :: 0 <= j < i ==> SearchResult(walk(dirs[j])).None?
    {
      for i := 0 to |dirs|
        invariant forall j :: 0 <= j < i ==> SearchResult(walk(dirs[j])).None?
      {
        var path := SearchIcon(walk(dirs[i]));
        if path.Some? {
          return path;
        }
      }
      return None;
    }

    /** `bundle_icon` up to the copy: the icon found and where it goes, or the
        error for an icon found nowhere. Whether the copy and the `.DirIcon`
        link succeed is a parameter. */
    method BundleIcon(xdgDataDirs: Option<string>, walk: string -> seq<WalkEntry>, fileOperationsSucceed: bool)
      returns (r: Result<BundledIcon, IconError>)
      ensures var dirs := IconDirs(SearchRoots(xdgDataDirs));
        r == Err(IconNotFound(icon)) <==> forall i :: 0 <= i < |dirs| ==> SearchResult(walk(dirs[i])).None?
      ensures var dirs := IconDirs(SearchRoots(xdgDataDirs));
        fileOperationsSucceed && (exists i :: 0 <= i < |dirs| && SearchResult(walk(dirs[i])).Some?) ==> r.Ok?
      ensures r.Ok? ==> fileOperationsSucceed && r.value.target == PathJoin(appDir, Basename(r.value.source))
                        && r.value.dirIcon == PathJoin(appDir, ".DirIcon") && r.value.link == Basename(r.value.source)
      ensures r.Ok? ==> FirstHit(IconDirs(SearchRoots(xdgDataDirs)), walk, r.value.source)
      ensures r.Err? && r != Err(IconNotFound(icon)) ==>
        !fileOperationsSucceed && r.error.CopyFailed? &&
        r.error.target == PathJoin(appDir, Basename(r.error.source)) &&
        FirstHit(IconDirs(SearchRoots(xdgDataDirs)), walk, r.error.source)
    {
      var sourceIconPath := GetIconPath(xdgDataDirs, walk);
      if sourceIconPath.None? || sourceIconPath.value == [] {
        NoEmptyHit(xdgDataDirs, walk, sourceIconPath);
        return Err(IconNotFound(icon));
      }
      var source := sourceIconPath.value;
      var target := PathJoin(appDir, Basename(source));
      if !fileOperationsSucceed {
        return Err(CopyFailed(source, target));
      }
      return Ok(BundledIcon(source, target, PathJoin(appDir, ".DirIcon"), Basename(source)));
    }

    /** `hit` is what the first directory of `dirs` whose walk holds the icon gives. */
    predicate FirstHit(dirs: seq<string>, walk: string -> seq<WalkEntry>, hit: string) {
      exists i :: 0 <= i < |dirs| && SearchResult(walk(dirs[i])) == Some(hit) &&
                  forall j :: 0 <= j < i ==> SearchResult(walk(dirs[j])).None?
    }

    /** A hit is never the empty string, so "not found" is exactly no hit. */
    lemma NoEmptyHit(xdgDataDirs: Option<string>, walk: string -> seq<WalkEntry>, hit: Option<string>)
      requires var dirs := IconDirs(SearchRoots(xdgDataDirs));
        hit.Some? ==> exists i :: 0 <= i < |dirs| && SearchResult(walk(dirs[i])) == hit
      ensures hit.Some? ==> hit.value != []
    {
      if hit.Some? {
        var dirs := IconDirs(SearchRoots(xdgDataDirs));
        var i :| 0 <= i < |dirs| && SearchResult(walk(dirs[i])) == hit;
        SearchResultNotEmpty(walk(dirs[i]));
      }
    }

    lemma SearchResultNotEmpty(entries: seq<WalkEntry>)
      ensures SearchResult(entries).Some? ==> SearchResult(entries).value != []
    {
      SearchFromNotEmpty(entries, 0, None, 0);
    }
  }

  /** `IconBundler(app_dir, icon)`. */
  function NewIconBundler(appDir: string, icon: string): (r: IconBundler)
    ensures r.appDir == appDir
    ensures HasImageExtension(icon) ==> |r.icon| == |icon| - 4 && icon == r.icon + icon[|icon| - 4..]
    ensures !HasImageExtension(icon) ==> r.icon == icon
  {
    IconBundler(appDir, NormaliseIconName(icon))
  }

  datatype IconError = IconNotFound(icon: string) | CopyFailed(source: string, target: string)

  /** The icon copied from `source` to `target`, and `dirIcon` made a link to `link`. */
  datatype BundledIcon = BundledIcon(source: string, target: string, dirIcon: string, link: string)

  /** The loop of `_get_icon_path` that lists, for each searched directory, its
      `icons` and its `pixmaps` subdirectory. */
  method RefineSearchPaths(searchPaths: seq<string>) returns (refinedSearchPaths: seq<string>)
    ensures refinedSearchPaths == IconDirs(searchPaths)
  {
    refinedSearchPaths := [];
    for i := 0 to |searchPaths|
      invariant refinedSearchPaths == IconDirs(searchPaths[..i])
    {
      assert searchPaths[..i + 1] == searchPaths[..i] + [searchPaths[i]];
      refinedSearchPaths := refinedSearchPaths + [searchPaths[i] + "/icons", searchPaths[i] + "/pixmaps"];
    }
    assert searchPaths[..|searchPaths|] == searchPaths;
  }

  /** Each searched directory expanded to its `icons` and `pixmaps` subdirectories. */
  function IconDirs(roots: seq<string>): (r: seq<string>)
    ensures |r| == 2 * |roots|
    ensures forall i :: 0 <= i < |roots| ==> r[2 * i] == roots[i] + "/icons" && r[2 * i + 1] == roots[i] + "/pixmaps"
  {
    if roots == [] then []
    else IconDirs(roots[..|roots| - 1]) + [roots[|roots| - 1] + "/icons", roots[|roots| - 1] + "/pixmaps"]
  }
}
