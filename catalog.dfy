/** The static slideshow catalog (`slideshowData`) and the slide arithmetic
    of `showSlide`, `nextSlide` and `prevSlide`: the wrap-around index with
    JavaScript's remainder, the image path, the counter text and the
    per-slide rotation. */
module Catalog {
  import opened JsValues
  import opened Text
  import opened Tracker

  /** One catalog entry: how many slides, where the images live, their file
      extension, and the slides that are shown rotated (in degrees). */
  datatype ProjectEntry = ProjectEntry(totalSlides: int, prefix: string, extension: string, rotations: map<int, int>)

  /** `slideshowData`: project id to entry. Entries without `rotations` have
      an empty map, which `rotations?.[k] ?? 0` treats the same way. */
  const SlideshowData: map<string, ProjectEntry> := map[
    "drake-music-project" := ProjectEntry(15, "./drake-music/", "png", map[]),
    "clock" := ProjectEntry(1, "./mdf-clock/", "png", map[]),
    "rubiks" := ProjectEntry(16, "./Rubiks_cube/", "webp", map[1 := -90, 3 := -90, 5 := -90]),
    "turtle" := ProjectEntry(27, "./turtle-cloud/", "webp", map[]),
    "helicopter" := ProjectEntry(32, "./1dof helicopter/", "webp", map[29 := -90]),
    "violin" := ProjectEntry(10, "./violin-bot-player/", "jpg", map[]),
    "crs" := ProjectEntry(1, "./csr robot/", "png", map[]),
    "wjet" := ProjectEntry(37, "./wjet/", "png", map[])
  ]

  /** Every catalog entry has at least one slide. */
  lemma CatalogTotalsPositive()
    ensures forall id :: id in SlideshowData ==> SlideshowData[id].totalSlides >= 1
    ensures forall e :: e in SlideshowData.Values ==> e.totalSlides >= 1
  {
  }

  // ---------------------------------------------------------------------
  // Slide index arithmetic
  // ---------------------------------------------------------------------

  /** The remainder of a non-negative `a` by a positive `b`, by repeated
      subtraction (equal to `a % b`, by NatRemIsMod). */
  function NatRem(a: nat, b: int): (r: int)
    requires b > 0
    ensures 0 <= r < b
    ensures a < b ==> r == a
    decreases a
  {
    if a < b then a else NatRem(a - b, b)
  }

  /** JavaScript's `a % b` for a positive divisor: the remainder takes the
      sign of the dividend (truncated division). */
  function JsRemainder(a: int, b: int): (r: int)
    requires b > 0
    ensures -b < r < b
    ensures a >= 0 ==> 0 <= r
    ensures a < 0 ==> r <= 0
  {
    if a >= 0 then NatRem(a, b) else -NatRem(-a, b)
  }

  /** Multiplying by a positive factor never makes a positive number
      smaller. */
  lemma {:induction false} MulAtLeast(d: int, n: int)
    requires d >= 1 && n >= 1
    ensures d * n >= n
    decreases d
  {
    if d > 1 {
      MulAtLeast(d - 1, n);
      assert d * n == (d - 1) * n + n;
    }
  }

  /** Euclidean division has one remainder: if `a == q * n + r` with `r` in
      `[0, n)`, then `a % n == r`. */
  lemma ModUnique(a: int, n: int, q: int, r: int)
    requires n >= 1 && 0 <= r < n && a == q * n + r
    ensures a % n == r
  {
    var q', r' := a / n, a % n;
    assert a == q' * n + r';
    assert (q - q') * n == r' - r by {
      assert (q - q') * n == q * n - q' * n;
    }
    if q > q' {
      MulAtLeast(q - q', n);
    } else if q < q' {
      MulAtLeast(q' - q, n);
    }
  }

  /** Adding one to a number moves its remainder one step round the
      cycle `0, 1, ..., n - 1, 0`. */
  lemma ModStep(a: int, n: int)
    requires n >= 1
    ensures (a + 1) % n == if a % n == n - 1 then 0 else a % n + 1
  {
    var q := a / n;
    assert a == q * n + a % n;
    if a % n == n - 1 {
      assert a + 1 == (q + 1) * n + 0;
      ModUnique(a + 1, n, q + 1, 0);
    } else {
      ModUnique(a + 1, n, q, a % n + 1);
    }
  }

  /** Repeated subtraction computes the Euclidean remainder. */
  lemma {:induction false} NatRemIsMod(a: nat, b: int)
    requires b > 0
    ensures NatRem(a, b) == a % b
    decreases a
  {
    if a < b {
      ModUnique(a, b, 0, a);
    } else {
      NatRemIsMod(a - b, b);
      var q := (a - b) / b;
      assert a - b == q * b + (a - b) % b;
      assert a == (q + 1) * b + (a - b) % b;
      ModUnique(a, b, q + 1, (a - b) % b);
    }
  }

  /** JavaScript's remainder is the Euclidean one of the dividend's
      magnitude, with the dividend's sign. */
  lemma JsRemainderIsTruncated(a: int, b: int)
    requires b > 0
    ensures JsRemainder(a, b) == if a >= 0 then a % b else -((-a) % b)
  {
    if a >= 0 {
      NatRemIsMod(a, b);
    } else {
      NatRemIsMod(-a, b);
    }
  }

  /** The slide `showSlide(k)` displays out of `n`:
      `((k - 1 + n) % n) + 1`. */
  function SlideIndex(k: int, n: int): (r: int)
    requires n >= 1
    ensures k - 1 + n >= 0 ==> 1 <= r <= n
    ensures 1 <= k <= n ==> r == k
  {
    if 1 <= k <= n then NatRemIsMod(k - 1 + n, n); ModUnique(k - 1 + n, n, 1, k - 1); JsRemainder(k - 1 + n, n) + 1
    else JsRemainder(k - 1 + n, n) + 1
  }

  /** With a dividend below zero, JavaScript's remainder leaves the range:
      `showSlide(-n)` on `n >= 2` slides computes slide 0. */
  lemma SlideIndexBelowRange(n: int)
    requires n >= 2
    ensures SlideIndex(-n, n) == 0
  {
  }

  /** The slide after `k` (`nextSlide`). */
  function NextIndex(k: int, n: int): int
    requires n >= 1
  {
    SlideIndex(k + 1, n)
  }

  /** The slide before `k` (`prevSlide`). */
  function PrevIndex(k: int, n: int): int
    requires n >= 1
  {
    SlideIndex(k - 1, n)
  }

  /** Moving forward from the last slide wraps to the first. */
  lemma NextIndexWraps(k: int, n: int)
    requires 1 <= k <= n
    ensures NextIndex(k, n) == if k == n then 1 else k + 1
  {
    if k == n {
      NatRemIsMod(k + n, n);
      ModUnique(k + n, n, 2, 0);
    }
  }

  /** Moving back from the first slide wraps to the last. */
  lemma PrevIndexWraps(k: int, n: int)
    requires 1 <= k <= n
    ensures PrevIndex(k, n) == if k == 1 then n else k - 1
  {
    if k == 1 {
      NatRemIsMod(k - 2 + n, n);
      ModUnique(k - 2 + n, n, 0, n - 1);
    }
  }

  /** Back undoes forward and forward undoes back. */
  lemma NextPrevInverse(k: int, n: int)
    requires 1 <= k <= n
    ensures PrevIndex(NextIndex(k, n), n) == k
    ensures NextIndex(PrevIndex(k, n), n) == k
  {
    NextIndexWraps(k, n);
    PrevIndexWraps(k, n);
    PrevIndexWraps(NextIndex(k, n), n);
    NextIndexWraps(PrevIndex(k, n), n);
  }

  /** The slide reached from `k` after `m` presses of next. */
  function AdvanceBy(k: int, n: int, m: nat): (r: int)
    requires 1 <= k <= n
    ensures 1 <= r <= n
    decreases m
  {
    if m == 0 then k else NextIndex(AdvanceBy(k, n, m - 1), n)
  }

  /** After `m` presses of next the slide is `m` further on, modulo `n`. */
  lemma {:induction false} AdvanceByValue(k: int, n: int, m: nat)
    requires 1 <= k <= n
    ensures AdvanceBy(k, n, m) == (k - 1 + m) % n + 1
    decreases m
  {
    if m == 0 {
      ModUnique(k - 1, n, 0, k - 1);
    } else {
      AdvanceByValue(k, n, m - 1);
      NextIndexWraps(AdvanceBy(k, n, m - 1), n);
      ModStep(k - 1 + m - 1, n);
    }
  }

  /** Pressing next once per slide brings the slideshow back to where it
      started. */
  lemma FullCycle(k: int, n: int)
    requires 1 <= k <= n
    ensures AdvanceBy(k, n, n as nat) == k
  {
    AdvanceByValue(k, n, n as nat);
    ModUnique(k - 1 + n, n, 1, k - 1);
  }

  // ---------------------------------------------------------------------
  // What a slide shows
  // ---------------------------------------------------------------------

  /** `${prefix}${k}.${extension}`. */
  function ImageUrl(e: ProjectEntry, k: int): string
  {
    e.prefix + IntToString(k) + "." + e.extension
  }

  /** `${k} / ${n}`. */
  function CounterText(k: int, n: int): string
  {
    IntToString(k) + " / " + IntToString(n)
  }

  /** `Project image ${k} of ${n}`. */
  function AltText(k: int, n: int): string
  {
    "Project image " + IntToString(k) + " of " + IntToString(n)
  }

  /** `rotations?.[k] ?? 0`. */
  function Rotation(e: ProjectEntry, k: int): (r: int)
    ensures k in e.rotations ==> r == e.rotations[k]
    ensures k !in e.rotations ==> r == 0
  {
    if k in e.rotations then e.rotations[k] else 0
  }

  /** `${a} / ${b}` splits at its spaces into `a`, `/` and `b` when neither
      holds a space. */
  lemma CounterPieces(a: string, b: string)
    requires ' ' !in a && ' ' !in b
    ensures Split(a + " / " + b, ' ') == [a, "/", b]
  {
    assert a + " / " + b == a + [' '] + ("/" + [' '] + b);
    SplitAround(a, "/" + [' '] + b, ' ');
    SplitAround("/", b, ' ');
    SplitWithoutSeparator(a, ' ');
    SplitWithoutSeparator("/", ' ');
    SplitWithoutSeparator(b, ' ');
  }

  /** The counter text of a slide in range reads back as the slide number and
      the total. */
  lemma CounterTextReadsBack(k: int, n: int)
    requires 1 <= k <= n
    ensures Split(CounterText(k, n), ' ') == [NatToString(k), "/", NatToString(n)]
    ensures ParseNat(Split(CounterText(k, n), ' ')[0]) == k
    ensures ParseNat(Split(CounterText(k, n), ' ')[2]) == n
  {
    var a, b := NatToString(k), NatToString(n);
    assert ' ' !in a && ' ' !in b by {
      assert forall i :: 0 <= i < |a| ==> IsDigit(a[i]);
      assert forall i :: 0 <= i < |b| ==> IsDigit(b[i]);
    }
    CounterPieces(a, b);
    ParseNatToString(k);
    ParseNatToString(n);
  }

  // ---------------------------------------------------------------------
  // The project id of a slideshow
  // ---------------------------------------------------------------------

  /** The characters `prefix.replace(/[.\/]/g, '')` deletes. */
  const PathChars: set<char> := {'.', '/'}

  /** The project id `showSlide` and `openModal` derive from a prefix. */
  function ProjectIdFromPrefix(prefix: string): (r: string)
    ensures '.' !in r && '/' !in r
  {
    RemoveChars(prefix, PathChars)
  }

  /** A prefix of the form `./<name>/` with a non-empty name free of `.` and `/`. */
  predicate IsDirectoryPrefix(p: string)
  {
    |p| >= 4 && p[..2] == "./" && p[|p| - 1] == '/' &&
    '.' !in p[2..|p| - 1] && '/' !in p[2..|p| - 1]
  }

  /** For a `./<name>/` prefix, the id `showSlide` strips from the prefix is
      `<name>`. */
  lemma {:induction false} PrefixIdIsName(p: string)
    requires IsDirectoryPrefix(p)
    ensures ProjectIdFromPrefix(p) == p[2..|p| - 1]
  {
    var name := p[2..|p| - 1];
    assert p == "./" + name + "/";
    StripDirectory(name);
  }

  /** Deleting `.` and `/` from `./<name>/` leaves `<name>` when the name
      holds neither. */
  lemma StripDirectory(name: string)
    requires '.' !in name && '/' !in name
    ensures RemoveChars("./" + name + "/", PathChars) == name
  {
    RemoveCharsAppend("./" + name, "/", PathChars);
    RemoveCharsAppend("./", name, PathChars);
    RemoveCharsAppend(".", "/", PathChars);
    assert "./" == "." + "/";
    RemoveCharsNone(name, PathChars);
  }

  /** A `./<name>/` prefix followed by a file name, regrouped around its two
      slashes. */
  lemma DirectoryPath(p: string, file: string)
    requires IsDirectoryPrefix(p)
    ensures p + file == "." + ['/'] + (p[2..|p| - 1] + ['/'] + file)
  {
    assert p == p[..2] + p[2..|p| - 1] + [p[|p| - 1]];
  }

  /** A path `./<name>/<file>` splits at `/` into `.`, `<name>` and
      `<file>`. */
  lemma PathPieces(p: string, file: string)
    requires IsDirectoryPrefix(p) && '/' !in file
    ensures Split(p + file, '/') == [".", p[2..|p| - 1], file]
  {
    DirectoryPath(p, file);
    SplitThree(".", p[2..|p| - 1], file, '/');
  }

  /** For a `./<name>/` prefix, the id `trackImageView` infers from a slide's
      path on its own is `<name>` too. */
  lemma DirectoryPrefixIds(p: string, k: int, ext: string, slide: Option<int>, total: Option<int>)
    requires IsDirectoryPrefix(p) && '/' !in ext
    ensures ImageProjectId(p + IntToString(k) + "." + ext, ImageContext(None, None, slide, total)) ==
            Some(ProjectIdFromPrefix(p))
  {
    PrefixIdIsName(p);
    var file := IntToString(k) + "." + ext;
    IntToStringHasNoPathChars(k);
    assert '/' !in file;
    assert p + IntToString(k) + "." + ext == p + file;
    PathPieces(p, file);
  }

  /** Whether an entry's prefix is a `./<name>/` directory short enough to
      be reported whole, and its extension holds no `/`. */
  predicate EntryPathsWellFormed(e: ProjectEntry)
  {
    IsDirectoryPrefix(e.prefix) && |e.prefix| <= 150 && '/' !in e.extension
  }

  // One lemma per catalog entry keeps each character-by-character check
  // small.
  lemma DrakeMusicPaths() ensures EntryPathsWellFormed(SlideshowData["drake-music-project"]) {}
  lemma ClockPaths() ensures EntryPathsWellFormed(SlideshowData["clock"]) {}
  lemma RubiksPaths() ensures EntryPathsWellFormed(SlideshowData["rubiks"]) {}
  lemma TurtlePaths() ensures EntryPathsWellFormed(SlideshowData["turtle"]) {}
  lemma HelicopterPaths() ensures EntryPathsWellFormed(SlideshowData["helicopter"]) {}
  lemma ViolinPaths() ensures EntryPathsWellFormed(SlideshowData["violin"]) {}
  lemma CrsPaths() ensures EntryPathsWellFormed(SlideshowData["crs"]) {}
  lemma WjetPaths() ensures EntryPathsWellFormed(SlideshowData["wjet"]) {}

  /** Every catalog prefix has the `./<name>/` form. */
  lemma CatalogPrefixesAreDirectories()
    ensures forall id :: id in SlideshowData ==> EntryPathsWellFormed(SlideshowData[id])
  {
    DrakeMusicPaths();
    ClockPaths();
    RubiksPaths();
    TurtlePaths();
    HelicopterPaths();
    ViolinPaths();
    CrsPaths();
    WjetPaths();
  }

  /** For every catalog project and slide, the id `showSlide` passes to
      `trackImageView` agrees with the one `trackImageView` would infer from
      the image path on its own. */
  lemma SlideIdsAgree(id: string, k: int)
    requires id in SlideshowData
    ensures var e := SlideshowData[id];
            ImageProjectId(ImageUrl(e, k), ImageContext(None, None, Some(k), Some(e.totalSlides))) ==
            Some(ProjectIdFromPrefix(e.prefix))
  {
    CatalogPrefixesAreDirectories();
    var e := SlideshowData[id];
    DirectoryPrefixIds(e.prefix, k, e.extension, Some(k), Some(e.totalSlides));
  }
}
