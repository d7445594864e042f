/** File-name derivation in the video compression script (scripts/compress-videos.js):
    the output names of each encoding, the poster name, and which files are videos. */
module VideoNames {
  import opened Wrappers

  /** One output encoding of `config.formats`. */
  datatype Format = Format(
    extension: string,
    codec: string,
    suffix: string,
    crf: nat,
    bitrate: string,
    preset: string,
    maxWidth: nat,
    maxHeight: nat,
    framerate: nat)

  /** `config.formats`: desktop WebM and MP4, then mobile WebM and MP4. */
  const Formats: seq<Format> := [
    Format("webm", "libvpx-vp9", "", 35, "1.2M", "slow", 1920, 1080, 24),
    Format("mp4", "libx264", "", 28, "1.2M", "medium", 1920, 1080, 24),
    Format("webm", "libvpx-vp9", "-mobile", 40, "500k", "fast", 640, 360, 20),
    Format("mp4", "libx264", "-mobile", 32, "500k", "fast", 640, 360, 20)
  ]

  /** An ASCII letter, an ASCII digit or a hyphen. */
  predicate IsSafeChar(c: char) {
    ('a' <= c <= 'z') || ('A' <= c <= 'Z') || ('0' <= c <= '9') || c == '-'
  }

  predicate AllSafe(s: string) {
    forall i :: 0 <= i < |s| ==> IsSafeChar(s[i])
  }

  predicate NoDoubleHyphen(s: string) {
    forall i :: 0 <= i < |s| - 1 ==> !(s[i] == '-' && s[i + 1] == '-')
  }

  predicate NoEdgeHyphen(s: string) {
    |s| > 0 ==> s[0] != '-' && s[|s| - 1] != '-'
  }

  /** The shape every derived short name has. */
  predicate IsCleanName(s: string) {
    AllSafe(s) && NoDoubleHyphen(s) && NoEdgeHyphen(s)
  }

  /** The first clean-up step: every character outside letters, digits and hyphen becomes a
      hyphen. */
  function ReplaceUnsafe(s: string): (r: string)
    ensures |r| == |s| && AllSafe(r)
    ensures forall i :: 0 <= i < |s| ==> (IsSafeChar(s[i]) ==> r[i] == s[i]) && (!IsSafeChar(s[i]) ==> r[i] == '-')
  {
    seq(|s|, i requires 0 <= i < |s| => if IsSafeChar(s[i]) then s[i] else '-')
  }

  /** The second clean-up step: every run of hyphens becomes one hyphen. Dropping the first
      of two adjacent hyphens, left to right, collapses each run. */
  function CollapseHyphens(s: string): (r: string)
    ensures |r| <= |s|
    ensures NoDoubleHyphen(r)
    ensures AllSafe(s) ==> AllSafe(r)
    ensures |s| > 0 ==> |r| > 0 && r[0] == s[0] && r[|r| - 1] == s[|s| - 1]
    decreases |s|
  {
    if |s| == 0 then s
    else if |s| >= 2 && s[0] == '-' && s[1] == '-' then CollapseHyphens(s[1..])
    else [s[0]] + CollapseHyphens(s[1..])
  }

  /** The characters other than hyphens, in order. */
  function WithoutHyphens(s: string): string {
    if |s| == 0 then s
    else if s[0] == '-' then WithoutHyphens(s[1..])
    else [s[0]] + WithoutHyphens(s[1..])
  }

  /** Collapsing keeps every character that is not a hyphen, in order. */
  lemma {:induction false} CollapseKeepsContent(s: string)
    ensures WithoutHyphens(CollapseHyphens(s)) == WithoutHyphens(s)
    decreases |s|
  {
    if |s| == 0 {
    } else if |s| >= 2 && s[0] == '-' && s[1] == '-' {
      CollapseKeepsContent(s[1..]);
    } else {
      CollapseKeepsContent(s[1..]);
      assert ([s[0]] + CollapseHyphens(s[1..]))[1..] == CollapseHyphens(s[1..]);
    }
  }

  /** A name without doubled hyphens is left as it is. */
  lemma {:induction false} CollapseFixesSingleHyphens(s: string)
    requires NoDoubleHyphen(s)
    ensures CollapseHyphens(s) == s
    decreases |s|
  {
    if |s| > 0 {
      assert NoDoubleHyphen(s[1..]) by {
        forall i | 0 <= i < |s[1..]| - 1 ensures !(s[1..][i] == '-' && s[1..][i + 1] == '-') {
          assert s[1..][i] == s[i + 1] && s[1..][i + 1] == s[i + 2];
        }
      }
      CollapseFixesSingleHyphens(s[1..]);
    }
  }

  /** The third clean-up step: one leading and one trailing hyphen are removed (a lone
      "-" is consumed by the first alternative). */
  function TrimEdgeHyphens(s: string): (r: string)
    ensures NoDoubleHyphen(s) ==> NoEdgeHyphen(r)
    ensures AllSafe(s) ==> AllSafe(r)
    ensures NoDoubleHyphen(s) ==> NoDoubleHyphen(r)
    ensures NoEdgeHyphen(s) ==> r == s
  {
    var a := if |s| > 0 && s[0] == '-' then s[1..] else s;
    if |a| > 0 && a[|a| - 1] == '-' then a[..|a| - 1] else a
  }

  /** Index of the first hyphen, or the length when there is none. */
  function FirstHyphen(s: string): (k: nat)
    ensures k <= |s|
    ensures forall i :: 0 <= i < k ==> s[i] != '-'
    ensures k < |s| ==> s[k] == '-'
  {
    if |s| == 0 || s[0] == '-' then 0 else 1 + FirstHyphen(s[1..])
  }

  /** The non-empty pieces of a name between hyphens, in order: the reference for what
      the clean-up keeps. */
  function Segments(s: string): (r: seq<string>)
    ensures forall j :: 0 <= j < |r| ==> |r[j]| > 0 && '-' !in r[j]
    decreases |s|
  {
    if |s| == 0 then []
    else if s[0] == '-' then Segments(s[1..])
    else
      var k := FirstHyphen(s);
      [s[..k]] + Segments(s[k..])
  }

  /** Pieces joined by single hyphens. */
  function Join(parts: seq<string>): string {
    if |parts| == 0 then ""
    else if |parts| == 1 then parts[0]
    else parts[0] + "-" + Join(parts[1..])
  }

  /** A non-hyphen character in front either starts a new first piece or extends it. */
  lemma SegmentsCons(c: char, t: string)
    requires c != '-'
    ensures |t| == 0 || t[0] == '-' ==> Segments([c] + t) == [[c]] + Segments(t)
    ensures |t| > 0 && t[0] != '-' ==>
      |Segments(t)| > 0 && Segments([c] + t) == [[c] + Segments(t)[0]] + Segments(t)[1..]
  {
    var s := [c] + t;
    assert s[1..] == t;
    if |t| > 0 && t[0] != '-' {
      var k := FirstHyphen(t);
      assert FirstHyphen(s) == 1 + k;
      assert s[..1 + k] == [c] + t[..k];
      assert s[1 + k..] == t[k..];
    }
  }

  /** A trailing hyphen adds no piece. */
  lemma {:induction false} SegmentsTrailingHyphen(a: string)
    ensures Segments(a + "-") == Segments(a)
    decreases |a|
  {
    if |a| == 0 {
      assert Segments("-") == Segments("-"[1..]);
    } else {
      var t := a[1..];
      assert a == [a[0]] + t;
      assert a + "-" == [a[0]] + (t + "-");
      SegmentsTrailingHyphen(t);
      if a[0] == '-' {
        assert (a + "-")[1..] == t + "-";
      } else {
        SegmentsCons(a[0], t);
        SegmentsCons(a[0], t + "-");
        if |t| > 0 {
          assert (t + "-")[0] == t[0];
        }
      }
    }
  }

  /** Collapsing hyphen runs keeps exactly the same pieces. */
  lemma {:induction false} CollapseKeepsSegments(s: string)
    ensures Segments(CollapseHyphens(s)) == Segments(s)
    decreases |s|
  {
    if |s| == 0 {
    } else if |s| >= 2 && s[0] == '-' && s[1] == '-' {
      CollapseKeepsSegments(s[1..]);
    } else {
      var t := s[1..];
      var ct := CollapseHyphens(t);
      CollapseKeepsSegments(t);
      assert s == [s[0]] + t;
      assert CollapseHyphens(s) == [s[0]] + ct;
      if s[0] == '-' {
        assert ([s[0]] + ct)[1..] == ct;
      } else {
        SegmentsCons(s[0], t);
        SegmentsCons(s[0], ct);
      }
    }
  }

  /** Trimming the edge hyphens keeps exactly the same pieces. */
  lemma TrimKeepsSegments(s: string)
    ensures Segments(TrimEdgeHyphens(s)) == Segments(s)
  {
    var a := if |s| > 0 && s[0] == '-' then s[1..] else s;
    assert Segments(a) == Segments(s);
    if |a| > 0 && a[|a| - 1] == '-' {
      var b := a[..|a| - 1];
      assert b + "-" == a;
      SegmentsTrailingHyphen(b);
    }
  }

  /** A name without doubled or edge hyphens is its pieces joined by hyphens. */
  lemma {:induction false} JoinSegments(s: string)
    requires NoDoubleHyphen(s) && NoEdgeHyphen(s)
    ensures Join(Segments(s)) == s
    decreases |s|
  {
    if |s| > 0 {
      var k := FirstHyphen(s);
      if k == |s| {
        assert s[..k] == s;
        assert Segments(s) == [s];
      } else {
        var rest := s[k + 1..];
        assert s[k..][1..] == rest;
        assert |rest| > 0 && rest[0] != '-';
        assert NoDoubleHyphen(rest) by {
          forall i | 0 <= i < |rest| - 1 ensures !(rest[i] == '-' && rest[i + 1] == '-') {
            assert rest[i] == s[k + 1 + i] && rest[i + 1] == s[k + 2 + i];
          }
        }
        assert rest[|rest| - 1] == s[|s| - 1];
        JoinSegments(rest);
        assert Segments(s) == [s[..k]] + Segments(rest);
        assert s == s[..k] + "-" + rest;
      }
    }
  }

  /** The script's clean-up produces the pieces of the hyphen-for-unsafe replacement,
      joined by single hyphens: no piece is lost, none is split, none is merged. */
  lemma CleanIsJoinedSegments(s: string)
    ensures Clean(s) == Join(Segments(ReplaceUnsafe(s)))
  {
    var c := CollapseHyphens(ReplaceUnsafe(s));
    CollapseKeepsSegments(ReplaceUnsafe(s));
    TrimKeepsSegments(c);
    JoinSegments(Clean(s));
  }

  /** The three clean-up replaces, in the script's order. */
  function Clean(s: string): (r: string)
    ensures IsCleanName(r)
  {
    TrimEdgeHyphens(CollapseHyphens(ReplaceUnsafe(s)))
  }

  /** A name that is already clean passes through the clean-up unchanged. */
  lemma CleanFixesCleanNames(s: string)
    requires IsCleanName(s)
    ensures Clean(s) == s
  {
    assert ReplaceUnsafe(s) == s;
    CollapseFixesSingleHyphens(s);
  }

  /** The clean-up is idempotent. */
  lemma CleanIdempotent(s: string)
    ensures Clean(Clean(s)) == Clean(s)
  {
    CleanFixesCleanNames(Clean(s));
  }

  /** `path.parse(file).name` for a bare directory entry: the entry cut at its last dot,
      except that the whole entry is kept when it has no dot, when its only dot is its
      first character (".gitignore"), or when it is exactly "..". */
  function ParseName(file: string): (name: string)
    requires '/' !in file
    ensures name == file <==>
      '.' !in file || (|file| > 0 && file[0] == '.' && '.' !in file[1..]) || file == ".."
    ensures name != file ==>
      0 < |name| < |file| && name == file[..|name|] &&
      file[|name|] == '.' && '.' !in file[|name| + 1..]
  {
    var dot := LastDot(file);
    if dot <= 0 || file == ".." then file else file[..dot]
  }

  /** Entries that start with two dots are cut at their last dot, except the exact "..". */
  lemma ParseNameLeadingDots()
    ensures ParseName("..mp4") == "."
    ensures ParseName("...") == ".."
    ensures ParseName("..") == ".."
  {
    assert LastDot("..mp4") == 1 by {
      assert "..mp4"[..4] == "..mp";
      assert LastDot("..mp") == 1 by {
        assert "..mp"[..3] == "..m";
        assert LastDot("..m") == 1 by { assert "..m"[..2] == ".."; }
      }
    }
    assert LastDot("...") == 2;
  }

  /** A single leading dot keeps the whole entry; otherwise the last extension goes. */
  lemma ParseNameHiddenAndDotted()
    ensures ParseName(".hidden") == ".hidden"
    ensures ParseName("a.b.mp4") == "a.b"
  {
    var h := ".hidden";
    assert h[0] == '.' && '.' !in h[1..];
    assert LastDot("a.b.mp4") == 3 by {
      assert "a.b.mp4"[..6] == "a.b.mp" && "a.b.mp"[..5] == "a.b.m" && "a.b.m"[..4] == "a.b.";
    }
  }

  /** Index of the last '.', or -1. */
  function LastDot(s: string): (k: int)
    ensures -1 <= k < |s|
    ensures k >= 0 ==> s[k] == '.' && '.' !in s[k + 1..]
    ensures k == -1 ==> '.' !in s
  {
    if |s| == 0 then -1
    else if s[|s| - 1] == '.' then |s| - 1
    else
      var k := LastDot(s[..|s| - 1]);
      assert s[..|s| - 1] + [s[|s| - 1]] == s;
      k
  }

  /** The short name shared by the encodings and the poster. `rewrite` stands for the
      script's first replace, which shortens one particular asset name. */
  function ShortName(file: string, rewrite: string -> string): (r: string)
    requires '/' !in file
    ensures IsCleanName(r)
  {
    Clean(rewrite(ParseName(file)))
  }

  /** `getOptimizedFilename`: short name, format suffix, a dot, format extension. */
  function OptimizedFilename(file: string, format: Format, rewrite: string -> string): (r: string)
    requires '/' !in file
    ensures |r| == |ShortName(file, rewrite)| + |format.suffix| + 1 + |format.extension|
    ensures r[..|ShortName(file, rewrite)|] == ShortName(file, rewrite)
    ensures EndsWith(r, format.suffix + "." + format.extension)
  {
    ShortName(file, rewrite) + format.suffix + "." + format.extension
  }

  /** The output name splits back into the clean short name, the suffix and the
      extension. */
  lemma OptimizedFilenameParts(file: string, format: Format, rewrite: string -> string)
    requires '/' !in file
    ensures var out := OptimizedFilename(file, format, rewrite);
      var stem := |out| - |format.suffix| - 1 - |format.extension|;
      0 <= stem && out[..stem] == ShortName(file, rewrite) && IsCleanName(out[..stem]) &&
      out[stem..] == format.suffix + "." + format.extension
  {
    var out := OptimizedFilename(file, format, rewrite);
    var stem := |ShortName(file, rewrite)|;
    assert out == ShortName(file, rewrite) + (format.suffix + "." + format.extension);
    assert out[..stem] == ShortName(file, rewrite);
  }

  /** The four encodings of one file never overwrite each other. */
  lemma OutputNamesDistinct(file: string, rewrite: string -> string)
    requires '/' !in file
    ensures forall i, j :: 0 <= i < j < |Formats| ==>
      OptimizedFilename(file, Formats[i], rewrite) != OptimizedFilename(file, Formats[j], rewrite)
  {
    // the four names have four different lengths
    var n := |ShortName(file, rewrite)|;
    var lens := [n + 5, n + 4, n + 12, n + 11];
    forall k | 0 <= k < 4 ensures |OptimizedFilename(file, Formats[k], rewrite)| == lens[k] {
    }
  }

  /** The poster name from `generatePosterImage`: the same short name plus
      "-poster.jpg". */
  function PosterName(file: string, rewrite: string -> string): (r: string)
    requires '/' !in file
    ensures |r| == |ShortName(file, rewrite)| + 11
    ensures r[..|ShortName(file, rewrite)|] == ShortName(file, rewrite)
    ensures r[|ShortName(file, rewrite)|..] == "-poster.jpg"
  {
    ShortName(file, rewrite) + "-poster.jpg"
  }

  /** Lower-cases the ASCII letters. */
  function AsciiLower(s: string): (r: string)
    ensures |r| == |s|
    ensures forall i :: 0 <= i < |s| ==> (('A' <= s[i] <= 'Z') ==> r[i] == (s[i] as int + 32) as char)
    ensures forall i :: 0 <= i < |s| ==> (!('A' <= s[i] <= 'Z') ==> r[i] == s[i])
  {
    seq(|s|, i requires 0 <= i < |s| => if 'A' <= s[i] <= 'Z' then (s[i] as int + 32) as char else s[i])
  }

  predicate EndsWith(s: string, suffix: string) {
    |suffix| <= |s| && s[|s| - |suffix|..] == suffix
  }

  const VideoExtensions: seq<string> := [".mp4", ".mov", ".avi", ".mkv", ".webm"]

  /** The name's last extension, its dot included, or "" when the name has no dot. */
  function LastExtension(file: string): string {
    var d := LastDot(file);
    if d < 0 then "" else file[d..]
  }

  /** Lower-casing neither creates nor removes dots. */
  lemma LowerKeepsDots(file: string, i: int)
    requires 0 <= i < |file|
    ensures AsciiLower(file)[i] == '.' <==> file[i] == '.'
  {
  }

  /** Lower-casing commutes with taking a suffix. */
  lemma LowerSuffix(file: string, k: nat)
    requires k <= |file|
    ensures AsciiLower(file[k..]) == AsciiLower(file)[k..]
  {
  }

  /** Each video extension is a dot followed by dot-free characters. */
  lemma ExtensionShape(k: int)
    requires 0 <= k < |VideoExtensions|
    ensures var e := VideoExtensions[k];
      |e| >= 4 && e[0] == '.' && forall j :: 1 <= j < |e| ==> e[j] != '.'
  {
  }

  /** A dot with no dot after it is the last dot. */
  lemma LastDotAt(file: string, p: int)
    requires 0 <= p < |file| && file[p] == '.'
    requires forall i :: p < i < |file| ==> file[i] != '.'
    ensures LastDot(file) == p
  {
  }

  /** A lower-cased last extension that is a video extension is a suffix of the
      lower-cased name. */
  lemma LastExtensionGivesSuffix(file: string)
    requires AsciiLower(LastExtension(file)) in VideoExtensions
    ensures exists k :: 0 <= k < |VideoExtensions| && EndsWith(AsciiLower(file), VideoExtensions[k])
  {
    var d := LastDot(file);
    assert d >= 0;
    LowerSuffix(file, d);
    var k :| 0 <= k < |VideoExtensions| && VideoExtensions[k] == AsciiLower(file[d..]);
    assert EndsWith(AsciiLower(file), VideoExtensions[k]);
  }

  /** A video suffix of the lower-cased name is its lower-cased last extension. */
  lemma SuffixGivesLastExtension(file: string, k: int)
    requires 0 <= k < |VideoExtensions| && EndsWith(AsciiLower(file), VideoExtensions[k])
    ensures AsciiLower(LastExtension(file)) == VideoExtensions[k]
  {
    var lo := AsciiLower(file);
    var e := VideoExtensions[k];
    var p := |file| - |e|;
    ExtensionShape(k);
    assert lo[p..] == e;
    LowerKeepsDots(file, p);
    assert lo[p] == lo[p..][0];
    forall i | p < i < |file| ensures file[i] != '.' {
      LowerKeepsDots(file, i);
      assert lo[i] == lo[p..][i - p];
    }
    LastDotAt(file, p);
    LowerSuffix(file, p);
  }

  /** The suffix test of the script is the same as asking whether the lower-cased last
      extension is one of the five video extensions. */
  lemma VideoSuffixIsLastExtension(file: string)
    ensures (exists k :: 0 <= k < |VideoExtensions| && EndsWith(AsciiLower(file), VideoExtensions[k]))
      <==> AsciiLower(LastExtension(file)) in VideoExtensions
  {
    if AsciiLower(LastExtension(file)) in VideoExtensions {
      LastExtensionGivesSuffix(file);
    }
    if exists k :: 0 <= k < |VideoExtensions| && EndsWith(AsciiLower(file), VideoExtensions[k]) {
      var k :| 0 <= k < |VideoExtensions| && EndsWith(AsciiLower(file), VideoExtensions[k]);
      SuffixGivesLastExtension(file, k);
    }
  }

  /** The extension test of `getVideoFiles`: the lower-cased last extension is a video
      extension. */
  function IsVideoFile(file: string): (r: bool)
    ensures r <==> AsciiLower(LastExtension(file)) in VideoExtensions
  {
    VideoSuffixIsLastExtension(file);
    exists k :: 0 <= k < |VideoExtensions| && EndsWith(AsciiLower(file), VideoExtensions[k])
  }

  /** `files.filter(isVideo)`: the video files of the listing, in listing order. */
  function FilterVideos(files: seq<string>): (r: seq<string>)
    ensures |r| <= |files|
    ensures forall f :: f in r <==> f in files && IsVideoFile(f)
    ensures |files| == 1 ==> r == (if IsVideoFile(files[0]) then files else [])
  {
    if files == [] then []
    else if IsVideoFile(files[0]) then [files[0]] + FilterVideos(files[1..])
    else FilterVideos(files[1..])
  }

  /** Filtering a concatenated listing is concatenating the filtered parts: together with
      the one-entry case of `FilterVideos`, the kept entries stay in listing order. */
  lemma {:induction false} FilterVideosAppend(a: seq<string>, b: seq<string>)
    ensures FilterVideos(a + b) == FilterVideos(a) + FilterVideos(b)
  {
    if a != [] {
      assert (a + b)[1..] == a[1..] + b;
      assert (a + b)[0] == a[0];
      FilterVideosAppend(a[1..], b);
    } else {
      assert a + b == b;
    }
  }

  /** `getVideoFiles`: a missing input directory gives no files; otherwise the video
      entries of the listing, in listing order. */
  function GetVideoFiles(listing: Option<seq<string>>): (r: seq<string>)
    ensures listing.None? ==> r == []
    ensures listing.Some? ==> forall f :: f in r <==> f in listing.value && IsVideoFile(f)
    ensures listing.Some? ==> r == FilterVideos(listing.value)
  {
    match listing
    case None => []
    case Some(files) => FilterVideos(files)
  }

  /** Filtering a listing that holds only videos keeps it whole and in order. */
  lemma {:induction false} FilterKeepsAllVideos(files: seq<string>)
    requires forall i :: 0 <= i < |files| ==> IsVideoFile(files[i])
    ensures FilterVideos(files) == files
  {
    if files != [] {
      FilterKeepsAllVideos(files[1..]);
    }
  }

  /** The extension test ignores ASCII case. */
  lemma UpperCaseExtensionAccepted()
    ensures IsVideoFile("Intro.MP4")
  {
    var lo := AsciiLower("Intro.MP4");
    assert lo[5..] == ".mp4";
    assert EndsWith(lo, VideoExtensions[0]);
  }

  /** An image is not a video. */
  lemma ImageRejected()
    ensures !IsVideoFile("poster.jpg")
  {
    var lo := AsciiLower("poster.jpg");
    assert lo[|lo| - 1] == 'g';
    forall k | 0 <= k < |VideoExtensions| ensures !EndsWith(lo, VideoExtensions[k]) {
      var e := VideoExtensions[k];
      assert e[|e| - 1] != 'g';
    }
  }
}
