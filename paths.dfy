/** The `path` helpers of Node.js, simplified to '/'-separated paths that do not end in
    '/'. The functions carry no contracts of their own so that callers that only pass
    their results around do not pay for them; the lemmas below state what they mean. */
module Paths {
  import opened Strings

  /** What follows the last '/' of `p` (all of `p` when it has none). */
  function LastSegment(p: string): string {
    p[LastIndexOf(p, '/') + 1..]
  }

  /** `path.extname(p)`: from the last '.' of the last segment to its end, or "" when
      that segment has no '.' after its first character or is "..". */
  function ExtName(p: string): string {
    var seg := LastSegment(p);
    var dot := LastIndexOf(seg, '.');
    if dot <= 0 || seg == ".." then "" else seg[dot..]
  }

  /** `path.dirname(p)`: everything before the last '/', "/" when that is the first
      character, and "." when there is none. */
  function DirName(p: string): string {
    var slash := LastIndexOf(p, '/');
    if slash < 0 then "."
    else if slash == 0 then "/"
    else p[..slash]
  }

  /** `ext` is a non-empty proper suffix of the segment `seg`. */
  predicate StripsExt(seg: string, ext: string) {
    0 < |ext| < |seg| && EndsWith(seg, ext)
  }

  /** `path.basename(p, ext)`: the last segment with `ext` removed from its end, unless
      `ext` is all of that segment; "" when `ext` is all of `p`. */
  function BaseName(p: string, ext: string): string {
    if p == ext then ""
    else
      var seg := LastSegment(p);
      if StripsExt(seg, ext) then seg[..|seg| - |ext|] else seg
  }

  /** The last segment is the longest suffix without a '/'. */
  lemma LastSegmentShape(p: string)
    ensures EndsWith(p, LastSegment(p))
    ensures forall j :: 0 <= j < |LastSegment(p)| ==> LastSegment(p)[j] != '/'
    ensures |LastSegment(p)| < |p| ==> p[|p| - |LastSegment(p)| - 1] == '/'
  {
  }

  /** The extension is empty exactly when the last segment is ".." or has no '.' after
      its first character; otherwise it starts at the last '.' of that segment and is a
      proper suffix of it. */
  lemma ExtNameShape(p: string)
    ensures ExtName(p) == "" <==>
      LastSegment(p) == ".." || forall j :: 1 <= j < |LastSegment(p)| ==> LastSegment(p)[j] != '.'
    ensures ExtName(p) != "" ==> ExtName(p)[0] == '.'
    ensures ExtName(p) != "" ==> forall j :: 1 <= j < |ExtName(p)| ==> ExtName(p)[j] != '.'
    ensures ExtName(p) != "" ==> StripsExt(LastSegment(p), ExtName(p))
  {
    var seg := LastSegment(p);
    var dot := LastIndexOf(seg, '.');
    if 0 < dot && seg != ".." {
      assert ExtName(p) == seg[dot..];
      assert seg[|seg| - |seg[dot..]|..] == seg[dot..];
    }
  }

  /** The `.go` filter: the extension is ".go" exactly when the last segment ends in
      ".go" after at least one more character. */
  lemma ExtNameIsGo(p: string)
    ensures ExtName(p) == ".go" <==> |LastSegment(p)| > 3 && EndsWith(LastSegment(p), ".go")
  {
    var seg := LastSegment(p);
    ExtNameShape(p);
    if |seg| > 3 && EndsWith(seg, ".go") {
      assert seg[|seg| - 3] == '.' && seg[|seg| - 2] != '.' && seg[|seg| - 1] != '.';
      assert LastIndexOf(seg, '.') == |seg| - 3;
    }
  }

  /** The directory and the last segment put back together give the path. */
  lemma DirNameShape(p: string)
    ensures '/' !in p ==> DirName(p) == "."
    ensures '/' in p ==> p == DirName(p) + "/" + LastSegment(p) || (DirName(p) == "/" && p == DirName(p) + LastSegment(p))
    ensures '/' in p ==> DirName(p) != ""
    ensures '/' in p && '/' !in p[1..] ==> DirName(p) == "/"
  {
    var slash := LastIndexOf(p, '/');
    if 0 < slash {
      assert p == p[..slash] + "/" + p[slash + 1..];
    }
  }

  /** The base name followed by the extension it dropped gives the last segment. */
  lemma BaseNameShape(p: string, ext: string)
    ensures p == ext ==> BaseName(p, ext) == ""
    ensures p != ext && StripsExt(LastSegment(p), ext) ==> BaseName(p, ext) + ext == LastSegment(p)
    ensures p != ext && !StripsExt(LastSegment(p), ext) ==> BaseName(p, ext) == LastSegment(p)
  {
    var seg := LastSegment(p);
    if p != ext && StripsExt(seg, ext) {
      assert seg == seg[..|seg| - |ext|] + seg[|seg| - |ext|..];
    }
  }
}
